/**
 * A run that loses a pinned publication to a second leader: the second in-flight check does not
 * look at the disk again, so that leader takes the slot of a fresh publication, renames over it,
 * and an earlier waiter ends with "artifact missing after inflight completion".
 */
module ProtocolRace {
  import opened Basics
  import opened Protocol
  import Packed

  /** Some actions lead from `s` to `t`. */
  ghost predicate Reaches(s: State, t: State) {
    exists r :: IsPath(r) && r.states[0] == s && r.states[|r.actions|] == t
  }

  lemma ReachesThen(s: State, t: State, u: State)
    requires Reaches(s, t) && Reaches(t, u)
    ensures Reaches(s, u)
  {
    var p :| IsPath(p) && p.states[0] == s && p.states[|p.actions|] == t;
    var q :| IsPath(q) && q.states[0] == t && q.states[|q.actions|] == u;
    var r := Run(p.states + q.states[1..], p.actions + q.actions);
    forall i {:trigger r.actions[i]} | 0 <= i < |r.actions|
      ensures Can(r.states[i], r.actions[i]) && r.states[i + 1] == Do(r.states[i], r.actions[i])
    {
      if i < |p.actions| {
        assert r.actions[i] == p.actions[i];
      } else {
        assert r.actions[i] == q.actions[i - |p.actions|];
      }
    }
    assert IsPath(r) && r.states[0] == s && r.states[|r.actions|] == u;
  }

  lemma Reach(s: State, a: Action)
    requires Can(s, a)
    ensures Reaches(s, Do(s, a))
  {
    var r := Run([s, Do(s, a)], [a]);
    assert IsPath(r) && r.states[0] == s && r.states[|r.actions|] == Do(s, a);
  }

  lemma ClientReach(s: State, c: ClientId, step: ClientStep, t: State)
    requires ClientCan(s, c, step) && ClientDo(s, c, step) == t
    ensures Reaches(s, t)
  {
    Reach(s, ClientDoes(c, step));
  }

  lemma FetchReach(s: State, f: FlightId, step: FetchStep, t: State)
    requires FetchCan(s, f, step) && FetchDo(s, f, step) == t
    ensures Reaches(s, t)
  {
    Reach(s, FetchDoes(f, step));
  }

  lemma FinishReach(s: State, f: FlightId, step: FinishStep, t: State)
    requires FinishCan(s, f, step) && FinishDo(s, f, step) == t
    ensures Reaches(s, t)
  {
    Reach(s, FinishDoes(f, step));
  }

  const K: Key := Key(Artifact, 0)

  // {"headers":[["content-type","text/html"],["etag","\"a\""],["content-length","0"]],
  //  "last_modified":null,"etag":"\"a\"","status":200}, without the line break
  const META: Bytes := [
    0x7b, 0x22, 0x68, 0x65, 0x61, 0x64, 0x65, 0x72, 0x73, 0x22, 0x3a, 0x5b, 0x5b, 0x22, 0x63, 0x6f,
    0x6e, 0x74, 0x65, 0x6e, 0x74, 0x2d, 0x74, 0x79, 0x70, 0x65, 0x22, 0x2c, 0x22, 0x74, 0x65, 0x78,
    0x74, 0x2f, 0x68, 0x74, 0x6d, 0x6c, 0x22, 0x5d, 0x2c, 0x5b, 0x22, 0x65, 0x74, 0x61, 0x67, 0x22,
    0x2c, 0x22, 0x5c, 0x22, 0x61, 0x5c, 0x22, 0x22, 0x5d, 0x2c, 0x5b, 0x22, 0x63, 0x6f, 0x6e, 0x74,
    0x65, 0x6e, 0x74, 0x2d, 0x6c, 0x65, 0x6e, 0x67, 0x74, 0x68, 0x22, 0x2c, 0x22, 0x30, 0x22, 0x5d,
    0x5d, 0x2c, 0x22, 0x6c, 0x61, 0x73, 0x74, 0x5f, 0x6d, 0x6f, 0x64, 0x69, 0x66, 0x69, 0x65, 0x64,
    0x22, 0x3a, 0x6e, 0x75, 0x6c, 0x6c, 0x2c, 0x22, 0x65, 0x74, 0x61, 0x67, 0x22, 0x3a, 0x22, 0x5c,
    0x22, 0x61, 0x5c, 0x22, 0x22, 0x2c, 0x22, 0x73, 0x74, 0x61, 0x74, 0x75, 0x73, 0x22, 0x3a, 0x32,
    0x30, 0x30, 0x7d]

  const META_LEN: nat := 131
  const ENTRY_LEN: nat := META_LEN + Packed.FOOTER_LEN

  lemma MetaLength()
    ensures |META| == META_LEN
  {
  }

  /** The packed form of an empty body with this metadata. */
  const ENTRY: Bytes := META + [0, 0, 0, META_LEN]

  const NO_DISK: Disk := Disk(map[], map[], map[], map[], {}, {})

  /** A fresh store with two permits and room for one byte. */
  const START: State := State(
    2, 1, map[], map[], 2, {}, 0, map[], NO_DISK, 0, {}, map[], {}, map[], false, Idle, None, NoScan, {}, false, 0)

  lemma StartIsInit()
    ensures Init(START)
  {
  }

  lemma Overwrite<A, B>(m: map<A, B>, k: A, x: B, y: B)
    ensures m[k := x][k := y] == m[k := y]
  {
  }

  lemma PutTaken<A, B>(m: map<A, B>, k: A, x: B)
    requires k !in m
    ensures m[k := x] - {k} == m
  {
  }

  function At(s: State, c: ClientId, pc: ClientPc): State {
    s.(clients := s.clients[c := Client(K, pc)])
  }

  /** A request misses the map and the disk. */
  lemma LooksUp(s: State, c: ClientId)
    requires c !in s.clients && K !in s.registered && !Loads(s.disk, K)
    ensures Reaches(s, At(s, c, SecondCheck))
  {
    var s1, s2, s3 := At(s, c, FirstCheck), At(s, c, DiskCheck), At(s, c, SecondCheck);
    Overwrite(s.clients, c, Client(K, FirstCheck), Client(K, DiskCheck));
    Overwrite(s.clients, c, Client(K, DiskCheck), Client(K, SecondCheck));
    ClientReach(s, c, Arrive(K), s1);
    ClientReach(s1, c, CheckMap, s2);
    ClientReach(s2, c, CheckDisk, s3);
    ReachesThen(s, s1, s2);
    ReachesThen(s, s2, s3);
  }

  /*** A request at its second check leads and publishes an empty entry ***/

  ghost predicate ReadyToLead(s: State, c: ClientId, f: FlightId, ino: Inode) {
    && s.available > 0 && c in s.clients && s.clients[c] == Client(K, SecondCheck)
    && K !in s.registered && f !in s.flights && K !in s.disk.parts && ino !in s.disk.inodes
  }

  /** `s` with `c` waiting on its own flight `f`, and that flight's agent at `fl`. */
  function Led(s: State, c: ClientId, f: FlightId, fl: Flight): State
    requires s.available > 0
  {
    At(s, c, Waiting(f, Polling(0)))
    .(flights := s.flights[f := fl], registered := s.registered[K := f],
      available := s.available - 1, holders := s.holders + {f})
  }

  function WithPart(d: Disk, ino: Inode, bytes: Bytes): Disk {
    d.(parts := d.parts[K := ino], inodes := d.inodes[ino := bytes])
  }

  function WithBody(d: Disk, ino: Inode): Disk {
    d.(bodies := d.bodies[K := ino], inodes := d.inodes[ino := ENTRY], published := d.published + {ino})
  }

  function Fresh(pc: Pc): Flight {
    NewFlight(K).(pc := pc)
  }

  function Footed(pc: Pc): Flight {
    Fresh(pc).(meta := META)
  }

  function Done(pc: Pc, outcome: Option<Outcome>, notifies: nat, ino: Inode): Flight {
    Flight(K, pc, outcome, notifies, Live, [], META, Some(ino))
  }

  /** The leader at `fl` with its temp file. */
  function WritingAt(s: State, c: ClientId, f: FlightId, fl: Flight, ino: Inode, bytes: Bytes): State
    requires s.available > 0
  {
    Led(s, c, f, fl).(disk := WithPart(s.disk, ino, bytes))
  }

  /** The leader at `fl`, its pin in the map. */
  function PinnedAt(s: State, c: ClientId, f: FlightId, fl: Flight, d: Disk): State
    requires s.available > 0
  {
    Led(s, c, f, fl).(disk := d, slots := s.slots[K := f], scan := Taint(s.scan),
                      exposed := s.exposed + Displaced(s.flights, K))
  }

  /** The leader after its rename. */
  function RenamedAt(s: State, c: ClientId, f: FlightId, pc: Pc, outcome: Option<Outcome>, notifies: nat, ino: Inode): State
    requires s.available > 0
  {
    var t := PinnedAt(s, c, f, Done(pc, outcome, notifies, ino), WithBody(s.disk, ino));
    t.(exposed := if BeingRemoved(s.scan, K) then t.exposed + {f} else t.exposed)
  }

  /** The flight is over; its waiter and its pin remain. */
  function Settled(s: State, c: ClientId, f: FlightId, ino: Inode): State
    requires s.available > 0
  {
    RenamedAt(s, c, f, Returned, Some(Cached), 1, ino).(registered := s.registered)
  }

  lemma Creates(s: State, c: ClientId, f: FlightId, ino: Inode)
    requires ReadyToLead(s, c, f, ino)
    ensures LeadCan(s, c, f) && LeadDo(s, c, f) == Led(s, c, f, Fresh(Fetching))
    ensures
      var s1 := Led(s, c, f, Fresh(Fetching));
      FetchCan(s1, f, CreateTemp(ino)) && FetchDo(s1, f, CreateTemp(ino)) == WritingAt(s, c, f, Fresh(Writing(ino)), ino, [])
  {
    Overwrite(s.flights, f, Fresh(Fetching), Fresh(Writing(ino)));
  }

  lemma Appends(s: State, c: ClientId, f: FlightId, ino: Inode)
    requires ReadyToLead(s, c, f, ino)
    ensures
      var s2 := WritingAt(s, c, f, Fresh(Writing(ino)), ino, []);
      && FetchCan(s2, f, AppendFooter(META))
      && FetchDo(s2, f, AppendFooter(META)) == WritingAt(s, c, f, Footed(Footered(ino)), ino, ENTRY)
  {
    MetaLength();
    assert [] + META + Packed.Be32(|META|) == ENTRY;
    Overwrite(s.flights, f, Fresh(Writing(ino)), Footed(Footered(ino)));
    Overwrite(s.disk.inodes, ino, [], ENTRY);
  }

  lemma SameDisplaced(flights: map<FlightId, Flight>, f: FlightId, fl: Flight)
    requires f !in flights && fl.entry.None?
    ensures Displaced(flights[f := fl], K) == Displaced(flights, K)
  {
  }

  lemma Pins(s: State, c: ClientId, f: FlightId, ino: Inode)
    requires ReadyToLead(s, c, f, ino)
    ensures
      var s3 := WritingAt(s, c, f, Footed(Footered(ino)), ino, ENTRY);
      && FetchCan(s3, f, Pin)
      && FetchDo(s3, f, Pin) == PinnedAt(s, c, f, Footed(Pinned(ino)).(pin := Live), WithPart(s.disk, ino, ENTRY))
  {
    Overwrite(s.flights, f, Footed(Footered(ino)), Footed(Pinned(ino)).(pin := Live));
    SameDisplaced(s.flights, f, Footed(Footered(ino)));
  }

  lemma RenamesDisk(d: Disk, ino: Inode)
    requires K !in d.parts
    ensures WithPart(d, ino, ENTRY).(
      bodies := d.bodies[K := ino], parts := WithPart(d, ino, ENTRY).parts - {K}, published := d.published + {ino})
      == WithBody(d, ino)
  {
    PutTaken(d.parts, K, ino);
  }

  lemma Renames(s: State, c: ClientId, f: FlightId, ino: Inode)
    requires ReadyToLead(s, c, f, ino)
    ensures
      var s4 := PinnedAt(s, c, f, Footed(Pinned(ino)).(pin := Live), WithPart(s.disk, ino, ENTRY));
      FetchCan(s4, f, Rename) && FetchDo(s4, f, Rename) == RenamedAt(s, c, f, Published, None, 0, ino)
  {
    Overwrite(s.flights, f, Footed(Pinned(ino)).(pin := Live), Done(Published, None, 0, ino));
    RenamesDisk(s.disk, ino);
    TaintKeepsPhase(s.scan);
  }

  lemma TaintKeepsPhase(scan: Scan)
    ensures BeingRemoved(Taint(scan), K) == BeingRemoved(scan, K)
  {
  }

  lemma Resolves(s: State, c: ClientId, f: FlightId, ino: Inode)
    requires ReadyToLead(s, c, f, ino)
    ensures
      var s5, s6 := RenamedAt(s, c, f, Published, None, 0, ino), RenamedAt(s, c, f, Notifying, Some(Cached), 0, ino);
      FinishCan(s5, f, Resolve) && FinishDo(s5, f, Resolve) == s6
  {
    Overwrite(s.flights, f, Done(Published, None, 0, ino), Done(Notifying, Some(Cached), 0, ino));
  }

  lemma Notifies(s: State, c: ClientId, f: FlightId, ino: Inode)
    requires ReadyToLead(s, c, f, ino)
    ensures
      var s6 := RenamedAt(s, c, f, Notifying, Some(Cached), 0, ino);
      var s7 := RenamedAt(s, c, f, Unregistering, Some(Cached), 1, ino);
      FinishCan(s6, f, Notify) && FinishDo(s6, f, Notify) == s7
  {
    Overwrite(s.flights, f, Done(Notifying, Some(Cached), 0, ino), Done(Unregistering, Some(Cached), 1, ino));
  }

  lemma Unregisters(s: State, c: ClientId, f: FlightId, ino: Inode)
    requires ReadyToLead(s, c, f, ino)
    ensures
      var s7 := RenamedAt(s, c, f, Unregistering, Some(Cached), 1, ino);
      FinishCan(s7, f, Unregister) && FinishDo(s7, f, Unregister) == Settled(s, c, f, ino)
  {
    Overwrite(s.flights, f, Done(Unregistering, Some(Cached), 1, ino), Done(Returned, Some(Cached), 1, ino));
    PutTaken(s.registered, K, f);
  }

  lemma ReachesTemp(s: State, c: ClientId, f: FlightId, ino: Inode)
    requires ReadyToLead(s, c, f, ino)
    ensures Reaches(s, WritingAt(s, c, f, Footed(Footered(ino)), ino, ENTRY))
  {
    var s1, s2 := Led(s, c, f, Fresh(Fetching)), WritingAt(s, c, f, Fresh(Writing(ino)), ino, []);
    var s3 := WritingAt(s, c, f, Footed(Footered(ino)), ino, ENTRY);
    Creates(s, c, f, ino);
    Appends(s, c, f, ino);
    Reach(s, Leads(c, f));
    FetchReach(s1, f, CreateTemp(ino), s2);
    FetchReach(s2, f, AppendFooter(META), s3);
    ReachesThen(s, s1, s2);
    ReachesThen(s, s2, s3);
  }

  lemma ReachesRename(s: State, c: ClientId, f: FlightId, ino: Inode)
    requires ReadyToLead(s, c, f, ino)
    ensures Reaches(WritingAt(s, c, f, Footed(Footered(ino)), ino, ENTRY), RenamedAt(s, c, f, Published, None, 0, ino))
  {
    var s3 := WritingAt(s, c, f, Footed(Footered(ino)), ino, ENTRY);
    var s4 := PinnedAt(s, c, f, Footed(Pinned(ino)).(pin := Live), WithPart(s.disk, ino, ENTRY));
    var s5 := RenamedAt(s, c, f, Published, None, 0, ino);
    Pins(s, c, f, ino);
    Renames(s, c, f, ino);
    FetchReach(s3, f, Pin, s4);
    FetchReach(s4, f, Rename, s5);
    ReachesThen(s3, s4, s5);
  }

  lemma ReachesSettled(s: State, c: ClientId, f: FlightId, ino: Inode)
    requires ReadyToLead(s, c, f, ino)
    ensures Reaches(RenamedAt(s, c, f, Published, None, 0, ino), Settled(s, c, f, ino))
  {
    var s5, s6 := RenamedAt(s, c, f, Published, None, 0, ino), RenamedAt(s, c, f, Notifying, Some(Cached), 0, ino);
    var s7, s8 := RenamedAt(s, c, f, Unregistering, Some(Cached), 1, ino), Settled(s, c, f, ino);
    Resolves(s, c, f, ino);
    Notifies(s, c, f, ino);
    Unregisters(s, c, f, ino);
    FinishReach(s5, f, Resolve, s6);
    FinishReach(s6, f, Notify, s7);
    FinishReach(s7, f, Unregister, s8);
    ReachesThen(s5, s6, s7);
    ReachesThen(s5, s7, s8);
  }

  lemma Commits(s: State, c: ClientId, f: FlightId, ino: Inode)
    requires ReadyToLead(s, c, f, ino)
    ensures Reaches(s, Settled(s, c, f, ino))
  {
    ReachesTemp(s, c, f, ino);
    ReachesRename(s, c, f, ino);
    ReachesSettled(s, c, f, ino);
    var s3, s5 := WritingAt(s, c, f, Footed(Footered(ino)), ino, ENTRY), RenamedAt(s, c, f, Published, None, 0, ino);
    ReachesThen(s, s3, s5);
    ReachesThen(s, s5, Settled(s, c, f, ino));
  }

  /*** The first waiter takes its outcome, the second leaves, its pin goes, the janitor evicts ***/

  lemma Receives(s: State, c: ClientId, f: FlightId)
    requires c in s.clients && s.clients[c] == Client(K, Waiting(f, Polling(0)))
    requires f in s.flights && s.flights[f].outcome == Some(Cached) && s.flights[f].notifies == 1
    ensures Reaches(s, At(s, c, Waiting(f, Got(Cached))))
  {
    var s1, s2 := At(s, c, Waiting(f, Armed(1, 0))), At(s, c, Waiting(f, Got(Cached)));
    Overwrite(s.clients, c, Client(K, Waiting(f, Armed(1, 0))), Client(K, Waiting(f, Got(Cached))));
    ClientReach(s, c, TakeHandle, s1);
    ClientReach(s1, c, CheckOutcome, s2);
    ReachesThen(s, s1, s2);
  }

  /** The last waiter of `f` gone and its pin released, the request sent. */
  function Dropped(s: State, c: ClientId, f: FlightId): State
    requires f in s.flights
  {
    s.(clients := s.clients - {c}, flights := s.flights[f := s.flights[f].(pin := Released(true))],
       slots := s.slots - {K}, sent := s.sent[f := s.scanStarts], queue := true)
  }

  lemma Drops(s: State, c: ClientId, f: FlightId)
    requires c in s.clients && f in s.flights && f !in s.sending
    requires s.flights[f].key == K && s.flights[f].pc.Returned? && s.flights[f].pin.Live?
    requires K in s.slots && s.slots[K] == f
    requires forall d :: d in s.clients && WaitsOn(s.clients[d], f) ==> d == c
    ensures Reaches(s, Dropped(s, c, f))
  {
    var s1 := s.(clients := s.clients - {c});
    var s2 := s1.(flights := s.flights[f := s.flights[f].(pin := Released(true))],
                  slots := s.slots - {K}, sending := s.sending + {f});
    assert s.sending + {f} - {f} == s.sending;
    ClientReach(s, c, Leave, s1);
    Reach(s1, PinDoes(f, Unpin));
    Reach(s2, PinDoes(f, TrySend));
    ReachesThen(s, s1, s2);
    ReachesThen(s, s2, Dropped(s, c, f));
  }

  /** One unpinned entry on disk, and a request queued. */
  ghost predicate ReadyToEvict(s: State, ino: Inode) {
    && s.queue && s.janitor.Idle? && s.lock.None? && s.scan.NoScan? && s.slots == map[] && s.sending == {}
    && s.maxSize < ENTRY_LEN && s.disk.bodies == map[K := ino] && ino in s.disk.inodes && s.disk.inodes[ino] == ENTRY
  }

  function ScanAt(s: State, phase: ScanPhase, remaining: map<Key, nat>, total: nat): State {
    s.(queue := false, janitor := Scanning, lock := Some(ByJanitor), scanStarts := s.scanStarts + 1, unpaid := false,
       scan := Running(phase, remaining, total, false))
  }

  lemma StartsScan(s: State, ino: Inode)
    requires ReadyToEvict(s, ino)
    ensures Reaches(s, ScanAt(s, Listing({K}), map[], 0))
  {
    var s1 := s.(queue := false, janitor := Received);
    var s2 := s.(queue := false, janitor := Draining, lock := Some(ByJanitor));
    assert s.disk.bodies.Keys == {K};
    Reach(s, JanitorDoes(Recv));
    Reach(s1, JanitorDoes(TakeLock));
    Reach(s2, JanitorDoes(StartScan));
    ReachesThen(s, s1, s2);
    ReachesThen(s, s2, ScanAt(s, Listing({K}), map[], 0));
  }

  lemma ScanReach(s: State, step: ScanStep, t: State)
    requires ScanCan(s, step) && ScanDo(s, step) == t
    ensures Reaches(s, t)
  {
    Reach(s, ScanDoes(step));
  }

  lemma Lists(s: State, ino: Inode)
    requires ReadyToEvict(s, ino)
    ensures Reaches(ScanAt(s, Listing({K}), map[], 0), ScanAt(s, Deciding, map[K := ENTRY_LEN], ENTRY_LEN))
  {
    var s3, s4 := ScanAt(s, Listing({K}), map[], 0), ScanAt(s, Listing({K}), map[K := ENTRY_LEN], 0);
    SumRemove(map[K := ENTRY_LEN], K);
    assert map[K := ENTRY_LEN] - {K} == map[];
    ScanReach(s3, ListOne(K), s4);
    ScanReach(s4, FinishListing, ScanAt(s, Deciding, map[K := ENTRY_LEN], ENTRY_LEN));
    ReachesThen(s3, s4, ScanAt(s, Deciding, map[K := ENTRY_LEN], ENTRY_LEN));
  }

  function Evicted(s: State): State {
    ScanAt(s, Deciding, map[], 0).(disk := s.disk.(bodies := map[]))
  }

  lemma Removes(s: State, ino: Inode)
    requires ReadyToEvict(s, ino)
    ensures Reaches(ScanAt(s, Deciding, map[K := ENTRY_LEN], ENTRY_LEN), Evicted(s))
  {
    var s5, s6 := ScanAt(s, Deciding, map[K := ENTRY_LEN], ENTRY_LEN), ScanAt(s, Removing(K), map[K := ENTRY_LEN], ENTRY_LEN);
    assert map[K := ENTRY_LEN] - {K} == map[];
    assert map[K := ino] - {K} == map[];
    ScanReach(s5, Check(K), s6);
    ScanReach(s6, Remove(K, true), Evicted(s));
    ReachesThen(s5, s6, Evicted(s));
  }

  lemma Evicts(s: State, ino: Inode)
    requires ReadyToEvict(s, ino)
    ensures Reaches(s, Evicted(s))
  {
    StartsScan(s, ino);
    Lists(s, ino);
    Removes(s, ino);
    ReachesThen(s, ScanAt(s, Listing({K}), map[], 0), ScanAt(s, Deciding, map[K := ENTRY_LEN], ENTRY_LEN));
    ReachesThen(s, ScanAt(s, Deciding, map[K := ENTRY_LEN], ENTRY_LEN), Evicted(s));
  }

  /*** The whole run ***/

  function Missed(): State {
    At(At(START, 1, SecondCheck), 2, SecondCheck)
  }

  function FirstServed(): State {
    At(Settled(Missed(), 1, 0, 0), 1, Waiting(0, Got(Cached)))
  }

  function SecondSettled(): State {
    Settled(FirstServed(), 2, 1, 1)
  }

  lemma BothMiss()
    ensures Reaches(START, Missed())
  {
    LooksUp(START, 1);
    LooksUp(At(START, 1, SecondCheck), 2);
    ReachesThen(START, At(START, 1, SecondCheck), Missed());
  }

  lemma FirstPublishes()
    ensures Reaches(START, FirstServed())
  {
    BothMiss();
    Commits(Missed(), 1, 0, 0);
    Receives(Settled(Missed(), 1, 0, 0), 1, 0);
    ReachesThen(START, Missed(), Settled(Missed(), 1, 0, 0));
    ReachesThen(START, Settled(Missed(), 1, 0, 0), FirstServed());
  }

  lemma SecondPublishes()
    ensures Reaches(START, SecondSettled())
  {
    FirstPublishes();
    Commits(FirstServed(), 2, 1, 1);
    ReachesThen(START, FirstServed(), SecondSettled());
  }

  function SecondDropped(): State {
    Dropped(SecondSettled(), 2, 1)
  }

  lemma SecondDrops()
    ensures Reaches(START, SecondDropped())
  {
    SecondPublishes();
    Drops(SecondSettled(), 2, 1);
    ReachesThen(START, SecondSettled(), SecondDropped());
  }

  lemma DroppedIsReady()
    ensures ReadyToEvict(SecondDropped(), 1)
  {
    assert SecondDropped().slots == map[];
    assert SecondDropped().disk.bodies == map[K := 1];
  }

  lemma EntryGone()
    ensures Reaches(START, Gone())
  {
    SecondDrops();
    DroppedIsReady();
    Evicts(SecondDropped(), 1);
    ReachesThen(START, SecondDropped(), Gone());
  }

  function Gone(): State {
    Evicted(SecondDropped())
  }

  lemma LoadMisses()
    ensures ClientCan(Gone(), 1, Load)
    ensures
      var t := ClientDo(Gone(), 1, Load);
      1 in t.clients && t.clients[1].pc.Waiting? && t.clients[1].pc.w.Missing?
  {
  }

  /** A waiter that received `Cached` while its pin was alive can find nothing to load. */
  lemma WaiterCanMiss()
    ensures exists r: Run, c ::
      && IsRun(r) && var s := r.states[|r.actions|];
      c in s.clients && s.clients[c].pc.Waiting? && s.clients[c].pc.w.Missing?
  {
    EntryGone();
    StartIsInit();
    LoadMisses();
    ClientReach(Gone(), 1, Load, ClientDo(Gone(), 1, Load));
    ReachesThen(START, Gone(), ClientDo(Gone(), 1, Load));
  }
}
