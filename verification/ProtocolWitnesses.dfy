/**
 * Two runs that start with a metadata leader. In one it is dropped between its rename and its
 * scan, and leaves a quiet store over its bound. In the other its scan is past the pin check on a
 * key when the only artifact leader of that key publishes, and removes what was published.
 */
module ProtocolWitnesses {
  import opened Basics
  import opened Protocol
  import opened ProtocolRace
  import T = ProtocolTheorems
  import Packed

  const M: Key := Key(Metadata, 0)

  lemma MetaReach(s: State, f: FlightId, step: MetaStep, t: State)
    requires MetaCan(s, f, step) && MetaDo(s, f, step) == t
    ensures Reaches(s, t)
  {
    Reach(s, MetaDoes(f, step));
  }

  /*** A metadata leader publishes an empty entry ***/

  ghost predicate ReadyForMeta(s: State, c: ClientId, f: FlightId, ino: Inode) {
    && s.available > 0 && c !in s.clients && M !in s.registered && f !in s.flights
    && ino !in s.disk.inodes && s.nextTemp !in s.disk.temps && s.lock.None? && s.scan.NoScan?
  }

  /** Before and after its file is written. */
  function MetaFlightAt(pc: Pc, entry: Option<Inode>): Flight {
    Flight(M, pc, None, 0, Unpinned, [], if pc.Fetching? || pc.MetaWriting? then [] else META, entry)
  }

  /** `s` with the leader of `M` at `fl`, the disk `d` and the eviction lock `lock`. */
  function MetaAt(s: State, f: FlightId, fl: Flight, d: Disk, temps: nat, lock: Option<Owner>): State
    requires s.available > 0
  {
    s.(flights := s.flights[f := fl], registered := s.registered[M := f],
       available := s.available - 1, holders := s.holders + {f},
       disk := d, nextTemp := s.nextTemp + temps, lock := lock)
  }

  function WithTemp(s: State, f: FlightId, ino: Inode, bytes: Bytes): Disk {
    s.disk.(temps := s.disk.temps[s.nextTemp := Temp(f, ino)], inodes := s.disk.inodes[ino := bytes])
  }

  function WithMeta(d: Disk, ino: Inode): Disk {
    d.(bodies := d.bodies[M := ino], inodes := d.inodes[ino := ENTRY], published := d.published + {ino})
  }

  lemma MetaLeads(s: State, c: ClientId, f: FlightId, ino: Inode)
    requires ReadyForMeta(s, c, f, ino)
    ensures Reaches(s, MetaAt(s, f, MetaFlightAt(Fetching, None), s.disk, 0, None))
  {
    var s1 := s.(clients := s.clients[c := Client(M, SecondCheck)]);
    PutTaken(s.clients, c, Client(M, SecondCheck));
    ClientReach(s, c, Arrive(M), s1);
    Reach(s1, Leads(c, f));
    ReachesThen(s, s1, MetaAt(s, f, MetaFlightAt(Fetching, None), s.disk, 0, None));
  }

  lemma MetaCreates(s: State, c: ClientId, f: FlightId, ino: Inode)
    requires ReadyForMeta(s, c, f, ino)
    ensures
      var s2 := MetaAt(s, f, MetaFlightAt(Fetching, None), s.disk, 0, None);
      var s3 := MetaAt(s, f, MetaFlightAt(MetaWriting(s.nextTemp), None), WithTemp(s, f, ino, []), 1, None);
      MetaCan(s2, f, MetaCreate(ino, s.nextTemp)) && MetaDo(s2, f, MetaCreate(ino, s.nextTemp)) == s3
  {
    Overwrite(s.flights, f, MetaFlightAt(Fetching, None), MetaFlightAt(MetaWriting(s.nextTemp), None));
  }

  lemma MetaWrites(s: State, c: ClientId, f: FlightId, ino: Inode)
    requires ReadyForMeta(s, c, f, ino)
    ensures
      var s3 := MetaAt(s, f, MetaFlightAt(MetaWriting(s.nextTemp), None), WithTemp(s, f, ino, []), 1, None);
      var s4 := MetaAt(s, f, MetaFlightAt(MetaReady(s.nextTemp), None), WithTemp(s, f, ino, ENTRY), 1, None);
      MetaCan(s3, f, MetaWrite([], META)) && MetaDo(s3, f, MetaWrite([], META)) == s4
  {
    MetaLength();
    assert Packed.Pack([], META) == ENTRY;
    Overwrite(s.flights, f, MetaFlightAt(MetaWriting(s.nextTemp), None), MetaFlightAt(MetaReady(s.nextTemp), None));
    Overwrite(s.disk.inodes, ino, [], ENTRY);
  }

  lemma MetaLocks(s: State, c: ClientId, f: FlightId, ino: Inode)
    requires ReadyForMeta(s, c, f, ino)
    ensures
      var d := WithTemp(s, f, ino, ENTRY);
      var s4 := MetaAt(s, f, MetaFlightAt(MetaReady(s.nextTemp), None), d, 1, None);
      var s5 := MetaAt(s, f, MetaFlightAt(MetaLocked(s.nextTemp), None), d, 1, Some(ByWriter(f)));
      MetaCan(s4, f, MetaLock) && MetaDo(s4, f, MetaLock) == s5
  {
    Overwrite(s.flights, f, MetaFlightAt(MetaReady(s.nextTemp), None), MetaFlightAt(MetaLocked(s.nextTemp), None));
  }

  /** The entry is under its name, the scan not begun. */
  function MetaPublished(s: State, f: FlightId, ino: Inode): State
    requires s.available > 0
  {
    MetaAt(s, f, MetaFlightAt(MetaRenamed, Some(ino)), WithMeta(s.disk, ino), 1, Some(ByWriter(f)))
  }

  lemma MetaRenames(s: State, c: ClientId, f: FlightId, ino: Inode)
    requires ReadyForMeta(s, c, f, ino)
    ensures
      var s5 := MetaAt(s, f, MetaFlightAt(MetaLocked(s.nextTemp), None), WithTemp(s, f, ino, ENTRY), 1, Some(ByWriter(f)));
      MetaCan(s5, f, MetaRename) && MetaDo(s5, f, MetaRename) == MetaPublished(s, f, ino)
  {
    Overwrite(s.flights, f, MetaFlightAt(MetaLocked(s.nextTemp), None), MetaFlightAt(MetaRenamed, Some(ino)));
    PutTaken(s.disk.temps, s.nextTemp, Temp(f, ino));
  }

  lemma MetaPublishes(s: State, c: ClientId, f: FlightId, ino: Inode)
    requires ReadyForMeta(s, c, f, ino)
    ensures Reaches(s, MetaPublished(s, f, ino))
  {
    var n, d := s.nextTemp, WithTemp(s, f, ino, ENTRY);
    var s2 := MetaAt(s, f, MetaFlightAt(Fetching, None), s.disk, 0, None);
    var s3 := MetaAt(s, f, MetaFlightAt(MetaWriting(n), None), WithTemp(s, f, ino, []), 1, None);
    var s4 := MetaAt(s, f, MetaFlightAt(MetaReady(n), None), d, 1, None);
    var s5 := MetaAt(s, f, MetaFlightAt(MetaLocked(n), None), d, 1, Some(ByWriter(f)));
    MetaLeads(s, c, f, ino);
    MetaCreates(s, c, f, ino);
    MetaWrites(s, c, f, ino);
    MetaReach(s2, f, MetaCreate(ino, n), s3);
    MetaReach(s3, f, MetaWrite([], META), s4);
    ReachesThen(s, s2, s3);
    ReachesThen(s, s3, s4);
    MetaFinishes(s, c, f, ino);
    ReachesThen(s, s4, MetaPublished(s, f, ino));
  }

  lemma MetaFinishes(s: State, c: ClientId, f: FlightId, ino: Inode)
    requires ReadyForMeta(s, c, f, ino)
    ensures Reaches(MetaAt(s, f, MetaFlightAt(MetaReady(s.nextTemp), None), WithTemp(s, f, ino, ENTRY), 1, None),
                    MetaPublished(s, f, ino))
  {
    var n, d := s.nextTemp, WithTemp(s, f, ino, ENTRY);
    var s4 := MetaAt(s, f, MetaFlightAt(MetaReady(n), None), d, 1, None);
    var s5 := MetaAt(s, f, MetaFlightAt(MetaLocked(n), None), d, 1, Some(ByWriter(f)));
    MetaLocks(s, c, f, ino);
    MetaRenames(s, c, f, ino);
    MetaReach(s4, f, MetaLock, s5);
    MetaReach(s5, f, MetaRename, MetaPublished(s, f, ino));
    ReachesThen(s4, s5, MetaPublished(s, f, ino));
  }

  /*** The leader is dropped before its scan ***/

  ghost function Abandoned(): State {
    FinishDo(MetaPublished(START, 0, 0), 0, Cancel)
  }

  lemma AbandonedIsOver()
    ensures FinishCan(MetaPublished(START, 0, 0), 0, Cancel)
    ensures T.Quiescent(Abandoned()) && TotalSize(Abandoned()) > Abandoned().maxSize
  {
    var s := MetaPublished(START, 0, 0);
    assert Abandoned().disk == s.disk;
    assert Sizes(s.disk) == map[M := ENTRY_LEN];
    SumRemove(map[M := ENTRY_LEN], M);
    assert map[M := ENTRY_LEN] - {M} == map[];
  }

  /** A store that starts within its bound can be quiet and over it. */
  lemma QuietCanExceed()
    ensures exists r: Run ::
      && IsRun(r) && !r.states[0].unpaid
      && var s := r.states[|r.actions|];
      T.Quiescent(s) && TotalSize(s) > s.maxSize
  {
    StartIsInit();
    MetaPublishes(START, 3, 0, 0);
    AbandonedIsOver();
    FinishReach(MetaPublished(START, 0, 0), 0, Cancel, Abandoned());
    ReachesThen(START, MetaPublished(START, 0, 0), Abandoned());
    var r :| IsPath(r) && r.states[0] == START && r.states[|r.actions|] == Abandoned();
    assert IsRun(r);
  }

  /*** One artifact leader publishes under a scan that is past its pin check ***/

  /** A store with one unreadable entry. */
  const STALE: State :=
    START.(disk := Disk(map[K := 9], map[], map[], map[9 := []], {9}, {}))

  lemma StaleIsInit()
    ensures Init(STALE) && !Loads(STALE.disk, K)
  {
    assert Sizes(STALE.disk) == map[K := 0];
    SumRemove(map[K := 0], K);
    assert map[K := 0] - {K} == map[];
  }

  /** The request has looked at the disk; the metadata leader scans. */
  const LOOKED: State := At(STALE, 2, SecondCheck)

  function ScanBy(phase: ScanPhase, remaining: map<Key, nat>, total: nat): State {
    MetaAt(LOOKED, 5, MetaFlightAt(MetaScanning, Some(0)), WithMeta(LOOKED.disk, 0), 1, Some(ByWriter(5)))
    .(scan := Running(phase, remaining, total, false), scanStarts := 1)
  }

  lemma ScanBegins()
    ensures Reaches(STALE, ScanBy(Listing({K, M}), map[], 0))
  {
    StaleIsInit();
    LooksUp(STALE, 2);
    MetaPublishes(LOOKED, 3, 5, 0);
    var s, t := MetaPublished(LOOKED, 5, 0), ScanBy(Listing({K, M}), map[], 0);
    MetaScans();
    MetaReach(s, 5, MetaScan, t);
    ReachesThen(STALE, LOOKED, s);
    ReachesThen(STALE, s, t);
  }

  lemma MetaScans()
    ensures
      var s := MetaPublished(LOOKED, 5, 0);
      MetaCan(s, 5, MetaScan) && MetaDo(s, 5, MetaScan) == ScanBy(Listing({K, M}), map[], 0)
  {
    var s := MetaPublished(LOOKED, 5, 0);
    Overwrite(LOOKED.flights, 5, MetaFlightAt(MetaRenamed, Some(0)), MetaFlightAt(MetaScanning, Some(0)));
    assert s.disk.bodies.Keys == {K, M};
  }

  lemma ListsBoth()
    ensures Reaches(ScanBy(Listing({K, M}), map[], 0), ScanBy(Deciding, map[K := 0, M := ENTRY_LEN], ENTRY_LEN))
  {
    var must := {K, M};
    var s0, s1 := ScanBy(Listing(must), map[], 0), ScanBy(Listing(must), map[K := 0], 0);
    var s2, s3 := ScanBy(Listing(must), map[K := 0, M := ENTRY_LEN], 0), ScanBy(Deciding, map[K := 0, M := ENTRY_LEN], ENTRY_LEN);
    BothSizes();
    ScanReach(s0, ListOne(K), s1);
    ScanReach(s1, ListOne(M), s2);
    ScanReach(s2, FinishListing, s3);
    ReachesThen(s0, s1, s2);
    ReachesThen(s0, s2, s3);
  }

  lemma BothSizes()
    ensures Sum(map[K := 0, M := ENTRY_LEN]) == ENTRY_LEN
  {
    var m := map[K := 0, M := ENTRY_LEN];
    SumRemove(m, K);
    assert m - {K} == map[M := ENTRY_LEN];
    SumRemove(map[M := ENTRY_LEN], M);
    assert map[M := ENTRY_LEN] - {M} == map[];
  }

  /** The scan is past its pin check on `K`. */
  function Doomed(): State {
    ScanBy(Removing(K), map[K := 0, M := ENTRY_LEN], ENTRY_LEN)
  }

  lemma ReachesDoomed()
    ensures Reaches(STALE, Doomed())
  {
    var s0, s3 := ScanBy(Listing({K, M}), map[], 0), ScanBy(Deciding, map[K := 0, M := ENTRY_LEN], ENTRY_LEN);
    ScanBegins();
    ListsBoth();
    ScanReach(s3, Check(K), Doomed());
    ReachesThen(STALE, s0, s3);
    ReachesThen(STALE, s3, Doomed());
  }

  /** The only artifact leader has published and its waiter was told so. */
  function Told(): State {
    At(Settled(Doomed(), 2, 0, 1), 2, Waiting(0, Got(Cached)))
  }

  lemma ReachesTold()
    ensures Reaches(STALE, Told())
  {
    ReachesDoomed();
    Commits(Doomed(), 2, 0, 1);
    Receives(Settled(Doomed(), 2, 0, 1), 2, 0);
    ReachesThen(STALE, Doomed(), Settled(Doomed(), 2, 0, 1));
    ReachesThen(STALE, Settled(Doomed(), 2, 0, 1), Told());
  }

  /** A waiter was told `Cached` by the only flight of its key, which a scan is about to remove. */
  ghost predicate AboutToMiss(s: State, c: ClientId, f: FlightId) {
    && c in s.clients && s.clients[c] == Client(K, Waiting(f, Got(Cached)))
    && BeingRemoved(s.scan, K) && K in s.scan.remaining
    && forall g :: g in s.flights && s.flights[g].key == K ==> g == f
  }

  ghost predicate LoneMiss(s: State, c: ClientId) {
    && c in s.clients && s.clients[c].pc.Waiting? && s.clients[c].pc.w.Missing?
    && forall g :: g in s.flights && s.flights[g].key == s.clients[c].key ==> g == s.clients[c].pc.f
  }

  lemma RemovesFirst(s: State, c: ClientId, f: FlightId) returns (t: State)
    requires AboutToMiss(s, c, f)
    ensures Reaches(s, t) && K !in t.disk.bodies && t.flights == s.flights && t.clients == s.clients
  {
    t := ScanDo(s, Remove(K, true));
    ScanReach(s, Remove(K, true), t);
  }

  lemma ThenLoads(s: State, c: ClientId, f: FlightId) returns (t: State)
    requires c in s.clients && s.clients[c] == Client(K, Waiting(f, Got(Cached))) && K !in s.disk.bodies
    requires forall g :: g in s.flights && s.flights[g].key == K ==> g == f
    ensures Reaches(s, t) && LoneMiss(t, c)
  {
    t := ClientDo(s, c, Load);
    ClientReach(s, c, Load, t);
  }

  lemma SettledAboutToMiss(s: State, c: ClientId, f: FlightId, ino: Inode)
    requires s.available > 0 && BeingRemoved(s.scan, K) && K in s.scan.remaining
    requires forall g :: g in s.flights ==> s.flights[g].key != K
    ensures AboutToMiss(At(Settled(s, c, f, ino), c, Waiting(f, Got(Cached))), c, f)
  {
    var t := Settled(s, c, f, ino);
    assert t.scan == Taint(s.scan) && t.flights == s.flights[f := Done(Returned, Some(Cached), 1, ino)];
  }

  lemma DoomedIsFree()
    ensures Doomed().available > 0 && BeingRemoved(Doomed().scan, K) && K in Doomed().scan.remaining
    ensures forall g :: g in Doomed().flights ==> Doomed().flights[g].key != K
  {
  }

  /** A waiter can miss although its leader is the only one its key ever had. */
  lemma LoneLeaderCanMiss()
    ensures exists r: Run, c :: IsRun(r) && LoneMiss(r.states[|r.actions|], c)
  {
    StaleIsInit();
    ReachesTold();
    DoomedIsFree();
    SettledAboutToMiss(Doomed(), 2, 0, 1);
    var t := RemovesFirst(Told(), 2, 0);
    var u := ThenLoads(t, 2, 0);
    ReachesThen(STALE, Told(), t);
    ReachesThen(STALE, t, u);
    RunTo(STALE, u, 2);
  }

  lemma RunTo(s: State, t: State, c: ClientId)
    requires Init(s) && Reaches(s, t) && LoneMiss(t, c)
    ensures exists r: Run, c :: IsRun(r) && LoneMiss(r.states[|r.actions|], c)
  {
    var r :| IsPath(r) && r.states[0] == s && r.states[|r.actions|] == t;
    assert IsRun(r) && LoneMiss(r.states[|r.actions|], c);
  }
}
