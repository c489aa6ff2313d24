/** Exactly when a publication is still under its name, and what a waiter then finds. */
module ProtocolPublications {
  import opened Basics
  import opened Protocol
  import opened ProtocolInvariants
  import opened ProtocolPreservation
  import opened ProtocolTheorems
  import Packed

  /** The key's name points at this inode. */
  predicate Named(d: Disk, k: Key, ino: Inode) {
    k in d.bodies && d.bodies[k] == ino
  }

  /** The step renames another file onto the name, or removes the name. */
  predicate Takes(s: State, a: Action, k: Key) {
    || (a.FetchDoes? && a.fs.Rename? && a.f in s.flights && s.flights[a.f].key == k)
    || (a.MetaDoes? && a.ms.MetaRename? && a.f in s.flights && s.flights[a.f].key == k)
    || (a.ScanDoes? && a.ss.Remove? && a.ss.ok && a.ss.key == k)
  }

  /*** One step ***/

  predicate SameName(d: Disk, to: Disk, k: Key) {
    (k in d.bodies <==> k in to.bodies) && (k in d.bodies ==> d.bodies[k] == to.bodies[k])
  }

  lemma FetchNames(s: State, f: FlightId, step: FetchStep, k: Key)
    requires FetchCan(s, f, step) && !Takes(s, FetchDoes(f, step), k)
    ensures SameName(s.disk, FetchDo(s, f, step).disk, k)
  {
  }

  lemma MetaNames(s: State, f: FlightId, step: MetaStep, k: Key)
    requires MetaCan(s, f, step) && !Takes(s, MetaDoes(f, step), k)
    ensures SameName(s.disk, MetaDo(s, f, step).disk, k)
  {
  }

  lemma ScanNames(s: State, step: ScanStep, k: Key)
    requires ScanCan(s, step) && !Takes(s, ScanDoes(step), k)
    ensures SameName(s.disk, ScanDo(s, step).disk, k)
  {
  }

  lemma FinishNames(s: State, f: FlightId, step: FinishStep, k: Key)
    requires FinishCan(s, f, step)
    ensures SameName(s.disk, FinishDo(s, f, step).disk, k)
  {
  }

  lemma QuietNames(s: State, a: Action, k: Key)
    requires Can(s, a) && Bystander(a) && !a.ScanDoes?
    ensures SameName(s.disk, Do(s, a).disk, k)
  {
    match a
    case ClientDoes(c, step) => assert ClientDo(s, c, step).disk == s.disk;
    case Leads(c, g) => assert LeadDo(s, c, g).disk == s.disk;
    case PinDoes(g, step) => assert PinDo(s, g, step).disk == s.disk;
    case JanitorDoes(step) => assert JanitorDo(s, step).disk == s.disk;
    case OtherDoes(step) => OtherNames(s, step);
  }

  lemma OtherNames(s: State, step: OtherStep)
    requires OtherCan(s, step)
    ensures OtherDo(s, step).disk.bodies == s.disk.bodies
  {
  }

  /** Only renames and removals change what a name points at. */
  lemma NameStays(s: State, a: Action, k: Key)
    requires Can(s, a) && !Takes(s, a, k)
    ensures SameName(s.disk, Do(s, a).disk, k)
  {
    if a.FetchDoes? {
      FetchNames(s, a.f, a.fs, k);
    } else if a.MetaDoes? {
      MetaNames(s, a.f, a.ms, k);
    } else if a.ScanDoes? {
      ScanNames(s, a.ss, k);
    } else if a.FinishDoes? {
      FinishNames(s, a.f, a.ns, k);
    } else {
      QuietNames(s, a, k);
    }
  }

  /** They take the name from every inode published before: a rename brings a new one. */
  lemma TakenFrom(s: State, a: Action, k: Key, ino: Inode)
    requires Can(s, a) && Takes(s, a, k) && InvDisk(s) && ino in s.disk.published
    ensures !Named(Do(s, a).disk, k, ino)
  {
    if a.FetchDoes? {
      assert TempOk(s.flights[a.f], a.f, s.disk, s.orphans);
      assert FetchDo(s, a.f, a.fs).disk.bodies == s.disk.bodies[k := s.flights[a.f].pc.ino];
    } else if a.MetaDoes? {
      assert TempOk(s.flights[a.f], a.f, s.disk, s.orphans);
      assert MetaDo(s, a.f, a.ms).disk.bodies == s.disk.bodies[k := s.disk.temps[s.flights[a.f].pc.temp].ino];
    } else {
      assert ScanDo(s, a.ss).disk.bodies == s.disk.bodies - {k};
    }
  }

  /** Whoever takes the name from a publication whose pin is alive finds it exposed. */
  lemma TakerFindsExposed(s: State, a: Action, f: FlightId)
    requires InvFlights(s) && InvPins(s) && Can(s, a) && f in s.flights && Takes(s, a, s.flights[f].key)
    requires s.flights[f].key.kind.Artifact? && s.flights[f].pin.Live? && s.flights[f].entry.Some?
    ensures f in s.exposed
  {
    var fl := s.flights[f];
    assert FlightOk(fl) && PinProtects(fl, f, s.slots, s.disk.bodies, s.scan, s.exposed);
    if a.FetchDoes? {
      assert FetchCan(s, a.f, a.fs) && s.flights[a.f].pc.Pinned? && FlightOk(s.flights[a.f]);
      assert s.slots[fl.key] == a.f;
    }
  }

  /*** Runs ***/

  lemma RunDisk(r: Run, i: nat)
    requires IsRun(r) && i < |r.states|
    ensures InvDisk(r.states[i])
  {
    RunInv(r, i);
  }

  lemma RunTakerFindsExposed(r: Run, m: nat, f: FlightId)
    requires IsRun(r) && m < |r.actions| && f in r.states[m].flights
    requires Takes(r.states[m], r.actions[m], r.states[m].flights[f].key)
    requires
      var fl := r.states[m].flights[f];
      fl.key.kind.Artifact? && fl.pin.Live? && fl.entry.Some?
    ensures f in r.states[m].exposed
  {
    RunInv(r, m);
    TakerFindsExposed(r.states[m], r.actions[m], f);
  }

  /** No step strictly between takes the name. */
  ghost predicate Untaken(r: Run, p: nat, j: nat, k: Key)
    requires |r.states| == |r.actions| + 1 && j < |r.states|
  {
    forall m :: p < m < j ==> !Takes(r.states[m], r.actions[m], k)
  }

  lemma NamedStep(r: Run, i: nat, k: Key, ino: Inode)
    requires IsRun(r) && i < |r.actions| && ino in r.states[i].disk.published
    ensures ino in r.states[i + 1].disk.published
    ensures Named(r.states[i + 1].disk, k, ino)
        <==> Named(r.states[i].disk, k, ino) && !Takes(r.states[i], r.actions[i], k)
  {
    RunDisk(r, i);
    RunStepEvolves(r, i);
    var s, a := r.states[i], r.actions[i];
    assert Can(s, a) && r.states[i + 1] == Do(s, a);
    if Takes(s, a, k) {
      TakenFrom(s, a, k, ino);
    } else {
      NameStays(s, a, k);
    }
  }

  lemma NamedLater(r: Run, i: nat, j: nat, k: Key, ino: Inode)
    requires IsRun(r) && i <= j < |r.actions| && ino in r.states[i].disk.published
    ensures LostWhenTaken(r, j, k, ino)
  {
    PublishedFrozen(r, i, j, ino);
    NamedStep(r, j, k, ino);
  }

  /** At this step the inode keeps its name exactly when nothing takes it. */
  ghost predicate LostWhenTaken(r: Run, m: nat, k: Key, ino: Inode)
    requires m < |r.actions| && |r.states| == |r.actions| + 1
  {
    var kept := Named(r.states[m].disk, k, ino) && !Takes(r.states[m], r.actions[m], k);
    Named(r.states[m + 1].disk, k, ino) <==> kept
  }

  lemma {:induction false} HoldsWhileUntaken(r: Run, p: nat, j: nat, k: Key, ino: Inode)
    requires |r.states| == |r.actions| + 1 && p < j < |r.states| && Named(r.states[p + 1].disk, k, ino)
    requires forall m :: p < m < j ==> LostWhenTaken(r, m, k, ino)
    ensures Named(r.states[j].disk, k, ino) <==> Untaken(r, p, j, k)
    decreases j
  {
    if j > p + 1 {
      HoldsWhileUntaken(r, p, j - 1, k, ino);
      assert LostWhenTaken(r, j - 1, k, ino);
    }
  }

  lemma NamedWhileUntaken(r: Run, p: nat, j: nat, k: Key, ino: Inode)
    requires IsRun(r) && p < j < |r.states| && ino in r.states[p + 1].disk.published && Named(r.states[p + 1].disk, k, ino)
    ensures Named(r.states[j].disk, k, ino) <==> Untaken(r, p, j, k)
  {
    forall m | p < m < j ensures LostWhenTaken(r, m, k, ino) {
      NamedLater(r, p + 1, m, k, ino);
    }
    HoldsWhileUntaken(r, p, j, k, ino);
  }

  lemma RenameNames(s: State, f: FlightId)
    requires FetchCan(s, f, Rename)
    ensures
      var t := FetchDo(s, f, Rename);
      && t.flights[f].entry.Some? && t.flights[f].entry.value in t.disk.published
      && Named(t.disk, t.flights[f].key, t.flights[f].entry.value)
  {
  }

  lemma RunRenames(r: Run, p: nat, f: FlightId)
    requires IsRun(r) && p < |r.actions| && r.actions[p] == FetchDoes(f, Rename)
    ensures f in r.states[p + 1].flights && r.states[p + 1].flights[f].entry.Some?
    ensures
      var fl, d := r.states[p + 1].flights[f], r.states[p + 1].disk;
      fl.entry.value in d.published && Named(d, fl.key, fl.entry.value)
  {
    assert Can(r.states[p], r.actions[p]) && r.states[p + 1] == Do(r.states[p], r.actions[p]);
    RenameNames(r.states[p], f);
  }

  /** From its rename on, a flight keeps its key and its entry. */
  lemma EntryKept(r: Run, p: nat, j: nat, f: FlightId)
    requires IsRun(r) && p < j < |r.states| && r.actions[p] == FetchDoes(f, Rename)
    ensures f in r.states[p + 1].flights && f in r.states[j].flights
    ensures
      var fl, to := r.states[p + 1].flights[f], r.states[j].flights[f];
      to.key == fl.key && to.entry == fl.entry && fl.entry.Some?
  {
    RunRenames(r, p, f);
    RunEvolves(r, p + 1, j);
  }

  /**
   * A publication is under its name at `j` exactly when, since its rename at `p`, no other rename
   * and no scan took the name.
   */
  lemma PublishedWhileUntaken(r: Run, p: nat, j: nat, f: FlightId)
    requires IsRun(r) && p < j < |r.states| && r.actions[p] == FetchDoes(f, Rename)
    ensures f in r.states[j].flights && r.states[j].flights[f].entry.Some?
    ensures
      var fl := r.states[j].flights[f];
      Named(r.states[j].disk, fl.key, fl.entry.value) <==> Untaken(r, p, j, fl.key)
  {
    RunRenames(r, p, f);
    EntryKept(r, p, j, f);
    var fl := r.states[p + 1].flights[f];
    NamedWhileUntaken(r, p, j, fl.key, fl.entry.value);
  }

  /** Before `j` a step took the name of the flight, with its pin alive and the flight exposed. */
  ghost predicate TakenExposed(r: Run, p: nat, j: nat, f: FlightId)
    requires |r.states| == |r.actions| + 1 && j < |r.states|
  {
    exists m :: p < m < j && TakesExposed(r.states[m], r.actions[m], f)
  }

  predicate TakesExposed(s: State, a: Action, f: FlightId) {
    f in s.flights && s.flights[f].pin.Live? && f in s.exposed && Takes(s, a, s.flights[f].key)
  }

  /** While a pin is alive, the name is lost only to a step that finds the publication exposed. */
  lemma LostOnlyWhenExposed(r: Run, p: nat, j: nat, f: FlightId)
    requires IsRun(r) && p < j < |r.states| && r.actions[p] == FetchDoes(f, Rename)
    requires f in r.states[j].flights && r.states[j].flights[f].pin.Live? && r.states[j].flights[f].entry.Some?
    requires !Named(r.states[j].disk, r.states[j].flights[f].key, r.states[j].flights[f].entry.value)
    ensures TakenExposed(r, p, j, f)
  {
    PublishedWhileUntaken(r, p, j, f);
    var k := r.states[j].flights[f].key;
    var m :| p < m < j && Takes(r.states[m], r.actions[m], k);
    LiveBetween(r, p, m, j, f);
    RunTakerFindsExposed(r, m, f);
    assert TakesExposed(r.states[m], r.actions[m], f);
  }

  /** A pin that is alive at `j` was alive ever since the rename. */
  lemma LiveBetween(r: Run, p: nat, m: nat, j: nat, f: FlightId)
    requires IsRun(r) && p < m <= j < |r.states| && r.actions[p] == FetchDoes(f, Rename)
    requires f in r.states[j].flights && r.states[j].flights[f].pin.Live?
    ensures f in r.states[m].flights && r.states[m].flights[f].key == r.states[j].flights[f].key
    ensures
      var fl := r.states[m].flights[f];
      fl.key.kind.Artifact? && fl.pin.Live? && fl.entry.Some?
  {
    EntryKept(r, p, m, f);
    EntryKept(r, p, j, f);
    NotReleased(r, m, j, f);
    ArtifactRenames(r, p, f);
    PinnedOnce(r, m, f);
  }

  lemma NotReleased(r: Run, m: nat, j: nat, f: FlightId)
    requires IsRun(r) && m <= j < |r.states| && f in r.states[m].flights
    requires f in r.states[j].flights && r.states[j].flights[f].pin.Live?
    ensures !r.states[m].flights[f].pin.Released?
  {
    RunEvolves(r, m, j);
  }

  lemma ArtifactRenames(r: Run, p: nat, f: FlightId)
    requires IsRun(r) && p < |r.actions| && r.actions[p] == FetchDoes(f, Rename) && f in r.states[p + 1].flights
    ensures r.states[p + 1].flights[f].key.kind.Artifact?
  {
    assert Can(r.states[p], r.actions[p]) && r.states[p + 1] == Do(r.states[p], r.actions[p]);
  }

  lemma PinnedOnce(r: Run, m: nat, f: FlightId)
    requires IsRun(r) && m < |r.states| && f in r.states[m].flights
    requires r.states[m].flights[f].key.kind.Artifact? && r.states[m].flights[f].entry.Some?
    ensures !r.states[m].flights[f].pin.Unpinned?
  {
    RunInv(r, m);
    assert FlightOk(r.states[m].flights[f]);
  }

  /*** Waiters ***/

  lemma LeaderEntries(s: State, a: Action, f: FlightId)
    requires Can(s, a) && f in s.flights && s.flights[f].key.kind.Artifact? && a != FetchDoes(f, Rename)
    requires a.FetchDoes? || a.MetaDoes? || a.FinishDoes?
    ensures f in Do(s, a).flights && Do(s, a).flights[f].entry == s.flights[f].entry
  {
    if a.FetchDoes? {
      assert FetchDo(s, a.f, a.fs).flights[f].entry == s.flights[f].entry;
    } else if a.MetaDoes? {
      assert MetaDo(s, a.f, a.ms).flights[f].entry == s.flights[f].entry;
    } else {
      assert FinishDo(s, a.f, a.ns).flights[f].entry == s.flights[f].entry;
    }
  }

  lemma QuietEntries(s: State, a: Action, f: FlightId)
    requires Can(s, a) && Bystander(a) && f in Do(s, a).flights
    ensures f in s.flights || Do(s, a).flights[f].entry.None?
    ensures f in s.flights ==> Do(s, a).flights[f].entry == s.flights[f].entry
  {
    match a
    case ClientDoes(c, step) => ClientFlights(s, c, step);
    case Leads(c, g) => LeadFlight(s, c, g);
    case PinDoes(g, step) => PinEntries(s, g, step, f);
    case JanitorDoes(step) => JanitorFlights(s, step);
    case ScanDoes(step) => ScanFlights(s, step);
    case OtherDoes(step) => OtherFlights(s, step);
  }

  lemma PinEntries(s: State, g: FlightId, step: PinStep, f: FlightId)
    requires PinCan(s, g, step)
    ensures PinDo(s, g, step).flights.Keys == s.flights.Keys + if step.Unpin? then {g} else {}
    ensures f in s.flights ==> PinDo(s, g, step).flights[f].entry == s.flights[f].entry
  {
  }

  lemma LeaderFlights(s: State, a: Action, f: FlightId)
    requires Can(s, a) && (a.FetchDoes? || a.MetaDoes? || a.FinishDoes?) && f in Do(s, a).flights
    ensures f in s.flights && Do(s, a).flights[f].key == s.flights[f].key
  {
    if a.FetchDoes? {
      assert FetchDo(s, a.f, a.fs).flights[f].key == s.flights[f].key;
    } else if a.MetaDoes? {
      assert MetaDo(s, a.f, a.ms).flights[f].key == s.flights[f].key;
    } else {
      assert FinishDo(s, a.f, a.ns).flights[f].key == s.flights[f].key;
    }
  }

  /** An artifact flight gets its entry from its own rename. */
  lemma EntryStep(s: State, a: Action, f: FlightId)
    requires Can(s, a) && f in Do(s, a).flights && Do(s, a).flights[f].entry.Some?
    requires Do(s, a).flights[f].key.kind.Artifact? && a != FetchDoes(f, Rename)
    ensures f in s.flights && s.flights[f].entry.Some?
  {
    if Bystander(a) {
      QuietEntries(s, a, f);
    } else {
      LeaderFlights(s, a, f);
      LeaderEntries(s, a, f);
    }
  }

  lemma EntryBefore(r: Run, i: nat, f: FlightId)
    requires IsRun(r) && i < |r.actions| && f in r.states[i + 1].flights && r.actions[i] != FetchDoes(f, Rename)
    requires r.states[i + 1].flights[f].key.kind.Artifact? && r.states[i + 1].flights[f].entry.Some?
    ensures f in r.states[i].flights && r.states[i].flights[f].entry.Some?
    ensures r.states[i].flights[f].key == r.states[i + 1].flights[f].key
  {
    assert Can(r.states[i], r.actions[i]) && r.states[i + 1] == Do(r.states[i], r.actions[i]);
    EntryStep(r.states[i], r.actions[i], f);
    RunStepEvolves(r, i);
  }

  lemma NoFlightAtFirst(r: Run, f: FlightId)
    requires IsRun(r)
    ensures f !in r.states[0].flights
  {
  }

  /** Every publication has its rename in the run. */
  lemma {:induction false} RenameInRun(r: Run, i: nat, f: FlightId) returns (p: nat)
    requires IsRun(r) && i < |r.states| && f in r.states[i].flights
    requires r.states[i].flights[f].key.kind.Artifact? && r.states[i].flights[f].entry.Some?
    ensures p < i && r.actions[p] == FetchDoes(f, Rename)
  {
    NoFlightAtFirst(r, f);
    if r.actions[i - 1] == FetchDoes(f, Rename) {
      p := i - 1;
    } else {
      EntryBefore(r, i - 1, f);
      p := RenameInRun(r, i - 1, f);
    }
  }

  /** What a waiter that received `Cached` knows about its flight. */
  lemma CachedFacts(r: Run, i: nat, c: ClientId)
    requires IsRun(r) && i < |r.states| && c in r.states[i].clients && r.states[i].clients[c].pc.Waiting?
    requires
      var w := r.states[i].clients[c].pc.w;
      w == Got(Cached) || w.Missing?
    ensures
      var s := r.states[i];
      var Client(k, Waiting(f, _)) := s.clients[c];
      && f in s.flights
      && var fl := s.flights[f];
         fl.key == k && k.kind.Artifact? && fl.entry.Some? && fl.pin.Live? && Readable(s.disk, fl.entry.value)
  {
    RunInv(r, i);
    WaiterIsCached(r.states[i], c);
  }

  lemma WaiterIsCached(s: State, c: ClientId)
    requires InvFlights(s) && InvDisk(s) && InvPins(s) && c in s.clients && s.clients[c].pc.Waiting?
    requires s.clients[c].pc.w == Got(Cached) || s.clients[c].pc.w.Missing?
    ensures
      var Client(k, Waiting(f, _)) := s.clients[c];
      && f in s.flights
      && var fl := s.flights[f];
         fl.key == k && k.kind.Artifact? && fl.entry.Some? && fl.pin.Live? && Readable(s.disk, fl.entry.value)
  {
    var cl := s.clients[c];
    assert ClientOk(cl, s.flights);
    var fl := s.flights[cl.pc.f];
    assert FlightOk(fl) && ContentOk(fl, s.disk) && WaitsOn(cl, cl.pc.f);
    assert PinHeld(fl, cl.pc.f, s.clients);
    Packed.UnpackInvertsPack(fl.body, fl.meta);
  }

  lemma LoadOpensNamed(s: State, c: ClientId, ino: Inode)
    requires ClientCan(s, c, Load) && Readable(s.disk, ino)
    ensures ClientDo(s, c, Load).clients[c].pc.w == Opened(ino) <==> Named(s.disk, s.clients[c].key, ino)
  {
  }

  /**
   * Whoever received `Cached` opens its leader's publication exactly when no step took the name
   * since the rename; a step that did found the publication exposed, with its pin alive.
   */
  lemma WaiterOpensExactly(r: Run, i: nat, c: ClientId) returns (p: nat)
    requires IsRun(r) && i < |r.states| && c in r.states[i].clients && r.states[i].clients[c].pc.Waiting?
    requires r.states[i].clients[c].pc.w == Got(Cached)
    ensures
      var s := r.states[i];
      var Client(k, Waiting(f, _)) := s.clients[c];
      && f in s.flights && s.flights[f].entry.Some? && ClientCan(s, c, Load)
      && p < i && r.actions[p] == FetchDoes(f, Rename)
      && (ClientDo(s, c, Load).clients[c].pc.w == Opened(s.flights[f].entry.value) <==> Untaken(r, p, i, k))
      && (!Untaken(r, p, i, k) ==> TakenExposed(r, p, i, f))
  {
    CachedFacts(r, i, c);
    var s := r.states[i];
    var f := s.clients[c].pc.f;
    p := RenameInRun(r, i, f);
    PublishedWhileUntaken(r, p, i, f);
    LoadOpensNamed(s, c, s.flights[f].entry.value);
    if !Untaken(r, p, i, s.flights[f].key) {
      LostOnlyWhenExposed(r, p, i, f);
    }
  }

  predicate Misses(s: State, c: ClientId) {
    c in s.clients && s.clients[c].pc.Waiting? && s.clients[c].pc.w.Missing?
  }

  /** The step at which a waiter looks for its entry and finds nothing. */
  predicate LooksInVain(s: State, a: Action, c: ClientId) {
    && a == ClientDoes(c, Load) && c in s.clients && s.clients[c].pc.Waiting? && s.clients[c].pc.w == Got(Cached)
    && !Loads(s.disk, s.clients[c].key)
  }

  lemma ClientMisses(s: State, d: ClientId, step: ClientStep, c: ClientId)
    requires ClientCan(s, d, step) && Misses(ClientDo(s, d, step), c)
    ensures Misses(s, c) || LooksInVain(s, ClientDoes(d, step), c)
    ensures c in s.clients && s.clients[c].key == ClientDo(s, d, step).clients[c].key
    ensures s.clients[c].pc.Waiting? && s.clients[c].pc.f == ClientDo(s, d, step).clients[c].pc.f
  {
  }

  lemma LeadMisses(s: State, d: ClientId, g: FlightId, c: ClientId)
    requires LeadCan(s, d, g) && Misses(LeadDo(s, d, g), c)
    ensures Misses(s, c) && s.clients[c] == LeadDo(s, d, g).clients[c]
  {
  }

  lemma PinClients(s: State, g: FlightId, step: PinStep)
    requires PinCan(s, g, step)
    ensures PinDo(s, g, step).clients == s.clients
  {
  }

  lemma AgentClients(s: State, a: Action)
    requires Can(s, a) && !a.ClientDoes? && !a.Leads?
    ensures Do(s, a).clients == s.clients
  {
    match a
    case FetchDoes(f, step) => assert FetchDo(s, f, step).clients == s.clients;
    case MetaDoes(f, step) => assert MetaDo(s, f, step).clients == s.clients;
    case FinishDoes(f, step) => assert FinishDo(s, f, step).clients == s.clients;
    case PinDoes(g, step) => PinClients(s, g, step);
    case JanitorDoes(step) => JanitorFlights(s, step);
    case ScanDoes(step) => ScanFlights(s, step);
    case OtherDoes(step) => OtherFlights(s, step);
  }

  lemma MissStep(s: State, a: Action, c: ClientId)
    requires Can(s, a) && Misses(Do(s, a), c)
    ensures Misses(s, c) || LooksInVain(s, a, c)
    ensures c in s.clients && s.clients[c].key == Do(s, a).clients[c].key
    ensures s.clients[c].pc.Waiting? && s.clients[c].pc.f == Do(s, a).clients[c].pc.f
  {
    if a.ClientDoes? {
      ClientMisses(s, a.c, a.cs, c);
    } else if a.Leads? {
      LeadMisses(s, a.c, a.g, c);
    } else {
      AgentClients(s, a);
    }
  }

  lemma MissBefore(r: Run, i: nat, c: ClientId)
    requires IsRun(r) && i < |r.actions| && Misses(r.states[i + 1], c)
    ensures Misses(r.states[i], c) || LooksInVain(r.states[i], r.actions[i], c)
    ensures c in r.states[i].clients && r.states[i].clients[c].pc.Waiting?
    ensures r.states[i].clients[c].pc.f == r.states[i + 1].clients[c].pc.f
  {
    assert Can(r.states[i], r.actions[i]) && r.states[i + 1] == Do(r.states[i], r.actions[i]);
    MissStep(r.states[i], r.actions[i], c);
  }

  lemma NoClientAtFirst(r: Run, c: ClientId)
    requires IsRun(r)
    ensures c !in r.states[0].clients
  {
  }

  lemma {:induction false} MissInRun(r: Run, i: nat, c: ClientId) returns (l: nat)
    requires IsRun(r) && i < |r.states| && Misses(r.states[i], c)
    ensures l < i && LooksInVain(r.states[l], r.actions[l], c)
    ensures r.states[l].clients[c].pc.f == r.states[i].clients[c].pc.f
  {
    NoClientAtFirst(r, c);
    MissBefore(r, i - 1, c);
    if LooksInVain(r.states[i - 1], r.actions[i - 1], c) {
      l := i - 1;
    } else {
      l := MissInRun(r, i - 1, c);
    }
  }

  lemma VainIsNotOpened(s: State, a: Action, c: ClientId)
    requires LooksInVain(s, a, c)
    ensures ClientCan(s, c, Load) && ClientDo(s, c, Load).clients[c].pc.w.Missing?
  {
  }

  /**
   * "artifact missing after inflight completion" means that a step took the name from this very
   * publication while its pin was alive, and found it exposed.
   */
  lemma MissingNeedsExposure(r: Run, i: nat, c: ClientId) returns (p: nat, l: nat)
    requires IsRun(r) && i < |r.states| && Misses(r.states[i], c)
    ensures
      var f := r.states[i].clients[c].pc.f;
      p < l < i && r.actions[p] == FetchDoes(f, Rename) && TakenExposed(r, p, l, f)
  {
    l := MissInRun(r, i, c);
    p := WaiterOpensExactly(r, l, c);
    VainIsNotOpened(r.states[l], r.actions[l], c);
  }

  /*** The plain condition: every commit of the key finds the name free ***/

  /** Up to `i`, every leader that pins this key finds no completed file under it. */
  ghost predicate CommitsFindNothing(r: Run, i: nat, k: Key)
    requires |r.states| == |r.actions| + 1 && i < |r.states|
  {
    forall j :: 0 <= j < i ==> !CommitsOver(r.states[j], r.actions[j], k)
  }

  predicate CommitsOver(s: State, a: Action, k: Key) {
    a.FetchDoes? && a.fs.Pin? && a.f in s.flights && s.flights[a.f].key == k && k in s.disk.bodies
  }

  lemma LeaderPins(s: State, a: Action, f: FlightId)
    requires Can(s, a) && f in s.flights && !s.flights[f].pc.Pinned? && a != FetchDoes(f, Pin)
    requires a.FetchDoes? || a.MetaDoes? || a.FinishDoes?
    ensures f in Do(s, a).flights && !Do(s, a).flights[f].pc.Pinned?
  {
    if a.FetchDoes? {
      assert !FetchDo(s, a.f, a.fs).flights[f].pc.Pinned?;
    } else if a.MetaDoes? {
      assert !MetaDo(s, a.f, a.ms).flights[f].pc.Pinned?;
    } else {
      assert !FinishDo(s, a.f, a.ns).flights[f].pc.Pinned?;
    }
  }

  lemma NewIsNotPinned(s: State, a: Action, f: FlightId)
    requires Can(s, a) && f !in s.flights && f in Do(s, a).flights
    ensures !Do(s, a).flights[f].pc.Pinned?
  {
    if Bystander(a) {
      match a
      case ClientDoes(c, step) => ClientFlights(s, c, step);
      case Leads(c, g) => LeadFlight(s, c, g);
      case PinDoes(g, step) => PinEntries(s, g, step, f);
      case JanitorDoes(step) => JanitorFlights(s, step);
      case ScanDoes(step) => ScanFlights(s, step);
      case OtherDoes(step) => OtherFlights(s, step);
    } else {
      LeaderFlights(s, a, f);
    }
  }

  /** A flight is pinned by its own `Pin`, and in no other way. */
  lemma PinnedBefore(s: State, a: Action, f: FlightId)
    requires Can(s, a) && f in Do(s, a).flights && Do(s, a).flights[f].pc.Pinned? && a != FetchDoes(f, Pin)
    ensures f in s.flights && s.flights[f].pc.Pinned?
  {
    if f !in s.flights {
      NewIsNotPinned(s, a, f);
    } else if !s.flights[f].pc.Pinned? {
      if Bystander(a) {
        BystanderLeaves(s, a, f);
      } else {
        LeaderPins(s, a, f);
      }
    }
  }

  /** While a leader is between its pin and its rename, no one else brings its name into being. */
  lemma NameStaysFree(s: State, a: Action, f: FlightId)
    requires Can(s, a) && FlightsOk(s.flights) && RegistryOk(s.flights, s.registered)
    requires f in s.flights && s.flights[f].pc.Pinned? && s.flights[f].key !in s.disk.bodies
    requires f in Do(s, a).flights && Do(s, a).flights[f].pc.Pinned?
    ensures s.flights[f].key !in Do(s, a).disk.bodies
  {
    var k := s.flights[f].key;
    assert FlightOk(s.flights[f]);
    if !Takes(s, a, k) {
      NameStays(s, a, k);
    } else if a.ScanDoes? {
      assert ScanDo(s, a.ss).disk.bodies == s.disk.bodies - {k};
    }
  }

  lemma RunPinnedBefore(r: Run, i: nat, f: FlightId)
    requires IsRun(r) && i < |r.actions| && f in r.states[i + 1].flights && r.states[i + 1].flights[f].pc.Pinned?
    requires r.actions[i] != FetchDoes(f, Pin)
    ensures f in r.states[i].flights && r.states[i].flights[f].pc.Pinned?
    ensures r.states[i].flights[f].key == r.states[i + 1].flights[f].key
  {
    assert Can(r.states[i], r.actions[i]) && r.states[i + 1] == Do(r.states[i], r.actions[i]);
    PinnedBefore(r.states[i], r.actions[i], f);
    RunStepEvolves(r, i);
  }

  lemma RunNameStaysFree(r: Run, i: nat, f: FlightId)
    requires IsRun(r) && i < |r.actions| && f in r.states[i].flights && f in r.states[i + 1].flights
    requires r.states[i].flights[f].pc.Pinned? && r.states[i + 1].flights[f].pc.Pinned?
    requires r.states[i].flights[f].key !in r.states[i].disk.bodies
    ensures r.states[i].flights[f].key !in r.states[i + 1].disk.bodies
  {
    assert Can(r.states[i], r.actions[i]) && r.states[i + 1] == Do(r.states[i], r.actions[i]);
    RunInv(r, i);
    NameStaysFree(r.states[i], r.actions[i], f);
  }

  lemma PinLeavesNames(s: State, f: FlightId)
    requires FetchCan(s, f, Pin)
    ensures FetchDo(s, f, Pin).disk == s.disk && FetchDo(s, f, Pin).flights[f].key == s.flights[f].key
  {
  }

  lemma RunPins(r: Run, i: nat, f: FlightId)
    requires IsRun(r) && i < |r.actions| && r.actions[i] == FetchDoes(f, Pin)
    ensures f in r.states[i].flights && f in r.states[i + 1].flights
    ensures r.states[i + 1].disk == r.states[i].disk && r.states[i + 1].flights[f].key == r.states[i].flights[f].key
  {
    assert Can(r.states[i], r.actions[i]) && r.states[i + 1] == Do(r.states[i], r.actions[i]);
    PinLeavesNames(r.states[i], f);
  }

  lemma FindNothingEarlier(r: Run, j: nat, i: nat, k: Key)
    requires |r.states| == |r.actions| + 1 && j <= i < |r.states| && CommitsFindNothing(r, i, k)
    ensures CommitsFindNothing(r, j, k)
    ensures j < i ==> !CommitsOver(r.states[j], r.actions[j], k)
  {
  }

  /** While this flight is between its pin and its rename, its name is free. */
  ghost predicate FreeWhilePinned(s: State, f: FlightId, k: Key) {
    f in s.flights && s.flights[f].pc.Pinned? && s.flights[f].key == k ==> k !in s.disk.bodies
  }

  lemma FreeStep(r: Run, i: nat, f: FlightId, k: Key)
    requires IsRun(r) && i < |r.actions| && !CommitsOver(r.states[i], r.actions[i], k) && FreeWhilePinned(r.states[i], f, k)
    ensures FreeWhilePinned(r.states[i + 1], f, k)
  {
    var t := r.states[i + 1];
    if f in t.flights && t.flights[f].pc.Pinned? && t.flights[f].key == k {
      if r.actions[i] == FetchDoes(f, Pin) {
        RunPins(r, i, f);
      } else {
        RunPinnedBefore(r, i, f);
        RunNameStaysFree(r, i, f);
      }
    }
  }

  /** A name that was free at the pin is free at the rename. */
  lemma {:induction false} PinnedNameFree(r: Run, i: nat, f: FlightId, k: Key)
    requires IsRun(r) && i < |r.states| && CommitsFindNothing(r, i, k)
    ensures FreeWhilePinned(r.states[i], f, k)
  {
    if i == 0 {
      NoFlightAtFirst(r, f);
    } else {
      FindNothingEarlier(r, i - 1, i, k);
      PinnedNameFree(r, i - 1, f, k);
      FreeStep(r, i - 1, f, k);
    }
  }

  lemma DisplacesOnDisk(s: State, g: FlightId, f: FlightId)
    requires PinsProtect(s.flights, s.slots, s.disk.bodies, s.scan, s.exposed)
    requires g in s.flights && f in Displaced(s.flights, s.flights[g].key) && f !in s.exposed
    ensures s.flights[g].key in s.disk.bodies && s.flights[f].key == s.flights[g].key
  {
    assert PinProtects(s.flights[f], f, s.slots, s.disk.bodies, s.scan, s.exposed);
  }

  /** The first step that exposes a flight finds its name taken. */
  lemma ExposedOverName(r: Run, j: nat, f: FlightId)
    requires IsRun(r) && j < |r.actions| && Exposes(r.states[j], r.actions[j], f) && f !in r.states[j].exposed
    ensures f in r.states[j].flights && r.states[j].flights[f].key in r.states[j].disk.bodies
    ensures CommitsOver(r.states[j], r.actions[j], r.states[j].flights[f].key) || r.states[j].flights[f].pc.Pinned?
  {
    RunInv(r, j);
    var s, a := r.states[j], r.actions[j];
    assert Can(s, a) && FetchCan(s, a.f, a.fs);
    if a.fs.Pin? {
      DisplacesOnDisk(s, a.f, f);
    }
  }

  lemma SameKey(r: Run, j: nat, i: nat, f: FlightId)
    requires IsRun(r) && j <= i < |r.states| && f in r.states[j].flights
    ensures f in r.states[i].flights && r.states[i].flights[f].key == r.states[j].flights[f].key
  {
    RunEvolves(r, j, i);
  }

  /** If every commit of a key finds nothing under it, no publication of the key is exposed. */
  lemma FreeCommitsExposeNothing(r: Run, i: nat, f: FlightId)
    requires IsRun(r) && i < |r.states| && f in r.states[i].flights
    requires CommitsFindNothing(r, i, r.states[i].flights[f].key)
    ensures f !in r.states[i].exposed
  {
    if f in r.states[i].exposed {
      var k := r.states[i].flights[f].key;
      var j := ExposingStep(r, i, f);
      ExposedOverName(r, j, f);
      SameKey(r, j, i, f);
      FindNothingEarlier(r, j, i, k);
      PinnedNameFree(r, j, f, k);
    }
  }

  /**
   * If every commit of a key finds no completed file, each of its publications stays on disk while
   * any clone of its pin lives, pinned and not being removed.
   */
  lemma FreeCommitsStayOnDisk(r: Run, i: nat, f: FlightId)
    requires IsRun(r) && i < |r.states| && f in r.states[i].flights
    requires r.states[i].flights[f].key.kind.Artifact? && r.states[i].flights[f].entry.Some?
    requires PinHeld(r.states[i].flights[f], f, r.states[i].clients)
    requires CommitsFindNothing(r, i, r.states[i].flights[f].key)
    ensures
      var s := r.states[i];
      var k := s.flights[f].key;
      Named(s.disk, k, s.flights[f].entry.value) && IsPinned(s.slots, s.flights, k) && !BeingRemoved(s.scan, k)
  {
    FreeCommitsExposeNothing(r, i, f);
    PinnedStaysOnDisk(r, i, f);
  }

  lemma WaitsOnItsKey(r: Run, i: nat, c: ClientId)
    requires IsRun(r) && i < |r.states| && c in r.states[i].clients && r.states[i].clients[c].pc.Waiting?
    ensures
      var s := r.states[i];
      s.clients[c].pc.f in s.flights && s.flights[s.clients[c].pc.f].key == s.clients[c].key
  {
    RunInv(r, i);
    assert ClientOk(r.states[i].clients[c], r.states[i].flights);
  }

  /** And no waiter on the key ever misses: each that received `Cached` opens what its leader published. */
  lemma FreeCommitsServeWaiters(r: Run, i: nat, c: ClientId)
    requires IsRun(r) && i < |r.states| && c in r.states[i].clients && r.states[i].clients[c].pc.Waiting?
    requires CommitsFindNothing(r, i, r.states[i].clients[c].key)
    ensures !Misses(r.states[i], c)
    ensures r.states[i].clients[c].pc.w == Got(Cached) ==>
      var s := r.states[i];
      && s.clients[c].pc.f in s.flights && s.flights[s.clients[c].pc.f].entry.Some? && ClientCan(s, c, Load)
      && ClientDo(s, c, Load).clients[c].pc.w == Opened(s.flights[s.clients[c].pc.f].entry.value)
  {
    WaitsOnItsKey(r, i, c);
    FreeCommitsExposeNothing(r, i, r.states[i].clients[c].pc.f);
    if r.states[i].clients[c].pc.w == Got(Cached) {
      WaiterLoadsPublication(r, i, c);
    } else {
      UnexposedDoesNotMiss(r, i, c);
    }
  }

  lemma UnexposedDoesNotMiss(r: Run, i: nat, c: ClientId)
    requires IsRun(r) && i < |r.states| && c in r.states[i].clients && r.states[i].clients[c].pc.Waiting?
    requires r.states[i].clients[c].pc.f !in r.states[i].exposed
    ensures !Misses(r.states[i], c)
  {
    RunInv(r, i);
    assert LoadOk(r.states[i].clients[c], r.states[i].flights, r.states[i].exposed);
    assert ClientOk(r.states[i].clients[c], r.states[i].flights);
  }
}
