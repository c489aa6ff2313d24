/** What holds in every run of the protocol. */
module ProtocolTheorems {
  import opened Basics
  import opened Protocol
  import opened ProtocolInvariants
  import opened ProtocolPreservation
  import Packed

  lemma {:induction false} RunInv(r: Run, i: nat)
    requires IsRun(r) && i < |r.states|
    ensures Inv(r.states[i])
  {
    if i == 0 {
      InitInv(r.states[0]);
    } else {
      RunInv(r, i - 1);
      StepKeeps(r.states[i - 1], r.actions[i - 1]);
    }
  }

  /*** What no step takes back ***/

  /** A flight never changes its key, takes back its outcome or publication, or regains an agent or a pin. */
  predicate Later(fl: Flight, to: Flight) {
    && to.key == fl.key
    && (fl.outcome.Some? ==> to.outcome == fl.outcome)
    && (fl.entry.Some? ==> to.entry == fl.entry)
    && (!Active(fl.pc) ==> !Active(to.pc))
    && (fl.pin.Released? ==> to.pin.Released?)
  }

  ghost predicate FlightsLater(flights: Flights, to: Flights) {
    forall f :: f in flights ==> f in to && Later(flights[f], to[f])
  }

  /** Published inodes stay published and keep their bytes. */
  ghost predicate Frozen(d: Disk, to: Disk) {
    to.garbled == d.garbled && forall i :: i in d.published ==>
      i in d.inodes && i in to.published && i in to.inodes && to.inodes[i] == d.inodes[i]
  }

  ghost predicate HistoryGrows(s: State, t: State) {
    && t.capacity == s.capacity && t.maxSize == s.maxSize
    && s.scanStarts <= t.scanStarts
    && (forall f :: f in s.sent ==> f in t.sent && s.sent[f] <= t.sent[f])
  }

  ghost predicate Evolves(s: State, t: State) {
    FlightsLater(s.flights, t.flights) && Frozen(s.disk, t.disk) && HistoryGrows(s, t)
  }

  /** `<key>.part`: the name or the bytes behind it. */
  predicate PartDiffers(d: Disk, to: Disk, k: Key) {
    || (k in d.parts) != (k in to.parts)
    || (k in d.parts && k in to.parts && d.parts[k] != to.parts[k])
    || (k in d.parts && d.parts[k] in d.inodes && d.parts[k] in to.inodes
        && d.inodes[d.parts[k]] != to.inodes[d.parts[k]])
  }

  predicate AgentOf(a: Action, f: FlightId) {
    (a.FetchDoes? || a.FinishDoes?) && a.f == f
  }

  /** Only the agent of the flight registered for a key touches its `<key>.part`. */
  ghost predicate PartsOwned(s: State, a: Action, t: State) {
    forall k :: PartDiffers(s.disk, t.disk, k) ==> k in s.registered && AgentOf(a, s.registered[k])
  }

  /** The step takes the slot of a live publication, or publishes a name a scan is about to remove. */
  predicate Exposes(s: State, a: Action, f: FlightId) {
    && a.FetchDoes? && a.f in s.flights
    && (|| (a.fs.Pin? && f in Displaced(s.flights, s.flights[a.f].key))
        || (a.fs.Rename? && a.f == f && BeingRemoved(s.scan, s.flights[f].key)))
  }

  ghost predicate ExposureExact(s: State, a: Action, t: State) {
    forall f :: f in t.exposed <==> f in s.exposed || Exposes(s, a, f)
  }

  ghost predicate StepFacts(s: State, a: Action, t: State) {
    Evolves(s, t) && PartsOwned(s, a, t) && ExposureExact(s, a, t)
  }

  lemma ClientFacts(s: State, c: ClientId, step: ClientStep)
    requires ClientCan(s, c, step) && DiskOk(s.disk)
    ensures StepFacts(s, ClientDoes(c, step), ClientDo(s, c, step))
  {
  }

  lemma LeadFacts(s: State, c: ClientId, g: FlightId)
    requires LeadCan(s, c, g) && DiskOk(s.disk)
    ensures StepFacts(s, Leads(c, g), LeadDo(s, c, g))
  {
  }

  lemma LaterMove(flights: Flights, f: FlightId, to: Flight)
    requires f in flights && Move(flights[f], to)
    ensures FlightsLater(flights, flights[f := to])
  {
  }

  lemma FrozenTouch(d: Disk, to: Disk, touched: set<Inode>)
    requires DiskOk(d) && TouchesOnly(d, to, touched) && touched !! d.published
    ensures Frozen(d, to)
  {
  }

  lemma FetchParts(s: State, f: FlightId, step: FetchStep)
    requires FetchCan(s, f, step) && DiskOk(s.disk) && TempOk(s.flights[f], f, s.disk, s.orphans)
    ensures forall k :: PartDiffers(s.disk, FetchDisk(s.disk, s.flights[f], step), k) ==> k == s.flights[f].key
  {
  }

  lemma FetchEvolves(s: State, f: FlightId, step: FetchStep)
    requires FetchCan(s, f, step) && FlightOk(s.flights[f]) && DiskOk(s.disk)
    requires TempOk(s.flights[f], f, s.disk, s.orphans)
    ensures Evolves(s, FetchDo(s, f, step))
  {
    FetchMoves(s, f, step);
    LaterMove(s.flights, f, FetchFlight(s.flights[f], step));
    FetchTouches(s, f, step);
    FrozenTouch(s.disk, FetchDisk(s.disk, s.flights[f], step), FetchTouched(s.flights[f], step));
  }

  lemma FetchFacts(s: State, f: FlightId, step: FetchStep)
    requires FetchCan(s, f, step) && InvFlights(s) && InvDisk(s)
    ensures StepFacts(s, FetchDoes(f, step), FetchDo(s, f, step))
  {
    assert TempOk(s.flights[f], f, s.disk, s.orphans);
    FetchEvolves(s, f, step);
    FetchMoves(s, f, step);
    FetchParts(s, f, step);
    FetchExposes(s, f, step);
  }

  lemma FetchExposes(s: State, f: FlightId, step: FetchStep)
    requires FetchCan(s, f, step)
    ensures ExposureExact(s, FetchDoes(f, step), FetchDo(s, f, step))
  {
  }

  lemma MetaParts(s: State, f: FlightId, step: MetaStep)
    requires MetaCan(s, f, step) && DiskOk(s.disk) && CounterOk(s.disk, s.orphans, s.nextTemp)
    ensures forall k :: !PartDiffers(s.disk, MetaDisk(s.disk, f, s.flights[f], step), k)
  {
  }

  lemma MetaFacts(s: State, f: FlightId, step: MetaStep)
    requires MetaCan(s, f, step) && InvFlights(s) && InvDisk(s)
    ensures StepFacts(s, MetaDoes(f, step), MetaDo(s, f, step))
  {
    MetaMoves(s, f, step);
    LaterMove(s.flights, f, MetaFlight(s.disk, s.flights[f], step));
    MetaTouches(s, f, step);
    FrozenTouch(s.disk, MetaDisk(s.disk, f, s.flights[f], step), MetaTouched(s.disk, s.flights[f], step));
    MetaParts(s, f, step);
  }

  lemma FinishEvolves(s: State, f: FlightId, step: FinishStep)
    requires FinishCan(s, f, step) && FlightOk(s.flights[f]) && DiskOk(s.disk)
    ensures Evolves(s, FinishDo(s, f, step))
  {
  }

  lemma FinishParts(s: State, f: FlightId, step: FinishStep)
    requires FinishCan(s, f, step)
    ensures forall k :: PartDiffers(s.disk, FinishDo(s, f, step).disk, k) ==> step.DoCleanTemp? && k == s.flights[f].key
  {
  }

  lemma FinishFacts(s: State, f: FlightId, step: FinishStep)
    requires FinishCan(s, f, step) && InvFlights(s) && DiskOk(s.disk)
    ensures StepFacts(s, FinishDoes(f, step), FinishDo(s, f, step))
  {
    FinishEvolves(s, f, step);
    FinishParts(s, f, step);
    assert ExposureExact(s, FinishDoes(f, step), FinishDo(s, f, step));
  }

  lemma PinFacts(s: State, f: FlightId, step: PinStep)
    requires PinCan(s, f, step) && DiskOk(s.disk) && SentOk(s.sent, s.queue, s.janitor, s.scanStarts)
    ensures StepFacts(s, PinDoes(f, step), PinDo(s, f, step))
  {
  }

  lemma JanitorFacts(s: State, step: JanitorStep)
    requires JanitorCan(s, step) && DiskOk(s.disk)
    ensures StepFacts(s, JanitorDoes(step), JanitorDo(s, step))
  {
  }

  lemma ScanFacts(s: State, step: ScanStep)
    requires ScanCan(s, step) && DiskOk(s.disk)
    ensures StepFacts(s, ScanDoes(step), ScanDo(s, step))
  {
  }

  lemma OtherFacts(s: State, step: OtherStep)
    requires OtherCan(s, step) && DiskOk(s.disk)
    ensures StepFacts(s, OtherDoes(step), OtherDo(s, step))
  {
  }

  lemma AllFacts(s: State, a: Action)
    requires Inv(s) && Can(s, a)
    ensures StepFacts(s, a, Do(s, a))
  {
    match a
    case ClientDoes(c, step) => ClientFacts(s, c, step);
    case Leads(c, g) => LeadFacts(s, c, g);
    case FetchDoes(f, step) => FetchFacts(s, f, step);
    case MetaDoes(f, step) => MetaFacts(s, f, step);
    case FinishDoes(f, step) => FinishFacts(s, f, step);
    case PinDoes(f, step) => PinFacts(s, f, step);
    case JanitorDoes(step) => JanitorFacts(s, step);
    case ScanDoes(step) => ScanFacts(s, step);
    case OtherDoes(step) => OtherFacts(s, step);
  }

  lemma EvolvesReflexive(s: State)
    requires DiskOk(s.disk)
    ensures Evolves(s, s)
  {
  }

  lemma EvolvesTransitive(s: State, t: State, u: State)
    requires Evolves(s, t) && Evolves(t, u)
    ensures Evolves(s, u)
  {
  }

  lemma RunStep(r: Run, i: nat)
    requires IsRun(r) && i < |r.actions|
    ensures StepFacts(r.states[i], r.actions[i], r.states[i + 1])
  {
    RunInv(r, i);
    AllFacts(r.states[i], r.actions[i]);
  }

  lemma RunStepEvolves(r: Run, i: nat)
    requires IsRun(r) && i < |r.actions|
    ensures Evolves(r.states[i], r.states[i + 1])
  {
    RunStep(r, i);
  }

  lemma RunStays(r: Run, i: nat)
    requires IsRun(r) && i < |r.states|
    ensures Evolves(r.states[i], r.states[i])
  {
    RunInv(r, i);
    EvolvesReflexive(r.states[i]);
  }

  lemma {:induction false} RunEvolves(r: Run, i: nat, j: nat)
    requires IsRun(r) && i <= j < |r.states|
    ensures Evolves(r.states[i], r.states[j])
    decreases j
  {
    if i == j {
      RunStays(r, i);
    } else {
      RunEvolves(r, i, j - 1);
      RunStepEvolves(r, j - 1);
      EvolvesTransitive(r.states[i], r.states[j - 1], r.states[j]);
    }
  }

  /*** Single flight ***/

  /** At most one agent per key, and it is the one the map points at. */
  lemma SingleFlight(r: Run, i: nat, f: FlightId, g: FlightId)
    requires IsRun(r) && i < |r.states|
    requires f in r.states[i].flights && g in r.states[i].flights
    requires Active(r.states[i].flights[f].pc) && Active(r.states[i].flights[g].pc)
    requires r.states[i].flights[f].key == r.states[i].flights[g].key
    ensures f == g
    ensures var s := r.states[i]; s.flights[f].key in s.registered && s.registered[s.flights[f].key] == f
  {
    RunInv(r, i);
  }

  function Leaders(s: State): set<FlightId> {
    set f | f in s.flights && IsLeader(s.flights[f].pc)
  }

  lemma LeadersBounded(s: State)
    requires HoldersOk(s.flights, s.holders) && PermitsOk(s)
    ensures Leaders(s) <= s.holders && |Leaders(s)| + s.others + s.available <= s.capacity
  {
    Subset(Leaders(s), s.holders);
  }

  /** Permits are conserved, every leader holds one, so leaders never outnumber the capacity. */
  lemma LeadersWithinCapacity(r: Run, i: nat)
    requires IsRun(r) && i < |r.states|
    ensures
      var s := r.states[i];
      && s.available + |s.holders| + s.others == s.capacity == r.states[0].capacity
      && Leaders(s) <= s.holders && |Leaders(s)| + s.others + s.available <= s.capacity
  {
    RunInv(r, i);
    RunEvolves(r, 0, i);
    LeadersBounded(r.states[i]);
  }

  lemma Subset(a: set<FlightId>, b: set<FlightId>)
    requires a <= b
    ensures |a| <= |b|
  {
    assert b == a + (b - a);
  }

  predicate Removes(a: Action, f: FlightId) {
    a == FinishDoes(f, Unregister) || a == FinishDoes(f, DoCleanUnregister)
  }

  lemma RemovalStep(s: State, f: FlightId, step: FinishStep)
    requires InvFlights(s) && FinishCan(s, f, step) && (step.Unregister? || step.DoCleanUnregister?)
    ensures
      var k := s.flights[f].key;
      && k in s.registered && s.registered[k] == f
      && s.flights[f].outcome.Some? && s.flights[f].notifies == 1
      && FinishDo(s, f, step).registered == s.registered - {k}
      && FinishDo(s, f, step).flights[f].pc.Returned?
  {
  }

  lemma ReturnedIsGone(s: State, f: FlightId)
    requires RegistryOk(s.flights, s.registered) && f in s.flights && !Active(s.flights[f].pc)
    ensures f !in s.registered.Values
  {
  }

  /** Removing by key removes the remover's own registration, resolved and notified, and nothing else. */
  lemma RemovalIsExact(r: Run, i: nat, f: FlightId)
    requires IsRun(r) && i < |r.actions| && Removes(r.actions[i], f)
    ensures
      var s, t := r.states[i], r.states[i + 1];
      && f in s.flights
      && var k := s.flights[f].key;
         && k in s.registered && s.registered[k] == f
         && s.flights[f].outcome.Some? && s.flights[f].notifies == 1
         && t.registered == s.registered - {k}
         && f in t.flights && t.flights[f].pc.Returned?
  {
    RunInv(r, i);
    RemovalStep(r.states[i], f, r.actions[i].ns);
  }

  /** A flight whose agent is done never comes back into the map. */
  lemma NeverBack(r: Run, i: nat, j: nat, f: FlightId)
    requires IsRun(r) && i <= j < |r.states| && f in r.states[i].flights && !Active(r.states[i].flights[f].pc)
    ensures f !in r.states[j].registered.Values
  {
    RunEvolves(r, i, j);
    RunInv(r, j);
    ReturnedIsGone(r.states[j], f);
  }

  /** Each registration is removed at most once in a run. */
  lemma RemovedOnce(r: Run, i: nat, j: nat, f: FlightId)
    requires IsRun(r) && i < |r.actions| && j < |r.actions| && Removes(r.actions[i], f) && Removes(r.actions[j], f)
    ensures i == j
  {
    RemovalIsExact(r, i, f);
    RemovalIsExact(r, j, f);
    if i < j {
      NeverBack(r, i + 1, j, f);
    } else if j < i {
      NeverBack(r, j + 1, i, f);
    }
  }

  /*** Waiters ***/

  /** An unresolved flight is registered and has its one agent; a resolved one is notified or about to be. */
  lemma UnresolvedHasAgent(r: Run, i: nat, f: FlightId)
    requires IsRun(r) && i < |r.states| && f in r.states[i].flights
    ensures
      var s := r.states[i];
      var fl := s.flights[f];
      && (fl.outcome.None? ==> Active(fl.pc) && fl.key in s.registered && s.registered[fl.key] == f)
      && (fl.outcome.Some? && fl.notifies == 0 ==> fl.pc.Notifying? || fl.pc.CleanNotify?)
      && (f !in s.registered.Values ==> fl.outcome.Some? && fl.notifies == 1)
  {
    RunInv(r, i);
  }

  lemma WaiterFacts(s: State, c: ClientId)
    requires c in s.clients && s.clients[c].pc.Waiting? && ClientOk(s.clients[c], s.flights)
    requires s.clients[c].pc.f in s.flights && FlightOk(s.flights[s.clients[c].pc.f])
    ensures
      var Waiting(f, w) := s.clients[c].pc;
      && (w.Blocked? ==> w.rounds == 1 && (ClientCan(s, c, Wake) <==> s.flights[f].notifies == 1))
      && (w.Polling? || w.Armed? ==> w.rounds <= 1 && (w.rounds == 1 ==> s.flights[f].outcome.Some?))
      && (w.Blocked? && s.flights[f].notifies == 0 ==> Active(s.flights[f].pc))
  {
  }

  /** No lost wake-up: a blocked waiter can wake as soon as the notification is out, and checks at most twice. */
  lemma NoLostWakeup(r: Run, i: nat, c: ClientId)
    requires IsRun(r) && i < |r.states| && c in r.states[i].clients && r.states[i].clients[c].pc.Waiting?
    ensures
      var s := r.states[i];
      var Waiting(f, w) := s.clients[c].pc;
      && f in s.flights
      && (w.Blocked? ==> w.rounds == 1 && (ClientCan(s, c, Wake) <==> s.flights[f].notifies == 1))
      && (w.Polling? || w.Armed? ==> w.rounds <= 1 && (w.rounds == 1 ==> s.flights[f].outcome.Some?))
      && (w.Blocked? && s.flights[f].notifies == 0 ==> Active(s.flights[f].pc))
  {
    RunInv(r, i);
    var s := r.states[i];
    assert ClientOk(s.clients[c], s.flights);
    WaiterFacts(s, c);
  }

  /** All waiters of one flight receive the same outcome, whenever they look. */
  lemma Agreement(r: Run, i: nat, c: ClientId, j: nat, d: ClientId)
    requires IsRun(r) && i <= j < |r.states|
    requires c in r.states[i].clients && r.states[i].clients[c].pc.Waiting? && r.states[i].clients[c].pc.w.Got?
    requires d in r.states[j].clients && r.states[j].clients[d].pc.Waiting? && r.states[j].clients[d].pc.w.Got?
    requires r.states[i].clients[c].pc.f == r.states[j].clients[d].pc.f
    ensures r.states[i].clients[c].pc.w.o == r.states[j].clients[d].pc.w.o
  {
    RunInv(r, i);
    RunInv(r, j);
    assert ClientOk(r.states[i].clients[c], r.states[i].flights);
    assert ClientOk(r.states[j].clients[d], r.states[j].flights);
    RunEvolves(r, i, j);
  }

  /*** Cancellation ***/

  /** Steps a spawned cleanup still has to take. */
  function CleanupLeft(pc: Pc): nat {
    match pc
    case CleanTemp => 4
    case CleanFail => 3
    case CleanNotify => 2
    case CleanUnregister => 1
    case _ => 0
  }

  function CleanupStep(pc: Pc): FinishStep
    requires CleanupLeft(pc) > 0
  {
    match pc
    case CleanTemp => DoCleanTemp(true)
    case CleanFail => DoCleanFail
    case CleanNotify => DoCleanNotify
    case CleanUnregister => DoCleanUnregister
  }

  lemma CleanupStepAdvances(s: State, f: FlightId)
    requires f in s.flights && FlightOk(s.flights[f]) && CleanupLeft(s.flights[f].pc) > 0
    ensures
      var fl, step := s.flights[f], CleanupStep(s.flights[f].pc);
      var to := FinishFlight(fl, step);
      && FinishCan(s, f, step) && FinishDo(s, f, step).flights[f] == to
      && CleanupLeft(to.pc) < CleanupLeft(fl.pc)
      && (CleanupLeft(to.pc) == 0 ==> to.pc.Returned? && to.outcome.Some? && to.notifies == 1)
  {
  }

  /** A cleanup never waits: its next step is enabled in every state and brings it nearer the end. */
  lemma CleanupAdvances(r: Run, i: nat, f: FlightId)
    requires IsRun(r) && i < |r.states| && f in r.states[i].flights && CleanupLeft(r.states[i].flights[f].pc) > 0
    ensures
      var s := r.states[i];
      var fl, step := s.flights[f], CleanupStep(s.flights[f].pc);
      var to := FinishFlight(fl, step);
      && FinishCan(s, f, step) && FinishDo(s, f, step).flights[f] == to
      && CleanupLeft(to.pc) < CleanupLeft(fl.pc)
      && (CleanupLeft(to.pc) == 0 ==> to.pc.Returned? && to.outcome.Some? && to.notifies == 1)
  {
    RunInv(r, i);
    CleanupStepAdvances(r.states[i], f);
  }

  predicate SamePc(s: State, t: State, f: FlightId) {
    f in s.flights && f in t.flights && t.flights[f].pc == s.flights[f].pc
  }

  lemma FetchLeaves(s: State, g: FlightId, step: FetchStep, f: FlightId)
    requires FetchCan(s, g, step) && f in s.flights && CleanupLeft(s.flights[f].pc) > 0
    ensures SamePc(s, FetchDo(s, g, step), f)
  {
  }

  lemma MetaLeaves(s: State, g: FlightId, step: MetaStep, f: FlightId)
    requires MetaCan(s, g, step) && f in s.flights && CleanupLeft(s.flights[f].pc) > 0
    ensures SamePc(s, MetaDo(s, g, step), f)
  {
  }

  /** Steps of clients, pins, the janitor and the scan. */
  predicate Bystander(a: Action) {
    !a.FetchDoes? && !a.MetaDoes? && !a.FinishDoes?
  }

  lemma ClientFlights(s: State, c: ClientId, step: ClientStep)
    requires ClientCan(s, c, step)
    ensures ClientDo(s, c, step).flights == s.flights
  {
    match step
    case Arrive(_) =>
    case Busy =>
    case Leave =>
    case _ =>
  }

  lemma LeadFlight(s: State, c: ClientId, g: FlightId)
    requires LeadCan(s, c, g)
    ensures LeadDo(s, c, g).flights == s.flights[g := NewFlight(s.clients[c].key)]
  {
  }

  lemma JanitorFlights(s: State, step: JanitorStep)
    requires JanitorCan(s, step)
    ensures JanitorDo(s, step).flights == s.flights && JanitorDo(s, step).clients == s.clients
  {
  }

  lemma ScanFlights(s: State, step: ScanStep)
    requires ScanCan(s, step)
    ensures ScanDo(s, step).flights == s.flights && ScanDo(s, step).clients == s.clients
  {
  }

  lemma OtherFlights(s: State, step: OtherStep)
    requires OtherCan(s, step)
    ensures OtherDo(s, step).flights == s.flights && OtherDo(s, step).clients == s.clients
  {
  }

  lemma PinLeaves(s: State, g: FlightId, step: PinStep, f: FlightId)
    requires PinCan(s, g, step) && f in s.flights
    ensures SamePc(s, PinDo(s, g, step), f)
  {
  }

  lemma BystanderLeaves(s: State, a: Action, f: FlightId)
    requires Can(s, a) && f in s.flights && Bystander(a)
    ensures SamePc(s, Do(s, a), f)
  {
    match a
    case ClientDoes(c, step) => ClientFlights(s, c, step);
    case Leads(c, g) => LeadFlight(s, c, g);
    case PinDoes(g, step) => PinLeaves(s, g, step, f);
    case JanitorDoes(step) => JanitorFlights(s, step);
    case ScanDoes(step) => ScanFlights(s, step);
    case OtherDoes(step) => OtherFlights(s, step);
  }

  lemma StepLeaves(s: State, a: Action, f: FlightId)
    requires Can(s, a) && f in s.flights && CleanupLeft(s.flights[f].pc) > 0
    requires !(a.FinishDoes? && a.f == f)
    ensures SamePc(s, Do(s, a), f)
  {
    if a.FetchDoes? {
      FetchLeaves(s, a.f, a.fs, f);
    } else if a.MetaDoes? {
      MetaLeaves(s, a.f, a.ms, f);
    } else if a.FinishDoes? {
      assert SamePc(s, FinishDo(s, a.f, a.ns), f);
    } else {
      BystanderLeaves(s, a, f);
    }
  }

  /** No one else moves a cleanup. */
  lemma OthersLeaveCleanup(r: Run, i: nat, f: FlightId)
    requires IsRun(r) && i < |r.actions| && f in r.states[i].flights && CleanupLeft(r.states[i].flights[f].pc) > 0
    requires !(r.actions[i].FinishDoes? && r.actions[i].f == f)
    ensures SamePc(r.states[i], r.states[i + 1], f)
  {
    StepLeaves(r.states[i], r.actions[i], f);
  }

  /** A step of the cleanup of a flight, as opposed to the release of its permit. */
  predicate IsCleanup(a: Action, f: FlightId) {
    && a.FinishDoes? && a.f == f
    && (a.ns.DoCleanTemp? || a.ns.DoCleanFail? || a.ns.DoCleanNotify? || a.ns.DoCleanUnregister?)
  }

  /** Steps the cleanup of a flight takes from `i` to `j`. */
  function CleanupSteps(r: Run, i: nat, j: nat, f: FlightId): nat
    requires i <= j <= |r.actions|
    decreases j
  {
    if i == j then 0
    else CleanupSteps(r, i, j - 1, f) + if IsCleanup(r.actions[j - 1], f) then 1 else 0
  }

  lemma OwnStepAdvances(s: State, f: FlightId, step: FinishStep)
    requires FinishCan(s, f, step) && CleanupLeft(s.flights[f].pc) > 0
    ensures
      var left, after := CleanupLeft(s.flights[f].pc), CleanupLeft(FinishDo(s, f, step).flights[f].pc);
      if IsCleanup(FinishDoes(f, step), f) then after < left else after == left
  {
  }

  /** One step of anyone: a cleanup step brings the end nearer, any other leaves it where it is. */
  lemma CleanupStepOfRun(r: Run, i: nat, f: FlightId)
    requires IsRun(r) && i < |r.actions| && f in r.states[i].flights && CleanupLeft(r.states[i].flights[f].pc) > 0
    ensures f in r.states[i + 1].flights
    ensures
      var left, after := CleanupLeft(r.states[i].flights[f].pc), CleanupLeft(r.states[i + 1].flights[f].pc);
      if IsCleanup(r.actions[i], f) then after < left else after == left
  {
    assert r.states[i + 1] == Do(r.states[i], r.actions[i]);
    if r.actions[i].FinishDoes? && r.actions[i].f == f {
      OwnStepAdvances(r.states[i], f, r.actions[i].ns);
    } else {
      OthersLeaveCleanup(r, i, f);
    }
  }

  /** A flight that is over stays over and takes no cleanup step. */
  lemma ReturnedStaysReturned(r: Run, i: nat, f: FlightId)
    requires IsRun(r) && i < |r.actions| && f in r.states[i].flights && r.states[i].flights[f].pc.Returned?
    ensures f in r.states[i + 1].flights && r.states[i + 1].flights[f].pc.Returned? && !IsCleanup(r.actions[i], f)
  {
    RunStepEvolves(r, i);
    assert Can(r.states[i], r.actions[i]);
  }

  /** Where a cleanup that has begun can be. */
  predicate InCleanup(pc: Pc) {
    CleanupLeft(pc) > 0 || pc.Returned?
  }

  /** A cleanup leaves its four steps only by returning. */
  lemma OnlyReturns(r: Run, i: nat, f: FlightId)
    requires IsRun(r) && i < |r.actions| && f in r.states[i].flights && CleanupLeft(r.states[i].flights[f].pc) > 0
    ensures f in r.states[i + 1].flights && InCleanup(r.states[i + 1].flights[f].pc)
  {
    assert r.states[i + 1] == Do(r.states[i], r.actions[i]);
    if !(r.actions[i].FinishDoes? && r.actions[i].f == f) {
      OthersLeaveCleanup(r, i, f);
    }
  }

  function Left(r: Run, i: nat, f: FlightId): nat
    requires i < |r.states| && f in r.states[i].flights
  {
    CleanupLeft(r.states[i].flights[f].pc)
  }

  /** From `i` to `i + 1` a cleanup loses a step it takes, and nothing else moves it. */
  ghost predicate Turns(r: Run, i: nat, f: FlightId)
    requires i < |r.actions| && |r.states| == |r.actions| + 1
  {
    f in r.states[i].flights && InCleanup(r.states[i].flights[f].pc) ==>
      && f in r.states[i + 1].flights && InCleanup(r.states[i + 1].flights[f].pc)
      && Left(r, i + 1, f) + (if IsCleanup(r.actions[i], f) then 1 else 0) <= Left(r, i, f)
  }

  lemma CleanupTurn(r: Run, i: nat, f: FlightId)
    requires IsRun(r) && i < |r.actions|
    ensures Turns(r, i, f)
  {
    if f in r.states[i].flights {
      if r.states[i].flights[f].pc.Returned? {
        ReturnedStaysReturned(r, i, f);
      } else if InCleanup(r.states[i].flights[f].pc) {
        CleanupStepOfRun(r, i, f);
        OnlyReturns(r, i, f);
      }
    }
  }

  lemma {:induction false} TurnsAddUp(r: Run, i: nat, j: nat, f: FlightId)
    requires |r.states| == |r.actions| + 1 && i <= j < |r.states|
    requires forall m :: i <= m < j ==> Turns(r, m, f)
    requires f in r.states[i].flights && InCleanup(r.states[i].flights[f].pc)
    ensures f in r.states[j].flights && InCleanup(r.states[j].flights[f].pc)
    ensures Left(r, j, f) + CleanupSteps(r, i, j, f) <= Left(r, i, f)
    decreases j
  {
    if i < j {
      TurnsAddUp(r, i, j - 1, f);
      assert Turns(r, j - 1, f);
    }
  }

  /** Every step a cleanup takes is one less to take, whatever else happens in between. */
  lemma CleanupProgress(r: Run, i: nat, j: nat, f: FlightId)
    requires IsRun(r) && i <= j < |r.states| && f in r.states[i].flights && InCleanup(r.states[i].flights[f].pc)
    ensures f in r.states[j].flights && InCleanup(r.states[j].flights[f].pc)
    ensures Left(r, j, f) + CleanupSteps(r, i, j, f) <= Left(r, i, f)
  {
    forall m | i <= m < j ensures Turns(r, m, f) {
      CleanupTurn(r, m, f);
    }
    TurnsAddUp(r, i, j, f);
  }

  lemma CancelStarts(s: State, f: FlightId)
    requires FinishCan(s, f, Cancel)
    ensures 0 < CleanupLeft(FinishDo(s, f, Cancel).flights[f].pc) <= 4
  {
  }

  /**
   * A leader dropped at step `i` strands no one: at any later `j` its cleanup has taken at most four
   * steps, is still the registered agent of the flight with its next step enabled, or has returned,
   * and then the flight is resolved, notified and out of the map.
   */
  lemma CancelledIsCleanedUp(r: Run, i: nat, j: nat, f: FlightId)
    requires IsRun(r) && i < j < |r.states| && r.actions[i] == FinishDoes(f, Cancel)
    ensures f in r.states[j].flights
    ensures
      var s := r.states[j];
      var fl := s.flights[f];
      && CleanupLeft(fl.pc) + CleanupSteps(r, i + 1, j, f) <= 4
      && (if CleanupLeft(fl.pc) > 0
          then fl.key in s.registered && s.registered[fl.key] == f && FinishCan(s, f, CleanupStep(fl.pc))
          else fl.outcome.Some? && fl.notifies == 1 && f !in s.registered.Values)
  {
    assert r.states[i + 1] == Do(r.states[i], r.actions[i]);
    CancelStarts(r.states[i], f);
    CleanupProgress(r, i + 1, j, f);
    CleanupStands(r, j, f);
  }

  lemma CleanupStands(r: Run, j: nat, f: FlightId)
    requires IsRun(r) && j < |r.states| && f in r.states[j].flights && InCleanup(r.states[j].flights[f].pc)
    ensures
      var s := r.states[j];
      var fl := s.flights[f];
      if CleanupLeft(fl.pc) > 0
      then fl.key in s.registered && s.registered[fl.key] == f && FinishCan(s, f, CleanupStep(fl.pc))
      else fl.outcome.Some? && fl.notifies == 1 && f !in s.registered.Values
  {
    RunInv(r, j);
    if r.states[j].flights[f].pc.Returned? {
      ReturnedIsGone(r.states[j], f);
      assert FlightOk(r.states[j].flights[f]);
    }
  }

  /*** Publications ***/

  /** Whoever received `Cached` from a flight that is not exposed loads exactly what that flight published. */
  lemma WaiterLoadsPublication(r: Run, i: nat, c: ClientId)
    requires IsRun(r) && i < |r.states|
    requires c in r.states[i].clients && r.states[i].clients[c].pc.Waiting?
    requires r.states[i].clients[c].pc.w == Got(Cached)
    requires r.states[i].clients[c].pc.f !in r.states[i].exposed
    ensures
      var s := r.states[i];
      && s.clients[c].pc.f in s.flights && ClientCan(s, c, Load)
      && var fl := s.flights[s.clients[c].pc.f];
      && fl.entry.Some? && fl.entry.value in s.disk.inodes
      && ClientDo(s, c, Load).clients[c].pc.w == Opened(fl.entry.value)
      && Packed.Unpack(s.disk.inodes[fl.entry.value]) == Ok(Packed.Entry(fl.body, fl.meta))
  {
    RunInv(r, i);
    LoadFinds(r.states[i], c);
  }

  lemma ExposureStep(r: Run, i: nat, f: FlightId)
    requires IsRun(r) && i < |r.actions|
    ensures f in r.states[i + 1].exposed <==> f in r.states[i].exposed || Exposes(r.states[i], r.actions[i], f)
  {
    RunStep(r, i);
  }

  lemma NothingExposed(r: Run)
    requires IsRun(r)
    ensures r.states[0].exposed == {}
  {
  }

  /** Some step before `i` exposed the flight. */
  ghost predicate ExposedBefore(r: Run, i: nat, f: FlightId)
    requires |r.states| == |r.actions| + 1 && i < |r.states|
  {
    exists j :: 0 <= j < i && Exposes(r.states[j], r.actions[j], f)
  }

  /** Which step exposed the flight. */
  lemma {:induction false} ExposingStep(r: Run, i: nat, f: FlightId) returns (j: nat)
    requires IsRun(r) && i < |r.states| && f in r.states[i].exposed
    ensures j < i && Exposes(r.states[j], r.actions[j], f) && f !in r.states[j].exposed
  {
    NothingExposed(r);
    ExposureStep(r, i - 1, f);
    if f in r.states[i - 1].exposed {
      j := ExposingStep(r, i - 1, f);
    } else {
      j := i - 1;
    }
  }

  /** Once exposed, always exposed. */
  lemma {:induction false} StaysExposed(r: Run, j: nat, i: nat, f: FlightId)
    requires IsRun(r) && j < i < |r.states| && Exposes(r.states[j], r.actions[j], f)
    ensures f in r.states[i].exposed
    decreases i
  {
    ExposureStep(r, i - 1, f);
    if j < i - 1 {
      StaysExposed(r, j, i - 1, f);
    }
  }

  /** A flight is exposed exactly when some earlier step exposed it. */
  lemma ExposureHasCause(r: Run, i: nat, f: FlightId)
    requires IsRun(r) && i < |r.states|
    ensures f in r.states[i].exposed <==> ExposedBefore(r, i, f)
  {
    if f in r.states[i].exposed {
      var j := ExposingStep(r, i, f);
      assert Exposes(r.states[j], r.actions[j], f);
    }
    if ExposedBefore(r, i, f) {
      var j :| 0 <= j < i && Exposes(r.states[j], r.actions[j], f);
      StaysExposed(r, j, i, f);
    }
  }

  /** While any clone of its pin lives, a publication that is not exposed stays under its name. */
  lemma PinnedStaysOnDisk(r: Run, i: nat, f: FlightId)
    requires IsRun(r) && i < |r.states| && f in r.states[i].flights
    requires r.states[i].flights[f].key.kind.Artifact? && r.states[i].flights[f].entry.Some?
    requires PinHeld(r.states[i].flights[f], f, r.states[i].clients)
    requires f !in r.states[i].exposed
    ensures
      var s := r.states[i];
      var k := s.flights[f].key;
      && k in s.disk.bodies && s.disk.bodies[k] == s.flights[f].entry.value
      && IsPinned(s.slots, s.flights, k) && !BeingRemoved(s.scan, k)
  {
    RunInv(r, i);
    var s := r.states[i];
    assert FlightOk(s.flights[f]) && PinProtects(s.flights[f], f, s.slots, s.disk.bodies, s.scan, s.exposed);
  }

  /** What a scan has listed and not processed is on disk, so `NotFound` never happens and the pin map holds no dead pin. */
  lemma ScanSeesLiveState(r: Run, i: nat)
    requires IsRun(r) && i < |r.states|
    ensures
      var s := r.states[i];
      && (s.scan.Running? ==> s.scan.remaining.Keys <= s.disk.bodies.Keys)
      && (forall k :: k in s.slots <==> IsPinned(s.slots, s.flights, k))
  {
    RunInv(r, i);
  }

  /*** Bytes ***/

  /** A published inode keeps its bytes through every rename, eviction and later leader. */
  lemma PublishedFrozen(r: Run, i: nat, j: nat, ino: Inode)
    requires IsRun(r) && i <= j < |r.states| && ino in r.states[i].disk.published
    ensures ino in r.states[i].disk.inodes && ino in r.states[j].disk.published && ino in r.states[j].disk.inodes
    ensures r.states[j].disk.inodes[ino] == r.states[i].disk.inodes[ino]
  {
    RunEvolves(r, i, j);
  }

  lemma HandleIsPublished(s: State, c: ClientId, step: ClientStep)
    requires ClientCan(s, c, step) && (step.CheckDisk? || step.Load?) && DiskOk(s.disk)
    ensures
      var pc := ClientDo(s, c, step).clients[c].pc;
      && (pc.Hit? ==> pc.ino in s.disk.published && Readable(s.disk, pc.ino))
      && (pc.Waiting? && pc.w.Opened? ==> pc.w.ino in s.disk.published && Readable(s.disk, pc.w.ino))
  {
  }

  /** An opened entry reads the same metadata, length and body for as long as its handle lives. */
  lemma OpenedEntryIsStable(r: Run, i: nat, j: nat, c: ClientId)
    requires IsRun(r) && i <= j < |r.states| && ClientCan(r.states[i], c, CheckDisk)
    requires ClientDo(r.states[i], c, CheckDisk).clients[c].pc.Hit?
    ensures
      var ino := ClientDo(r.states[i], c, CheckDisk).clients[c].pc.ino;
      && ino in r.states[i].disk.inodes && ino in r.states[j].disk.inodes
      && Packed.Unpack(r.states[j].disk.inodes[ino]) == Packed.Unpack(r.states[i].disk.inodes[ino])
      && Readable(r.states[j].disk, ino)
  {
    RunInv(r, i);
    HandleIsPublished(r.states[i], c, CheckDisk);
    PublishedFrozen(r, i, j, ClientDo(r.states[i], c, CheckDisk).clients[c].pc.ino);
    RunEvolves(r, i, j);
  }

  /** What a waiter opened is its leader's publication, then and ever after. */
  lemma WaiterKeepsPublication(r: Run, i: nat, j: nat, c: ClientId)
    requires IsRun(r) && i <= j < |r.states|
    requires c in r.states[i].clients && r.states[i].clients[c].pc.Waiting? && r.states[i].clients[c].pc.w.Opened?
    requires r.states[i].clients[c].pc.f !in r.states[i].exposed
    ensures
      var s := r.states[i];
      var ino := s.clients[c].pc.w.ino;
      && s.clients[c].pc.f in s.flights && ino in r.states[j].disk.inodes
      && var fl := s.flights[s.clients[c].pc.f];
         Packed.Unpack(r.states[j].disk.inodes[ino]) == Ok(Packed.Entry(fl.body, fl.meta))
  {
    RunInv(r, i);
    OpenedContent(r.states[i], c);
    PublishedFrozen(r, i, j, r.states[i].clients[c].pc.w.ino);
  }

  lemma OpenedContent(s: State, c: ClientId)
    requires InvFlights(s) && InvDisk(s) && c in s.clients && s.clients[c].pc.Waiting? && s.clients[c].pc.w.Opened?
    requires s.clients[c].pc.f !in s.exposed
    ensures
      var ino := s.clients[c].pc.w.ino;
      && s.clients[c].pc.f in s.flights && ino in s.disk.published && ino in s.disk.inodes
      && var fl := s.flights[s.clients[c].pc.f];
         Packed.Unpack(s.disk.inodes[ino]) == Ok(Packed.Entry(fl.body, fl.meta))
  {
    assert ClientOk(s.clients[c], s.flights) && LoadOk(s.clients[c], s.flights, s.exposed);
    var fl := s.flights[s.clients[c].pc.f];
    assert ContentOk(fl, s.disk);
    Packed.UnpackInvertsPack(fl.body, fl.meta);
  }

  /** `<key>.part` is written or removed only by the agent of the flight registered for the key. */
  lemma PartHasOneOwner(r: Run, i: nat, k: Key)
    requires IsRun(r) && i < |r.actions| && PartDiffers(r.states[i].disk, r.states[i + 1].disk, k)
    ensures k in r.states[i].registered && AgentOf(r.actions[i], r.states[i].registered[k])
  {
    RunStep(r, i);
  }

  /*** The bound ***/

  predicate Quiescent(s: State) {
    s.slots == map[] && s.sending == {} && !s.queue && s.janitor.Idle? && s.lock.None?
  }

  /** With nothing pinned, queued, scanning or being written, completed entries fit, unless the last scan could not work. */
  lemma QuiescentFits(r: Run, i: nat)
    requires IsRun(r) && i < |r.states| && Quiescent(r.states[i]) && !r.states[i].unpaid
    ensures TotalSize(r.states[i]) <= r.states[i].maxSize
  {
    RunInv(r, i);
  }

  /** A scan that fails or cannot remove a file, or a metadata write dropped between its rename and the end of its scan. */
  predicate LeavesDebt(s: State, a: Action) {
    || (a.ScanDoes? && (a.ss.FailScan? || (a.ss.Remove? && !a.ss.ok && a.ss.key in s.disk.bodies)))
    || (a.FinishDoes? && a.ns.Cancel? && a.f in s.flights
        && (s.flights[a.f].pc.MetaRenamed? || (s.flights[a.f].pc.MetaScanning? && s.scan != Ended(true))))
  }

  lemma FetchAddsNoDebt(s: State, f: FlightId, step: FetchStep)
    requires FetchCan(s, f, step)
    ensures FetchDo(s, f, step).unpaid == s.unpaid
  {
  }

  lemma MetaAddsNoDebt(s: State, f: FlightId, step: MetaStep)
    requires MetaCan(s, f, step)
    ensures MetaDo(s, f, step).unpaid ==> s.unpaid
  {
  }

  lemma FinishDebt(s: State, f: FlightId, step: FinishStep)
    requires FinishCan(s, f, step)
    ensures FinishDo(s, f, step).unpaid ==> s.unpaid || LeavesDebt(s, FinishDoes(f, step))
  {
  }

  lemma BystanderDebt(s: State, a: Action)
    requires Can(s, a) && Bystander(a) && !a.ScanDoes?
    ensures Do(s, a).unpaid ==> s.unpaid
  {
    match a
    case ClientDoes(c, step) => assert ClientDo(s, c, step).unpaid == s.unpaid;
    case Leads(c, g) => assert LeadDo(s, c, g).unpaid == s.unpaid;
    case PinDoes(g, step) => assert PinDo(s, g, step).unpaid == s.unpaid;
    case JanitorDoes(step) => assert JanitorDo(s, step).unpaid ==> s.unpaid;
    case OtherDoes(step) => assert OtherDo(s, step).unpaid == s.unpaid;
  }

  lemma DebtHasStep(s: State, a: Action)
    requires Can(s, a) && Do(s, a).unpaid
    ensures s.unpaid || LeavesDebt(s, a)
  {
    if a.FetchDoes? {
      FetchAddsNoDebt(s, a.f, a.fs);
    } else if a.MetaDoes? {
      MetaAddsNoDebt(s, a.f, a.ms);
    } else if a.FinishDoes? {
      FinishDebt(s, a.f, a.ns);
    } else if a.ScanDoes? {
      assert ScanDo(s, a.ss).unpaid;
    } else {
      BystanderDebt(s, a);
    }
  }

  lemma StaysPaid(r: Run, i: nat)
    requires IsRun(r) && i < |r.actions| && !r.states[i].unpaid && !LeavesDebt(r.states[i], r.actions[i])
    ensures !r.states[i + 1].unpaid
  {
    assert Can(r.states[i], r.actions[i]) && r.states[i + 1] == Do(r.states[i], r.actions[i]);
    if r.states[i + 1].unpaid {
      DebtHasStep(r.states[i], r.actions[i]);
    }
  }

  /** No step from `m` up to `i` leaves a debt. */
  ghost predicate NoDebt(r: Run, m: nat, i: nat)
    requires |r.states| == |r.actions| + 1 && i < |r.states|
  {
    forall j :: m <= j < i ==> !LeavesDebt(r.states[j], r.actions[j])
  }

  predicate KeepsPaid(r: Run, j: nat)
    requires j + 1 < |r.states|
  {
    !r.states[j].unpaid ==> !r.states[j + 1].unpaid
  }

  lemma {:induction false} PaidThroughout(r: Run, m: nat, i: nat)
    requires m <= i < |r.states| && !r.states[m].unpaid && forall j :: m <= j < i ==> KeepsPaid(r, j)
    ensures !r.states[i].unpaid
    decreases i
  {
    if m < i {
      PaidThroughout(r, m, i - 1);
      assert KeepsPaid(r, i - 1);
    }
  }

  lemma DebtFree(r: Run, m: nat, i: nat)
    requires IsRun(r) && m <= i < |r.states| && !r.states[m].unpaid && NoDebt(r, m, i)
    ensures !r.states[i].unpaid
  {
    forall j | m <= j < i ensures KeepsPaid(r, j) {
      if !r.states[j].unpaid {
        StaysPaid(r, j);
      }
    }
    PaidThroughout(r, m, i);
  }

  /** Before the first scan: a store that starts within the bound and leaves no debt fits in every quiet state. */
  lemma EveryQuietStateFits(r: Run, i: nat)
    requires IsRun(r) && i < |r.states| && !r.states[0].unpaid && Quiescent(r.states[i])
    requires NoDebt(r, 0, i)
    ensures TotalSize(r.states[i]) <= r.states[i].maxSize
  {
    DebtFree(r, 0, i);
    QuiescentFits(r, i);
  }

  predicate BeginsScan(a: Action) {
    a == JanitorDoes(StartScan) || (a.MetaDoes? && a.ms.MetaScan?)
  }

  lemma ScanPays(s: State, a: Action)
    requires Can(s, a) && BeginsScan(a)
    ensures !Do(s, a).unpaid
  {
  }

  lemma ScanPaysInRun(r: Run, m: nat)
    requires IsRun(r) && m < |r.actions| && BeginsScan(r.actions[m])
    ensures !r.states[m + 1].unpaid
  {
    assert Can(r.states[m], r.actions[m]) && r.states[m + 1] == Do(r.states[m], r.actions[m]);
    ScanPays(r.states[m], r.actions[m]);
  }

  /** Only what happened since the last scan began matters: if nothing left a debt since then, a quiet state fits. */
  lemma QuietSinceScanFits(r: Run, m: nat, i: nat)
    requires IsRun(r) && m < i < |r.states| && BeginsScan(r.actions[m]) && Quiescent(r.states[i])
    requires NoDebt(r, m + 1, i)
    ensures TotalSize(r.states[i]) <= r.states[i].maxSize
  {
    ScanPaysInRun(r, m);
    DebtFree(r, m + 1, i);
    QuiescentFits(r, i);
  }

  lemma SendStamps(s: State, f: FlightId)
    requires PinCan(s, f, TrySend)
    ensures f in Do(s, PinDoes(f, TrySend)).sent && Do(s, PinDoes(f, TrySend)).sent[f] == s.scanStarts
  {
  }

  /** A request sent by a pin that owned its slot is queued, received, or answered by a scan begun since. */
  lemma RequestNeverLost(r: Run, i: nat, j: nat, f: FlightId)
    requires IsRun(r) && i < j < |r.states| && r.actions[i] == PinDoes(f, TrySend)
    ensures
      var s := r.states[j];
      s.queue || s.janitor.Received? || s.janitor.Draining? || r.states[i].scanStarts < s.scanStarts
  {
    SendStamps(r.states[i], f);
    assert r.states[i + 1] == Do(r.states[i], r.actions[i]);
    RunEvolves(r, i + 1, j);
    RunInv(r, j);
  }
}
