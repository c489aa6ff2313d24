/**
 * What a request is answered with, traced back through the run: which state its lookup saw, which
 * flight it waits on, whose reply it receives, and where the bytes of an entry come from.
 */
module ProtocolRequests {
  import opened Basics
  import opened Protocol
  import opened ProtocolInvariants
  import opened ProtocolPreservation
  import opened ProtocolTheorems
  import opened ProtocolPublications
  import Packed

  /*** Lookups ***/

  /** The file under the key has a well-formed footer and metadata that decodes. */
  predicate Found(d: Disk, k: Key, ino: Inode) {
    && k in d.bodies && d.bodies[k] == ino
    && ino in d.inodes && Packed.Unpack(d.inodes[ino]).Ok? && ino !in d.garbled
  }

  predicate Holds(d: Disk, k: Key) {
    k in d.bodies && Found(d, k, d.bodies[k])
  }

  predicate Asks(s: State, c: ClientId, k: Key) {
    c in s.clients && s.clients[c].key == k
  }

  /**
   * The step that brought a request where it is, with what that step saw: nothing in flight, its
   * own entry, nothing readable under its own key, or the flight registered for its own key.
   */
  predicate Explains(s: State, a: Action, c: ClientId, k: Key, pc: ClientPc) {
    match pc
    case FirstCheck => a == ClientDoes(c, Arrive(k)) && k.kind.Artifact?
    case DiskCheck => a == ClientDoes(c, CheckMap) && Asks(s, c, k) && k !in s.registered
    case SecondCheck =>
      || (a == ClientDoes(c, Arrive(k)) && k.kind.Metadata?)
      || (a == ClientDoes(c, CheckDisk) && Asks(s, c, k) && !Holds(s.disk, k))
    case Hit(ino) => a == ClientDoes(c, CheckDisk) && Asks(s, c, k) && Found(s.disk, k, ino)
    case Waiting(f, _) =>
      && Asks(s, c, k)
      && (|| ((a == ClientDoes(c, CheckMap) || a == ClientDoes(c, JoinLate)) && k in s.registered && s.registered[k] == f)
          || (a == Leads(c, f) && k !in s.registered && f !in s.flights))
  }

  predicate SamePhase(pc: ClientPc, to: ClientPc) {
    pc == to || (pc.Waiting? && to.Waiting? && pc.f == to.f)
  }

  lemma ClientPhase(s: State, d: ClientId, step: ClientStep, c: ClientId)
    requires ClientCan(s, d, step) && c in ClientDo(s, d, step).clients
    ensures
      var to := ClientDo(s, d, step).clients[c];
      || Explains(s, ClientDoes(d, step), c, to.key, to.pc)
      || (Asks(s, c, to.key) && SamePhase(s.clients[c].pc, to.pc))
  {
  }

  lemma LeadPhase(s: State, d: ClientId, g: FlightId, c: ClientId)
    requires LeadCan(s, d, g) && c in LeadDo(s, d, g).clients
    ensures
      var to := LeadDo(s, d, g).clients[c];
      || Explains(s, Leads(d, g), c, to.key, to.pc)
      || (Asks(s, c, to.key) && SamePhase(s.clients[c].pc, to.pc))
  {
  }

  lemma PhaseStep(s: State, a: Action, c: ClientId)
    requires Can(s, a) && c in Do(s, a).clients
    ensures
      var to := Do(s, a).clients[c];
      || Explains(s, a, c, to.key, to.pc)
      || (Asks(s, c, to.key) && SamePhase(s.clients[c].pc, to.pc))
  {
    if a.ClientDoes? {
      ClientPhase(s, a.c, a.cs, c);
    } else if a.Leads? {
      LeadPhase(s, a.c, a.g, c);
    } else {
      AgentClients(s, a);
    }
  }

  lemma RunPhase(r: Run, i: nat, c: ClientId)
    requires IsRun(r) && i < |r.actions| && c in r.states[i + 1].clients
    ensures
      var s, to := r.states[i], r.states[i + 1].clients[c];
      || Explains(s, r.actions[i], c, to.key, to.pc)
      || (Asks(s, c, to.key) && SamePhase(s.clients[c].pc, to.pc))
  {
    assert Can(r.states[i], r.actions[i]) && r.states[i + 1] == Do(r.states[i], r.actions[i]);
    PhaseStep(r.states[i], r.actions[i], c);
  }

  lemma ExplainsPhase(s: State, a: Action, c: ClientId, k: Key, pc: ClientPc, to: ClientPc)
    requires Explains(s, a, c, k, pc) && SamePhase(pc, to)
    ensures Explains(s, a, c, k, to)
  {
  }

  /** Every request, wherever it is, got there by a step that saw what the lookup demands under its own key. */
  lemma {:induction false} PhaseHasCause(r: Run, i: nat, c: ClientId) returns (j: nat)
    requires IsRun(r) && i < |r.states| && c in r.states[i].clients
    ensures j < i && Explains(r.states[j], r.actions[j], c, r.states[i].clients[c].key, r.states[i].clients[c].pc)
  {
    NoClientAtFirst(r, c);
    var to := r.states[i].clients[c];
    RunPhase(r, i - 1, c);
    if Explains(r.states[i - 1], r.actions[i - 1], c, to.key, to.pc) {
      j := i - 1;
    } else {
      j := PhaseHasCause(r, i - 1, c);
      ExplainsPhase(r.states[j], r.actions[j], c, to.key, r.states[i - 1].clients[c].pc, to.pc);
    }
  }

  /*** Where names come from ***/

  /** The flight's own publication is under its own key, with its own body and metadata. */
  predicate PublishedBy(s: State, k: Key, g: FlightId) {
    && g in s.flights && s.flights[g].key == k && s.flights[g].entry.Some?
    && Named(s.disk, k, s.flights[g].entry.value) && s.flights[g].entry.value in s.disk.inodes
    && Packed.Unpack(s.disk.inodes[s.flights[g].entry.value]) == Ok(Packed.Entry(s.flights[g].body, s.flights[g].meta))
  }

  predicate NamedBy(s: State, k: Key, g: FlightId) {
    g in s.flights && s.flights[g].key == k && s.flights[g].entry.Some? && Named(s.disk, k, s.flights[g].entry.value)
  }

  lemma MetaNamed(s: State, f: FlightId)
    requires MetaCan(s, f, MetaRename)
    ensures NamedBy(MetaDo(s, f, MetaRename), s.flights[f].key, f)
  {
  }

  lemma ArtifactNamed(s: State, f: FlightId)
    requires FetchCan(s, f, Rename)
    ensures NamedBy(FetchDo(s, f, Rename), s.flights[f].key, f)
  {
  }

  lemma TakenNames(s: State, a: Action, k: Key)
    requires Can(s, a) && Takes(s, a, k) && k in Do(s, a).disk.bodies
    ensures (a.FetchDoes? || a.MetaDoes?) && NamedBy(Do(s, a), k, a.f)
  {
    if a.FetchDoes? {
      ArtifactNamed(s, a.f);
    } else if a.MetaDoes? {
      MetaNamed(s, a.f);
    }
  }

  /** A name of the run points at what start-up found, or at the entry of a flight of that key. */
  ghost predicate Sourced(r: Run, i: nat, k: Key)
    requires 0 < |r.states| && i < |r.states|
  {
    k in r.states[i].disk.bodies ==>
      || Named(r.states[0].disk, k, r.states[i].disk.bodies[k])
      || exists g :: NamedBy(r.states[i], k, g)
  }

  lemma KeepsNamedBy(r: Run, i: nat, k: Key, g: FlightId)
    requires IsRun(r) && i < |r.actions| && NamedBy(r.states[i], k, g)
    requires SameName(r.states[i].disk, r.states[i + 1].disk, k)
    ensures NamedBy(r.states[i + 1], k, g)
  {
    RunStepEvolves(r, i);
  }

  lemma RunSourced(r: Run, i: nat, k: Key)
    requires IsRun(r) && i < |r.actions| && Sourced(r, i, k)
    ensures Sourced(r, i + 1, k)
  {
    var s, a := r.states[i], r.actions[i];
    assert Can(s, a) && r.states[i + 1] == Do(s, a);
    if k in r.states[i + 1].disk.bodies {
      if Takes(s, a, k) {
        TakenNames(s, a, k);
      } else {
        NameStays(s, a, k);
        if !Named(r.states[0].disk, k, s.disk.bodies[k]) {
          var g :| NamedBy(s, k, g);
          KeepsNamedBy(r, i, k, g);
        }
      }
    }
  }

  lemma {:induction false} EveryNameSourced(r: Run, i: nat, k: Key)
    requires IsRun(r) && i < |r.states|
    ensures Sourced(r, i, k)
  {
    if i > 0 {
      EveryNameSourced(r, i - 1, k);
      RunSourced(r, i - 1, k);
    }
  }

  lemma NamedIsPublished(s: State, k: Key, g: FlightId)
    requires NamedBy(s, k, g) && ContentsOk(s.flights, s.disk)
    ensures PublishedBy(s, k, g)
  {
    assert ContentOk(s.flights[g], s.disk);
    Packed.UnpackInvertsPack(s.flights[g].body, s.flights[g].meta);
  }

  /** Every name points at what start-up found under it, or at what a flight of that very key published. */
  lemma NameHasSource(r: Run, i: nat, k: Key)
    requires IsRun(r) && i < |r.states| && k in r.states[i].disk.bodies
    ensures
      || Named(r.states[0].disk, k, r.states[i].disk.bodies[k])
      || exists g :: PublishedBy(r.states[i], k, g)
  {
    EveryNameSourced(r, i, k);
    if !Named(r.states[0].disk, k, r.states[i].disk.bodies[k]) {
      var g :| NamedBy(r.states[i], k, g);
      RunInv(r, i);
      NamedIsPublished(r.states[i], k, g);
    }
  }

  /**
   * A disk hit serves its own key: when it looked, that key's name pointed at the readable file it
   * opened, which start-up had found there or a flight of the key had published.
   */
  lemma HitIsOwnEntry(r: Run, i: nat, c: ClientId) returns (j: nat)
    requires IsRun(r) && i < |r.states| && c in r.states[i].clients && r.states[i].clients[c].pc.Hit?
    ensures
      var Client(k, Hit(ino)) := r.states[i].clients[c];
      && j < i && Found(r.states[j].disk, k, ino)
      && (Named(r.states[0].disk, k, ino)
          || exists g :: PublishedBy(r.states[j], k, g) && r.states[j].flights[g].entry == Some(ino))
      && ino in r.states[i].disk.inodes && r.states[i].disk.inodes[ino] == r.states[j].disk.inodes[ino]
  {
    var Client(k, Hit(ino)) := r.states[i].clients[c];
    j := PhaseHasCause(r, i, c);
    NameHasSource(r, j, k);
    FoundIsPublished(r, j, k, ino);
    PublishedFrozen(r, j, i, ino);
    if !Named(r.states[0].disk, k, ino) {
      var g :| PublishedBy(r.states[j], k, g);
      assert r.states[j].flights[g].entry == Some(ino);
    }
  }

  lemma FoundIsPublished(r: Run, j: nat, k: Key, ino: Inode)
    requires IsRun(r) && j < |r.states| && Found(r.states[j].disk, k, ino)
    ensures ino in r.states[j].disk.published
  {
    RunInv(r, j);
  }

  /** An artifact request goes upstream only after it saw nothing in flight and then nothing readable under its own key. */
  lemma SecondCheckMissed(r: Run, i: nat, c: ClientId) returns (j: nat, m: nat)
    requires IsRun(r) && i < |r.states| && c in r.states[i].clients
    requires r.states[i].clients[c].pc.SecondCheck? && r.states[i].clients[c].key.kind.Artifact?
    ensures
      var k := r.states[i].clients[c].key;
      && m < j < i && k !in r.states[m].registered
      && !Holds(r.states[j].disk, k)
  {
    j := PhaseHasCause(r, i, c);
    CheckedFromDisk(r, j, c);
    m := PhaseHasCause(r, j, c);
  }

  lemma CheckedFromDisk(r: Run, j: nat, c: ClientId)
    requires IsRun(r) && j < |r.actions| && r.actions[j] == ClientDoes(c, CheckDisk)
    ensures c in r.states[j].clients && r.states[j].clients[c].pc.DiskCheck?
  {
    assert Can(r.states[j], r.actions[j]);
  }

  /*** Replies ***/

  /** The flight has this outcome, or its leader is about to set it. */
  predicate Due(fl: Flight, o: Outcome) {
    fl.outcome == Some(o) || fl.pc == Resolving(o)
  }

  /** The step at which the agent of the flight came to this outcome. */
  predicate Produces(a: Action, f: FlightId, o: Outcome) {
    match o
    case Response(n) => a == FetchDoes(f, NonOk(n)) || a == MetaDoes(f, MetaReply(n))
    case Failed(n) =>
      || (a.FetchDoes? && a.f == f && a.fs.RemoveTemp? && n == 0)
      || a == MetaDoes(f, MetaFails(n))
      || (a == FinishDoes(f, DoCleanFail) && n == 1)
    case Cached => true
  }

  lemma FetchDue(s: State, g: FlightId, step: FetchStep, f: FlightId, o: Outcome)
    requires FetchCan(s, g, step) && f in s.flights && Due(FetchDo(s, g, step).flights[f], o) && o != Cached
    ensures Due(s.flights[f], o) || Produces(FetchDoes(g, step), f, o)
  {
  }

  lemma MetaDue(s: State, g: FlightId, step: MetaStep, f: FlightId, o: Outcome)
    requires MetaCan(s, g, step) && f in s.flights && Due(MetaDo(s, g, step).flights[f], o) && o != Cached
    ensures Due(s.flights[f], o) || Produces(MetaDoes(g, step), f, o)
  {
  }

  lemma FinishDue(s: State, g: FlightId, step: FinishStep, f: FlightId, o: Outcome)
    requires FinishCan(s, g, step) && f in s.flights && Due(FinishDo(s, g, step).flights[f], o) && o != Cached
    ensures Due(s.flights[f], o) || Produces(FinishDoes(g, step), f, o)
  {
  }

  lemma PinFlight(s: State, g: FlightId, step: PinStep, f: FlightId)
    requires PinCan(s, g, step) && f in PinDo(s, g, step).flights
    ensures
      && f in s.flights
      && var fl, to := s.flights[f], PinDo(s, g, step).flights[f];
         to.outcome == fl.outcome && to.pc == fl.pc && to.body == fl.body && to.meta == fl.meta
  {
  }

  /** Steps of clients, pins, the janitor and the scan leave what a flight did alone; a new flight has done nothing. */
  lemma BystanderFlight(s: State, a: Action, f: FlightId)
    requires Can(s, a) && Bystander(a) && f in Do(s, a).flights
    ensures
      var to := Do(s, a).flights[f];
      if f in s.flights then
        var fl := s.flights[f];
        to.outcome == fl.outcome && to.pc == fl.pc && to.body == fl.body && to.meta == fl.meta
      else to.outcome.None? && to.pc.Fetching? && to.body == [] && to.meta == []
  {
    match a
    case ClientDoes(c, step) => ClientFlights(s, c, step);
    case Leads(c, g) => LeadFlight(s, c, g);
    case PinDoes(g, step) => PinFlight(s, g, step, f);
    case JanitorDoes(step) => JanitorFlights(s, step);
    case ScanDoes(step) => ScanFlights(s, step);
    case OtherDoes(step) => OtherFlights(s, step);
  }

  lemma DueStep(s: State, a: Action, f: FlightId, o: Outcome)
    requires Can(s, a) && f in Do(s, a).flights && Due(Do(s, a).flights[f], o) && o != Cached
    ensures Produces(a, f, o) || (f in s.flights && Due(s.flights[f], o))
  {
    if Bystander(a) {
      BystanderFlight(s, a, f);
    } else {
      LeaderFlights(s, a, f);
      if a.FetchDoes? {
        FetchDue(s, a.f, a.fs, f, o);
      } else if a.MetaDoes? {
        MetaDue(s, a.f, a.ms, f, o);
      } else {
        FinishDue(s, a.f, a.ns, f, o);
      }
    }
  }

  lemma RunDue(r: Run, i: nat, f: FlightId, o: Outcome)
    requires IsRun(r) && i < |r.actions| && f in r.states[i + 1].flights
    requires Due(r.states[i + 1].flights[f], o) && o != Cached
    ensures Produces(r.actions[i], f, o) || (f in r.states[i].flights && Due(r.states[i].flights[f], o))
  {
    assert Can(r.states[i], r.actions[i]) && r.states[i + 1] == Do(r.states[i], r.actions[i]);
    DueStep(r.states[i], r.actions[i], f, o);
  }

  /** Every reply and every failure of a flight was produced by a step of that flight's own agent. */
  lemma {:induction false} OutcomeHasCause(r: Run, i: nat, f: FlightId, o: Outcome) returns (j: nat)
    requires IsRun(r) && i < |r.states| && f in r.states[i].flights && Due(r.states[i].flights[f], o) && o != Cached
    ensures j < i && Produces(r.actions[j], f, o)
  {
    NoFlightAtFirst(r, f);
    RunDue(r, i - 1, f, o);
    if Produces(r.actions[i - 1], f, o) {
      j := i - 1;
    } else {
      j := OutcomeHasCause(r, i - 1, f, o);
    }
  }

  /** A waiter's reply is the one the leader of its own key's flight got from upstream. */
  lemma WaiterGetsOwnReply(r: Run, i: nat, c: ClientId, n: nat) returns (j: nat)
    requires IsRun(r) && i < |r.states| && c in r.states[i].clients && r.states[i].clients[c].pc.Waiting?
    requires r.states[i].clients[c].pc.w == Got(Response(n))
    ensures
      var Client(k, Waiting(f, _)) := r.states[i].clients[c];
      && f in r.states[i].flights && r.states[i].flights[f].key == k
      && j < i && (r.actions[j] == FetchDoes(f, NonOk(n)) || r.actions[j] == MetaDoes(f, MetaReply(n)))
  {
    RunInv(r, i);
    assert ClientOk(r.states[i].clients[c], r.states[i].flights);
    j := OutcomeHasCause(r, i, r.states[i].clients[c].pc.f, Response(n));
  }

  /*** Bytes ***/

  /** What the run wrote for a flight: the chunks since its temp file was created, or its metadata body. */
  function Received(actions: seq<Action>, f: FlightId): Bytes {
    if actions == [] then []
    else
      var a, before := actions[|actions| - 1], Received(actions[..|actions| - 1], f);
      if a.FetchDoes? && a.f == f && a.fs.CreateTemp? then []
      else if a.FetchDoes? && a.f == f && a.fs.AppendChunk? then before + a.fs.chunk
      else if a.MetaDoes? && a.f == f && a.ms.MetaWrite? then a.ms.body
      else before
  }

  /** The metadata the run wrote for a flight. */
  function Described(actions: seq<Action>, f: FlightId): Bytes {
    if actions == [] then []
    else
      var a, before := actions[|actions| - 1], Described(actions[..|actions| - 1], f);
      if a.FetchDoes? && a.f == f && a.fs.AppendFooter? then a.fs.meta
      else if a.MetaDoes? && a.f == f && a.ms.MetaWrite? then a.ms.meta
      else before
  }

  predicate Wrote(s: State, actions: seq<Action>, f: FlightId) {
    if f in s.flights
    then s.flights[f].body == Received(actions, f) && s.flights[f].meta == Described(actions, f)
    else Received(actions, f) == [] && Described(actions, f) == []
  }

  lemma AgentWrites(s: State, a: Action, f: FlightId)
    requires Can(s, a) && (a.FetchDoes? || a.MetaDoes? || a.FinishDoes?) && f in s.flights
    ensures
      && f in Do(s, a).flights
      && var fl, to := s.flights[f], Do(s, a).flights[f];
      && to.body == (if a.FetchDoes? && a.f == f && a.fs.CreateTemp? then []
                     else if a.FetchDoes? && a.f == f && a.fs.AppendChunk? then fl.body + a.fs.chunk
                     else if a.MetaDoes? && a.f == f && a.ms.MetaWrite? then a.ms.body
                     else fl.body)
      && to.meta == (if a.FetchDoes? && a.f == f && a.fs.AppendFooter? then a.fs.meta
                     else if a.MetaDoes? && a.f == f && a.ms.MetaWrite? then a.ms.meta
                     else fl.meta)
  {
    if a.FetchDoes? {
      assert FetchDo(s, a.f, a.fs).flights[f] == if a.f == f then FetchFlight(s.flights[f], a.fs) else s.flights[f];
    } else if a.MetaDoes? {
      assert MetaDo(s, a.f, a.ms).flights[f] == if a.f == f then MetaFlight(s.disk, s.flights[f], a.ms) else s.flights[f];
    } else {
      assert FinishDo(s, a.f, a.ns).flights[f] == if a.f == f then FinishFlight(s.flights[f], a.ns) else s.flights[f];
    }
  }

  lemma WroteStep(s: State, a: Action, actions: seq<Action>, f: FlightId)
    requires Can(s, a) && Wrote(s, actions, f)
    ensures Wrote(Do(s, a), actions + [a], f)
  {
    assert (actions + [a])[..|actions|] == actions;
    if f in s.flights {
      if Bystander(a) {
        KeepsFlight(s, a, f);
        BystanderFlight(s, a, f);
      } else {
        AgentWrites(s, a, f);
      }
    } else if f in Do(s, a).flights {
      if Bystander(a) {
        BystanderFlight(s, a, f);
      } else {
        LeaderFlights(s, a, f);
      }
    } else {
      NotItsAgent(s, a, f);
    }
  }

  lemma KeepsFlight(s: State, a: Action, f: FlightId)
    requires Can(s, a) && Bystander(a) && f in s.flights
    ensures f in Do(s, a).flights
  {
    BystanderLeaves(s, a, f);
  }

  lemma NotItsAgent(s: State, a: Action, f: FlightId)
    requires Can(s, a) && f !in s.flights
    ensures !((a.FetchDoes? || a.MetaDoes?) && a.f == f)
  {
  }

  lemma RunWrites(r: Run, i: nat, f: FlightId)
    requires IsRun(r) && i < |r.actions| && Wrote(r.states[i], r.actions[..i], f)
    ensures Wrote(r.states[i + 1], r.actions[..i + 1], f)
  {
    assert Can(r.states[i], r.actions[i]) && r.states[i + 1] == Do(r.states[i], r.actions[i]);
    assert r.actions[..i + 1] == r.actions[..i] + [r.actions[i]];
    WroteStep(r.states[i], r.actions[i], r.actions[..i], f);
  }

  /** The body of a flight is what it received, in order and since its last start, and its metadata what it wrote last. */
  lemma {:induction false} BodyIsReceived(r: Run, i: nat, f: FlightId)
    requires IsRun(r) && i < |r.states|
    ensures Wrote(r.states[i], r.actions[..i], f)
  {
    if i == 0 {
      NoFlightAtFirst(r, f);
    } else {
      BodyIsReceived(r, i - 1, f);
      RunWrites(r, i - 1, f);
    }
  }
}
