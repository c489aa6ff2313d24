/** Every step keeps every invariant. */
module ProtocolPreservation {
  import opened Basics
  import opened Protocol
  import opened ProtocolInvariants
  import Packed

  type Registered = map<Key, FlightId>
  type Clients = map<ClientId, Client>

  /*** One flight moves ***/

  /** What any step of its agent, or the release of its pin, may do to a flight. */
  predicate Move(fl: Flight, to: Flight) {
    && to.key == fl.key && FlightOk(to)
    && (fl.outcome.Some? ==> to.outcome == fl.outcome)
    && fl.notifies <= to.notifies
    && (fl.entry.Some? ==> to.entry == fl.entry)
    && (IsLeader(to.pc) ==> IsLeader(fl.pc))
    && (Active(to.pc) ==> Active(fl.pc))
    && (fl.pin.Released? ==> to.pin.Released?)
    && (to.outcome == Some(Cached) && fl.outcome != Some(Cached) ==> fl.pin.Live?)
  }

  lemma FlightsMove(flights: Flights, f: FlightId, to: Flight)
    requires FlightsOk(flights) && f in flights && Move(flights[f], to)
    ensures FlightsOk(flights[f := to])
  {
  }

  lemma ClientsMove(clients: Clients, flights: Flights, f: FlightId, to: Flight)
    requires ClientsOk(clients, flights) && f in flights && Move(flights[f], to)
    ensures ClientsOk(clients, flights[f := to])
  {
  }

  lemma LoadsMove(clients: Clients, flights: Flights, exposed: set<FlightId>, f: FlightId, to: Flight)
    requires LoadsOk(clients, flights, exposed) && ClientsOk(clients, flights)
    requires f in flights && FlightOk(flights[f]) && Move(flights[f], to)
    ensures LoadsOk(clients, flights[f := to], exposed)
  {
  }

  lemma HoldersMove(flights: Flights, holders: set<FlightId>, f: FlightId, to: Flight)
    requires HoldersOk(flights, holders) && f in flights && Move(flights[f], to)
    ensures HoldersOk(flights[f := to], holders)
  {
  }

  lemma RegistryMove(flights: Flights, registered: Registered, f: FlightId, to: Flight)
    requires RegistryOk(flights, registered) && f in flights && Move(flights[f], to)
    requires Active(flights[f].pc) ==> Active(to.pc)
    ensures RegistryOk(flights[f := to], registered)
  {
  }

  lemma RegistryDrop(flights: Flights, registered: Registered, f: FlightId, to: Flight)
    requires RegistryOk(flights, registered) && f in flights && Move(flights[f], to)
    requires Active(flights[f].pc) && !Active(to.pc)
    ensures RegistryOk(flights[f := to], registered - {to.key})
  {
  }

  lemma SlotsMove(flights: Flights, slots: Registered, f: FlightId, to: Flight)
    requires SlotsOk(flights, slots) && f in flights && Move(flights[f], to) && to.pin == flights[f].pin
    requires to.pc.Pinned? || to.pc.Published? ==> flights[f].pc.Pinned? || flights[f].pc.Published?
    ensures SlotsOk(flights[f := to], slots)
  {
  }

  lemma ReleasedMove(flights: Flights, clients: Clients, f: FlightId, to: Flight)
    requires ReleasedOk(flights, clients) && f in flights && Move(flights[f], to)
    requires to.pin == flights[f].pin || to.pin.Live?
    ensures ReleasedOk(flights[f := to], clients)
  {
  }

  lemma RequestsMove(flights: Flights, sending: set<FlightId>, sent: map<FlightId, nat>, f: FlightId, to: Flight)
    requires RequestsOk(flights, sending, sent) && f in flights
    requires to.pin == flights[f].pin || (flights[f].pin.Unpinned? && to.pin.Live?)
    ensures RequestsOk(flights[f := to], sending, sent)
  {
  }

  lemma LockMove(flights: Flights, lock: Option<Owner>, janitor: Janitor, scan: Scan, f: FlightId, to: Flight)
    requires LockOk(flights, lock, janitor, scan) && f in flights
    requires OwnsLock(to.pc) == OwnsLock(flights[f].pc) && to.pc.MetaScanning? == flights[f].pc.MetaScanning?
    ensures LockOk(flights[f := to], lock, janitor, scan)
  {
  }

  /*** Artifact leaders ***/

  lemma FetchMoves(s: State, f: FlightId, step: FetchStep)
    requires FetchCan(s, f, step) && FlightOk(s.flights[f])
    ensures
      var fl, to := s.flights[f], FetchFlight(s.flights[f], step);
      && Move(fl, to) && Active(fl.pc) && Active(to.pc)
      && !OwnsLock(fl.pc) && !OwnsLock(to.pc)
      && (to.pin == fl.pin || (fl.pin.Unpinned? && to.pin.Live?))
  {
  }

  /** The map, permits and clients follow a flight that keeps its agent. */
  lemma FlightsFollow(s: State, t: State, f: FlightId, to: Flight)
    requires InvFlights(s) && f in s.flights && Move(s.flights[f], to) && t.flights == s.flights[f := to]
    requires Active(s.flights[f].pc) ==> Active(to.pc)
    requires t.registered == s.registered && t.holders == s.holders && t.clients == s.clients
    requires t.available == s.available && t.others == s.others && t.capacity == s.capacity
    requires s.exposed <= t.exposed
    ensures InvFlights(t)
  {
    FlightsMove(s.flights, f, to);
    RegistryMove(s.flights, s.registered, f, to);
    HoldersMove(s.flights, s.holders, f, to);
    ClientsMove(s.clients, s.flights, f, to);
    LoadsMove(s.clients, s.flights, s.exposed, f, to);
    assert forall c :: c in t.clients ==> LoadOk(t.clients[c], t.flights, s.exposed);
  }

  lemma FetchKeepsFlights(s: State, f: FlightId, step: FetchStep)
    requires FetchCan(s, f, step) && InvFlights(s)
    ensures InvFlights(FetchDo(s, f, step))
  {
    FetchMoves(s, f, step);
    FlightsFollow(s, FetchDo(s, f, step), f, FetchFlight(s.flights[f], step));
  }

  lemma FetchKeepsNames(s: State, f: FlightId, step: FetchStep)
    requires FetchCan(s, f, step) && DiskOk(s.disk) && TempOk(s.flights[f], f, s.disk, s.orphans)
    ensures DiskOk(FetchDisk(s.disk, s.flights[f], step))
  {
  }

  lemma FetchKeepsTemps(s: State, f: FlightId, step: FetchStep)
    requires FetchCan(s, f, step) && RegistryOk(s.flights, s.registered) && TempsOk(s.flights, s.disk, s.orphans)
    ensures TempsOk(s.flights[f := FetchFlight(s.flights[f], step)], FetchDisk(s.disk, s.flights[f], step), s.orphans)
  {
  }

  /** `to` differs from `d` in the bytes of at most the inodes `is`, and still knows every published inode. */
  ghost predicate TouchesOnly(d: Disk, to: Disk, touched: set<Inode>) {
    && d.published <= to.published && to.garbled == d.garbled
    && (forall j :: j in d.inodes ==> j in to.inodes && (j in touched || to.inodes[j] == d.inodes[j]))
  }

  lemma ContentStays(fl: Flight, d: Disk, to: Disk, touched: set<Inode>)
    requires ContentOk(fl, d) && TouchesOnly(d, to, touched)
    requires touched !! d.published
    requires fl.pc.Writing? || fl.pc.Footered? || fl.pc.Pinned? ==> fl.pc.ino !in touched
    requires OwnsTemp(fl.pc) ==>
      && fl.pc.temp in d.temps && fl.pc.temp in to.temps
      && d.temps[fl.pc.temp] == to.temps[fl.pc.temp] && d.temps[fl.pc.temp].ino !in touched
    ensures ContentOk(fl, to)
  {
  }

  lemma FetchContent(s: State, f: FlightId, step: FetchStep)
    requires FetchCan(s, f, step) && FlightOk(s.flights[f]) && ContentOk(s.flights[f], s.disk) && DiskOk(s.disk)
    ensures ContentOk(FetchFlight(s.flights[f], step), FetchDisk(s.disk, s.flights[f], step))
  {
  }

  /** The inodes an artifact leader's step writes: its own `<key>.part`, never a published one. */
  function FetchTouched(fl: Flight, step: FetchStep): set<Inode>
    requires step.AppendChunk? || step.AppendFooter? ==> fl.pc.Writing?
  {
    match step
    case CreateTemp(ino) => {ino}
    case AppendChunk(_) => {fl.pc.ino}
    case AppendFooter(_) => {fl.pc.ino}
    case _ => {}
  }

  lemma FetchTouches(s: State, f: FlightId, step: FetchStep)
    requires FetchCan(s, f, step) && DiskOk(s.disk) && TempOk(s.flights[f], f, s.disk, s.orphans)
    ensures
      var d, to, touched := s.disk, FetchDisk(s.disk, s.flights[f], step), FetchTouched(s.flights[f], step);
      && TouchesOnly(d, to, touched) && touched !! d.published && to.temps == d.temps
      && (forall k :: k in d.parts && k != s.flights[f].key ==> d.parts[k] !in touched)
      && (forall n :: n in d.temps ==> d.temps[n].ino !in touched)
  {
  }

  lemma FetchKeepsContents(s: State, f: FlightId, step: FetchStep)
    requires FetchCan(s, f, step) && FlightsOk(s.flights) && RegistryOk(s.flights, s.registered)
    requires DiskOk(s.disk) && TempsOk(s.flights, s.disk, s.orphans) && ContentsOk(s.flights, s.disk)
    ensures ContentsOk(s.flights[f := FetchFlight(s.flights[f], step)], FetchDisk(s.disk, s.flights[f], step))
  {
    var fl, to := s.flights[f], FetchDisk(s.disk, s.flights[f], step);
    var touched := FetchTouched(fl, step);
    assert TempOk(fl, f, s.disk, s.orphans) && ContentOk(fl, s.disk) && FlightOk(fl);
    FetchMoves(s, f, step);
    FetchTouches(s, f, step);
    FetchContent(s, f, step);
    forall g | g in s.flights && g != f ensures ContentOk(s.flights[g], to) {
      assert TempOk(s.flights[g], g, s.disk, s.orphans) && ContentOk(s.flights[g], s.disk);
      assert s.registered[fl.key] == f;
      ContentStays(s.flights[g], s.disk, to, touched);
    }
  }

  lemma FetchKeepsPinMap(s: State, f: FlightId, step: FetchStep)
    requires FetchCan(s, f, step) && FlightsOk(s.flights) && RegistryOk(s.flights, s.registered)
    requires SlotsOk(s.flights, s.slots) && ReleasedOk(s.flights, s.clients)
    requires RequestsOk(s.flights, s.sending, s.sent)
    ensures
      var to := s.flights[f := FetchFlight(s.flights[f], step)];
      && SlotsOk(to, if step.Pin? then s.slots[s.flights[f].key := f] else s.slots)
      && ReleasedOk(to, s.clients) && RequestsOk(to, s.sending, s.sent)
  {
    var to := FetchFlight(s.flights[f], step);
    FetchMoves(s, f, step);
    if step.Pin? {
      PinSlot(s.flights, s.registered, s.slots, f, to);
    } else {
      SlotsMove(s.flights, s.slots, f, to);
    }
    ReleasedMove(s.flights, s.clients, f, to);
    RequestsMove(s.flights, s.sending, s.sent, f, to);
  }

  /** A leader's pin may displace an older pin of its key, never that of another leader. */
  lemma PinSlot(flights: Flights, registered: Registered, slots: Registered, f: FlightId, to: Flight)
    requires RegistryOk(flights, registered) && SlotsOk(flights, slots)
    requires f in flights && Active(flights[f].pc) && to.key == flights[f].key && to.pin.Live? && to.pc.Pinned?
    ensures SlotsOk(flights[f := to], slots[to.key := f])
  {
  }

  lemma ProtectMove(flights: Flights, slots: Registered, bodies: map<Key, Inode>, scan: Scan, exposed: set<FlightId>,
                    f: FlightId, to: Flight)
    requires PinsProtect(flights, slots, bodies, scan, exposed) && f in flights
    requires to.key == flights[f].key && (to.pin.Live? ==> flights[f].pin.Live? && to.entry == flights[f].entry)
    requires to.pc.Pinned? ==> flights[f].pc.Pinned?
    ensures PinsProtect(flights[f := to], slots, bodies, scan, exposed)
  {
  }

  /** A new pin takes the slot of the publications it exposes, and of no other. */
  lemma ProtectPin(flights: Flights, registered: Registered, slots: Registered, bodies: map<Key, Inode>, scan: Scan,
                   exposed: set<FlightId>, f: FlightId, to: Flight)
    requires RegistryOk(flights, registered) && PinsProtect(flights, slots, bodies, scan, exposed)
    requires f in flights && Active(flights[f].pc) && to.key == flights[f].key && to.entry.None?
    ensures PinsProtect(flights[f := to], slots[to.key := f], bodies, Taint(scan), exposed + Displaced(flights, to.key))
  {
  }

  /** A leader publishes under its own slot; if a scan is about to remove the name, it is exposed. */
  lemma ProtectRename(flights: Flights, registered: Registered, slots: Registered, bodies: map<Key, Inode>, scan: Scan,
                      exposed: set<FlightId>, f: FlightId, to: Flight)
    requires RegistryOk(flights, registered) && PinsProtect(flights, slots, bodies, scan, exposed)
    requires SlotsOk(flights, slots) && ScanOk(scan, bodies)
    requires f in flights && flights[f].pc.Pinned? && to.key == flights[f].key && to.entry.Some? && !to.pc.Pinned?
    ensures PinsProtect(flights[f := to], slots, bodies[to.key := to.entry.value], scan,
                        if BeingRemoved(scan, to.key) then exposed + {f} else exposed)
  {
  }

  lemma FetchKeepsProtection(s: State, f: FlightId, step: FetchStep)
    requires FetchCan(s, f, step) && FlightsOk(s.flights) && RegistryOk(s.flights, s.registered)
    requires SlotsOk(s.flights, s.slots) && ScanOk(s.scan, s.disk.bodies)
    requires PinsProtect(s.flights, s.slots, s.disk.bodies, s.scan, s.exposed)
    ensures
      var t := FetchDo(s, f, step);
      PinsProtect(t.flights, t.slots, t.disk.bodies, t.scan, t.exposed)
  {
    var to := FetchFlight(s.flights[f], step);
    FetchMoves(s, f, step);
    if step.Pin? {
      ProtectPin(s.flights, s.registered, s.slots, s.disk.bodies, s.scan, s.exposed, f, to);
    } else if step.Rename? {
      ProtectRename(s.flights, s.registered, s.slots, s.disk.bodies, s.scan, s.exposed, f, to);
    } else {
      ProtectMove(s.flights, s.slots, s.disk.bodies, s.scan, s.exposed, f, to);
    }
  }

  lemma SizesStay(d: Disk, to: Disk, touched: set<Inode>)
    requires DiskOk(d) && TouchesOnly(d, to, touched) && touched !! d.published && to.bodies == d.bodies
    ensures Sizes(to) == Sizes(d) && forall k :: k in d.bodies ==> Size(to, k) == Size(d, k)
  {
  }

  lemma FetchKeepsBound(s: State, f: FlightId, step: FetchStep)
    requires FetchCan(s, f, step) && FlightsOk(s.flights) && DiskOk(s.disk)
    requires TempOk(s.flights[f], f, s.disk, s.orphans) && SlotsOk(s.flights, s.slots)
    requires LockOk(s.flights, s.lock, s.janitor, s.scan)
    requires BoundOk(s)
    ensures BoundOk(FetchDo(s, f, step))
  {
    var t := FetchDo(s, f, step);
    FetchMoves(s, f, step);
    if step.Pin? || step.Rename? {
      assert s.flights[f].key in t.slots;
    } else {
      FetchTouches(s, f, step);
      SizesStay(s.disk, t.disk, FetchTouched(s.flights[f], step));
    }
  }

  lemma FetchKeepsDisk(s: State, f: FlightId, step: FetchStep)
    requires FetchCan(s, f, step) && InvFlights(s) && InvDisk(s)
    ensures InvDisk(FetchDo(s, f, step))
  {
    assert TempOk(s.flights[f], f, s.disk, s.orphans);
    FetchKeepsNames(s, f, step);
    FetchKeepsTemps(s, f, step);
    FetchTouches(s, f, step);
    FetchKeepsContents(s, f, step);
  }

  lemma FetchKeepsPins(s: State, f: FlightId, step: FetchStep)
    requires FetchCan(s, f, step) && InvFlights(s) && InvPins(s) && ScanOk(s.scan, s.disk.bodies)
    ensures InvPins(FetchDo(s, f, step))
  {
    FetchKeepsPinMap(s, f, step);
    FetchKeepsProtection(s, f, step);
  }

  lemma FetchKeepsEvict(s: State, f: FlightId, step: FetchStep)
    requires FetchCan(s, f, step) && InvFlights(s) && InvDisk(s) && InvPins(s) && InvEvict(s)
    ensures InvEvict(FetchDo(s, f, step))
  {
    assert TempOk(s.flights[f], f, s.disk, s.orphans);
    FetchMoves(s, f, step);
    FetchKeepsBound(s, f, step);
    LockMove(s.flights, s.lock, s.janitor, s.scan, f, FetchFlight(s.flights[f], step));
  }

  /*** Metadata leaders ***/

  lemma MetaMoves(s: State, f: FlightId, step: MetaStep)
    requires MetaCan(s, f, step) && FlightOk(s.flights[f])
    ensures
      var fl, to := s.flights[f], MetaFlight(s.disk, s.flights[f], step);
      && Move(fl, to) && Active(fl.pc) && Active(to.pc) && to.pin.Unpinned? && fl.pin.Unpinned?
  {
  }

  lemma MetaKeepsFlights(s: State, f: FlightId, step: MetaStep)
    requires MetaCan(s, f, step) && InvFlights(s)
    ensures InvFlights(MetaDo(s, f, step))
  {
    MetaMoves(s, f, step);
    FlightsFollow(s, MetaDo(s, f, step), f, MetaFlight(s.disk, s.flights[f], step));
  }

  lemma MetaKeepsNames(s: State, f: FlightId, step: MetaStep)
    requires MetaCan(s, f, step) && DiskOk(s.disk) && CounterOk(s.disk, s.orphans, s.nextTemp)
    ensures DiskOk(MetaDisk(s.disk, f, s.flights[f], step))
  {
  }

  lemma MetaKeepsTemps(s: State, f: FlightId, step: MetaStep)
    requires MetaCan(s, f, step) && TempsOk(s.flights, s.disk, s.orphans)
    requires CounterOk(s.disk, s.orphans, s.nextTemp)
    ensures
      var t := MetaDo(s, f, step);
      TempsOk(t.flights, t.disk, t.orphans) && CounterOk(t.disk, t.orphans, t.nextTemp)
  {
  }

  function MetaTouched(d: Disk, fl: Flight, step: MetaStep): set<Inode>
    requires step.MetaWrite? ==> fl.pc.MetaWriting? && fl.pc.temp in d.temps
  {
    match step
    case MetaCreate(ino, _) => {ino}
    case MetaWrite(_, _) => {d.temps[fl.pc.temp].ino}
    case _ => {}
  }

  lemma MetaTouches(s: State, f: FlightId, step: MetaStep)
    requires MetaCan(s, f, step) && DiskOk(s.disk) && CounterOk(s.disk, s.orphans, s.nextTemp)
    ensures
      var d, to, touched := s.disk, MetaDisk(s.disk, f, s.flights[f], step), MetaTouched(s.disk, s.flights[f], step);
      && TouchesOnly(d, to, touched) && touched !! d.published
      && (forall k :: k in d.parts ==> d.parts[k] !in touched)
      && (forall n :: n in d.temps && !(step.MetaWrite? && n == s.flights[f].pc.temp) ==> d.temps[n].ino !in touched)
  {
  }

  lemma MetaContent(s: State, f: FlightId, step: MetaStep)
    requires MetaCan(s, f, step) && FlightOk(s.flights[f]) && ContentOk(s.flights[f], s.disk) && DiskOk(s.disk)
    requires TempOk(s.flights[f], f, s.disk, s.orphans)
    ensures ContentOk(MetaFlight(s.disk, s.flights[f], step), MetaDisk(s.disk, f, s.flights[f], step))
  {
  }

  lemma MetaKeepsContents(s: State, f: FlightId, step: MetaStep)
    requires MetaCan(s, f, step) && FlightsOk(s.flights) && InvDisk(s)
    ensures ContentsOk(s.flights[f := MetaFlight(s.disk, s.flights[f], step)], MetaDisk(s.disk, f, s.flights[f], step))
  {
    var fl, to := s.flights[f], MetaDisk(s.disk, f, s.flights[f], step);
    assert TempOk(fl, f, s.disk, s.orphans) && ContentOk(fl, s.disk) && FlightOk(fl);
    MetaTouches(s, f, step);
    MetaContent(s, f, step);
    forall g | g in s.flights && g != f ensures ContentOk(s.flights[g], to) {
      assert TempOk(s.flights[g], g, s.disk, s.orphans) && ContentOk(s.flights[g], s.disk);
      ContentStays(s.flights[g], s.disk, to, MetaTouched(s.disk, fl, step));
    }
  }

  lemma MetaKeepsDisk(s: State, f: FlightId, step: MetaStep)
    requires MetaCan(s, f, step) && InvFlights(s) && InvDisk(s)
    ensures InvDisk(MetaDo(s, f, step))
  {
    MetaKeepsNames(s, f, step);
    MetaKeepsTemps(s, f, step);
    MetaKeepsContents(s, f, step);
  }

  /** Metadata names carry no pins. */
  lemma ProtectOther(flights: Flights, slots: Registered, bodies: map<Key, Inode>, scan: Scan, exposed: set<FlightId>,
                     bodies': map<Key, Inode>, scan': Scan)
    requires FlightsOk(flights) && PinsProtect(flights, slots, bodies, scan, exposed)
    requires forall k: Key :: k.kind.Artifact? ==>
      && (k in bodies <==> k in bodies') && (k in bodies ==> bodies[k] == bodies'[k])
      && (BeingRemoved(scan', k) ==> BeingRemoved(scan, k))
    ensures PinsProtect(flights, slots, bodies', scan', exposed)
  {
  }

  /** Pins follow a flight that neither pins nor publishes, whatever happens to metadata names. */
  lemma PinsFollow(s: State, t: State, f: FlightId, to: Flight)
    requires FlightsOk(s.flights) && InvPins(s) && f in s.flights && t.flights == s.flights[f := to]
    requires Move(s.flights[f], to) && to.pin == s.flights[f].pin
    requires to.pin.Live? ==> to.entry == s.flights[f].entry
    requires to.pc.Pinned? || to.pc.Published? ==> to.pc == s.flights[f].pc
    requires t.slots == s.slots && t.clients == s.clients && t.sending == s.sending && t.sent == s.sent
    requires t.exposed == s.exposed && SentOk(t.sent, t.queue, t.janitor, t.scanStarts)
    requires forall k: Key :: k.kind.Artifact? ==>
      && (k in s.disk.bodies <==> k in t.disk.bodies) && (k in s.disk.bodies ==> s.disk.bodies[k] == t.disk.bodies[k])
      && (BeingRemoved(t.scan, k) ==> BeingRemoved(s.scan, k))
    ensures InvPins(t)
  {
    SlotsMove(s.flights, s.slots, f, to);
    ReleasedMove(s.flights, s.clients, f, to);
    RequestsMove(s.flights, s.sending, s.sent, f, to);
    FlightsMove(s.flights, f, to);
    ProtectMove(s.flights, s.slots, s.disk.bodies, s.scan, s.exposed, f, to);
    ProtectOther(t.flights, s.slots, s.disk.bodies, s.scan, s.exposed, t.disk.bodies, t.scan);
  }

  lemma MetaKeepsPins(s: State, f: FlightId, step: MetaStep)
    requires MetaCan(s, f, step) && InvFlights(s) && InvPins(s)
    ensures InvPins(MetaDo(s, f, step))
  {
    MetaMoves(s, f, step);
    PinsFollow(s, MetaDo(s, f, step), f, MetaFlight(s.disk, s.flights[f], step));
  }

  /** A flight that gives up the eviction lock, if it had it. */
  lemma LockDrop(flights: Flights, lock: Option<Owner>, janitor: Janitor, scan: Scan, f: FlightId, to: Flight)
    requires LockOk(flights, lock, janitor, scan) && f in flights && !OwnsLock(to.pc)
    ensures LockOk(flights[f := to], if OwnsLock(flights[f].pc) then None else lock, janitor,
                   if flights[f].pc.MetaScanning? then NoScan else scan)
  {
  }

  lemma MetaKeepsLock(s: State, f: FlightId, step: MetaStep)
    requires MetaCan(s, f, step) && LockOk(s.flights, s.lock, s.janitor, s.scan)
    ensures var t := MetaDo(s, f, step); LockOk(t.flights, t.lock, t.janitor, t.scan)
  {
  }

  lemma MetaKeepsBound(s: State, f: FlightId, step: MetaStep)
    requires MetaCan(s, f, step) && InvDisk(s) && InvEvict(s)
    ensures BoundOk(MetaDo(s, f, step))
  {
    MetaTouches(s, f, step);
    if !step.MetaRename? {
      SizesStay(s.disk, MetaDisk(s.disk, f, s.flights[f], step), MetaTouched(s.disk, s.flights[f], step));
    }
  }

  lemma MetaKeepsEvict(s: State, f: FlightId, step: MetaStep)
    requires MetaCan(s, f, step) && InvFlights(s) && InvDisk(s) && InvEvict(s)
    ensures InvEvict(MetaDo(s, f, step))
  {
    MetaKeepsLock(s, f, step);
    MetaKeepsBound(s, f, step);
  }

  /*** Completion, cancellation, cleanup ***/

  lemma FinishMoves(s: State, f: FlightId, step: FinishStep)
    requires FinishCan(s, f, step) && FlightOk(s.flights[f])
    ensures
      var fl, to := s.flights[f], FinishFlight(s.flights[f], step);
      && Move(fl, to) && to.pin == fl.pin && to.entry == fl.entry && to.body == fl.body && to.meta == fl.meta
      && (Active(fl.pc) && !Active(to.pc) <==> step.Unregister? || step.DoCleanUnregister?)
      && !OwnsLock(to.pc) && !OwnsTemp(to.pc)
      && (step.ReleasePermit? || !(to.pc.Pinned? || to.pc.Published? || to.pc.Writing? || to.pc.Footered?))
  {
  }

  lemma UnregisterKeepsFlights(s: State, f: FlightId, step: FinishStep)
    requires FinishCan(s, f, step) && (step.Unregister? || step.DoCleanUnregister?) && InvFlights(s)
    ensures InvFlights(FinishDo(s, f, step))
  {
    var to := FinishFlight(s.flights[f], step);
    FinishMoves(s, f, step);
    FlightsMove(s.flights, f, to);
    RegistryDrop(s.flights, s.registered, f, to);
    HoldersMove(s.flights, s.holders, f, to);
    ClientsMove(s.clients, s.flights, f, to);
    LoadsMove(s.clients, s.flights, s.exposed, f, to);
  }

  lemma FinishKeepsFlights(s: State, f: FlightId, step: FinishStep)
    requires FinishCan(s, f, step) && InvFlights(s)
    ensures InvFlights(FinishDo(s, f, step))
  {
    if step.Unregister? || step.DoCleanUnregister? {
      UnregisterKeepsFlights(s, f, step);
    } else if step.ReleasePermit? {
      assert s.flights[f := s.flights[f]] == s.flights;
    } else {
      FinishMoves(s, f, step);
      FlightsFollow(s, FinishDo(s, f, step), f, FinishFlight(s.flights[f], step));
    }
  }

  lemma TempsDrop(s: State, f: FlightId, to: Flight, d: Disk, orphans: set<nat>)
    requires RegistryOk(s.flights, s.registered) && TempsOk(s.flights, s.disk, s.orphans) && f in s.flights
    requires !OwnsTemp(to.pc) && !to.pc.Writing? && !to.pc.Footered? && !to.pc.Pinned?
    requires d.temps == s.disk.temps && (orphans == DropTemp(s.orphans, s.flights[f].pc) || orphans == s.orphans)
    requires
      || d.parts == s.disk.parts
      || (Active(s.flights[f].pc) && d.parts == s.disk.parts - {s.flights[f].key})
    ensures TempsOk(s.flights[f := to], d, orphans)
  {
  }

  lemma ContentsDrop(flights: Flights, d: Disk, f: FlightId, to: Flight, d': Disk)
    requires ContentsOk(flights, d) && f in flights
    requires !OwnsTemp(to.pc) && !to.pc.Writing? && !to.pc.Footered? && !to.pc.Pinned?
    requires to.entry == flights[f].entry && to.body == flights[f].body && to.meta == flights[f].meta
    requires d'.inodes == d.inodes && d'.temps == d.temps && d'.published == d.published && d'.garbled == d.garbled
    ensures ContentsOk(flights[f := to], d')
  {
  }

  /** A flight that no longer writes, its `.part` and its metadata temp given up. */
  lemma DiskFollow(s: State, t: State, f: FlightId, to: Flight)
    requires RegistryOk(s.flights, s.registered) && InvDisk(s)
    requires f in s.flights && t.flights == s.flights[f := to] && t.nextTemp == s.nextTemp
    requires to.entry == s.flights[f].entry && to.body == s.flights[f].body && to.meta == s.flights[f].meta
    requires !OwnsTemp(to.pc) && !to.pc.Writing? && !to.pc.Footered? && !to.pc.Pinned?
    requires
      || t.disk == s.disk
      || (Active(s.flights[f].pc) && t.disk == s.disk.(parts := s.disk.parts - {s.flights[f].key}))
    requires t.orphans == DropTemp(s.orphans, s.flights[f].pc) || t.orphans == s.orphans
    ensures InvDisk(t)
  {
    assert TempOk(s.flights[f], f, s.disk, s.orphans);
    TempsDrop(s, f, to, t.disk, t.orphans);
    ContentsDrop(s.flights, s.disk, f, to, t.disk);
  }

  lemma FinishKeepsDisk(s: State, f: FlightId, step: FinishStep)
    requires FinishCan(s, f, step) && InvFlights(s) && InvDisk(s)
    ensures InvDisk(FinishDo(s, f, step))
  {
    if step.ReleasePermit? {
      assert s.flights[f := s.flights[f]] == s.flights;
    } else {
      FinishMoves(s, f, step);
      DiskFollow(s, FinishDo(s, f, step), f, FinishFlight(s.flights[f], step));
    }
  }

  lemma FinishKeepsPins(s: State, f: FlightId, step: FinishStep)
    requires FinishCan(s, f, step) && InvFlights(s) && InvPins(s)
    ensures InvPins(FinishDo(s, f, step))
  {
    FinishMoves(s, f, step);
    PinsFollow(s, FinishDo(s, f, step), f, FinishFlight(s.flights[f], step));
  }

  lemma FinishKeepsBound(s: State, f: FlightId, step: FinishStep)
    requires FinishCan(s, f, step) && InvEvict(s) && FlightsOk(s.flights)
    ensures BoundOk(FinishDo(s, f, step))
  {
    var t := FinishDo(s, f, step);
    FinishMoves(s, f, step);
    assert Sizes(t.disk) == Sizes(s.disk);
    assert forall k :: Size(t.disk, k) == Size(s.disk, k);
  }

  lemma FinishKeepsEvict(s: State, f: FlightId, step: FinishStep)
    requires FinishCan(s, f, step) && InvFlights(s) && InvEvict(s)
    ensures InvEvict(FinishDo(s, f, step))
  {
    FinishMoves(s, f, step);
    FinishKeepsBound(s, f, step);
    LockDrop(s.flights, s.lock, s.janitor, s.scan, f, FinishFlight(s.flights[f], step));
  }

  /*** Pins ***/

  lemma UnpinMoves(fl: Flight, owned: bool)
    requires FlightOk(fl) && fl.pin.Live? && !fl.pc.Pinned? && !fl.pc.Published?
    ensures Move(fl, fl.(pin := Released(owned)))
  {
  }

  lemma PinKeepsFlights(s: State, f: FlightId, step: PinStep)
    requires PinCan(s, f, step) && InvFlights(s)
    ensures InvFlights(PinDo(s, f, step))
  {
    if step.Unpin? {
      var t := PinDo(s, f, step);
      UnpinMoves(s.flights[f], t.flights[f].pin.owned);
      FlightsFollow(s, t, f, t.flights[f]);
    }
  }

  lemma PinKeepsDisk(s: State, f: FlightId, step: PinStep)
    requires PinCan(s, f, step) && InvDisk(s)
    ensures InvDisk(PinDo(s, f, step))
  {
  }

  lemma UnpinSlots(flights: Flights, slots: Registered, f: FlightId, owned: bool)
    requires SlotsOk(flights, slots) && f in flights && flights[f].pin.Live?
    requires !flights[f].pc.Pinned? && !flights[f].pc.Published?
    requires owned == (flights[f].key in slots && slots[flights[f].key] == f)
    ensures SlotsOk(flights[f := flights[f].(pin := Released(owned))], if owned then slots - {flights[f].key} else slots)
  {
  }

  lemma UnpinReleased(flights: Flights, clients: Clients, f: FlightId, owned: bool)
    requires ReleasedOk(flights, clients) && f in flights && !PinHeld(flights[f], f, clients)
    ensures ReleasedOk(flights[f := flights[f].(pin := Released(owned))], clients)
  {
  }

  lemma UnpinRequests(s: State, f: FlightId, owned: bool)
    requires RequestsOk(s.flights, s.sending, s.sent) && f in s.flights && s.flights[f].pin.Live?
    ensures RequestsOk(s.flights[f := s.flights[f].(pin := Released(owned))],
                       if owned then s.sending + {f} else s.sending, s.sent)
  {
  }

  /** A flight relying on its slot is never the one whose slot goes. */
  lemma UnpinProtection(flights: Flights, slots: Registered, bodies: map<Key, Inode>, scan: Scan, exposed: set<FlightId>,
                        f: FlightId, owned: bool)
    requires PinsProtect(flights, slots, bodies, scan, exposed) && f in flights && !flights[f].pc.Pinned?
    requires owned == (flights[f].key in slots && slots[flights[f].key] == f)
    ensures PinsProtect(flights[f := flights[f].(pin := Released(owned))],
                        if owned then slots - {flights[f].key} else slots, bodies, scan, exposed)
  {
  }

  lemma PinKeepsPins(s: State, f: FlightId, step: PinStep)
    requires PinCan(s, f, step) && InvPins(s)
    ensures InvPins(PinDo(s, f, step))
  {
    if step.Unpin? {
      var owned := s.flights[f].key in s.slots && s.slots[s.flights[f].key] == f;
      UnpinSlots(s.flights, s.slots, f, owned);
      UnpinReleased(s.flights, s.clients, f, owned);
      UnpinRequests(s, f, owned);
      UnpinProtection(s.flights, s.slots, s.disk.bodies, s.scan, s.exposed, f, owned);
    }
  }

  lemma PinKeepsEvict(s: State, f: FlightId, step: PinStep)
    requires PinCan(s, f, step) && InvEvict(s)
    ensures InvEvict(PinDo(s, f, step))
  {
  }

  /*** Clients ***/

  lemma ClientKeepsWait(s: State, c: ClientId, step: ClientStep)
    requires ClientCan(s, c, step) && c in s.clients && FlightsOk(s.flights) && RegistryOk(s.flights, s.registered)
    requires ClientOk(s.clients[c], s.flights) && !step.Arrive?
    ensures ClientOk(s.clients[c].(pc := ClientNext(s, s.clients[c], step)), s.flights)
  {
  }

  /** A waiter holding a pin finds the entry its flight published. */
  lemma LoadFinds(s: State, c: ClientId)
    requires InvFlights(s) && InvDisk(s) && InvPins(s)
    requires c in s.clients && s.clients[c].pc.Waiting? && s.clients[c].pc.w == Got(Cached)
    requires s.clients[c].pc.f !in s.exposed
    ensures
      var fl := s.flights[s.clients[c].pc.f];
      && Loads(s.disk, s.clients[c].key) && fl.entry == Some(s.disk.bodies[s.clients[c].key])
      && |fl.meta| <= Packed.MAX_META_LEN
      && Packed.Unpack(s.disk.inodes[s.disk.bodies[s.clients[c].key]]) == Ok(Packed.Entry(fl.body, fl.meta))
  {
    var cl := s.clients[c];
    var f := cl.pc.f;
    assert ClientOk(cl, s.flights);
    var fl := s.flights[f];
    assert FlightOk(fl) && ContentOk(fl, s.disk);
    assert WaitsOn(cl, f);
    assert PinHeld(fl, f, s.clients);
    assert PinProtects(fl, f, s.slots, s.disk.bodies, s.scan, s.exposed);
    Packed.UnpackInvertsPack(fl.body, fl.meta);
  }

  lemma ClientKeepsLoad(s: State, c: ClientId, step: ClientStep)
    requires ClientCan(s, c, step) && c in s.clients && !step.Arrive?
    requires InvFlights(s) && InvDisk(s) && InvPins(s)
    ensures LoadOk(s.clients[c].(pc := ClientNext(s, s.clients[c], step)), s.flights, s.exposed)
  {
    assert LoadOk(s.clients[c], s.flights, s.exposed);
    if step.Load? && s.clients[c].pc.f !in s.exposed {
      LoadFinds(s, c);
    }
  }

  lemma ClientKeepsFlights(s: State, c: ClientId, step: ClientStep)
    requires ClientCan(s, c, step) && InvFlights(s) && InvDisk(s) && InvPins(s)
    ensures InvFlights(ClientDo(s, c, step))
  {
    if c in s.clients && !step.Arrive? {
      assert ClientOk(s.clients[c], s.flights);
      ClientKeepsWait(s, c, step);
      ClientKeepsLoad(s, c, step);
    }
  }

  /** A client joins only flights that still have an agent. */
  lemma ClientKeepsReleased(s: State, c: ClientId, step: ClientStep)
    requires ClientCan(s, c, step) && FlightsOk(s.flights) && RegistryOk(s.flights, s.registered)
    requires ReleasedOk(s.flights, s.clients)
    ensures ReleasedOk(s.flights, ClientDo(s, c, step).clients)
  {
    var t := ClientDo(s, c, step);
    forall f | f in s.flights && s.flights[f].pin.Released? ensures !PinHeld(s.flights[f], f, t.clients) {
      assert !PinHeld(s.flights[f], f, s.clients);
      if s.flights[f].outcome == Some(Cached) {
        assert !Active(s.flights[f].pc);
        forall d | d in t.clients ensures !WaitsOn(t.clients[d], f) {
          assert d in s.clients ==> !WaitsOn(s.clients[d], f);
        }
      }
    }
  }

  lemma ClientKeeps(s: State, c: ClientId, step: ClientStep)
    requires ClientCan(s, c, step) && Inv(s)
    ensures Inv(ClientDo(s, c, step))
  {
    ClientKeepsFlights(s, c, step);
    ClientKeepsReleased(s, c, step);
  }

  lemma LeadRegistry(flights: Flights, registered: Registered, k: Key, g: FlightId)
    requires RegistryOk(flights, registered) && k !in registered && g !in flights
    ensures RegistryOk(flights[g := NewFlight(k)], registered[k := g])
  {
  }

  lemma LeadHolders(flights: Flights, holders: set<FlightId>, k: Key, g: FlightId)
    requires HoldersOk(flights, holders) && g !in flights
    ensures HoldersOk(flights[g := NewFlight(k)], holders + {g}) && |holders + {g}| == |holders| + 1
  {
  }

  lemma LeadFlights(flights: Flights, k: Key, g: FlightId)
    requires FlightsOk(flights) && g !in flights
    ensures FlightsOk(flights[g := NewFlight(k)])
  {
  }

  lemma LeadKeepsClients(s: State, c: ClientId, g: FlightId)
    requires LeadCan(s, c, g) && ClientsOk(s.clients, s.flights) && LoadsOk(s.clients, s.flights, s.exposed)
    ensures var t := LeadDo(s, c, g); ClientsOk(t.clients, t.flights) && LoadsOk(t.clients, t.flights, t.exposed)
  {
  }

  lemma LeadKeepsFlights(s: State, c: ClientId, g: FlightId)
    requires LeadCan(s, c, g) && InvFlights(s)
    ensures InvFlights(LeadDo(s, c, g))
  {
    LeadRegistry(s.flights, s.registered, s.clients[c].key, g);
    LeadHolders(s.flights, s.holders, s.clients[c].key, g);
    LeadFlights(s.flights, s.clients[c].key, g);
    LeadKeepsClients(s, c, g);
  }

  lemma LeadKeepsDisk(s: State, c: ClientId, g: FlightId)
    requires LeadCan(s, c, g) && InvDisk(s)
    ensures InvDisk(LeadDo(s, c, g))
  {
  }

  lemma LeadKeepsPins(s: State, c: ClientId, g: FlightId)
    requires LeadCan(s, c, g) && InvPins(s)
    ensures InvPins(LeadDo(s, c, g))
  {
    var t := LeadDo(s, c, g);
    forall f | f in t.flights && t.flights[f].pin.Released? ensures !PinHeld(t.flights[f], f, t.clients) {
      assert f in s.flights && !PinHeld(s.flights[f], f, s.clients);
      assert forall d :: d in t.clients && WaitsOn(t.clients[d], f) ==> d in s.clients && WaitsOn(s.clients[d], f);
    }
  }

  lemma LeadKeepsEvict(s: State, c: ClientId, g: FlightId)
    requires LeadCan(s, c, g) && InvEvict(s)
    ensures InvEvict(LeadDo(s, c, g))
  {
  }

  /*** Janitor, scans, the rest ***/

  lemma JanitorKeeps(s: State, step: JanitorStep)
    requires JanitorCan(s, step) && Inv(s)
    ensures Inv(JanitorDo(s, step))
  {
  }

  lemma OtherKeepsDisk(s: State, step: OtherStep)
    requires OtherCan(s, step) && InvDisk(s)
    ensures InvDisk(OtherDo(s, step))
  {
  }

  lemma OtherKeepsFlights(s: State, step: OtherStep)
    requires OtherCan(s, step) && InvFlights(s)
    ensures InvFlights(OtherDo(s, step))
  {
  }

  lemma OtherKeepsPins(s: State, step: OtherStep)
    requires OtherCan(s, step) && InvPins(s)
    ensures InvPins(OtherDo(s, step))
  {
  }

  lemma OtherKeepsBound(s: State, step: OtherStep)
    requires OtherCan(s, step) && BoundOk(s) && DiskOk(s.disk)
    ensures BoundOk(OtherDo(s, step))
  {
    SizesStay(s.disk, OtherDo(s, step).disk, {});
  }

  lemma OtherKeepsEvict(s: State, step: OtherStep)
    requires OtherCan(s, step) && InvEvict(s) && DiskOk(s.disk)
    ensures InvEvict(OtherDo(s, step))
  {
    OtherKeepsBound(s, step);
  }

  lemma SizesRemove(d: Disk, k: Key)
    requires k in d.bodies
    ensures Sizes(d.(bodies := d.bodies - {k})) == Sizes(d) - {k}
  {
  }

  /** An undisturbed scan stays exact. */
  lemma ScanKeepsExact(s: State, step: ScanStep)
    requires ScanCan(s, step) && !s.scan.tainted && s.slots == map[]
    requires ScanOk(s.scan, s.disk.bodies) && ExactScan(s.disk, s.scan, s.unpaid)
    ensures var t := ScanDo(s, step); t.scan.Running? ==> ExactScan(t.disk, t.scan, t.unpaid)
  {
    match step
    case FinishListing =>
      assert s.scan.remaining.Keys == s.disk.bodies.Keys;
      assert s.scan.remaining == Sizes(s.disk);
    case Remove(k, ok) =>
      if ok && !s.unpaid {
        SumRemove(s.scan.remaining, k);
        SizesRemove(s.disk, k);
      }
    case _ =>
  }

  /** So the total it stops at is the size on disk. */
  lemma ExactScanEnds(s: State)
    requires ScanCan(s, EndScan) && ExactScan(s.disk, s.scan, s.unpaid)
    ensures s.unpaid || TotalSize(s) <= s.maxSize
  {
  }

  lemma ScanKeepsListed(s: State, step: ScanStep)
    requires ScanCan(s, step) && ScanOk(s.scan, s.disk.bodies)
    ensures var t := ScanDo(s, step); ScanOk(t.scan, t.disk.bodies)
  {
  }

  lemma ScanKeepsBound(s: State, step: ScanStep)
    requires ScanCan(s, step) && ScanOk(s.scan, s.disk.bodies) && BoundOk(s)
    ensures BoundOk(ScanDo(s, step))
  {
    if s.scan.tainted {
      TaintedScanCarries(s, step);
    } else {
      ScanKeepsExact(s, step);
      if step.EndScan? {
        ExactScanEnds(s);
      }
    }
  }

  /** A disturbed scan leaves the pins and the queue that make another one happen. */
  lemma TaintedScanCarries(s: State, step: ScanStep)
    requires ScanCan(s, step) && s.scan.tainted && Carried(s)
    ensures BoundOk(ScanDo(s, step))
  {
    assert Carried(ScanDo(s, step));
  }

  lemma ScanKeepsEvict(s: State, step: ScanStep)
    requires ScanCan(s, step) && InvEvict(s)
    ensures InvEvict(ScanDo(s, step))
  {
    ScanKeepsListed(s, step);
    ScanKeepsBound(s, step);
  }

  /** The scan removes only a name it checked, and a protected name never gets past the check. */
  lemma ScanKeepsPins(s: State, step: ScanStep)
    requires ScanCan(s, step) && InvPins(s)
    ensures InvPins(ScanDo(s, step))
  {
  }

  lemma ScanKeepsDisk(s: State, step: ScanStep)
    requires ScanCan(s, step) && InvDisk(s)
    ensures InvDisk(ScanDo(s, step))
  {
  }

  lemma ScanKeepsFlights(s: State, step: ScanStep)
    requires ScanCan(s, step) && InvFlights(s)
    ensures InvFlights(ScanDo(s, step))
  {
  }

  lemma StepKeeps(s: State, a: Action)
    requires Inv(s) && Can(s, a)
    ensures Inv(Do(s, a))
  {
    match a
    case ClientDoes(c, step) => ClientKeeps(s, c, step);
    case Leads(c, g) =>
      LeadKeepsFlights(s, c, g);
      LeadKeepsDisk(s, c, g);
      LeadKeepsPins(s, c, g);
      LeadKeepsEvict(s, c, g);
    case FetchDoes(f, step) =>
      FetchKeepsFlights(s, f, step);
      FetchKeepsDisk(s, f, step);
      FetchKeepsPins(s, f, step);
      FetchKeepsEvict(s, f, step);
    case MetaDoes(f, step) =>
      MetaKeepsFlights(s, f, step);
      MetaKeepsDisk(s, f, step);
      MetaKeepsPins(s, f, step);
      MetaKeepsEvict(s, f, step);
    case FinishDoes(f, step) =>
      FinishKeepsFlights(s, f, step);
      FinishKeepsDisk(s, f, step);
      FinishKeepsPins(s, f, step);
      FinishKeepsEvict(s, f, step);
    case PinDoes(f, step) =>
      PinKeepsFlights(s, f, step);
      PinKeepsDisk(s, f, step);
      PinKeepsPins(s, f, step);
      PinKeepsEvict(s, f, step);
    case JanitorDoes(step) => JanitorKeeps(s, step);
    case ScanDoes(step) =>
      ScanKeepsFlights(s, step);
      ScanKeepsDisk(s, step);
      ScanKeepsPins(s, step);
      ScanKeepsEvict(s, step);
    case OtherDoes(step) =>
      OtherKeepsDisk(s, step);
      OtherKeepsFlights(s, step);
    OtherKeepsPins(s, step);
    OtherKeepsEvict(s, step);
  }
}
