/** What every step of the protocol keeps. */
module ProtocolInvariants {
  import opened Basics
  import opened Protocol
  import Packed

  /*** One flight: outcome set once, notified once, in the order resolve - notify - unregister ***/

  predicate BeforeOutcome(pc: Pc) {
    IsLeader(pc) && !pc.Notifying? && !pc.Unregistering?
  }

  predicate ArtifactPc(pc: Pc) {
    pc.Writing? || pc.Footered? || pc.Pinned? || pc.Published? || pc.Erred? || pc.CleanTemp?
  }

  predicate MetadataPc(pc: Pc) {
    OwnsTemp(pc) || OwnsLock(pc)
  }

  predicate FlightOk(fl: Flight) {
    && fl.notifies <= 1
    && (fl.notifies == 1 ==> fl.outcome.Some?)
    && (fl.outcome.Some? && fl.notifies == 0 <==> fl.pc.Notifying? || fl.pc.CleanNotify?)
    && (BeforeOutcome(fl.pc) ==> fl.outcome.None?)
    && (fl.pc.Unregistering? || fl.pc.CleanUnregister? || fl.pc.Returned? ==> fl.outcome.Some?)
    && (fl.outcome == Some(Cached) ==> fl.entry.Some? && fl.key.kind.Artifact?)
    && (ArtifactPc(fl.pc) ==> fl.key.kind.Artifact?)
    && (MetadataPc(fl.pc) ==> fl.key.kind.Metadata?)
    && (fl.pc.Pinned? || fl.pc.Published? ==> fl.pin.Live?)
    && (fl.pc.Published? ==> fl.entry.Some?)
    && (fl.pc.Pinned? ==> fl.entry.None?)
    && (fl.pc.Fetching? || fl.pc.Writing? || fl.pc.Footered? ==> fl.pin.Unpinned? && fl.entry.None?)
    && (OwnsTemp(fl.pc) ==> fl.entry.None?)
    && (fl.key.kind.Artifact? && fl.entry.Some? ==> !fl.pin.Unpinned?)
    && (fl.key.kind.Metadata? ==> fl.pin.Unpinned?)
    && (fl.pc.Resolving? ==> fl.pc.o != Cached)
    && |fl.meta| <= Packed.MAX_META_LEN
  }

  type Flights = map<FlightId, Flight>

  ghost predicate FlightsOk(flights: Flights) {
    forall f :: f in flights ==> FlightOk(flights[f])
  }

  /*** The in-flight map holds exactly the flights that still have an agent ***/

  ghost predicate RegistryOk(flights: Flights, registered: map<Key, FlightId>) {
    && (forall k :: k in registered ==>
          registered[k] in flights && flights[registered[k]].key == k && Active(flights[registered[k]].pc))
    && (forall f :: f in flights && Active(flights[f].pc) ==>
          flights[f].key in registered && registered[flights[f].key] == f)
  }

  ghost predicate HoldersOk(flights: Flights, holders: set<FlightId>) {
    && (forall f :: f in holders ==> f in flights)
    && (forall f :: f in flights && IsLeader(flights[f].pc) ==> f in holders)
  }

  ghost predicate PermitsOk(s: State) {
    s.available + |s.holders| + s.others == s.capacity
  }

  /*** Clients ***/

  predicate WaitOk(w: Wait, fl: Flight) {
    match w
    case Polling(r) => r == 0 || (r == 1 && fl.notifies == 1)
    case Armed(seen, r) => seen <= fl.notifies && (r == 0 || (r == 1 && fl.notifies == 1))
    case Blocked(seen, r) => seen == 0 && r == 1
    case Got(o) => fl.outcome == Some(o)
    case Opened(_) => fl.outcome == Some(Cached)
    case Missing => fl.outcome == Some(Cached)
  }

  ghost predicate ClientOk(cl: Client, flights: Flights) {
    cl.pc.Waiting? ==> cl.pc.f in flights && flights[cl.pc.f].key == cl.key && WaitOk(cl.pc.w, flights[cl.pc.f])
  }

  ghost predicate ClientsOk(clients: map<ClientId, Client>, flights: Flights) {
    forall c :: c in clients ==> ClientOk(clients[c], flights)
  }

  /*** Disk: temp names never share an inode with a published one ***/

  ghost predicate DiskOk(d: Disk) {
    && (forall k :: k in d.bodies ==> d.bodies[k] in d.published)
    && (forall i :: i in d.published ==> i in d.inodes)
    && d.garbled <= d.published
    && (forall k :: k in d.parts ==> d.parts[k] in d.inodes && d.parts[k] !in d.published)
    && (forall n :: n in d.temps ==> d.temps[n].ino in d.inodes && d.temps[n].ino !in d.published)
    && (forall k, j :: k in d.parts && j in d.parts && d.parts[k] == d.parts[j] ==> k == j)
    && (forall n, m :: n in d.temps && m in d.temps && d.temps[n].ino == d.temps[m].ino ==> n == m)
    && (forall k, n :: k in d.parts && n in d.temps ==> d.parts[k] != d.temps[n].ino)
  }

  /** A leader writes only the temp file of its own key or counter. */
  predicate TempOk(fl: Flight, f: FlightId, d: Disk, orphans: set<nat>) {
    && (fl.pc.Writing? || fl.pc.Footered? || fl.pc.Pinned? ==>
          fl.key in d.parts && d.parts[fl.key] == fl.pc.ino)
    && (OwnsTemp(fl.pc) ==> fl.pc.temp in d.temps && d.temps[fl.pc.temp].owner == f && fl.pc.temp !in orphans)
  }

  ghost predicate TempsOk(flights: Flights, d: Disk, orphans: set<nat>) {
    forall f :: f in flights ==> TempOk(flights[f], f, d, orphans)
  }

  ghost predicate CounterOk(d: Disk, orphans: set<nat>, nextTemp: nat) {
    && (forall n :: n in d.temps ==> n < nextTemp)
    && (forall n :: n in orphans ==> n < nextTemp)
  }

  /** The bytes a flight has written, and the bytes of what it published. */
  predicate ContentOk(fl: Flight, d: Disk) {
    && |fl.meta| <= Packed.MAX_META_LEN
    && (fl.pc.Writing? ==> fl.pc.ino in d.inodes && d.inodes[fl.pc.ino] == fl.body)
    && (fl.pc.Footered? || fl.pc.Pinned? ==>
          fl.pc.ino in d.inodes && d.inodes[fl.pc.ino] == Packed.Pack(fl.body, fl.meta))
    && (fl.pc.MetaReady? || fl.pc.MetaLocked? ==>
          && fl.pc.temp in d.temps && d.temps[fl.pc.temp].ino in d.inodes
          && d.inodes[d.temps[fl.pc.temp].ino] == Packed.Pack(fl.body, fl.meta))
    && (fl.entry.Some? ==>
          && fl.entry.value in d.published && fl.entry.value in d.inodes && fl.entry.value !in d.garbled
          && d.inodes[fl.entry.value] == Packed.Pack(fl.body, fl.meta))
  }

  ghost predicate ContentsOk(flights: Flights, d: Disk) {
    forall f :: f in flights ==> ContentOk(flights[f], d)
  }

  /*** Pins ***/

  ghost predicate SlotsOk(flights: Flights, slots: map<Key, FlightId>) {
    && (forall k :: k in slots ==>
          slots[k] in flights && flights[slots[k]].key == k && flights[slots[k]].pin.Live?)
    && (forall f :: f in flights && (flights[f].pc.Pinned? || flights[f].pc.Published?) ==>
          flights[f].key in slots && slots[flights[f].key] == f)
  }

  ghost predicate ReleasedOk(flights: Flights, clients: map<ClientId, Client>) {
    forall f :: f in flights && flights[f].pin.Released? ==> !PinHeld(flights[f], f, clients)
  }

  /** A pin that owned its slot has its request on the way or sent. */
  ghost predicate RequestsOk(flights: Flights, sending: set<FlightId>, sent: map<FlightId, nat>) {
    && (forall f :: f in sending ==> f in flights && flights[f].pin == Released(true))
    && (forall f :: f in sent ==> f in flights)
    && (forall f :: f in flights && flights[f].pin == Released(true) ==> f in sending || f in sent)
  }

  /** A sent request stays visible until a scan begins after it. */
  ghost predicate SentOk(sent: map<FlightId, nat>, queue: bool, janitor: Janitor, scanStarts: nat) {
    forall f :: f in sent ==>
      sent[f] <= scanStarts && (queue || janitor.Received? || janitor.Draining? || sent[f] < scanStarts)
  }

  /*** Eviction lock and scans ***/

  ghost predicate LockOk(flights: Flights, lock: Option<Owner>, janitor: Janitor, scan: Scan) {
    && (lock == Some(ByJanitor) <==> janitor.Draining? || janitor.Scanning?)
    && (lock.Some? && lock.value.ByWriter? ==> lock.value.f in flights && OwnsLock(flights[lock.value.f].pc))
    && (forall f :: f in flights && OwnsLock(flights[f].pc) ==> lock == Some(ByWriter(f)))
    && (!scan.NoScan? <==>
          || janitor.Scanning?
          || (lock.Some? && lock.value.ByWriter? && lock.value.f in flights && flights[lock.value.f].pc.MetaScanning?))
  }

  /** Scans are serialised, so what a scan has listed and not processed is still on disk. */
  ghost predicate ScanOk(scan: Scan, bodies: map<Key, Inode>) {
    scan.Running? ==>
      && (forall k :: k in scan.remaining ==> k in bodies)
      && (scan.phase.Removing? ==> scan.phase.key in scan.remaining)
      && (scan.phase.Listing? ==> forall k :: k in scan.phase.mustSee ==> k in bodies)
  }

  /*** Publication pins protect what is not exposed ***/

  predicate PinProtects(fl: Flight, f: FlightId, slots: map<Key, FlightId>, bodies: map<Key, Inode>,
                        scan: Scan, exposed: set<FlightId>)
  {
    fl.pin.Live? && fl.entry.Some? && f !in exposed ==>
      && fl.key in slots && slots[fl.key] == f
      && fl.key in bodies && bodies[fl.key] == fl.entry.value
      && !BeingRemoved(scan, fl.key)
  }

  ghost predicate PinsProtect(flights: Flights, slots: map<Key, FlightId>, bodies: map<Key, Inode>,
                              scan: Scan, exposed: set<FlightId>)
  {
    forall f :: f in flights ==> PinProtects(flights[f], f, slots, bodies, scan, exposed)
  }

  ghost predicate LoadOk(cl: Client, flights: Flights, exposed: set<FlightId>) {
    cl.pc.Waiting? && cl.pc.f in flights && cl.pc.f !in exposed ==>
      && !cl.pc.w.Missing?
      && (cl.pc.w.Opened? ==> flights[cl.pc.f].entry == Some(cl.pc.w.ino))
  }

  ghost predicate LoadsOk(clients: map<ClientId, Client>, flights: Flights, exposed: set<FlightId>) {
    forall c :: c in clients ==> LoadOk(clients[c], flights, exposed)
  }

  /*** The size bound ***/

  /** Something other than the running scan will make another scan happen. */
  ghost predicate Carried(s: State) {
    s.slots != map[] || s.sending != {} || s.queue || s.janitor.Received?
  }

  ghost predicate AboutToScan(s: State) {
    || s.janitor.Draining?
    || (s.lock.Some? && s.lock.value.ByWriter? && s.lock.value.f in s.flights
        && s.flights[s.lock.value.f].pc.MetaRenamed?)
  }

  /** An undisturbed scan works on the exact sizes of what is on disk. */
  ghost predicate ExactScan(d: Disk, scan: Scan, unpaid: bool) {
    scan.Running? &&
    if scan.phase.Listing? then
      && scan.phase.mustSee == d.bodies.Keys
      && (forall k :: k in scan.remaining ==> k in d.bodies && scan.remaining[k] == Size(d, k))
    else
      unpaid || (scan.remaining == Sizes(d) && scan.total == Sum(scan.remaining))
  }

  ghost predicate BoundOk(s: State) {
    if s.scan.Running? then
      if s.scan.tainted then Carried(s)
      else s.slots == map[] && s.sending == {} && ExactScan(s.disk, s.scan, s.unpaid)
    else s.unpaid || Carried(s) || AboutToScan(s) || TotalSize(s) <= s.maxSize
  }

  /*** All together ***/

  ghost predicate InvFlights(s: State) {
    && FlightsOk(s.flights) && RegistryOk(s.flights, s.registered)
    && HoldersOk(s.flights, s.holders) && PermitsOk(s)
    && ClientsOk(s.clients, s.flights) && LoadsOk(s.clients, s.flights, s.exposed)
  }

  ghost predicate InvDisk(s: State) {
    && DiskOk(s.disk) && TempsOk(s.flights, s.disk, s.orphans) && CounterOk(s.disk, s.orphans, s.nextTemp)
    && ContentsOk(s.flights, s.disk)
  }

  ghost predicate InvPins(s: State) {
    && SlotsOk(s.flights, s.slots) && ReleasedOk(s.flights, s.clients)
    && RequestsOk(s.flights, s.sending, s.sent) && SentOk(s.sent, s.queue, s.janitor, s.scanStarts)
    && PinsProtect(s.flights, s.slots, s.disk.bodies, s.scan, s.exposed)
  }

  ghost predicate InvEvict(s: State) {
    LockOk(s.flights, s.lock, s.janitor, s.scan) && ScanOk(s.scan, s.disk.bodies) && BoundOk(s)
  }

  ghost predicate Inv(s: State) {
    InvFlights(s) && InvDisk(s) && InvPins(s) && InvEvict(s)
  }

  lemma InitInv(s: State)
    requires Init(s)
    ensures Inv(s)
  {
  }
}
