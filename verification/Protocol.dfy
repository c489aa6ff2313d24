/**
 * The single-flight, publish and evict protocol of src/cache.rs and src/proxy.rs
 * as one interleaving state machine. Every atomic action of every task is a
 * step; a run interleaves the steps of any number of requests, leaders, spawned
 * cleanups, the janitor and metadata writers in any order.
 */
module Protocol {
  import opened Basics
  import Packed

  type FlightId = nat
  type ClientId = nat
  type Inode = nat

  /** The two hash classes never share a key (module Identity). */
  datatype Class = Artifact | Metadata
  datatype Key = Key(kind: Class, id: nat)

  /** `InflightOutcome`; `Cached` carries the pin of the flight that published. */
  datatype Outcome = Cached | Response(reply: nat) | Failed(reason: nat)

  /** Program counter of the one agent of a flight: its leader, or the cleanup its drop guard spawned. */
  datatype Pc =
    | Fetching              // upstream request under way, no temp file yet
    | Writing(ino: Inode)   // <key>.part created, chunks being appended
    | Footered(ino: Inode)  // footer appended, file closed
    | Pinned(ino: Inode)    // publication pin inserted, rename pending
    | Published             // renamed; the leader still holds the pin
    | MetaWriting(temp: nat)  // unique metadata temp created
    | MetaReady(temp: nat)    // body and footer written, waiting for the eviction lock
    | MetaLocked(temp: nat)   // eviction lock held, rename pending
    | MetaRenamed             // metadata entry published, its scan not started
    | MetaScanning            // running its own eviction scan
    | Erred                   // fetch failed, <key>.part still to be removed
    | Resolving(o: Outcome)   // waiting for the outcome lock
    | Notifying               // outcome set, waiters not yet notified (no await: not cancellable)
    | Unregistering           // notified, waiting for the in-flight map lock
    | CleanTemp | CleanFail | CleanNotify | CleanUnregister  // spawned cleanup
    | Returned                // registration removed, guard disarmed

  /** Life of a publication pin. `Released(true)` found its own slot in the pin map. */
  datatype PinState = Unpinned | Live | Released(owned: bool)

  /** One `Inflight` with its agent. `entry` is the inode it published. */
  datatype Flight = Flight(
    key: Key, pc: Pc, outcome: Option<Outcome>, notifies: nat, pin: PinState,
    body: Bytes, meta: Bytes, entry: Option<Inode>)

  /** `wait_for_outcome` and what follows it; `rounds` counts the outcome checks that found nothing. */
  datatype Wait =
    | Polling(rounds: nat)              // top of the loop
    | Armed(seen: nat, rounds: nat)     // notification handle taken, outcome not yet read
    | Blocked(seen: nat, rounds: nat)   // outcome was empty, awaiting the handle
    | Got(o: Outcome)
    | Opened(ino: Inode)                // the published entry was opened
    | Missing                           // "artifact missing after inflight completion"

  datatype ClientPc =
    | FirstCheck | DiskCheck | SecondCheck   // double-checked lookup
    | Hit(ino: Inode)
    | Waiting(f: FlightId, w: Wait)

  datatype Client = Client(key: Key, pc: ClientPc)

  datatype Temp = Temp(owner: FlightId, ino: Inode)

  /**
   * Names to inodes, inodes to bytes; `published` remembers every inode ever renamed into place,
   * `garbled` the entries found at start-up whose metadata does not decode.
   */
  datatype Disk = Disk(
    bodies: map<Key, Inode>, parts: map<Key, Inode>, temps: map<nat, Temp>,
    inodes: map<Inode, Bytes>, published: set<Inode>, garbled: set<Inode>)

  datatype ScanPhase = Listing(mustSee: set<Key>) | Deciding | Removing(key: Key)

  /**
   * One `evict_files_to_bound`; `Ended` until its caller takes the result.
   * `tainted`: a pin slot or an unsent request has existed since it began.
   */
  datatype Scan =
    | NoScan
    | Ended(ok: bool)
    | Running(phase: ScanPhase, remaining: map<Key, nat>, total: nat, tainted: bool)

  datatype Janitor = Idle | Received | Draining | Scanning

  datatype Owner = ByJanitor | ByWriter(f: FlightId)

  /**
   * `slots` is the pin map, `sending` the pins removed from it whose request is not sent yet,
   * `sent` the number of scans begun when a request was sent, `queue` the capacity-one channel.
   * `exposed`, `unpaid`, `scanStarts`, `sent` and `tainted` are history: no guard reads them.
   */
  datatype State = State(
    capacity: nat, maxSize: nat,
    flights: map<FlightId, Flight>, registered: map<Key, FlightId>,
    available: nat, holders: set<FlightId>, others: nat,
    clients: map<ClientId, Client>,
    disk: Disk, nextTemp: nat, orphans: set<nat>,
    slots: map<Key, FlightId>, sending: set<FlightId>, sent: map<FlightId, nat>,
    queue: bool, janitor: Janitor, lock: Option<Owner>, scan: Scan,
    exposed: set<FlightId>, unpaid: bool, scanStarts: nat)

  /*** Steps ***/

  datatype ClientStep =
    | Arrive(key: Key) | CheckMap | CheckDisk | JoinLate | Busy
    | TakeHandle | CheckOutcome | Wake | Load | Leave

  datatype FetchStep =
    | CreateTemp(ino: Inode) | AppendChunk(chunk: Bytes) | AppendFooter(meta: Bytes)
    | Pin | Rename | FetchFails | NonOk(reply: nat) | RemoveTemp(ok: bool)

  datatype MetaStep =
    | MetaCreate(ino: Inode, temp: nat) | MetaWrite(body: Bytes, meta: Bytes) | MetaLock | MetaRename | MetaScan
    | MetaFails(reason: nat) | MetaReply(reply: nat)

  datatype FinishStep =
    | Resolve | Notify | Unregister | ReleasePermit | Cancel
    | DoCleanTemp(ok: bool) | DoCleanFail | DoCleanNotify | DoCleanUnregister

  datatype PinStep = Unpin | TrySend

  datatype JanitorStep = Recv | TakeLock | DrainOne | StartScan | Finish

  datatype ScanStep =
    | ListOne(key: Key) | FinishListing | Check(key: Key) | Remove(key: Key, ok: bool)
    | EndScan | FailScan

  datatype OtherStep = Acquire | Release | RemoveOrphan(temp: nat, ok: bool)

  datatype Action =
    | ClientDoes(c: ClientId, cs: ClientStep)
    | Leads(c: ClientId, g: FlightId)
    | FetchDoes(f: FlightId, fs: FetchStep)
    | MetaDoes(f: FlightId, ms: MetaStep)
    | FinishDoes(f: FlightId, ns: FinishStep)
    | PinDoes(f: FlightId, ps: PinStep)
    | JanitorDoes(js: JanitorStep)
    | ScanDoes(ss: ScanStep)
    | OtherDoes(os: OtherStep)

  /*** Vocabulary ***/

  /** The future that runs the fetch, with its drop guard armed. */
  predicate IsLeader(pc: Pc) {
    !pc.CleanTemp? && !pc.CleanFail? && !pc.CleanNotify? && !pc.CleanUnregister? && !pc.Returned?
  }

  /** A leader suspended at an await: everywhere but between setting the outcome and notifying. */
  predicate Cancellable(pc: Pc) {
    IsLeader(pc) && !pc.Notifying?
  }

  /** Some agent still has work to do for the flight. */
  predicate Active(pc: Pc) {
    !pc.Returned?
  }

  predicate WaitsOn(c: Client, f: FlightId) {
    c.pc.Waiting? && c.pc.f == f
  }

  /** Someone still owns an `Arc` of the flight. */
  ghost predicate FlightAlive(fl: Flight, f: FlightId, clients: map<ClientId, Client>) {
    Active(fl.pc) || exists c :: c in clients && WaitsOn(clients[c], f)
  }

  /** Some clone of the flight's publication pin is alive. */
  ghost predicate PinHeld(fl: Flight, f: FlightId, clients: map<ClientId, Client>) {
    fl.pc.Pinned? || fl.pc.Published? || (fl.outcome == Some(Cached) && FlightAlive(fl, f, clients))
  }

  /** `is_pinned`, after dropping dead weak references. */
  predicate IsPinned(slots: map<Key, FlightId>, flights: map<FlightId, Flight>, k: Key) {
    k in slots && slots[k] in flights && flights[slots[k]].pin.Live?
  }

  /** The footer parses and the metadata decodes. */
  predicate Readable(d: Disk, ino: Inode) {
    ino in d.inodes && Packed.Unpack(d.inodes[ino]).Ok? && ino !in d.garbled
  }

  /** `load` finds an entry. */
  predicate Loads(d: Disk, k: Key) {
    k in d.bodies && Readable(d, d.bodies[k])
  }

  function Size(d: Disk, k: Key): nat {
    if k in d.bodies && d.bodies[k] in d.inodes then |d.inodes[d.bodies[k]]| else 0
  }

  /** Sizes of all completed entries. */
  function Sizes(d: Disk): map<Key, nat> {
    map k | k in d.bodies :: Size(d, k)
  }

  ghost function Sum(m: map<Key, nat>): nat
    decreases m.Keys
  {
    if m == map[] then 0
    else
      var k :| k in m;
      m[k] + Sum(m - {k})
  }

  lemma {:induction false} SumRemove(m: map<Key, nat>, k: Key)
    requires k in m
    ensures Sum(m) == m[k] + Sum(m - {k})
    decreases m.Keys
  {
    var j :| j in m && Sum(m) == m[j] + Sum(m - {j});
    if j != k {
      SumRemove(m - {j}, k);
      assert m - {j} - {k} == m - {k} - {j};
      SumRemove(m - {k}, j);
    }
  }

  ghost function TotalSize(s: State): nat {
    Sum(Sizes(s.disk))
  }

  /*** Clients: lookup, wait, load (src/cache.rs:195-223, 454-465; src/proxy.rs:356-407) ***/

  ghost predicate ClientCan(s: State, c: ClientId, step: ClientStep) {
    if step.Arrive? then c !in s.clients
    else
      && c in s.clients
      && var cl := s.clients[c];
         match step
         case CheckMap => cl.pc.FirstCheck?
         case CheckDisk => cl.pc.DiskCheck?
         case JoinLate => cl.pc.SecondCheck? && cl.key in s.registered
         case Busy => cl.pc.SecondCheck? && cl.key !in s.registered && s.available == 0
         case TakeHandle => cl.pc.Waiting? && cl.pc.f in s.flights && cl.pc.w.Polling?
         case CheckOutcome => cl.pc.Waiting? && cl.pc.f in s.flights && cl.pc.w.Armed?
         case Wake =>
           cl.pc.Waiting? && cl.pc.f in s.flights && cl.pc.w.Blocked? && cl.pc.w.seen < s.flights[cl.pc.f].notifies
         case Load => cl.pc.Waiting? && cl.pc.w == Got(Cached)
         case _ => true
  }

  /** Where a client step leaves the client; `Busy` (503) and `Leave` end the request instead. */
  function ClientNext(s: State, cl: Client, step: ClientStep): ClientPc
    requires step.TakeHandle? || step.CheckOutcome? ==> cl.pc.Waiting? && cl.pc.f in s.flights
    requires step.CheckOutcome? ==> cl.pc.w.Armed?
    requires step.TakeHandle? ==> cl.pc.w.Polling?
    requires step.Wake? ==> cl.pc.Waiting? && cl.pc.w.Blocked?
    requires step.Load? ==> cl.pc.Waiting?
    requires step.JoinLate? ==> cl.key in s.registered
  {
    match step
    case CheckMap => if cl.key in s.registered then Waiting(s.registered[cl.key], Polling(0)) else DiskCheck
    case CheckDisk => if Loads(s.disk, cl.key) then Hit(s.disk.bodies[cl.key]) else SecondCheck
    case JoinLate => Waiting(s.registered[cl.key], Polling(0))
    case TakeHandle => cl.pc.(w := Armed(s.flights[cl.pc.f].notifies, cl.pc.w.rounds))
    case CheckOutcome =>
      var o := s.flights[cl.pc.f].outcome;
      cl.pc.(w := if o.Some? then Got(o.value) else Blocked(cl.pc.w.seen, cl.pc.w.rounds + 1))
    case Wake => cl.pc.(w := Polling(cl.pc.w.rounds))
    case Load => cl.pc.(w := if Loads(s.disk, cl.key) then Opened(s.disk.bodies[cl.key]) else Missing)
    case _ => cl.pc
  }

  ghost function ClientDo(s: State, c: ClientId, step: ClientStep): State
    requires ClientCan(s, c, step)
  {
    match step
    case Arrive(k) =>
      // metadata lookups take the map lock only once
      s.(clients := s.clients[c := Client(k, if k.kind.Artifact? then FirstCheck else SecondCheck)])
    case Busy => s.(clients := s.clients - {c})
    case Leave => s.(clients := s.clients - {c})
    case _ => s.(clients := s.clients[c := s.clients[c].(pc := ClientNext(s, s.clients[c], step))])
  }

  /** The second check found nothing and a permit was free (src/cache.rs:209-222, 226-236). */
  ghost predicate LeadCan(s: State, c: ClientId, g: FlightId) {
    && c in s.clients && s.clients[c].pc.SecondCheck?
    && s.clients[c].key !in s.registered && s.available > 0 && g !in s.flights
  }

  function NewFlight(k: Key): Flight {
    Flight(k, Fetching, None, 0, Unpinned, [], [], None)
  }

  /** An artifact request waits on the flight it leads; a metadata request is the leader. */
  ghost function LeadDo(s: State, c: ClientId, g: FlightId): State
    requires LeadCan(s, c, g)
  {
    var k := s.clients[c].key;
    s.(flights := s.flights[g := NewFlight(k)],
       registered := s.registered[k := g],
       available := s.available - 1, holders := s.holders + {g},
       clients := if k.kind.Artifact? then s.clients[c := Client(k, Waiting(g, Polling(0)))] else s.clients - {c})
  }

  /*** Artifact leaders (src/proxy.rs:409-507, src/cache.rs:278-295) ***/

  ghost predicate FetchCan(s: State, f: FlightId, step: FetchStep) {
    && f in s.flights
    && var fl := s.flights[f];
       && fl.key.kind.Artifact?
       && match step
          case CreateTemp(ino) =>
            fl.pc.Fetching? && (if fl.key in s.disk.parts then ino == s.disk.parts[fl.key] else ino !in s.disk.inodes)
          case AppendChunk(_) => fl.pc.Writing? && fl.pc.ino in s.disk.inodes
          case AppendFooter(meta) =>
            fl.pc.Writing? && fl.pc.ino in s.disk.inodes && |meta| <= Packed.MAX_META_LEN
          case Pin => fl.pc.Footered?
          case Rename => fl.pc.Pinned? && fl.key in s.disk.parts && s.disk.parts[fl.key] == fl.pc.ino
          case FetchFails => fl.pc.Fetching? || fl.pc.Writing? || fl.pc.Footered? || fl.pc.Pinned?
          case NonOk(_) => fl.pc.Fetching?
          case RemoveTemp(_) => fl.pc.Erred?
  }

  function FetchFlight(fl: Flight, step: FetchStep): Flight
    requires step.AppendFooter? ==> fl.pc.Writing?
    requires step.Pin? ==> fl.pc.Footered?
    requires step.Rename? ==> fl.pc.Pinned?
  {
    match step
    case CreateTemp(ino) => fl.(pc := Writing(ino), body := [])
    case AppendChunk(chunk) => fl.(body := fl.body + chunk)
    case AppendFooter(meta) => fl.(pc := Footered(fl.pc.ino), meta := meta)
    case Pin => fl.(pc := Pinned(fl.pc.ino), pin := Live)
    case Rename => fl.(pc := Published, entry := Some(fl.pc.ino))
    case FetchFails => fl.(pc := Erred)  // a failed rename drops the pin with the result
    case NonOk(r) => fl.(pc := Resolving(Response(r)))
    case RemoveTemp(_) => fl.(pc := Resolving(Failed(0)))
  }

  /** `File::create` truncates a stale `<key>.part` in place; `rename` moves the name only. */
  function FetchDisk(d: Disk, fl: Flight, step: FetchStep): Disk
    requires step.AppendChunk? ==> fl.pc.Writing? && fl.pc.ino in d.inodes
    requires step.AppendFooter? ==> fl.pc.Writing? && fl.pc.ino in d.inodes && |step.meta| <= Packed.MAX_META_LEN
    requires step.Rename? ==> fl.pc.Pinned?
  {
    match step
    case CreateTemp(ino) => d.(parts := d.parts[fl.key := ino], inodes := d.inodes[ino := []])
    case AppendChunk(chunk) => d.(inodes := d.inodes[fl.pc.ino := d.inodes[fl.pc.ino] + chunk])
    case AppendFooter(meta) =>
      d.(inodes := d.inodes[fl.pc.ino := d.inodes[fl.pc.ino] + meta + Packed.Be32(|meta|)])
    case Rename =>
      d.(bodies := d.bodies[fl.key := fl.pc.ino], parts := d.parts - {fl.key}, published := d.published + {fl.pc.ino})
    case RemoveTemp(ok) => if ok then d.(parts := d.parts - {fl.key}) else d
    case _ => d
  }

  function Taint(scan: Scan): Scan {
    if scan.Running? then scan.(tainted := true) else scan
  }

  /** A scan is past its pin check on the name and has not removed it yet. */
  predicate BeingRemoved(scan: Scan, k: Key) {
    scan.Running? && scan.phase == Removing(k)
  }

  /** The publications on a key whose pin is alive: a new pin takes their slot. */
  function Displaced(flights: map<FlightId, Flight>, k: Key): set<FlightId> {
    set g | g in flights && flights[g].key == k && flights[g].pin.Live? && flights[g].entry.Some?
  }

  ghost function FetchDo(s: State, f: FlightId, step: FetchStep): State
    requires FetchCan(s, f, step)
  {
    var fl := s.flights[f];
    s.(flights := s.flights[f := FetchFlight(fl, step)],
       disk := FetchDisk(s.disk, fl, step),
       slots := if step.Pin? then s.slots[fl.key := f] else s.slots,
       scan := if step.Pin? then Taint(s.scan) else s.scan,
       exposed :=
         if step.Pin? then s.exposed + Displaced(s.flights, fl.key)
         else if step.Rename? && BeingRemoved(s.scan, fl.key) then s.exposed + {f}
         else s.exposed)
  }

  /*** Metadata leaders (src/proxy.rs:218-292, src/cache.rs:246-276) ***/

  /** A metadata temp whose guard is armed. */
  predicate OwnsTemp(pc: Pc) {
    pc.MetaWriting? || pc.MetaReady? || pc.MetaLocked?
  }

  predicate OwnsLock(pc: Pc) {
    pc.MetaLocked? || pc.MetaRenamed? || pc.MetaScanning?
  }

  ghost predicate MetaCan(s: State, f: FlightId, step: MetaStep) {
    && f in s.flights
    && var fl := s.flights[f];
       && fl.key.kind.Metadata?
       && match step
          case MetaCreate(ino, n) => fl.pc.Fetching? && ino !in s.disk.inodes && n == s.nextTemp
          case MetaWrite(_, meta) =>
            fl.pc.MetaWriting? && fl.pc.temp in s.disk.temps && |meta| <= Packed.MAX_META_LEN
          case MetaLock => fl.pc.MetaReady? && s.lock.None?
          case MetaRename => fl.pc.MetaLocked? && fl.pc.temp in s.disk.temps
          case MetaScan => fl.pc.MetaRenamed?
          case MetaFails(_) => fl.pc.Fetching? || OwnsTemp(fl.pc) || (fl.pc.MetaScanning? && s.scan == Ended(false))
          case MetaReply(_) => fl.pc.Fetching? || (fl.pc.MetaScanning? && s.scan == Ended(true))
  }

  function MetaFlight(d: Disk, fl: Flight, step: MetaStep): Flight
    requires step.MetaWrite? ==> fl.pc.MetaWriting?
    requires step.MetaLock? ==> fl.pc.MetaReady?
    requires step.MetaRename? ==> fl.pc.MetaLocked? && fl.pc.temp in d.temps
  {
    match step
    case MetaCreate(ino, n) => fl.(pc := MetaWriting(n))
    case MetaWrite(body, meta) => fl.(pc := MetaReady(fl.pc.temp), body := body, meta := meta)
    case MetaLock => fl.(pc := MetaLocked(fl.pc.temp))
    case MetaRename => fl.(pc := MetaRenamed, entry := Some(d.temps[fl.pc.temp].ino))
    case MetaScan => fl.(pc := MetaScanning)
    case MetaFails(reason) => fl.(pc := Resolving(Failed(reason)))
    case MetaReply(r) => fl.(pc := Resolving(Response(r)))
  }

  function MetaDisk(d: Disk, f: FlightId, fl: Flight, step: MetaStep): Disk
    requires step.MetaWrite? ==>
      fl.pc.MetaWriting? && fl.pc.temp in d.temps && |step.meta| <= Packed.MAX_META_LEN
    requires step.MetaRename? ==> fl.pc.MetaLocked? && fl.pc.temp in d.temps
  {
    match step
    case MetaCreate(ino, n) => d.(temps := d.temps[n := Temp(f, ino)], inodes := d.inodes[ino := []])
    case MetaWrite(body, meta) =>
      d.(inodes := d.inodes[d.temps[fl.pc.temp].ino := Packed.Pack(body, meta)])
    case MetaRename =>
      var ino := d.temps[fl.pc.temp].ino;
      d.(bodies := d.bodies[fl.key := ino], temps := d.temps - {fl.pc.temp}, published := d.published + {ino})
    case _ => d
  }

  ghost function BeginScan(s: State): Scan {
    Running(Listing(s.disk.bodies.Keys), map[], 0, s.slots != map[] || s.sending != {})
  }

  /** Dropping a metadata leader's locals spawns its temp removal. */
  function DropTemp(orphans: set<nat>, pc: Pc): set<nat> {
    if OwnsTemp(pc) then orphans + {pc.temp} else orphans
  }

  ghost function MetaDo(s: State, f: FlightId, step: MetaStep): State
    requires MetaCan(s, f, step)
  {
    var fl := s.flights[f];
    var done := step.MetaFails? || step.MetaReply?;
    s.(flights := s.flights[f := MetaFlight(s.disk, fl, step)],
       disk := MetaDisk(s.disk, f, fl, step),
       nextTemp := if step.MetaCreate? then s.nextTemp + 1 else s.nextTemp,
       orphans := if step.MetaFails? then DropTemp(s.orphans, fl.pc) else s.orphans,
       lock := if step.MetaLock? then Some(ByWriter(f)) else if done && OwnsLock(fl.pc) then None else s.lock,
       scan := if step.MetaScan? then BeginScan(s) else if done && fl.pc.MetaScanning? then NoScan else s.scan,
       scanStarts := if step.MetaScan? then s.scanStarts + 1 else s.scanStarts,
       unpaid := s.unpaid && !step.MetaScan?)
  }

  /*** Completion and cancellation (src/proxy.rs:84-151, src/cache.rs:304-306, 480-486) ***/

  ghost predicate FinishCan(s: State, f: FlightId, step: FinishStep) {
    && f in s.flights
    && var pc := s.flights[f].pc;
       match step
       case Resolve => pc.Published? || pc.Resolving?
       case Notify => pc.Notifying?
       case Unregister => pc.Unregistering?
       case ReleasePermit => !IsLeader(pc) && f in s.holders
       case Cancel => Cancellable(pc)
       case DoCleanTemp(_) => pc.CleanTemp?
       case DoCleanFail => pc.CleanFail?
       case DoCleanNotify => pc.CleanNotify?
       case DoCleanUnregister => pc.CleanUnregister?
  }

  /** `Inflight::complete` up to the notification: the first writer wins. */
  function Complete(fl: Flight, o: Outcome, won: Pc, lost: Pc): Flight {
    if fl.outcome.Some? then fl.(pc := lost) else fl.(outcome := Some(o), pc := won)
  }

  function FinishFlight(fl: Flight, step: FinishStep): Flight
    requires step.Resolve? ==> fl.pc.Published? || fl.pc.Resolving?
  {
    match step
    case Resolve => Complete(fl, if fl.pc.Published? then Cached else fl.pc.o, Notifying, Unregistering)
    case Notify => fl.(pc := Unregistering, notifies := fl.notifies + 1)
    case Unregister => fl.(pc := Returned)
    case ReleasePermit => fl
    case Cancel => fl.(pc := if fl.key.kind.Artifact? then CleanTemp else CleanFail)
    case DoCleanTemp(_) => fl.(pc := CleanFail)
    case DoCleanFail => Complete(fl, Failed(1), CleanNotify, CleanUnregister)
    case DoCleanNotify => fl.(pc := CleanUnregister, notifies := fl.notifies + 1)
    case DoCleanUnregister => fl.(pc := Returned)
  }

  ghost function FinishDo(s: State, f: FlightId, step: FinishStep): State
    requires FinishCan(s, f, step)
  {
    var fl := s.flights[f];
    s.(flights := s.flights[f := FinishFlight(fl, step)],
       registered :=
         if step.Unregister? || step.DoCleanUnregister? then s.registered - {fl.key} else s.registered,
       holders := if step.ReleasePermit? then s.holders - {f} else s.holders,
       available := if step.ReleasePermit? then s.available + 1 else s.available,
       disk := if step.DoCleanTemp? && step.ok then s.disk.(parts := s.disk.parts - {fl.key}) else s.disk,
       orphans := if step.Cancel? then DropTemp(s.orphans, fl.pc) else s.orphans,
       lock := if step.Cancel? && OwnsLock(fl.pc) then None else s.lock,
       scan := if step.Cancel? && fl.pc.MetaScanning? then NoScan else s.scan,
       unpaid := s.unpaid
                 || (step.Cancel? && (fl.pc.MetaRenamed? || (fl.pc.MetaScanning? && s.scan != Ended(true)))))
  }

  /*** Pins (src/cache.rs:326-341, 412-427) ***/

  ghost predicate PinCan(s: State, f: FlightId, step: PinStep) {
    match step
    case Unpin => f in s.flights && s.flights[f].pin.Live? && !PinHeld(s.flights[f], f, s.clients)
    case TrySend => f in s.sending
  }

  ghost function PinDo(s: State, f: FlightId, step: PinStep): State
    requires PinCan(s, f, step)
  {
    if step.Unpin? then
      var fl := s.flights[f];
      var owned := fl.key in s.slots && s.slots[fl.key] == f;
      s.(flights := s.flights[f := fl.(pin := Released(owned))],
         slots := if owned then s.slots - {fl.key} else s.slots,
         sending := if owned then s.sending + {f} else s.sending)
    else
      s.(sending := s.sending - {f}, sent := s.sent[f := s.scanStarts], queue := true)
  }

  /*** Janitor (src/cache.rs:143-151) ***/

  ghost predicate JanitorCan(s: State, step: JanitorStep) {
    match step
    case Recv => s.janitor.Idle? && s.queue
    case TakeLock => s.janitor.Received? && s.lock.None?
    case DrainOne => s.janitor.Draining? && s.queue
    case StartScan => s.janitor.Draining? && !s.queue
    case Finish => s.janitor.Scanning? && s.scan.Ended?
  }

  ghost function JanitorDo(s: State, step: JanitorStep): State
    requires JanitorCan(s, step)
  {
    match step
    case Recv => s.(queue := false, janitor := Received)
    case TakeLock => s.(janitor := Draining, lock := Some(ByJanitor))
    case DrainOne => s.(queue := false)
    case StartScan =>
      s.(janitor := Scanning, scan := BeginScan(s), scanStarts := s.scanStarts + 1, unpaid := false)
    case Finish => s.(janitor := Idle, lock := None, scan := NoScan)
  }

  /*** Eviction scans, entry by entry (src/cache.rs:606-676) ***/

  ghost predicate ScanCan(s: State, step: ScanStep) {
    && s.scan.Running?
    && match step
       case ListOne(k) => s.scan.phase.Listing? && k in s.disk.bodies && k !in s.scan.remaining
       case FinishListing => s.scan.phase.Listing? && s.scan.phase.mustSee <= s.scan.remaining.Keys
       case Check(k) => s.scan.phase.Deciding? && s.scan.total > s.maxSize && k in s.scan.remaining
       case Remove(k, _) => s.scan.phase == Removing(k) && k in s.scan.remaining
       case EndScan => s.scan.phase.Deciding? && (s.scan.total <= s.maxSize || s.scan.remaining == map[])
       case FailScan => s.scan.phase.Listing?
  }

  ghost function ScanNext(s: State, step: ScanStep): Scan
    requires ScanCan(s, step)
  {
    match step
    case ListOne(k) => s.scan.(remaining := s.scan.remaining[k := Size(s.disk, k)])
    case FinishListing => s.scan.(phase := Deciding, total := Sum(s.scan.remaining))
    case Check(k) =>
      if IsPinned(s.slots, s.flights, k) then s.scan.(remaining := s.scan.remaining - {k})
      else s.scan.(phase := Removing(k))
    case Remove(k, ok) =>
      // success and NotFound both subtract; any other error leaves the total alone
      s.scan.(phase := Deciding, remaining := s.scan.remaining - {k},
              total := if ok || k !in s.disk.bodies then SaturatingSub(s.scan.total, s.scan.remaining[k]) else s.scan.total)
    case EndScan => Ended(true)
    case FailScan => Ended(false)
  }

  ghost function ScanDo(s: State, step: ScanStep): State
    requires ScanCan(s, step)
  {
    s.(scan := ScanNext(s, step),
       disk := if step.Remove? && step.ok then s.disk.(bodies := s.disk.bodies - {step.key}) else s.disk,
       unpaid := s.unpaid || step.FailScan? || (step.Remove? && !step.ok && step.key in s.disk.bodies))
  }

  /*** Artifact HEAD, search and audit permits; detached temp removals ***/

  ghost predicate OtherCan(s: State, step: OtherStep) {
    match step
    case Acquire => s.available > 0
    case Release => s.others > 0
    case RemoveOrphan(n, _) => n in s.orphans
  }

  ghost function OtherDo(s: State, step: OtherStep): State
    requires OtherCan(s, step)
  {
    match step
    case Acquire => s.(available := s.available - 1, others := s.others + 1)
    case Release => s.(available := s.available + 1, others := s.others - 1)
    case RemoveOrphan(n, ok) =>
      s.(orphans := s.orphans - {n}, disk := if ok then s.disk.(temps := s.disk.temps - {n}) else s.disk)
  }

  /*** Runs ***/

  ghost predicate Can(s: State, a: Action) {
    match a
    case ClientDoes(c, step) => ClientCan(s, c, step)
    case Leads(c, g) => LeadCan(s, c, g)
    case FetchDoes(f, step) => FetchCan(s, f, step)
    case MetaDoes(f, step) => MetaCan(s, f, step)
    case FinishDoes(f, step) => FinishCan(s, f, step)
    case PinDoes(f, step) => PinCan(s, f, step)
    case JanitorDoes(step) => JanitorCan(s, step)
    case ScanDoes(step) => ScanCan(s, step)
    case OtherDoes(step) => OtherCan(s, step)
  }

  ghost function Do(s: State, a: Action): State
    requires Can(s, a)
  {
    match a
    case ClientDoes(c, step) => ClientDo(s, c, step)
    case Leads(c, g) => LeadDo(s, c, g)
    case FetchDoes(f, step) => FetchDo(s, f, step)
    case MetaDoes(f, step) => MetaDo(s, f, step)
    case FinishDoes(f, step) => FinishDo(s, f, step)
    case PinDoes(f, step) => PinDo(s, f, step)
    case JanitorDoes(step) => JanitorDo(s, step)
    case ScanDoes(step) => ScanDo(s, step)
    case OtherDoes(step) => OtherDo(s, step)
  }

  /** A directory whose names never share an inode across classes. */
  ghost predicate CleanDisk(d: Disk) {
    && d.published == d.bodies.Values && d.garbled <= d.published && d.temps == map[]
    && (forall k :: k in d.bodies ==> d.bodies[k] in d.inodes)
    && (forall k :: k in d.parts ==> d.parts[k] in d.inodes && d.parts[k] !in d.published)
    && (forall k, j :: k in d.parts && j in d.parts && d.parts[k] == d.parts[j] ==> k == j)
  }

  /** `CacheStore::new` accepted its configuration and returned: any completed entries, any temps it failed to delete. */
  ghost predicate Init(s: State) {
    && s.maxSize > 0 && s.capacity > 0
    && s.flights == map[] && s.registered == map[] && s.clients == map[]
    && s.available == s.capacity && s.holders == {} && s.others == 0
    && CleanDisk(s.disk) && s.orphans == {}
    && s.slots == map[] && s.sending == {} && s.sent == map[]
    && !s.queue && s.janitor.Idle? && s.lock.None? && s.scan.NoScan?
    && s.exposed == {}
    && (s.unpaid || TotalSize(s) <= s.maxSize)
  }

  /** `states[i]` is what the first `i` actions lead to. */
  datatype Run = Run(states: seq<State>, actions: seq<Action>)

  ghost predicate IsPath(r: Run) {
    && |r.states| == |r.actions| + 1
    && forall i {:trigger r.actions[i]} :: 0 <= i < |r.actions| ==>
         Can(r.states[i], r.actions[i]) && r.states[i + 1] == Do(r.states[i], r.actions[i])
  }

  ghost predicate IsRun(r: Run) {
    IsPath(r) && Init(r.states[0])
  }
}
