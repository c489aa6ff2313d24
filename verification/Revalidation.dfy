/**
 * Cached metadata against direct fetching: src/proxy.rs:202-354 with src/cache.rs:177-193 and
 * 246-276, as a state machine over leaders, joiners, the store and an upstream that changes.
 */
module Revalidation {
  import opened Basics
  import opened Headers
  import opened Identity
  import P = Packed
  import S = StoredEntries

  const OK_STATUS: nat := 200
  const NOT_MODIFIED: nat := 304

  /** What the upstream currently has under a URL. */
  datatype Answer = Answer(status: nat, headers: seq<Header>, body: Bytes)

  /**
   * What the code relies on: the hash, the metadata codec, the rewriters, when the upstream
   * answers a conditional request with 304, and every answer it ever has under a URL.
   */
  datatype World = World(
    hash: Bytes -> string,
    codec: S.Codec,
    rewriter: (Rewrite, Bytes) -> Option<Bytes>,
    matches: (Bytes, Option<string>, Option<string>, Answer) -> bool,
    history: Bytes -> iset<Answer>)

  datatype Outcome = Response(meta: Meta, body: Bytes) | Failed

  /** Where a leader is: to load, to fetch, to store, to finish, done. */
  datatype Pc = Leading | Loaded | Storing | Ready | Done

  /** `fetched` records the answer that was current when the leader's request was answered. */
  datatype Flight = Flight(url: Bytes, rewrite: Rewrite, pc: Pc, entry: Option<(Meta, Bytes)>,
                           fetched: Option<Answer>, result: Option<(Meta, Bytes)>, outcome: Option<Outcome>)

  datatype Client = Client(url: Bytes, rewrite: Rewrite, flight: nat, served: Option<Outcome>)

  datatype State = State(
    current: Bytes -> Answer,
    store: map<string, Bytes>,
    registered: map<string, nat>,
    flights: map<nat, Flight>,
    clients: map<nat, Client>)

  datatype Action =
    | Change(current: Bytes -> Answer)
    | Evict(key: string)
    | PutArtifact(upstream: Bytes, file: Bytes)
    | Restart
    | Ask(c: nat, url: Bytes, rewrite: Rewrite, next: nat)
    | Serve(c: nat)
    | Leader(f: nat, step: LeaderStep)

  /** `Unasked`: a 304 answered to a request that sent no validators, with what came along. */
  datatype LeaderStep = Load | Revalidate | Fetch | Unasked(a: Answer) | Store | Finish | Fail | Unregister

  /*** The steps of a leader ***/

  function KeyOf(w: World, url: Bytes, rewrite: Rewrite): string {
    w.hash(KeyInput(Metadata(url, rewrite)))
  }

  function Etag(a: Answer): Option<string> {
    FirstText(a.headers, ETAG)
  }

  function LastModified(a: Answer): Option<string> {
    FirstText(a.headers, LAST_MODIFIED)
  }

  /** The body sent for an upstream body, unless rewriting or the size limit rejects it. */
  function Rewritten(w: World, rewrite: Rewrite, body: Bytes): Option<Bytes> {
    var r := if rewrite.Raw? then Some(body) else w.rewriter(rewrite, body);
    if r.Some? && |r.value| > MAX_METADATA_BODY_LEN then None else r
  }

  function MetaFor(rewrite: Rewrite, a: Answer, body: Bytes): Meta {
    BytesMeta(a.status, a.headers, |body|, rewrite.Raw?)
  }

  predicate HasValidator(meta: Meta) {
    meta.etag.Some? || meta.lastModified.Some?
  }

  /** `load`, and the entry it yields if it is small enough. */
  function Usable(w: World, store: map<string, Bytes>, key: string): Option<(Meta, Bytes)> {
    if key !in store then None
    else
      match S.Read(store[key], w.codec)
      case Err(_) => None
      case Ok((meta, bodyLen)) =>
        if bodyLen > MAX_METADATA_BODY_LEN then None
        else Some((meta, P.Unpack(store[key]).value.body))
  }

  /** The leader's request carries no validators. */
  predicate Unconditional(fl: Flight) {
    fl.entry.None? || !HasValidator(fl.entry.value.0)
  }

  ghost predicate LeaderCan(w: World, s: State, f: nat, step: LeaderStep) {
    && f in s.flights
    && var fl := s.flights[f];
    match step
    case Load => fl.pc.Leading?
    case Revalidate =>
      && fl.pc.Loaded? && fl.entry.Some? && HasValidator(fl.entry.value.0)
      && w.matches(fl.url, fl.entry.value.0.etag, fl.entry.value.0.lastModified, s.current(fl.url))
    case Fetch =>
      && fl.pc.Loaded? && Rewritten(w, fl.rewrite, s.current(fl.url).body).Some?
      && (fl.entry.Some? ==> s.current(fl.url).status != NOT_MODIFIED)
    case Unasked(a) =>
      && fl.pc.Loaded? && Unconditional(fl) && a.status == NOT_MODIFIED && LowerNames(a.headers)
      && Rewritten(w, fl.rewrite, a.body).Some?
    case Store => fl.pc.Storing? && fl.result.Some?
    case Finish => fl.pc.Ready? && fl.result.Some?
    case Fail => !fl.pc.Done?
    case Unregister => fl.pc.Done?
  }

  /** A 200 with a validator is stored before it is handed out; anything else is handed out at once. */
  function AfterFetch(w: World, fl: Flight, a: Answer): Flight
    requires Rewritten(w, fl.rewrite, a.body).Some?
  {
    var body := Rewritten(w, fl.rewrite, a.body).value;
    var meta := MetaFor(fl.rewrite, a, body);
    fl.(pc := if a.status == OK_STATUS && HasValidator(meta) then Storing else Ready,
        fetched := Some(a), result := Some((meta, body)))
  }

  /** A 304 is taken as a confirmation if there is an entry, and passed on like any other answer if there is none. */
  function AfterUnasked(w: World, fl: Flight, a: Answer): Flight
    requires Rewritten(w, fl.rewrite, a.body).Some?
  {
    var body := Rewritten(w, fl.rewrite, a.body).value;
    fl.(pc := Ready, result := if fl.entry.Some? then fl.entry else Some((MetaFor(fl.rewrite, a, body), body)))
  }

  /** The file of a result, if its metadata is small enough. */
  function FileOf(w: World, fl: Flight): Result<Bytes, S.Error>
    requires fl.result.Some?
  {
    S.Written(fl.result.value.1, fl.result.value.0, w.codec)
  }

  function LeaderFlight(w: World, s: State, f: nat, step: LeaderStep): Flight
    requires LeaderCan(w, s, f, step)
  {
    var fl := s.flights[f];
    match step
    case Load => fl.(pc := Loaded, entry := Usable(w, s.store, KeyOf(w, fl.url, fl.rewrite)))
    case Revalidate => fl.(pc := Ready, fetched := Some(s.current(fl.url)), result := fl.entry)
    case Fetch => AfterFetch(w, fl, s.current(fl.url))
    case Unasked(a) => AfterUnasked(w, fl, a)
    case Store => if FileOf(w, fl).Ok? then fl.(pc := Ready) else fl.(pc := Done, outcome := Some(Failed))
    case Finish => fl.(pc := Done, outcome := Some(Response(fl.result.value.0, fl.result.value.1)))
    case Fail => fl.(pc := Done, outcome := Some(Failed))
    case Unregister => fl
  }

  function LeaderStore(w: World, s: State, f: nat, step: LeaderStep): map<string, Bytes>
    requires LeaderCan(w, s, f, step)
  {
    var fl := s.flights[f];
    if step.Store? && FileOf(w, fl).Ok? then s.store[KeyOf(w, fl.url, fl.rewrite) := FileOf(w, fl).value] else s.store
  }

  /*** The whole machine ***/

  ghost predicate Can(w: World, s: State, a: Action) {
    match a
    case Change(_) => true
    case Evict(_) => true
    case PutArtifact(_, _) => true
    case Restart => true
    case Ask(c, url, rewrite, next) =>
      c !in s.clients && next !in s.flights && 0 !in url
    case Serve(c) =>
      && c in s.clients && s.clients[c].flight in s.flights && s.flights[s.clients[c].flight].outcome.Some?
    case Leader(f, step) => LeaderCan(w, s, f, step)
  }

  /** `lookup_or_start_metadata`: join the registered flight, or register a new one. */
  function AskNext(w: World, s: State, c: nat, url: Bytes, rewrite: Rewrite, next: nat): State {
    var key := KeyOf(w, url, rewrite);
    if key in s.registered then
      s.(clients := s.clients[c := Client(url, rewrite, s.registered[key], None)])
    else
      s.(clients := s.clients[c := Client(url, rewrite, next, None)],
         registered := s.registered[key := next],
         flights := s.flights[next := Flight(url, rewrite, Leading, None, None, None, None)])
  }

  function Next(w: World, s: State, a: Action): State
    requires Can(w, s, a)
  {
    match a
    case Change(current) => s.(current := current)
    case Evict(key) => s.(store := s.store - {key})
    case PutArtifact(upstream, file) => s.(store := s.store[w.hash(KeyInput(Artifact(upstream))) := file])
    case Restart => s.(registered := map[], flights := map[], clients := map[])
    case Ask(c, url, rewrite, next) => AskNext(w, s, c, url, rewrite, next)
    case Serve(c) =>
      s.(clients := s.clients[c := s.clients[c].(served := s.flights[s.clients[c].flight].outcome)])
    case Leader(f, step) =>
      var fl := s.flights[f];
      s.(flights := s.flights[f := LeaderFlight(w, s, f, step)],
         store := LeaderStore(w, s, f, step),
         registered := if step.Unregister? then s.registered - {KeyOf(w, fl.url, fl.rewrite)} else s.registered)
  }

  datatype Run = Run(states: seq<State>, actions: seq<Action>)

  ghost predicate CurrentOk(w: World, current: Bytes -> Answer) {
    forall url: Bytes :: current(url) in w.history(url)
  }

  /** A run that starts with nothing registered; the upstream only ever has answers of its history. */
  ghost predicate IsRun(w: World, r: Run) {
    && |r.states| == |r.actions| + 1
    && StoreOk(w, r.states[0].store)
    && r.states[0].registered == map[] && r.states[0].flights == map[] && r.states[0].clients == map[]
    && (forall i {:trigger r.states[i]} :: 0 <= i < |r.states| ==> CurrentOk(w, r.states[i].current))
    && (forall i {:trigger r.actions[i]} :: 0 <= i < |r.actions| ==>
          Can(w, r.states[i], r.actions[i]) && r.states[i + 1] == Next(w, r.states[i], r.actions[i]))
  }

  /*** Hypotheses ***/

  ghost predicate CollisionFree(hash: Bytes -> string) {
    forall a: Bytes, b: Bytes :: hash(a) == hash(b) ==> a == b
  }

  /**
   * A matching validator means the same body (sections 13.1.2, 13.1.3 and 15.4.5 of RFC 9110):
   * the upstream answers 304 to the validators of an earlier 200 only while it has that body.
   */
  ghost predicate ValidatorsSound(w: World) {
    forall url: Bytes, a, b ::
      (a in w.history(url) && b in w.history(url) && a.status == OK_STATUS
       && w.matches(url, Etag(a), LastModified(a), b)) ==> b.status == OK_STATUS && b.body == a.body
  }

  /** Status codes and header names are what the HTTP library delivers. */
  ghost predicate WellFormed(a: Answer) {
    100 <= a.status <= 999 && LowerNames(a.headers)
  }

  ghost predicate Honest(w: World) {
    && CollisionFree(w.hash) && S.Faithful(w.codec) && ValidatorsSound(w)
    && (forall url: Bytes, a :: a in w.history(url) ==> WellFormed(a))
  }

  /*** Invariant ***/

  /** The metadata and body made from one answer. */
  ghost predicate MadeFrom(w: World, rewrite: Rewrite, a: Answer, made: (Meta, Bytes)) {
    Rewritten(w, rewrite, a.body) == Some(made.1) && made.0 == MetaFor(rewrite, a, made.1)
  }

  /** Made from some 200 answer with a validator that the upstream had under this very URL. */
  ghost predicate Genuine(w: World, url: Bytes, rewrite: Rewrite, made: (Meta, Bytes)) {
    HasValidator(made.0) && exists a :: a in w.history(url) && a.status == OK_STATUS && MadeFrom(w, rewrite, a, made)
  }

  /** Whatever can be loaded for a request was made for that request. */
  ghost predicate StoreOk(w: World, store: map<string, Bytes>) {
    forall url: Bytes, rewrite: Rewrite ::
      (0 !in url && Usable(w, store, KeyOf(w, url, rewrite)).Some?) ==>
        Genuine(w, url, rewrite, Usable(w, store, KeyOf(w, url, rewrite)).value)
  }

  /** What is handed out as a 200 is the rewrite of the answer that was current, with its length. */
  ghost predicate Direct(w: World, rewrite: Rewrite, fetched: Option<Answer>, meta: Meta, body: Bytes) {
    && SizedBy(meta.headers, |body|)
    && 100 <= meta.status <= 999
    && (meta.status == OK_STATUS ==>
          && fetched.Some?
          && fetched.value.status == OK_STATUS && Rewritten(w, rewrite, fetched.value.body) == Some(body))
  }

  ghost predicate FlightOk(w: World, fl: Flight) {
    && 0 !in fl.url
    && (fl.entry.Some? ==> Genuine(w, fl.url, fl.rewrite, fl.entry.value))
    && (fl.fetched.Some? ==> fl.fetched.value in w.history(fl.url))
    && (fl.result.Some? ==> Direct(w, fl.rewrite, fl.fetched, fl.result.value.0, fl.result.value.1))
    && (fl.pc.Storing? ==> fl.result.Some? && Genuine(w, fl.url, fl.rewrite, fl.result.value))
    && (fl.outcome.Some? && fl.outcome.value.Response? ==>
          Direct(w, fl.rewrite, fl.fetched, fl.outcome.value.meta, fl.outcome.value.body))
    && (fl.pc.Leading? || fl.pc.Loaded? ==> fl.fetched.None?)
    && (fl.outcome.Some? ==> fl.pc.Done?)
  }

  ghost predicate ClientOk(s: State, c: Client) {
    && c.flight in s.flights
    && s.flights[c.flight].url == c.url && s.flights[c.flight].rewrite == c.rewrite
    && (c.served.Some? ==> s.flights[c.flight].outcome == c.served)
  }

  ghost predicate RegistryOk(w: World, s: State) {
    forall key :: key in s.registered ==>
      && s.registered[key] in s.flights
      && KeyOf(w, s.flights[s.registered[key]].url, s.flights[s.registered[key]].rewrite) == key
  }

  ghost predicate FlightsOk(w: World, s: State) {
    forall f :: f in s.flights ==> FlightOk(w, s.flights[f])
  }

  ghost predicate ClientsOk(s: State) {
    forall c :: c in s.clients ==> ClientOk(s, s.clients[c])
  }

  ghost predicate Inv(w: World, s: State) {
    StoreOk(w, s.store) && FlightsOk(w, s) && ClientsOk(s) && RegistryOk(w, s)
  }

  /*** Preservation ***/

  lemma MadeIsDirect(w: World, url: Bytes, rewrite: Rewrite, a: Answer, made: (Meta, Bytes))
    requires Honest(w) && a in w.history(url) && MadeFrom(w, rewrite, a, made)
    ensures Direct(w, rewrite, Some(a), made.0, made.1)
  {
    assert WellFormed(a);
    BytesAreSized(a.status, a.headers, |made.1|, rewrite.Raw?);
  }

  /** A stored body that the upstream confirms is the rewrite of what the upstream has now. */
  lemma ConfirmedIsDirect(w: World, url: Bytes, rewrite: Rewrite, made: (Meta, Bytes), now: Answer)
    requires Honest(w) && Genuine(w, url, rewrite, made) && now in w.history(url)
    requires w.matches(url, made.0.etag, made.0.lastModified, now)
    ensures Direct(w, rewrite, Some(now), made.0, made.1)
  {
    var a :| a in w.history(url) && a.status == OK_STATUS && MadeFrom(w, rewrite, a, made);
    MadeIsDirect(w, url, rewrite, a, made);
    assert made.0.etag == Etag(a) && made.0.lastModified == LastModified(a);
    assert now.body == a.body;
  }

  lemma LoadedIsGenuine(w: World, s: State, url: Bytes, rewrite: Rewrite)
    requires StoreOk(w, s.store) && 0 !in url && Usable(w, s.store, KeyOf(w, url, rewrite)).Some?
    ensures Genuine(w, url, rewrite, Usable(w, s.store, KeyOf(w, url, rewrite)).value)
  {
  }

  lemma FetchOk(w: World, fl: Flight, a: Answer)
    requires Honest(w) && FlightOk(w, fl) && fl.pc.Loaded? && a in w.history(fl.url)
    requires Rewritten(w, fl.rewrite, a.body).Some?
    ensures FlightOk(w, AfterFetch(w, fl, a))
  {
    var body := Rewritten(w, fl.rewrite, a.body).value;
    var made := (MetaFor(fl.rewrite, a, body), body);
    assert MadeFrom(w, fl.rewrite, a, made);
    MadeIsDirect(w, fl.url, fl.rewrite, a, made);
  }

  /** Without an entry nothing is confirmed; with one the request had validators. */
  lemma UnaskedOk(w: World, fl: Flight, a: Answer)
    requires FlightOk(w, fl) && fl.pc.Loaded? && Unconditional(fl)
    requires a.status == NOT_MODIFIED && LowerNames(a.headers) && Rewritten(w, fl.rewrite, a.body).Some?
    ensures FlightOk(w, AfterUnasked(w, fl, a))
  {
    BytesAreSized(a.status, a.headers, |Rewritten(w, fl.rewrite, a.body).value|, fl.rewrite.Raw?);
  }

  lemma LeaderFlightOk(w: World, s: State, f: nat, step: LeaderStep)
    requires Honest(w) && Inv(w, s) && CurrentOk(w, s.current) && LeaderCan(w, s, f, step)
    ensures FlightOk(w, LeaderFlight(w, s, f, step))
  {
    var fl := s.flights[f];
    assert FlightOk(w, fl);
    match step
    case Load =>
      if Usable(w, s.store, KeyOf(w, fl.url, fl.rewrite)).Some? {
        LoadedIsGenuine(w, s, fl.url, fl.rewrite);
      }
    case Revalidate => ConfirmedIsDirect(w, fl.url, fl.rewrite, fl.entry.value, s.current(fl.url));
    case Fetch => FetchOk(w, fl, s.current(fl.url));
    case Unasked(a) => UnaskedOk(w, fl, a);
    case Store =>
    case Finish =>
    case Fail =>
    case Unregister =>
  }

  /** A file published for one request is loaded for that request only. */
  lemma PublishKeepsStore(w: World, store: map<string, Bytes>, fl: Flight)
    requires Honest(w) && StoreOk(w, store) && 0 !in fl.url
    requires fl.result.Some? && Genuine(w, fl.url, fl.rewrite, fl.result.value) && FileOf(w, fl).Ok?
    ensures StoreOk(w, store[KeyOf(w, fl.url, fl.rewrite) := FileOf(w, fl).value])
  {
    var key, file := KeyOf(w, fl.url, fl.rewrite), FileOf(w, fl).value;
    var (meta, body) := fl.result.value;
    S.WrittenReadsBack(body, meta, w.codec);
    forall url: Bytes, rewrite: Rewrite | 0 !in url && Usable(w, store[key := file], KeyOf(w, url, rewrite)).Some?
      ensures Genuine(w, url, rewrite, Usable(w, store[key := file], KeyOf(w, url, rewrite)).value)
    {
      KeyIsExact(Metadata(url, rewrite), Metadata(fl.url, fl.rewrite));
      if KeyOf(w, url, rewrite) != key {
        assert Usable(w, store[key := file], KeyOf(w, url, rewrite)) == Usable(w, store, KeyOf(w, url, rewrite));
      }
    }
  }

  lemma ArtifactKeepsStore(w: World, store: map<string, Bytes>, upstream: Bytes, file: Bytes)
    requires Honest(w) && StoreOk(w, store)
    ensures StoreOk(w, store[w.hash(KeyInput(Artifact(upstream))) := file])
  {
    var to := store[w.hash(KeyInput(Artifact(upstream))) := file];
    forall url: Bytes, rewrite: Rewrite | 0 !in url && Usable(w, to, KeyOf(w, url, rewrite)).Some?
      ensures Genuine(w, url, rewrite, Usable(w, to, KeyOf(w, url, rewrite)).value)
    {
      KeyIsExact(Metadata(url, rewrite), Artifact(upstream));
      assert Usable(w, to, KeyOf(w, url, rewrite)) == Usable(w, store, KeyOf(w, url, rewrite));
    }
  }

  lemma EvictKeepsStore(w: World, store: map<string, Bytes>, key: string)
    requires StoreOk(w, store)
    ensures StoreOk(w, store - {key})
  {
  }

  /** Later steps of a leader leave its request and its outcome alone. */
  lemma LeaderKeeps(w: World, s: State, f: nat, step: LeaderStep)
    requires LeaderCan(w, s, f, step) && FlightOk(w, s.flights[f])
    ensures
      var fl, to := s.flights[f], LeaderFlight(w, s, f, step);
      && MovesOn(fl, to)
      && (to.fetched == fl.fetched || (to.fetched == Some(s.current(fl.url)) && Answers(Leader(f, step), f)))
  {
  }

  /** One flight moves on with its request unchanged and its outcome, once set, kept. */
  predicate MovesOn(fl: Flight, to: Flight) {
    to.url == fl.url && to.rewrite == fl.rewrite && (fl.outcome.Some? ==> to.outcome == fl.outcome)
  }

  lemma MoveKeepsClients(s: State, t: State, f: nat, to: Flight)
    requires ClientsOk(s) && f in s.flights && MovesOn(s.flights[f], to)
    requires t.flights == s.flights[f := to] && t.clients == s.clients
    ensures ClientsOk(t)
  {
  }

  lemma MoveKeepsRegistry(w: World, s: State, t: State, f: nat, to: Flight)
    requires RegistryOk(w, s) && f in s.flights && MovesOn(s.flights[f], to)
    requires t.flights == s.flights[f := to]
    requires forall key :: key in t.registered ==> key in s.registered && t.registered[key] == s.registered[key]
    ensures RegistryOk(w, t)
  {
  }

  lemma LeaderKeepsStore(w: World, s: State, f: nat, step: LeaderStep)
    requires Honest(w) && StoreOk(w, s.store) && LeaderCan(w, s, f, step) && FlightOk(w, s.flights[f])
    ensures StoreOk(w, LeaderStore(w, s, f, step))
  {
    if step.Store? && FileOf(w, s.flights[f]).Ok? {
      PublishKeepsStore(w, s.store, s.flights[f]);
    }
  }

  lemma LeaderKeepsInv(w: World, s: State, f: nat, step: LeaderStep)
    requires Honest(w) && Inv(w, s) && CurrentOk(w, s.current) && LeaderCan(w, s, f, step)
    ensures Inv(w, Next(w, s, Leader(f, step)))
  {
    var t, to := Next(w, s, Leader(f, step)), LeaderFlight(w, s, f, step);
    LeaderFlightOk(w, s, f, step);
    LeaderKeeps(w, s, f, step);
    LeaderKeepsStore(w, s, f, step);
    MoveKeepsClients(s, t, f, to);
    MoveKeepsRegistry(w, s, t, f, to);
  }

  /** The flight a request joins was started for the same request. */
  lemma JoinsOwnRequest(w: World, s: State, url: Bytes, rewrite: Rewrite)
    requires Honest(w) && FlightsOk(w, s) && RegistryOk(w, s) && 0 !in url && KeyOf(w, url, rewrite) in s.registered
    ensures
      var fl := s.flights[s.registered[KeyOf(w, url, rewrite)]];
      fl.url == url && fl.rewrite == rewrite
  {
    var fl := s.flights[s.registered[KeyOf(w, url, rewrite)]];
    assert FlightOk(w, fl);
    KeyIsExact(Metadata(url, rewrite), Metadata(fl.url, fl.rewrite));
  }

  /** A flight for this request is in the in-flight map. */
  ghost predicate InFlight(s: State, f: nat, url: Bytes, rewrite: Rewrite) {
    && f in s.registered.Values && f in s.flights
    && s.flights[f].url == url && s.flights[f].rewrite == rewrite
  }

  /** A request joins a flight for the same request exactly when there is one, and leads a new one otherwise. */
  lemma AsksExactly(w: World, s: State, c: nat, url: Bytes, rewrite: Rewrite, next: nat)
    requires Honest(w) && FlightsOk(w, s) && RegistryOk(w, s) && Can(w, s, Ask(c, url, rewrite, next))
    ensures
      var t := Next(w, s, Ask(c, url, rewrite, next));
      var f := t.clients[c].flight;
      && InFlight(t, f, url, rewrite) && t.clients[c].served.None?
      && (f in s.flights <==> exists g :: InFlight(s, g, url, rewrite))
      && (f in s.flights ==> InFlight(s, f, url, rewrite))
      && (f !in s.flights ==> f == next && t.flights[f].pc.Leading?)
  {
    if KeyOf(w, url, rewrite) in s.registered {
      JoinsOwnRequest(w, s, url, rewrite);
      assert s.registered[KeyOf(w, url, rewrite)] in s.registered.Values;
      assert InFlight(s, s.registered[KeyOf(w, url, rewrite)], url, rewrite);
    } else {
      assert next == AskNext(w, s, c, url, rewrite, next).registered[KeyOf(w, url, rewrite)];
    }
  }

  lemma JoinKeepsInv(w: World, s: State, c: nat, url: Bytes, rewrite: Rewrite)
    requires Honest(w) && Inv(w, s) && 0 !in url && c !in s.clients && KeyOf(w, url, rewrite) in s.registered
    ensures Inv(w, s.(clients := s.clients[c := Client(url, rewrite, s.registered[KeyOf(w, url, rewrite)], None)]))
  {
    JoinsOwnRequest(w, s, url, rewrite);
  }

  lemma LeadKeepsInv(w: World, s: State, c: nat, url: Bytes, rewrite: Rewrite, next: nat)
    requires Inv(w, s) && Can(w, s, Ask(c, url, rewrite, next)) && KeyOf(w, url, rewrite) !in s.registered
    ensures Inv(w, AskNext(w, s, c, url, rewrite, next))
  {
    var t := AskNext(w, s, c, url, rewrite, next);
    forall d | d in t.clients ensures ClientOk(t, t.clients[d]) {
      assert d != c ==> ClientOk(s, s.clients[d]);
    }
  }

  lemma StepKeepsInv(w: World, s: State, a: Action)
    requires Honest(w) && Inv(w, s) && CurrentOk(w, s.current) && Can(w, s, a)
    ensures Inv(w, Next(w, s, a))
  {
    match a
    case Change(_) =>
    case Evict(key) => EvictKeepsStore(w, s.store, key);
    case PutArtifact(upstream, file) => ArtifactKeepsStore(w, s.store, upstream, file);
    case Restart =>
    case Ask(c, url, rewrite, next) =>
      if KeyOf(w, url, rewrite) in s.registered {
        JoinKeepsInv(w, s, c, url, rewrite);
      } else {
        LeadKeepsInv(w, s, c, url, rewrite, next);
      }
    case Serve(_) =>
    case Leader(f, step) => LeaderKeepsInv(w, s, f, step);
  }

  lemma RunStart(w: World, r: Run)
    requires IsRun(w, r)
    ensures Inv(w, r.states[0])
  {
  }

  lemma RunNext(w: World, r: Run, i: nat)
    requires Honest(w) && IsRun(w, r) && i < |r.actions| && Inv(w, r.states[i])
    ensures Inv(w, r.states[i + 1])
  {
    assert CurrentOk(w, r.states[i].current) && Can(w, r.states[i], r.actions[i]);
    StepKeepsInv(w, r.states[i], r.actions[i]);
  }

  lemma {:induction false} RunInv(w: World, r: Run, i: nat)
    requires Honest(w) && IsRun(w, r) && i < |r.states|
    ensures Inv(w, r.states[i])
  {
    if i == 0 {
      RunStart(w, r);
    } else {
      RunInv(w, r, i - 1);
      RunNext(w, r, i - 1);
    }
  }

  /*** The theorem ***/

  predicate Answers(a: Action, f: nat) {
    a.Leader? && a.f == f && (a.step.Fetch? || a.step.Revalidate?)
  }

  /** Step `j` of the run is where the upstream answered the leader of a flight, and `url` then had `a`. */
  ghost predicate FetchedAt(r: Run, j: nat, f: nat, url: Bytes, a: Answer) {
    j < |r.actions| && j < |r.states| && Answers(r.actions[j], f) && r.states[j].current(url) == a
  }

  lemma LeaderFetches(w: World, s: State, g: nat, step: LeaderStep, f: nat)
    requires FlightsOk(w, s) && LeaderCan(w, s, g, step) && f in s.flights
    ensures
      var to := if f == g then LeaderFlight(w, s, g, step) else s.flights[f];
      && to.url == s.flights[f].url
      && (to.fetched == s.flights[f].fetched
          || (to.fetched == Some(s.current(to.url)) && Answers(Leader(g, step), f)))
  {
    assert FlightOk(w, s.flights[g]);
    LeaderKeeps(w, s, g, step);
  }

  lemma LeaderFlights(w: World, s: State, g: nat, step: LeaderStep)
    requires LeaderCan(w, s, g, step)
    ensures Next(w, s, Leader(g, step)).flights == s.flights[g := LeaderFlight(w, s, g, step)]
  {
  }

  lemma OthersFetchNothing(w: World, s: State, a: Action, f: nat)
    requires Can(w, s, a) && !a.Leader? && f in Next(w, s, a).flights && Next(w, s, a).flights[f].fetched.Some?
    ensures f in s.flights && Next(w, s, a).flights[f] == s.flights[f]
  {
  }

  /** A step leaves what a flight fetched alone, or is the step that fetches it. */
  lemma StepFetches(w: World, s: State, a: Action, f: nat)
    requires FlightsOk(w, s) && Can(w, s, a) && f in Next(w, s, a).flights && Next(w, s, a).flights[f].fetched.Some?
    ensures f in s.flights && Next(w, s, a).flights[f].url == s.flights[f].url
    ensures
      var to := Next(w, s, a).flights[f];
      to.fetched == s.flights[f].fetched || (to.fetched == Some(s.current(to.url)) && Answers(a, f))
  {
    if a.Leader? {
      LeaderFlights(w, s, a.f, a.step);
      LeaderFetches(w, s, a.f, a.step, f);
    } else {
      OthersFetchNothing(w, s, a, f);
    }
  }

  lemma {:induction false} FetchIsInRun(w: World, r: Run, i: nat, f: nat) returns (j: nat)
    requires Honest(w) && IsRun(w, r) && i < |r.states| && f in r.states[i].flights
    requires r.states[i].flights[f].fetched.Some?
    ensures j < i && FetchedAt(r, j, f, r.states[i].flights[f].url, r.states[i].flights[f].fetched.value)
  {
    assert i > 0;
    var s, a := r.states[i - 1], r.actions[i - 1];
    assert Can(w, s, a) && r.states[i] == Next(w, s, a);
    RunInv(w, r, i - 1);
    StepFetches(w, s, a, f);
    if r.states[i].flights[f].fetched == s.flights[f].fetched {
      j := FetchIsInRun(w, r, i - 1, f);
    } else {
      j := i - 1;
    }
  }

  /**
   * Every 200 a client gets for metadata, from a leader or joined, fetched or confirmed by a 304,
   * is made from the body the upstream had under the requested URL when the leader's request was
   * answered: that body itself for a raw request, its rewrite for any other, within the limit and
   * with its length. Evictions, restarts and earlier stores do not matter.
   */
  lemma CachedMetadataIsDirect(w: World, r: Run, i: nat, c: nat) returns (j: nat)
    requires Honest(w) && IsRun(w, r) && i < |r.states| && c in r.states[i].clients
    requires
      var served := r.states[i].clients[c].served;
      served.Some? && served.value.Response? && S.StatusCode(served.value.meta.status) == OK_STATUS
    ensures j < i
    ensures
      var client := r.states[i].clients[c];
      var Response(meta, body) := client.served.value;
      var now := r.states[j].current(client.url);
      && Answers(r.actions[j], client.flight)
      && now.status == OK_STATUS
      && (client.rewrite.Raw? ==> body == now.body)
      && (!client.rewrite.Raw? ==> w.rewriter(client.rewrite, now.body) == Some(body))
      && |body| <= MAX_METADATA_BODY_LEN
      && SizedBy(meta.headers, |body|)
  {
    RunInv(w, r, i);
    var client := r.states[i].clients[c];
    assert ClientOk(r.states[i], client);
    var fl := r.states[i].flights[client.flight];
    assert FlightOk(w, fl);
    j := FetchIsInRun(w, r, i, client.flight);
  }

  /** The body to serve exists: the upstream's own, or the one the rewriter makes of it. */
  ghost predicate Servable(w: World, rewrite: Rewrite, upstream: Bytes, body: Bytes) {
    && |body| <= MAX_METADATA_BODY_LEN
    && (if rewrite.Raw? then body == upstream else w.rewriter(rewrite, upstream) == Some(body))
  }

  /**
   * A leader can finish a fetch exactly when such a body exists, and then has that body. It goes
   * to the store first exactly when the answer is a 200 with an etag or a date in text.
   */
  lemma FetchesExactly(w: World, s: State, f: nat)
    requires f in s.flights && s.flights[f].pc.Loaded? && s.current(s.flights[f].url).status != NOT_MODIFIED
    ensures
      var fl := s.flights[f];
      var now := s.current(fl.url);
      && (LeaderCan(w, s, f, Fetch) <==> exists body :: Servable(w, fl.rewrite, now.body, body))
      && (LeaderCan(w, s, f, Fetch) ==>
            var to := LeaderFlight(w, s, f, Fetch);
            && to.result.Some? && Servable(w, fl.rewrite, now.body, to.result.value.1)
            && (to.pc.Storing? <==>
                  now.status == 200 && (FirstText(now.headers, "etag").Some? || FirstText(now.headers, "last-modified").Some?))
            && (!to.pc.Storing? ==> to.pc.Ready?))
  {
    var fl := s.flights[f];
    var now := s.current(fl.url);
    if Rewritten(w, fl.rewrite, now.body).Some? {
      assert Servable(w, fl.rewrite, now.body, Rewritten(w, fl.rewrite, now.body).value);
    }
  }

  lemma PutIsUsable(w: World, store: map<string, Bytes>, key: string, meta: Meta, body: Bytes)
    requires Honest(w) && S.Written(body, meta, w.codec).Ok? && |body| <= MAX_METADATA_BODY_LEN
    ensures Usable(w, store[key := S.Written(body, meta, w.codec).value], key) == Some((meta, body))
  {
    S.WrittenReadsBack(body, meta, w.codec);
  }

  lemma StoreServes(w: World, store: map<string, Bytes>, fl: Flight)
    requires Honest(w) && FlightOk(w, fl) && fl.pc.Storing? && FileOf(w, fl).Ok?
    ensures
      var key := KeyOf(w, fl.url, fl.rewrite);
      Usable(w, store[key := FileOf(w, fl).value], key) == fl.result
  {
    var (meta, body) := fl.result.value;
    assert |body| <= MAX_METADATA_BODY_LEN;
    PutIsUsable(w, store, KeyOf(w, fl.url, fl.rewrite), meta, body);
  }

  lemma StoreWrites(w: World, s: State, f: nat)
    requires LeaderCan(w, s, f, Store) && FileOf(w, s.flights[f]).Ok?
    ensures
      var fl := s.flights[f];
      Next(w, s, Leader(f, Store)).store == s.store[KeyOf(w, fl.url, fl.rewrite) := FileOf(w, fl).value]
  {
  }

  /** What was stored for a request is what the next leader of that request loads, until something replaces it. */
  lemma StoredIsLoaded(w: World, s: State, f: nat, t: State, g: nat)
    requires Honest(w) && LeaderCan(w, s, f, Store) && FileOf(w, s.flights[f]).Ok? && FlightOk(w, s.flights[f])
    requires t.store == Next(w, s, Leader(f, Store)).store && LeaderCan(w, t, g, Load)
    requires t.flights[g].url == s.flights[f].url && t.flights[g].rewrite == s.flights[f].rewrite
    ensures LeaderFlight(w, t, g, Load).entry == s.flights[f].result
  {
    StoreWrites(w, s, f);
    StoreServes(w, s.store, s.flights[f]);
  }

  /** With an entry in hand the request carries exactly its validators, and a 304 to them serves the entry. */
  lemma ConfirmsExactly(w: World, s: State, f: nat)
    requires f in s.flights && s.flights[f].pc.Loaded? && s.flights[f].entry.Some?
    ensures
      var fl := s.flights[f];
      var (meta, body) := fl.entry.value;
      && (LeaderCan(w, s, f, Revalidate) <==>
            (meta.etag.Some? || meta.lastModified.Some?) && w.matches(fl.url, meta.etag, meta.lastModified, s.current(fl.url)))
      && (LeaderCan(w, s, f, Revalidate) ==>
            LeaderFlight(w, s, f, Revalidate).result == fl.entry && LeaderFlight(w, s, f, Revalidate).pc.Ready?)
  {
  }

  /** All clients of one flight get the same outcome. */
  lemma JoinersAgree(w: World, r: Run, i: nat, c: nat, d: nat)
    requires Honest(w) && IsRun(w, r) && i < |r.states| && c in r.states[i].clients && d in r.states[i].clients
    requires r.states[i].clients[c].flight == r.states[i].clients[d].flight
    requires r.states[i].clients[c].served.Some? && r.states[i].clients[d].served.Some?
    ensures r.states[i].clients[c].served == r.states[i].clients[d].served
    ensures r.states[i].clients[c].url == r.states[i].clients[d].url
  {
    RunInv(w, r, i);
    assert ClientOk(r.states[i], r.states[i].clients[c]) && ClientOk(r.states[i], r.states[i].clients[d]);
  }
}
