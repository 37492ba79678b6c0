/**
The nonce protocol of one access key (or one gas-key lane).

A world is one node, any number of clients (each with its own nonce cache and
strict-lock dictionary) and any number of `send_transaction` calls in flight.
Every atomic step of every call, and every answer the node may give, is an
event; a run is any sequence of enabled events, so all interleavings of
threads or tasks are runs. History (the landing log, each call's rejections)
is part of the state, so counting claims over a run are claims about the
state it ends in.
*/
module World {
  import opened Wrappers

  datatype Mode = Monotonic | Strict

  /** `Landed` covers a call that returns and one that raises because the landed transaction's execution failed. */
  datatype Outcome = Landed | InvalidNonce | Failed

  datatype Author = Foreign | Ours(call: nat)

  datatype Landing = Landing(nonce: nat, author: Author)

  /** A rejection the caller saw: the number of landings before it, and the nonce the node named, if any. */
  datatype Rejection = Rejection(at: nat, reported: Option<nat>)

  datatype Request = FetchNonce | FetchBlock(nonce: nat) | SendTx(nonce: nat)

  datatype Pc =
    | Idle
    | FindLock
    | MakeLock
    | AwaitLock(lock: nat)
    | Top
    | Rpc(request: Request, tries: nat)
    | Reserving(fetched: Option<nat>)
    | SyncRejected(reported: nat)
    | SyncLanded(nonce: nat)
    | Leaving(outcome: Outcome)
    | Done(outcome: Outcome)

  datatype Call = Call(
    client: nat,
    mode: Mode,
    pc: Pc,
    attempt: nat,
    base: Option<nat>,          // `strict_base`
    lock: Option<nat>,          // the lock held by the `with` block
    landed: Option<nat>,        // history: index in the log of this call's accepted transaction
    rejections: seq<Rejection>, // history: one per InvalidNonceError
    startLog: nat,              // history: landings before the call started
    pending: set<nat>,          // history: calls whose landing their cache had not reached when this one started
    fetches: nat,               // history: `_fetch_nonce` calls
    posts: nat)                 // history: HTTP POSTs

  /** What the calls share: the node, and the clients' caches and lock dictionaries. */
  datatype Shared = Shared(
    start: nat,                 // the chain nonce when the run begins
    chain: nat,                 // the node's current nonce
    log: seq<Landing>,          // history: accepted transactions, oldest first
    caches: map<nat, nat>,      // per client: the cached nonce, absent until the key is cached
    locks: map<nat, nat>,       // per client: the lock `_strict_locks` holds for the key
    held: map<nat, nat>,        // lock -> the call inside its `with` block
    told: set<(nat, nat)>)      // history: (client, nonce) the node reported or accepted

  datatype World = World(shared: Shared, calls: seq<Call>)

  datatype Reply =
    | Lost(processed: bool)     // a retryable failure; the node may have processed the request all the same
    | Fatal(processed: bool)    // an error that leaves the transport at once, other than InvalidNonceError
    | Value(nonce: nat)         // the answer to a query
    | Handled(report: bool)     // the node's verdict on a transaction; `report`: a rejection names its nonce

  datatype Event =
    | Go(call: nat)                     // the call's next step, when it needs no answer from the node
    | Post(call: nat, reply: Reply)     // one HTTP POST of the call's current request
    | ForeignLand(nonce: nat)           // a transaction of some other wallet lands

  /** What the theorems may assume of the surroundings. Every flag false is the unrestricted world. */
  datatype Env = Env(
    retries: nat,               // `RpcTransport.retries`
    soleWriter: bool,           // nobody else writes the key
    anchored: bool,             // reads answered before the key is cached are not below the starting nonce
    currentReads: bool,         // reads return the node's current nonce
    reports: bool)              // rejections name the node's nonce

  /** A retry learns where the chain is: reads are current, or rejections name the nonce. */
  predicate Guided(env: Env) {
    env.currentReads || env.reports
  }

  // ---------- The node and the cache ----------

  /** NonceMode: monotonic wants more than the current nonce, strict exactly one more. */
  predicate Accepts(mode: Mode, chain: nat, nonce: nat) {
    match mode
    case Monotonic => nonce > chain
    case Strict => nonce == chain + 1
  }

  function Max(a: nat, b: nat): nat {
    if a < b then b else a
  }

  /** `NonceCache.reserve` on one key: the nonce it hands out, which is also the new cached value. */
  function NextNonce(cached: Option<nat>, onChain: Option<nat>): nat {
    var base := if cached.Some? then cached.value else 0;
    (if onChain.Some? then Max(base, onChain.value) else base) + 1
  }

  /** `NonceCache.sync_to` on one key. */
  function Synced(cached: Option<nat>, nonce: nat): nat {
    Max(if cached.Some? then cached.value else 0, nonce)
  }

  function Cached(s: Shared, client: nat): Option<nat> {
    if client in s.caches then Some(s.caches[client]) else None
  }

  /** The chain nonce after the first k landings. */
  function ChainAt(start: nat, log: seq<Landing>, k: nat): nat
    requires k <= |log|
  {
    if k == 0 then start else log[k - 1].nonce
  }

  // ---------- Steps of one call ----------

  /** The cache of the call's client has reached the nonce of its accepted transaction. */
  predicate CacheReached(s: Shared, c: Call) {
    && c.landed.Some? && c.landed.value < |s.log|
    && c.client in s.caches && s.log[c.landed.value].nonce <= s.caches[c.client]
  }

  /** The calls whose transaction landed and whose cache has not caught up with it. */
  function Uncovered(s: Shared, calls: seq<Call>): set<nat> {
    set i | 0 <= i < |calls| && calls[i].landed.Some? && !CacheReached(s, calls[i])
  }

  /** `continue` in the attempt loop: the next of three attempts, or `raise last_error`. */
  function Continue(c: Call): Call {
    if c.attempt + 1 < 3 then c.(pc := Top, attempt := c.attempt + 1)
    else c.(pc := Leaving(InvalidNonce))
  }

  predicate CanGo(s: Shared, c: Call) {
    match c.pc
    case Rpc(_, _) => false
    case AwaitLock(lock) => lock !in s.held
    case Done(_) => false
    case _ => true
  }

  /** The next step of call i, when it needs no answer from the node. */
  function DoGo(s: Shared, i: nat, c: Call, uncovered: set<nat>): (Shared, Call)
    requires CanGo(s, c)
  {
    match c.pc
    case Idle =>
      (s, c.(pc := if c.mode.Strict? then FindLock else Top, startLog := |s.log|, pending := uncovered))
    case FindLock =>
      (s, c.(pc := if c.client in s.locks then AwaitLock(s.locks[c.client]) else MakeLock))
    case MakeLock =>
      // `setdefault` with a fresh lock, named after the call that makes it
      var locks := if c.client in s.locks then s.locks else s.locks[c.client := i];
      (s.(locks := locks), c.(pc := AwaitLock(locks[c.client])))
    case AwaitLock(lock) =>
      (s.(held := s.held[lock := i]), c.(pc := Top, lock := Some(lock)))
    case Top =>
      (s,
       if c.mode.Strict? && c.base.Some? then c.(pc := Rpc(FetchBlock(c.base.value + 1), 0))
       else if c.mode.Monotonic? && c.attempt == 0 && c.client in s.caches then c.(pc := Reserving(None))
       else c.(pc := Rpc(FetchNonce, 0), fetches := c.fetches + 1))
    case Reserving(fetched) =>
      var nonce := NextNonce(Cached(s, c.client), fetched);
      (s.(caches := s.caches[c.client := nonce]), c.(pc := Rpc(FetchBlock(nonce), 0)))
    case SyncRejected(reported) =>
      (s.(caches := s.caches[c.client := Synced(Cached(s, c.client), reported)]),
       Continue(c.(base := Some(reported))))
    case SyncLanded(nonce) =>
      (s.(caches := s.caches[c.client := Synced(Cached(s, c.client), nonce)]), c.(pc := Leaving(Landed)))
    case Leaving(outcome) =>
      (s.(held := if c.lock.Some? then s.held - {c.lock.value} else s.held),
       c.(pc := Done(outcome), lock := None))
  }

  /** The transaction posted is the one the node accepted: the call's last accepted one had the same nonce. */
  predicate Stored(s: Shared, c: Call)
    requires c.pc.Rpc? && c.pc.request.SendTx?
  {
    c.landed.Some? && c.landed.value < |s.log| && s.log[c.landed.value].nonce == c.pc.request.nonce
  }

  /** The node processes the call's transaction; one it has stored changes nothing. */
  function Process(s: Shared, i: nat, c: Call): (Shared, Call)
    requires c.pc.Rpc?
  {
    if c.pc.request.SendTx? && !Stored(s, c) && Accepts(c.mode, s.chain, c.pc.request.nonce) then
      (s.(chain := c.pc.request.nonce, log := s.log + [Landing(c.pc.request.nonce, Ours(i))]),
       c.(landed := Some(|s.log|)))
    else
      (s, c)
  }

  predicate CanPost(env: Env, s: Shared, c: Call, reply: Reply) {
    && c.pc.Rpc?
    && match reply
       case Lost(_) => true
       case Fatal(_) => true
       case Value(v) =>
         && !c.pc.request.SendTx?
         && (c.pc.request.FetchNonce? ==>
               && v <= s.chain
               && (env.currentReads ==> v == s.chain)
               && (env.anchored && c.client !in s.caches ==> s.start <= v))
       case Handled(report) => c.pc.request.SendTx? && (env.reports ==> report)
  }

  function Tell(s: Shared, client: nat, nonce: nat): Shared {
    s.(told := s.told + {(client, nonce)})
  }

  /** The call consumes the answer to its query. */
  function TakeValue(s: Shared, c: Call, v: nat): (Shared, Call)
    requires c.pc.Rpc? && !c.pc.request.SendTx?
  {
    if c.pc.request.FetchBlock? then
      (s, c.(pc := Rpc(SendTx(c.pc.request.nonce), 0), posts := c.posts + 1))
    else if c.mode.Strict? then
      (Tell(s, c.client, v), c.(pc := Rpc(FetchBlock(v + 1), 0), base := Some(v), posts := c.posts + 1))
    else
      (Tell(s, c.client, v), c.(pc := Reserving(Some(v)), posts := c.posts + 1))
  }

  /** The call consumes the node's verdict on its transaction. */
  function TakeVerdict(s: Shared, c: Call, report: bool): (Shared, Call)
    requires c.pc.Rpc? && c.pc.request.SendTx?
  {
    if Stored(s, c) then
      (Tell(s, c.client, c.pc.request.nonce),
       c.(pc := SyncLanded(c.pc.request.nonce), posts := c.posts + 1))
    else if report then
      (Tell(s, c.client, s.chain),
       c.(pc := SyncRejected(s.chain), posts := c.posts + 1,
          rejections := c.rejections + [Rejection(|s.log|, Some(s.chain))]))
    else
      (s,
       Continue(c.(base := None, posts := c.posts + 1,
                   rejections := c.rejections + [Rejection(|s.log|, None)])))
  }

  /** A POST that fails: `RpcTransport.call` tries again if it may and has retries left. */
  function TakeFailure(env: Env, c: Call, retryable: bool): Call
    requires c.pc.Rpc?
  {
    c.(pc := if retryable && c.pc.tries < env.retries then Rpc(c.pc.request, c.pc.tries + 1) else Leaving(Failed),
       posts := c.posts + 1)
  }

  /** The call sees the reply to one HTTP POST of its current request. */
  function Settle(env: Env, s: Shared, c: Call, reply: Reply): (Shared, Call)
    requires CanPost(env, s, c, reply)
  {
    match reply
    case Lost(_) => (s, TakeFailure(env, c, true))
    case Fatal(_) => (s, TakeFailure(env, c, false))
    case Value(v) => TakeValue(s, c, v)
    case Handled(report) => TakeVerdict(s, c, report)
  }

  predicate Processes(reply: Reply) {
    match reply
    case Lost(processed) => processed
    case Fatal(processed) => processed
    case Value(_) => false
    case Handled(_) => true
  }

  /** One HTTP POST of the call's current request: the node may process it, then the call sees `reply`. */
  function DoPost(env: Env, s: Shared, i: nat, c: Call, reply: Reply): (Shared, Call)
    requires CanPost(env, s, c, reply)
  {
    if Processes(reply) then Settle(env, Process(s, i, c).0, Process(s, i, c).1, reply)
    else Settle(env, s, c, reply)
  }

  // ---------- Steps of the world ----------

  predicate CanStep(env: Env, s: Shared, c: Call, e: Event) {
    match e
    case Go(_) => CanGo(s, c)
    case Post(_, reply) => CanPost(env, s, c, reply)
    case ForeignLand(_) => false
  }

  function DoStep(env: Env, s: Shared, i: nat, c: Call, uncovered: set<nat>, e: Event): (Shared, Call)
    requires CanStep(env, s, c, e)
  {
    if e.Go? then DoGo(s, i, c, uncovered) else DoPost(env, s, i, c, e.reply)
  }

  predicate Enabled(env: Env, w: World, e: Event) {
    if e.ForeignLand? then !env.soleWriter && e.nonce > w.shared.chain
    else e.call < |w.calls| && CanStep(env, w.shared, w.calls[e.call], e)
  }

  function LandForeign(s: Shared, nonce: nat): Shared {
    s.(chain := nonce, log := s.log + [Landing(nonce, Foreign)])
  }

  function Apply(env: Env, w: World, e: Event): World
    requires Enabled(env, w, e)
  {
    if e.ForeignLand? then w.(shared := LandForeign(w.shared, e.nonce))
    else
      var (s, c) := DoStep(env, w.shared, e.call, w.calls[e.call], Uncovered(w.shared, w.calls), e);
      World(s, w.calls[e.call := c])
  }

  // ---------- Runs ----------

  /** A call that has not begun. */
  function FreshCall(client: nat, mode: Mode): Call {
    Call(client, mode, Idle, 0, None, None, None, [], 0, {}, 0, 0)
  }

  predicate Fresh(c: Call) {
    c == FreshCall(c.client, c.mode)
  }

  predicate Initial(w: World) {
    && w.shared == Shared(w.shared.start, w.shared.start, [], map[], map[], map[], {})
    && forall i :: 0 <= i < |w.calls| ==> Fresh(w.calls[i])
  }

  /** The events are enabled one after the other, starting in w. */
  ghost predicate Runs(env: Env, w: World, events: seq<Event>)
    decreases |events|
  {
    events == [] || (Enabled(env, w, events[0]) && Runs(env, Apply(env, w, events[0]), events[1..]))
  }

  ghost function After(env: Env, w: World, events: seq<Event>): World
    requires Runs(env, w, events)
    decreases |events|
  {
    if events == [] then w else After(env, Apply(env, w, events[0]), events[1..])
  }

  /** w is the end of some run that begins with no call started and nothing cached. */
  ghost predicate Reachable(env: Env, w: World) {
    exists w0, events :: Initial(w0) && Runs(env, w0, events) && After(env, w0, events) == w
  }
}
