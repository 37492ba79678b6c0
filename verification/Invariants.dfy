/**
What every step of the nonce protocol keeps, in the unrestricted world: any
clients, any foreign writers, lagging reads, silent rejections, lost replies.
*/
module Invariants {
  import opened Wrappers
  import opened World

  // ---------- What reserving and syncing leave in the cache ----------

  /** A nonce that is positive, above the cached one and above the fetched one. */
  predicate Above(cached: Option<nat>, fetched: Option<nat>, nonce: nat) {
    nonce > 0 && (cached.Some? ==> nonce > cached.value) && (fetched.Some? ==> nonce > fetched.value)
  }

  /** The least such nonce. */
  ghost predicate LeastAbove(cached: Option<nat>, fetched: Option<nat>, nonce: nat) {
    Above(cached, fetched, nonce) && forall n: nat :: Above(cached, fetched, n) ==> nonce <= n
  }

  /** The larger of the cached value, if any, and the nonce. */
  predicate IsLarger(cached: Option<nat>, nonce: nat, value: nat) {
    && value >= nonce && (cached.Some? ==> value >= cached.value)
    && (value == nonce || (cached.Some? && value == cached.value))
  }

  /** Nothing changes in the cache but the value under one client. */
  ghost predicate OnlyClient(s: Shared, s': Shared, client: nat) {
    && (forall c :: c != client ==> Cached(s', c) == Cached(s, c))
    && s'.chain == s.chain && s'.log == s.log
  }

  /** A reserving call signs, and leaves cached, the least positive nonce above the cached and the fetched one. */
  lemma ReservesTheLeast(env: Env, w: World, i: nat)
    requires i < |w.calls| && w.calls[i].pc.Reserving? && Enabled(env, w, Go(i))
    ensures var (c, w') := (w.calls[i], Apply(env, w, Go(i)));
            && w'.calls[i].pc.Rpc? && w'.calls[i].pc.request.FetchBlock?
            && var nonce := w'.calls[i].pc.request.nonce;
               && LeastAbove(Cached(w.shared, c.client), c.pc.fetched, nonce)
               && Cached(w'.shared, c.client) == Some(nonce) && OnlyClient(w.shared, w'.shared, c.client)
  {
  }

  /** Whatever its mode, a call that syncs, after a rejection or a landing, leaves the larger of the two values cached. */
  lemma SyncsToTheLarger(env: Env, w: World, i: nat)
    requires i < |w.calls| && (w.calls[i].pc.SyncRejected? || w.calls[i].pc.SyncLanded?) && Enabled(env, w, Go(i))
    ensures var (c, w') := (w.calls[i], Apply(env, w, Go(i)));
            var nonce := if c.pc.SyncRejected? then c.pc.reported else c.pc.nonce;
            && Cached(w'.shared, c.client).Some?
            && IsLarger(Cached(w.shared, c.client), nonce, Cached(w'.shared, c.client).value)
            && OnlyClient(w.shared, w'.shared, c.client)
  {
  }

  // ---------- What the surroundings are free to do ----------

  /** Other wallets may land any nonce above the node's. */
  lemma OthersMaySkipNonces(env: Env, w: World, nonce: nat)
    requires !env.soleWriter && nonce > w.shared.chain
    ensures Enabled(env, w, ForeignLand(nonce))
    ensures Apply(env, w, ForeignLand(nonce)).shared
            == w.shared.(chain := nonce, log := w.shared.log + [Landing(nonce, Foreign)])
  {
  }

  /** A POST that fails, in a way that is retried or not, may have landed its transaction all the same. */
  lemma FailedPostMayLand(env: Env, w: World, i: nat, retryable: bool, processed: bool)
    requires i < |w.calls| && w.calls[i].pc.Rpc? && w.calls[i].pc.request.SendTx?
    ensures var c := w.calls[i];
            var nonce := c.pc.request.nonce;
            var failure := Post(i, if retryable then Lost(processed) else Fatal(processed));
            && Enabled(env, w, failure)
            && Apply(env, w, failure).shared.log
               == w.shared.log + (if processed && !Stored(w.shared, c) && Accepts(c.mode, w.shared.chain, nonce)
                                  then [Landing(nonce, Ours(i))] else [])
  {
  }

  /** Unless reads are current, one may bring any nonce the node has passed, once the key is cached. */
  lemma ReadsMayLag(env: Env, w: World, i: nat, nonce: nat)
    requires i < |w.calls| && w.calls[i].pc.Rpc? && w.calls[i].pc.request.FetchNonce?
    requires nonce <= w.shared.chain && (env.currentReads ==> nonce == w.shared.chain)
    requires env.anchored && w.calls[i].client !in w.shared.caches ==> w.shared.start <= nonce
    ensures Enabled(env, w, Post(i, Value(nonce)))
  {
  }

  // ---------- How a step may change the shared state ----------

  /** The log only grows, caches only rise, and a lock once in the dictionary stays. */
  ghost predicate Extends(s: Shared, s': Shared) {
    && s'.start == s.start
    && s.log <= s'.log
    && s.told <= s'.told
    && (forall c :: c in s.caches ==> c in s'.caches && s.caches[c] <= s'.caches[c])
    && (forall c :: c in s.locks ==> c in s'.locks && s'.locks[c] == s.locks[c])
  }

  lemma GoExtends(s: Shared, i: nat, c: Call, uncovered: set<nat>)
    requires CanGo(s, c)
    ensures var (s', c') := DoGo(s, i, c, uncovered);
            Extends(s, s') && c'.client == c.client && c'.mode == c.mode
  {
  }

  lemma ProcessExtends(s: Shared, i: nat, c: Call)
    requires c.pc.Rpc?
    ensures var (s', c') := Process(s, i, c);
            Extends(s, s') && c'.client == c.client && c'.mode == c.mode
  {
  }

  lemma SettleExtends(env: Env, s: Shared, c: Call, reply: Reply)
    requires CanPost(env, s, c, reply)
    ensures var (s', c') := Settle(env, s, c, reply);
            Extends(s, s') && c'.client == c.client && c'.mode == c.mode
  {
  }

  lemma StepExtends(env: Env, s: Shared, i: nat, c: Call, uncovered: set<nat>, e: Event)
    requires CanStep(env, s, c, e)
    ensures var (s', c') := DoStep(env, s, i, c, uncovered, e);
            Extends(s, s') && c'.client == c.client && c'.mode == c.mode
  {
    if e.Go? {
      GoExtends(s, i, c, uncovered);
    } else if Processes(e.reply) {
      ProcessExtends(s, i, c);
      SettleExtends(env, Process(s, i, c).0, Process(s, i, c).1, e.reply);
    } else {
      SettleExtends(env, s, c, e.reply);
    }
  }

  lemma ApplyExtends(env: Env, w: World, e: Event)
    requires Enabled(env, w, e)
    ensures Extends(w.shared, Apply(env, w, e).shared)
  {
    if !e.ForeignLand? {
      StepExtends(env, w.shared, e.call, w.calls[e.call], Uncovered(w.shared, w.calls), e);
    }
  }

  // ---------- The node's journal ----------

  ghost predicate Increasing(start: nat, log: seq<Landing>) {
    forall j, k :: 0 <= j < k <= |log| ==> ChainAt(start, log, j) < ChainAt(start, log, k)
  }

  /** The node never spoke of a nonce above the current one. */
  ghost predicate Truthful(told: set<(nat, nat)>, chain: nat) {
    forall t :: t in told ==> t.1 <= chain
  }

  /** A cached value is at least some nonce the node told this client. */
  ghost predicate Grounded(caches: map<nat, nat>, told: set<(nat, nat)>) {
    forall c :: c in caches ==> exists v :: v <= caches[c] && (c, v) in told
  }

  /** The chain nonce is the last landing's, landings strictly increase, and nothing the node says runs ahead of it. */
  ghost predicate Journal(s: Shared) {
    && s.chain == ChainAt(s.start, s.log, |s.log|)
    && Increasing(s.start, s.log)
    && Truthful(s.told, s.chain)
    && Grounded(s.caches, s.told)
  }

  // ---------- One call ----------

  /** A rejection names the nonce the chain had reached when it was made. */
  ghost predicate Recorded(start: nat, log: seq<Landing>, rejections: seq<Rejection>) {
    forall k :: 0 <= k < |rejections| ==>
      && rejections[k].at <= |log|
      && (rejections[k].reported.Some? ==> rejections[k].reported.value == ChainAt(start, log, rejections[k].at))
  }

  /** Rejections follow each other in time, and after one that names its nonce something lands before the next. */
  ghost predicate Separated(rejections: seq<Rejection>) {
    forall k :: 0 <= k && k + 1 < |rejections| ==>
      && rejections[k].at <= rejections[k + 1].at
      && (rejections[k].reported.Some? ==> rejections[k].at < rejections[k + 1].at)
  }

  /** Something lands between any two rejections. */
  ghost predicate Rising(rejections: seq<Rejection>) {
    forall k :: 0 <= k && k + 1 < |rejections| ==> rejections[k].at < rejections[k + 1].at
  }

  ghost predicate AllReported(rejections: seq<Rejection>) {
    forall k :: 0 <= k < |rejections| ==> rejections[k].reported.Some?
  }

  /** Rejections happen after the call started, and before its transaction landed. */
  ghost predicate Timely(startLog: nat, landed: Option<nat>, rejections: seq<Rejection>) {
    forall k :: 0 <= k < |rejections| ==>
      && startLog <= rejections[k].at
      && (landed.Some? ==> rejections[k].at <= landed.value)
  }

  ghost predicate Past(i: nat, start: nat, log: seq<Landing>, startLog: nat, landed: Option<nat>, rejections: seq<Rejection>) {
    && startLog <= |log|
    && (landed.Some? ==> startLog <= landed.value < |log| && log[landed.value].author == Ours(i))
    && Recorded(start, log, rejections)
    && Separated(rejections)
    && Timely(startLog, landed, rejections)
  }

  ghost predicate PastOk(s: Shared, i: nat, c: Call) {
    Past(i, s.start, s.log, c.startLog, c.landed, c.rejections)
  }

  /** The call's program counter agrees with its history. */
  ghost predicate History(s: Shared, c: Call) {
    && c.attempt <= 2
    && (c.landed.Some? ==> c.landed.value < |s.log|)
    && match c.pc
       case Idle => Fresh(c)
       case FindLock => c.mode.Strict? && c.landed.None? && c.attempt == |c.rejections| == 0
       case MakeLock => c.mode.Strict? && c.landed.None? && c.attempt == |c.rejections| == 0
       case AwaitLock(_) => c.mode.Strict? && c.landed.None? && c.attempt == |c.rejections| == 0
       case Top => c.landed.None? && |c.rejections| == c.attempt
       case Rpc(request, _) =>
         && |c.rejections| == c.attempt
         && (c.landed.Some? ==> request.SendTx? && s.log[c.landed.value].nonce == request.nonce)
       case Reserving(f) =>
         && c.mode.Monotonic? && c.landed.None? && |c.rejections| == c.attempt
         && (if f.None? then c.client in s.caches else (c.client, f.value) in s.told)
       case SyncRejected(r) =>
         && c.landed.None? && |c.rejections| == c.attempt + 1
         && c.rejections[c.attempt].reported == Some(r) && (c.client, r) in s.told
       case SyncLanded(n) =>
         && |c.rejections| == c.attempt && c.landed.Some? && s.log[c.landed.value].nonce == n
         && (c.client, n) in s.told
       case Leaving(o) => Ended(c, o)
       case Done(o) => Ended(c, o)
  }

  ghost predicate Ended(c: Call, o: Outcome) {
    match o
    case Landed => c.landed.Some? && |c.rejections| == c.attempt
    case InvalidNonce => c.landed.None? && |c.rejections| == 3
    case Failed => |c.rejections| == c.attempt
  }

  /** Inside the `with` block of `send_transaction`. */
  predicate Inside(c: Call) {
    match c.pc
    case Idle => false
    case FindLock => false
    case MakeLock => false
    case AwaitLock(_) => false
    case Done(_) => false
    case _ => true
  }

  ghost predicate Locking(s: Shared, i: nat, c: Call) {
    && (c.pc.AwaitLock? ==> c.client in s.locks && s.locks[c.client] == c.pc.lock)
    && c.lock.Some? == (c.mode.Strict? && Inside(c))
    && (c.lock.Some? ==>
          && c.client in s.locks && s.locks[c.client] == c.lock.value
          && c.lock.value in s.held && s.held[c.lock.value] == i)
  }

  /** The nonce the current attempt signs, once it is chosen. */
  function Signing(c: Call): Option<nat> {
    if c.pc.Rpc? && !c.pc.request.FetchNonce? then Some(c.pc.request.nonce) else None
  }

  /** The call's accepted nonce was reserved from the cache, or has been synced to it. */
  predicate Synchronised(c: Call) {
    c.mode.Monotonic? || c.pc == Leaving(Landed) || c.pc == Done(Landed)
  }

  ghost predicate Caching(s: Shared, c: Call)
    requires History(s, c)
  {
    && (c.mode.Monotonic? && Signing(c).Some? ==>
          c.client in s.caches && Signing(c).value <= s.caches[c.client])
    && (c.landed.Some? && Synchronised(c) ==> CacheReached(s, c))
  }

  predicate Choosing(c: Call) {
    c.pc.Top? || c.pc.Reserving? || (c.pc.Rpc? && c.pc.request.FetchNonce?)
  }

  /** After a rejection that named nonce r, every later attempt signs above r, in strict mode exactly r + 1. */
  ghost predicate Retrying(s: Shared, c: Call) {
    |c.rejections| > 0 ==>
          var last := c.rejections[|c.rejections| - 1].reported;
          if c.mode.Strict? then
            && (c.pc.Top? ==> c.base == last)
            && (last.Some? && Signing(c).Some? ==> Signing(c).value == last.value + 1)
            && (last.Some? ==> !(c.pc.Rpc? && c.pc.request.FetchNonce?))
          else
            && (last.Some? && Signing(c).Some? ==> Signing(c).value > last.value)
            && (last.Some? && Choosing(c) ==> c.client in s.caches && last.value <= s.caches[c.client])
  }

  ghost predicate CallOk(s: Shared, i: nat, c: Call) {
    PastOk(s, i, c) && History(s, c) && Locking(s, i, c) && Caching(s, c) && Retrying(s, c)
  }

  /** What joins the calls to the shared state. */
  ghost predicate Joined(w: World) {
    && (forall k :: 0 <= k < |w.shared.log| && w.shared.log[k].author.Ours? ==>
          && w.shared.log[k].author.call < |w.calls|
          && w.calls[w.shared.log[k].author.call].landed == Some(k))
    && (forall l :: l in w.shared.held ==>
          w.shared.held[l] < |w.calls| && w.calls[w.shared.held[l]].lock == Some(l))
  }

  ghost predicate Inv(w: World) {
    && Journal(w.shared)
    && Joined(w)
    && (forall i :: 0 <= i < |w.calls| ==> CallOk(w.shared, i, w.calls[i]))
  }

  // ---------- Preservation, one call at a time ----------

  lemma IncreasingSnoc(start: nat, log: seq<Landing>, landing: Landing)
    requires Increasing(start, log) && landing.nonce > ChainAt(start, log, |log|)
    ensures Increasing(start, log + [landing])
  {
    var log' := log + [landing];
    forall j, k | 0 <= j < k <= |log'| ensures ChainAt(start, log', j) < ChainAt(start, log', k) {
      assert ChainAt(start, log', j) == ChainAt(start, log, j) <= ChainAt(start, log, |log|);
      if k <= |log| {
        assert ChainAt(start, log', k) == ChainAt(start, log, k);
      }
    }
  }

  lemma PastExtends(i: nat, start: nat, log: seq<Landing>, log': seq<Landing>, startLog: nat, landed: Option<nat>, rejections: seq<Rejection>)
    requires Past(i, start, log, startLog, landed, rejections) && log <= log'
    ensures Past(i, start, log', startLog, landed, rejections)
  {
  }

  lemma PastLanded(i: nat, start: nat, log: seq<Landing>, nonce: nat, startLog: nat, rejections: seq<Rejection>)
    requires Past(i, start, log, startLog, None, rejections)
    ensures Past(i, start, log + [Landing(nonce, Ours(i))], startLog, Some(|log|), rejections)
  {
  }

  lemma PastRejected(i: nat, s: Shared, startLog: nat, rejections: seq<Rejection>, reported: Option<nat>)
    requires Past(i, s.start, s.log, startLog, None, rejections)
    requires s.chain == ChainAt(s.start, s.log, |s.log|)
    requires reported.Some? ==> reported.value == s.chain
    requires |rejections| > 0 && rejections[|rejections| - 1].reported.Some? ==> rejections[|rejections| - 1].at < |s.log|
    ensures Past(i, s.start, s.log, startLog, None, rejections + [Rejection(|s.log|, reported)])
  {
  }

  lemma GroundedUpdate(caches: map<nat, nat>, told: set<(nat, nat)>, client: nat, nonce: nat, known: nat)
    requires Grounded(caches, told) && (client, known) in told && known <= nonce
    ensures Grounded(caches[client := nonce], told)
  {
  }

  lemma GroundedTell(caches: map<nat, nat>, told: set<(nat, nat)>, t: (nat, nat))
    requires Grounded(caches, told)
    ensures Grounded(caches, told + {t})
  {
    forall c | c in caches ensures exists v :: v <= caches[c] && (c, v) in told + {t} {
      var v :| v <= caches[c] && (c, v) in told;
      assert (c, v) in told + {t};
    }
  }

  lemma GoJournal(s: Shared, i: nat, c: Call, uncovered: set<nat>)
    requires Journal(s) && History(s, c) && CanGo(s, c)
    ensures Journal(DoGo(s, i, c, uncovered).0)
  {
    var s' := DoGo(s, i, c, uncovered).0;
    match c.pc
    case Reserving(fetched) =>
      var known: nat;
      if fetched.Some? { known := fetched.value; }
      else { known :| known <= s.caches[c.client] && (c.client, known) in s.told; }
      GroundedUpdate(s.caches, s.told, c.client, s'.caches[c.client], known);
    case SyncRejected(reported) =>
      GroundedUpdate(s.caches, s.told, c.client, s'.caches[c.client], reported);
    case SyncLanded(nonce) =>
      GroundedUpdate(s.caches, s.told, c.client, s'.caches[c.client], nonce);
    case _ =>
  }

  lemma GoHistory(s: Shared, i: nat, c: Call, uncovered: set<nat>)
    requires PastOk(s, i, c) && History(s, c) && CanGo(s, c)
    ensures var (s', c') := DoGo(s, i, c, uncovered); PastOk(s', i, c') && History(s', c')
  {
  }

  lemma GoLocking(s: Shared, i: nat, c: Call, uncovered: set<nat>)
    requires History(s, c) && Locking(s, i, c) && CanGo(s, c)
    ensures var (s', c') := DoGo(s, i, c, uncovered); Locking(s', i, c')
  {
  }

  lemma GoCaching(s: Shared, i: nat, c: Call, uncovered: set<nat>)
    requires PastOk(s, i, c) && History(s, c) && Caching(s, c) && CanGo(s, c)
    ensures var (s', c') := DoGo(s, i, c, uncovered); History(s', c') && Caching(s', c')
  {
    GoHistory(s, i, c, uncovered);
  }

  lemma GoRetrying(s: Shared, i: nat, c: Call, uncovered: set<nat>)
    requires History(s, c) && Retrying(s, c) && CanGo(s, c)
    ensures var (s', c') := DoGo(s, i, c, uncovered); Retrying(s', c')
  {
  }

  lemma ProcessStep(s: Shared, i: nat, c: Call)
    requires Journal(s) && CallOk(s, i, c) && c.pc.Rpc?
    ensures Journal(Process(s, i, c).0) && CallOk(Process(s, i, c).0, i, Process(s, i, c).1)
    ensures Process(s, i, c).1 == c.(landed := Process(s, i, c).1.landed)
    ensures c.pc.request.SendTx? && Process(s, i, c).1.landed.None? ==>
              Process(s, i, c).0 == s && !Accepts(c.mode, s.chain, c.pc.request.nonce)
  {
    var (s', c') := Process(s, i, c);
    if s' != s {
      IncreasingSnoc(s.start, s.log, s'.log[|s.log|]);
      PastLanded(i, s.start, s.log, c.pc.request.nonce, c.startLog, c.rejections);
    }
  }

  /** A rejection after one that named nonce r: the log has grown, or the new nonce would have been accepted. */
  lemma RejectedStep(s: Shared, i: nat, c: Call, report: bool)
    requires Journal(s) && CallOk(s, i, c) && c.pc.Rpc? && c.pc.request.SendTx? && c.landed.None?
    requires !Accepts(c.mode, s.chain, c.pc.request.nonce)
    ensures CallOk(TakeVerdict(s, c, report).0, i, TakeVerdict(s, c, report).1)
  {
    var n := |c.rejections|;
    if n > 0 && c.rejections[n - 1].reported.Some? {
      var last := c.rejections[n - 1];
      assert last.reported.value == ChainAt(s.start, s.log, last.at) && last.at <= |s.log|;
      assert last.at < |s.log|;
    }
    PastRejected(i, s, c.startLog, c.rejections, if report then Some(s.chain) else None);
  }

  lemma BlockStep(s: Shared, i: nat, c: Call, v: nat)
    requires CallOk(s, i, c) && c.pc.Rpc? && c.pc.request.FetchBlock?
    ensures CallOk(TakeValue(s, c, v).0, i, TakeValue(s, c, v).1)
  {
  }

  lemma StrictFetchStep(s: Shared, i: nat, c: Call, v: nat)
    requires CallOk(s, i, c) && c.pc.Rpc? && c.pc.request.FetchNonce? && c.mode.Strict?
    ensures CallOk(TakeValue(s, c, v).0, i, TakeValue(s, c, v).1)
  {
  }

  lemma MonotonicFetchStep(s: Shared, i: nat, c: Call, v: nat)
    requires CallOk(s, i, c) && c.pc.Rpc? && c.pc.request.FetchNonce? && c.mode.Monotonic?
    ensures CallOk(TakeValue(s, c, v).0, i, TakeValue(s, c, v).1)
  {
  }

  lemma ValueStep(s: Shared, i: nat, c: Call, v: nat)
    requires Journal(s) && CallOk(s, i, c) && c.pc.Rpc? && !c.pc.request.SendTx?
    requires c.pc.request.FetchNonce? ==> v <= s.chain
    ensures Journal(TakeValue(s, c, v).0) && CallOk(TakeValue(s, c, v).0, i, TakeValue(s, c, v).1)
  {
    GroundedTell(s.caches, s.told, (c.client, v));
    if c.pc.request.FetchBlock? {
      BlockStep(s, i, c, v);
    } else if c.mode.Strict? {
      StrictFetchStep(s, i, c, v);
    } else {
      MonotonicFetchStep(s, i, c, v);
    }
  }

  lemma VerdictStep(s: Shared, i: nat, c: Call, report: bool)
    requires Journal(s) && CallOk(s, i, c) && c.pc.Rpc? && c.pc.request.SendTx?
    requires c.landed.None? ==> !Accepts(c.mode, s.chain, c.pc.request.nonce)
    ensures var (s', c') := TakeVerdict(s, c, report); Journal(s') && CallOk(s', i, c')
  {
    var (s', c') := TakeVerdict(s, c, report);
    if c.landed.Some? {
      var k := c.landed.value;
      assert s.log[k].nonce == ChainAt(s.start, s.log, k + 1) <= s.chain;
      GroundedTell(s.caches, s.told, (c.client, c.pc.request.nonce));
    } else {
      GroundedTell(s.caches, s.told, (c.client, s.chain));
      RejectedStep(s, i, c, report);
    }
  }

  lemma FailureStep(env: Env, s: Shared, i: nat, c: Call, retryable: bool)
    requires CallOk(s, i, c) && c.pc.Rpc?
    ensures CallOk(s, i, TakeFailure(env, c, retryable))
  {
  }

  lemma SettleStep(env: Env, s: Shared, i: nat, c: Call, reply: Reply)
    requires Journal(s) && CallOk(s, i, c) && CanPost(env, s, c, reply)
    requires reply.Handled? && c.landed.None? ==> !Accepts(c.mode, s.chain, c.pc.request.nonce)
    ensures Journal(Settle(env, s, c, reply).0)
    ensures CallOk(Settle(env, s, c, reply).0, i, Settle(env, s, c, reply).1)
  {
    match reply
    case Lost(_) => FailureStep(env, s, i, c, true);
    case Fatal(_) => FailureStep(env, s, i, c, false);
    case Value(v) => ValueStep(s, i, c, v);
    case Handled(report) => VerdictStep(s, i, c, report);
  }

  lemma ProcessedStep(env: Env, s: Shared, i: nat, c: Call, reply: Reply)
    requires Journal(s) && CallOk(s, i, c) && CanPost(env, s, c, reply) && !reply.Value?
    ensures var processed := Process(s, i, c);
            && CanPost(env, processed.0, processed.1, reply)
            && Journal(Settle(env, processed.0, processed.1, reply).0)
            && CallOk(Settle(env, processed.0, processed.1, reply).0, i, Settle(env, processed.0, processed.1, reply).1)
  {
    var processed := Process(s, i, c);
    ProcessStep(s, i, c);
    assert CanPost(env, processed.0, processed.1, reply);
    SettleStep(env, processed.0, i, processed.1, reply);
  }

  lemma PostStep(env: Env, s: Shared, i: nat, c: Call, reply: Reply)
    requires Journal(s) && CallOk(s, i, c) && CanPost(env, s, c, reply)
    ensures Journal(DoPost(env, s, i, c, reply).0)
    ensures CallOk(DoPost(env, s, i, c, reply).0, i, DoPost(env, s, i, c, reply).1)
  {
    if Processes(reply) {
      ProcessedStep(env, s, i, c, reply);
    } else {
      SettleStep(env, s, i, c, reply);
    }
  }

  /** Steps of others keep what is known of a call. */
  lemma Frame(s: Shared, s': Shared, j: nat, c: Call)
    requires CallOk(s, j, c) && Extends(s, s')
    requires c.lock.Some? ==> c.lock.value in s'.held && s'.held[c.lock.value] == j
    ensures CallOk(s', j, c)
  {
    PastExtends(j, s.start, s.log, s'.log, c.startLog, c.landed, c.rejections);
  }

  // ---------- Preservation, the world ----------

  lemma InitialInv(w: World)
    requires Initial(w)
    ensures Inv(w)
  {
  }

  /** A call's step writes at most its own landing to the log, and takes or frees at most its own lock. */
  ghost predicate Local(s: Shared, c: Call, s': Shared, c': Call, i: nat) {
    && ((s'.log == s.log && c'.landed == c.landed)
        || (|s'.log| == |s.log| + 1 && s'.log[..|s.log|] == s.log && s'.log[|s.log|].author == Ours(i)
            && c.landed.None? && c'.landed == Some(|s.log|)))
    && ((s'.held == s.held && c'.lock == c.lock)
        || (c.lock.None? && c'.lock.Some? && c'.lock.value !in s.held && s'.held == s.held[c'.lock.value := i])
        || (c'.lock.None? && s'.held == if c.lock.Some? then s.held - {c.lock.value} else s.held))
  }

  lemma GoLocal(s: Shared, i: nat, c: Call, uncovered: set<nat>)
    requires CanGo(s, c) && Locking(s, i, c)
    ensures Local(s, c, DoGo(s, i, c, uncovered).0, DoGo(s, i, c, uncovered).1, i)
  {
  }

  lemma PostLocal(env: Env, s: Shared, i: nat, c: Call, reply: Reply)
    requires CanPost(env, s, c, reply) && History(s, c)
    ensures Local(s, c, DoPost(env, s, i, c, reply).0, DoPost(env, s, i, c, reply).1, i)
  {
    assert Local(s, c, Process(s, i, c).0, Process(s, i, c).1, i);
  }

  lemma JoinedStep(w: World, i: nat, s': Shared, c': Call)
    requires Joined(w) && i < |w.calls| && CallOk(w.shared, i, w.calls[i])
    requires Local(w.shared, w.calls[i], s', c', i)
    ensures Joined(World(s', w.calls[i := c']))
    ensures forall l :: l in w.shared.held && w.shared.held[l] != i ==>
              l in s'.held && s'.held[l] == w.shared.held[l]
  {
  }

  lemma InvStep(env: Env, w: World, e: Event)
    requires Inv(w) && Enabled(env, w, e)
    ensures Inv(Apply(env, w, e))
  {
    var w' := Apply(env, w, e);
    if e.ForeignLand? {
      IncreasingSnoc(w.shared.start, w.shared.log, Landing(e.nonce, Foreign));
      assert Extends(w.shared, w'.shared);
    } else {
      var c := w.calls[e.call];
      assert CallOk(w.shared, e.call, c);
      StepExtends(env, w.shared, e.call, c, Uncovered(w.shared, w.calls), e);
      if e.Go? {
        GoJournal(w.shared, e.call, c, Uncovered(w.shared, w.calls));
        GoHistory(w.shared, e.call, c, Uncovered(w.shared, w.calls));
        GoLocking(w.shared, e.call, c, Uncovered(w.shared, w.calls));
        GoCaching(w.shared, e.call, c, Uncovered(w.shared, w.calls));
        GoRetrying(w.shared, e.call, c, Uncovered(w.shared, w.calls));
      } else {
        PostStep(env, w.shared, e.call, c, e.reply);
      }
      if e.Go? { GoLocal(w.shared, e.call, c, Uncovered(w.shared, w.calls)); } else { PostLocal(env, w.shared, e.call, c, e.reply); }
      JoinedStep(w, e.call, w'.shared, w'.calls[e.call]);
    }
    forall j | 0 <= j < |w'.calls| ensures CallOk(w'.shared, j, w'.calls[j]) {
      assert CallOk(w.shared, j, w.calls[j]);
      if e.ForeignLand? || e.call != j {
        Frame(w.shared, w'.shared, j, w.calls[j]);
      }
    }
  }

  lemma {:induction false} InvAfter(env: Env, w: World, events: seq<Event>)
    requires Inv(w) && Runs(env, w, events)
    ensures Inv(After(env, w, events))
    decreases |events|
  {
    if events != [] {
      InvStep(env, w, events[0]);
      InvAfter(env, Apply(env, w, events[0]), events[1..]);
    }
  }

  lemma ReachableInv(env: Env, w: World)
    requires Reachable(env, w)
    ensures Inv(w)
  {
    var w0, events :| Initial(w0) && Runs(env, w0, events) && After(env, w0, events) == w;
    InitialInv(w0);
    InvAfter(env, w0, events);
  }

  // ---------- Longer runs ----------

  lemma {:induction false} RunsSnoc(env: Env, w: World, events: seq<Event>, e: Event)
    requires Runs(env, w, events) && Enabled(env, After(env, w, events), e)
    ensures Runs(env, w, events + [e])
    ensures After(env, w, events + [e]) == Apply(env, After(env, w, events), e)
    decreases |events|
  {
    if events == [] {
      assert [e][1..] == [];
      assert [] + [e] == [e];
      assert Runs(env, Apply(env, w, e), [e][1..]);
    } else {
      RunsSnoc(env, Apply(env, w, events[0]), events[1..], e);
      assert (events + [e])[1..] == events[1..] + [e];
    }
  }

  /** The events lead from w to x. */
  ghost predicate Leads(env: Env, w: World, events: seq<Event>, x: World) {
    Runs(env, w, events) && After(env, w, events) == x
  }

  lemma Follow(env: Env, w: World, events: seq<Event>, x: World, e: Event) returns (longer: seq<Event>, x': World)
    requires Leads(env, w, events, x) && Enabled(env, x, e)
    ensures x' == Apply(env, x, e) && longer == events + [e] && Leads(env, w, longer, x')
  {
    x' := Apply(env, x, e);
    longer := events + [e];
    RunsSnoc(env, w, events, e);
  }

  lemma Advance(env: Env, w: World, e: Event) returns (w': World)
    requires Reachable(env, w) && Enabled(env, w, e)
    ensures w' == Apply(env, w, e) && Reachable(env, w')
  {
    w' := Apply(env, w, e);
    var w0, events :| Initial(w0) && Runs(env, w0, events) && After(env, w0, events) == w;
    RunsSnoc(env, w0, events, e);
  }
}
