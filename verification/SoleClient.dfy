/**
One client is the only writer of the key: what a monotonic send that is
rejected says about the other sends of that client.
*/
module SoleClient {
  import opened Wrappers
  import opened World
  import opened Invariants

  /** Every call belongs to one client, and nobody else writes the key. */
  ghost predicate Sole(env: Env, w: World, client: nat) {
    env.soleWriter && forall i :: 0 <= i < |w.calls| ==> w.calls[i].client == client
  }

  predicate AllMonotonic(calls: seq<Call>) {
    forall i :: 0 <= i < |calls| ==> calls[i].mode.Monotonic?
  }

  /** Retries learn where the chain is, or there is no strict send that could land behind the cache's back. */
  ghost predicate Informed(env: Env, w: World) {
    Guided(env) || AllMonotonic(w.calls)
  }

  /** The landing was already uncovered by the cache when the call started, or came later. */
  ghost predicate InTheWay(startLog: nat, pending: set<nat>, k: nat, author: Author) {
    author.Ours? && (k >= startLog || author.call in pending)
  }

  /**
   The nonces a call reserves are above the starting nonce: reads are
   anchored, or something had landed and was in the cache when it started.
   */
  ghost predicate Anchored(env: Env, startLog: nat, pending: set<nat>) {
    env.anchored || (startLog > 0 && pending == {})
  }

  ghost predicate OursOnly(log: seq<Landing>) {
    forall k :: 0 <= k < |log| ==> log[k].author.Ours?
  }

  /** The cache, once it holds the key, holds at least the starting nonce when reads are anchored. */
  ghost predicate Floor(env: Env, s: Shared, client: nat) {
    env.anchored && client in s.caches ==> s.start <= s.caches[client]
  }

  /** Every landing not in the call's way is below the bound. */
  ghost predicate Clear(log: seq<Landing>, startLog: nat, pending: set<nat>, bound: nat) {
    forall k :: 0 <= k < |log| && !InTheWay(startLog, pending, k, log[k].author) ==> log[k].nonce < bound
  }

  /** The cache covers every landing not in the call's way. */
  ghost predicate Covers(log: seq<Landing>, startLog: nat, pending: set<nat>, cached: Option<nat>) {
    Clear(log, startLog, pending, if cached.Some? then cached.value + 1 else 0)
  }

  ghost predicate SignsClear(env: Env, start: nat, log: seq<Landing>, startLog: nat, pending: set<nat>, nonce: nat) {
    && Clear(log, startLog, pending, nonce)
    && (Anchored(env, startLog, pending) ==> start < nonce)
  }

  /** The last landing before the call's first rejection was in its way. */
  ghost predicate Blocked(env: Env, log: seq<Landing>, startLog: nat, pending: set<nat>, rejections: seq<Rejection>) {
    |rejections| > 0 && Anchored(env, startLog, pending) ==>
      var at := rejections[0].at;
      0 < at <= |log| && InTheWay(startLog, pending, at - 1, log[at - 1].author)
  }

  /** What holds of a monotonic call that has started. */
  ghost predicate Mono(env: Env, s: Shared, c: Call) {
    && Covers(s.log, c.startLog, c.pending, Cached(s, c.client))
    && (c.pc.Reserving? && c.pc.fetched.Some? && env.anchored ==> c.client in s.caches || s.start <= c.pc.fetched.value)
    && (Signing(c).Some? ==> SignsClear(env, s.start, s.log, c.startLog, c.pending, Signing(c).value))
    && Blocked(env, s.log, c.startLog, c.pending, c.rejections)
  }

  ghost predicate SoleOk(env: Env, s: Shared, c: Call) {
    && (c.mode.Monotonic? && !c.pc.Idle? ==> Mono(env, s, c))
    && (env.reports ==> AllReported(c.rejections))
  }

  ghost predicate SoleInv(env: Env, w: World, client: nat) {
    && Inv(w) && Sole(env, w, client)
    && OursOnly(w.shared.log)
    && Floor(env, w.shared, client)
    && forall i :: 0 <= i < |w.calls| ==> SoleOk(env, w.shared, w.calls[i])
  }

  // ---------- Preservation ----------

  /** The cache has reached a landing's nonce unless its call is strict and has not synced. */
  lemma ReachedUnlessUnsynced(env: Env, w: World, client: nat, k: nat)
    requires SoleInv(env, w, client) && k < |w.shared.log|
    ensures w.shared.log[k].author.Ours? && w.shared.log[k].author.call < |w.calls|
    ensures var c := w.calls[w.shared.log[k].author.call];
            && c.client == client && c.landed == Some(k)
            && (Synchronised(c) ==> client in w.shared.caches && w.shared.log[k].nonce <= w.shared.caches[client])
  {
    var b := w.shared.log[k].author.call;
    assert CallOk(w.shared, b, w.calls[b]);
  }

  lemma StartSole(env: Env, w: World, client: nat, i: nat)
    requires SoleInv(env, w, client) && i < |w.calls| && w.calls[i].pc.Idle?
    ensures SoleOk(env, w.shared, DoGo(w.shared, i, w.calls[i], Uncovered(w.shared, w.calls)).1)
  {
    var c := w.calls[i];
    assert CallOk(w.shared, i, c);
    forall k | 0 <= k < |w.shared.log| && !InTheWay(|w.shared.log|, Uncovered(w.shared, w.calls), k, w.shared.log[k].author)
      ensures client in w.shared.caches && w.shared.log[k].nonce <= w.shared.caches[client]
    {
      ReachedUnlessUnsynced(env, w, client, k);
    }
  }

  lemma ClearAbove(log: seq<Landing>, startLog: nat, pending: set<nat>, low: nat, high: nat)
    requires Clear(log, startLog, pending, low) && low <= high
    ensures Clear(log, startLog, pending, high)
  {
  }

  /** A fresh reservation is above every landing not in the call's way, and above the starting nonce. */
  lemma ReserveSole(env: Env, s: Shared, c: Call, cached: Option<nat>, fetched: Option<nat>)
    requires Covers(s.log, c.startLog, c.pending, cached)
    requires env.anchored ==> (cached.Some? && s.start <= cached.value) || (fetched.Some? && s.start <= fetched.value)
    requires Increasing(s.start, s.log) && c.startLog <= |s.log| && OursOnly(s.log)
    ensures SignsClear(env, s.start, s.log, c.startLog, c.pending, NextNonce(cached, fetched))
    ensures Covers(s.log, c.startLog, c.pending, Some(NextNonce(cached, fetched)))
  {
    var nonce := NextNonce(cached, fetched);
    ClearAbove(s.log, c.startLog, c.pending, if cached.Some? then cached.value + 1 else 0, nonce);
    ClearAbove(s.log, c.startLog, c.pending, nonce, nonce + 1);
    if c.startLog > 0 && c.pending == {} {
      var k := c.startLog - 1;
      assert !InTheWay(c.startLog, c.pending, k, s.log[k].author);
      assert ChainAt(s.start, s.log, 0) < ChainAt(s.start, s.log, k + 1);
    }
  }

  lemma SyncSole(s: Shared, c: Call, cached: Option<nat>, nonce: nat)
    requires Covers(s.log, c.startLog, c.pending, cached)
    ensures Covers(s.log, c.startLog, c.pending, Some(Synced(cached, nonce)))
  {
    ClearAbove(s.log, c.startLog, c.pending, if cached.Some? then cached.value + 1 else 0, Synced(cached, nonce) + 1);
  }

  lemma GoSoleUncached(env: Env, s: Shared, i: nat, c: Call, uncovered: set<nat>)
    requires CallOk(s, i, c) && SoleOk(env, s, c) && CanGo(s, c) && !c.pc.Idle?
    requires !c.pc.Reserving? && !c.pc.SyncRejected? && !c.pc.SyncLanded?
    ensures SoleOk(env, DoGo(s, i, c, uncovered).0, DoGo(s, i, c, uncovered).1)
  {
  }

  lemma GoSoleReserving(env: Env, s: Shared, i: nat, c: Call, uncovered: set<nat>)
    requires Journal(s) && CallOk(s, i, c) && SoleOk(env, s, c) && c.pc.Reserving?
    requires Floor(env, s, c.client) && OursOnly(s.log)
    ensures SoleOk(env, DoGo(s, i, c, uncovered).0, DoGo(s, i, c, uncovered).1)
  {
    ReserveSole(env, s, c, Cached(s, c.client), c.pc.fetched);
  }

  lemma GoSoleSyncing(env: Env, s: Shared, i: nat, c: Call, uncovered: set<nat>)
    requires CallOk(s, i, c) && SoleOk(env, s, c) && (c.pc.SyncRejected? || c.pc.SyncLanded?)
    ensures SoleOk(env, DoGo(s, i, c, uncovered).0, DoGo(s, i, c, uncovered).1)
  {
    if c.mode.Monotonic? {
      SyncSole(s, c, Cached(s, c.client), if c.pc.SyncLanded? then c.pc.nonce else c.pc.reported);
    }
  }

  lemma GoSole(env: Env, s: Shared, i: nat, c: Call, uncovered: set<nat>)
    requires Journal(s) && CallOk(s, i, c) && SoleOk(env, s, c) && CanGo(s, c) && !c.pc.Idle?
    requires Floor(env, s, c.client) && OursOnly(s.log)
    ensures SoleOk(env, DoGo(s, i, c, uncovered).0, DoGo(s, i, c, uncovered).1)
  {
    if c.pc.Reserving? {
      GoSoleReserving(env, s, i, c, uncovered);
    } else if c.pc.SyncRejected? || c.pc.SyncLanded? {
      GoSoleSyncing(env, s, i, c, uncovered);
    } else {
      GoSoleUncached(env, s, i, c, uncovered);
    }
  }

  lemma GoFloor(env: Env, s: Shared, i: nat, c: Call, uncovered: set<nat>)
    requires Journal(s) && CallOk(s, i, c) && SoleOk(env, s, c) && CanGo(s, c)
    requires Floor(env, s, c.client)
    ensures Floor(env, DoGo(s, i, c, uncovered).0, c.client)
  {
    if c.pc.SyncRejected? {
      var at := c.rejections[c.attempt].at;
      assert c.pc.reported == ChainAt(s.start, s.log, at) && s.start <= c.pc.reported;
    } else if c.pc.SyncLanded? {
      assert ChainAt(s.start, s.log, 0) < ChainAt(s.start, s.log, c.landed.value + 1) == c.pc.nonce;
    }
  }

  // ---------- POSTs ----------

  /** The log extended by landings of our own keeps what is known of a monotonic call. */
  lemma MonoFrame(env: Env, s: Shared, s': Shared, c: Call)
    requires Mono(env, s, c) && Extends(s, s') && c.startLog <= |s.log|
    requires OursOnly(s'.log)
    ensures Mono(env, s', c)
  {
    forall bound: nat | Clear(s.log, c.startLog, c.pending, bound) ensures Clear(s'.log, c.startLog, c.pending, bound) {
      forall k | 0 <= k < |s'.log| && !InTheWay(c.startLog, c.pending, k, s'.log[k].author)
        ensures s'.log[k].nonce < bound
      {
        assert k < |s.log| && s'.log[k] == s.log[k];
      }
    }
    if c.client in s'.caches {
      ClearAbove(s'.log, c.startLog, c.pending,
                 if c.client in s.caches then s.caches[c.client] + 1 else 0, s'.caches[c.client] + 1);
    }
  }

  /** The last landing before a first rejection was in the way, since the nonce was clear of all others. */
  lemma RejectedSole(env: Env, s: Shared, i: nat, c: Call)
    requires Journal(s) && CallOk(s, i, c) && Mono(env, s, c) && OursOnly(s.log)
    requires c.mode.Monotonic? && Signing(c).Some? && c.landed.None? && s.chain >= Signing(c).value
    requires |c.rejections| == 0 && Anchored(env, c.startLog, c.pending)
    ensures |s.log| > 0 && InTheWay(c.startLog, c.pending, |s.log| - 1, s.log[|s.log| - 1].author)
  {
    assert s.log != [];
  }

  lemma VerdictSole(env: Env, s: Shared, i: nat, c: Call, report: bool)
    requires Journal(s) && CallOk(s, i, c) && SoleOk(env, s, c) && OursOnly(s.log)
    requires c.pc.Rpc? && c.pc.request.SendTx? && (env.reports ==> report)
    requires c.landed.None? ==> !Accepts(c.mode, s.chain, c.pc.request.nonce)
    ensures SoleOk(env, TakeVerdict(s, c, report).0, TakeVerdict(s, c, report).1)
  {
    if c.mode.Monotonic? && c.landed.None? && |c.rejections| == 0 && Anchored(env, c.startLog, c.pending) {
      RejectedSole(env, s, i, c);
    }
  }

  lemma ValueSole(env: Env, s: Shared, i: nat, c: Call, v: nat)
    requires CallOk(s, i, c) && SoleOk(env, s, c) && CanPost(env, s, c, Value(v))
    ensures SoleOk(env, TakeValue(s, c, v).0, TakeValue(s, c, v).1)
  {
  }

  lemma FailureSole(env: Env, s: Shared, c: Call, retryable: bool)
    requires SoleOk(env, s, c) && c.pc.Rpc?
    ensures SoleOk(env, s, TakeFailure(env, c, retryable))
  {
  }

  lemma SettleSole(env: Env, s: Shared, i: nat, c: Call, reply: Reply)
    requires Journal(s) && CallOk(s, i, c) && SoleOk(env, s, c) && OursOnly(s.log)
    requires CanPost(env, s, c, reply)
    requires reply.Handled? && c.landed.None? ==> !Accepts(c.mode, s.chain, c.pc.request.nonce)
    ensures SoleOk(env, Settle(env, s, c, reply).0, Settle(env, s, c, reply).1)
    ensures Settle(env, s, c, reply).0.log == s.log && Settle(env, s, c, reply).0.caches == s.caches
    ensures Settle(env, s, c, reply).0.start == s.start
  {
    match reply
    case Lost(_) => FailureSole(env, s, c, true);
    case Fatal(_) => FailureSole(env, s, c, false);
    case Value(v) => ValueSole(env, s, i, c, v);
    case Handled(report) => VerdictSole(env, s, i, c, report);
  }

  lemma ProcessSole(env: Env, s: Shared, i: nat, c: Call)
    requires CallOk(s, i, c) && SoleOk(env, s, c) && OursOnly(s.log) && c.pc.Rpc?
    ensures SoleOk(env, Process(s, i, c).0, Process(s, i, c).1) && OursOnly(Process(s, i, c).0.log)
  {
    ProcessExtends(s, i, c);
    if c.mode.Monotonic? {
      MonoFrame(env, s, Process(s, i, c).0, c);
    }
  }

  lemma PostSole(env: Env, s: Shared, i: nat, c: Call, reply: Reply)
    requires Journal(s) && CallOk(s, i, c) && SoleOk(env, s, c) && OursOnly(s.log) && Floor(env, s, c.client)
    requires CanPost(env, s, c, reply)
    ensures SoleOk(env, DoPost(env, s, i, c, reply).0, DoPost(env, s, i, c, reply).1)
    ensures OursOnly(DoPost(env, s, i, c, reply).0.log) && Floor(env, DoPost(env, s, i, c, reply).0, c.client)
  {
    if Processes(reply) {
      ProcessSole(env, s, i, c);
      ProcessStep(s, i, c);
      SettleSole(env, Process(s, i, c).0, i, Process(s, i, c).1, reply);
    } else {
      SettleSole(env, s, i, c, reply);
    }
  }

  lemma OwnSole(env: Env, w: World, client: nat, e: Event)
    requires SoleInv(env, w, client) && Enabled(env, w, e)
    ensures !e.ForeignLand?
    ensures var (s', c') := DoStep(env, w.shared, e.call, w.calls[e.call], Uncovered(w.shared, w.calls), e);
            SoleOk(env, s', c') && OursOnly(s'.log) && Floor(env, s', client)
  {
    var (s, i, c) := (w.shared, e.call, w.calls[e.call]);
    assert CallOk(s, i, c) && SoleOk(env, s, c);
    if e.Post? {
      PostSole(env, s, i, c, e.reply);
    } else {
      GoFloor(env, s, i, c, Uncovered(w.shared, w.calls));
      StepExtends(env, s, i, c, Uncovered(w.shared, w.calls), e);
      if c.pc.Idle? { StartSole(env, w, client, i); } else { GoSole(env, s, i, c, Uncovered(w.shared, w.calls)); }
    }
  }

  lemma OtherSole(env: Env, w: World, client: nat, s': Shared, j: nat)
    requires SoleInv(env, w, client) && Extends(w.shared, s') && OursOnly(s'.log) && j < |w.calls|
    ensures SoleOk(env, s', w.calls[j])
  {
    assert CallOk(w.shared, j, w.calls[j]) && SoleOk(env, w.shared, w.calls[j]);
    if w.calls[j].mode.Monotonic? && !w.calls[j].pc.Idle? {
      MonoFrame(env, w.shared, s', w.calls[j]);
    }
  }

  lemma SoleStep(env: Env, w: World, client: nat, e: Event)
    requires SoleInv(env, w, client) && Enabled(env, w, e)
    ensures SoleInv(env, Apply(env, w, e), client)
  {
    var w' := Apply(env, w, e);
    InvStep(env, w, e);
    OwnSole(env, w, client, e);
    StepExtends(env, w.shared, e.call, w.calls[e.call], Uncovered(w.shared, w.calls), e);
    forall j | 0 <= j < |w'.calls| && j != e.call ensures SoleOk(env, w'.shared, w'.calls[j]) {
      OtherSole(env, w, client, w'.shared, j);
    }
  }

  lemma {:induction false} SoleAfter(env: Env, w: World, client: nat, events: seq<Event>)
    requires SoleInv(env, w, client) && Runs(env, w, events)
    ensures SoleInv(env, After(env, w, events), client)
    decreases |events|
  {
    if events != [] {
      SoleStep(env, w, client, events[0]);
      SoleAfter(env, Apply(env, w, events[0]), client, events[1..]);
    }
  }

  lemma {:induction false} SameOwners(env: Env, w: World, events: seq<Event>)
    requires Runs(env, w, events)
    ensures |After(env, w, events).calls| == |w.calls|
    ensures forall i :: 0 <= i < |w.calls| ==>
              && After(env, w, events).calls[i].client == w.calls[i].client
              && After(env, w, events).calls[i].mode == w.calls[i].mode
    decreases |events|
  {
    if events != [] {
      var e := events[0];
      if !e.ForeignLand? {
        StepExtends(env, w.shared, e.call, w.calls[e.call], Uncovered(w.shared, w.calls), e);
      }
      SameOwners(env, Apply(env, w, e), events[1..]);
    }
  }

  lemma ReachableSole(env: Env, w: World, client: nat)
    requires Reachable(env, w) && Sole(env, w, client)
    ensures SoleInv(env, w, client)
  {
    var w0, events :| Initial(w0) && Runs(env, w0, events) && After(env, w0, events) == w;
    SameOwners(env, w0, events);
    InitialInv(w0);
    SoleAfter(env, w0, client, events);
  }
}
