/**
Sends one after another. At a quiet point the cache is level with the chain
unless a strict send ended in a transport error after its transaction landed,
on a nonce the cache has not reached; and a monotonic send that then runs
alone lands on its first attempt.
*/
module Sequential {
  import opened Wrappers
  import opened World
  import opened Invariants
  import opened SoleClient
  import opened Contention

  /** No call is between its start and its end. */
  ghost predicate Quiet(w: World) {
    forall i :: 0 <= i < |w.calls| ==> w.calls[i].pc.Idle? || w.calls[i].pc.Done?
  }

  /** The cache is not behind the chain. */
  ghost predicate Level(s: Shared, client: nat) {
    client in s.caches && s.chain <= s.caches[client]
  }

  /** A strict send that ended in an error other than InvalidNonceError. */
  predicate StrictFailure(c: Call) {
    c.mode.Strict? && c.pc == Done(Failed)
  }

  /** Such a send whose transaction landed all the same, on a nonce the cache has not reached. */
  ghost predicate Stranded(w: World, b: nat) {
    b < |w.calls| && StrictFailure(w.calls[b]) && w.calls[b].landed.Some? && !CacheReached(w.shared, w.calls[b])
  }

  /** A cache level with the chain has reached every landing. */
  lemma LevelCoversAll(env: Env, w: World, client: nat)
    requires Reachable(env, w) && Sole(env, w, client) && Level(w.shared, client)
    ensures Uncovered(w.shared, w.calls) == {}
  {
    ReachableInv(env, w);
    var (start, log) := (w.shared.start, w.shared.log);
    forall i | 0 <= i < |w.calls| && w.calls[i].landed.Some? ensures CacheReached(w.shared, w.calls[i]) {
      assert CallOk(w.shared, i, w.calls[i]);
      var k := w.calls[i].landed.value;
      assert log[k].nonce == ChainAt(start, log, k + 1) <= w.shared.chain;
    }
  }

  /** The call that landed last, at a quiet point: the cache has reached its nonce, or it is stranded. */
  lemma LastLanding(env: Env, w: World, client: nat)
    requires Reachable(env, w) && Sole(env, w, client) && Quiet(w) && w.shared.log != []
    ensures Level(w.shared, client) || exists b :: Stranded(w, b)
  {
    ReachableSole(env, w, client);
    var k := |w.shared.log| - 1;
    ReachedUnlessUnsynced(env, w, client, k);
    var b := w.shared.log[k].author.call;
    assert CallOk(w.shared, b, w.calls[b]);
    assert w.shared.chain == w.shared.log[k].nonce;
    if !CacheReached(w.shared, w.calls[b]) {
      assert Stranded(w, b);
    }
  }

  /**
   At a quiet point after something landed, in any mix of modes, the cache is
   level with the chain exactly when no strict send is stranded.
   */
  lemma QuietCacheIsLevel(env: Env, w: World, client: nat)
    requires Reachable(env, w) && Sole(env, w, client) && Quiet(w) && w.shared.log != []
    ensures Level(w.shared, client) <==> !exists b :: Stranded(w, b)
  {
    LastLanding(env, w, client);
    if Level(w.shared, client) {
      LevelCoversAll(env, w, client);
      forall b | 0 <= b < |w.calls| ensures !Stranded(w, b) {
        assert b !in Uncovered(w.shared, w.calls);
      }
    }
  }

  // ---------- A send on its own ----------

  /** The events are steps of call i. */
  ghost predicate OnlyCall(events: seq<Event>, i: nat) {
    forall n :: 0 <= n < |events| ==> !events[n].ForeignLand? && events[n].call == i
  }

  /** The call started with nothing unknown to the cache, and whatever landed since is its own. */
  ghost predicate Alone(s: Shared, i: nat, c: Call, startLog: nat) {
    && !c.pc.Idle? && c.startLog == startLog && c.pending == {}
    && forall k :: startLog <= k < |s.log| ==> s.log[k].author == Ours(i)
  }

  lemma StepAlone(env: Env, s: Shared, i: nat, c: Call, uncovered: set<nat>, e: Event, startLog: nat)
    requires CanStep(env, s, c, e) && Alone(s, i, c, startLog)
    ensures var (s', c') := DoStep(env, s, i, c, uncovered, e); Alone(s', i, c', startLog)
  {
  }

  lemma {:induction false} AloneAfter(env: Env, w: World, events: seq<Event>, i: nat, startLog: nat)
    requires Runs(env, w, events) && OnlyCall(events, i)
    requires i < |w.calls| && Alone(w.shared, i, w.calls[i], startLog)
    ensures var w' := After(env, w, events); i < |w'.calls| && Alone(w'.shared, i, w'.calls[i], startLog)
    decreases |events|
  {
    if events != [] {
      StepAlone(env, w.shared, i, w.calls[i], Uncovered(w.shared, w.calls), events[0], startLog);
      AloneAfter(env, Apply(env, w, events[0]), events[1..], i, startLog);
    }
  }

  lemma {:induction false} ReachableAfter(env: Env, w: World, events: seq<Event>)
    requires Reachable(env, w) && Runs(env, w, events)
    ensures Reachable(env, After(env, w, events))
    decreases |events|
  {
    if events != [] {
      var w' := Advance(env, w, events[0]);
      ReachableAfter(env, w', events[1..]);
    }
  }

  /** The send is not rejected: it is on its first attempt, and ends by landing unless the transport fails. */
  ghost predicate FirstTime(w: World, i: nat) {
    && i < |w.calls| && w.calls[i].rejections == [] && w.calls[i].attempt == 0
    && (w.calls[i].pc.Done? ==> w.calls[i].pc == Done(Landed) || w.calls[i].pc == Done(Failed))
  }

  lemma UnrejectedIsFirstTime(env: Env, w: World, i: nat)
    requires Reachable(env, w) && i < |w.calls| && w.calls[i].rejections == []
    ensures FirstTime(w, i)
  {
    ReachableInv(env, w);
    assert CallOk(w.shared, i, w.calls[i]);
  }

  /** From a level cache, a monotonic send that runs on its own lands the first time. */
  lemma AloneLandsFirst(env: Env, w: World, client: nat, events: seq<Event>, i: nat)
    requires Reachable(env, w) && Sole(env, w, client) && Level(w.shared, client) && w.shared.log != []
    requires i < |w.calls| && w.calls[i].mode.Monotonic? && w.calls[i].pc.Idle?
    requires Runs(env, w, events) && OnlyCall(events, i)
    ensures FirstTime(After(env, w, events), i)
  {
    ReachableInv(env, w);
    assert CallOk(w.shared, i, w.calls[i]);
    if events != [] {
      LevelCoversAll(env, w, client);
      var w1 := Apply(env, w, events[0]);
      var w' := After(env, w, events);
      assert Alone(w1.shared, i, w1.calls[i], |w.shared.log|);
      AloneAfter(env, w1, events[1..], i, |w.shared.log|);
      ReachableAfter(env, w, events);
      SameOwners(env, w, events);
      UnovertakenLandsFirst(env, w', client, i);
      UnrejectedIsFirstTime(env, w', i);
    }
  }

  /**
   Some send returned that began after the call's transaction had landed, if it
   did; so in particular one that began after the call had ended.
   */
  ghost predicate Recovered(w: World, b: nat)
    requires b < |w.calls|
  {
    exists c :: 0 <= c < |w.calls| && w.calls[c].pc == Done(Landed)
                && (w.calls[b].landed.Some? ==> w.calls[b].landed.value < w.calls[c].startLog)
  }

  /** The later send took its nonce past the strict one's, and told the cache. */
  lemma RecoveredNotStranded(env: Env, w: World, client: nat, b: nat)
    requires Reachable(env, w) && Sole(env, w, client) && b < |w.calls| && Recovered(w, b)
    ensures !Stranded(w, b)
  {
    ReachableInv(env, w);
    var c :| 0 <= c < |w.calls| && w.calls[c].pc == Done(Landed)
             && (w.calls[b].landed.Some? ==> w.calls[b].landed.value < w.calls[c].startLog);
    assert CallOk(w.shared, b, w.calls[b]) && CallOk(w.shared, c, w.calls[c]);
    if w.calls[b].landed.Some? {
      var (j, k) := (w.calls[b].landed.value, w.calls[c].landed.value);
      assert ChainAt(w.shared.start, w.shared.log, j + 1) < ChainAt(w.shared.start, w.shared.log, k + 1);
    }
  }

  /**
   So once something has landed, a monotonic send that starts at a quiet point
   and runs on its own lands the first time, as long as no strict send of the
   client on this key ended in a transport error, or since every such one some
   later send has returned.
   */
  lemma SequentialSendsLandFirst(env: Env, w: World, client: nat, events: seq<Event>, i: nat)
    requires Reachable(env, w) && Sole(env, w, client) && Quiet(w) && w.shared.log != []
    requires forall b :: 0 <= b < |w.calls| && StrictFailure(w.calls[b]) ==> Recovered(w, b)
    requires i < |w.calls| && w.calls[i].mode.Monotonic? && w.calls[i].pc.Idle?
    requires Runs(env, w, events) && OnlyCall(events, i)
    ensures FirstTime(After(env, w, events), i)
  {
    forall b | 0 <= b < |w.calls| && StrictFailure(w.calls[b]) ensures !Stranded(w, b) {
      RecoveredNotStranded(env, w, client, b);
    }
    QuietCacheIsLevel(env, w, client);
    AloneLandsFirst(env, w, client, events, i);
  }

  // ---------- A send from a cache that is behind ----------

  /** The next monotonic send reserves a nonce that has landed before, and is about to send it. */
  lemma BehindSigns(env: Env, w: World, client: nat, i: nat) returns (events: seq<Event>, x: World)
    requires i < |w.calls| && w.calls[i] == FreshCall(client, Monotonic)
    requires client in w.shared.caches && !Level(w.shared, client)
    ensures Leads(env, w, events, x) && OnlyCall(events, i) && |events| > 0 && events[0] == Go(i)
    ensures |x.calls| == |w.calls| && forall j :: 0 <= j < |w.calls| && j != i ==> x.calls[j] == w.calls[j]
    ensures x.shared == w.shared.(caches := x.shared.caches) && client in x.shared.caches
    ensures var nonce := w.shared.caches[client] + 1;
            && nonce <= x.shared.chain
            && x.calls[i].(posts := 0, pending := {}) ==
               FreshCall(client, Monotonic).(pc := Rpc(SendTx(nonce), 0), startLog := |w.shared.log|)
  {
    events, x := Follow(env, w, [], w, Go(i));
    events, x := Follow(env, w, events, x, Go(i));
    events, x := Follow(env, w, events, x, Go(i));
    events, x := Follow(env, w, events, x, Post(i, Value(0)));
  }

  lemma BehindIsRejected(env: Env, w: World, client: nat, i: nat) returns (events: seq<Event>)
    requires i < |w.calls| && w.calls[i] == FreshCall(client, Monotonic)
    requires client in w.shared.caches && !Level(w.shared, client)
    ensures Runs(env, w, events) && OnlyCall(events, i)
    ensures i < |After(env, w, events).calls| && After(env, w, events).calls[i].rejections != []
  {
    var x;
    events, x := BehindSigns(env, w, client, i);
    events, x := Follow(env, w, events, x, Post(i, Handled(true)));
  }

  /** Once the key is cached, a monotonic send is sure to land first time on its own exactly from a level cache. */
  lemma LevelMeansLandsFirst(env: Env, w: World, client: nat, i: nat)
    requires Reachable(env, w) && Sole(env, w, client) && client in w.shared.caches && w.shared.log != []
    requires i < |w.calls| && w.calls[i].mode.Monotonic? && w.calls[i].pc.Idle?
    ensures Level(w.shared, client) <==>
            forall events :: Runs(env, w, events) && OnlyCall(events, i) ==> FirstTime(After(env, w, events), i)
  {
    if Level(w.shared, client) {
      forall events | Runs(env, w, events) && OnlyCall(events, i) ensures FirstTime(After(env, w, events), i) {
        AloneLandsFirst(env, w, client, events, i);
      }
    } else {
      ReachableInv(env, w);
      assert CallOk(w.shared, i, w.calls[i]);
      var events := BehindIsRejected(env, w, client, i);
      assert !FirstTime(After(env, w, events), i);
    }
  }

  // ---------- A strict send that fails after landing ----------

  /** Only call b moved. */
  ghost predicate Moved(w: World, w': World, b: nat) {
    && |w'.calls| == |w.calls| && b < |w.calls|
    && w'.calls[b].client == w.calls[b].client && w'.calls[b].mode == w.calls[b].mode
    && (forall j :: 0 <= j < |w.calls| && j != b ==> w'.calls[j] == w.calls[j])
  }

  function Three(): seq<Call> {
    [FreshCall(0, Monotonic), FreshCall(0, Monotonic), FreshCall(0, Monotonic)]
  }

  lemma Start(env: Env) returns (w: World)
    ensures Reachable(env, w) && w.shared == Shared(0, 0, [], map[], map[], map[], {})
    ensures w.calls == [FreshCall(0, Monotonic), FreshCall(0, Strict)] + Three()
  {
    w := World(Shared(0, 0, [], map[], map[], map[], {}),
               [FreshCall(0, Monotonic), FreshCall(0, Strict)] + Three());
    assert Initial(w) && Runs(env, w, []) && After(env, w, []) == w;
  }

  /** A monotonic send lands on nonce 1. */
  lemma FirstLands(env: Env, w: World) returns (w': World)
    requires Reachable(env, w) && w.shared == Shared(0, 0, [], map[], map[], map[], {})
    requires |w.calls| == 5 && w.calls[0] == FreshCall(0, Monotonic)
    ensures Reachable(env, w') && Moved(w, w', 0) && w'.calls[0].pc == Done(Landed)
    ensures w'.shared.chain == 1 && w'.shared.start == 0 && w'.shared.caches == map[0 := 1]
    ensures w'.shared.locks == map[] && w'.shared.held == map[] && |w'.shared.log| == 1
  {
    w' := Advance(env, w, Go(0));
    w' := Advance(env, w', Go(0));
    w' := Advance(env, w', Post(0, Value(0)));
    w' := Advance(env, w', Go(0));
    w' := Advance(env, w', Post(0, Value(0)));
    w' := FirstSends(env, w');
  }

  lemma FirstSends(env: Env, w: World) returns (w': World)
    requires Reachable(env, w) && |w.calls| == 5 && w.calls[0].client == 0 && w.calls[0].mode.Monotonic?
    requires w.calls[0].pc == Rpc(SendTx(1), 0) && w.calls[0].landed.None? && w.calls[0].lock.None?
    requires w.shared.chain == w.shared.start == 0 && w.shared.log == [] && w.shared.caches == map[0 := 1]
    requires w.shared.locks == map[] && w.shared.held == map[]
    ensures Reachable(env, w') && Moved(w, w', 0) && w'.calls[0].pc == Done(Landed)
    ensures w'.shared.chain == 1 && w'.shared.start == 0 && w'.shared.caches == map[0 := 1]
    ensures w'.shared.locks == map[] && w'.shared.held == map[] && |w'.shared.log| == 1
  {
    w' := Advance(env, w, Post(0, Handled(true)));
    w' := FirstSyncs(env, w');
  }

  lemma FirstSyncs(env: Env, w: World) returns (w': World)
    requires Reachable(env, w) && |w.calls| == 5 && w.calls[0].client == 0 && w.calls[0].lock.None?
    requires w.calls[0].pc == SyncLanded(1) && w.shared.caches == map[0 := 1]
    ensures Reachable(env, w') && Moved(w, w', 0) && w'.calls[0].pc == Done(Landed)
    ensures w'.shared == w.shared
  {
    w' := Advance(env, w, Go(0));
    w' := Advance(env, w', Go(0));
  }

  /** A strict send takes the lock, fetches the current nonce and is about to send. */
  lemma StrictFetches(env: Env, w: World) returns (w': World)
    requires Reachable(env, w) && |w.calls| == 5 && w.calls[1] == FreshCall(0, Strict)
    requires w.shared.chain == 1 && w.shared.start == 0 && 0 in w.shared.caches
    requires w.shared.locks == map[] && w.shared.held == map[]
    ensures Reachable(env, w') && Moved(w, w', 1)
    ensures w'.shared.chain == 1 && w'.shared.caches == w.shared.caches && w'.shared.log == w.shared.log
    ensures w'.shared.start == w.shared.start
    ensures w'.calls[1].pc == Rpc(FetchNonce, 0) && w'.calls[1].landed.None? && w'.calls[1].base.None?
  {
    w' := Advance(env, w, Go(1));
    w' := Advance(env, w', Go(1));
    w' := Advance(env, w', Go(1));
    w' := Advance(env, w', Go(1));
    w' := Advance(env, w', Go(1));
  }

  /** The node accepts its transaction, but the answer is lost, and so is that to every retry. */
  lemma StrictFails(env: Env, w: World) returns (w': World)
    requires Reachable(env, w) && |w.calls| == 5 && w.calls[1].mode.Strict? && w.calls[1].client == 0
    requires w.calls[1].pc == Rpc(FetchNonce, 0) && w.calls[1].landed.None? && w.calls[1].base.None?
    requires w.shared.chain == 1 && 0 in w.shared.caches
    ensures Reachable(env, w') && Moved(w, w', 1) && w'.calls[1].pc == Done(Failed)
    ensures w'.shared.chain == 2 && w'.shared.caches == w.shared.caches
    ensures |w'.shared.log| == |w.shared.log| + 1 && w'.calls[1].landed == Some(|w.shared.log|)
    ensures w'.shared.start == w.shared.start
    ensures w'.shared.log[|w.shared.log|].nonce == 2
  {
    w' := Advance(env, w, Post(1, Value(1)));
    w' := Advance(env, w', Post(1, Value(0)));
    w' := Advance(env, w', Post(1, Lost(true)));
    if w'.calls[1].pc.Rpc? {
      w' := RetriesLost(env, w');
    }
    w' := Advance(env, w', Go(1));
  }

  lemma {:induction false} RetriesLost(env: Env, w: World) returns (w': World)
    requires Reachable(env, w) && |w.calls| == 5 && w.calls[1].pc.Rpc? && w.calls[1].pc.tries <= env.retries
    ensures Reachable(env, w') && Moved(w, w', 1) && w'.shared == w.shared
    ensures w'.calls[1].pc == Leaving(Failed) && w'.calls[1].landed == w.calls[1].landed
    decreases env.retries - w.calls[1].pc.tries
  {
    w' := Advance(env, w, Post(1, Lost(false)));
    if w'.calls[1].pc.Rpc? {
      w' := RetriesLost(env, w');
    }
  }

  /** A monotonic send has returned, a strict one has failed after landing, and three more are to come. */
  ghost predicate LeftBehind(w: World) {
    && |w.calls| == 5 && w.calls[2..] == Three()
    && w.calls[0].client == 0 && w.calls[0].pc == Done(Landed)
    && w.calls[1].client == 0 && StrictFailure(w.calls[1])
    && |w.shared.log| == 2 && w.calls[1].landed == Some(1) && w.shared.log[1].nonce == 2
    && w.shared.start == 0 && w.shared.chain == 2 && w.shared.caches == map[0 := 1]
  }

  lemma BehindWorld(env: Env) returns (w: World)
    ensures Reachable(env, w) && LeftBehind(w)
  {
    w := Start(env);
    w := FirstLands(env, w);
    w := StrictFetches(env, w);
    w := StrictFails(env, w);
  }

  /**
   The condition is needed: in every environment with one writing client, some
   run reaches a quiet point at which the cache is behind the chain, because a
   strict send lost the answer to a transaction that landed. The next
   monotonic send, all on its own, is then rejected on its first attempt.
   */
  lemma StrictFailureLeavesCacheBehind(env: Env) returns (w: World, events: seq<Event>)
    requires env.soleWriter
    ensures Reachable(env, w) && Sole(env, w, 0) && Quiet(w) && w.shared.log != []
    ensures LeftBehind(w) && Stranded(w, 1) && !Level(w.shared, 0)
    ensures Runs(env, w, events) && OnlyCall(events, 2)
    ensures |After(env, w, events).calls| > 2 && After(env, w, events).calls[2].rejections != []
  {
    w := BehindWorld(env);
    assert w.calls[2] == w.calls[2..][0] && w.calls[3] == w.calls[2..][1] && w.calls[4] == w.calls[2..][2];
    events := BehindIsRejected(env, w, 0, 2);
  }
}
