/**
How much contention a monotonic send survives: three attempts outlast any two
other sends, and a send nobody overtakes lands the first time.
*/
module Contention {
  import opened Wrappers
  import opened World
  import opened Invariants
  import opened Guidance
  import opened SoleClient

  // ---------- With monotonic sends only, silent rejections do no harm ----------

  /** The nonce being signed is above all that had landed at the last rejection. */
  ghost predicate Ahead(start: nat, log: seq<Landing>, rejections: seq<Rejection>, nonce: nat) {
    |rejections| > 0 && rejections[|rejections| - 1].at <= |log| ==>
      ChainAt(start, log, rejections[|rejections| - 1].at) < nonce
  }

  ghost predicate Chasing(env: Env, s: Shared, c: Call) {
    && c.pending == {}
    && (Anchored(env, c.startLog, c.pending) ==>
          && Rising(c.rejections)
          && (Signing(c).Some? ==> Ahead(s.start, s.log, c.rejections, Signing(c).value)))
  }

  ghost predicate MonoInv(env: Env, w: World, client: nat) {
    && SoleInv(env, w, client)
    && AllMonotonic(w.calls)
    && forall i :: 0 <= i < |w.calls| ==> Chasing(env, w.shared, w.calls[i])
  }

  /** The cache has caught up with the chain as soon as anything has landed. */
  lemma CacheCoversChain(env: Env, w: World, client: nat)
    requires SoleInv(env, w, client) && Uncovered(w.shared, w.calls) == {} && w.shared.log != []
    ensures client in w.shared.caches && w.shared.chain <= w.shared.caches[client]
  {
    var k := |w.shared.log| - 1;
    ReachedUnlessUnsynced(env, w, client, k);
    assert w.shared.log[k].author.call !in Uncovered(w.shared, w.calls);
  }

  lemma ReserveAhead(env: Env, s: Shared, i: nat, c: Call, uncovered: set<nat>)
    requires Chasing(env, s, c) && c.pc.Reserving? && Increasing(s.start, s.log)
    requires s.chain == ChainAt(s.start, s.log, |s.log|)
    requires |c.rejections| > 0 && Anchored(env, c.startLog, c.pending) ==>
               && c.rejections[|c.rejections| - 1].at <= |s.log|
               && c.client in s.caches && s.chain <= s.caches[c.client]
    ensures Chasing(env, DoGo(s, i, c, uncovered).0, DoGo(s, i, c, uncovered).1)
  {
  }

  lemma ReserveChases(env: Env, w: World, client: nat, i: nat)
    requires MonoInv(env, w, client) && i < |w.calls| && w.calls[i].pc.Reserving?
    ensures var (s', c') := DoGo(w.shared, i, w.calls[i], Uncovered(w.shared, w.calls)); Chasing(env, s', c')
  {
    var c := w.calls[i];
    assert CallOk(w.shared, i, c) && SoleOk(env, w.shared, c);
    if |c.rejections| > 0 && Anchored(env, c.startLog, c.pending) {
      assert Blocked(env, w.shared.log, c.startLog, c.pending, c.rejections);
      CacheCoversChain(env, w, client);
    }
    ReserveAhead(env, w.shared, i, c, Uncovered(w.shared, w.calls));
  }

  lemma GoChases(env: Env, s: Shared, i: nat, c: Call, uncovered: set<nat>)
    requires CallOk(s, i, c) && Chasing(env, s, c) && CanGo(s, c) && !c.pc.Reserving? && c.mode.Monotonic?
    requires uncovered == {}
    ensures Chasing(env, DoGo(s, i, c, uncovered).0, DoGo(s, i, c, uncovered).1)
  {
  }

  lemma RejectedChases(env: Env, s: Shared, i: nat, c: Call, report: bool)
    requires Journal(s) && CallOk(s, i, c) && Chasing(env, s, c)
    requires c.mode.Monotonic? && c.pc.Rpc? && c.pc.request.SendTx?
    requires c.landed.None? ==> s.chain >= c.pc.request.nonce
    ensures Chasing(env, TakeVerdict(s, c, report).0, TakeVerdict(s, c, report).1)
  {
    if c.landed.None? && Anchored(env, c.startLog, c.pending) && |c.rejections| > 0 {
      var last := c.rejections[|c.rejections| - 1];
      assert ChainAt(s.start, s.log, last.at) < ChainAt(s.start, s.log, |s.log|);
    }
  }

  lemma SettleChases(env: Env, s: Shared, i: nat, c: Call, reply: Reply)
    requires Journal(s) && CallOk(s, i, c) && Chasing(env, s, c) && c.mode.Monotonic?
    requires CanPost(env, s, c, reply)
    requires reply.Handled? && c.landed.None? ==> s.chain >= c.pc.request.nonce
    ensures Chasing(env, Settle(env, s, c, reply).0, Settle(env, s, c, reply).1)
  {
    if reply.Handled? {
      RejectedChases(env, s, i, c, reply.report);
    }
  }

  lemma PostChases(env: Env, s: Shared, i: nat, c: Call, reply: Reply)
    requires Journal(s) && CallOk(s, i, c) && Chasing(env, s, c) && c.mode.Monotonic?
    requires CanPost(env, s, c, reply)
    ensures Chasing(env, DoPost(env, s, i, c, reply).0, DoPost(env, s, i, c, reply).1)
  {
    if Processes(reply) {
      ProcessStep(s, i, c);
      ProcessExtends(s, i, c);
      ChasesFrame(env, s, Process(s, i, c).0, i, c);
      SettleChases(env, Process(s, i, c).0, i, Process(s, i, c).1, reply);
    } else {
      SettleChases(env, s, i, c, reply);
    }
  }

  lemma ChasesFrame(env: Env, s: Shared, s': Shared, i: nat, c: Call)
    requires CallOk(s, i, c) && Chasing(env, s, c) && Extends(s, s')
    ensures Chasing(env, s', c)
  {
  }

  /** Monotonic sends reserve their nonces from the cache, so it has reached all their landings. */
  lemma NothingUncovered(w: World)
    requires Inv(w) && AllMonotonic(w.calls)
    ensures Uncovered(w.shared, w.calls) == {}
  {
    forall i | 0 <= i < |w.calls| && w.calls[i].landed.Some? ensures CacheReached(w.shared, w.calls[i]) {
      assert CallOk(w.shared, i, w.calls[i]);
    }
  }

  lemma OwnChases(env: Env, w: World, client: nat, e: Event)
    requires MonoInv(env, w, client) && Enabled(env, w, e)
    ensures var (s', c') := DoStep(env, w.shared, e.call, w.calls[e.call], Uncovered(w.shared, w.calls), e); Chasing(env, s', c')
  {
    var (s, i, c) := (w.shared, e.call, w.calls[e.call]);
    assert CallOk(s, i, c);
    if e.Post? {
      PostChases(env, s, i, c, e.reply);
    } else if c.pc.Reserving? {
      ReserveChases(env, w, client, i);
    } else {
      NothingUncovered(w);
      GoChases(env, s, i, c, Uncovered(w.shared, w.calls));
    }
  }

  lemma MonoStep(env: Env, w: World, client: nat, e: Event)
    requires MonoInv(env, w, client) && Enabled(env, w, e)
    ensures MonoInv(env, Apply(env, w, e), client)
  {
    var w' := Apply(env, w, e);
    SoleStep(env, w, client, e);
    OwnChases(env, w, client, e);
    StepExtends(env, w.shared, e.call, w.calls[e.call], Uncovered(w.shared, w.calls), e);
    forall j | 0 <= j < |w'.calls| && j != e.call ensures Chasing(env, w'.shared, w'.calls[j]) {
      assert CallOk(w.shared, j, w.calls[j]);
      ChasesFrame(env, w.shared, w'.shared, j, w.calls[j]);
    }
  }

  lemma {:induction false} MonoAfter(env: Env, w: World, client: nat, events: seq<Event>)
    requires MonoInv(env, w, client) && Runs(env, w, events)
    ensures MonoInv(env, After(env, w, events), client)
    decreases |events|
  {
    if events != [] {
      MonoStep(env, w, client, events[0]);
      MonoAfter(env, Apply(env, w, events[0]), client, events[1..]);
    }
  }

  lemma ReachableMono(env: Env, w: World, client: nat)
    requires Reachable(env, w) && Sole(env, w, client) && AllMonotonic(w.calls)
    ensures MonoInv(env, w, client)
  {
    var w0, events :| Initial(w0) && Runs(env, w0, events) && After(env, w0, events) == w;
    SameOwners(env, w0, events);
    InitialInv(w0);
    MonoAfter(env, w0, client, events);
  }

  // ---------- Overlapping sends ----------

  /**
   Call b landed before the given point of the log, and did so during call i
   or so shortly before that the cache did not know yet when i started.
   */
  ghost predicate Overtook(w: World, i: nat, b: nat, before: nat) {
    && i < |w.calls| && b < |w.calls| && b != i
    && w.calls[b].landed.Some? && w.calls[b].landed.value < before
    && (w.calls[b].landed.value >= w.calls[i].startLog || b in w.calls[i].pending)
  }

  ghost function Overtakers(w: World, i: nat, before: nat): set<nat> {
    set b | 0 <= b < |w.calls| && Overtook(w, i, b, before)
  }

  /** The number of landings before the call's last rejection, or before its start if there was none. */
  function LastRejected(c: Call): nat {
    if c.rejections == [] then c.startLog else c.rejections[|c.rejections| - 1].at
  }

  lemma OvertakenBy(env: Env, w: World, client: nat, i: nat, k: nat, before: nat) returns (b: nat)
    requires Reachable(env, w) && Sole(env, w, client) && i < |w.calls| && w.calls[i].landed != Some(k)
    requires k < |w.shared.log| && k < before
    requires InTheWay(w.calls[i].startLog, w.calls[i].pending, k, w.shared.log[k].author)
    ensures Overtook(w, i, b, before) && w.calls[b].landed == Some(k)
  {
    ReachableInv(env, w);
    b := w.shared.log[k].author.call;
  }

  /** Something landed before each of the three rejections and after the one before it. */
  lemma RejectionsRise(env: Env, w: World, client: nat, i: nat)
    requires Reachable(env, w) && Sole(env, w, client) && Informed(env, w)
    requires i < |w.calls| && w.calls[i].mode.Monotonic? && w.calls[i].pc == Done(InvalidNonce)
    requires Anchored(env, w.calls[i].startLog, w.calls[i].pending)
    ensures |w.calls[i].rejections| == 3 && w.calls[i].landed.None? && Rising(w.calls[i].rejections)
    ensures Blocked(env, w.shared.log, w.calls[i].startLog, w.calls[i].pending, w.calls[i].rejections)
    ensures w.calls[i].startLog <= w.calls[i].rejections[0].at
    ensures w.calls[i].rejections[2].at <= |w.shared.log| && OursOnly(w.shared.log)
  {
    ReachableSole(env, w, client);
    assert CallOk(w.shared, i, w.calls[i]) && SoleOk(env, w.shared, w.calls[i]);
    if Guided(env) {
      GuidedRejectionsRise(env, w, i);
    } else {
      ReachableMono(env, w, client);
      assert Chasing(env, w.shared, w.calls[i]);
    }
  }

  /**
   A monotonic send that gives up was overtaken, before its last rejection, by
   three other sends, all of them different, when its client is the key's only
   writer.
   */
  lemma GivingUpMeansThreeOvertook(env: Env, w: World, client: nat, i: nat) returns (b: nat, c: nat, d: nat)
    requires Reachable(env, w) && Sole(env, w, client) && Informed(env, w)
    requires i < |w.calls| && w.calls[i].mode.Monotonic? && w.calls[i].pc == Done(InvalidNonce)
    requires Anchored(env, w.calls[i].startLog, w.calls[i].pending)
    ensures {b, c, d} <= Overtakers(w, i, LastRejected(w.calls[i]))
    ensures b != c && c != d && b != d
  {
    RejectionsRise(env, w, client, i);
    var rejections := w.calls[i].rejections;
    var before := rejections[2].at;
    assert rejections[0].at < rejections[1].at < before;
    b := OvertakenBy(env, w, client, i, rejections[0].at - 1, before);
    c := OvertakenBy(env, w, client, i, rejections[1].at - 1, before);
    d := OvertakenBy(env, w, client, i, before - 1, before);
  }

  /**
   So a monotonic send that no more than two others overtake never ends in
   InvalidNonceError, however many sends its client made before or makes later.
   */
  lemma ThreeSendsAllLand(env: Env, w: World, client: nat, i: nat)
    requires Reachable(env, w) && Sole(env, w, client) && Informed(env, w)
    requires i < |w.calls| && w.calls[i].mode.Monotonic?
    requires Anchored(env, w.calls[i].startLog, w.calls[i].pending)
    requires |Overtakers(w, i, LastRejected(w.calls[i]))| <= 2
    ensures w.calls[i].pc != Done(InvalidNonce)
  {
    if w.calls[i].pc == Done(InvalidNonce) {
      var b, c, d := GivingUpMeansThreeOvertook(env, w, client, i);
      AtLeastThree(Overtakers(w, i, LastRejected(w.calls[i])), b, c, d);
    }
  }

  lemma AtLeastThree(s: set<nat>, b: nat, c: nat, d: nat)
    requires {b, c, d} <= s && b != c && c != d && b != d
    ensures |s| >= 3
  {
    assert s == {b} + (s - {b});
    assert s - {b} == {c} + (s - {b, c});
    assert d in s - {b, c};
  }

  /** With monotonic sends only, the cache knows of every landing at any call's start. */
  lemma MonotonicStartsClear(env: Env, w: World, client: nat, i: nat)
    requires Reachable(env, w) && Sole(env, w, client) && AllMonotonic(w.calls) && i < |w.calls|
    ensures w.calls[i].pending == {}
  {
    ReachableMono(env, w, client);
    assert Chasing(env, w.shared, w.calls[i]);
  }

  /**
   If no landing was still unknown to the cache when the call started, the
   three landed while it was running: after its start, before its last rejection.
   */
  lemma GivingUpMeansThreeLandedDuring(env: Env, w: World, client: nat, i: nat) returns (b: nat, c: nat, d: nat)
    requires Reachable(env, w) && Sole(env, w, client) && Informed(env, w)
    requires i < |w.calls| && w.calls[i].mode.Monotonic? && w.calls[i].pc == Done(InvalidNonce)
    requires Anchored(env, w.calls[i].startLog, w.calls[i].pending)
    requires AllMonotonic(w.calls) || w.calls[i].pending == {}
    ensures b < |w.calls| && c < |w.calls| && d < |w.calls| && b != c && c != d && b != d
    ensures |w.calls[i].rejections| == 3 && w.calls[i].rejections[2].at <= |w.shared.log|
    ensures forall j :: j in {b, c, d} ==>
              && j != i && w.calls[j].landed.Some?
              && w.calls[i].startLog <= w.calls[j].landed.value < w.calls[i].rejections[2].at
  {
    if AllMonotonic(w.calls) {
      MonotonicStartsClear(env, w, client, i);
    }
    RejectionsRise(env, w, client, i);
    b, c, d := GivingUpMeansThreeOvertook(env, w, client, i);
    assert forall j :: j in {b, c, d} ==> Overtook(w, i, j, w.calls[i].rejections[2].at);
  }

  /** A monotonic send rejected even once was overtaken before its first rejection. */
  lemma RejectedMeansOvertaken(env: Env, w: World, client: nat, i: nat) returns (b: nat)
    requires Reachable(env, w) && Sole(env, w, client)
    requires i < |w.calls| && w.calls[i].mode.Monotonic? && |w.calls[i].rejections| > 0
    requires Anchored(env, w.calls[i].startLog, w.calls[i].pending)
    ensures Overtook(w, i, b, w.calls[i].rejections[0].at)
    ensures w.calls[b].landed.value < |w.shared.log| && w.shared.log[w.calls[b].landed.value].author == Ours(b)
  {
    ReachableSole(env, w, client);
    var m := w.calls[i];
    assert CallOk(w.shared, i, m) && SoleOk(env, w.shared, m);
    b := OvertakenBy(env, w, client, i, m.rejections[0].at - 1, m.rejections[0].at);
    assert CallOk(w.shared, b, w.calls[b]);
  }

  /** So it is not rejected at all if the cache knew of every landing at its start and nobody else landed since. */
  lemma UnovertakenLandsFirst(env: Env, w: World, client: nat, i: nat)
    requires Reachable(env, w) && Sole(env, w, client)
    requires i < |w.calls| && w.calls[i].mode.Monotonic?
    requires Anchored(env, w.calls[i].startLog, w.calls[i].pending) && w.calls[i].pending == {}
    requires |w.calls[i].rejections| > 0 ==>
               forall k :: w.calls[i].startLog <= k < w.calls[i].rejections[0].at && k < |w.shared.log| ==>
                 w.shared.log[k].author == Ours(i)
    ensures w.calls[i].rejections == []
  {
    if |w.calls[i].rejections| > 0 {
      var b := RejectedMeansOvertaken(env, w, client, i);
    }
  }
}
