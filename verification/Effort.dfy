/** How much work a call does, and that every call ends: bounds over every run. */
module Effort {
  import opened Wrappers
  import opened World
  import opened Invariants

  // ---------- HTTP POSTs ----------

  /** Transport calls the current attempt has finished: the nonce, the block, the transaction. */
  function Phase(pc: Pc): nat {
    match pc
    case Idle => 0
    case FindLock => 0
    case MakeLock => 0
    case AwaitLock(_) => 0
    case Top => 0
    case Rpc(request, _) => if request.FetchNonce? then 0 else if request.FetchBlock? then 1 else 2
    case Reserving(_) => 1
    case _ => 3
  }

  function Tries(pc: Pc): nat {
    if pc.Rpc? then pc.tries else 0
  }

  /** POSTs so far: at most `retries + 1` for each finished transport call, plus the failures of the current one. */
  ghost predicate Frugal(env: Env, c: Call) {
    && c.attempt <= 2
    && Tries(c.pc) <= env.retries
    && c.posts <= (3 * c.attempt + Phase(c.pc)) * (env.retries + 1) + Tries(c.pc)
  }

  lemma Scale(a: nat, b: nat, m: nat)
    requires a <= b
    ensures a * m <= b * m
    ensures (a + 1) * m == a * m + m
  {
  }

  /** What a step does to the counters: a step that needs no answer leaves POSTs alone and never moves back, a POST counts. */
  ghost predicate Paid(env: Env, c: Call, c': Call, e: Event) {
    var before, after := 3 * c.attempt + Phase(c.pc), 3 * c'.attempt + Phase(c'.pc);
    && c'.attempt <= 2 && c.attempt <= c'.attempt
    && if e.Go? then before <= after && c'.posts == c.posts && Tries(c.pc) == Tries(c'.pc) == 0
       else
         && c'.posts == c.posts + 1
         && if after == before then Tries(c'.pc) == Tries(c.pc) + 1 <= env.retries
            else before < after && Tries(c'.pc) == 0
  }

  lemma GoPaid(env: Env, s: Shared, i: nat, c: Call, uncovered: set<nat>)
    requires CanGo(s, c) && c.attempt <= 2
    ensures Paid(env, c, DoGo(s, i, c, uncovered).1, Go(i))
  {
  }

  lemma SettlePaid(env: Env, s: Shared, c: Call, i: nat, reply: Reply)
    requires CanPost(env, s, c, reply) && c.attempt <= 2
    ensures Paid(env, c, Settle(env, s, c, reply).1, Post(i, reply))
  {
  }

  lemma StepPaid(env: Env, s: Shared, i: nat, c: Call, uncovered: set<nat>, e: Event)
    requires CanStep(env, s, c, e) && c.attempt <= 2
    ensures Paid(env, c, DoStep(env, s, i, c, uncovered, e).1, e)
  {
    if e.Go? {
      GoPaid(env, s, i, c, uncovered);
    } else if Processes(e.reply) {
      SettlePaid(env, Process(s, i, c).0, Process(s, i, c).1, i, e.reply);
    } else {
      SettlePaid(env, s, c, i, e.reply);
    }
  }

  lemma FrugalStep(env: Env, s: Shared, i: nat, c: Call, uncovered: set<nat>, e: Event)
    requires CanStep(env, s, c, e) && Frugal(env, c)
    ensures Frugal(env, DoStep(env, s, i, c, uncovered, e).1)
  {
    StepPaid(env, s, i, c, uncovered, e);
    PaidFrugal(env, c, DoStep(env, s, i, c, uncovered, e).1, e);
  }

  lemma PaidFrugal(env: Env, c: Call, c': Call, e: Event)
    requires Frugal(env, c) && Paid(env, c, c', e)
    ensures Frugal(env, c')
  {
    var before := 3 * c.attempt + Phase(c.pc);
    var after := 3 * c'.attempt + Phase(c'.pc);
    var m := env.retries + 1;
    Scale(before, before, m);
    if before < after {
      Scale(before + 1, after, m);
    }
  }

  lemma {:induction false} FrugalAfter(env: Env, w: World, events: seq<Event>, i: nat)
    requires Runs(env, w, events) && i < |w.calls| && Frugal(env, w.calls[i])
    ensures i < |After(env, w, events).calls| && Frugal(env, After(env, w, events).calls[i])
    decreases |events|
  {
    if events != [] {
      var e := events[0];
      if !e.ForeignLand? && e.call == i {
        FrugalStep(env, w.shared, i, w.calls[i], Uncovered(w.shared, w.calls), e);
      }
      FrugalAfter(env, Apply(env, w, e), events[1..], i);
    }
  }

  /** A call makes at most nine POSTs per allowed try, three transport calls in each of three attempts. */
  lemma PostsBounded(env: Env, w: World, i: nat)
    requires Reachable(env, w) && i < |w.calls|
    ensures w.calls[i].posts <= 9 * (env.retries + 1)
  {
    var w0, events :| Initial(w0) && Runs(env, w0, events) && After(env, w0, events) == w;
    SameCalls(env, w0, events);
    FrugalAfter(env, w0, events, i);
    var c := w.calls[i];
    var units := 3 * c.attempt + Phase(c.pc);
    Scale(units, 9, env.retries + 1);
    if c.pc.Rpc? {
      Scale(units + 1, 9, env.retries + 1);
      Scale(units, units, env.retries + 1);
    }
  }

  lemma {:induction false} SameCalls(env: Env, w: World, events: seq<Event>)
    requires Runs(env, w, events)
    ensures |After(env, w, events).calls| == |w.calls|
    decreases |events|
  {
    if events != [] {
      SameCalls(env, Apply(env, w, events[0]), events[1..]);
    }
  }

  // ---------- Termination ----------

  /** Steps one attempt can take at most. */
  function AttemptSteps(env: Env): nat {
    3 * (env.retries + 1) + 7
  }

  /** An upper bound on the steps a call has left. */
  function Rank(env: Env, c: Call): nat
    requires Frugal(env, c)
  {
    var m := env.retries + 1;
    var later := if c.attempt == 0 then 2 * AttemptSteps(env) else if c.attempt == 1 then AttemptSteps(env) else 0;
    match c.pc
    case Idle => 3 * AttemptSteps(env) + 6
    case FindLock => 3 * AttemptSteps(env) + 5
    case MakeLock => 3 * AttemptSteps(env) + 4
    case AwaitLock(_) => 3 * AttemptSteps(env) + 3
    case Top => later + 3 * m + 8
    case Rpc(request, tries) =>
      later + m - tries + (if request.FetchNonce? then 2 * m + 7 else if request.FetchBlock? then m + 5 else 4)
    case Reserving(_) => later + 2 * m + 6
    case SyncRejected(_) => later + 3
    case SyncLanded(_) => 2
    case Leaving(_) => 1
    case Done(_) => 0
  }

  lemma GoRank(env: Env, s: Shared, i: nat, c: Call, uncovered: set<nat>)
    requires CanGo(s, c) && Frugal(env, c) && Frugal(env, DoGo(s, i, c, uncovered).1)
    ensures Rank(env, DoGo(s, i, c, uncovered).1) < Rank(env, c)
  {
  }

  lemma SettleRank(env: Env, s: Shared, c: Call, reply: Reply)
    requires CanPost(env, s, c, reply) && Frugal(env, c) && Frugal(env, Settle(env, s, c, reply).1)
    ensures Rank(env, Settle(env, s, c, reply).1) < Rank(env, c)
  {
  }

  lemma RankStep(env: Env, s: Shared, i: nat, c: Call, uncovered: set<nat>, e: Event)
    requires CanStep(env, s, c, e) && Frugal(env, c)
    ensures Frugal(env, DoStep(env, s, i, c, uncovered, e).1)
    ensures Rank(env, DoStep(env, s, i, c, uncovered, e).1) < Rank(env, c)
  {
    FrugalStep(env, s, i, c, uncovered, e);
    if e.Go? {
      GoRank(env, s, i, c, uncovered);
    } else if Processes(e.reply) {
      SettleRank(env, Process(s, i, c).0, Process(s, i, c).1, e.reply);
    } else {
      SettleRank(env, s, c, e.reply);
    }
  }

  /** The steps of call i among the events. */
  ghost function StepsOf(events: seq<Event>, i: nat): nat {
    if events == [] then 0
    else (if !events[0].ForeignLand? && events[0].call == i then 1 else 0) + StepsOf(events[1..], i)
  }

  lemma {:induction false} RankAfter(env: Env, w: World, events: seq<Event>, i: nat)
    requires Runs(env, w, events) && i < |w.calls| && Frugal(env, w.calls[i])
    ensures i < |After(env, w, events).calls| && Frugal(env, After(env, w, events).calls[i])
    ensures StepsOf(events, i) + Rank(env, After(env, w, events).calls[i]) <= Rank(env, w.calls[i])
    decreases |events|
  {
    if events != [] {
      var e := events[0];
      if !e.ForeignLand? && e.call == i {
        RankStep(env, w.shared, i, w.calls[i], Uncovered(w.shared, w.calls), e);
      }
      RankAfter(env, Apply(env, w, e), events[1..], i);
    }
  }

  /** No call runs for ever: in every run it takes at most this many steps of its own. */
  lemma StepsBounded(env: Env, w: World, events: seq<Event>, i: nat)
    requires Initial(w) && Runs(env, w, events) && i < |w.calls|
    ensures StepsOf(events, i) <= 9 * (env.retries + 1) + 27
  {
    assert Fresh(w.calls[i]);
    RankAfter(env, w, events, i);
  }

  /** No deadlock: while some call is unfinished, some unfinished call can take a step whatever the node does. */
  lemma SomeoneCanStep(env: Env, w: World, i: nat) returns (e: Event)
    requires Reachable(env, w) && i < |w.calls| && !w.calls[i].pc.Done?
    ensures !e.ForeignLand? && Enabled(env, w, e) && !w.calls[e.call].pc.Done?
  {
    ReachableInv(env, w);
    assert CallOk(w.shared, i, w.calls[i]);
    var pc := w.calls[i].pc;
    if pc.AwaitLock? && pc.lock in w.shared.held {
      var holder := w.shared.held[pc.lock];
      assert w.calls[holder].lock == Some(pc.lock);
      assert CallOk(w.shared, holder, w.calls[holder]);
      e := if w.calls[holder].pc.Rpc? then Post(holder, Lost(false)) else Go(holder);
    } else {
      e := if pc.Rpc? then Post(i, Lost(false)) else Go(i);
    }
  }

  // ---------- Nonce fetches ----------

  /** Rejections that named no nonce. */
  ghost function Blind(rejections: seq<Rejection>): nat {
    if rejections == [] then 0
    else
      var last := |rejections| - 1;
      Blind(rejections[..last]) + (if rejections[last].reported.None? then 1 else 0)
  }

  /** Rejections that another attempt followed. */
  function Retries(c: Call): nat {
    if |c.rejections| < 2 then |c.rejections| else 2
  }

  /** The fetches a call needs: monotonic, one for each retry; strict, the first and one after each blind rejection. */
  ghost function FetchesFor(mode: Mode, rejections: seq<Rejection>): nat {
    if mode.Monotonic? then |rejections| else 1 + Blind(rejections)
  }

  /** The fetches of a call whose client was cached when it began, or that is strict. */
  ghost predicate Sparing(c: Call) {
    && c.attempt <= 2 && c.attempt <= |c.rejections|
    && match c.pc
       case Top =>
         && c.attempt == |c.rejections|
         && if c.attempt == 0 then c.base == None && c.fetches == 0
            else
              && c.fetches == FetchesFor(c.mode, c.rejections[..c.attempt - 1])
              && c.base == c.rejections[c.attempt - 1].reported
       case SyncRejected(reported) =>
         && |c.rejections| == c.attempt + 1 && c.rejections[c.attempt].reported == Some(reported)
         && c.fetches == FetchesFor(c.mode, c.rejections[..c.attempt])
       case Leaving(InvalidNonce) => |c.rejections| == 3 && c.attempt == 2 && c.fetches == FetchesFor(c.mode, c.rejections[..2])
       case Done(InvalidNonce) => |c.rejections| == 3 && c.attempt == 2 && c.fetches == FetchesFor(c.mode, c.rejections[..2])
       case Idle => c.rejections == [] && c.base == None && c.fetches == 0
       case FindLock => c.rejections == [] && c.base == None && c.fetches == 0
       case MakeLock => c.rejections == [] && c.base == None && c.fetches == 0
       case AwaitLock(_) => c.rejections == [] && c.base == None && c.fetches == 0
       case _ => c.attempt == |c.rejections| && c.fetches == FetchesFor(c.mode, c.rejections[..c.attempt])
  }

  lemma BlindSnoc(rejections: seq<Rejection>, n: nat)
    requires n < |rejections|
    ensures Blind(rejections[..n + 1]) == Blind(rejections[..n]) + (if rejections[n].reported.None? then 1 else 0)
  {
    assert rejections[..n + 1][..n] == rejections[..n];
  }

  lemma SparingGo(s: Shared, i: nat, c: Call, uncovered: set<nat>)
    requires CanGo(s, c) && Sparing(c) && (c.mode.Monotonic? ==> c.client in s.caches)
    ensures Sparing(DoGo(s, i, c, uncovered).1)
  {
    if c.pc.Top? && c.attempt > 0 {
      BlindSnoc(c.rejections, c.attempt - 1);
    }
  }

  lemma SparingSettle(env: Env, s: Shared, c: Call, reply: Reply)
    requires CanPost(env, s, c, reply) && Sparing(c)
    ensures Sparing(Settle(env, s, c, reply).1)
  {
    var c' := Settle(env, s, c, reply).1;
    assert c'.rejections[..c.attempt] == c.rejections[..c.attempt];
  }

  lemma SparingStep(env: Env, s: Shared, i: nat, c: Call, uncovered: set<nat>, e: Event)
    requires CanStep(env, s, c, e) && Sparing(c) && (c.mode.Monotonic? ==> c.client in s.caches)
    ensures Sparing(DoStep(env, s, i, c, uncovered, e).1)
  {
    if e.Go? {
      SparingGo(s, i, c, uncovered);
    } else if Processes(e.reply) {
      SparingSettle(env, Process(s, i, c).0, Process(s, i, c).1, e.reply);
    } else {
      SparingSettle(env, s, c, e.reply);
    }
  }

  lemma {:induction false} SparingAfter(env: Env, w: World, events: seq<Event>, i: nat)
    requires Runs(env, w, events) && i < |w.calls| && Sparing(w.calls[i])
    requires w.calls[i].mode.Monotonic? ==> w.calls[i].client in w.shared.caches
    ensures i < |After(env, w, events).calls| && Sparing(After(env, w, events).calls[i])
    decreases |events|
  {
    if events != [] {
      var e := events[0];
      if !e.ForeignLand? {
        StepExtends(env, w.shared, e.call, w.calls[e.call], Uncovered(w.shared, w.calls), e);
        if e.call == i {
          SparingStep(env, w.shared, i, w.calls[i], Uncovered(w.shared, w.calls), e);
        }
      }
      SparingAfter(env, Apply(env, w, e), events[1..], i);
    }
  }

  /**
  A monotonic call that begins with its key cached fetches the nonce exactly
  once for each retry, so not at all when its first attempt is not rejected; a
  strict call fetches it once, and once more for each retry after a rejection
  that named no nonce.
  */
  lemma FetchesExactly(env: Env, w: World, events: seq<Event>, i: nat)
    requires Runs(env, w, events) && i < |w.calls| && Fresh(w.calls[i])
    requires w.calls[i].mode.Monotonic? ==> w.calls[i].client in w.shared.caches
    ensures i < |After(env, w, events).calls|
    ensures var c := After(env, w, events).calls[i];
            c.pc.Done? ==>
              c.fetches == if c.mode.Monotonic? then Retries(c) else 1 + Blind(c.rejections[..Retries(c)])
  {
    SparingAfter(env, w, events, i);
  }

  // ---------- Lost replies ----------

  /** The call's own steps among the events. */
  ghost function Own(events: seq<Event>, i: nat): seq<Event> {
    if events == [] then []
    else (if !events[0].ForeignLand? && events[0].call == i then [events[0]] else []) + Own(events[1..], i)
  }

  /** How many POSTs in a row were lost, up to the last step. */
  ghost function LostInARow(steps: seq<Event>): nat {
    if steps != [] && steps[|steps| - 1].Post? && steps[|steps| - 1].reply.Lost? then
      1 + LostInARow(steps[..|steps| - 1])
    else 0
  }

  /** The steps end with an error that is not retried, or with more lost POSTs in a row than retries. */
  ghost predicate Hopeless(env: Env, steps: seq<Event>) {
    && steps != []
    && steps[|steps| - 1].Post?
    && (steps[|steps| - 1].reply.Fatal? || LostInARow(steps) == env.retries + 1)
  }

  /** A call leaves with a failure exactly when its steps have become hopeless. */
  ghost predicate Patient(env: Env, c: Call, steps: seq<Event>) {
    match c.pc
    case Rpc(_, tries) => LostInARow(steps) == tries <= env.retries && !Hopeless(env, steps)
    case Leaving(outcome) => outcome == Failed <==> Hopeless(env, steps)
    case Done(outcome) =>
      && steps != [] && steps[|steps| - 1].Go?
      && (outcome == Failed <==> Hopeless(env, steps[..|steps| - 1]))
    case _ => !Hopeless(env, steps)
  }

  lemma PatientGo(env: Env, s: Shared, i: nat, c: Call, uncovered: set<nat>, steps: seq<Event>)
    requires CanGo(s, c) && Patient(env, c, steps)
    ensures Patient(env, DoGo(s, i, c, uncovered).1, steps + [Go(i)])
  {
    assert (steps + [Go(i)])[..|steps|] == steps;
  }

  lemma PatientSettle(env: Env, s: Shared, c: Call, i: nat, reply: Reply, steps: seq<Event>)
    requires CanPost(env, s, c, reply) && Patient(env, c, steps)
    ensures Patient(env, Settle(env, s, c, reply).1, steps + [Post(i, reply)])
  {
    assert (steps + [Post(i, reply)])[..|steps|] == steps;
  }

  lemma PatientStep(env: Env, s: Shared, i: nat, c: Call, uncovered: set<nat>, e: Event, steps: seq<Event>)
    requires CanStep(env, s, c, e) && !e.ForeignLand? && e.call == i && Patient(env, c, steps)
    ensures Patient(env, DoStep(env, s, i, c, uncovered, e).1, steps + [e])
  {
    if e.Go? {
      PatientGo(env, s, i, c, uncovered, steps);
    } else if Processes(e.reply) {
      PatientSettle(env, Process(s, i, c).0, Process(s, i, c).1, i, e.reply, steps);
    } else {
      PatientSettle(env, s, c, i, e.reply, steps);
    }
  }

  lemma {:induction false} PatientAfter(env: Env, w: World, events: seq<Event>, i: nat, steps: seq<Event>)
    requires Runs(env, w, events) && i < |w.calls| && Patient(env, w.calls[i], steps)
    ensures i < |After(env, w, events).calls|
    ensures Patient(env, After(env, w, events).calls[i], steps + Own(events, i))
    decreases |events|
  {
    if events == [] {
      assert steps + [] == steps;
    } else {
      var e := events[0];
      var later := Own(events[1..], i);
      if !e.ForeignLand? && e.call == i {
        PatientStep(env, w.shared, i, w.calls[i], Uncovered(w.shared, w.calls), e, steps);
        PatientAfter(env, Apply(env, w, e), events[1..], i, steps + [e]);
        assert steps + [e] + later == steps + ([e] + later);
      } else {
        PatientAfter(env, Apply(env, w, e), events[1..], i, steps);
        assert [] + later == later;
      }
    }
  }

  /**
  A call fails exactly when a POST brings an error that is not retried, or
  `retries + 1` POSTs in a row are lost: it never gives up sooner, and never
  posts again.
  */
  lemma FailsExactlyWhen(env: Env, w: World, events: seq<Event>, i: nat)
    requires Runs(env, w, events) && i < |w.calls| && Fresh(w.calls[i])
    ensures i < |After(env, w, events).calls|
    ensures var (pc, steps) := (After(env, w, events).calls[i].pc, Own(events, i));
            && (pc == Leaving(Failed) <==> Hopeless(env, steps))
            && (pc.Done? ==> steps != [] && (pc == Done(Failed) <==> Hopeless(env, steps[..|steps| - 1])))
  {
    PatientAfter(env, w, events, i, []);
    assert [] + Own(events, i) == Own(events, i);
  }
}
