/**
Strict sends of one client as a key's only writers: they land on consecutive
nonces, at the first attempt when reads are current, else at the second.
*/
module StrictSends {
  import opened Wrappers
  import opened World
  import opened Invariants
  import opened SoleClient

  ghost predicate AllStrict(calls: seq<Call>) {
    forall i :: 0 <= i < |calls| ==> calls[i].mode.Strict?
  }

  /** No gap between landings. */
  ghost predicate Consecutive(start: nat, log: seq<Landing>) {
    forall k :: 0 <= k < |log| ==> log[k].nonce == start + 1 + k
  }

  /** The call knows the node's nonce: it read it currently, or a rejection named it. */
  predicate Knows(env: Env, c: Call) {
    env.currentReads || |c.rejections| > 0
  }

  /** Between its fetch and its landing the call aims at exactly the next nonce, once it knows the current one. */
  ghost predicate OnTarget(env: Env, chain: nat, c: Call) {
    && (Knows(env, c) && c.landed.None? && Signing(c).Some? ==> Signing(c).value == chain + 1)
    && (Knows(env, c) && c.pc.Top? && c.base.Some? ==> c.base.value == chain)
    && (c.pc.SyncRejected? ==> c.pc.reported == chain)
  }

  predicate Fetched(c: Call) {
    match c.pc
    case Idle => false
    case FindLock => false
    case MakeLock => false
    case AwaitLock(_) => false
    case Top => c.attempt > 0
    case _ => true
  }

  ghost predicate Disciplined(env: Env, c: Call) {
    && |c.rejections| <= (if env.currentReads then 0 else 1)
    && (env.reports ==> AllReported(c.rejections))
    && c.fetches == (if Fetched(c) then 1 else 0)
    && (!Fetched(c) ==> c.base.None?)
  }

  ghost predicate StrictOk(env: Env, chain: nat, c: Call) {
    Disciplined(env, c) && (Inside(c) ==> OnTarget(env, chain, c))
  }

  ghost predicate StrictInv(env: Env, w: World, client: nat) {
    && Inv(w) && Sole(env, w, client) && AllStrict(w.calls)
    && forall i :: 0 <= i < |w.calls| ==> StrictOk(env, w.shared.chain, w.calls[i])
  }

  // ---------- Preservation ----------

  lemma GoStrict(env: Env, s: Shared, i: nat, c: Call, uncovered: set<nat>)
    requires Guided(env) && CallOk(s, i, c) && StrictOk(env, s.chain, c) && c.mode.Strict? && CanGo(s, c)
    ensures StrictOk(env, DoGo(s, i, c, uncovered).0.chain, DoGo(s, i, c, uncovered).1)
  {
  }

  lemma ProcessStrict(env: Env, s: Shared, i: nat, c: Call)
    requires Journal(s) && CallOk(s, i, c) && StrictOk(env, s.chain, c) && c.mode.Strict? && c.pc.Rpc?
    ensures StrictOk(env, Process(s, i, c).0.chain, Process(s, i, c).1)
  {
  }

  lemma SettleStrict(env: Env, s: Shared, i: nat, c: Call, reply: Reply)
    requires Guided(env) && CallOk(s, i, c) && StrictOk(env, s.chain, c) && c.mode.Strict?
    requires CanPost(env, s, c, reply)
    requires reply.Handled? && c.landed.None? ==> !Accepts(c.mode, s.chain, c.pc.request.nonce)
    ensures StrictOk(env, s.chain, Settle(env, s, c, reply).1)
    ensures Settle(env, s, c, reply).0.chain == s.chain && Settle(env, s, c, reply).0.log == s.log
    ensures Settle(env, s, c, reply).0.start == s.start
  {
  }

  lemma PostStrict(env: Env, s: Shared, i: nat, c: Call, reply: Reply)
    requires Guided(env) && Journal(s) && CallOk(s, i, c) && StrictOk(env, s.chain, c) && c.mode.Strict?
    requires CanPost(env, s, c, reply)
    ensures StrictOk(env, DoPost(env, s, i, c, reply).0.chain, DoPost(env, s, i, c, reply).1)
  {
    if Processes(reply) {
      ProcessStep(s, i, c);
      ProcessStrict(env, s, i, c);
      SettleStrict(env, Process(s, i, c).0, i, Process(s, i, c).1, reply);
    } else {
      SettleStrict(env, s, i, c, reply);
    }
  }

  /** Only the call inside the lock can move the chain, so a step moves it for nobody else inside. */
  lemma OthersOutside(w: World, client: nat, i: nat, j: nat)
    requires Inv(w) && AllStrict(w.calls) && i < |w.calls| && j < |w.calls| && i != j
    requires w.calls[i].client == w.calls[j].client && Inside(w.calls[i])
    ensures !Inside(w.calls[j])
  {
    assert CallOk(w.shared, i, w.calls[i]) && CallOk(w.shared, j, w.calls[j]);
  }

  lemma OwnStrict(env: Env, w: World, client: nat, e: Event)
    requires Guided(env) && StrictInv(env, w, client) && Enabled(env, w, e)
    ensures var (s', c') := DoStep(env, w.shared, e.call, w.calls[e.call], Uncovered(w.shared, w.calls), e);
            StrictOk(env, s'.chain, c')
  {
    var (s, i, c) := (w.shared, e.call, w.calls[e.call]);
    assert CallOk(s, i, c);
    StepExtends(env, s, i, c, Uncovered(w.shared, w.calls), e);
    if e.Go? {
      GoStrict(env, s, i, c, Uncovered(w.shared, w.calls));
    } else {
      PostStrict(env, s, i, c, e.reply);
    }
  }

  lemma StrictStep(env: Env, w: World, client: nat, e: Event)
    requires Guided(env) && StrictInv(env, w, client) && Enabled(env, w, e)
    ensures StrictInv(env, Apply(env, w, e), client)
  {
    var w' := Apply(env, w, e);
    InvStep(env, w, e);
    OwnStrict(env, w, client, e);
    StepExtends(env, w.shared, e.call, w.calls[e.call], Uncovered(w.shared, w.calls), e);
    forall j | 0 <= j < |w'.calls| && j != e.call ensures StrictOk(env, w'.shared.chain, w'.calls[j]) {
      if e.Post? {
        OthersOutside(w, client, e.call, j);
      }
    }
  }

  lemma {:induction false} StrictAfter(env: Env, w: World, client: nat, events: seq<Event>)
    requires Guided(env) && StrictInv(env, w, client) && Runs(env, w, events)
    ensures StrictInv(env, After(env, w, events), client)
    decreases |events|
  {
    if events != [] {
      StrictStep(env, w, client, events[0]);
      StrictAfter(env, Apply(env, w, events[0]), client, events[1..]);
    }
  }

  lemma ReachableStrict(env: Env, w: World, client: nat)
    requires Guided(env) && Reachable(env, w) && Sole(env, w, client) && AllStrict(w.calls)
    ensures StrictInv(env, w, client)
  {
    var w0, events :| Initial(w0) && Runs(env, w0, events) && After(env, w0, events) == w;
    SameOwners(env, w0, events);
    InitialInv(w0);
    StrictAfter(env, w0, client, events);
  }

  // ---------- Theorems ----------

  /**
   No strict send fails for its nonce: with current reads none is ever
   rejected, else one rejection at most; each fetches its nonce once.
   */
  lemma StrictSendsLand(env: Env, w: World, client: nat, i: nat)
    requires Guided(env) && Reachable(env, w) && Sole(env, w, client) && AllStrict(w.calls) && i < |w.calls|
    ensures w.calls[i].pc != Done(InvalidNonce)
    ensures |w.calls[i].rejections| <= if env.currentReads then 0 else 1
    ensures w.calls[i].pc.Done? ==> w.calls[i].fetches == 1
  {
    ReachableStrict(env, w, client);
    assert CallOk(w.shared, i, w.calls[i]);
  }

  lemma {:induction false} Pigeonhole(s: seq<nat>, n: nat)
    requires forall i :: 0 <= i < |s| ==> s[i] < n
    requires forall i, j :: 0 <= i < j < |s| ==> s[i] != s[j]
    ensures |s| <= n
    decreases n
  {
    if s == [] {
    } else if k :| 0 <= k < |s| && s[k] == n - 1 {
      var rest := s[..k] + s[k + 1..];
      Pigeonhole(rest, n - 1);
    } else {
      assert s[0] < n;
      Pigeonhole(s, n - 1);
    }
  }

  // ---------- The node's rule ----------

  /** Nothing but strict sends writes the key, so what lands leaves no gap. */
  ghost predicate GapFree(env: Env, w: World) {
    && Inv(w) && env.soleWriter && AllStrict(w.calls)
    && OursOnly(w.shared.log) && Consecutive(w.shared.start, w.shared.log)
  }

  lemma ProcessGapFree(s: Shared, i: nat, c: Call)
    requires Journal(s) && c.mode.Strict? && c.pc.Rpc? && OursOnly(s.log) && Consecutive(s.start, s.log)
    ensures var s' := Process(s, i, c).0; OursOnly(s'.log) && Consecutive(s'.start, s'.log)
  {
  }

  lemma StepGapFree(env: Env, s: Shared, i: nat, c: Call, uncovered: set<nat>, e: Event)
    requires CanStep(env, s, c, e) && c.mode.Strict?
    requires Journal(s) && OursOnly(s.log) && Consecutive(s.start, s.log)
    ensures var s' := DoStep(env, s, i, c, uncovered, e).0; OursOnly(s'.log) && Consecutive(s'.start, s'.log)
  {
    if e.Post? {
      ProcessGapFree(s, i, c);
    }
  }

  lemma GapFreeStep(env: Env, w: World, e: Event)
    requires GapFree(env, w) && Enabled(env, w, e)
    ensures GapFree(env, Apply(env, w, e))
  {
    InvStep(env, w, e);
    StepExtends(env, w.shared, e.call, w.calls[e.call], Uncovered(w.shared, w.calls), e);
    StepGapFree(env, w.shared, e.call, w.calls[e.call], Uncovered(w.shared, w.calls), e);
  }

  lemma {:induction false} GapFreeAfter(env: Env, w: World, events: seq<Event>)
    requires GapFree(env, w) && Runs(env, w, events)
    ensures GapFree(env, After(env, w, events))
    decreases |events|
  {
    if events != [] {
      GapFreeStep(env, w, events[0]);
      GapFreeAfter(env, Apply(env, w, events[0]), events[1..]);
    }
  }

  /**
   At every moment the landed nonces are the ones after the starting one,
   without a gap, whatever clients send and whatever they read.
   */
  lemma StrictLandingsHaveNoGap(env: Env, w: World)
    requires Reachable(env, w) && env.soleWriter && AllStrict(w.calls)
    ensures OursOnly(w.shared.log)
    ensures forall k :: 0 <= k < |w.shared.log| ==> w.shared.log[k].nonce == w.shared.start + 1 + k
    ensures w.shared.chain == w.shared.start + |w.shared.log|
  {
    var w0, events :| Initial(w0) && Runs(env, w0, events) && After(env, w0, events) == w;
    SameOwners(env, w0, events);
    InitialInv(w0);
    GapFreeAfter(env, w0, events);
  }

  lemma LogMatchesCalls(env: Env, w: World)
    requires Reachable(env, w) && env.soleWriter && AllStrict(w.calls)
    requires forall i :: 0 <= i < |w.calls| ==> w.calls[i].pc == Done(Landed)
    ensures forall i :: 0 <= i < |w.calls| ==>
              w.calls[i].landed.Some? && w.calls[i].landed.value < |w.shared.log|
              && w.shared.log[w.calls[i].landed.value].author == Ours(i)
    ensures forall k :: 0 <= k < |w.shared.log| ==>
              w.shared.log[k].author.Ours? && w.shared.log[k].author.call < |w.calls|
              && w.calls[w.shared.log[k].author.call].landed == Some(k)
  {
    ReachableInv(env, w);
    StrictLandingsHaveNoGap(env, w);
    forall i | 0 <= i < |w.calls|
      ensures w.calls[i].landed.Some? && w.calls[i].landed.value < |w.shared.log|
      ensures w.shared.log[w.calls[i].landed.value].author == Ours(i)
    {
      assert CallOk(w.shared, i, w.calls[i]);
    }
  }

  /** When all k strict sends have returned, the landed nonces are exactly the k after the starting one. */
  lemma StrictNoncesAreConsecutive(env: Env, w: World)
    requires Reachable(env, w) && env.soleWriter && AllStrict(w.calls)
    requires forall i :: 0 <= i < |w.calls| ==> w.calls[i].pc == Done(Landed)
    ensures |w.shared.log| == |w.calls| && w.shared.chain == w.shared.start + |w.calls|
    ensures forall k :: 0 <= k < |w.shared.log| ==> w.shared.log[k].nonce == w.shared.start + 1 + k
    ensures forall i :: 0 <= i < |w.calls| ==>
              && w.calls[i].landed.Some? && w.calls[i].landed.value < |w.shared.log|
              && w.shared.log[w.calls[i].landed.value].author == Ours(i)
  {
    StrictLandingsHaveNoGap(env, w);
    LogMatchesCalls(env, w);
    var places := seq(|w.calls|, i requires 0 <= i < |w.calls| => w.calls[i].landed.value);
    Pigeonhole(places, |w.shared.log|);
    var authors := seq(|w.shared.log|, k requires 0 <= k < |w.shared.log| => w.shared.log[k].author.call);
    Pigeonhole(authors, |w.calls|);
  }
}
