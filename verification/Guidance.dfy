/**
When reads are current, or rejections name the node's nonce, something lands
between any two rejections of a call: a retry always aims above the chain as
it stood at the last rejection.
*/
module Guidance {
  import opened Wrappers
  import opened World
  import opened Invariants

  /** The nonce in hand, once there is one again, is no older than the last rejection. */
  ghost predicate Aimed(s: Shared, c: Call) {
    |c.rejections| > 0 && c.rejections[|c.rejections| - 1].at <= |s.log| ==>
      var bar := ChainAt(s.start, s.log, c.rejections[|c.rejections| - 1].at);
      && (Signing(c).Some? ==> bar < Signing(c).value && (c.mode.Strict? ==> Signing(c).value <= s.chain + 1))
      && (c.pc.Reserving? ==> c.pc.fetched.Some? && bar <= c.pc.fetched.value)
      && (c.pc.Top? && c.mode.Strict? && c.base.Some? ==> bar <= c.base.value <= s.chain)
      && (c.pc.SyncRejected? ==> bar <= c.pc.reported <= s.chain)
  }

  ghost predicate GuidedOk(env: Env, s: Shared, c: Call) {
    && (env.reports ==> AllReported(c.rejections))
    && (env.currentReads ==> Rising(c.rejections) && Aimed(s, c))
  }

  ghost predicate GuidedInv(env: Env, w: World) {
    Inv(w) && forall i :: 0 <= i < |w.calls| ==> GuidedOk(env, w.shared, w.calls[i])
  }

  // ---------- Preservation ----------

  lemma ChainGrows(s: Shared, s': Shared)
    requires Journal(s) && Journal(s') && Extends(s, s')
    ensures s.chain <= s'.chain
  {
    assert ChainAt(s.start, s.log, |s.log|) == ChainAt(s'.start, s'.log, |s.log|);
  }

  lemma GuidedFrame(env: Env, s: Shared, s': Shared, i: nat, c: Call)
    requires CallOk(s, i, c) && GuidedOk(env, s, c) && Extends(s, s') && s.chain <= s'.chain
    ensures GuidedOk(env, s', c)
  {
  }

  lemma GoGuided(env: Env, s: Shared, i: nat, c: Call, uncovered: set<nat>)
    requires CallOk(s, i, c) && GuidedOk(env, s, c) && CanGo(s, c)
    ensures GuidedOk(env, DoGo(s, i, c, uncovered).0, DoGo(s, i, c, uncovered).1)
  {
  }

  lemma ValueGuided(env: Env, s: Shared, i: nat, c: Call, v: nat)
    requires Journal(s) && CallOk(s, i, c) && GuidedOk(env, s, c) && CanPost(env, s, c, Value(v))
    ensures GuidedOk(env, TakeValue(s, c, v).0, TakeValue(s, c, v).1)
  {
    if |c.rejections| > 0 {
      assert ChainAt(s.start, s.log, c.rejections[|c.rejections| - 1].at) <= ChainAt(s.start, s.log, |s.log|);
    }
  }

  /** A nonce above the chain at the last rejection is rejected only if something landed since. */
  lemma RejectedGuided(env: Env, s: Shared, i: nat, c: Call, report: bool)
    requires Journal(s) && CallOk(s, i, c) && GuidedOk(env, s, c)
    requires c.pc.Rpc? && c.pc.request.SendTx? && c.landed.None? && (env.reports ==> report)
    requires !Accepts(c.mode, s.chain, c.pc.request.nonce)
    ensures GuidedOk(env, TakeVerdict(s, c, report).0, TakeVerdict(s, c, report).1)
  {
    var n := |c.rejections|;
    if n > 0 && env.currentReads {
      var at := c.rejections[n - 1].at;
      assert ChainAt(s.start, s.log, at) < c.pc.request.nonce <= s.chain;
      assert at < |s.log|;
    }
  }

  lemma VerdictGuided(env: Env, s: Shared, i: nat, c: Call, report: bool)
    requires Journal(s) && CallOk(s, i, c) && GuidedOk(env, s, c)
    requires c.pc.Rpc? && c.pc.request.SendTx? && (env.reports ==> report)
    requires c.landed.None? ==> !Accepts(c.mode, s.chain, c.pc.request.nonce)
    ensures GuidedOk(env, TakeVerdict(s, c, report).0, TakeVerdict(s, c, report).1)
  {
    if c.landed.None? {
      RejectedGuided(env, s, i, c, report);
    }
  }

  lemma SettleGuided(env: Env, s: Shared, i: nat, c: Call, reply: Reply)
    requires Journal(s) && CallOk(s, i, c) && GuidedOk(env, s, c) && CanPost(env, s, c, reply)
    requires reply.Handled? && c.landed.None? ==> !Accepts(c.mode, s.chain, c.pc.request.nonce)
    ensures GuidedOk(env, Settle(env, s, c, reply).0, Settle(env, s, c, reply).1)
  {
    match reply
    case Lost(_) =>
    case Fatal(_) =>
    case Value(v) => ValueGuided(env, s, i, c, v);
    case Handled(report) => VerdictGuided(env, s, i, c, report);
  }

  lemma PostGuided(env: Env, s: Shared, i: nat, c: Call, reply: Reply)
    requires Journal(s) && CallOk(s, i, c) && GuidedOk(env, s, c) && CanPost(env, s, c, reply)
    ensures GuidedOk(env, DoPost(env, s, i, c, reply).0, DoPost(env, s, i, c, reply).1)
  {
    if Processes(reply) {
      var (s', c') := Process(s, i, c);
      ProcessStep(s, i, c);
      ProcessExtends(s, i, c);
      ChainGrows(s, s');
      GuidedFrame(env, s, s', i, c);
      assert GuidedOk(env, s', c');
      SettleGuided(env, s', i, c', reply);
    } else {
      SettleGuided(env, s, i, c, reply);
    }
  }

  lemma OwnGuided(env: Env, w: World, e: Event)
    requires GuidedInv(env, w) && Enabled(env, w, e) && !e.ForeignLand?
    ensures var (s', c') := DoStep(env, w.shared, e.call, w.calls[e.call], Uncovered(w.shared, w.calls), e);
            GuidedOk(env, s', c')
  {
    var (s, i, c) := (w.shared, e.call, w.calls[e.call]);
    assert CallOk(s, i, c) && GuidedOk(env, s, c);
    if e.Post? {
      PostGuided(env, s, i, c, e.reply);
    } else {
      GoGuided(env, s, i, c, Uncovered(w.shared, w.calls));
    }
  }

  lemma GuidedStep(env: Env, w: World, e: Event)
    requires GuidedInv(env, w) && Enabled(env, w, e)
    ensures GuidedInv(env, Apply(env, w, e))
  {
    var w' := Apply(env, w, e);
    InvStep(env, w, e);
    ApplyExtends(env, w, e);
    ChainGrows(w.shared, w'.shared);
    if !e.ForeignLand? {
      OwnGuided(env, w, e);
    }
    forall j | 0 <= j < |w'.calls| && (e.ForeignLand? || j != e.call) ensures GuidedOk(env, w'.shared, w'.calls[j]) {
      assert CallOk(w.shared, j, w.calls[j]) && GuidedOk(env, w.shared, w.calls[j]);
      GuidedFrame(env, w.shared, w'.shared, j, w.calls[j]);
    }
  }

  lemma {:induction false} GuidedAfter(env: Env, w: World, events: seq<Event>)
    requires GuidedInv(env, w) && Runs(env, w, events)
    ensures GuidedInv(env, After(env, w, events))
    decreases |events|
  {
    if events != [] {
      GuidedStep(env, w, events[0]);
      GuidedAfter(env, Apply(env, w, events[0]), events[1..]);
    }
  }

  lemma ReachableGuided(env: Env, w: World)
    requires Reachable(env, w)
    ensures GuidedInv(env, w)
  {
    var w0, events :| Initial(w0) && Runs(env, w0, events) && After(env, w0, events) == w;
    InitialInv(w0);
    GuidedAfter(env, w0, events);
  }

  // ---------- Theorems ----------

  /** With guidance of either kind, any two rejections of a call have a landing between them, in either mode. */
  lemma GuidedRejectionsRise(env: Env, w: World, i: nat)
    requires Guided(env) && Reachable(env, w) && i < |w.calls|
    ensures Rising(w.calls[i].rejections)
  {
    ReachableGuided(env, w);
    assert CallOk(w.shared, i, w.calls[i]) && GuidedOk(env, w.shared, w.calls[i]);
  }
}
