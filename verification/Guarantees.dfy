/**
What `send_transaction` guarantees under every interleaving, whoever else
writes the key, however stale the reads, and whatever POSTs are lost.
*/
module Guarantees {
  import opened Wrappers
  import opened World
  import opened Invariants
  import opened Guidance

  // ---------- Strict sends take turns ----------

  /** Two strict sends of one client are never both between their fetch and their return. */
  lemma StrictSendsExclude(env: Env, w: World, i: nat, j: nat)
    requires Reachable(env, w) && i < |w.calls| && j < |w.calls|
    requires w.calls[i].mode.Strict? && w.calls[j].mode.Strict? && w.calls[i].client == w.calls[j].client
    requires Inside(w.calls[i]) && Inside(w.calls[j])
    ensures i == j
  {
    ReachableInv(env, w);
    assert CallOk(w.shared, i, w.calls[i]) && CallOk(w.shared, j, w.calls[j]);
  }

  // ---------- The cache never guesses ----------

  /** `reserve` without a fetched nonce always finds the key cached, at no less than a nonce the node told the client. */
  lemma ReserveNeverGuesses(env: Env, w: World, i: nat) returns (known: nat)
    requires Reachable(env, w) && i < |w.calls| && w.calls[i].pc == Reserving(None)
    ensures w.calls[i].client in w.shared.caches
    ensures (w.calls[i].client, known) in w.shared.told
    ensures known <= w.shared.caches[w.calls[i].client]
  {
    ReachableInv(env, w);
    assert CallOk(w.shared, i, w.calls[i]);
    known :| known <= w.shared.caches[w.calls[i].client] && (w.calls[i].client, known) in w.shared.told;
  }

  // ---------- What an outcome says about the chain ----------

  ghost predicate LandedBy(w: World, k: nat, i: nat) {
    k < |w.shared.log| && w.shared.log[k].author == Ours(i)
  }

  /** A call that returns has exactly one accepted transaction; one that raises InvalidNonceError has none. */
  lemma OutcomeMatchesChain(env: Env, w: World, i: nat)
    requires Reachable(env, w) && i < |w.calls|
    ensures w.calls[i].pc == Done(Landed) ==> exists k :: LandedBy(w, k, i)
    ensures w.calls[i].pc == Done(InvalidNonce) ==> forall k :: !LandedBy(w, k, i)
    ensures forall j, k :: LandedBy(w, j, i) && LandedBy(w, k, i) ==> j == k
  {
    ReachableInv(env, w);
    assert CallOk(w.shared, i, w.calls[i]);
    if w.calls[i].landed.Some? {
      assert LandedBy(w, w.calls[i].landed.value, i);
    }
  }

  /** The chain nonce is the nonce of the last landing, and landings strictly increase. */
  lemma LandingsIncrease(env: Env, w: World, j: nat, k: nat)
    requires Reachable(env, w) && j < k < |w.shared.log|
    ensures w.shared.start < w.shared.log[j].nonce < w.shared.log[k].nonce <= w.shared.chain
  {
    ReachableInv(env, w);
    var (start, log) := (w.shared.start, w.shared.log);
    assert ChainAt(start, log, 0) < ChainAt(start, log, j + 1) < ChainAt(start, log, k + 1);
    assert k + 1 < |log| ==> ChainAt(start, log, k + 1) < ChainAt(start, log, |log|);
  }

  // ---------- Retrying is never in vain ----------

  /** After a rejection that named nonce r, the next attempt signs above r; in strict mode, exactly r + 1. */
  lemma RetriesAimAbove(env: Env, w: World, i: nat, nonce: nat)
    requires Reachable(env, w) && i < |w.calls|
    requires Signing(w.calls[i]) == Some(nonce) && |w.calls[i].rejections| > 0
    requires w.calls[i].rejections[|w.calls[i].rejections| - 1].reported.Some?
    ensures var r := w.calls[i].rejections[|w.calls[i].rejections| - 1].reported.value;
            if w.calls[i].mode.Strict? then nonce == r + 1 else nonce > r
  {
    ReachableInv(env, w);
    assert CallOk(w.shared, i, w.calls[i]);
  }

  /** A rejection that is followed by another is answered if it named its nonce, or if reads are current. */
  ghost predicate Answered(env: Env, rejections: seq<Rejection>) {
    Guided(env) || forall a :: 0 <= a && a + 1 < |rejections| ==> rejections[a].reported.Some?
  }

  /**
   Between an answered rejection and the next one, somebody else's transaction
   landed. So a send that nobody overtakes after its first rejection succeeds
   on its second attempt, in either mode.
   */
  lemma RejectedTwiceMeansOvertaken(env: Env, w: World, i: nat, a: nat) returns (k: nat)
    requires Reachable(env, w) && i < |w.calls| && a + 1 < |w.calls[i].rejections|
    requires Guided(env) || w.calls[i].rejections[a].reported.Some?
    ensures w.calls[i].rejections[a].at <= k < w.calls[i].rejections[a + 1].at <= |w.shared.log|
    ensures w.shared.log[k].author != Ours(i)
  {
    ReachableInv(env, w);
    assert CallOk(w.shared, i, w.calls[i]);
    if Guided(env) {
      GuidedRejectionsRise(env, w, i);
    }
    k := w.calls[i].rejections[a].at;
  }

  /** Giving up takes three rejections; if the first two were answered, two others landed in between. */
  lemma GivingUpMeansTwoOvertook(env: Env, w: World, i: nat) returns (j: nat, k: nat)
    requires Reachable(env, w) && i < |w.calls| && w.calls[i].pc == Done(InvalidNonce)
    requires Answered(env, w.calls[i].rejections)
    ensures |w.calls[i].rejections| == 3
    ensures w.calls[i].rejections[0].at <= j < k < w.calls[i].rejections[2].at <= |w.shared.log|
    ensures w.shared.log[j].author != Ours(i) && w.shared.log[k].author != Ours(i)
  {
    ReachableInv(env, w);
    assert CallOk(w.shared, i, w.calls[i]);
    j := RejectedTwiceMeansOvertaken(env, w, i, 0);
    k := RejectedTwiceMeansOvertaken(env, w, i, 1);
  }
}
