/** The per-client nonce cache: its string keys, its three atomic operations, and what any sequence of them does. */
module NonceCache {
  import opened Wrappers
  import opened World
  import opened Decimal
  import AccountId

  // ---------- Keys ----------

  datatype Curve = Ed25519 | Secp256k1 | MlDsa65

  function CurvePrefix(curve: Curve): string {
    match curve
    case Ed25519 => "ed25519:"
    case Secp256k1 => "secp256k1:"
    case MlDsa65 => "ml-dsa-65:"
  }

  /** The Bitcoin base58 alphabet: no zero, capital O, capital I or small l. */
  predicate IsBase58(c: char) {
    || ('1' <= c <= '9')
    || ('A' <= c <= 'Z' && c != 'I' && c != 'O')
    || ('a' <= c <= 'z' && c != 'l')
  }

  /** Who signs, and on which nonce lane of a gas key, if any. */
  datatype Target = Target(account: string, curve: Curve, body: string, lane: Option<nat>)

  ghost predicate WellFormed(t: Target) {
    AccountId.IsValid(t.account) && forall i :: 0 <= i < |t.body| ==> IsBase58(t.body[i])
  }

  function KeyText(t: Target): string {
    CurvePrefix(t.curve) + t.body
  }

  function LaneText(lane: Option<nat>): string {
    match lane
    case None => ""
    case Some(n) => "#" + OfNat(n)
  }

  /** `NonceCache.key`. */
  function CacheKey(t: Target): string {
    t.account + ":" + KeyText(t) + LaneText(t.lane)
  }

  /** A text cut at a mark that does not occur before it can be cut only there. */
  lemma CutAt(a: string, b: string, a': string, b': string, mark: char)
    requires a + [mark] + b == a' + [mark] + b'
    requires forall i :: 0 <= i < |a| ==> a[i] != mark
    requires forall i :: 0 <= i < |a'| ==> a'[i] != mark
    ensures a == a' && b == b'
  {
    var s := a + [mark] + b;
    assert s[|a|] == mark && s[|a'|] == mark;
    assert forall i :: 0 <= i < |a| ==> s[i] == a[i];
    assert forall i :: 0 <= i < |a'| ==> s[i] == a'[i];
    assert |a| == |a'|;
    assert a == s[..|a|] && b == s[|a| + 1..];
  }

  lemma KeyTextHasNoHash(t: Target, i: nat)
    requires WellFormed(t) && i < |KeyText(t)|
    ensures KeyText(t)[i] != '#'
  {
  }

  lemma KeyTextInjective(t: Target, t': Target)
    requires KeyText(t) == KeyText(t')
    ensures t.curve == t'.curve && t.body == t'.body
  {
    assert KeyText(t)[0] == CurvePrefix(t.curve)[0] && KeyText(t')[0] == CurvePrefix(t'.curve)[0];
    assert t.body == KeyText(t)[|CurvePrefix(t.curve)|..];
    assert t'.body == KeyText(t')[|CurvePrefix(t'.curve)|..];
  }

  lemma LaneInjective(p: string, lane: Option<nat>, p': string, lane': Option<nat>)
    requires p + LaneText(lane) == p' + LaneText(lane')
    requires forall i :: 0 <= i < |p| ==> p[i] != '#'
    requires forall i :: 0 <= i < |p'| ==> p'[i] != '#'
    ensures p == p' && lane == lane'
  {
    var (s, s') := (p + LaneText(lane), p' + LaneText(lane'));
    assert lane.Some? ==> s[|p|] == '#';
    assert lane'.Some? ==> s'[|p'|] == '#';
    assert lane.None? ==> s == p;
    assert lane'.None? ==> s' == p';
    if lane.Some? && lane'.Some? {
      assert s == p + ['#'] + OfNat(lane.value);
      assert s' == p' + ['#'] + OfNat(lane'.value);
      CutAt(p, OfNat(lane.value), p', OfNat(lane'.value), '#');
      PrintedNumbersDiffer(lane.value, lane'.value);
    }
  }

  /** Signer and lane can be told from the key: no two share one, and no lane is "no lane". */
  lemma CacheKeyInjective(t: Target, t': Target)
    requires WellFormed(t) && WellFormed(t') && CacheKey(t) == CacheKey(t')
    ensures t == t'
  {
    forall i | 0 <= i < |t.account| ensures t.account[i] != ':' { AccountId.NoColon(t.account, i); }
    forall i | 0 <= i < |t'.account| ensures t'.account[i] != ':' { AccountId.NoColon(t'.account, i); }
    assert CacheKey(t) == t.account + [':'] + (KeyText(t) + LaneText(t.lane));
    assert CacheKey(t') == t'.account + [':'] + (KeyText(t') + LaneText(t'.lane));
    CutAt(t.account, KeyText(t) + LaneText(t.lane), t'.account, KeyText(t') + LaneText(t'.lane), ':');
    forall i | 0 <= i < |KeyText(t)| ensures KeyText(t)[i] != '#' { KeyTextHasNoHash(t, i); }
    forall i | 0 <= i < |KeyText(t')| ensures KeyText(t')[i] != '#' { KeyTextHasNoHash(t', i); }
    LaneInjective(KeyText(t), t.lane, KeyText(t'), t'.lane);
    KeyTextInjective(t, t');
  }

  // ---------- Operations ----------

  type Nonces = map<string, nat>

  function Lookup(nonces: Nonces, key: string): Option<nat> {
    if key in nonces then Some(nonces[key]) else None
  }

  class NonceCache {
    var nonces: Nonces

    constructor ()
      ensures nonces == map[]
    {
      nonces := map[];
    }

    /** Hands out, and remembers, the least positive nonce above both the cached and the fetched one. */
    method Reserve(key: string, onChain: Option<nat>) returns (next: nat)
      modifies this
      ensures next == NextNonce(old(Lookup(nonces, key)), onChain)
      ensures nonces == old(nonces)[key := next]
      ensures key in old(nonces) ==> next > old(nonces)[key]
      ensures onChain.Some? ==> next > onChain.value
      ensures next == 1 || (key in old(nonces) && next == old(nonces)[key] + 1) || (onChain.Some? && next == onChain.value + 1)
    {
      var base := 0;
      if key in nonces {
        base := nonces[key];
      }
      if onChain.Some? {
        base := Max(base, onChain.value);
      }
      next := base + 1;
      nonces := nonces[key := next];
    }

    method Has(key: string) returns (has: bool)
      ensures has == (key in nonces)
    {
      has := key in nonces;
    }

    /** Lifts the cached nonce to one the node reported or accepted, and never lowers it. */
    method SyncTo(key: string, nonce: nat)
      modifies this
      ensures nonces == old(nonces)[key := Synced(old(Lookup(nonces, key)), nonce)]
      ensures nonces[key] >= nonce && (key in old(nonces) ==> nonces[key] >= old(nonces)[key])
      ensures nonces[key] == nonce || (key in old(nonces) && nonces[key] == old(nonces)[key])
    {
      var base := 0;
      if key in nonces {
        base := nonces[key];
      }
      nonces := nonces[key := Max(base, nonce)];
    }
  }

  // ---------- Any sequence of operations, from any threads or tasks ----------

  datatype Op = ReserveOp(key: string, onChain: Option<nat>) | HasOp(key: string) | SyncOp(key: string, nonce: nat)

  function RunOp(nonces: Nonces, op: Op): Nonces {
    match op
    case ReserveOp(key, onChain) => nonces[key := NextNonce(Lookup(nonces, key), onChain)]
    case HasOp(_) => nonces
    case SyncOp(key, nonce) => nonces[key := Synced(Lookup(nonces, key), nonce)]
  }

  function RunOps(nonces: Nonces, ops: seq<Op>): Nonces {
    if ops == [] then nonces else RunOp(RunOps(nonces, ops[..|ops| - 1]), ops[|ops| - 1])
  }

  /** The nonce the i-th operation hands out, a reservation. */
  function Handed(nonces: Nonces, ops: seq<Op>, i: nat): nat
    requires i < |ops| && ops[i].ReserveOp?
  {
    NextNonce(Lookup(RunOps(nonces, ops[..i]), ops[i].key), ops[i].onChain)
  }

  /** Cached values never fall and keys never disappear. */
  lemma {:induction false} CacheOnlyRises(nonces: Nonces, ops: seq<Op>, i: nat, j: nat, key: string)
    requires i <= j <= |ops| && key in RunOps(nonces, ops[..i])
    ensures key in RunOps(nonces, ops[..j])
    ensures RunOps(nonces, ops[..i])[key] <= RunOps(nonces, ops[..j])[key]
    decreases j
  {
    if i < j {
      CacheOnlyRises(nonces, ops, i, j - 1, key);
      assert ops[..j][..j - 1] == ops[..j - 1];
    }
  }

  /** Reservations of one key hand out strictly increasing nonces, whatever happens between them. */
  lemma ReservationsIncrease(nonces: Nonces, ops: seq<Op>, i: nat, j: nat)
    requires i < j < |ops| && ops[i].ReserveOp? && ops[j].ReserveOp? && ops[i].key == ops[j].key
    ensures Handed(nonces, ops, i) < Handed(nonces, ops, j)
  {
    assert ops[..i + 1][..i] == ops[..i];
    CacheOnlyRises(nonces, ops, i + 1, j, ops[i].key);
  }

  function OnKey(ops: seq<Op>, key: string): seq<Op> {
    if ops == [] then []
    else OnKey(ops[..|ops| - 1], key) + (if ops[|ops| - 1].key == key then [ops[|ops| - 1]] else [])
  }

  /** What a key's operations do depends on that key's operations only. */
  lemma {:induction false} KeysAreIndependent(nonces: Nonces, ops: seq<Op>, key: string)
    ensures Lookup(RunOps(nonces, ops), key) == Lookup(RunOps(nonces, OnKey(ops, key)), key)
  {
    if ops != [] {
      var front := ops[..|ops| - 1];
      KeysAreIndependent(nonces, front, key);
      if ops[|ops| - 1].key == key {
        assert OnKey(ops, key)[..|OnKey(ops, key)| - 1] == OnKey(front, key);
      } else {
        assert OnKey(ops, key) == OnKey(front, key);
      }
    }
  }

  lemma {:induction false} OnKeyKeeps(ops: seq<Op>, key: string, i: nat)
    requires i < |ops| && ops[i].key == key
    ensures |OnKey(ops[..i], key)| < |OnKey(ops, key)|
    ensures OnKey(ops, key)[|OnKey(ops[..i], key)|] == ops[i]
    ensures OnKey(ops, key)[..|OnKey(ops[..i], key)|] == OnKey(ops[..i], key)
    decreases |ops|
  {
    var front := ops[..|ops| - 1];
    if i < |front| {
      OnKeyKeeps(front, key, i);
      assert front[..i] == ops[..i];
    }
  }

  /** So one lane's reservations never see another lane: the nonce handed out is the one its own operations give. */
  lemma LanesDoNotInterfere(nonces: Nonces, ops: seq<Op>, i: nat, t: Target)
    requires i < |ops| && ops[i].ReserveOp? && ops[i].key == CacheKey(t)
    ensures var own := OnKey(ops, CacheKey(t)); var place := |OnKey(ops[..i], CacheKey(t))|;
            && place < |own| && own[place] == ops[i]
            && Handed(nonces, ops, i) == Handed(nonces, own, place)
  {
    OnKeyKeeps(ops, CacheKey(t), i);
    KeysAreIndependent(nonces, ops[..i], CacheKey(t));
  }
}
