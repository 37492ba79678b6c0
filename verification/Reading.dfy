/**
Reading wire bytes back into values. Building a state init sorts its entries,
and decoding builds one, so decoding is the raw layout followed by a pass that
puts every state init in order, or refuses one with a repeated key.
*/
module Reading {
  import opened Wrappers
  import opened Codec
  import opened Wire
  import opened Transactions
  import opened StateInits

  function SettleAll<T>(settle: T -> Option<T>, xs: seq<T>): (r: Option<seq<T>>)
    ensures r.Some? ==> |r.value| == |xs|
  {
    if xs == [] then Some([])
    else
      var x :- settle(xs[0]);
      var rest :- SettleAll(settle, xs[1..]);
      Some([x] + rest)
  }

  function SettlePlain(a: Plain): Option<Plain> {
    match a
    case DeterministicStateInit(s, deposit) =>
      var made :- Make(s.code, s.data);
      Some(DeterministicStateInit(made, deposit))
    case _ => Some(a)
  }

  function SettleDelegate(d: DelegateAction): Option<DelegateAction> {
    var actions :- SettleAll(SettlePlain, d.actions);
    Some(d.(actions := actions))
  }

  function SettleSigned(s: SignedDelegate): Option<SignedDelegate> {
    var d :- SettleDelegate(s.delegate);
    Some(s.(delegate := d))
  }

  function SettleAction(a: Action): Option<Action> {
    match a
    case Plain(p) =>
      var q :- SettlePlain(p);
      Some(Action.Plain(q))
    case Delegated(s) =>
      var t :- SettleSigned(s);
      Some(Delegated(t))
  }

  function SettleTransaction(t: (Transaction, Signature)): Option<(Transaction, Signature)> {
    var actions :- SettleAll(SettleAction, t.0.actions);
    Some((t.0.(actions := actions), t.1))
  }

  function SettleTransactionV1(t: (TransactionV1, Signature)): Option<(TransactionV1, Signature)> {
    var actions :- SettleAll(SettleAction, t.0.actions);
    Some((t.0.(actions := actions), t.1))
  }

  // ---------- Values that can be built ----------

  /** Every state init in the value is in canonical order, as its constructor leaves it. */
  ghost predicate SettledPlain(a: Plain) {
    a.DeterministicStateInit? ==> StrictlyAscending(a.stateInit.data)
  }

  ghost predicate SettledPlains(actions: seq<Plain>) {
    forall i :: 0 <= i < |actions| ==> SettledPlain(actions[i])
  }

  ghost predicate SettledAction(a: Action) {
    match a case Plain(p) => SettledPlain(p) case Delegated(s) => SettledPlains(s.delegate.actions)
  }

  ghost predicate SettledActions(actions: seq<Action>) {
    forall i :: 0 <= i < |actions| ==> SettledAction(actions[i])
  }

  // ---------- Settling ----------

  /** Settling makes values buildable, and leaves alone exactly those that are. */
  ghost predicate Settles<T(!new)>(settle: T -> Option<T>, settled: T -> bool) {
    && (forall x :: settle(x).Some? ==> settled(settle(x).value))
    && (forall x :: settle(x) == Some(x) <==> settled(x))
  }

  ghost predicate All<T>(settled: T -> bool, xs: seq<T>) {
    forall i :: 0 <= i < |xs| ==> settled(xs[i])
  }

  lemma {:induction false} SettlesAll<T(!new)>(settle: T -> Option<T>, settled: T -> bool, xs: seq<T>)
    requires Settles(settle, settled)
    ensures SettleAll(settle, xs).Some? ==> All(settled, SettleAll(settle, xs).value)
    ensures SettleAll(settle, xs) == Some(xs) <==> All(settled, xs)
  {
    if xs != [] {
      SettlesAll(settle, settled, xs[1..]);
      assert xs == [xs[0]] + xs[1..];
      AllCons(settled, xs);
    }
  }

  lemma PlainSettles()
    ensures Settles(SettlePlain, (a: Plain) => SettledPlain(a))
  {
    forall a: Plain
      ensures SettlePlain(a).Some? ==> SettledPlain(SettlePlain(a).value)
      ensures SettlePlain(a) == Some(a) <==> SettledPlain(a)
    {
      if a.DeterministicStateInit? {
        CanonicalOrRepeated(a.stateInit.data);
        FixedWhenAscending(a.stateInit.data);
      }
    }
  }

  lemma DelegateSettles(d: DelegateAction)
    ensures SettleDelegate(d).Some? ==> SettledPlains(SettleDelegate(d).value.actions)
    ensures SettleDelegate(d) == Some(d) <==> SettledPlains(d.actions)
  {
    var settled := (a: Plain) => SettledPlain(a);
    PlainSettles();
    SettlesAll(SettlePlain, settled, d.actions);
    assert SettledPlains(d.actions) == All(settled, d.actions);
  }

  lemma ActionSettles()
    ensures Settles(SettleAction, (a: Action) => SettledAction(a))
  {
    PlainSettles();
    forall a: Action
      ensures SettleAction(a).Some? ==> SettledAction(SettleAction(a).value)
      ensures SettleAction(a) == Some(a) <==> SettledAction(a)
    {
      if a.Delegated? {
        DelegateSettles(a.signed.delegate);
      }
    }
  }

  lemma ActionsSettle(actions: seq<Action>)
    ensures SettleAll(SettleAction, actions).Some? ==> SettledActions(SettleAll(SettleAction, actions).value)
    ensures SettleAll(SettleAction, actions) == Some(actions) <==> SettledActions(actions)
  {
    var settled := (a: Action) => SettledAction(a);
    ActionSettles();
    SettlesAll(SettleAction, settled, actions);
    assert SettledActions(actions) == All(settled, actions);
  }

  // ---------- Reading ----------

  function Read<T>(c: Codec<T>, settle: T -> Option<T>, bs: Bytes): Option<(T, Bytes)> {
    var (raw, rest) :- c.dec(bs);
    var x :- settle(raw);
    Some((x, rest))
  }

  function ReadTransaction(bs: Bytes): Option<((Transaction, Signature), Bytes)> {
    Read(SignedCodec(), SettleTransaction, bs)
  }

  function ReadTransactionV1(bs: Bytes): Option<((TransactionV1, Signature), Bytes)> {
    Read(SignedV1Codec(), SettleTransactionV1, bs)
  }

  function ReadDelegate(bs: Bytes): Option<(SignedDelegate, Bytes)> {
    Read(SignedDelegateCodec(), SettleSigned, bs)
  }

  lemma ReadsBack<T(!new)>(c: Codec<T>, settle: T -> Option<T>, x: T, rest: Bytes)
    requires Lawful(c) && settle(x) == Some(x)
    ensures Read(c, settle, c.enc(x) + rest) == Some((x, rest))
  {
    assert c.dec(c.enc(x) + rest) == Some((x, rest));
  }

  /** What was read is written as the very bytes read. */
  ghost predicate WrittenAlike<T>(c: Codec<T>, settle: T -> Option<T>, bs: Bytes) {
    Read(c, settle, bs).Some? && bs == c.enc(Read(c, settle, bs).value.0) + Read(c, settle, bs).value.1
  }

  /** That is so exactly when they had nothing to put in order. */
  lemma Reencodes<T(!new)>(c: Codec<T>, settle: T -> Option<T>, bs: Bytes, inOrder: bool)
    requires Lawful(c) && Read(c, settle, bs).Some?
    requires settle(c.dec(bs).value.0) == Some(c.dec(bs).value.0) <==> inOrder
    ensures WrittenAlike(c, settle, bs) <==> inOrder
  {
    var (raw, left) := c.dec(bs).value;
    var y := settle(raw).value;
    assert bs == c.enc(raw) + left;
    if bs == c.enc(y) + left {
      PrefixFree(c, raw, left, y, left);
    }
  }

  /** A signed version 0 transaction that can be built reads back, with what follows it left over. */
  lemma TransactionReadsBack(t: Transaction, signature: Signature, rest: Bytes)
    requires SettledActions(t.actions)
    ensures ReadTransaction(SignedCodec().enc((t, signature)) + rest) == Some(((t, signature), rest))
  {
    SignedLawful();
    ActionsSettle(t.actions);
    assert t.(actions := t.actions) == t;
    ReadsBack(SignedCodec(), SettleTransaction, (t, signature), rest);
  }

  lemma TransactionV1ReadsBack(t: TransactionV1, signature: Signature, rest: Bytes)
    requires SettledActions(t.actions)
    ensures ReadTransactionV1(SignedV1Codec().enc((t, signature)) + rest) == Some(((t, signature), rest))
  {
    SignedLawful();
    ActionsSettle(t.actions);
    assert t.(actions := t.actions) == t;
    ReadsBack(SignedV1Codec(), SettleTransactionV1, (t, signature), rest);
  }

  lemma DelegateReadsBack(s: SignedDelegate, rest: Bytes)
    requires SettledPlains(s.delegate.actions)
    ensures ReadDelegate(SignedDelegateCodec().enc(s) + rest) == Some((s, rest))
  {
    SignedDelegateLawful();
    DelegateSettles(s.delegate);
    assert s.(delegate := s.delegate) == s;
    ReadsBack(SignedDelegateCodec(), SettleSigned, s, rest);
  }

  /** Whatever is read can be built: every state init in it is in order. */
  lemma ReadTransactionsAreSettled(bs: Bytes)
    ensures ReadTransaction(bs).Some? ==> SettledActions(ReadTransaction(bs).value.0.0.actions)
    ensures ReadTransactionV1(bs).Some? ==> SettledActions(ReadTransactionV1(bs).value.0.0.actions)
  {
    if ReadTransaction(bs).Some? {
      ActionsSettle(SignedCodec().dec(bs).value.0.0.actions);
    }
    if ReadTransactionV1(bs).Some? {
      ActionsSettle(SignedV1Codec().dec(bs).value.0.0.actions);
    }
  }

  lemma ReadDelegatesAreSettled(bs: Bytes)
    ensures ReadDelegate(bs).Some? ==> SettledPlains(ReadDelegate(bs).value.0.delegate.actions)
  {
    if ReadDelegate(bs).Some? {
      DelegateSettles(SignedDelegateCodec().dec(bs).value.0.delegate);
    }
  }

  lemma TransactionSettles(t: (Transaction, Signature))
    ensures SettleTransaction(t) == Some(t) <==> SettledActions(t.0.actions)
  {
    ActionsSettle(t.0.actions);
    assert t.0.(actions := t.0.actions) == t.0;
  }

  /** A transaction that was read is written as the bytes read exactly when those had every state init in order. */
  lemma ReencodesWhenInOrder(bs: Bytes)
    requires ReadTransaction(bs).Some?
    ensures WrittenAlike(SignedCodec(), SettleTransaction, bs)
            <==> SettledActions(SignedCodec().dec(bs).value.0.0.actions)
  {
    SignedLawful();
    TransactionSettles(SignedCodec().dec(bs).value.0);
    Reencodes(SignedCodec(), SettleTransaction, bs, SettledActions(SignedCodec().dec(bs).value.0.0.actions));
  }

  lemma TransactionV1Settles(t: (TransactionV1, Signature))
    ensures SettleTransactionV1(t) == Some(t) <==> SettledActions(t.0.actions)
  {
    ActionsSettle(t.0.actions);
    assert t.0.(actions := t.0.actions) == t.0;
  }

  /** The same of version 1 transactions. */
  lemma ReencodesV1WhenInOrder(bs: Bytes)
    requires ReadTransactionV1(bs).Some?
    ensures WrittenAlike(SignedV1Codec(), SettleTransactionV1, bs)
            <==> SettledActions(SignedV1Codec().dec(bs).value.0.0.actions)
  {
    SignedLawful();
    TransactionV1Settles(SignedV1Codec().dec(bs).value.0);
    Reencodes(SignedV1Codec(), SettleTransactionV1, bs, SettledActions(SignedV1Codec().dec(bs).value.0.0.actions));
  }

  lemma SignedDelegateSettles(s: SignedDelegate)
    ensures SettleSigned(s) == Some(s) <==> SettledPlains(s.delegate.actions)
  {
    DelegateSettles(s.delegate);
    assert s.(delegate := s.delegate) == s;
  }

  /** And of signed delegates. */
  lemma ReencodesDelegateWhenInOrder(bs: Bytes)
    requires ReadDelegate(bs).Some?
    ensures WrittenAlike(SignedDelegateCodec(), SettleSigned, bs)
            <==> SettledPlains(SignedDelegateCodec().dec(bs).value.0.delegate.actions)
  {
    SignedDelegateLawful();
    SignedDelegateSettles(SignedDelegateCodec().dec(bs).value.0);
    Reencodes(SignedDelegateCodec(), SettleSigned, bs, SettledPlains(SignedDelegateCodec().dec(bs).value.0.delegate.actions));
  }

  // ---------- What reading may change ----------

  /** No state init in the action has a repeated key. */
  ghost predicate DistinctPlain(a: Plain) {
    a.DeterministicStateInit? ==> DistinctKeys(a.stateInit.data)
  }

  ghost predicate DistinctAction(a: Action) {
    match a case Plain(p) => DistinctPlain(p) case Delegated(s) => All((p: Plain) => DistinctPlain(p), s.delegate.actions)
  }

  ghost predicate DistinctActions(actions: seq<Action>) {
    All((a: Action) => DistinctAction(a), actions)
  }

  /** The same action, but for the order of a state init's entries. */
  ghost predicate ReorderedPlain(a: Plain, b: Plain) {
    if a.DeterministicStateInit? then
      && b.DeterministicStateInit? && b.deposit == a.deposit && b.stateInit.code == a.stateInit.code
      && multiset(b.stateInit.data) == multiset(a.stateInit.data)
    else b == a
  }

  ghost predicate Pairwise<T>(related: (T, T) -> bool, xs: seq<T>, ys: seq<T>) {
    |xs| == |ys| && forall i :: 0 <= i < |xs| ==> related(xs[i], ys[i])
  }

  ghost predicate ReorderedDelegate(d: DelegateAction, e: DelegateAction) {
    && e == d.(actions := e.actions)
    && Pairwise((a: Plain, b: Plain) => ReorderedPlain(a, b), d.actions, e.actions)
  }

  ghost predicate ReorderedAction(a: Action, b: Action) {
    match a
    case Plain(p) => b.Plain? && ReorderedPlain(p, b.plain)
    case Delegated(s) =>
      b.Delegated? && b.signed.signature == s.signature && ReorderedDelegate(s.delegate, b.signed.delegate)
  }

  ghost predicate ReorderedActions(actions: seq<Action>, others: seq<Action>) {
    Pairwise((a: Action, b: Action) => ReorderedAction(a, b), actions, others)
  }

  /** Settling fails only on values outside `ok`, and keeps a value related to itself. */
  ghost predicate Keeps<T(!new)>(settle: T -> Option<T>, ok: T -> bool, related: (T, T) -> bool) {
    forall x :: (settle(x).Some? <==> ok(x)) && (settle(x).Some? ==> related(x, settle(x).value))
  }

  lemma {:induction false} KeepsAll<T(!new)>(settle: T -> Option<T>, ok: T -> bool, related: (T, T) -> bool, xs: seq<T>)
    requires Keeps(settle, ok, related)
    ensures SettleAll(settle, xs).Some? <==> All(ok, xs)
    ensures SettleAll(settle, xs).Some? ==> Pairwise(related, xs, SettleAll(settle, xs).value)
  {
    if xs != [] {
      KeepsAll(settle, ok, related, xs[1..]);
      AllCons(ok, xs);
      if All(ok, xs) {
        var ys := SettleAll(settle, xs[1..]).value;
        PairwiseCons(related, xs, settle(xs[0]).value, ys);
      }
    }
  }

  lemma AllCons<T>(ok: T -> bool, xs: seq<T>)
    requires xs != []
    ensures All(ok, xs) <==> ok(xs[0]) && All(ok, xs[1..])
  {
    if ok(xs[0]) && All(ok, xs[1..]) {
      forall i | 0 <= i < |xs| ensures ok(xs[i]) {
        assert i > 0 ==> xs[i] == xs[1..][i - 1];
      }
    }
  }

  lemma PairwiseCons<T>(related: (T, T) -> bool, xs: seq<T>, y: T, ys: seq<T>)
    requires xs != [] && related(xs[0], y) && Pairwise(related, xs[1..], ys)
    ensures Pairwise(related, xs, [y] + ys)
  {
    forall i | 0 <= i < |xs| ensures related(xs[i], ([y] + ys)[i]) {
      assert i > 0 ==> xs[i] == xs[1..][i - 1] && ([y] + ys)[i] == ys[i - 1];
    }
  }

  lemma PlainKeeps()
    ensures Keeps(SettlePlain, (a: Plain) => DistinctPlain(a), (a: Plain, b: Plain) => ReorderedPlain(a, b))
  {
    forall a: Plain
      ensures SettlePlain(a).Some? <==> DistinctPlain(a)
      ensures SettlePlain(a).Some? ==> ReorderedPlain(a, SettlePlain(a).value)
    {
      if a.DeterministicStateInit? {
        MadeInOrder(a.stateInit.code, a.stateInit.data);
      }
    }
  }

  lemma DelegateKeeps(d: DelegateAction)
    ensures SettleDelegate(d).Some? <==> All((p: Plain) => DistinctPlain(p), d.actions)
    ensures SettleDelegate(d).Some? ==> ReorderedDelegate(d, SettleDelegate(d).value)
  {
    PlainKeeps();
    KeepsAll(SettlePlain, (a: Plain) => DistinctPlain(a), (a: Plain, b: Plain) => ReorderedPlain(a, b), d.actions);
  }

  lemma ActionKeeps()
    ensures Keeps(SettleAction, (a: Action) => DistinctAction(a), (a: Action, b: Action) => ReorderedAction(a, b))
  {
    PlainKeeps();
    forall a: Action
      ensures SettleAction(a).Some? <==> DistinctAction(a)
      ensures SettleAction(a).Some? ==> ReorderedAction(a, SettleAction(a).value)
    {
      if a.Delegated? {
        DelegateKeeps(a.signed.delegate);
      }
    }
  }

  lemma ActionsKeep(actions: seq<Action>)
    ensures SettleAll(SettleAction, actions).Some? <==> DistinctActions(actions)
    ensures SettleAll(SettleAction, actions).Some? ==> ReorderedActions(actions, SettleAll(SettleAction, actions).value)
  {
    ActionKeeps();
    KeepsAll(SettleAction, (a: Action) => DistinctAction(a), (a: Action, b: Action) => ReorderedAction(a, b), actions);
  }

  /**
  Bytes laid out as a signed transaction are refused exactly when some state
  init repeats a key; what is read is what they say, with nothing changed but
  the order of state-init entries.
  */
  lemma ReadingOnlyReorders(bs: Bytes)
    ensures ReadTransaction(bs).Some?
            <==> SignedCodec().dec(bs).Some? && DistinctActions(SignedCodec().dec(bs).value.0.0.actions)
    ensures ReadTransaction(bs).Some? ==>
              var ((raw, signature), rest) := SignedCodec().dec(bs).value;
              var ((t, signature'), rest') := ReadTransaction(bs).value;
              && t == raw.(actions := t.actions) && ReorderedActions(raw.actions, t.actions)
              && signature' == signature && rest' == rest
  {
    if SignedCodec().dec(bs).Some? {
      ActionsKeep(SignedCodec().dec(bs).value.0.0.actions);
    }
  }

  /** The same of version 1 transactions. */
  lemma ReadingV1OnlyReorders(bs: Bytes)
    ensures ReadTransactionV1(bs).Some?
            <==> SignedV1Codec().dec(bs).Some? && DistinctActions(SignedV1Codec().dec(bs).value.0.0.actions)
    ensures ReadTransactionV1(bs).Some? ==>
              var ((raw, signature), rest) := SignedV1Codec().dec(bs).value;
              var ((t, signature'), rest') := ReadTransactionV1(bs).value;
              && t == raw.(actions := t.actions) && ReorderedActions(raw.actions, t.actions)
              && signature' == signature && rest' == rest
  {
    if SignedV1Codec().dec(bs).Some? {
      ActionsKeep(SignedV1Codec().dec(bs).value.0.0.actions);
    }
  }

  /** And of signed delegates. */
  lemma ReadingDelegatesOnlyReorders(bs: Bytes)
    ensures ReadDelegate(bs).Some?
            <==> SignedDelegateCodec().dec(bs).Some?
                 && All((p: Plain) => DistinctPlain(p), SignedDelegateCodec().dec(bs).value.0.delegate.actions)
    ensures ReadDelegate(bs).Some? ==>
              var (raw, rest) := SignedDelegateCodec().dec(bs).value;
              var (s, rest') := ReadDelegate(bs).value;
              ReorderedDelegate(raw.delegate, s.delegate) && s.signature == raw.signature && rest' == rest
  {
    if SignedDelegateCodec().dec(bs).Some? {
      DelegateKeeps(SignedDelegateCodec().dec(bs).value.0.delegate);
    }
  }
}
