/**
What gets signed: both transaction versions, NEP-366 delegates under their
NEP-461 prefix, and NEP-413 messages under their tag. No two of these share
their bytes.
*/
module Signing {
  import opened Wrappers
  import opened Codec
  import opened Wire
  import opened Transactions
  import opened Layouts

  const DELEGATE_PREFIX: U32 := 0x4000_0000 + 366
  const MESSAGE_TAG: U32 := 0x8000_0000 + 413

  datatype Signable =
    | Sending(tx: AnyTransaction)
    | Delegating(delegate: DelegateAction)
    | Saying(message: Message)

  /** A four-byte tag, then the body. */
  function Under(tag: U32, body: Bytes): Bytes {
    LE(tag, 4) + body
  }

  /** The two tags on the wire. */
  lemma TagBytes(body: Bytes)
    ensures Under(DELEGATE_PREFIX, body) == [0x6E, 0x01, 0x00, 0x40] + body
    ensures Under(MESSAGE_TAG, body) == [0x9D, 0x01, 0x00, 0x80] + body
  {
    FourBytes(DELEGATE_PREFIX);
    FourBytes(MESSAGE_TAG);
  }

  function DelegatePayload(d: DelegateAction): Bytes {
    Under(DELEGATE_PREFIX, DelegateCodec().enc(d))
  }

  function MessagePayload(m: Message): Bytes {
    Under(MESSAGE_TAG, MessageCodec().enc(m))
  }

  /** The bytes that are hashed and signed. */
  function SigningBytes(s: Signable): Bytes {
    match s
    case Sending(tx) => Payload(tx)
    case Delegating(d) => DelegatePayload(d)
    case Saying(m) => MessagePayload(m)
  }

  /** The length of a version 0 signer id cannot be read as a version byte or a domain tag. */
  predicate Distinguishable(s: Signable) {
    s.Sending? && s.tx.V0? ==>
      var n := |s.tx.tx.signerId|;
      n % 256 != 1 && n != DELEGATE_PREFIX && n != MESSAGE_TAG
  }

  /** Valid account ids have 2 to 64 characters: letters, ASCII digits and marks of one byte, other digits of up to four. */
  predicate SignedByAccount(s: Signable) {
    s.Sending? && s.tx.V0? ==> 2 <= |s.tx.tx.signerId| <= 4 * 64
  }

  lemma TextStart(text: Text, tail: Bytes)
    ensures (EncBlob(text) + tail)[..4] == LE(|text|, 4)
  {
    Assoc(LE(|text|, 4), text, tail);
  }

  lemma TransactionStart(t: Transaction)
    ensures |TransactionCodec().enc(t)| >= 4
    ensures TransactionCodec().enc(t)[..4] == LE(|t.signerId|, 4)
  {
    TransactionLayout(t);
    TextStart(t.signerId, TransactionTail(t));
  }

  lemma Heads(x: U32, y: U32, rest: Bytes, rest': Bytes)
    requires Under(x, rest) == Under(y, rest')
    ensures x == y && rest == rest'
  {
    Widths();
    UIntLaws(4);
    assert TakeUInt(LE(x, 4) + rest, 4) == Some((x, rest));
  }

  /** The first byte, or the first four, tell the kinds apart. */
  lemma TransactionsApart(t: Transaction, u: TransactionV1)
    requires |t.signerId| % 256 != 1
    ensures TransactionCodec().enc(t) != TransactionV1Codec().enc(u)
  {
    TransactionStart(t);
    assert TransactionCodec().enc(t)[..4][0] == |t.signerId| % 256;
  }

  lemma HeadApart(bytes: Bytes, n: U32, tag: U32, rest: Bytes)
    requires |bytes| >= 4 && bytes[..4] == LE(n, 4) && n != tag
    ensures bytes != Under(tag, rest)
  {
    if bytes == Under(tag, rest) {
      assert bytes == Under(n, bytes[4..]);
      Heads(n, tag, bytes[4..], rest);
    }
  }

  lemma TagsApart(t: Transaction, tag: U32, rest: Bytes)
    requires |t.signerId| != tag
    ensures TransactionCodec().enc(t) != Under(tag, rest)
  {
    TransactionStart(t);
    HeadApart(TransactionCodec().enc(t), |t.signerId|, tag, rest);
  }

  lemma VersionApart(u: TransactionV1, tag: U32, rest: Bytes)
    requires tag % 256 != 1
    ensures TransactionV1Codec().enc(u) != Under(tag, rest)
  {
    assert Under(tag, rest)[0] == tag % 256;
  }

  lemma PayloadInjective(t: AnyTransaction, u: AnyTransaction)
    requires Distinguishable(Sending(t)) && Distinguishable(Sending(u)) && Payload(t) == Payload(u)
    ensures t == u
  {
    if t.V0? && u.V0? {
      TransactionLawful();
      Injective(TransactionCodec(), t.tx, u.tx);
    } else if t.V1? && u.V1? {
      TransactionV1Lawful();
      Injective(TransactionV1Codec(), t.txV1, u.txV1);
    } else if t.V0? {
      TransactionsApart(t.tx, u.txV1);
    } else {
      TransactionsApart(u.tx, t.txV1);
    }
  }

  lemma SendingApart(t: AnyTransaction, tag: U32, rest: Bytes)
    requires Distinguishable(Sending(t)) && (tag == DELEGATE_PREFIX || tag == MESSAGE_TAG)
    ensures Payload(t) != Under(tag, rest)
  {
    if t.V0? {
      TagsApart(t.tx, tag, rest);
    } else {
      VersionApart(t.txV1, tag, rest);
    }
  }

  lemma UnderOneTag<T(!new)>(c: Codec<T>, tag: U32, x: T, y: T)
    requires Lawful(c) && Under(tag, c.enc(x)) == Under(tag, c.enc(y))
    ensures x == y
  {
    Heads(tag, tag, c.enc(x), c.enc(y));
    Injective(c, x, y);
  }

  lemma KindsApart(s: Signable, t: Signable)
    requires Distinguishable(s) && Distinguishable(t) && SigningBytes(s) == SigningBytes(t)
    ensures s.Sending? == t.Sending? && s.Delegating? == t.Delegating?
  {
    match (s, t) {
      case (Sending(x), Delegating(d)) => SendingApart(x, DELEGATE_PREFIX, DelegateCodec().enc(d));
      case (Sending(x), Saying(m)) => SendingApart(x, MESSAGE_TAG, MessageCodec().enc(m));
      case (Delegating(d), Sending(y)) => SendingApart(y, DELEGATE_PREFIX, DelegateCodec().enc(d));
      case (Saying(m), Sending(y)) => SendingApart(y, MESSAGE_TAG, MessageCodec().enc(m));
      case (Delegating(d), Saying(m)) =>
        Heads(DELEGATE_PREFIX, MESSAGE_TAG, DelegateCodec().enc(d), MessageCodec().enc(m));
      case (Saying(m), Delegating(d)) =>
        Heads(DELEGATE_PREFIX, MESSAGE_TAG, DelegateCodec().enc(d), MessageCodec().enc(m));
      case _ =>
    }
  }

  lemma DelegatesApart(d: DelegateAction, e: DelegateAction)
    requires DelegatePayload(d) == DelegatePayload(e)
    ensures d == e
  {
    DelegateLawful();
    UnderOneTag(DelegateCodec(), DELEGATE_PREFIX, d, e);
  }

  lemma MessagesApart(m: Message, n: Message)
    requires MessagePayload(m) == MessagePayload(n)
    ensures m == n
  {
    MessageLawful();
    UnderOneTag(MessageCodec(), MESSAGE_TAG, m, n);
  }

  /** Equal signing bytes come from the same kind of thing, and from the same thing. */
  lemma JointlyInjective(s: Signable, t: Signable)
    requires Distinguishable(s) && Distinguishable(t)
    ensures SigningBytes(s) == SigningBytes(t) <==> s == t
  {
    if SigningBytes(s) == SigningBytes(t) {
      KindsApart(s, t);
      match s {
        case Sending(x) => PayloadInjective(x, t.tx);
        case Delegating(d) => DelegatesApart(d, t.delegate);
        case Saying(m) => MessagesApart(m, t.message);
      }
    }
  }

  /** In particular for everything signed by an account whose id is valid. */
  lemma AccountsNeverConfused(s: Signable, t: Signable)
    requires SignedByAccount(s) && SignedByAccount(t)
    ensures SigningBytes(s) == SigningBytes(t) <==> s == t
  {
    JointlyInjective(s, t);
  }

  lemma MessagePayloadBytes(m: Message)
    ensures MessagePayload(m) == Under(MESSAGE_TAG, MessageBytes(m))
  {
    MessageLayout(m);
  }

  lemma DelegatePayloadBytes(d: DelegateAction)
    ensures DelegatePayload(d) == Under(DELEGATE_PREFIX, DelegateBytes(d))
  {
    DelegateLayout(d);
  }

  // ---------- Building a transaction ----------

  datatype Header = Header(
    signerId: Text, publicKey: PublicKey, receiverId: Text, blockHash: Bytes32, actions: Vec<Action>)

  /** Version 0 unless a gas-key lane or strict mode needs version 1. */
  function Build(h: Header, nonce: U64, lane: Option<U16>, strict: bool): AnyTransaction {
    if lane.None? && !strict then
      V0(Transaction(h.signerId, h.publicKey, nonce, h.receiverId, h.blockHash, h.actions))
    else
      V1(TransactionV1(
           h.signerId, h.publicKey,
           match lane case None => Nonce(nonce) case Some(l) => GasKeyNonce(nonce, l),
           h.receiverId, h.blockHash, h.actions,
           if strict then Strict else Monotonic))
  }

  /** The default path: version 0, no tag, the plain nonce. */
  lemma BuiltByDefault(h: Header, nonce: U64)
    ensures Payload(Build(h, nonce, None, false)) == DefaultBytes(h, nonce)
  {
    TransactionLayout(Transaction(h.signerId, h.publicKey, nonce, h.receiverId, h.blockHash, h.actions));
  }

  function DefaultBytes(h: Header, nonce: U64): Bytes {
    EncBlob(h.signerId) +
    (PublicKeyBytes(h.publicKey) + (LE(nonce, 8) + TargetBytes(h.receiverId, h.blockHash, h.actions)))
  }

  lemma VersionOnePayload(t: AnyTransaction)
    requires t.V1?
    ensures Payload(t) == TransactionV1Bytes(t.txV1)
  {
    TransactionV1Layout(t.txV1);
  }

  /** With a lane or in strict mode: version 1, the nonce with its lane if any, and the mode last. */
  lemma BuiltForLaneOrStrict(h: Header, nonce: U64, lane: Option<U16>, strict: bool)
    requires lane.Some? || strict
    ensures Payload(Build(h, nonce, lane, strict)) == LaneOrStrictBytes(h, nonce, lane, strict)
  {
    var t := Build(h, nonce, lane, strict);
    assert t.V1?;
    VersionOnePayload(t);
    LaneOrStrictFields(h, nonce, lane, strict);
  }

  function LaneOrStrictBytes(h: Header, nonce: U64, lane: Option<U16>, strict: bool): Bytes {
    var nonceBytes := match lane case None => [0] + LE(nonce, 8) case Some(l) => [1] + (LE(nonce, 8) + LE(l, 2));
    [1] +
    (EncBlob(h.signerId) +
     (PublicKeyBytes(h.publicKey) +
      (nonceBytes + (TargetBytes(h.receiverId, h.blockHash, h.actions) + (if strict then [1] else [0])))))
  }

  lemma LaneOrStrictFields(h: Header, nonce: U64, lane: Option<U16>, strict: bool)
    requires lane.Some? || strict
    ensures TransactionV1Bytes(Build(h, nonce, lane, strict).txV1) == LaneOrStrictBytes(h, nonce, lane, strict)
  {
  }

  lemma BuildInjective(
    h: Header, nonce: U64, lane: Option<U16>, strict: bool, h': Header, nonce': U64, lane': Option<U16>, strict': bool)
    requires Build(h, nonce, lane, strict) == Build(h', nonce', lane', strict')
    ensures h == h' && nonce == nonce' && lane == lane' && strict == strict'
  {
  }

  lemma BuildDistinguishable(h: Header, nonce: U64, lane: Option<U16>, strict: bool)
    requires 2 <= |h.signerId| <= 4 * 64
    ensures Distinguishable(Sending(Build(h, nonce, lane, strict)))
  {
  }

  /** The signed bytes fix every argument a transaction was built from. */
  lemma BuiltBytesTellAll(
    h: Header, nonce: U64, lane: Option<U16>, strict: bool, h': Header, nonce': U64, lane': Option<U16>, strict': bool)
    requires 2 <= |h.signerId| <= 4 * 64 && 2 <= |h'.signerId| <= 4 * 64
    requires Payload(Build(h, nonce, lane, strict)) == Payload(Build(h', nonce', lane', strict'))
    ensures h == h' && nonce == nonce' && lane == lane' && strict == strict'
  {
    BuildDistinguishable(h, nonce, lane, strict);
    BuildDistinguishable(h', nonce', lane', strict');
    PayloadInjective(Build(h, nonce, lane, strict), Build(h', nonce', lane', strict'));
    BuildInjective(h, nonce, lane, strict, h', nonce', lane', strict');
  }
}
