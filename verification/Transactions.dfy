/**
Transactions in both wire versions, NEP-413 messages, and the bytes that get
signed.
*/
module Transactions {
  import opened Wrappers
  import opened Codec
  import opened Wire

  // ---------- Version 0 ----------

  datatype Transaction = Transaction(
    signerId: Text, publicKey: PublicKey, nonce: U64, receiverId: Text, blockHash: Bytes32, actions: Vec<Action>)

  type TransactionFields = (Text, (PublicKey, (U64, (Text, (Bytes32, Vec<Action>)))))

  function TransactionIso(): Iso<TransactionFields, Transaction> {
    Iso(
      (p: TransactionFields) => Transaction(p.0, p.1.0, p.1.1.0, p.1.1.1.0, p.1.1.1.1.0, p.1.1.1.1.1),
      (t: Transaction) => (t.signerId, (t.publicKey, (t.nonce, (t.receiverId, (t.blockHash, t.actions))))))
  }

  function ActionsCodec(): Codec<Vec<Action>> { VecCodec(ActionCodec()) }

  function TargetCodec(): Codec<(Text, (Bytes32, Vec<Action>))> {
    Pair(TextCodec(), Pair(Bytes32Codec(), ActionsCodec()))
  }

  function TransactionCodec(): Codec<Transaction> {
    Struct(Pair(TextCodec(), Pair(PublicKeyCodec(), Pair(U64Codec(), TargetCodec()))), TransactionIso())
  }

  lemma TargetLawful()
    ensures Lawful(ActionsCodec()) && Lawful(TargetCodec())
  {
    BlobLawful();
    FixedLawful();
    ActionLawful();
    VecLawful(ActionCodec());
    PairLawful(Bytes32Codec(), ActionsCodec());
    PairLawful(TextCodec(), Pair(Bytes32Codec(), ActionsCodec()));
  }

  lemma TransactionLawful()
    ensures Lawful(TransactionCodec())
  {
    BlobLawful();
    PublicKeyLawful();
    UIntsLawful();
    TargetLawful();
    PairLawful(U64Codec(), TargetCodec());
    PairLawful(PublicKeyCodec(), Pair(U64Codec(), TargetCodec()));
    PairLawful(TextCodec(), Pair(PublicKeyCodec(), Pair(U64Codec(), TargetCodec())));
    StructLawful(Pair(TextCodec(), Pair(PublicKeyCodec(), Pair(U64Codec(), TargetCodec()))), TransactionIso());
  }

  // ---------- Version 1 ----------

  datatype TransactionNonce = Nonce(nonce: U64) | GasKeyNonce(nonce: U64, lane: U16)

  function NonceKind(n: TransactionNonce): Byte {
    if n.Nonce? then 0 else 1
  }

  function PlainNonce(): Variant<U64, TransactionNonce> {
    Variant(U64Codec(), (n: U64) => Nonce(n), (t: TransactionNonce) => if t.Nonce? then Some(t.nonce) else None)
  }

  function LaneNonce(): Variant<(U64, U16), TransactionNonce> {
    Variant(
      Pair(U64Codec(), U16Codec()),
      (p: (U64, U16)) => GasKeyNonce(p.0, p.1),
      (t: TransactionNonce) => if t.GasKeyNonce? then Some((t.nonce, t.lane)) else None)
  }

  function NonceVariants(tag: Byte): Option<Codec<TransactionNonce>> {
    match tag
    case 0 => Some(Body(PlainNonce()))
    case 1 => Some(Body(LaneNonce()))
    case _ => None
  }

  function NonceCodec(): Codec<TransactionNonce> { Union(NonceKind, NonceVariants) }

  lemma NonceLawful()
    ensures Lawful(NonceCodec())
  {
    UIntsLawful();
    PairLawful(U64Codec(), U16Codec());
    BodyLawful(PlainNonce(), NonceKind, 0);
    BodyLawful(LaneNonce(), NonceKind, 1);
    UnionLawful(NonceKind, NonceVariants);
  }

  datatype NonceMode = Monotonic | Strict

  function ModeKind(m: NonceMode): Byte {
    if m.Monotonic? then 0 else 1
  }

  function ModeVariants(tag: Byte): Option<Codec<NonceMode>> {
    match tag
    case 0 => Some(Empty(Monotonic))
    case 1 => Some(Empty(Strict))
    case _ => None
  }

  function ModeCodec(): Codec<NonceMode> { Union(ModeKind, ModeVariants) }

  lemma ModeLawful()
    ensures Lawful(ModeCodec())
  {
    EmptyLawful(Monotonic, ModeKind, 0);
    EmptyLawful(Strict, ModeKind, 1);
    UnionLawful(ModeKind, ModeVariants);
  }

  datatype TransactionV1 = TransactionV1(
    signerId: Text, publicKey: PublicKey, nonce: TransactionNonce,
    receiverId: Text, blockHash: Bytes32, actions: Vec<Action>, mode: NonceMode)

  type TransactionV1Fields = (Text, (PublicKey, (TransactionNonce, ((Text, (Bytes32, Vec<Action>)), NonceMode))))

  function TransactionV1Iso(): Iso<TransactionV1Fields, TransactionV1> {
    Iso(
      (p: TransactionV1Fields) =>
        TransactionV1(p.0, p.1.0, p.1.1.0, p.1.1.1.0.0, p.1.1.1.0.1.0, p.1.1.1.0.1.1, p.1.1.1.1),
      (t: TransactionV1) =>
        (t.signerId, (t.publicKey, (t.nonce, ((t.receiverId, (t.blockHash, t.actions)), t.mode)))))
  }

  function TransactionV1FieldsCodec(): Codec<TransactionV1Fields> {
    Pair(TextCodec(), Pair(PublicKeyCodec(), Pair(NonceCodec(), Pair(TargetCodec(), ModeCodec()))))
  }

  /** A leading version byte 1, then the fields. */
  function TransactionV1Codec(): Codec<TransactionV1> {
    Tagged(1, Struct(TransactionV1FieldsCodec(), TransactionV1Iso()))
  }

  lemma TransactionV1Lawful()
    ensures Lawful(TransactionV1Codec())
  {
    BlobLawful();
    PublicKeyLawful();
    NonceLawful();
    TargetLawful();
    ModeLawful();
    PairLawful(TargetCodec(), ModeCodec());
    PairLawful(NonceCodec(), Pair(TargetCodec(), ModeCodec()));
    PairLawful(PublicKeyCodec(), Pair(NonceCodec(), Pair(TargetCodec(), ModeCodec())));
    PairLawful(TextCodec(), Pair(PublicKeyCodec(), Pair(NonceCodec(), Pair(TargetCodec(), ModeCodec()))));
    StructLawful(TransactionV1FieldsCodec(), TransactionV1Iso());
    TaggedLawful(1, Struct(TransactionV1FieldsCodec(), TransactionV1Iso()));
  }

  // ---------- Signed transactions ----------

  function SignedCodec(): Codec<(Transaction, Signature)> { Pair(TransactionCodec(), SignatureCodec()) }

  function SignedV1Codec(): Codec<(TransactionV1, Signature)> { Pair(TransactionV1Codec(), SignatureCodec()) }

  lemma SignedLawful()
    ensures Lawful(SignedCodec()) && Lawful(SignedV1Codec())
  {
    TransactionLawful();
    TransactionV1Lawful();
    SignatureLawful();
    PairLawful(TransactionCodec(), SignatureCodec());
    PairLawful(TransactionV1Codec(), SignatureCodec());
  }

  datatype AnyTransaction = V0(tx: Transaction) | V1(txV1: TransactionV1)

  /** The bytes whose hash is signed. */
  function Payload(t: AnyTransaction): Bytes {
    match t
    case V0(tx) => TransactionCodec().enc(tx)
    case V1(tx) => TransactionV1Codec().enc(tx)
  }

  /** Hash the payload, sign the hash, and write transaction and signature. */
  function Sign(sha: Bytes -> Bytes32, sign: Bytes32 -> Signature, t: AnyTransaction): (r: (Bytes32, Bytes)) {
    var hash := sha(Payload(t));
    var signature := sign(hash);
    match t
    case V0(tx) => (hash, SignedCodec().enc((tx, signature)))
    case V1(tx) => (hash, SignedV1Codec().enc((tx, signature)))
  }

  lemma SignedLayout<T(!new)>(c: Codec<T>, x: T, signature: Signature, rest: Bytes)
    requires Lawful(Pair(c, SignatureCodec()))
    ensures var payload := c.enc(x);
            var wire := Pair(c, SignatureCodec()).enc((x, signature));
            && payload <= wire
            && wire[..|payload|] == payload
            && wire[|payload|..] == SignatureCodec().enc(signature)
            && Pair(c, SignatureCodec()).dec(wire + rest) == Some(((x, signature), rest))
  {
  }

  /**
  What is sent reads back as the transaction that was signed, with a signature
  over the hash of exactly its own leading bytes.
  */
  lemma SentIsWhatWasSigned(sha: Bytes -> Bytes32, sign: Bytes32 -> Signature, t: AnyTransaction, rest: Bytes)
    ensures var hash := Sign(sha, sign, t).0;
            var wire := Sign(sha, sign, t).1;
            var n := |Payload(t)|;
            && n <= |wire|
            && hash == sha(wire[..n])
            && wire[n..] == SignatureCodec().enc(sign(hash))
            && (t.V0? ==> SignedCodec().dec(wire + rest) == Some(((t.tx, sign(hash)), rest)))
            && (t.V1? ==> SignedV1Codec().dec(wire + rest) == Some(((t.txV1, sign(hash)), rest)))
  {
    SignedLawful();
    var signature := sign(sha(Payload(t)));
    if t.V0? {
      SignedLayout(TransactionCodec(), t.tx, signature, rest);
    } else {
      SignedLayout(TransactionV1Codec(), t.txV1, signature, rest);
    }
  }

  // ---------- NEP-413 messages ----------

  datatype Message = Message(text: Text, nonce: Bytes32, recipient: Text, callbackUrl: Option<Text>)

  type MessageFields = (Text, (Bytes32, (Text, Option<Text>)))

  function MessageIso(): Iso<MessageFields, Message> {
    Iso(
      (p: MessageFields) => Message(p.0, p.1.0, p.1.1.0, p.1.1.1),
      (m: Message) => (m.text, (m.nonce, (m.recipient, m.callbackUrl))))
  }

  function CallbackCodec(): Codec<Option<Text>> { OptionCodec(TextCodec()) }

  function MessageCodec(): Codec<Message> {
    Struct(Pair(TextCodec(), Pair(Bytes32Codec(), Pair(TextCodec(), CallbackCodec()))), MessageIso())
  }

  lemma MessageLawful()
    ensures Lawful(MessageCodec())
  {
    BlobLawful();
    FixedLawful();
    OptionLawful(TextCodec());
    PairLawful(TextCodec(), CallbackCodec());
    PairLawful(Bytes32Codec(), Pair(TextCodec(), CallbackCodec()));
    PairLawful(TextCodec(), Pair(Bytes32Codec(), Pair(TextCodec(), CallbackCodec())));
    StructLawful(Pair(TextCodec(), Pair(Bytes32Codec(), Pair(TextCodec(), CallbackCodec()))), MessageIso());
  }
}
