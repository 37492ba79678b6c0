/**
The bytes of each wire type, field by field, as the protocol fixes them:
little-endian integers, four-byte lengths, one tag byte for an enum or an
option. Every codec writes exactly these bytes.
*/
module Layouts {
  import opened Wrappers
  import opened Codec
  import opened Wire
  import opened Transactions

  function Each<T>(layout: T -> Bytes, xs: seq<T>): Bytes {
    if xs == [] then [] else layout(xs[0]) + Each(layout, xs[1..])
  }

  function VecBytes<T>(layout: T -> Bytes, xs: Vec<T>): Bytes {
    LE(|xs|, 4) + Each(layout, xs)
  }

  lemma {:induction false} EachAgrees<T(!new)>(c: Codec<T>, layout: T -> Bytes, xs: seq<T>)
    requires forall x :: c.enc(x) == layout(x)
    ensures EncAll(c, xs) == Each(layout, xs)
    decreases |xs|
  {
    if xs != [] {
      EachAgrees(c, layout, xs[1..]);
    }
  }

  lemma VecLayout<T(!new)>(c: Codec<T>, layout: T -> Bytes, xs: Vec<T>)
    requires forall x :: c.enc(x) == layout(x)
    ensures VecCodec(c).enc(xs) == VecBytes(layout, xs)
  {
    EachAgrees(c, layout, xs);
  }

  // ---------- Keys ----------

  function PublicKeyBytes(k: PublicKey): Bytes {
    match k
    case Ed25519(b) => [0] + b
    case Secp256k1(b) => [1] + b
    case MlDsa65(b) => [2] + b
  }

  lemma PublicKeyLayout(k: PublicKey)
    ensures PublicKeyCodec().enc(k) == PublicKeyBytes(k)
  {
    match k
    case Ed25519(b) => VariantWrites(PublicKeyKind, PublicKeyVariants, 0, EdKey(), Bytes32Codec(), k, b);
    case Secp256k1(b) => VariantWrites(PublicKeyKind, PublicKeyVariants, 1, SecpKey(), Bytes64Codec(), k, b);
    case MlDsa65(b) => VariantWrites(PublicKeyKind, PublicKeyVariants, 2, MlKey(), Bytes1952Codec(), k, b);
  }

  function SignatureBytes(s: Signature): Bytes {
    match s
    case Ed25519(b) => [0] + b
    case Secp256k1(b) => [1] + b
    case MlDsa65(b) => [2] + b
  }

  lemma SignatureLayout(s: Signature)
    ensures SignatureCodec().enc(s) == SignatureBytes(s)
  {
    match s
    case Ed25519(b) => VariantWrites(SignatureKind, SignatureVariants, 0, EdSignature(), Bytes64Codec(), s, b);
    case Secp256k1(b) => VariantWrites(SignatureKind, SignatureVariants, 1, SecpSignature(), Bytes65Codec(), s, b);
    case MlDsa65(b) => VariantWrites(SignatureKind, SignatureVariants, 2, MlSignature(), Bytes3309Codec(), s, b);
  }

  function OptionBytes<T>(layout: T -> Bytes, o: Option<T>): Bytes {
    match o case None => [0] case Some(x) => [1] + layout(x)
  }

  lemma OptionLayout<T>(c: Codec<T>, layout: T -> Bytes, o: Option<T>)
    requires o.Some? ==> c.enc(o.value) == layout(o.value)
    ensures OptionCodec(c).enc(o) == OptionBytes(layout, o)
  {
    var kind := (o: Option<T>) => OptionKind(o);
    match o
    case None => EmptyWrites(kind, OptionVariants(c), o);
    case Some(x) => VariantWrites(kind, OptionVariants(c), 1, SomeVariant(c), c, o, x);
  }

  // ---------- Access keys ----------

  function FunctionCallBytes(f: FunctionCallPermission): Bytes {
    OptionBytes(EncU128, f.allowance) + (EncBlob(f.receiverId) + VecBytes(EncBlob, f.methodNames))
  }

  lemma FunctionCallLayout(f: FunctionCallPermission)
    ensures FunctionCallCodec().enc(f) == FunctionCallBytes(f)
  {
    var names := (f.receiverId, f.methodNames);
    StructWrites(Pair(AllowanceCodec(), Pair(TextCodec(), TextsCodec())), FunctionCallIso(), f);
    PairWrites(AllowanceCodec(), Pair(TextCodec(), TextsCodec()), f.allowance, names);
    PairWrites(TextCodec(), TextsCodec(), f.receiverId, f.methodNames);
    OptionLayout(U128Codec(), EncU128, f.allowance);
    VecLayout(TextCodec(), EncBlob, f.methodNames);
  }

  function GasKeyInfoBytes(g: GasKeyInfo): Bytes {
    LE(g.balance, 16) + LE(g.numNonces, 2)
  }

  lemma GasKeyInfoLayout(g: GasKeyInfo)
    ensures GasKeyInfoCodec().enc(g) == GasKeyInfoBytes(g)
  {
    StructWrites(Pair(U128Codec(), U16Codec()), GasKeyInfoIso(), g);
    PairWrites(U128Codec(), U16Codec(), g.balance, g.numNonces);
  }

  function PermissionBytes(p: Permission): Bytes {
    match p
    case FunctionCall(call) => [0] + FunctionCallBytes(call)
    case FullAccess => [1]
    case GasKeyFunctionCall(info, call) => [2] + (GasKeyInfoBytes(info) + FunctionCallBytes(call))
    case GasKeyFullAccess(info) => [3] + GasKeyInfoBytes(info)
  }

  lemma PermissionLayout(p: Permission)
    ensures PermissionCodec().enc(p) == PermissionBytes(p)
  {
    match p
    case FunctionCall(call) =>
      VariantWrites(PermissionKind, PermissionVariants, 0, FunctionCallKey(), FunctionCallCodec(), p, call);
      FunctionCallLayout(call);
    case FullAccess =>
      EmptyWrites(PermissionKind, PermissionVariants, p);
    case GasKeyFunctionCall(info, call) =>
      VariantWrites(PermissionKind, PermissionVariants, 2, GasKeyFunctionCallKey(), Pair(GasKeyInfoCodec(), FunctionCallCodec()), p, (info, call));
      PairWrites(GasKeyInfoCodec(), FunctionCallCodec(), info, call);
      GasKeyInfoLayout(info);
      FunctionCallLayout(call);
    case GasKeyFullAccess(info) =>
      VariantWrites(PermissionKind, PermissionVariants, 3, GasKeyFullAccessKey(), GasKeyInfoCodec(), p, info);
      GasKeyInfoLayout(info);
  }

  function AccessKeyBytes(k: AccessKey): Bytes {
    LE(k.nonce, 8) + PermissionBytes(k.permission)
  }

  lemma AccessKeyLayout(k: AccessKey)
    ensures AccessKeyCodec().enc(k) == AccessKeyBytes(k)
  {
    StructWrites(Pair(U64Codec(), PermissionCodec()), AccessKeyIso(), k);
    PairWrites(U64Codec(), PermissionCodec(), k.nonce, k.permission);
    PermissionLayout(k.permission);
  }

  // ---------- Global contracts and state init ----------

  function DeployModeBytes(m: DeployMode): Bytes {
    match m case CodeHash => [0] case AccountId => [1]
  }

  lemma DeployModeLayout(m: DeployMode)
    ensures DeployModeCodec().enc(m) == DeployModeBytes(m)
  {
    EmptyWrites(DeployModeKind, DeployModeVariants, m);
  }

  function ContractIdBytes(c: ContractId): Bytes {
    match c case CodeHash(h) => [0] + h case AccountId(a) => [1] + EncBlob(a)
  }

  lemma ContractIdLayout(c: ContractId)
    ensures ContractIdCodec().enc(c) == ContractIdBytes(c)
  {
    match c
    case CodeHash(h) => VariantWrites(ContractIdKind, ContractIdVariants, 0, ByHash(), Bytes32Codec(), c, h);
    case AccountId(a) => VariantWrites(ContractIdKind, ContractIdVariants, 1, ByAccount(), TextCodec(), c, a);
  }

  function EntryBytes(e: Entry): Bytes {
    EncBlob(e.0) + EncBlob(e.1)
  }

  function StateInitBytes(s: StateInit): Bytes {
    [0] + (ContractIdBytes(s.code) + VecBytes(EntryBytes, s.data))
  }

  lemma StateInitLayout(s: StateInit)
    ensures StateInitCodec().enc(s) == StateInitBytes(s)
  {
    StructWrites(Pair(ContractIdCodec(), EntriesCodec()), StateInitIso(), s);
    PairWrites(ContractIdCodec(), EntriesCodec(), s.code, s.data);
    ContractIdLayout(s.code);
    forall e: Entry ensures EntryCodec().enc(e) == EntryBytes(e) {
      PairWrites(BlobCodec(), BlobCodec(), e.0, e.1);
    }
    VecLayout(EntryCodec(), EntryBytes, s.data);
  }

  // ---------- Actions ----------

  function PlainBytes(a: Plain): Bytes {
    match a
    case CreateAccount => [0]
    case DeployContract(code) => [1] + EncBlob(code)
    case FunctionCall(m, args, gas, deposit) => [2] + (EncBlob(m) + (EncBlob(args) + (LE(gas, 8) + LE(deposit, 16))))
    case Transfer(deposit) => [3] + LE(deposit, 16)
    case Stake(stake, k) => [4] + (LE(stake, 16) + PublicKeyBytes(k))
    case AddKey(k, access) => [5] + (PublicKeyBytes(k) + AccessKeyBytes(access))
    case DeleteKey(k) => [6] + PublicKeyBytes(k)
    case DeleteAccount(beneficiary) => [7] + EncBlob(beneficiary)
    case DeployGlobalContract(code, mode) => [9] + (EncBlob(code) + DeployModeBytes(mode))
    case UseGlobalContract(id) => [10] + ContractIdBytes(id)
    case DeterministicStateInit(s, deposit) => [11] + (StateInitBytes(s) + LE(deposit, 16))
    case TransferToGasKey(k, deposit) => [12] + (PublicKeyBytes(k) + LE(deposit, 16))
    case WithdrawFromGasKey(k, amount) => [13] + (PublicKeyBytes(k) + LE(amount, 16))
  }

  lemma FirstTags()
    ensures PlainVariants(0) == Some(Empty(CreateAccount))
    ensures PlainVariants(1) == Some(Body(DeployContractAction()))
    ensures PlainVariants(2) == Some(Body(FunctionCallAction()))
    ensures PlainVariants(3) == Some(Body(TransferAction()))
    ensures PlainVariants(4) == Some(Body(StakeAction()))
    ensures PlainVariants(5) == Some(Body(AddKeyAction()))
    ensures PlainVariants(6) == Some(Body(DeleteKeyAction()))
    ensures PlainVariants(7) == Some(Body(DeleteAccountAction()))
  {
  }

  lemma GlobalTags()
    ensures PlainVariants(9) == Some(Body(DeployGlobalAction()))
    ensures PlainVariants(10) == Some(Body(UseGlobalAction()))
    ensures PlainVariants(11) == Some(Body(StateInitAction()))
  {
  }

  lemma GasKeyTags()
    ensures PlainVariants(12) == Some(Body(ToGasKeyAction()))
    ensures PlainVariants(13) == Some(Body(FromGasKeyAction()))
  {
  }

  lemma PlainWrites<A>(a: Plain, tag: Byte, v: Variant<A, Plain>, c: Codec<A>, x: A)
    requires PlainKind(a) == tag && PlainVariants(tag) == Some(Body(v))
    requires v.fields == c && v.project(a) == Some(x)
    ensures PlainCodec().enc(a) == [tag] + c.enc(x)
  {
    VariantWrites(PlainKind, PlainVariants, tag, v, c, a, x);
  }

  lemma CreateAccountLayout()
    ensures PlainCodec().enc(CreateAccount) == [0]
  {
    FirstTags();
    EmptyWrites(PlainKind, PlainVariants, CreateAccount);
  }

  lemma DeployContractLayout(code: Blob)
    ensures PlainCodec().enc(DeployContract(code)) == [1] + EncBlob(code)
  {
    FirstTags();
    PlainWrites(DeployContract(code), 1, DeployContractAction(), BlobCodec(), code);
  }

  lemma DeleteAccountLayout(to: Text)
    ensures PlainCodec().enc(DeleteAccount(to)) == [7] + EncBlob(to)
  {
    FirstTags();
    PlainWrites(DeleteAccount(to), 7, DeleteAccountAction(), TextCodec(), to);
  }

  lemma CallLayout(m: Text, args: Blob, gas: U64, deposit: U128)
    ensures PlainCodec().enc(Plain.FunctionCall(m, args, gas, deposit)) ==
            [2] + (EncBlob(m) + (EncBlob(args) + (LE(gas, 8) + LE(deposit, 16))))
  {
    var fields := Pair(TextCodec(), Pair(BlobCodec(), Pair(U64Codec(), U128Codec())));
    FirstTags();
    PlainWrites(Plain.FunctionCall(m, args, gas, deposit), 2, FunctionCallAction(), fields, (m, (args, (gas, deposit))));
    PairWrites(TextCodec(), Pair(BlobCodec(), Pair(U64Codec(), U128Codec())), m, (args, (gas, deposit)));
    PairWrites(BlobCodec(), Pair(U64Codec(), U128Codec()), args, (gas, deposit));
    PairWrites(U64Codec(), U128Codec(), gas, deposit);
  }

  lemma TransferLayout(deposit: U128)
    ensures PlainCodec().enc(Transfer(deposit)) == [3] + LE(deposit, 16)
  {
    FirstTags();
    PlainWrites(Transfer(deposit), 3, TransferAction(), U128Codec(), deposit);
  }

  lemma StakeLayout(stake: U128, k: PublicKey)
    ensures PlainCodec().enc(Stake(stake, k)) == [4] + (LE(stake, 16) + PublicKeyBytes(k))
  {
    FirstTags();
    PlainWrites(Stake(stake, k), 4, StakeAction(), Pair(U128Codec(), PublicKeyCodec()), (stake, k));
    PairWrites(U128Codec(), PublicKeyCodec(), stake, k);
    PublicKeyLayout(k);
  }

  lemma AddKeyLayout(k: PublicKey, access: AccessKey)
    ensures PlainCodec().enc(AddKey(k, access)) == [5] + (PublicKeyBytes(k) + AccessKeyBytes(access))
  {
    FirstTags();
    PlainWrites(AddKey(k, access), 5, AddKeyAction(), Pair(PublicKeyCodec(), AccessKeyCodec()), (k, access));
    PairWrites(PublicKeyCodec(), AccessKeyCodec(), k, access);
    PublicKeyLayout(k);
    AccessKeyLayout(access);
  }

  lemma DeleteKeyLayout(k: PublicKey)
    ensures PlainCodec().enc(DeleteKey(k)) == [6] + PublicKeyBytes(k)
  {
    FirstTags();
    PlainWrites(DeleteKey(k), 6, DeleteKeyAction(), PublicKeyCodec(), k);
    PublicKeyLayout(k);
  }

  lemma DeployGlobalLayout(code: Blob, mode: DeployMode)
    ensures PlainCodec().enc(DeployGlobalContract(code, mode)) == [9] + (EncBlob(code) + DeployModeBytes(mode))
  {
    GlobalTags();
    PlainWrites(
      DeployGlobalContract(code, mode), 9, DeployGlobalAction(), Pair(BlobCodec(), DeployModeCodec()), (code, mode));
    PairWrites(BlobCodec(), DeployModeCodec(), code, mode);
    DeployModeLayout(mode);
  }

  lemma UseGlobalLayout(id: ContractId)
    ensures PlainCodec().enc(UseGlobalContract(id)) == [10] + ContractIdBytes(id)
  {
    GlobalTags();
    PlainWrites(UseGlobalContract(id), 10, UseGlobalAction(), ContractIdCodec(), id);
    ContractIdLayout(id);
  }

  lemma StateInitActionLayout(s: StateInit, deposit: U128)
    ensures PlainCodec().enc(DeterministicStateInit(s, deposit)) == [11] + (StateInitBytes(s) + LE(deposit, 16))
  {
    GlobalTags();
    PlainWrites(
      DeterministicStateInit(s, deposit), 11, StateInitAction(), Pair(StateInitCodec(), U128Codec()), (s, deposit));
    PairWrites(StateInitCodec(), U128Codec(), s, deposit);
    StateInitLayout(s);
  }

  lemma ToGasKeyLayout(k: PublicKey, deposit: U128)
    ensures PlainCodec().enc(TransferToGasKey(k, deposit)) == [12] + (PublicKeyBytes(k) + LE(deposit, 16))
  {
    GasKeyTags();
    PlainWrites(TransferToGasKey(k, deposit), 12, ToGasKeyAction(), Pair(PublicKeyCodec(), U128Codec()), (k, deposit));
    PairWrites(PublicKeyCodec(), U128Codec(), k, deposit);
    PublicKeyLayout(k);
  }

  lemma FromGasKeyLayout(k: PublicKey, amount: U128)
    ensures PlainCodec().enc(WithdrawFromGasKey(k, amount)) == [13] + (PublicKeyBytes(k) + LE(amount, 16))
  {
    GasKeyTags();
    PlainWrites(WithdrawFromGasKey(k, amount), 13, FromGasKeyAction(), Pair(PublicKeyCodec(), U128Codec()), (k, amount));
    PairWrites(PublicKeyCodec(), U128Codec(), k, amount);
    PublicKeyLayout(k);
  }

  lemma PlainLayout(a: Plain)
    ensures PlainCodec().enc(a) == PlainBytes(a)
  {
    match a {
      case CreateAccount => CreateAccountLayout();
      case DeployContract(code) => DeployContractLayout(code);
      case FunctionCall(m, args, gas, deposit) => CallLayout(m, args, gas, deposit);
      case Transfer(deposit) => TransferLayout(deposit);
      case Stake(stake, k) => StakeLayout(stake, k);
      case AddKey(k, access) => AddKeyLayout(k, access);
      case DeleteKey(k) => DeleteKeyLayout(k);
      case DeployGlobalContract(code, mode) => DeployGlobalLayout(code, mode);
      case UseGlobalContract(id) => UseGlobalLayout(id);
      case DeterministicStateInit(s, deposit) => StateInitActionLayout(s, deposit);
      case TransferToGasKey(k, deposit) => ToGasKeyLayout(k, deposit);
      case WithdrawFromGasKey(k, amount) => FromGasKeyLayout(k, amount);
      case DeleteAccount(to) => DeleteAccountLayout(to);
    }
  }

  // ---------- Delegates ----------

  function DelegateBytes(d: DelegateAction): Bytes {
    EncBlob(d.senderId) +
    (EncBlob(d.receiverId) +
     (VecBytes(PlainBytes, d.actions) + (LE(d.nonce, 8) + (LE(d.maxBlockHeight, 8) + PublicKeyBytes(d.publicKey)))))
  }

  lemma PlainsLayout(actions: Vec<Plain>)
    ensures VecCodec(PlainCodec()).enc(actions) == VecBytes(PlainBytes, actions)
  {
    forall a: Plain ensures PlainCodec().enc(a) == PlainBytes(a) { PlainLayout(a); }
    VecLayout(PlainCodec(), PlainBytes, actions);
  }

  lemma DelegateLayout(d: DelegateAction)
    ensures DelegateCodec().enc(d) == DelegateBytes(d)
  {
    var actions := VecCodec(PlainCodec());
    var height := Pair(U64Codec(), PublicKeyCodec());
    var h := (d.maxBlockHeight, d.publicKey);
    StructWrites(DelegateFieldsCodec(), DelegateIso(), d);
    PairWrites(TextCodec(), Pair(TextCodec(), Pair(actions, Pair(U64Codec(), height))),
               d.senderId, (d.receiverId, (d.actions, (d.nonce, h))));
    PairWrites(TextCodec(), Pair(actions, Pair(U64Codec(), height)), d.receiverId, (d.actions, (d.nonce, h)));
    PairWrites(actions, Pair(U64Codec(), height), d.actions, (d.nonce, h));
    PairWrites(U64Codec(), height, d.nonce, h);
    PairWrites(U64Codec(), PublicKeyCodec(), d.maxBlockHeight, d.publicKey);
    PublicKeyLayout(d.publicKey);
    PlainsLayout(d.actions);
  }

  function ActionBytes(a: Action): Bytes {
    match a
    case Plain(p) => PlainBytes(p)
    case Delegated(s) => [8] + (DelegateBytes(s.delegate) + SignatureBytes(s.signature))
  }

  lemma ActionLayout(a: Action)
    ensures ActionCodec().enc(a) == ActionBytes(a)
  {
    match a {
      case Plain(p) =>
        SameInsideDelegates(p);
        PlainLayout(p);
      case Delegated(s) =>
        VariantWrites(ActionKind, ActionVariants, 8, DelegatedAction(), SignedDelegateCodec(), a, s);
        StructWrites(Pair(DelegateCodec(), SignatureCodec()), SignedDelegateIso(), s);
        PairWrites(DelegateCodec(), SignatureCodec(), s.delegate, s.signature);
        DelegateLayout(s.delegate);
        SignatureLayout(s.signature);
    }
  }

  // ---------- Transactions ----------

  function TargetBytes(receiver: Text, blockHash: Bytes32, actions: Vec<Action>): Bytes {
    EncBlob(receiver) + (blockHash + VecBytes(ActionBytes, actions))
  }

  lemma TargetLayout(receiver: Text, blockHash: Bytes32, actions: Vec<Action>)
    ensures TargetCodec().enc((receiver, (blockHash, actions))) == TargetBytes(receiver, blockHash, actions)
  {
    PairWrites(TextCodec(), Pair(Bytes32Codec(), ActionsCodec()), receiver, (blockHash, actions));
    PairWrites(Bytes32Codec(), ActionsCodec(), blockHash, actions);
    forall a: Action ensures ActionCodec().enc(a) == ActionBytes(a) { ActionLayout(a); }
    VecLayout(ActionCodec(), ActionBytes, actions);
  }

  function TransactionTail(t: Transaction): Bytes {
    PublicKeyBytes(t.publicKey) + (LE(t.nonce, 8) + TargetBytes(t.receiverId, t.blockHash, t.actions))
  }

  function TransactionBytes(t: Transaction): Bytes {
    EncBlob(t.signerId) + TransactionTail(t)
  }

  lemma TransactionLayout(t: Transaction)
    ensures TransactionCodec().enc(t) == TransactionBytes(t)
  {
    var key := PublicKeyCodec();
    var target := (t.receiverId, (t.blockHash, t.actions));
    StructWrites(Pair(TextCodec(), Pair(key, Pair(U64Codec(), TargetCodec()))), TransactionIso(), t);
    PairWrites(TextCodec(), Pair(key, Pair(U64Codec(), TargetCodec())), t.signerId, (t.publicKey, (t.nonce, target)));
    PairWrites(key, Pair(U64Codec(), TargetCodec()), t.publicKey, (t.nonce, target));
    PairWrites(U64Codec(), TargetCodec(), t.nonce, target);
    PublicKeyLayout(t.publicKey);
    TargetLayout(t.receiverId, t.blockHash, t.actions);
  }

  function NonceBytes(n: TransactionNonce): Bytes {
    match n
    case Nonce(nonce) => [0] + LE(nonce, 8)
    case GasKeyNonce(nonce, lane) => [1] + (LE(nonce, 8) + LE(lane, 2))
  }

  lemma NonceLayout(n: TransactionNonce)
    ensures NonceCodec().enc(n) == NonceBytes(n)
  {
    match n
    case Nonce(nonce) => VariantWrites(NonceKind, NonceVariants, 0, PlainNonce(), U64Codec(), n, nonce);
    case GasKeyNonce(nonce, lane) =>
      VariantWrites(NonceKind, NonceVariants, 1, LaneNonce(), Pair(U64Codec(), U16Codec()), n, (nonce, lane));
      PairWrites(U64Codec(), U16Codec(), nonce, lane);
  }

  function ModeBytes(m: NonceMode): Bytes {
    match m case Monotonic => [0] case Strict => [1]
  }

  function TransactionV1Bytes(t: TransactionV1): Bytes {
    [1] +
    (EncBlob(t.signerId) +
     (PublicKeyBytes(t.publicKey) +
      (NonceBytes(t.nonce) + (TargetBytes(t.receiverId, t.blockHash, t.actions) + ModeBytes(t.mode)))))
  }

  lemma ModeLayout(m: NonceMode)
    ensures ModeCodec().enc(m) == ModeBytes(m)
  {
    EmptyWrites(ModeKind, ModeVariants, m);
  }

  lemma TailLayout(nonce: TransactionNonce, target: (Text, (Bytes32, Vec<Action>)), mode: NonceMode)
    ensures Pair(NonceCodec(), Pair(TargetCodec(), ModeCodec())).enc((nonce, (target, mode))) ==
            NonceBytes(nonce) + (TargetBytes(target.0, target.1.0, target.1.1) + ModeBytes(mode))
  {
    PairWrites(NonceCodec(), Pair(TargetCodec(), ModeCodec()), nonce, (target, mode));
    PairWrites(TargetCodec(), ModeCodec(), target, mode);
    NonceLayout(nonce);
    TargetLayout(target.0, target.1.0, target.1.1);
    ModeLayout(mode);
  }

  lemma TransactionV1Layout(t: TransactionV1)
    ensures TransactionV1Codec().enc(t) == TransactionV1Bytes(t)
  {
    var key := PublicKeyCodec();
    var tail := Pair(NonceCodec(), Pair(TargetCodec(), ModeCodec()));
    var target := (t.receiverId, (t.blockHash, t.actions));
    StructWrites(TransactionV1FieldsCodec(), TransactionV1Iso(), t);
    PairWrites(TextCodec(), Pair(key, tail), t.signerId, (t.publicKey, (t.nonce, (target, t.mode))));
    PairWrites(key, tail, t.publicKey, (t.nonce, (target, t.mode)));
    PublicKeyLayout(t.publicKey);
    TailLayout(t.nonce, target, t.mode);
  }

  // ---------- NEP-413 messages ----------

  function MessageBytes(m: Message): Bytes {
    EncBlob(m.text) + (m.nonce + (EncBlob(m.recipient) + OptionBytes(EncBlob, m.callbackUrl)))
  }

  lemma MessageLayout(m: Message)
    ensures MessageCodec().enc(m) == MessageBytes(m)
  {
    var tail := Pair(TextCodec(), CallbackCodec());
    StructWrites(Pair(TextCodec(), Pair(Bytes32Codec(), tail)), MessageIso(), m);
    PairWrites(TextCodec(), Pair(Bytes32Codec(), tail), m.text, (m.nonce, (m.recipient, m.callbackUrl)));
    PairWrites(Bytes32Codec(), tail, m.nonce, (m.recipient, m.callbackUrl));
    PairWrites(TextCodec(), CallbackCodec(), m.recipient, m.callbackUrl);
    OptionLayout(TextCodec(), EncBlob, m.callbackUrl);
  }
}
