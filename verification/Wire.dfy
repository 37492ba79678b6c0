/**
The Borsh layouts of NEAR transactions: keys, permissions, the fourteen
actions, delegates, both transaction versions and NEP-413 messages.
Each enum maps a tag to the layout of one variant; the tag of a value is its
kind.
*/
module Wire {
  import opened Wrappers
  import opened Codec

  // ---------- Keys and signatures ----------

  datatype PublicKey = Ed25519(ed: Bytes32) | Secp256k1(secp: Bytes64) | MlDsa65(ml: Bytes1952)

  function PublicKeyKind(k: PublicKey): Byte {
    match k case Ed25519(_) => 0 case Secp256k1(_) => 1 case MlDsa65(_) => 2
  }

  function EdKey(): Variant<Bytes32, PublicKey> {
    Variant(Bytes32Codec(), (b: Bytes32) => PublicKey.Ed25519(b), (k: PublicKey) => if k.Ed25519? then Some(k.ed) else None)
  }

  function SecpKey(): Variant<Bytes64, PublicKey> {
    Variant(
      Bytes64Codec(),
      (b: Bytes64) => PublicKey.Secp256k1(b),
      (k: PublicKey) => if k.Secp256k1? then Some(k.secp) else None)
  }

  function MlKey(): Variant<Bytes1952, PublicKey> {
    Variant(
      Bytes1952Codec(), (b: Bytes1952) => PublicKey.MlDsa65(b), (k: PublicKey) => if k.MlDsa65? then Some(k.ml) else None)
  }

  function PublicKeyVariants(tag: Byte): Option<Codec<PublicKey>> {
    match tag
    case 0 => Some(Body(EdKey()))
    case 1 => Some(Body(SecpKey()))
    case 2 => Some(Body(MlKey()))
    case _ => None
  }

  function PublicKeyCodec(): Codec<PublicKey> { Union(PublicKeyKind, PublicKeyVariants) }

  lemma PublicKeyLawful()
    ensures Lawful(PublicKeyCodec())
  {
    FixedLawful();
    BodyLawful(EdKey(), PublicKeyKind, 0);
    BodyLawful(SecpKey(), PublicKeyKind, 1);
    BodyLawful(MlKey(), PublicKeyKind, 2);
    UnionLawful(PublicKeyKind, PublicKeyVariants);
  }

  datatype Signature = Ed25519(ed: Bytes64) | Secp256k1(secp: Bytes65) | MlDsa65(ml: Bytes3309)

  function SignatureKind(s: Signature): Byte {
    match s case Ed25519(_) => 0 case Secp256k1(_) => 1 case MlDsa65(_) => 2
  }

  function EdSignature(): Variant<Bytes64, Signature> {
    Variant(Bytes64Codec(), (b: Bytes64) => Signature.Ed25519(b), (s: Signature) => if s.Ed25519? then Some(s.ed) else None)
  }

  function SecpSignature(): Variant<Bytes65, Signature> {
    Variant(
      Bytes65Codec(),
      (b: Bytes65) => Signature.Secp256k1(b),
      (s: Signature) => if s.Secp256k1? then Some(s.secp) else None)
  }

  function MlSignature(): Variant<Bytes3309, Signature> {
    Variant(
      Bytes3309Codec(), (b: Bytes3309) => Signature.MlDsa65(b), (s: Signature) => if s.MlDsa65? then Some(s.ml) else None)
  }

  function SignatureVariants(tag: Byte): Option<Codec<Signature>> {
    match tag
    case 0 => Some(Body(EdSignature()))
    case 1 => Some(Body(SecpSignature()))
    case 2 => Some(Body(MlSignature()))
    case _ => None
  }

  function SignatureCodec(): Codec<Signature> { Union(SignatureKind, SignatureVariants) }

  lemma SignatureLawful()
    ensures Lawful(SignatureCodec())
  {
    FixedLawful();
    BodyLawful(EdSignature(), SignatureKind, 0);
    BodyLawful(SecpSignature(), SignatureKind, 1);
    BodyLawful(MlSignature(), SignatureKind, 2);
    UnionLawful(SignatureKind, SignatureVariants);
  }

  // ---------- Access keys ----------

  datatype GasKeyInfo = GasKeyInfo(balance: U128, numNonces: U16)

  function GasKeyInfoIso(): Iso<(U128, U16), GasKeyInfo> {
    Iso((p: (U128, U16)) => GasKeyInfo(p.0, p.1), (g: GasKeyInfo) => (g.balance, g.numNonces))
  }

  function GasKeyInfoCodec(): Codec<GasKeyInfo> { Struct(Pair(U128Codec(), U16Codec()), GasKeyInfoIso()) }

  datatype FunctionCallPermission = FunctionCallPermission(
    allowance: Option<U128>, receiverId: Text, methodNames: Vec<Text>)

  type FunctionCallFields = (Option<U128>, (Text, Vec<Text>))

  function FunctionCallIso(): Iso<FunctionCallFields, FunctionCallPermission> {
    Iso(
      (p: FunctionCallFields) => FunctionCallPermission(p.0, p.1.0, p.1.1),
      (f: FunctionCallPermission) => (f.allowance, (f.receiverId, f.methodNames)))
  }

  function AllowanceCodec(): Codec<Option<U128>> { OptionCodec(U128Codec()) }

  function TextCodec(): Codec<Text> { BlobCodec() }

  function TextsCodec(): Codec<Vec<Text>> { VecCodec(TextCodec()) }

  function FunctionCallCodec(): Codec<FunctionCallPermission> {
    Struct(Pair(AllowanceCodec(), Pair(TextCodec(), TextsCodec())), FunctionCallIso())
  }

  datatype Permission =
    | FunctionCall(call: FunctionCallPermission)
    | FullAccess
    | GasKeyFunctionCall(info: GasKeyInfo, call: FunctionCallPermission)
    | GasKeyFullAccess(info: GasKeyInfo)

  function PermissionKind(p: Permission): Byte {
    match p
    case FunctionCall(_) => 0
    case FullAccess => 1
    case GasKeyFunctionCall(_, _) => 2
    case GasKeyFullAccess(_) => 3
  }

  function FunctionCallKey(): Variant<FunctionCallPermission, Permission> {
    Variant(
      FunctionCallCodec(),
      (f: FunctionCallPermission) => Permission.FunctionCall(f),
      (p: Permission) => if p.FunctionCall? then Some(p.call) else None)
  }

  function GasKeyFunctionCallKey(): Variant<(GasKeyInfo, FunctionCallPermission), Permission> {
    Variant(
      Pair(GasKeyInfoCodec(), FunctionCallCodec()),
      (x: (GasKeyInfo, FunctionCallPermission)) => GasKeyFunctionCall(x.0, x.1),
      (p: Permission) => if p.GasKeyFunctionCall? then Some((p.info, p.call)) else None)
  }

  function GasKeyFullAccessKey(): Variant<GasKeyInfo, Permission> {
    Variant(
      GasKeyInfoCodec(),
      (g: GasKeyInfo) => GasKeyFullAccess(g),
      (p: Permission) => if p.GasKeyFullAccess? then Some(p.info) else None)
  }

  function PermissionVariants(tag: Byte): Option<Codec<Permission>> {
    match tag
    case 0 => Some(Body(FunctionCallKey()))
    case 1 => Some(Empty(FullAccess))
    case 2 => Some(Body(GasKeyFunctionCallKey()))
    case 3 => Some(Body(GasKeyFullAccessKey()))
    case _ => None
  }

  function PermissionCodec(): Codec<Permission> { Union(PermissionKind, PermissionVariants) }

  datatype AccessKey = AccessKey(nonce: U64, permission: Permission)

  function AccessKeyIso(): Iso<(U64, Permission), AccessKey> {
    Iso((p: (U64, Permission)) => AccessKey(p.0, p.1), (k: AccessKey) => (k.nonce, k.permission))
  }

  function AccessKeyCodec(): Codec<AccessKey> { Struct(Pair(U64Codec(), PermissionCodec()), AccessKeyIso()) }

  lemma TextsLawful()
    ensures Lawful(TextCodec()) && Lawful(TextsCodec())
  {
    BlobLawful();
    VecLawful(TextCodec());
  }

  lemma GasKeyInfoLawful()
    ensures Lawful(GasKeyInfoCodec())
  {
    UIntsLawful();
    PairLawful(U128Codec(), U16Codec());
    StructLawful(Pair(U128Codec(), U16Codec()), GasKeyInfoIso());
  }

  lemma FunctionCallLawful()
    ensures Lawful(FunctionCallCodec())
  {
    UIntsLawful();
    OptionLawful(U128Codec());
    TextsLawful();
    PairLawful(TextCodec(), TextsCodec());
    PairLawful(AllowanceCodec(), Pair(TextCodec(), TextsCodec()));
    StructLawful(Pair(AllowanceCodec(), Pair(TextCodec(), TextsCodec())), FunctionCallIso());
  }

  lemma FunctionCallKeysLawful()
    ensures LawfulOn(Body(FunctionCallKey()), PermissionKind, 0)
    ensures LawfulOn(Body(GasKeyFunctionCallKey()), PermissionKind, 2)
  {
    GasKeyInfoLawful();
    FunctionCallLawful();
    PairLawful(GasKeyInfoCodec(), FunctionCallCodec());
    BodyLawful(FunctionCallKey(), PermissionKind, 0);
    BodyLawful(GasKeyFunctionCallKey(), PermissionKind, 2);
  }

  lemma FullAccessKeysLawful()
    ensures LawfulOn(Empty(FullAccess), PermissionKind, 1)
    ensures LawfulOn(Body(GasKeyFullAccessKey()), PermissionKind, 3)
  {
    GasKeyInfoLawful();
    EmptyLawful(FullAccess, PermissionKind, 1);
    BodyLawful(GasKeyFullAccessKey(), PermissionKind, 3);
  }

  lemma PermissionVariantLawful(tag: Byte)
    ensures LawfulAt(PermissionKind, PermissionVariants, tag)
  {
    if tag == 0 || tag == 2 {
      FunctionCallKeysLawful();
    } else if tag == 1 || tag == 3 {
      FullAccessKeysLawful();
    }
  }

  lemma PermissionCovered(p: Permission)
    ensures Covered(PermissionKind, PermissionVariants, p)
  {
  }

  lemma PermissionLawful()
    ensures Lawful(PermissionCodec())
  {
    forall tag: Byte ensures LawfulAt(PermissionKind, PermissionVariants, tag) {
      PermissionVariantLawful(tag);
    }
    forall p: Permission ensures Covered(PermissionKind, PermissionVariants, p) {
      PermissionCovered(p);
    }
    UnionLawful(PermissionKind, PermissionVariants);
  }

  lemma AccessKeyLawful()
    ensures Lawful(AccessKeyCodec())
  {
    UIntsLawful();
    PermissionLawful();
    PairLawful(U64Codec(), PermissionCodec());
    StructLawful(Pair(U64Codec(), PermissionCodec()), AccessKeyIso());
  }

  // ---------- Global contracts and state init ----------

  datatype DeployMode = CodeHash | AccountId

  function DeployModeKind(m: DeployMode): Byte {
    if m.CodeHash? then 0 else 1
  }

  function DeployModeVariants(tag: Byte): Option<Codec<DeployMode>> {
    match tag
    case 0 => Some(Empty(DeployMode.CodeHash))
    case 1 => Some(Empty(DeployMode.AccountId))
    case _ => None
  }

  function DeployModeCodec(): Codec<DeployMode> { Union(DeployModeKind, DeployModeVariants) }

  lemma DeployModeLawful()
    ensures Lawful(DeployModeCodec())
  {
    EmptyLawful(DeployMode.CodeHash, DeployModeKind, 0);
    EmptyLawful(DeployMode.AccountId, DeployModeKind, 1);
    UnionLawful(DeployModeKind, DeployModeVariants);
  }

  datatype ContractId = CodeHash(hash: Bytes32) | AccountId(account: Text)

  function ContractIdKind(c: ContractId): Byte {
    if c.CodeHash? then 0 else 1
  }

  function ByHash(): Variant<Bytes32, ContractId> {
    Variant(
      Bytes32Codec(), (h: Bytes32) => ContractId.CodeHash(h), (c: ContractId) => if c.CodeHash? then Some(c.hash) else None)
  }

  function ByAccount(): Variant<Text, ContractId> {
    Variant(
      TextCodec(), (t: Text) => ContractId.AccountId(t), (c: ContractId) => if c.AccountId? then Some(c.account) else None)
  }

  function ContractIdVariants(tag: Byte): Option<Codec<ContractId>> {
    match tag
    case 0 => Some(Body(ByHash()))
    case 1 => Some(Body(ByAccount()))
    case _ => None
  }

  function ContractIdCodec(): Codec<ContractId> { Union(ContractIdKind, ContractIdVariants) }

  lemma ContractIdLawful()
    ensures Lawful(ContractIdCodec())
  {
    FixedLawful();
    BlobLawful();
    BodyLawful(ByHash(), ContractIdKind, 0);
    BodyLawful(ByAccount(), ContractIdKind, 1);
    UnionLawful(ContractIdKind, ContractIdVariants);
  }

  type Entry = (Blob, Blob)

  /** State init as it lies on the wire: a version byte, the code, and the entries in the order written. */
  datatype StateInit = StateInit(code: ContractId, data: Vec<Entry>)

  function StateInitIso(): Iso<(ContractId, Vec<Entry>), StateInit> {
    Iso((p: (ContractId, Vec<Entry>)) => StateInit(p.0, p.1), (s: StateInit) => (s.code, s.data))
  }

  function EntryCodec(): Codec<Entry> { Pair(BlobCodec(), BlobCodec()) }

  function EntriesCodec(): Codec<Vec<Entry>> { VecCodec(EntryCodec()) }

  function StateInitFields(): Codec<StateInit> { Struct(Pair(ContractIdCodec(), EntriesCodec()), StateInitIso()) }

  function StateInitCodec(): Codec<StateInit> { Tagged(0, StateInitFields()) }

  lemma StateInitLawful()
    ensures Lawful(EntryCodec()) && Lawful(EntriesCodec()) && Lawful(StateInitCodec())
  {
    ContractIdLawful();
    BlobLawful();
    PairLawful(BlobCodec(), BlobCodec());
    VecLawful(EntryCodec());
    PairLawful(ContractIdCodec(), EntriesCodec());
    StructLawful(Pair(ContractIdCodec(), EntriesCodec()), StateInitIso());
    TaggedLawful(0, StateInitFields());
  }

  // ---------- The thirteen actions a delegate may hold ----------

  datatype Plain =
    | CreateAccount
    | DeployContract(code: Blob)
    | FunctionCall(methodName: Text, args: Blob, gas: U64, deposit: U128)
    | Transfer(deposit: U128)
    | Stake(stake: U128, publicKey: PublicKey)
    | AddKey(publicKey: PublicKey, accessKey: AccessKey)
    | DeleteKey(publicKey: PublicKey)
    | DeleteAccount(beneficiaryId: Text)
    | DeployGlobalContract(code: Blob, deployMode: DeployMode)
    | UseGlobalContract(contract: ContractId)
    | DeterministicStateInit(stateInit: StateInit, deposit: U128)
    | TransferToGasKey(publicKey: PublicKey, deposit: U128)
    | WithdrawFromGasKey(publicKey: PublicKey, amount: U128)

  /** The tags are those of the full action enum: 8 belongs to signed delegates. */
  function PlainKind(a: Plain): Byte {
    match a
    case CreateAccount => 0
    case DeployContract(_) => 1
    case FunctionCall(_, _, _, _) => 2
    case Transfer(_) => 3
    case Stake(_, _) => 4
    case AddKey(_, _) => 5
    case DeleteKey(_) => 6
    case DeleteAccount(_) => 7
    case DeployGlobalContract(_, _) => 9
    case UseGlobalContract(_) => 10
    case DeterministicStateInit(_, _) => 11
    case TransferToGasKey(_, _) => 12
    case WithdrawFromGasKey(_, _) => 13
  }

  function DeployContractAction(): Variant<Blob, Plain> {
    Variant(BlobCodec(), (b: Blob) => DeployContract(b), (a: Plain) => if a.DeployContract? then Some(a.code) else None)
  }

  type CallFields = (Text, (Blob, (U64, U128)))

  function FunctionCallAction(): Variant<CallFields, Plain> {
    Variant(
      Pair(TextCodec(), Pair(BlobCodec(), Pair(U64Codec(), U128Codec()))),
      (p: CallFields) => Plain.FunctionCall(p.0, p.1.0, p.1.1.0, p.1.1.1),
      (a: Plain) => if a.FunctionCall? then Some((a.methodName, (a.args, (a.gas, a.deposit)))) else None)
  }

  function TransferAction(): Variant<U128, Plain> {
    Variant(U128Codec(), (d: U128) => Transfer(d), (a: Plain) => if a.Transfer? then Some(a.deposit) else None)
  }

  function StakeAction(): Variant<(U128, PublicKey), Plain> {
    Variant(
      Pair(U128Codec(), PublicKeyCodec()),
      (p: (U128, PublicKey)) => Stake(p.0, p.1),
      (a: Plain) => if a.Stake? then Some((a.stake, a.publicKey)) else None)
  }

  function AddKeyAction(): Variant<(PublicKey, AccessKey), Plain> {
    Variant(
      Pair(PublicKeyCodec(), AccessKeyCodec()),
      (p: (PublicKey, AccessKey)) => AddKey(p.0, p.1),
      (a: Plain) => if a.AddKey? then Some((a.publicKey, a.accessKey)) else None)
  }

  function DeleteKeyAction(): Variant<PublicKey, Plain> {
    Variant(
      PublicKeyCodec(), (k: PublicKey) => DeleteKey(k), (a: Plain) => if a.DeleteKey? then Some(a.publicKey) else None)
  }

  function DeleteAccountAction(): Variant<Text, Plain> {
    Variant(
      TextCodec(), (t: Text) => DeleteAccount(t), (a: Plain) => if a.DeleteAccount? then Some(a.beneficiaryId) else None)
  }

  function DeployGlobalAction(): Variant<(Blob, DeployMode), Plain> {
    Variant(
      Pair(BlobCodec(), DeployModeCodec()),
      (p: (Blob, DeployMode)) => DeployGlobalContract(p.0, p.1),
      (a: Plain) => if a.DeployGlobalContract? then Some((a.code, a.deployMode)) else None)
  }

  function UseGlobalAction(): Variant<ContractId, Plain> {
    Variant(
      ContractIdCodec(),
      (c: ContractId) => UseGlobalContract(c),
      (a: Plain) => if a.UseGlobalContract? then Some(a.contract) else None)
  }

  function StateInitAction(): Variant<(StateInit, U128), Plain> {
    Variant(
      Pair(StateInitCodec(), U128Codec()),
      (p: (StateInit, U128)) => DeterministicStateInit(p.0, p.1),
      (a: Plain) => if a.DeterministicStateInit? then Some((a.stateInit, a.deposit)) else None)
  }

  function ToGasKeyAction(): Variant<(PublicKey, U128), Plain> {
    Variant(
      Pair(PublicKeyCodec(), U128Codec()),
      (p: (PublicKey, U128)) => TransferToGasKey(p.0, p.1),
      (a: Plain) => if a.TransferToGasKey? then Some((a.publicKey, a.deposit)) else None)
  }

  function FromGasKeyAction(): Variant<(PublicKey, U128), Plain> {
    Variant(
      Pair(PublicKeyCodec(), U128Codec()),
      (p: (PublicKey, U128)) => WithdrawFromGasKey(p.0, p.1),
      (a: Plain) => if a.WithdrawFromGasKey? then Some((a.publicKey, a.amount)) else None)
  }

  function PlainVariants(tag: Byte): Option<Codec<Plain>> {
    match tag
    case 0 => Some(Empty(CreateAccount))
    case 1 => Some(Body(DeployContractAction()))
    case 2 => Some(Body(FunctionCallAction()))
    case 3 => Some(Body(TransferAction()))
    case 4 => Some(Body(StakeAction()))
    case 5 => Some(Body(AddKeyAction()))
    case 6 => Some(Body(DeleteKeyAction()))
    case 7 => Some(Body(DeleteAccountAction()))
    case 9 => Some(Body(DeployGlobalAction()))
    case 10 => Some(Body(UseGlobalAction()))
    case 11 => Some(Body(StateInitAction()))
    case 12 => Some(Body(ToGasKeyAction()))
    case 13 => Some(Body(FromGasKeyAction()))
    case _ => None
  }

  function PlainCodec(): Codec<Plain> { Union(PlainKind, PlainVariants) }

  lemma CreateAccountLawful()
    ensures LawfulOn(Empty(CreateAccount), PlainKind, 0)
  {
    EmptyLawful(CreateAccount, PlainKind, 0);
  }

  lemma DeployContractLawful()
    ensures LawfulOn(Body(DeployContractAction()), PlainKind, 1)
  {
    BlobLawful();
    BodyLawful(DeployContractAction(), PlainKind, 1);
  }

  lemma FunctionCallActionLawful()
    ensures LawfulOn(Body(FunctionCallAction()), PlainKind, 2)
  {
    BlobLawful();
    UIntsLawful();
    PairLawful(U64Codec(), U128Codec());
    PairLawful(BlobCodec(), Pair(U64Codec(), U128Codec()));
    PairLawful(TextCodec(), Pair(BlobCodec(), Pair(U64Codec(), U128Codec())));
    BodyLawful(FunctionCallAction(), PlainKind, 2);
  }

  lemma TransferLawful()
    ensures LawfulOn(Body(TransferAction()), PlainKind, 3)
  {
    UIntsLawful();
    BodyLawful(TransferAction(), PlainKind, 3);
  }

  lemma StakeLawful()
    ensures LawfulOn(Body(StakeAction()), PlainKind, 4)
  {
    UIntsLawful();
    PublicKeyLawful();
    PairLawful(U128Codec(), PublicKeyCodec());
    BodyLawful(StakeAction(), PlainKind, 4);
  }

  lemma AddKeyLawful()
    ensures LawfulOn(Body(AddKeyAction()), PlainKind, 5)
  {
    PublicKeyLawful();
    AccessKeyLawful();
    PairLawful(PublicKeyCodec(), AccessKeyCodec());
    BodyLawful(AddKeyAction(), PlainKind, 5);
  }

  lemma DeleteKeyLawful()
    ensures LawfulOn(Body(DeleteKeyAction()), PlainKind, 6)
  {
    PublicKeyLawful();
    BodyLawful(DeleteKeyAction(), PlainKind, 6);
  }

  lemma DeleteAccountLawful()
    ensures LawfulOn(Body(DeleteAccountAction()), PlainKind, 7)
  {
    BlobLawful();
    BodyLawful(DeleteAccountAction(), PlainKind, 7);
  }

  lemma DeployGlobalLawful()
    ensures LawfulOn(Body(DeployGlobalAction()), PlainKind, 9)
  {
    BlobLawful();
    DeployModeLawful();
    PairLawful(BlobCodec(), DeployModeCodec());
    BodyLawful(DeployGlobalAction(), PlainKind, 9);
  }

  lemma UseGlobalLawful()
    ensures LawfulOn(Body(UseGlobalAction()), PlainKind, 10)
  {
    ContractIdLawful();
    BodyLawful(UseGlobalAction(), PlainKind, 10);
  }

  lemma StateInitActionLawful()
    ensures LawfulOn(Body(StateInitAction()), PlainKind, 11)
  {
    StateInitLawful();
    UIntsLawful();
    PairLawful(StateInitCodec(), U128Codec());
    BodyLawful(StateInitAction(), PlainKind, 11);
  }

  lemma ToGasKeyLawful()
    ensures LawfulOn(Body(ToGasKeyAction()), PlainKind, 12)
  {
    PublicKeyLawful();
    UIntsLawful();
    PairLawful(PublicKeyCodec(), U128Codec());
    BodyLawful(ToGasKeyAction(), PlainKind, 12);
  }

  lemma FromGasKeyLawful()
    ensures LawfulOn(Body(FromGasKeyAction()), PlainKind, 13)
  {
    PublicKeyLawful();
    UIntsLawful();
    PairLawful(PublicKeyCodec(), U128Codec());
    BodyLawful(FromGasKeyAction(), PlainKind, 13);
  }

  lemma PlainVariantLawful(tag: Byte)
    ensures LawfulAt(PlainKind, PlainVariants, tag)
  {
    match tag {
      case 0 => CreateAccountLawful();
      case 1 => DeployContractLawful();
      case 2 => FunctionCallActionLawful();
      case 3 => TransferLawful();
      case 4 => StakeLawful();
      case 5 => AddKeyLawful();
      case 6 => DeleteKeyLawful();
      case 7 => DeleteAccountLawful();
      case 9 => DeployGlobalLawful();
      case 10 => UseGlobalLawful();
      case 11 => StateInitActionLawful();
      case 12 => ToGasKeyLawful();
      case 13 => FromGasKeyLawful();
      case _ =>
    }
  }

  lemma PlainCovered(a: Plain)
    ensures Covered(PlainKind, PlainVariants, a)
  {
  }

  lemma PlainLawful()
    ensures Lawful(PlainCodec())
  {
    forall tag: Byte ensures LawfulAt(PlainKind, PlainVariants, tag) {
      PlainVariantLawful(tag);
    }
    forall a: Plain ensures Covered(PlainKind, PlainVariants, a) {
      PlainCovered(a);
    }
    UnionLawful(PlainKind, PlainVariants);
  }

  // ---------- Delegates and the full action enum ----------

  datatype DelegateAction = DelegateAction(
    senderId: Text, receiverId: Text, actions: Vec<Plain>, nonce: U64, maxBlockHeight: U64, publicKey: PublicKey)

  type DelegateFields = (Text, (Text, (Vec<Plain>, (U64, (U64, PublicKey)))))

  function DelegateIso(): Iso<DelegateFields, DelegateAction> {
    Iso(
      (p: DelegateFields) => DelegateAction(p.0, p.1.0, p.1.1.0, p.1.1.1.0, p.1.1.1.1.0, p.1.1.1.1.1),
      (d: DelegateAction) =>
        (d.senderId, (d.receiverId, (d.actions, (d.nonce, (d.maxBlockHeight, d.publicKey))))))
  }

  function DelegateFieldsCodec(): Codec<DelegateFields> {
    Pair(
      TextCodec(),
      Pair(TextCodec(), Pair(VecCodec(PlainCodec()), Pair(U64Codec(), Pair(U64Codec(), PublicKeyCodec())))))
  }

  function DelegateCodec(): Codec<DelegateAction> { Struct(DelegateFieldsCodec(), DelegateIso()) }

  lemma DelegateLawful()
    ensures Lawful(DelegateCodec())
  {
    BlobLawful();
    UIntsLawful();
    PublicKeyLawful();
    PlainLawful();
    VecLawful(PlainCodec());
    var keyed := Pair(U64Codec(), Pair(U64Codec(), PublicKeyCodec()));
    PairLawful(U64Codec(), PublicKeyCodec());
    PairLawful(U64Codec(), Pair(U64Codec(), PublicKeyCodec()));
    PairLawful(VecCodec(PlainCodec()), keyed);
    PairLawful(TextCodec(), Pair(VecCodec(PlainCodec()), keyed));
    PairLawful(TextCodec(), Pair(TextCodec(), Pair(VecCodec(PlainCodec()), keyed)));
    StructLawful(DelegateFieldsCodec(), DelegateIso());
  }

  datatype SignedDelegate = SignedDelegate(delegate: DelegateAction, signature: Signature)

  function SignedDelegateIso(): Iso<(DelegateAction, Signature), SignedDelegate> {
    Iso(
      (p: (DelegateAction, Signature)) => SignedDelegate(p.0, p.1),
      (s: SignedDelegate) => (s.delegate, s.signature))
  }

  /** A signed delegate on its own, as shipped to a relayer: no tag. */
  function SignedDelegateCodec(): Codec<SignedDelegate> {
    Struct(Pair(DelegateCodec(), SignatureCodec()), SignedDelegateIso())
  }

  lemma SignedDelegateLawful()
    ensures Lawful(SignedDelegateCodec())
  {
    DelegateLawful();
    SignatureLawful();
    PairLawful(DelegateCodec(), SignatureCodec());
    StructLawful(Pair(DelegateCodec(), SignatureCodec()), SignedDelegateIso());
  }

  /** Only plain actions sit inside a delegate, so delegates never nest. */
  datatype Action = Plain(plain: Plain) | Delegated(signed: SignedDelegate)

  function ActionKind(a: Action): Byte {
    if a.Plain? then PlainKind(a.plain) else 8
  }

  function DelegatedAction(): Variant<SignedDelegate, Action> {
    Variant(
      SignedDelegateCodec(), (s: SignedDelegate) => Delegated(s), (a: Action) => if a.Delegated? then Some(a.signed) else None)
  }

  /** A plain action keeps the layout it has inside a delegate. */
  function Lift(c: Codec<Plain>): Codec<Action> {
    Body(Variant(c, (p: Plain) => Action.Plain(p), (a: Action) => if a.Plain? then Some(a.plain) else None))
  }

  function ActionVariants(tag: Byte): Option<Codec<Action>> {
    if tag == 8 then Some(Body(DelegatedAction()))
    else
      var c :- PlainVariants(tag);
      Some(Lift(c))
  }

  function ActionCodec(): Codec<Action> { Union(ActionKind, ActionVariants) }

  lemma LiftLawful(c: Codec<Plain>, tag: Byte)
    requires tag != 8 && LawfulOn(c, PlainKind, tag)
    ensures LawfulOn(Lift(c), ActionKind, tag)
  {
    forall a: Action, rest: Bytes | ActionKind(a) == tag
      ensures Lift(c).dec(Lift(c).enc(a) + rest) == Some((a, rest))
    {
      assert c.dec(c.enc(a.plain) + rest) == Some((a.plain, rest));
    }
    forall bs: Bytes | Lift(c).dec(bs).Some?
      ensures ActionKind(Lift(c).dec(bs).value.0) == tag
      ensures bs == Lift(c).enc(Lift(c).dec(bs).value.0) + Lift(c).dec(bs).value.1
    {
      var (p, rest) := c.dec(bs).value;
      assert bs == c.enc(p) + rest;
    }
  }

  lemma ActionVariantLawful(tag: Byte)
    ensures LawfulAt(ActionKind, ActionVariants, tag)
  {
    if tag == 8 {
      SignedDelegateLawful();
      BodyLawful(DelegatedAction(), ActionKind, 8);
    } else if PlainVariants(tag).Some? {
      PlainVariantLawful(tag);
      LiftLawful(PlainVariants(tag).value, tag);
    }
  }

  lemma ActionCovered(a: Action)
    ensures Covered(ActionKind, ActionVariants, a)
  {
    if a.Plain? {
      PlainCovered(a.plain);
    }
  }

  lemma ActionLawful()
    ensures Lawful(ActionCodec())
  {
    forall tag: Byte ensures LawfulAt(ActionKind, ActionVariants, tag) {
      ActionVariantLawful(tag);
    }
    forall a: Action ensures Covered(ActionKind, ActionVariants, a) {
      ActionCovered(a);
    }
    UnionLawful(ActionKind, ActionVariants);
  }

  /** An action tag above 13 is refused. */
  lemma UnknownActionRefused(tag: Byte, rest: Bytes)
    requires tag > 13
    ensures ActionCodec().dec([tag] + rest).None?
  {
    UnionRefuses(ActionKind, ActionVariants, tag, rest);
  }

  /** Inside a delegate so is tag 8, that of a signed delegate. */
  lemma NestedDelegateRefused(tag: Byte, rest: Bytes)
    requires tag == 8 || tag > 13
    ensures PlainCodec().dec([tag] + rest).None?
  {
    UnionRefuses(PlainKind, PlainVariants, tag, rest);
  }

  /** Inside a delegate an action is written exactly as outside it. */
  lemma SameInsideDelegates(p: Plain)
    ensures ActionCodec().enc(Action.Plain(p)) == PlainCodec().enc(p)
  {
    PlainCovered(p);
    ActionCovered(Action.Plain(p));
  }
}
