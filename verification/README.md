# Verified model of a NEAR client

A Dafny model of the parts of the NEAR Python client where mistakes cost
transactions: how concurrent sends share nonces, what bytes get signed, and
how amounts are read and printed. `dafny verify dfyconfig.toml` checks all of it.

## What is modelled

**The nonce protocol** (`World` to `Client`). One node, any number of clients
with their own caches and lock dictionaries, any number of `send_transaction`
calls in flight, and other wallets writing the same key. Each atomic step of a
call and each HTTP POST is an event; a run is any sequence of enabled events.
POSTs may be lost before or after the node processed them, queries may be
answered from any past state, and a rejection may or may not name the node's
nonce. Landings and rejections are kept as history in the state, so claims
that count over a run are claims about the state it ends in.

- `World` is the step system of one key or lane. `Invariants` proves what every
  step keeps, `Guidance`, `Guarantees` and `Effort` what follows whoever else writes the key,
  `SoleClient`, `Contention`, `Sequential` and `StrictSends` what follows when one
  client is the key's only writer. `FourSends` builds the runs that show the bounds are sharp.
- `System` runs all keys and lanes at once on shared dictionaries indexed by
  string keys, and shows that each key sees a run of its own world.
- `Client` is `send_transaction` as a loop that decides every branch and nonce from
  its locals, the shared dictionaries and the answers to its POSTs, between arbitrary
  steps of others. Each decision is proved to agree with its call in the step system,
  so every guarantee about runs holds of it. `Transport` adds the sleeping of the POST loop.
- `NonceCache` is the cache object: its keys, its three operations, and what any
  sequence of them does.

**The wire format** (`Codec` to `Delegates`). Codecs are pairs of an encoder and
a decoder; combinators build structs, vectors, options and enums. A codec is
lawful when it decodes what it encodes, whatever follows, and accepts nothing
else. `Wire` and `Transactions` hold the types and their codecs, `Layouts` the bytes of
each type written out field by field, `Signing` the four signing payloads,
`StateInits` the canonical order of state-init entries, `Reading` decoding as the
models do it (layout, then canonical order), `Delegates` and `Messages` the
relayer and NEP-413 paths. Plain actions and signed delegates are two types,
so delegates cannot nest and recursion ends with the type.

**Decimal units** (`Decimal`, `Scaled`, `Units`) and **account ids** (`Regex`, `AccountId`).

### Assumptions

- A node that is posted bytes it has already accepted answers with the stored result. A
  transaction is told by its call and its nonce: a call signs again only after a rejection.
- A request whose POST failed is processed at that POST or not at all.
- `send_tx` is answered after the node has judged the transaction, as at every wait level but
  "NONE". At "NONE" the call returns with a transaction that may land later or never; see Left out.
- A query never reports a nonce above the node's current one, and a rejection
  that names a nonce names the current one.
- A run starts with empty caches and no call under way.
- The asynchronous client has the same steps and switches only at awaits, so its
  runs are among the modelled ones.
- Hashes, signatures, key parsing and base64 are parameters. Where a result needs
  it, it is stated that decoding undoes encoding and that a key accepts what it signed.

### Where the code and its documentation differ

- The account-id pattern passes two kinds of string the naming rule does not. Its `$` also matches
  before a final newline, and its `\d` matches the decimal digits of every script (two times U+0663,
  say). `AccountId.ValidIdsWellNamed` says that there are no others and `AccountId.BothSlipThrough`
  that both pass. The set of digits is a parameter there. The `0s` pattern has the first leak only.
- A token amount prints with its symbol as is, and reads back exactly when the symbol has no
  whitespace or nothing else (`Units.TokenRoundTrip`).
- Three attempts are meant to outlast two overlapping sends. When strict and monotonic sends mix,
  a monotonic send can give up although only two transactions landed while it ran, because a
  strict transaction can land before, or without, its nonce reaching the cache
  (`FourSends.TwoLandingsDuringCanBeEnough`, with current reads and telling rejections too).
  `FourSends.GivingUpNeedsThreeWhenLevel` says when: exactly when the cache was behind the chain as the send began.
- The cache is meant to keep a client level with the chain, so that sends one after another need no
  retry. A strict send does not reserve from the cache, and an error from the transport skips
  the sync, so after a strict send whose answer was lost the cache can stay behind, and the next
  monotonic send is rejected once though nobody else sent anything (`Sequential.StrictFailureLeavesCacheBehind`).
  `Sequential.QuietCacheIsLevel` and `Sequential.LevelMeansLandsFirst` give the exact conditions;
  no strict send on the key having ended in a transport error is enough.

## Model

| member | source | states |
|---|---|---|
| Invariants.InvStep | src/near/client.py:291-337 | every event, of any call or of another wallet, keeps the invariant that ties each call's locals, its lock, the cache, the landing log and the reported nonces together |
| Invariants.ReachableInv | src/near/client.py:261-337 | so the invariant holds at the end of every run |
| Invariants.ReservesTheLeast | src/near/_core.py:281-289 | in every state, a reserving call goes on to sign, and leaves in its client's cache, the least positive nonce above the cached and the fetched one; no other client's cache changes |
| Invariants.SyncsToTheLarger | src/near/_core.py:295-298 | after a rejection or a landing the cache holds the larger of its old value and the node's nonce, and nothing else changes |
| Guarantees.StrictSendsExclude | src/near/client.py:286-298 | under every interleaving, racing lock creation included, at most one strict send per client and key is between its fetch and its return |
| Guarantees.ReserveNeverGuesses | src/near/client.py:300-303 | whenever `reserve` runs without a fetched nonce the key is cached, at no less than some nonce the node reported or accepted |
| Guarantees.OutcomeMatchesChain | src/near/client.py:316-337 | at every wait level but "NONE", a call that returns has a transaction of its own on chain, one that raises InvalidNonceError has none, and no call ever has two, although the node would accept any second transaction with a fitting nonce |
| Guarantees.LandingsIncrease | src/near/wire.py:231-238 | accepted nonces strictly increase, above the starting nonce and up to the current one |
| Guarantees.RetriesAimAbove | src/near/client.py:324-331 | after a rejection that names r the next attempt signs above r, in strict mode exactly r + 1, with stale reads and other writers |
| Guarantees.RejectedTwiceMeansOvertaken | src/near/client.py:292-331 | if reads are current, or rejections name the nonce, or the first of the two did, then between two rejections someone else's transaction landed |
| Guidance.GuidedRejectionsRise | src/near/client.py:293-331 | with current reads, or rejections that name the nonce, the chain has grown between any two rejections of a call, in either mode |
| Guarantees.GivingUpMeansTwoOvertook | src/near/client.py:292-337 | giving up takes three rejections; if reads are current, or the first two named their nonces, two other transactions landed between the first and the last |
| FourSends.SilentRejectionsCanExhaust | src/near/client.py:325-331 | in every environment with neither guarantee there is a run in which a send gives up though nobody lands while it runs |
| Effort.PostsBounded | src/near/rpc.py:240-254 | a call makes at most 9 * (retries + 1) POSTs |
| Effort.FetchesExactly | src/near/client.py:292-303 | a monotonic call that begins with its key cached fetches the nonce exactly once for each retry; a strict one fetches it once, and once more for each retry after a rejection that named none; whatever happens around them |
| Effort.FailsExactlyWhen | src/near/rpc.py:240-254 | a call ends in a transport failure exactly when its last POST brought an error that is not retried, or retries + 1 POSTs in a row were lost |
| Effort.StepsBounded | src/near/client.py:292-337 | no run contains more than 9 * (retries + 1) + 27 steps of one call, so every call ends |
| Effort.SomeoneCanStep | src/near/client.py:286-291 | while any call is unfinished some unfinished call can step: no deadlock among lock holders and waiters |
| SoleClient.ReachedUnlessUnsynced | src/near/client.py:326-332 | with one client, the cache has reached every landing unless its call is strict and has not synced |
| SoleClient.SoleStep | src/near/client.py:291-337 | every event keeps the sole-client invariant: signed nonces clear every landing the call was not overtaken by |
| SoleClient.ReachableSole | src/near/client.py:291-337 | so it holds at the end of every run |
| Contention.GivingUpMeansThreeOvertook | src/near/client.py:292-337 | a monotonic send of the only client that gives up was overtaken, before its last rejection, by three different other sends (first reads not below the starting nonce or something landed and known to the cache; current reads, telling rejections or monotonic sends only) |
| Contention.GivingUpMeansThreeLandedDuring | src/near/client.py:292-337 | under the same hypotheses, all three landed between its start and its last rejection if every send is monotonic, or if no landing was unknown to the cache when it started |
| FourSends.GivingUpNeedsThreeWhenLevel | src/near/client.py:292-337 | once the key is cached, a monotonic send that gives up is sure to have seen three others land while it ran exactly when the cache was level with the chain as it began, in any mix of modes (current reads, telling rejections or monotonic sends only; two more sends about to run) |
| Contention.MonotonicStartsClear | src/near/client.py:299-303 | among monotonic sends no landing is unknown to the cache when a call starts |
| Contention.ThreeSendsAllLand | src/near/client.py:292-337 | so, under the same hypotheses, a monotonic send that at most two others overtake before its last rejection never ends in InvalidNonceError, whatever its client sent before or sends later |
| Contention.RejectedMeansOvertaken | src/near/client.py:299-332 | a monotonic send rejected even once was overtaken before its first rejection (first reads not below the starting nonce, or something landed and known to the cache) |
| Contention.UnovertakenLandsFirst | src/near/client.py:299-332 | under the same hypothesis, with nothing unknown to the cache at its start and no other landing before a first rejection there is no rejection |
| Sequential.QuietCacheIsLevel | src/near/client.py:315-332 | with no call under way, after something landed, the cache is level with the chain exactly when no strict send ended in a transport error after landing on a nonce the cache has not reached, in any mix of modes |
| Sequential.LevelMeansLandsFirst | src/near/client.py:299-303 | once the key is cached, a monotonic send running on its own is sure to need one attempt only, and to land unless the transport fails, exactly when the cache is level with the chain |
| Sequential.SequentialSendsLandFirst | src/near/client.py:293-332 | so sends one after another need one attempt each, and land unless the transport fails, as long as no strict send ended in a transport error or some later send has returned since |
| Sequential.StrictFailureLeavesCacheBehind | src/near/client.py:315-332 | a run in which one did, the cache stays behind, and the next send alone is rejected, in every environment with one writing client |
| StrictSends.StrictSendsLand | src/near/client.py:286-298 | with current reads or telling rejections, strict sends of the only client never give up: no rejection with current reads, at most one otherwise, and exactly one fetch |
| StrictSends.StrictLandingsHaveNoGap | src/near/wire.py:231-238 | with strict sends only, of any clients, the node's rule alone leaves no gap: at every moment the landed nonces are those after the starting one |
| StrictSends.StrictNoncesAreConsecutive | src/near/aclient.py:290-341 | when all k strict sends have returned the landed nonces are exactly the k after the starting one |
| FourSends.FourMonotonicSendsCanFail | src/near/client.py:299-303 | four overlapping monotonic sends are too many: a run in which one gives up, in every environment with one writing client |
| FourSends.TwoLandingsDuringCanBeEnough | src/near/client.py:317-332 | in every environment with one writing client, a mixed-mode run in which a send ends in InvalidNonceError though only two transactions landed while it ran |
| System.StepProjects | src/near/_core.py:276-298 | a step on one key or lane is a step of that key's world and leaves every other key's untouched |
| System.EachKeyReachable | src/near/_core.py:265-298 | whatever runs on all keys together, each key's world is reachable on its own |
| System.StrictSendsExcludeEverywhere | src/near/client.py:572-577 | so strict sends on one key or lane take turns however the other keys are used |
| Client.Session.SendTransaction | src/near/client.py:261-337 | at every wait level but "NONE", the loop over attempts, interleaved with anything, ends in an outcome that matches the chain, within the POST bound |
| Client.Session.Attempts | src/near/client.py:290-337 | three attempts, under the lock when strict, lead to the end of the call with the outcome the loop computed |
| Client.Session.Attempt | src/near/client.py:292-335 | one attempt ends the call, or leaves the next one with the reported nonce as its base, as its answers say |
| Client.Session.ChooseNonce | src/near/client.py:293-303 | the nonce computed from strict base, attempt number, cache and fetched nonce is the one the step system is about to sign |
| Client.Session.Reserve | src/near/_core.py:281-289 | the nonce computed from the shared cache is the least positive one above the fetched nonce and what was cached at that moment, and is the one cached and signed |
| Client.Session.SyncTo | src/near/_core.py:295-298 | the value computed is the larger of the node's nonce and what was cached at that moment, and is the one cached |
| Client.Session.StrictLock | src/near/client.py:572-577 | the lock found, or left by `setdefault`, is the one the step system waits for |
| Client.Session.Enter | src/near/client.py:290-291 | waits until that lock is free, and holds it |
| Client.Session.Transport | src/near/rpc.py:240-254 | POSTs again only after retryable failures, and what it hands back, decided from the answers, is what the step system's call goes on with |
| Transport.Call | src/near/rpc.py:240-254 | stops at the first result that is not a retryable failure, after the sum of doubling delays so far; InvalidNonceError leaves at once |
| Transport.CallBounded | src/near/rpc.py:240-254 | sleeps at most initial_delay * (2^retries - 1); InvalidNonceError is raised only if a POST brought it |
| NonceCache.NonceCache.Reserve | src/near/_core.py:281-289 | hands out and caches the least positive nonce above both the cached and the fetched one |
| NonceCache.NonceCache.SyncTo | src/near/_core.py:295-298 | caches the larger of the cached and the given nonce |
| NonceCache.CacheOnlyRises | src/near/_core.py:281-298 | over any sequence of operations cached values never fall and keys never disappear |
| NonceCache.ReservationsIncrease | src/near/_core.py:281-289 | reservations of one key are strictly increasing whatever operations come between |
| NonceCache.LanesDoNotInterfere | src/near/_core.py:276-298 | what a reservation hands out depends on the operations on its own key only |
| NonceCache.CacheKeyInjective | src/near/_core.py:276-279 | signer, public key and lane can be told from the key string; no lane is "no lane" |
| Codec.PairLawful | src/near/wire.py:93-100 | a struct of lawful fields decodes what it encodes and nothing else |
| Codec.UIntsLawful | src/near/wire.py:136-138 | little-endian integers of 2, 4, 8 and 16 bytes round-trip exactly |
| Codec.LittleEndian | src/near/wire.py:136-138 | byte i of a written integer is its digit at 256^i, and bytes read as the sum of their digits so weighted, at every width |
| Codec.BlobBytes | src/near/wire.py:253-259 | a byte string or text is its length in four bytes, least first, and then its bytes |
| Codec.VecLawful | src/near/wire.py:356-364 | so do length-prefixed vectors |
| Codec.OptionLawful | src/near/wire.py:96-98 | and options |
| Codec.UnionLawful | src/near/wire.py:319-334 | and enums, provided each tag's layout handles exactly the values of that tag |
| Wire.PublicKeyLawful | src/near/wire.py:43-59 | public keys of all three curves round-trip, whatever follows |
| Wire.SignatureLawful | src/near/wire.py:62-78 | so do signatures |
| Wire.AccessKeyLawful | src/near/wire.py:103-138 | and access keys with all four permissions |
| Wire.StateInitLawful | src/near/wire.py:179-197 | and state inits with their version byte |
| Wire.PlainLawful | src/near/wire.py:339-353 | and the thirteen actions a delegate may hold |
| Wire.DelegateLawful | src/near/wire.py:356-364 | and delegate actions |
| Wire.ActionLawful | src/near/wire.py:244-334 | and all fourteen actions, signed delegates included |
| Wire.UnknownActionRefused | src/near/wire.py:311-315 | bytes with an action tag above 13 do not decode |
| Wire.NestedDelegateRefused | src/near/wire.py:336-353 | nor, inside a delegate, do those with the tag of a signed delegate |
| Wire.SameInsideDelegates | src/near/wire.py:336-353 | an action keeps its tag and bytes inside a delegate |
| Transactions.TransactionLawful | src/near/wire.py:375-383 | version 0 transactions round-trip, whatever follows |
| Transactions.TransactionV1Lawful | src/near/wire.py:391-406 | so do version 1 transactions, version byte included |
| Transactions.SignedLawful | src/near/wire.py:386-413 | and both with a signature appended |
| Transactions.SentIsWhatWasSigned | src/near/wire.py:481-495 | the bytes sent read back as the transaction signed, with a signature over the hash of exactly its own leading bytes |
| Transactions.MessageLawful | src/near/wire.py:419-425 | NEP-413 payloads round-trip |
| Layouts.TransactionV1Layout | src/near/wire.py:244-406 | the bytes of a version 1 transaction written out field by field, down to every action, delegate, permission and key in it |
| Signing.JointlyInjective | src/near/wire.py:33-36 | the four signing payloads share no bytes: equal bytes mean the same kind and the same value, unless a version 0 signer id is as long as a tag or has length 1 modulo 256 |
| Signing.AccountsNeverConfused | src/near/keys.py:353-355 | in particular for signer ids of 2 to 64 characters, each of one to four bytes |
| Signing.DelegatePayloadBytes | src/near/wire.py:498-505 | a delegate's payload is the NEP-461 prefix in four bytes and the delegate's fields in order |
| Signing.TagBytes | src/near/wire.py:33-36 | the two domain tags on the wire are the bytes 6E 01 00 40 and 9D 01 00 80 |
| Signing.BuiltByDefault | src/near/_core.py:222-234 | without a lane or strict mode a transaction is version 0, field by field |
| Signing.BuiltForLaneOrStrict | src/near/_core.py:204-243 | with either it is version 1, with the lane in its nonce and the mode byte last |
| Signing.BuiltBytesTellAll | src/near/_core.py:204-243 | the signed bytes fix every argument a transaction was built from: nonce, lane, mode and all the rest |
| StateInits.SortIsSorted | src/near/wire.py:203 | sorting puts keys in bytewise order and keeps exactly the entries given |
| StateInits.BytewiseOrder | src/near/wire.py:203 | bytewise order: a key comes before those it begins, and otherwise the first byte that differs decides |
| StateInits.CanonicalOrRepeated | src/near/wire.py:197-207 | the neighbour check refuses exactly the inputs with some repeated key; what is accepted is a strictly ascending reordering |
| StateInits.OrderDoesNotMatter | src/near/wire.py:197-207 | two orderings of the same entries are refused together or come out the same |
| StateInits.FixedWhenAscending | src/near/wire.py:197-207 | entries are left alone exactly when already strictly ascending, so canonicalising twice changes nothing |
| StateInits.BytesTellMapsApart | src/near/wire.py:182-207 | two maps have the same bytes exactly when they and their codes are equal |
| StateInits.DerivedIsValid | src/near/state_init.py:33-41 | every derived id has the `0s` shape and is a valid account id, whatever the hash and whatever digits `\d` matches |
| StateInits.DerivedSpellsTail | src/near/state_init.py:33-36 | a derived id is `0s` and the last twenty bytes of the hash of the state init's bytes, two hexadecimal digits a byte, the higher first |
| StateInits.DerivedAgree | src/near/state_init.py:33-36 | two derived ids are equal exactly when the last twenty bytes of the hashes are |
| StateInits.OrderNeverReachesTheId | src/near/state_init.py:33-36 | the order of entries changes neither the state init nor the id |
| Reading.TransactionReadsBack | src/near/wire.py:386-388 | a signed transaction that can be built decodes to itself, leaving what follows |
| Reading.TransactionV1ReadsBack | src/near/wire.py:409-413 | so does a signed version 1 transaction |
| Reading.DelegateReadsBack | src/near/wire.py:283-286 | and a signed delegate |
| Reading.ReencodesWhenInOrder | src/near/wire.py:197-207 | a decoded signed transaction encodes to the bytes read exactly when those had every state init in canonical order already |
| Reading.ReencodesV1WhenInOrder | src/near/wire.py:197-207 | the same of signed version 1 transactions |
| Reading.ReencodesDelegateWhenInOrder | src/near/wire.py:197-207 | and of signed delegates |
| Reading.ReadingOnlyReorders | src/near/wire.py:197-207 | bytes laid out as a signed transaction are refused exactly when some state init repeats a key, and what is read differs from what they say in the order of state-init entries only |
| Reading.ReadingV1OnlyReorders | src/near/wire.py:197-207 | the same of signed version 1 transactions |
| Reading.ReadingDelegatesOnlyReorders | src/near/wire.py:197-207 | and of signed delegates |
| Reading.ReadTransactionsAreSettled | src/near/wire.py:197-207 | whatever decodes as a signed transaction has every state init in canonical order, inside delegates too |
| Reading.ReadDelegatesAreSettled | src/near/wire.py:197-207 | so has whatever decodes as a signed delegate |
| Delegates.EncodedDecodes | src/near/delegate.py:28-35 | what is encoded for transport decodes to itself, whole |
| Delegates.RelayerGetsWhatWasSigned | src/near/delegate.py:18-35 | a relayer decodes the delegate that was signed, with the signature over the hash of its prefixed bytes |
| Messages.HashedBytes | src/near/nep413.py:34-47 | a message's hash is over the tag and its text, nonce, recipient and callback, in that order |
| Messages.TimestampSurvives | src/near/nep413.py:50-58 | the timestamp comes back out of the first eight bytes and is the reading rounded towards zero, and the other bytes are the random ones |
| Messages.BigEndian | src/near/nep413.py:57 | counted from the right, byte i of the timestamp is its digit at 256^i |
| Messages.NonceExists | src/near/nep413.py:57 | there is a nonce exactly for readings after -1 ms and below 2^64 ms |
| Messages.SignsAsAsked | src/near/nep413.py:61-81 | signing fails exactly for another key type or a nonce that is not 32 bytes long; otherwise the message carries the signer's id and key and the signature over the hash of the tagged fields |
| Messages.VerifiesExactlyWhen | src/near/nep413.py:101-107 | without a time window a message verifies exactly when its key parses, its signature decodes, the nonce has 32 bytes and the key accepts the signature over the hash of the tagged fields |
| Messages.TimeWindow | src/near/nep413.py:96-100 | with one, exactly when it verifies without, the nonce has 32 bytes and the reading is from 0 to max_age after the nonce's timestamp |
| Messages.AlteredMessageRefused | src/near/nep413.py:84-107 | a signed message presented with another text, recipient, nonce or callback is refused, if the key accepts its signature for one digest only and the two hashes differ |
| Messages.SignedMessageVerifies | src/near/nep413.py:61-107 | a message signed at t verifies at t' exactly when t' less the floored t is within 0 to max_age, so at every t' from t to t + max_age - 1 |
| Decimal.DigitAt | src/near/units.py:34 | a numeral's digit i, as its distance from '0', is what its value holds at that power of ten |
| Decimal.PrintedDigits | src/near/units.py:37-42 | and the digits printed for a number are what it holds at each power of ten |
| Scaled.ParsingIsExact | src/near/units.py:29-34 | digits w and f read as w * 10^s + f * 10^(s - len f), and exactly the longer fractions are refused |
| Scaled.PrintsCanonically | src/near/units.py:37-42 | every number prints as a spelling of itself with no needless zeros |
| Scaled.CanonicalIsPrinted | src/near/units.py:37-42 | and that is the only such spelling |
| Scaled.PrintAlike | src/near/units.py:29-42 | two spellings print alike exactly when they denote the same number |
| Scaled.PrintThenParse | src/near/units.py:29-42 | parsing what was printed gives the number back, at every scale |
| Units.AmountReads | src/near/units.py:67-69 | a NEAR amount in any spacing and letter case reads as the number it spells, unless it is too fine |
| Units.YoctoReads | src/near/units.py:70-71 | digits with yocto or yoctoNEAR in any spacing and letter case read as the number they spell |
| Units.BareNumberAmbiguous | src/near/units.py:72-77 | a number without a unit is refused as ambiguous, whatever whitespace is around it |
| Units.AmountAcceptsOnly | src/near/units.py:66-80 | any other text is an invalid format: what reads as an amount is one of the two with the value it spells, what is refused otherwise is a bare number or a NEAR amount with more than 24 decimals |
| Units.GasReads | src/near/units.py:189-191 | a Tgas amount in any spacing and letter case reads as the gas it spells, unless it is too fine |
| Units.RawGasReads | src/near/units.py:192-194 | bare digits read as raw gas units |
| Units.GasAcceptsOnly | src/near/units.py:188-197 | and no other text reads as gas |
| Units.TokenReads | src/near/tokens.py:88-99 | a number and a symbol read as the number spelled when the symbol is the token's in any letter case; any other symbol is refused as a mismatch |
| Units.BareTokenReads | src/near/tokens.py:88-99 | the symbol may be left out |
| Units.TokenAcceptsOnly | src/near/tokens.py:88-99 | and no other text reads as a token amount; each refusal says which of the three ways the text went wrong |
| Units.UpperAlike | src/near/units.py:23-25 | upper-casing, and so case-insensitive matching, tells texts apart exactly when they differ in more than the case of ASCII letters |
| Units.AmountRoundTrip | src/near/units.py:60-115 | `Amount(str(a)) == a` on both sides of the switch from yocto to NEAR |
| Units.DustReadsAsYocto | src/near/units.py:111-115 | exactly the amounts whose NEAR spelling would start 0.000 print in yocto, every other one as its NEAR spelling |
| Units.GasAndTokensPrint | src/near/units.py:37-42 | gas and token amounts print as their canonical spelling, a space, and Tgas or the symbol |
| Units.GasRoundTrip | src/near/units.py:183-216 | `Gas(str(g)) == g` |
| Units.TokenRoundTrip | src/near/tokens.py:77-109 | a printed token amount reads back exactly for symbols without whitespace, or of nothing but whitespace |
| Regex.SeparatedMeansJoined | src/near/keys.py:62 | words separated by single marks, as the pattern nests them, are what one pass finds |
| AccountId.PatternIsOnePass | src/near/keys.py:62 | whatever digits `\d` matches, the account-id pattern accepts what a one-pass scan accepts, give or take a final newline |
| AccountId.WellNamedSpelled | src/near/keys.py:62 | in characters, the naming rule proper is lower-case letters, ASCII digits and single dashes, underscores or dots between them, at least one character in all |
| AccountId.LengthRule | src/near/keys.py:355 | ids shorter than 2 or longer than 64 characters are refused, and every well-named one in between is accepted |
| AccountId.ValidIdsWellNamed | src/near/keys.py:353-355 | a valid id follows the naming rule exactly when it neither ends in a newline nor holds a digit of another script |
| AccountId.BothSlipThrough | src/near/keys.py:62 | a name with a newline added is accepted, and so are two digits of another script |
| AccountId.NoColon | src/near/keys.py:353-355 | no valid account id contains a colon |
| AccountId.DeterministicIsValid | src/near/state_init.py:21-41 | every id of the deterministic shape is a valid account id and follows the naming rule |
| AccountId.DeterministicPattern | src/near/state_init.py:21-41 | the pattern for derived ids accepts what has the shape, give or take a final newline |

## Left out

- HTTP, JSON and error classification: replies are nondeterministic, sorted into retryable, fatal and InvalidNonceError.
- Wall-clock time and randomness: readings and random bytes are parameters; clock readings are reals, so floating-point rounding of milliseconds is not modelled.
- Sends with `wait_until="NONE"`: the node answers before judging the transaction, so the call returns, frees its
  strict lock and syncs its nonce whether or not the transaction ever lands. No result about what lands covers them.
- Lost replies where the node does not recognise bytes it accepted before: excluded by the first assumption.
- The u64 limit on nonces in the protocol, and the node's height-based upper limit: nonces there are naturals; the wire types bound them.
- Client clones made by `with_signer`: each is one more client with its own cache and locks.
- Exceptions between requests (a lane index past the key's lanes, an id that fails validation): they end a call like a fatal reply.
- Text on the wire is carried as its UTF-8 bytes; that a decoded string is valid UTF-8 is not modelled.
- How pydantic and pyborsh pick union members, and coercions of field values: only the declared layouts are modelled.
- Hash functions, signature schemes, base58, base64, BIP-39 and SLIP-0010: parameters or absent, and nothing is claimed about collisions.
- Units: ASCII digits, letters and whitespace only; negative amounts, constructors from floats and decimals, arithmetic operators and error texts are absent.
- Case-insensitive matching covers ASCII letters only.
- Client.Session.SendTransaction: returns no outcome when the given schedule ends while the call waits for its lock, because a schedule is a finite list.
- View helpers, token and NFT helpers, action builders, credentials, environment resolution, the pytest plugin and the sandbox: no protocol state of their own.
