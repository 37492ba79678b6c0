/**
NEP-413 messages: nonces that carry a timestamp, signing, and verification
with its time window. Clocks are readings in milliseconds; hashing,
signatures, key parsing and base64 are the parameters of a Suite.
*/
module Messages {
  import opened Wrappers
  import opened Codec
  import opened Wire
  import opened Transactions
  import opened Layouts
  import opened Signing

  // ---------- Big-endian timestamps ----------

  function BE(x: nat, width: nat): (bs: Bytes)
    ensures |bs| == width
  {
    if width == 0 then [] else BE(x / 256, width - 1) + [x % 256]
  }

  function FromBE(bs: Bytes): nat {
    if bs == [] then 0 else 256 * FromBE(bs[..|bs| - 1]) + bs[|bs| - 1]
  }

  lemma {:induction false} FromBEofBE(x: nat, width: nat)
    requires x < Pow256(width)
    ensures FromBE(BE(x, width)) == x
  {
    if width > 0 {
      var bs := BE(x, width);
      FromBEofBE(x / 256, width - 1);
      assert bs[..|bs| - 1] == BE(x / 256, width - 1);
      assert bs[|bs| - 1] == x % 256;
    }
  }

  lemma {:induction false} BEAt(x: nat, width: nat, i: nat)
    requires i < width
    ensures Pow256(i) > 0 && BE(x, width)[width - 1 - i] == x / Pow256(i) % 256
  {
    if i > 0 {
      BEAt(x / 256, width - 1, i - 1);
      DivDiv(x, Pow256(i - 1));
    }
  }

  /** Big-endian: the last byte counts ones, the one before it 256s, and so on. */
  lemma BigEndian(x: nat, width: nat)
    ensures forall i :: 0 <= i < width ==> Pow256(i) > 0 && BE(x, width)[width - 1 - i] == x / Pow256(i) % 256
  {
    forall i | 0 <= i < width ensures Pow256(i) > 0 && BE(x, width)[width - 1 - i] == x / Pow256(i) % 256 {
      BEAt(x, width, i);
    }
  }

  /** `int(x)`: towards zero. */
  function Truncate(x: real): int {
    if x >= 0.0 then x.Floor else -((-x).Floor)
  }

  /** Eight bytes of timestamp, then the random ones; None where the timestamp does not fit. */
  function GenerateNonce(now: real, random: Bytes): (r: Option<Bytes>)
    requires |random| == 24
    ensures r.Some? ==> |r.value| == 32
  {
    var timestamp := Truncate(now);
    if 0 <= timestamp < Pow256(8) then Some(BE(timestamp, 8) + random) else None
  }

  /** There is a nonce exactly for readings after -1 ms whose whole milliseconds fit in eight bytes. */
  lemma NonceExists(now: real, random: Bytes)
    requires |random| == 24
    ensures GenerateNonce(now, random).Some? <==> -1.0 < now < 0x1_0000_0000_0000_0000 as real
  {
    Widths();
  }

  /** The timestamp comes back out of the nonce, and it is the reading rounded towards zero; the rest is the random part. */
  lemma TimestampSurvives(now: real, random: Bytes)
    requires |random| == 24 && GenerateNonce(now, random).Some?
    ensures FromBE(GenerateNonce(now, random).value[..8]) == Truncate(now)
    ensures GenerateNonce(now, random).value[8..] == random
    ensures now >= 0.0 ==> now - 1.0 < Truncate(now) as real <= now
    ensures now < 0.0 ==> now <= Truncate(now) as real < now + 1.0
  {
    var timestamp := Truncate(now);
    FromBEofBE(timestamp, 8);
    assert (BE(timestamp, 8) + random)[..8] == BE(timestamp, 8);
  }

  // ---------- Signing and verifying ----------

  datatype Suite<!K> = Suite(
    sha: Bytes -> Bytes32,
    parseKey: string -> Option<K>,
    check: (K, Bytes, Bytes32) -> bool,
    encode64: Bytes -> string,
    decode64: string -> Option<Bytes>)

  datatype Signer<!K> = Signer(accountId: string, isEd25519: bool, key: K, keyText: string, sign: Bytes32 -> Bytes)

  datatype SignedMessage = SignedMessage(accountId: string, publicKey: string, signature: string)

  /** What is assumed of the cryptography: a key reads back, and accepts what it signed. */
  ghost predicate Sound<K(!new)>(suite: Suite<K>, signer: Signer<K>) {
    && suite.parseKey(signer.keyText) == Some(signer.key)
    && (forall bs :: suite.decode64(suite.encode64(bs)) == Some(bs))
    && (forall digest :: suite.check(signer.key, signer.sign(digest), digest))
  }

  datatype Said = Said(text: Text, recipient: Text, nonce: Bytes, callbackUrl: Option<Text>)

  /** None where the nonce is not 32 bytes long. */
  function Hash<K>(suite: Suite<K>, m: Said): Option<Bytes32> {
    if |m.nonce| != 32 then None
    else Some(suite.sha(MessagePayload(AsMessage(m))))
  }

  function SaidBytes(m: Said): Bytes {
    EncBlob(m.text) + (m.nonce + (EncBlob(m.recipient) + OptionBytes(EncBlob, m.callbackUrl)))
  }

  /** What is hashed for a message. */
  function SaidPayload(m: Said): Bytes {
    Under(MESSAGE_TAG, SaidBytes(m))
  }

  function AsMessage(m: Said): Message
    requires |m.nonce| == 32
  {
    Message(m.text, m.nonce, m.recipient, m.callbackUrl)
  }

  lemma SaidFields(m: Said)
    requires |m.nonce| == 32
    ensures MessageBytes(AsMessage(m)) == SaidBytes(m)
  {
  }

  lemma PayloadOfSaid(m: Said)
    requires |m.nonce| == 32
    ensures MessagePayload(AsMessage(m)) == SaidPayload(m)
  {
    MessagePayloadBytes(AsMessage(m));
    SaidFields(m);
  }

  /** What is hashed: the tag in four bytes, then text, nonce, recipient and callback, in that order. */
  lemma HashedBytes<K>(suite: Suite<K>, m: Said)
    requires |m.nonce| == 32
    ensures Hash(suite, m) == Some(suite.sha(Under(MESSAGE_TAG, SaidBytes(m))))
  {
    PayloadOfSaid(m);
  }

  function SignMessage<K>(suite: Suite<K>, signer: Signer<K>, m: Said): Option<SignedMessage> {
    if !signer.isEd25519 then None
    else
      var digest :- Hash(suite, m);
      Some(SignedMessage(signer.accountId, signer.keyText, suite.encode64(signer.sign(digest))))
  }

  /** The signature alone. */
  function SignatureHolds<K>(suite: Suite<K>, signed: SignedMessage, m: Said): bool {
    match (suite.parseKey(signed.publicKey), suite.decode64(signed.signature), Hash(suite, m))
    case (Some(key), Some(signature), Some(digest)) => suite.check(key, signature, digest)
    case _ => false
  }

  /** Only an ed25519 key signs, and only over 32-byte nonces; the message names the signer, its key and its signature. */
  lemma SignsAsAsked<K>(suite: Suite<K>, signer: Signer<K>, m: Said)
    ensures SignMessage(suite, signer, m).Some? <==> signer.isEd25519 && |m.nonce| == 32
    ensures SignMessage(suite, signer, m).Some? ==>
              var signed := SignMessage(suite, signer, m).value;
              && signed.accountId == signer.accountId && signed.publicKey == signer.keyText
              && signed.signature == suite.encode64(signer.sign(suite.sha(SaidPayload(m))))
  {
    if |m.nonce| == 32 {
      HashedBytes(suite, m);
    }
  }

  /** The message is older than allowed, or from the future. */
  predicate Expired(nonce: Bytes, maxAge: int, now: real)
    requires |nonce| == 32
  {
    var age := now - FromBE(nonce[..8]) as real;
    age > maxAge as real || age < 0.0
  }

  function Verify<K>(suite: Suite<K>, signed: SignedMessage, m: Said, maxAge: Option<int>, now: real): bool {
    if maxAge.Some? && |m.nonce| == 32 && Expired(m.nonce, maxAge.value, now) then false
    else SignatureHolds(suite, signed, m)
  }

  /**
  Time aside, a message verifies exactly when its key and signature can be
  read, its nonce has 32 bytes, and the key accepts the signature over the
  hash of the tagged message.
  */
  lemma VerifiesExactlyWhen<K>(suite: Suite<K>, signed: SignedMessage, m: Said, now: real)
    ensures Verify(suite, signed, m, None, now) <==>
            var (key, signature) := (suite.parseKey(signed.publicKey), suite.decode64(signed.signature));
            && key.Some? && signature.Some? && |m.nonce| == 32
            && suite.check(key.value, signature.value, suite.sha(SaidPayload(m)))
  {
    if |m.nonce| == 32 {
      HashedBytes(suite, m);
    }
  }

  lemma ShortNonceNeverVerifies<K>(
    suite: Suite<K>, signed: SignedMessage, m: Said, maxAge: Option<int>, now: real)
    requires |m.nonce| != 32
    ensures !Verify(suite, signed, m, maxAge, now)
  {
    assert Hash(suite, m).None?;
  }

  /** Time refuses exactly outside the closed window that opens at the timestamp; nothing else about time matters. */
  lemma TimeWindow<K>(suite: Suite<K>, signed: SignedMessage, m: Said, maxAge: int, now: real)
    ensures Verify(suite, signed, m, Some(maxAge), now) <==>
            && |m.nonce| == 32
            && 0.0 <= now - FromBE(m.nonce[..8]) as real <= maxAge as real
            && Verify(suite, signed, m, None, now)
  {
    if |m.nonce| != 32 {
      ShortNonceNeverVerifies(suite, signed, m, Some(maxAge), now);
    }
  }

  /** A message signed at one reading verifies at another exactly when the window is open. */
  lemma SignedMessageVerifies<K(!new)>(
    suite: Suite<K>, signer: Signer<K>, text: Text, recipient: Text, callbackUrl: Option<Text>,
    signedAt: real, random: Bytes, maxAge: int, now: real)
    requires Sound(suite, signer) && signer.isEd25519
    requires |random| == 24 && GenerateNonce(signedAt, random).Some?
    ensures var m := Said(text, recipient, GenerateNonce(signedAt, random).value, callbackUrl);
            && SignMessage(suite, signer, m).Some?
            && var signed := SignMessage(suite, signer, m).value;
            && Verify(suite, signed, m, None, now)
            && (Verify(suite, signed, m, Some(maxAge), now) <==>
                0.0 <= now - Truncate(signedAt) as real <= maxAge as real)
            && (0.0 <= signedAt <= now <= signedAt + maxAge as real - 1.0 ==>
                Verify(suite, signed, m, Some(maxAge), now))
  {
    var m := Said(text, recipient, GenerateNonce(signedAt, random).value, callbackUrl);
    var digest := Hash(suite, m).value;
    var signed := SignMessage(suite, signer, m).value;
    TimestampSurvives(signedAt, random);
    assert suite.decode64(suite.encode64(signer.sign(digest))) == Some(signer.sign(digest));
    assert suite.check(signer.key, signer.sign(digest), digest);
    assert SignatureHolds(suite, signed, m);
    TimeWindow(suite, signed, m, maxAge, now);
  }

  /** Different messages are hashed over different bytes. */
  lemma PayloadsDiffer(m: Said, n: Said)
    requires |m.nonce| == 32 && |n.nonce| == 32 && SaidPayload(m) == SaidPayload(n)
    ensures m == n
  {
    PayloadOfSaid(m);
    PayloadOfSaid(n);
    MessagesApart(AsMessage(m), AsMessage(n));
  }

  /** The key takes the signature it made for one digest for no other. */
  ghost predicate Unforgeable<K(!new)>(suite: Suite<K>, signer: Signer<K>) {
    forall digest, other :: suite.check(signer.key, signer.sign(digest), other) ==> digest == other
  }

  /** A signed message presented with another text, recipient, nonce or callback is refused, unless the hashes collide. */
  lemma AlteredMessageRefused<K(!new)>(
    suite: Suite<K>, signer: Signer<K>, m: Said, altered: Said, maxAge: Option<int>, now: real)
    requires Sound(suite, signer) && Unforgeable(suite, signer) && SignMessage(suite, signer, m).Some? && altered != m
    requires suite.sha(SaidPayload(m)) == suite.sha(SaidPayload(altered)) ==> SaidPayload(m) == SaidPayload(altered)
    ensures !Verify(suite, SignMessage(suite, signer, m).value, altered, maxAge, now)
  {
    var signed := SignMessage(suite, signer, m).value;
    SignsAsAsked(suite, signer, m);
    if |altered.nonce| == 32 && SaidPayload(m) == SaidPayload(altered) {
      PayloadsDiffer(m, altered);
    }
    OtherDigestRefused(suite, signer, signed, suite.sha(SaidPayload(m)), altered, now);
    assert Verify(suite, signed, altered, maxAge, now) ==> Verify(suite, signed, altered, None, now);
  }

  lemma OtherDigestRefused<K(!new)>(
    suite: Suite<K>, signer: Signer<K>, signed: SignedMessage, digest: Bytes32, altered: Said, now: real)
    requires Sound(suite, signer) && Unforgeable(suite, signer)
    requires signed.publicKey == signer.keyText && signed.signature == suite.encode64(signer.sign(digest))
    requires |altered.nonce| == 32 ==> suite.sha(SaidPayload(altered)) != digest
    ensures !Verify(suite, signed, altered, None, now)
  {
    VerifiesExactlyWhen(suite, signed, altered, now);
    assert suite.decode64(suite.encode64(signer.sign(digest))) == Some(signer.sign(digest));
  }
}
