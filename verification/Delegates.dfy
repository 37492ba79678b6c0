/** Signed delegates on their way to a relayer: sign, encode as base64, decode. */
module Delegates {
  import opened Wrappers
  import opened Codec
  import opened Wire
  import opened Reading
  import opened Signing

  function SignDelegate(sha: Bytes -> Bytes32, sign: Bytes32 -> Signature, d: DelegateAction): SignedDelegate {
    SignedDelegate(d, sign(sha(DelegatePayload(d))))
  }

  function Encode(encode64: Bytes -> string, s: SignedDelegate): string {
    encode64(SignedDelegateCodec().enc(s))
  }

  /** The delegate, and the bytes after it. */
  function Decode(decode64: string -> Option<Bytes>, payload: string): Option<(SignedDelegate, Bytes)> {
    var bs :- decode64(payload);
    ReadDelegate(bs)
  }

  lemma Ships(encode64: Bytes -> string, decode64: string -> Option<Bytes>, bs: Bytes)
    requires decode64(encode64(bs)) == Some(bs)
    ensures Decode(decode64, encode64(bs)) == ReadDelegate(bs)
  {
  }

  lemma ReadsWhole(s: SignedDelegate)
    requires SettledPlains(s.delegate.actions)
    ensures ReadDelegate(SignedDelegateCodec().enc(s)) == Some((s, []))
  {
    var bs := SignedDelegateCodec().enc(s);
    DelegateReadsBack(s, []);
    AddNothing(bs);
  }

  /** What is encoded decodes, whole. */
  lemma EncodedDecodes(encode64: Bytes -> string, decode64: string -> Option<Bytes>, s: SignedDelegate)
    requires forall bs :: decode64(encode64(bs)) == Some(bs)
    requires SettledPlains(s.delegate.actions)
    ensures Decode(decode64, Encode(encode64, s)) == Some((s, []))
  {
    var bs := SignedDelegateCodec().enc(s);
    Ships(encode64, decode64, bs);
    ReadsWhole(s);
  }

  /** So a relayer gets the delegate that was signed, with a signature over the hash of its own signing bytes. */
  lemma RelayerGetsWhatWasSigned(
    sha: Bytes -> Bytes32, sign: Bytes32 -> Signature,
    encode64: Bytes -> string, decode64: string -> Option<Bytes>, d: DelegateAction)
    requires forall bs :: decode64(encode64(bs)) == Some(bs)
    requires SettledPlains(d.actions)
    ensures Decode(decode64, Encode(encode64, SignDelegate(sha, sign, d))) ==
            Some((SignedDelegate(d, sign(sha(DelegatePayload(d)))), []))
  {
    EncodedDecodes(encode64, decode64, SignDelegate(sha, sign, d));
  }
}
