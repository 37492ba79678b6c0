/**
Borsh codecs as values: each pairs an encoder with a decoder, and combinators
build the codec of a struct, vector, option or enum from those of its parts.
A lawful codec decodes what it encodes and accepts nothing else.
*/
module Codec {
  import opened Wrappers

  type Byte = b: int | 0 <= b < 256

  type Bytes = seq<Byte>

  datatype Codec<!T> = Codec(enc: T -> Bytes, dec: Bytes -> Option<(T, Bytes)>)

  /** Decoding an encoded value followed by anything gives back the value and the rest. */
  ghost predicate RoundTrips<T(!new)>(c: Codec<T>) {
    forall x: T, rest: Bytes :: c.dec(c.enc(x) + rest) == Some((x, rest))
  }

  /** What decodes is the encoding of its value, followed by the rest. */
  ghost predicate Exact<T(!new)>(c: Codec<T>) {
    forall bs: Bytes :: c.dec(bs).Some? ==> bs == c.enc(c.dec(bs).value.0) + c.dec(bs).value.1
  }

  ghost predicate Lawful<T(!new)>(c: Codec<T>) {
    RoundTrips(c) && Exact(c)
  }

  /** Under a lawful codec, no encoding is a prefix of another value's. */
  lemma PrefixFree<T(!new)>(c: Codec<T>, x: T, rest: Bytes, x': T, rest': Bytes)
    requires Lawful(c) && c.enc(x) + rest == c.enc(x') + rest'
    ensures x == x' && rest == rest'
  {
    assert c.dec(c.enc(x) + rest) == Some((x, rest));
    assert c.dec(c.enc(x') + rest') == Some((x', rest'));
  }

  lemma Injective<T(!new)>(c: Codec<T>, x: T, y: T)
    requires Lawful(c) && c.enc(x) == c.enc(y)
    ensures x == y
  {
    PrefixFree(c, x, [], y, []);
  }

  // ---------- Little-endian integers ----------

  function Pow256(n: nat): nat {
    if n == 0 then 1 else 256 * Pow256(n - 1)
  }

  function LE(x: nat, width: nat): (bs: Bytes)
    ensures |bs| == width
  {
    if width == 0 then [] else [x % 256] + LE(x / 256, width - 1)
  }

  function FromLE(bs: Bytes): (x: nat)
    ensures x < Pow256(|bs|)
  {
    if bs == [] then 0 else bs[0] + 256 * FromLE(bs[1..])
  }

  lemma {:induction false} FromLEofLE(x: nat, width: nat)
    requires x < Pow256(width)
    ensures FromLE(LE(x, width)) == x
  {
    if width > 0 {
      FromLEofLE(x / 256, width - 1);
      assert LE(x, width)[1..] == LE(x / 256, width - 1);
    }
  }

  lemma LowByte(b: Byte, high: nat)
    ensures (b + 256 * high) % 256 == b
    ensures (b + 256 * high) / 256 == high
  {
  }

  lemma {:induction false} LEofFromLE(bs: Bytes)
    ensures LE(FromLE(bs), |bs|) == bs
  {
    if bs != [] {
      var high := FromLE(bs[1..]);
      LEofFromLE(bs[1..]);
      LowByte(bs[0], high);
      calc {
        LE(bs[0] + 256 * high, |bs|);
        [bs[0]] + LE(high, |bs| - 1);
        [bs[0]] + bs[1..];
        bs;
      }
    }
  }

  lemma DivDiv(x: nat, m: nat)
    requires m > 0
    ensures x / (256 * m) == x / 256 / m
  {
    var (q, r) := (x / 256 / m, x / 256 % m);
    assert x / 256 == q * m + r;
    assert x == (256 * m) * q + (256 * r + x % 256);
    assert 256 * r + x % 256 < 256 * m;
    QuotientIs(x, 256 * m, q, 256 * r + x % 256);
  }

  lemma QuotientIs(x: nat, m: nat, q: nat, r: nat)
    requires m > 0 && x == m * q + r && r < m
    ensures x / m == q
  {
    assert m * (x / m - q) == r - x % m;
    Multiples(m, x / m - q);
  }

  lemma Multiples(m: int, d: int)
    requires m >= 0
    ensures d >= 1 ==> m * d >= m
    ensures d <= -1 ==> m * d <= -m
  {
    if d >= 1 {
      assert m * (d - 1) >= 0;
    } else if d <= -1 {
      assert m * (-1 - d) >= 0;
    }
  }

  /** Little-endian: byte i counts the i-th power of 256. */
  lemma {:induction false} LEAt(x: nat, width: nat, i: nat)
    requires i < width
    ensures Pow256(i) > 0 && LE(x, width)[i] == x / Pow256(i) % 256
  {
    if i > 0 {
      LEAt(x / 256, width - 1, i - 1);
      DivDiv(x, Pow256(i - 1));
    }
  }

  /** The sum of the first n bytes, byte i times the i-th power of 256. */
  function Weighted(bs: Bytes, n: nat): nat
    requires n <= |bs|
  {
    if n == 0 then 0 else Weighted(bs, n - 1) + bs[n - 1] * Pow256(n - 1)
  }

  lemma {:induction false} FromLESnoc(bs: Bytes, b: Byte)
    ensures FromLE(bs + [b]) == FromLE(bs) + b * Pow256(|bs|)
  {
    if bs == [] {
      assert [b][1..] == [];
      assert FromLE([b]) == b;
      assert bs + [b] == [b];
    } else {
      assert (bs + [b])[1..] == bs[1..] + [b];
      FromLESnoc(bs[1..], b);
      assert 256 * (b * Pow256(|bs| - 1)) == b * Pow256(|bs|);
    }
  }

  lemma {:induction false} FromLEWeighs(bs: Bytes, n: nat)
    requires n <= |bs|
    ensures FromLE(bs[..n]) == Weighted(bs, n)
  {
    if n > 0 {
      FromLEWeighs(bs, n - 1);
      FromLESnoc(bs[..n - 1], bs[n - 1]);
      assert bs[..n] == bs[..n - 1] + [bs[n - 1]];
    }
  }

  /** So every integer is written and read with its least byte first. */
  lemma LittleEndian(x: nat, width: nat, bs: Bytes)
    ensures forall i :: 0 <= i < width ==> Pow256(i) > 0 && LE(x, width)[i] == x / Pow256(i) % 256
    ensures FromLE(bs) == Weighted(bs, |bs|)
  {
    forall i | 0 <= i < width ensures Pow256(i) > 0 && LE(x, width)[i] == x / Pow256(i) % 256 {
      LEAt(x, width, i);
    }
    FromLEWeighs(bs, |bs|);
    assert bs[..|bs|] == bs;
  }

  lemma Widths()
    ensures Pow256(1) == 0x100
    ensures Pow256(2) == 0x1_0000
    ensures Pow256(4) == 0x1_0000_0000
    ensures Pow256(8) == 0x1_0000_0000_0000_0000
    ensures Pow256(16) == 0x1_0000_0000_0000_0000_0000_0000_0000_0000
  {
    assert Pow256(3) == 0x100_0000;
    assert Pow256(6) == 256 * 256 * Pow256(4);
    assert Pow256(10) == 256 * 256 * Pow256(8);
    assert Pow256(12) == 256 * 256 * Pow256(10);
    assert Pow256(14) == 256 * 256 * Pow256(12);
  }

  type U16 = x: nat | x < 0x1_0000
  type U32 = x: nat | x < 0x1_0000_0000
  type U64 = x: nat | x < 0x1_0000_0000_0000_0000
  type U128 = x: nat | x < 0x1_0000_0000_0000_0000_0000_0000_0000_0000

  /** The first n bytes, and the rest. */
  function TakeBytes(bs: Bytes, n: nat): (r: Option<(Bytes, Bytes)>)
    ensures r.Some? <==> n <= |bs|
    ensures r.Some? ==> |r.value.0| == n && bs == r.value.0 + r.value.1
  {
    if n <= |bs| then Some((bs[..n], bs[n..])) else None
  }

  function TakeUInt(bs: Bytes, width: nat): (r: Option<(nat, Bytes)>)
    ensures r.Some? ==> r.value.0 < Pow256(width)
  {
    var (front, rest) :- TakeBytes(bs, width);
    Some((FromLE(front), rest))
  }

  lemma Assoc(a: Bytes, b: Bytes, c: Bytes)
    ensures a + b + c == a + (b + c)
  {
  }

  lemma AddNothing(bs: Bytes)
    ensures bs + [] == bs
  {
  }

  lemma TakeUIntOf(x: nat, width: nat, rest: Bytes)
    requires x < Pow256(width)
    ensures TakeUInt(LE(x, width) + rest, width) == Some((x, rest))
  {
    FromLEofLE(x, width);
    assert (LE(x, width) + rest)[..width] == LE(x, width);
  }

  lemma UIntLaws(width: nat)
    ensures forall x: nat, rest: Bytes :: x < Pow256(width) ==> TakeUInt(LE(x, width) + rest, width) == Some((x, rest))
    ensures forall bs: Bytes :: TakeUInt(bs, width).Some? ==>
              bs == LE(TakeUInt(bs, width).value.0, width) + TakeUInt(bs, width).value.1
  {
    forall x: nat, rest: Bytes | x < Pow256(width)
      ensures TakeUInt(LE(x, width) + rest, width) == Some((x, rest))
    {
      TakeUIntOf(x, width, rest);
    }
    forall bs: Bytes | TakeUInt(bs, width).Some?
      ensures bs == LE(TakeUInt(bs, width).value.0, width) + TakeUInt(bs, width).value.1
    {
      LEofFromLE(bs[..width]);
    }
  }

  function EncU16(x: U16): Bytes { LE(x, 2) }
  function EncU32(x: U32): Bytes { LE(x, 4) }
  function EncU64(x: U64): Bytes { LE(x, 8) }
  function EncU128(x: U128): Bytes { LE(x, 16) }

  function DecU16(bs: Bytes): Option<(U16, Bytes)> { Widths(); TakeUInt(bs, 2) }
  function DecU32(bs: Bytes): Option<(U32, Bytes)> { Widths(); TakeUInt(bs, 4) }
  function DecU64(bs: Bytes): Option<(U64, Bytes)> { Widths(); TakeUInt(bs, 8) }
  function DecU128(bs: Bytes): Option<(U128, Bytes)> { Widths(); TakeUInt(bs, 16) }

  function U16Codec(): Codec<U16> { Codec<U16>.Codec(EncU16, DecU16) }
  function U32Codec(): Codec<U32> { Codec<U32>.Codec(EncU32, DecU32) }
  function U64Codec(): Codec<U64> { Codec<U64>.Codec(EncU64, DecU64) }
  function U128Codec(): Codec<U128> { Codec<U128>.Codec(EncU128, DecU128) }

  lemma UIntsLawful()
    ensures Lawful(U16Codec()) && Lawful(U32Codec()) && Lawful(U64Codec()) && Lawful(U128Codec())
  {
    Widths();
    UIntLaws(2);
    UIntLaws(4);
    UIntLaws(8);
    UIntLaws(16);
  }

  // ---------- Byte strings ----------

  type Blob = b: Bytes | |b| < 0x1_0000_0000

  /** Text is carried as its UTF-8 bytes, laid out like any byte string. */
  type Text = Blob

  function EncBlob(b: Blob): Bytes {
    LE(|b|, 4) + b
  }

  function DecBlob(bs: Bytes): Option<(Blob, Bytes)> {
    Widths();
    var (n, rest) :- TakeUInt(bs, 4);
    TakeBytes(rest, n)
  }

  lemma FourBytes(x: U32)
    ensures LE(x, 4) == [x % 256, x / 256 % 256, x / 0x1_0000 % 256, x / 0x100_0000 % 256]
  {
    LEAt(x, 4, 0);
    LEAt(x, 4, 1);
    LEAt(x, 4, 2);
    LEAt(x, 4, 3);
    assert Pow256(1) == 256 && Pow256(2) == 0x1_0000 && Pow256(3) == 0x100_0000;
  }

  /** A byte string is written after its length in four bytes, the least first. */
  lemma BlobBytes(b: Blob)
    ensures EncBlob(b) == [|b| % 256, |b| / 256 % 256, |b| / 0x1_0000 % 256, |b| / 0x100_0000 % 256] + b
  {
    FourBytes(|b|);
  }

  /** An amount is written in sixteen bytes, the least first. */
  lemma AmountBytes(x: U128)
    ensures |EncU128(x)| == 16 && forall i :: 0 <= i < 16 ==> Pow256(i) > 0 && EncU128(x)[i] == x / Pow256(i) % 256
  {
    LittleEndian(x, 16, []);
  }

  function BlobCodec(): Codec<Blob> { Codec<Blob>.Codec(EncBlob, DecBlob) }

  lemma BlobLawful()
    ensures Lawful(BlobCodec())
  {
    Widths();
    UIntLaws(4);
    forall b: Blob, rest: Bytes ensures DecBlob(EncBlob(b) + rest) == Some((b, rest)) {
      assert EncBlob(b) + rest == LE(|b|, 4) + (b + rest);
      assert TakeUInt(LE(|b|, 4) + (b + rest), 4) == Some((|b|, b + rest));
    }
    forall bs: Bytes | DecBlob(bs).Some? ensures bs == EncBlob(DecBlob(bs).value.0) + DecBlob(bs).value.1 {
      var (n, rest) := TakeUInt(bs, 4).value;
      assert bs == LE(n, 4) + rest;
    }
  }

  type Bytes32 = b: Bytes | |b| == 32 witness seq(32, _ => 0)
  type Bytes64 = b: Bytes | |b| == 64 witness seq(64, _ => 0)
  type Bytes65 = b: Bytes | |b| == 65 witness seq(65, _ => 0)
  type Bytes1952 = b: Bytes | |b| == 1952 witness seq(1952, _ => 0)
  type Bytes3309 = b: Bytes | |b| == 3309 witness seq(3309, _ => 0)

  function Bytes32Codec(): Codec<Bytes32> {
    Codec<Bytes32>.Codec((b: Bytes32) => b, (bs: Bytes) => TakeBytes(bs, 32))
  }

  function Bytes64Codec(): Codec<Bytes64> {
    Codec<Bytes64>.Codec((b: Bytes64) => b, (bs: Bytes) => TakeBytes(bs, 64))
  }

  function Bytes65Codec(): Codec<Bytes65> {
    Codec<Bytes65>.Codec((b: Bytes65) => b, (bs: Bytes) => TakeBytes(bs, 65))
  }

  function Bytes1952Codec(): Codec<Bytes1952> {
    Codec<Bytes1952>.Codec((b: Bytes1952) => b, (bs: Bytes) => TakeBytes(bs, 1952))
  }

  function Bytes3309Codec(): Codec<Bytes3309> {
    Codec<Bytes3309>.Codec((b: Bytes3309) => b, (bs: Bytes) => TakeBytes(bs, 3309))
  }

  lemma FixedLawful()
    ensures Lawful(Bytes32Codec()) && Lawful(Bytes64Codec()) && Lawful(Bytes65Codec())
    ensures Lawful(Bytes1952Codec()) && Lawful(Bytes3309Codec())
  {
    forall b: Bytes, rest: Bytes ensures TakeBytes(b + rest, |b|) == Some((b, rest)) {}
  }

  // ---------- Structs ----------

  function Pair<A, B>(a: Codec<A>, b: Codec<B>): Codec<(A, B)> {
    Codec<(A, B)>.Codec(
      (p: (A, B)) => a.enc(p.0) + b.enc(p.1),
      (bs: Bytes) =>
        var (x, rest) :- a.dec(bs);
        var (y, rest') :- b.dec(rest);
        Some(((x, y), rest')))
  }

  lemma PairRoundTrip<A(!new), B(!new)>(a: Codec<A>, b: Codec<B>, p: (A, B), rest: Bytes)
    requires RoundTrips(a) && RoundTrips(b)
    ensures Pair(a, b).dec(a.enc(p.0) + b.enc(p.1) + rest) == Some((p, rest))
  {
    var tail := b.enc(p.1) + rest;
    Assoc(a.enc(p.0), b.enc(p.1), rest);
    assert a.dec(a.enc(p.0) + tail) == Some((p.0, tail));
    assert b.dec(tail) == Some((p.1, rest));
  }

  lemma PairExact<A(!new), B(!new)>(a: Codec<A>, b: Codec<B>, bs: Bytes)
    requires Exact(a) && Exact(b)
    requires Pair(a, b).dec(bs).Some?
    ensures var (p, rest) := Pair(a, b).dec(bs).value; bs == a.enc(p.0) + b.enc(p.1) + rest
  {
    var (x, tail) := a.dec(bs).value;
    var (y, rest) := b.dec(tail).value;
    assert bs == a.enc(x) + tail;
    assert tail == b.enc(y) + rest;
    Assoc(a.enc(x), b.enc(y), rest);
  }

  lemma PairLawful<A(!new), B(!new)>(a: Codec<A>, b: Codec<B>)
    requires Lawful(a) && Lawful(b)
    ensures Lawful(Pair(a, b))
  {
    var c := Pair(a, b);
    forall p: (A, B), rest: Bytes ensures c.dec(c.enc(p) + rest) == Some((p, rest)) {
      PairRoundTrip(a, b, p, rest);
    }
    forall bs: Bytes | c.dec(bs).Some? ensures bs == c.enc(c.dec(bs).value.0) + c.dec(bs).value.1 {
      PairExact(a, b, bs);
    }
  }

  /** Two readings of one layout: as the tuple of its fields, and as the value they make up. */
  datatype Iso<!A, !B> = Iso(to: A -> B, from: B -> A)

  ghost predicate Inverse<A(!new), B(!new)>(iso: Iso<A, B>) {
    && (forall x :: iso.from(iso.to(x)) == x)
    && (forall y :: iso.to(iso.from(y)) == y)
  }

  function Struct<A, B>(c: Codec<A>, iso: Iso<A, B>): Codec<B> {
    Codec<B>.Codec(
      (y: B) => c.enc(iso.from(y)),
      (bs: Bytes) =>
        var (x, rest) :- c.dec(bs);
        Some((iso.to(x), rest)))
  }

  lemma StructLawful<A(!new), B(!new)>(c: Codec<A>, iso: Iso<A, B>)
    requires Lawful(c) && Inverse(iso)
    ensures Lawful(Struct(c, iso))
  {
    var d := Struct(c, iso);
    forall y: B, rest: Bytes ensures d.dec(d.enc(y) + rest) == Some((y, rest)) {
      assert c.dec(c.enc(iso.from(y)) + rest) == Some((iso.from(y), rest));
    }
    forall bs: Bytes | d.dec(bs).Some? ensures bs == d.enc(d.dec(bs).value.0) + d.dec(bs).value.1 {
      var (x, rest) := c.dec(bs).value;
      assert bs == c.enc(x) + rest;
    }
  }

  // ---------- Vectors ----------

  type Vec<T> = s: seq<T> | |s| < 0x1_0000_0000

  function EncAll<T>(c: Codec<T>, xs: seq<T>): Bytes {
    if xs == [] then [] else c.enc(xs[0]) + EncAll(c, xs[1..])
  }

  function DecAll<T>(c: Codec<T>, n: nat, bs: Bytes): (r: Option<(seq<T>, Bytes)>)
    ensures r.Some? ==> |r.value.0| == n
  {
    if n == 0 then Some(([], bs))
    else
      var (x, rest) :- c.dec(bs);
      var (xs, rest') :- DecAll(c, n - 1, rest);
      Some(([x] + xs, rest'))
  }

  function DecVec<T>(c: Codec<T>, bs: Bytes): Option<(Vec<T>, Bytes)> {
    Widths();
    var (n, rest) :- TakeUInt(bs, 4);
    DecAll(c, n, rest)
  }

  function VecCodec<T>(c: Codec<T>): Codec<Vec<T>> {
    Codec<Vec<T>>.Codec((xs: Vec<T>) => LE(|xs|, 4) + EncAll(c, xs), (bs: Bytes) => DecVec(c, bs))
  }

  lemma {:induction false} DecAllOfEncAll<T(!new)>(c: Codec<T>, xs: seq<T>, rest: Bytes)
    requires Lawful(c)
    ensures DecAll(c, |xs|, EncAll(c, xs) + rest) == Some((xs, rest))
    decreases |xs|
  {
    if xs == [] {
      assert EncAll(c, xs) + rest == rest;
    } else {
      var bs := EncAll(c, xs) + rest;
      var tail := EncAll(c, xs[1..]) + rest;
      assert bs == c.enc(xs[0]) + tail;
      assert c.dec(c.enc(xs[0]) + tail) == Some((xs[0], tail));
      DecAllOfEncAll(c, xs[1..], rest);
      assert xs == [xs[0]] + xs[1..];
    }
  }

  lemma {:induction false} EncAllOfDecAll<T(!new)>(c: Codec<T>, n: nat, bs: Bytes)
    requires Lawful(c) && DecAll(c, n, bs).Some?
    ensures bs == EncAll(c, DecAll(c, n, bs).value.0) + DecAll(c, n, bs).value.1
    decreases n
  {
    if n == 0 {
      assert [] + bs == bs;
    } else {
      var (x, rest) := c.dec(bs).value;
      var (xs, rest') := DecAll(c, n - 1, rest).value;
      EncAllOfDecAll(c, n - 1, rest);
      assert bs == c.enc(x) + rest;
      assert ([x] + xs)[1..] == xs;
    }
  }

  lemma VecRoundTrip<T(!new)>(c: Codec<T>, xs: Vec<T>, rest: Bytes)
    requires Lawful(c)
    ensures DecVec(c, LE(|xs|, 4) + EncAll(c, xs) + rest) == Some((xs, rest))
  {
    Widths();
    var tail := EncAll(c, xs) + rest;
    Assoc(LE(|xs|, 4), EncAll(c, xs), rest);
    TakeUIntOf(|xs|, 4, tail);
    DecAllOfEncAll(c, xs, rest);
  }

  lemma VecExact<T(!new)>(c: Codec<T>, bs: Bytes)
    requires Lawful(c) && DecVec(c, bs).Some?
    ensures var (xs, rest) := DecVec(c, bs).value; bs == LE(|xs|, 4) + EncAll(c, xs) + rest
  {
    Widths();
    UIntLaws(4);
    var (n, tail) := TakeUInt(bs, 4).value;
    EncAllOfDecAll(c, n, tail);
  }

  lemma VecLawful<T(!new)>(c: Codec<T>)
    requires Lawful(c)
    ensures Lawful(VecCodec(c))
  {
    var v := VecCodec(c);
    forall xs: Vec<T>, rest: Bytes ensures v.dec(v.enc(xs) + rest) == Some((xs, rest)) {
      VecRoundTrip(c, xs, rest);
    }
    forall bs: Bytes | v.dec(bs).Some? ensures bs == v.enc(v.dec(bs).value.0) + v.dec(bs).value.1 {
      VecExact(c, bs);
    }
  }

  // ---------- Enums ----------

  /** The codec handles exactly the values of one kind. */
  ghost predicate LawfulOn<T(!new)>(c: Codec<T>, kind: T -> Byte, tag: Byte) {
    && (forall x: T, rest: Bytes :: kind(x) == tag ==> c.dec(c.enc(x) + rest) == Some((x, rest)))
    && (forall bs: Bytes :: c.dec(bs).Some? ==>
          kind(c.dec(bs).value.0) == tag && bs == c.enc(c.dec(bs).value.0) + c.dec(bs).value.1)
  }

  /** One variant of an enum: the layout of its fields, and how they sit in the enum's values. */
  datatype Variant<!A, !T> = Variant(fields: Codec<A>, inject: A -> T, project: T -> Option<A>)

  ghost predicate Fits<A(!new), T(!new)>(v: Variant<A, T>, kind: T -> Byte, tag: Byte) {
    && (forall a :: kind(v.inject(a)) == tag && v.project(v.inject(a)) == Some(a))
    && (forall x :: kind(x) == tag ==> v.project(x).Some? && v.inject(v.project(x).value) == x)
  }

  /** What follows the tag. */
  function Body<A, T>(v: Variant<A, T>): Codec<T> {
    Codec<T>.Codec(
      (x: T) => if v.project(x).Some? then v.fields.enc(v.project(x).value) else [],
      (bs: Bytes) =>
        var (a, rest) :- v.fields.dec(bs);
        Some((v.inject(a), rest)))
  }

  lemma BodyLawful<A(!new), T(!new)>(v: Variant<A, T>, kind: T -> Byte, tag: Byte)
    requires Lawful(v.fields) && Fits(v, kind, tag)
    ensures LawfulOn(Body(v), kind, tag)
  {
    var k := Body(v);
    forall x: T, rest: Bytes | kind(x) == tag ensures k.dec(k.enc(x) + rest) == Some((x, rest)) {
      var a := v.project(x).value;
      assert v.fields.dec(v.fields.enc(a) + rest) == Some((a, rest));
    }
    forall bs: Bytes | k.dec(bs).Some?
      ensures kind(k.dec(bs).value.0) == tag && bs == k.enc(k.dec(bs).value.0) + k.dec(bs).value.1
    {
      var (a, rest) := v.fields.dec(bs).value;
      assert bs == v.fields.enc(a) + rest;
      assert kind(v.inject(a)) == tag;
    }
  }

  /** A tag, then the body of the variant it names; an unknown tag is refused. */
  function Union<T>(kind: T -> Byte, variants: Byte -> Option<Codec<T>>): Codec<T> {
    Codec<T>.Codec(
      (x: T) => match variants(kind(x)) case Some(body) => [kind(x)] + body.enc(x) case None => [],
      (bs: Bytes) =>
        if bs == [] then None
        else
          var body :- variants(bs[0]);
          body.dec(bs[1..]))
  }

  ghost predicate LawfulAt<T(!new)>(kind: T -> Byte, variants: Byte -> Option<Codec<T>>, tag: Byte) {
    variants(tag).Some? ==> LawfulOn(variants(tag).value, kind, tag)
  }

  ghost predicate Covered<T(!new)>(kind: T -> Byte, variants: Byte -> Option<Codec<T>>, x: T) {
    variants(kind(x)).Some?
  }

  ghost predicate LawfulVariants<T(!new)>(kind: T -> Byte, variants: Byte -> Option<Codec<T>>) {
    && (forall x: T :: Covered(kind, variants, x))
    && (forall tag: Byte :: LawfulAt(kind, variants, tag))
  }

  lemma UnionRoundTrip<T(!new)>(kind: T -> Byte, variants: Byte -> Option<Codec<T>>, x: T, rest: Bytes)
    requires LawfulVariants(kind, variants)
    ensures Union(kind, variants).dec(Union(kind, variants).enc(x) + rest) == Some((x, rest))
  {
    var tag := kind(x);
    assert Covered(kind, variants, x) && LawfulAt(kind, variants, tag);
    var body := variants(tag).value;
    var tail := body.enc(x) + rest;
    Assoc([tag], body.enc(x), rest);
    assert ([tag] + tail)[1..] == tail;
    assert body.dec(tail) == Some((x, rest));
  }

  lemma UnionExact<T(!new)>(kind: T -> Byte, variants: Byte -> Option<Codec<T>>, bs: Bytes)
    requires LawfulVariants(kind, variants)
    requires Union(kind, variants).dec(bs).Some?
    ensures var (x, rest) := Union(kind, variants).dec(bs).value; bs == Union(kind, variants).enc(x) + rest
  {
    var body := variants(bs[0]).value;
    assert LawfulAt(kind, variants, bs[0]);
    var (x, rest) := body.dec(bs[1..]).value;
    assert bs[1..] == body.enc(x) + rest;
    assert bs == [bs[0]] + bs[1..];
    Assoc([bs[0]], body.enc(x), rest);
  }

  lemma UnionLawful<T(!new)>(kind: T -> Byte, variants: Byte -> Option<Codec<T>>)
    requires LawfulVariants(kind, variants)
    ensures Lawful(Union(kind, variants))
  {
    var u := Union(kind, variants);
    forall x: T, rest: Bytes ensures u.dec(u.enc(x) + rest) == Some((x, rest)) {
      UnionRoundTrip(kind, variants, x, rest);
    }
    forall bs: Bytes | u.dec(bs).Some? ensures bs == u.enc(u.dec(bs).value.0) + u.dec(bs).value.1 {
      UnionExact(kind, variants, bs);
    }
  }

  lemma UnionRefuses<T(!new)>(kind: T -> Byte, variants: Byte -> Option<Codec<T>>, tag: Byte, rest: Bytes)
    requires variants(tag).None?
    ensures Union(kind, variants).dec([tag] + rest).None?
  {
    assert ([tag] + rest)[0] == tag;
  }

  /** A struct without fields. */
  function UnitCodec(): Codec<()> {
    Codec<()>.Codec((u: ()) => [], (bs: Bytes) => Some(((), bs)))
  }

  /** A variant without fields: its tag is all there is. */
  function Empty<T(==)>(value: T): Codec<T> {
    Body(Variant<(), T>.Variant(UnitCodec(), (u: ()) => value, (x: T) => if x == value then Some(()) else None))
  }

  lemma EmptyLawful<T(!new)>(value: T, kind: T -> Byte, tag: Byte)
    requires kind(value) == tag && forall x :: kind(x) == tag ==> x == value
    ensures LawfulOn(Empty(value), kind, tag)
  {
    forall x: T, rest: Bytes | kind(x) == tag ensures Empty(value).dec(Empty(value).enc(x) + rest) == Some((x, rest)) {
      assert [] + rest == rest;
    }
  }

  /** A fixed leading byte, then the value; any other byte is refused. */
  function Tagged<T>(tag: Byte, c: Codec<T>): Codec<T> {
    Codec<T>.Codec(
      (x: T) => [tag] + c.enc(x),
      (bs: Bytes) => if bs == [] || bs[0] != tag then None else c.dec(bs[1..]))
  }

  lemma TaggedLawful<T(!new)>(tag: Byte, c: Codec<T>)
    requires Lawful(c)
    ensures Lawful(Tagged(tag, c))
  {
    var t := Tagged(tag, c);
    forall x: T, rest: Bytes ensures t.dec(t.enc(x) + rest) == Some((x, rest)) {
      Assoc([tag], c.enc(x), rest);
      assert ([tag] + (c.enc(x) + rest))[1..] == c.enc(x) + rest;
    }
    forall bs: Bytes | t.dec(bs).Some? ensures bs == t.enc(t.dec(bs).value.0) + t.dec(bs).value.1 {
      var (x, rest) := c.dec(bs[1..]).value;
      assert bs == [tag] + bs[1..];
      assert bs[1..] == c.enc(x) + rest;
      Assoc([tag], c.enc(x), rest);
    }
  }

  // ---------- Options ----------

  function SomeVariant<T>(c: Codec<T>): Variant<T, Option<T>> {
    Variant<T, Option<T>>.Variant(c, (x: T) => Some(x), (o: Option<T>) => o)
  }

  function OptionKind<T>(o: Option<T>): Byte {
    if o.None? then 0 else 1
  }

  function OptionVariants<T(==)>(c: Codec<T>): Byte -> Option<Codec<Option<T>>> {
    (tag: Byte) =>
      if tag == 0 then Some(Empty(None))
      else if tag == 1 then Some(Body(SomeVariant(c)))
      else None
  }

  function OptionCodec<T(==)>(c: Codec<T>): Codec<Option<T>> {
    Union((o: Option<T>) => OptionKind(o), OptionVariants(c))
  }

  lemma OptionLawful<T(!new)>(c: Codec<T>)
    requires Lawful(c)
    ensures Lawful(OptionCodec(c))
  {
    var kind := (o: Option<T>) => OptionKind(o);
    EmptyLawful(None, kind, 0);
    BodyLawful(SomeVariant(c), kind, 1);
    UnionLawful(kind, OptionVariants(c));
  }

  // ---------- What the combinators write ----------

  lemma PairWrites<A, B>(a: Codec<A>, b: Codec<B>, x: A, y: B)
    ensures Pair(a, b).enc((x, y)) == a.enc(x) + b.enc(y)
  {
  }

  lemma StructWrites<A, B>(c: Codec<A>, iso: Iso<A, B>, y: B)
    ensures Struct(c, iso).enc(y) == c.enc(iso.from(y))
  {
  }

  lemma VariantWrites<A, T>(
    kind: T -> Byte, variants: Byte -> Option<Codec<T>>, tag: Byte, v: Variant<A, T>, c: Codec<A>, x: T, a: A)
    requires kind(x) == tag && variants(tag) == Some(Body(v))
    requires v.fields == c && v.project(x) == Some(a)
    ensures Union(kind, variants).enc(x) == [tag] + c.enc(a)
  {
  }

  lemma EmptyWrites<T>(kind: T -> Byte, variants: Byte -> Option<Codec<T>>, x: T)
    requires variants(kind(x)) == Some(Empty(x))
    ensures Union(kind, variants).enc(x) == [kind(x)]
  {
    assert [kind(x)] + [] == [kind(x)];
  }
}
