/**
NEP-616 state init: the canonical order of its entries, its bytes, and the
account id derived from them.
*/
module StateInits {
  import opened Wrappers
  import opened Codec
  import opened Wire
  import AccountId

  // ---------- Bytewise order ----------

  predicate Leq(a: Bytes, b: Bytes) {
    a == [] || (b != [] && (a[0] < b[0] || (a[0] == b[0] && Leq(a[1..], b[1..]))))
  }

  predicate Below(a: Bytes, b: Bytes) {
    Leq(a, b) && a != b
  }

  lemma {:induction false} LeqTotal(a: Bytes, b: Bytes)
    ensures Leq(a, b) || Leq(b, a)
    ensures Leq(a, b) && Leq(b, a) ==> a == b
  {
    if a != [] && b != [] && a[0] == b[0] {
      LeqTotal(a[1..], b[1..]);
      assert a == [a[0]] + a[1..] && b == [b[0]] + b[1..];
    }
  }

  lemma {:induction false} LeqTransitive(a: Bytes, b: Bytes, c: Bytes)
    requires Leq(a, b) && Leq(b, c)
    ensures Leq(a, c)
  {
    if a != [] && a[0] == b[0] && b[0] == c[0] {
      LeqTransitive(a[1..], b[1..], c[1..]);
    }
  }

  /** The first byte at which two keys differ. */
  ghost predicate FirstDifference(a: Bytes, b: Bytes, k: nat) {
    k < |a| && k < |b| && a[..k] == b[..k] && a[k] != b[k]
  }

  lemma {:induction false} PrefixesFirst(a: Bytes, b: Bytes)
    ensures a <= b ==> Leq(a, b)
    ensures b < a ==> !Leq(a, b)
  {
    if a != [] && b != [] && a[0] == b[0] {
      PrefixesFirst(a[1..], b[1..]);
      assert a <= b <==> a[1..] <= b[1..];
      assert b < a ==> b[1..] < a[1..];
    }
  }

  lemma {:induction false} DifferenceDecides(a: Bytes, b: Bytes, k: nat)
    requires FirstDifference(a, b, k)
    ensures Leq(a, b) <==> a[k] < b[k]
    decreases k
  {
    if k > 0 {
      assert a[0] == a[..k][0] == b[..k][0] == b[0];
      assert a[1..][..k - 1] == a[..k][1..] && b[1..][..k - 1] == b[..k][1..];
      DifferenceDecides(a[1..], b[1..], k - 1);
    }
  }

  /** Bytewise: a key comes before those it is a prefix of, and otherwise the first difference decides. */
  lemma BytewiseOrder(a: Bytes, b: Bytes)
    ensures a <= b ==> Leq(a, b)
    ensures b < a ==> !Leq(a, b)
    ensures forall k: nat :: FirstDifference(a, b, k) ==> (Leq(a, b) <==> a[k] < b[k])
  {
    PrefixesFirst(a, b);
    forall k: nat | FirstDifference(a, b, k) ensures Leq(a, b) <==> a[k] < b[k] {
      DifferenceDecides(a, b, k);
    }
  }

  // ---------- Sorting the entries ----------

  ghost predicate Ascending(s: seq<Entry>) {
    forall i, j :: 0 <= i < j < |s| ==> Leq(s[i].0, s[j].0)
  }

  ghost predicate StrictlyAscending(s: seq<Entry>) {
    forall i, j :: 0 <= i < j < |s| ==> Below(s[i].0, s[j].0)
  }

  ghost predicate DistinctKeys(s: seq<Entry>) {
    forall i, j :: 0 <= i < j < |s| ==> s[i].0 != s[j].0
  }

  function Insert(e: Entry, s: seq<Entry>): (r: seq<Entry>)
    ensures |r| == |s| + 1
  {
    if s == [] || Leq(e.0, s[0].0) then [e] + s else [s[0]] + Insert(e, s[1..])
  }

  /** Entries in ascending order of their keys; entries with equal keys keep their order. */
  function SortByKey(s: seq<Entry>): (r: seq<Entry>)
    ensures |r| == |s|
  {
    if s == [] then [] else Insert(s[0], SortByKey(s[1..]))
  }

  /** Some neighbours share a key. */
  predicate NeighboursRepeat(s: seq<Entry>) {
    exists i :: 0 < i < |s| && s[i - 1].0 == s[i].0
  }

  /** Sort by key, then refuse if two neighbours share one. */
  function Canonical(entries: seq<Entry>): (r: Option<seq<Entry>>)
    ensures r.Some? ==> |r.value| == |entries|
  {
    var ordered := SortByKey(entries);
    if NeighboursRepeat(ordered) then None else Some(ordered)
  }

  lemma {:induction false} InsertKeeps(e: Entry, s: seq<Entry>)
    requires Ascending(s)
    ensures Ascending(Insert(e, s))
    ensures multiset(Insert(e, s)) == multiset{e} + multiset(s)
  {
    if s == [] {
    } else if Leq(e.0, s[0].0) {
      forall j | 0 <= j < |s| ensures Leq(e.0, s[j].0) {
        if j > 0 {
          LeqTransitive(e.0, s[0].0, s[j].0);
        }
      }
    } else {
      InsertKeeps(e, s[1..]);
      LeqTotal(e.0, s[0].0);
      var r := Insert(e, s[1..]);
      assert s == [s[0]] + s[1..];
      forall j | 0 <= j < |r| ensures Leq(s[0].0, r[j].0) {
        assert r[j] in multiset(r);
        assert r[j] == e || r[j] in s[1..];
      }
    }
  }

  lemma {:induction false} SortIsSorted(s: seq<Entry>)
    ensures Ascending(SortByKey(s))
    ensures multiset(SortByKey(s)) == multiset(s)
  {
    if s != [] {
      SortIsSorted(s[1..]);
      InsertKeeps(s[0], SortByKey(s[1..]));
      assert s == [s[0]] + s[1..];
    }
  }

  function KeySet(s: seq<Entry>): set<Blob> {
    set e | e in s :: e.0
  }

  lemma DistinctCons(e: Entry, rest: seq<Entry>)
    ensures DistinctKeys([e] + rest) <==> DistinctKeys(rest) && e.0 !in KeySet(rest)
  {
    var s := [e] + rest;
    assert forall i :: 0 <= i < |rest| ==> s[i + 1] == rest[i];
    if DistinctKeys(s) {
      forall i, j | 0 <= i < j < |rest| ensures rest[i].0 != rest[j].0 {
        assert s[i + 1].0 != s[j + 1].0;
      }
      forall f | f in rest ensures f.0 != e.0 {
        var j :| 0 <= j < |rest| && rest[j] == f;
        assert s[0].0 != s[j + 1].0;
      }
    } else {
      var i, j :| 0 <= i < j < |s| && s[i].0 == s[j].0;
      assert s[j] == rest[j - 1];
      if i == 0 {
        assert s[j].0 in KeySet(rest);
      } else {
        assert rest[i - 1].0 == rest[j - 1].0;
      }
    }
  }

  lemma {:induction false} CountKeys(s: seq<Entry>)
    ensures |KeySet(s)| <= |s|
    ensures DistinctKeys(s) <==> |KeySet(s)| == |s|
  {
    if s == [] {
      assert KeySet(s) == {};
    } else {
      CountKeys(s[1..]);
      DistinctCons(s[0], s[1..]);
      assert s == [s[0]] + s[1..];
      assert KeySet(s) == {s[0].0} + KeySet(s[1..]);
    }
  }

  /** Reordering entries does not create or remove a repeated key. */
  lemma DistinctUnderReordering(s: seq<Entry>, t: seq<Entry>)
    requires multiset(s) == multiset(t)
    ensures DistinctKeys(s) <==> DistinctKeys(t)
  {
    CountKeys(s);
    CountKeys(t);
    assert |s| == |multiset(s)| == |t|;
    forall e ensures e in s <==> e in t {
      assert e in s <==> e in multiset(s);
      assert e in t <==> e in multiset(t);
    }
    assert KeySet(s) == KeySet(t);
  }

  lemma RepeatsAreNeighbours(s: seq<Entry>, i: nat, j: nat)
    requires Ascending(s) && i < j < |s| && s[i].0 == s[j].0
    ensures NeighboursRepeat(s)
  {
    LeqTotal(s[i].0, s[i + 1].0);
    assert i + 1 == j || Leq(s[i + 1].0, s[j].0);
    assert s[(i + 1) - 1].0 == s[i + 1].0;
  }

  /**
  The neighbour check refuses exactly the inputs with a repeated key; what is
  accepted is the same entries in strictly ascending order.
  */
  lemma CanonicalOrRepeated(entries: seq<Entry>)
    ensures Canonical(entries).Some? <==> DistinctKeys(entries)
    ensures Canonical(entries).Some? ==>
              StrictlyAscending(Canonical(entries).value) && multiset(Canonical(entries).value) == multiset(entries)
  {
    var ordered := SortByKey(entries);
    SortIsSorted(entries);
    DistinctUnderReordering(entries, ordered);
    if NeighboursRepeat(ordered) {
      var i :| 0 < i < |ordered| && ordered[i - 1].0 == ordered[i].0;
      assert !DistinctKeys(ordered);
    } else {
      forall i, j | 0 <= i < j < |ordered| ensures Below(ordered[i].0, ordered[j].0) {
        if ordered[i].0 == ordered[j].0 {
          RepeatsAreNeighbours(ordered, i, j);
        }
      }
    }
  }

  /** Strictly ascending sequences with the same entries are the same. */
  lemma {:induction false} AscendingUnique(s: seq<Entry>, t: seq<Entry>)
    requires StrictlyAscending(s) && StrictlyAscending(t)
    requires forall e :: e in s <==> e in t
    ensures s == t
  {
    assert t != [] ==> t[0] in t && t[0] in s;
    if s != [] {
      assert s[0] in s && s[0] in t;
      HeadsAgree(s, t);
      forall e ensures e in s[1..] <==> e in t[1..] {
        TailMembers(s, e);
        TailMembers(t, e);
      }
      AscendingUnique(s[1..], t[1..]);
      assert s == [s[0]] + s[1..] && t == [t[0]] + t[1..];
    }
  }

  lemma HeadsAgree(s: seq<Entry>, t: seq<Entry>)
    requires StrictlyAscending(s) && StrictlyAscending(t) && s != [] && t != []
    requires s[0] in t && t[0] in s
    ensures s[0] == t[0]
  {
    var i :| 0 <= i < |t| && t[i] == s[0];
    var j :| 0 <= j < |s| && s[j] == t[0];
    if i > 0 && j > 0 {
      assert Below(t[0].0, t[i].0) && Below(s[0].0, s[j].0);
      LeqTotal(t[0].0, s[0].0);
    }
  }

  lemma TailMembers(s: seq<Entry>, e: Entry)
    requires StrictlyAscending(s) && s != []
    ensures e in s[1..] <==> e in s && e != s[0]
  {
    assert s == [s[0]] + s[1..];
    if e in s[1..] {
      var j :| 0 <= j < |s[1..]| && s[1..][j] == e;
      assert Below(s[0].0, s[j + 1].0);
    }
  }

  /** Any two orderings of the same entries are refused together or come out the same. */
  lemma OrderDoesNotMatter(s: seq<Entry>, t: seq<Entry>)
    requires multiset(s) == multiset(t)
    ensures Canonical(s) == Canonical(t)
  {
    CanonicalOrRepeated(s);
    CanonicalOrRepeated(t);
    DistinctUnderReordering(s, t);
    if Canonical(s).Some? {
      var a := Canonical(s).value;
      var b := Canonical(t).value;
      forall e ensures e in a <==> e in b {
        assert e in a <==> e in multiset(a);
        assert e in b <==> e in multiset(b);
      }
      AscendingUnique(a, b);
    }
  }

  /** Canonicalising leaves entries alone exactly when they are already strictly ascending. */
  lemma FixedWhenAscending(s: seq<Entry>)
    ensures Canonical(s) == Some(s) <==> StrictlyAscending(s)
    ensures Canonical(s).Some? ==> Canonical(Canonical(s).value) == Canonical(s)
  {
    CanonicalOrRepeated(s);
    if StrictlyAscending(s) {
      var a := Canonical(s).value;
      forall e ensures e in a <==> e in s {
        assert e in a <==> e in multiset(a);
        assert e in s <==> e in multiset(s);
      }
      AscendingUnique(a, s);
    }
    if Canonical(s).Some? {
      OrderDoesNotMatter(s, Canonical(s).value);
    }
  }

  // ---------- Maps and their bytes ----------

  /** The entries list the map, in some order. */
  ghost predicate Lists(entries: seq<Entry>, m: map<Blob, Blob>) {
    && DistinctKeys(entries)
    && forall e: Entry :: e in entries <==> e.0 in m && m[e.0] == e.1
  }

  /** A state init built from its entries; None where construction raises. */
  function Make(code: ContractId, entries: Vec<Entry>): (r: Option<StateInit>)
    ensures r.Some? ==> r.value.code == code
  {
    var ordered :- Canonical(entries);
    Some(StateInit(code, ordered))
  }

  /** Construction raises exactly on a repeated key; otherwise it keeps the entries, in strictly ascending order. */
  lemma MadeInOrder(code: ContractId, entries: Vec<Entry>)
    ensures Make(code, entries).Some? <==> DistinctKeys(entries)
    ensures Make(code, entries).Some? ==>
              var made := Make(code, entries).value;
              made.code == code && StrictlyAscending(made.data) && multiset(made.data) == multiset(entries)
  {
    CanonicalOrRepeated(entries);
  }

  lemma ListsSame(s: seq<Entry>, m: map<Blob, Blob>, t: seq<Entry>, n: map<Blob, Blob>)
    requires Lists(s, m) && Lists(t, n)
    ensures Canonical(s).Some? && Canonical(t).Some?
    ensures Canonical(s) == Canonical(t) <==> m == n
  {
    CanonicalOrRepeated(s);
    CanonicalOrRepeated(t);
    var a := Canonical(s).value;
    var b := Canonical(t).value;
    forall e ensures (e in a <==> e in s) && (e in b <==> e in t) {
      assert e in a <==> e in multiset(a);
      assert e in s <==> e in multiset(s);
      assert e in b <==> e in multiset(b);
      assert e in t <==> e in multiset(t);
    }
    if m == n {
      AscendingUnique(a, b);
    }
    if a == b {
      forall k ensures k in m <==> k in n {
        assert k in m ==> (k, m[k]) in s;
        assert k in n ==> (k, n[k]) in t;
      }
      forall k | k in m ensures m[k] == n[k] {
        assert (k, m[k]) in t;
      }
    }
  }

  /** Two maps have the same bytes exactly when they and their codes are the same. */
  lemma BytesTellMapsApart(
    c: ContractId, s: Vec<Entry>, m: map<Blob, Blob>, d: ContractId, t: Vec<Entry>, n: map<Blob, Blob>)
    requires Lists(s, m) && Lists(t, n)
    ensures Make(c, s).Some? && Make(d, t).Some?
    ensures StateInitCodec().enc(Make(c, s).value) == StateInitCodec().enc(Make(d, t).value) <==> c == d && m == n
  {
    ListsSame(s, m, t, n);
    var x := Make(c, s).value;
    var y := Make(d, t).value;
    if StateInitCodec().enc(x) == StateInitCodec().enc(y) {
      StateInitLawful();
      Injective(StateInitCodec(), x, y);
    }
  }

  // ---------- Derived account ids ----------

  function HexDigit(n: nat): (c: char)
    requires n < 16
    ensures AccountId.IsHex(c)
  {
    "0123456789abcdef"[n]
  }

  function Hex(bs: Bytes): (s: string)
    ensures |s| == 2 * |bs| && forall i :: 0 <= i < |s| ==> AccountId.IsHex(s[i])
  {
    if bs == [] then "" else [HexDigit(bs[0] / 16), HexDigit(bs[0] % 16)] + Hex(bs[1..])
  }

  lemma HexDigitInjective(m: nat, n: nat)
    requires m < 16 && n < 16 && HexDigit(m) == HexDigit(n)
    ensures m == n
  {
  }

  lemma {:induction false} HexInjective(a: Bytes, b: Bytes)
    requires Hex(a) == Hex(b)
    ensures a == b
  {
    if a != [] && b != [] {
      assert Hex(a)[0] == Hex(b)[0] && Hex(a)[1] == Hex(b)[1];
      HexDigitInjective(a[0] / 16, b[0] / 16);
      HexDigitInjective(a[0] % 16, b[0] % 16);
      assert Hex(a)[2..] == Hex(a[1..]) && Hex(b)[2..] == Hex(b[1..]);
      HexInjective(a[1..], b[1..]);
      assert a == [a[0]] + a[1..] && b == [b[0]] + b[1..];
    }
  }

  function Id(digest: Bytes32): string {
    "0s" + Hex(digest[12..])
  }

  function Derive(keccak: Bytes -> Bytes32, s: StateInit): string {
    Id(keccak(StateInitCodec().enc(s)))
  }

  lemma IdShape(digest: Bytes32)
    ensures AccountId.DeterministicShape(Id(digest))
  {
    var hex := Hex(digest[12..]);
    var id := Id(digest);
    assert |id| == 42 && id[0] == '0' && id[1] == 's';
    forall i | 2 <= i < 42 ensures AccountId.IsHex(id[i]) {
      assert id[i] == hex[i - 2];
    }
  }

  lemma IdInjective(a: Bytes32, b: Bytes32)
    requires Id(a) == Id(b)
    ensures a[12..] == b[12..]
  {
    assert Id(a)[2..] == Hex(a[12..]) && Id(b)[2..] == Hex(b[12..]);
    HexInjective(a[12..], b[12..]);
  }

  /** Whatever the hash, a derived id has the deterministic shape and is a valid account id. */
  lemma DerivedIsValid(digits: set<char>, keccak: Bytes -> Bytes32, s: StateInit)
    requires AccountId.DecimalDigits(digits)
    ensures AccountId.IsDeterministic(Derive(keccak, s)) && AccountId.Accepts(digits, Derive(keccak, s))
  {
    IdShape(keccak(StateInitCodec().enc(s)));
    AccountId.DeterministicIsValid(digits, Derive(keccak, s));
  }

  /** What a hexadecimal digit stands for. */
  function HexValue(c: char): nat
    requires AccountId.IsHex(c)
  {
    if c <= '9' then c as nat - '0' as nat else c as nat - 'a' as nat + 10
  }

  lemma HexDigitValue(n: nat)
    requires n < 16
    ensures HexValue(HexDigit(n)) == n
  {
    var digits := "0123456789abcdef";
    assert digits[0] == '0' && digits[1] == '1' && digits[2] == '2' && digits[3] == '3';
    assert digits[4] == '4' && digits[5] == '5' && digits[6] == '6' && digits[7] == '7';
    assert digits[8] == '8' && digits[9] == '9' && digits[10] == 'a' && digits[11] == 'b';
    assert digits[12] == 'c' && digits[13] == 'd' && digits[14] == 'e' && digits[15] == 'f';
  }

  lemma {:induction false} HexAt(bs: Bytes, k: nat)
    requires k < |bs|
    ensures 16 * HexValue(Hex(bs)[2 * k]) + HexValue(Hex(bs)[2 * k + 1]) == bs[k]
  {
    if k == 0 {
      HexDigitValue(bs[0] / 16);
      HexDigitValue(bs[0] % 16);
    } else {
      HexAt(bs[1..], k - 1);
      assert Hex(bs)[2..] == Hex(bs[1..]);
      assert Hex(bs)[2 * k] == Hex(bs)[2..][2 * (k - 1)] && Hex(bs)[2 * k + 1] == Hex(bs)[2..][2 * (k - 1) + 1];
    }
  }

  lemma IdSpells(digest: Bytes32, k: nat)
    requires k < 20
    ensures var id := Id(digest);
            && |id| == 42 && id[0] == '0' && id[1] == 's'
            && AccountId.IsHex(id[2 + 2 * k]) && AccountId.IsHex(id[3 + 2 * k])
            && 16 * HexValue(id[2 + 2 * k]) + HexValue(id[3 + 2 * k]) == digest[12 + k]
  {
    IdShape(digest);
    HexAt(digest[12..], k);
    var (id, hex) := (Id(digest), Hex(digest[12..]));
    assert id[2 + 2 * k] == hex[2 * k] && id[3 + 2 * k] == hex[2 * k + 1];
  }

  /** A derived id is `0s` and the last twenty bytes of the hash, two hexadecimal digits a byte, the higher first. */
  lemma DerivedSpellsTail(keccak: Bytes -> Bytes32, s: StateInit, k: nat)
    requires k < 20
    ensures var id := Derive(keccak, s);
            && |id| == 42 && id[0] == '0' && id[1] == 's'
            && AccountId.IsHex(id[2 + 2 * k]) && AccountId.IsHex(id[3 + 2 * k])
            && 16 * HexValue(id[2 + 2 * k]) + HexValue(id[3 + 2 * k]) == keccak(StateInitCodec().enc(s))[12 + k]
  {
    IdSpells(keccak(StateInitCodec().enc(s)), k);
  }

  /** Two ids are equal exactly when the last twenty bytes of the hashes are. */
  lemma DerivedAgree(keccak: Bytes -> Bytes32, s: StateInit, t: StateInit)
    ensures Derive(keccak, s) == Derive(keccak, t) <==>
            keccak(StateInitCodec().enc(s))[12..] == keccak(StateInitCodec().enc(t))[12..]
  {
    if Derive(keccak, s) == Derive(keccak, t) {
      IdInjective(keccak(StateInitCodec().enc(s)), keccak(StateInitCodec().enc(t)));
    }
  }

  /** The order in which entries are given never changes the bytes or the id. */
  lemma OrderNeverReachesTheId(keccak: Bytes -> Bytes32, code: ContractId, s: Vec<Entry>, t: Vec<Entry>)
    requires multiset(s) == multiset(t)
    ensures Make(code, s) == Make(code, t)
    ensures Make(code, s).Some? ==> Derive(keccak, Make(code, s).value) == Derive(keccak, Make(code, t).value)
  {
    OrderDoesNotMatter(s, t);
  }
}
