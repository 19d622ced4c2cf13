/** Big-endian numbers, the growing writer and the consuming reader. */
module ByteStream {
  import opened Types

  type bytes = seq<u8>

  // ---- Specification ---------------------------------------------------------------------

  function Pow256(n: nat): nat { if n == 0 then 1 else 256 * Pow256(n - 1) }

  // The n low bytes of v, most significant first.
  function Be(v: nat, n: nat): (s: bytes)
    ensures |s| == n
  {
    if n == 0 then [] else Be(v / 256, n - 1) + [v % 256]
  }

  function Val(s: bytes): nat {
    if s == [] then 0 else 256 * Val(s[..|s| - 1]) + s[|s| - 1]
  }

  lemma {:induction false} ValOfBe(v: nat, n: nat)
    requires v < Pow256(n)
    ensures Val(Be(v, n)) == v
  {
    if n > 0 {
      ValOfBe(v / 256, n - 1);
      assert Be(v, n)[..n - 1] == Be(v / 256, n - 1);
    }
  }

  lemma {:induction false} BeOfVal(s: bytes)
    ensures Val(s) < Pow256(|s|) && Be(Val(s), |s|) == s
  {
    if s != [] {
      var n := |s| - 1;
      BeOfVal(s[..n]);
      assert s == s[..n] + [s[n]];
    }
  }

  lemma Widths()
    ensures Pow256(1) == 0x100 && Pow256(2) == 0x1_0000 && Pow256(4) == 0x1_0000_0000
    ensures Pow256(8) == 0x1_0000_0000_0000_0000
  {
    assert Pow256(3) == 0x100_0000 && Pow256(5) == 0x100_0000_0000;
    assert Pow256(6) == 0x1_0000_0000_0000 && Pow256(7) == 0x100_0000_0000_0000;
  }

  // ---- Records ---------------------------------------------------------------------------

  // A number of so many bytes, a block of known length, or a string behind its 32-bit length.
  datatype Field = Number(value: nat, width: nat) | Raw(block: bytes) | Text(text: bytes)
  datatype Kind = NumberOf(width: nat) | RawOf(length: nat) | TextOf

  // A record is written, and read, from its first field to its last.
  datatype Fields = End | Then(init: Fields, last: Field) {
    function And(f: Field): Fields { Then(this, f) }
  }
  datatype Format = Nothing | Next(init: Format, last: Kind) {
    function By(k: Kind): Format { Next(this, k) }
  }

  // A string that 32 bits cannot measure keeps the low bits of its length and loses its bytes.
  function PutField(f: Field): bytes {
    match f
    case Number(v, w) => Be(v, w)
    case Raw(s) => s
    case Text(s) => Be(|s| % 0x1_0000_0000, 4) + if |s| < 0x1_0000_0000 then s else []
  }

  function Put(f: Fields): bytes {
    match f
    case End => []
    case Then(init, last) => Put(init) + PutField(last)
  }

  lemma PutAnd(f: Fields, x: Field)
    ensures Put(f.And(x)) == Put(f) + PutField(x)
  {
  }

  lemma PutNumber(f: Fields, v: nat, w: nat)
    ensures |Put(f.And(Number(v, w)))| == |Put(f)| + w
  {
    hide Be;
  }

  lemma PutEnd()
    ensures Put(End) == []
  {
  }

  // A parser takes its value off the front; None means it would read past the end.
  datatype Parsed<+T> = Parsed(value: T, rest: bytes)

  function GetNumber(s: bytes, n: nat): Option<Parsed<nat>> {
    if |s| < n then None else Some(Parsed(Val(s[..n]), s[n..]))
  }

  function GetBytes(s: bytes, n: nat): Option<Parsed<bytes>> {
    if |s| < n then None else Some(Parsed(s[..n], s[n..]))
  }

  function GetText(s: bytes): Option<Parsed<bytes>> {
    var n :- GetNumber(s, 4);
    GetBytes(n.rest, n.value)
  }

  function GetField(k: Kind, s: bytes): Option<Parsed<Field>> {
    match k
    case NumberOf(w) => var p :- GetNumber(s, w); Some(Parsed(Number(p.value, w), p.rest))
    case RawOf(n) => var p :- GetBytes(s, n); Some(Parsed(Raw(p.value), p.rest))
    case TextOf => var p :- GetText(s); Some(Parsed(Text(p.value), p.rest))
  }

  function Get(k: Format, s: bytes): Option<Parsed<Fields>>
    decreases k
  {
    match k
    case Nothing => Some(Parsed(End, s))
    case Next(init, last) =>
      var p :- Get(init, s);
      var q :- GetField(last, p.rest);
      Some(Parsed(Then(p.value, q.value), q.rest))
  }

  predicate FieldFits(f: Field, k: Kind) {
    match k
    case NumberOf(w) => f.Number? && f.width == w && f.value < Pow256(w)
    case RawOf(n) => f.Raw? && |f.block| == n
    case TextOf => f.Text? && |f.text| < 0x1_0000_0000
  }

  predicate Fit(f: Fields, k: Format)
    decreases k
  {
    match k
    case Nothing => f == End
    case Next(init, last) => f.Then? && Fit(f.init, init) && FieldFits(f.last, last)
  }

  // The bytes a record takes, when none of its fields is a string.
  function Length(k: Format): Option<nat>
    decreases k
  {
    match k
    case Nothing => Some(0)
    case Next(init, NumberOf(w)) => var n :- Length(init); Some(n + w)
    case Next(init, RawOf(w)) => var n :- Length(init); Some(n + w)
    case Next(init, TextOf) => None
  }

  lemma {:induction false} RecordLength(f: Fields, k: Format)
    requires Fit(f, k) && Length(k).Some?
    ensures |Put(f)| == Length(k).value
    decreases k
  {
    hide Be, Val, Pow256;
    if k.Next? {
      RecordLength(f.init, k.init);
    }
  }

  lemma NumberRoundTrip(v: nat, n: nat, rest: bytes)
    requires v < Pow256(n)
    ensures GetNumber(Be(v, n) + rest, n) == Some(Parsed(v, rest))
  {
    hide Be, Val, Pow256;
    ValOfBe(v, n);
    var s := Be(v, n) + rest;
    assert s[..n] == Be(v, n) && s[n..] == rest;
  }

  lemma BytesRoundTrip(s: bytes, rest: bytes)
    ensures GetBytes(s + rest, |s|) == Some(Parsed(s, rest))
  {
    assert (s + rest)[..|s|] == s && (s + rest)[|s|..] == rest;
  }

  lemma TextRoundTrip(s: bytes, rest: bytes)
    requires |s| < 0x1_0000_0000
    ensures GetText(PutField(Text(s)) + rest) == Some(Parsed(s, rest))
  {
    hide Be, Val, Pow256, GetNumber, GetBytes;
    Widths();
    NumberRoundTrip(|s|, 4, s + rest);
    BytesRoundTrip(s, rest);
    assert PutField(Text(s)) + rest == Be(|s|, 4) + (s + rest);
  }

  lemma FieldRoundTrip(f: Field, k: Kind, rest: bytes)
    requires FieldFits(f, k)
    ensures GetField(k, PutField(f) + rest) == Some(Parsed(f, rest))
  {
    hide Be, Val, Pow256;
    match f {
      case Number(v, w) => NumberRoundTrip(v, w, rest);
      case Raw(s) => BytesRoundTrip(s, rest);
      case Text(s) => TextRoundTrip(s, rest);
    }
  }

  // Reading undoes writing, for every record and whatever follows it.
  lemma {:induction false} RecordRoundTrip(f: Fields, k: Format, rest: bytes)
    requires Fit(f, k)
    ensures Get(k, Put(f) + rest) == Some(Parsed(f, rest))
    decreases k
  {
    hide PutField, GetField, FieldFits;
    if f.Then? {
      RecordRoundTrip(f.init, k.init, PutField(f.last) + rest);
      FieldRoundTrip(f.last, k.last, rest);
      assert Put(f) + rest == Put(f.init) + (PutField(f.last) + rest);
    } else {
      assert Put(f) + rest == rest;
    }
  }

  lemma TextConsumes(s: bytes)
    requires GetText(s).Some?
    ensures var p := GetText(s).value; |p.value| < 0x1_0000_0000 && s == Be(|p.value|, 4) + p.value + p.rest
  {
    hide Be, Val, Pow256;
    Widths();
    BeOfVal(s[..4]);
  }

  lemma GetFieldConsumes(k: Kind, s: bytes)
    requires GetField(k, s).Some?
    ensures var p := GetField(k, s).value; FieldFits(p.value, k) && s == PutField(p.value) + p.rest
  {
    hide Be, Val, Pow256, GetText;
    match k {
      case NumberOf(w) => BeOfVal(s[..w]);
      case RawOf(n) =>
      case TextOf => TextConsumes(s);
    }
  }

  // And writing undoes reading: what a reader consumed is the one way to write what it returned.
  lemma {:induction false} RecordCanonical(k: Format, s: bytes)
    requires Get(k, s).Some?
    ensures var p := Get(k, s).value; Fit(p.value, k) && s == Put(p.value) + p.rest
    decreases k
  {
    hide PutField, GetField, FieldFits;
    if k.Next? {
      RecordCanonical(k.init, s);
      GetFieldConsumes(k.last, Get(k.init, s).value.rest);
    }
  }

  // ---- Shifts ----------------------------------------------------------------------------

  // What the writers push, shift by shift, and what the readers put together, is Be and Val.
  lemma Shifts16(v: u16)
    ensures Be(v, 2) == [v / 0x100 % 0x100, v % 0x100]
  {
    assert Be(v, 2) == Be(v / 256, 1) + [v % 256];
  }

  lemma Shifts32(v: u32)
    ensures Be(v, 4) == [v / 0x100_0000 % 0x100, v / 0x1_0000 % 0x100, v / 0x100 % 0x100, v % 0x100]
  {
    var w := v / 256;
    var x := w / 256;
    assert w / 256 == v / 0x1_0000 && x / 256 == v / 0x100_0000;
    assert Be(x, 2) == Be(x / 256, 1) + [x % 256];
    assert Be(w, 3) == Be(x, 2) + [w % 256];
  }

  lemma Peel(v: nat, n: nat, w: nat, b: u8)
    requires v == 256 * w + b
    ensures Be(v, n + 1) == Be(w, n) + [b]
  {
  }

  lemma Factor(hi: nat, p: nat)
    ensures hi * (256 * p) == 256 * (hi * p)
  {
  }

  lemma Split(big: nat, part: nat, lo: nat)
    requires big == 256 * part
    ensures big + lo == 256 * (part + lo / 256) + lo % 256
  {
  }

  lemma Quotient(lo: nat, p: nat)
    requires lo < 256 * p
    ensures lo / 256 < p
  {
  }

  lemma {:induction false} Glue(hi: nat, m: nat, lo: nat, n: nat)
    requires lo < Pow256(n)
    ensures Be(hi * Pow256(n) + lo, m + n) == Be(hi, m) + Be(lo, n)
    decreases n, 1
  {
    if n == 0 {
      assert hi * Pow256(0) + lo == hi;
    } else {
      hide Be;
      Quotient(lo, Pow256(n - 1));
      Factor(hi, Pow256(n - 1));
      GlueStep(hi, m, lo, n, hi * Pow256(n - 1), hi * Pow256(n));
    }
  }

  // part and big stand for the two products, so that no query has to multiply.
  lemma {:induction false} GlueStep(hi: nat, m: nat, lo: nat, n: nat, part: nat, big: nat)
    requires n > 0 && lo / 256 < Pow256(n - 1)
    requires part == hi * Pow256(n - 1) && big == 256 * part
    ensures Be(big + lo, m + n) == Be(hi, m) + Be(lo, n)
    decreases n, 0
  {
    hide Be, Pow256;
    Glue(hi, m, lo / 256, n - 1);
    Split(big, part, lo);
    Peel(big + lo, m + n - 1, part + lo / 256, lo % 256);
    Peel(lo, n - 1, lo / 256, lo % 256);
  }

  lemma Shifts64(v: u64)
    ensures Be(v, 8) == Be(v / 0x1_0000_0000, 4) + Be(v % 0x1_0000_0000, 4)
  {
    hide Be;
    Widths();
    Glue(v / 0x1_0000_0000, 4, v % 0x1_0000_0000, 4);
  }

  function Join(a: int, b: int, c: int, d: int): int { a * 0x100_0000 + b * 0x1_0000 + c * 0x100 + d }

  lemma Assemble16(s: bytes)
    requires |s| == 2
    ensures Val(s) == 0x100 * s[0] as int + s[1] as int
  {
    assert Val(s[..1]) == 256 * Val(s[..1][..0]) + s[0];
  }

  lemma Assemble32(s: bytes)
    requires |s| == 4
    ensures Val(s) == Join(s[0], s[1], s[2], s[3])
  {
    Assemble16(s[..2]);
    assert s[..3][..2] == s[..2] && Val(s[..3]) == 256 * Val(s[..2]) + s[2];
    assert Val(s) == 256 * Val(s[..3]) + s[3];
  }

  lemma Assemble64(s: bytes)
    requires |s| == 8
    ensures Val(s) == Val(s[..4]) * 0x1_0000_0000 + Val(s[4..])
  {
    var t := s[4..];
    Assemble32(t);
    assert Val(s[..5]) == 256 * Val(s[..4]) + s[4] by { assert s[..5][..4] == s[..4]; }
    assert Val(s[..6]) == 256 * Val(s[..5]) + s[5] by { assert s[..6][..5] == s[..5]; }
    assert Val(s[..7]) == 256 * Val(s[..6]) + s[6] by { assert s[..7][..6] == s[..6]; }
    assert Val(s) == 256 * Val(s[..7]) + s[7];
  }

  lemma WrapsOnce(t: nat, d: nat)
    ensures (t % 0x1_0000_0000 + d) % 0x1_0000_0000 == (t + d) % 0x1_0000_0000
  {
  }

  // ---- Streams ---------------------------------------------------------------------------

  class ByteVecStreamEx {
    var data: bytes
    var currentLength: u32
    ghost var written: Fields

    constructor ()
      ensures Valid() && written == End
    {
      data, currentLength, written := [], 0, End;
    }

    // CurrentLength is the length of Data, as far as 32 bits can tell.
    ghost predicate Valid()
      reads this
    {
      data == Put(written) && currentLength == |data| % 0x1_0000_0000
    }

    method Append(s: bytes, ghost f: Field)
      requires Valid() && s == PutField(f)
      modifies this
      ensures Valid() && written == old(written).And(f)
    {
      hide Put, PutField;
      PutAnd(written, f);
      WrapsOnce(|data|, |s|);
      data := data + s;
      currentLength := (currentLength + |s|) % 0x1_0000_0000;
      written := written.And(f);
    }

    method WriteU8Ex(v: u8)
      requires Valid()
      modifies this
      ensures Valid() && written == old(written).And(Number(v, 1))
    {
      assert Be(v, 1) == Be(v / 256, 0) + [v];
      Append([v], Number(v, 1));
    }

    method WriteU16Ex(v: u16)
      requires Valid()
      modifies this
      ensures Valid() && written == old(written).And(Number(v, 2))
    {
      Shifts16(v);
      Append([v / 0x100 % 0x100, v % 0x100], Number(v, 2));
    }

    method WriteU32Ex(v: u32)
      requires Valid()
      modifies this
      ensures Valid() && written == old(written).And(Number(v, 4))
    {
      Shifts32(v);
      Append([v / 0x100_0000 % 0x100, v / 0x1_0000 % 0x100, v / 0x100 % 0x100, v % 0x100], Number(v, 4));
    }

    method WriteU64Ex(v: u64)
      requires Valid()
      modifies this
      ensures Valid() && written == old(written).And(Number(v, 8))
    {
      hide Be, Val, Pow256;
      Shifts64(v);
      var hi, lo := v / 0x1_0000_0000, v % 0x1_0000_0000;
      Shifts32(hi);
      Shifts32(lo);
      Append([hi / 0x100_0000 % 0x100, hi / 0x1_0000 % 0x100, hi / 0x100 % 0x100, hi % 0x100,
              lo / 0x100_0000 % 0x100, lo / 0x1_0000 % 0x100, lo / 0x100 % 0x100, lo % 0x100], Number(v, 8));
    }

    // A string longer than 32 bits can count is not written at all.
    method WriteString(s: bytes)
      requires Valid()
      modifies this
      ensures Valid() && if |s| < 0x1_0000_0000 then written == old(written).And(Raw(s)) else written == old(written)
    {
      if |s| > 0xFFFF_FFFF {
        return;
      }
      Append(s, Raw(s));
    }

    // The new size is computed in 32 bits before the copy, so it has to fit.
    method WriteBytes(s: bytes, len: u32)
      requires Valid() && len <= |s| && |data| + len < 0x1_0000_0000
      modifies this
      ensures Valid() && written == old(written).And(Raw(s[..len]))
    {
      Append(s[..len], Raw(s[..len]));
    }
  }

  // data is what lies ahead of the cursor. The unchecked reads of the source go past the end of
  // a buffer that is too short, which has no meaning there; here they require enough bytes.
  class ByteStreamReader {
    var data: bytes
    var currentLength: u32

    constructor (length: u32, s: bytes)
      ensures data == s && currentLength == length
    {
      data, currentLength := s, length;
    }

    // How far the remaining length is off from what is really left; no read changes it.
    function Lag(): int
      reads this
    {
      (currentLength - |data|) % 0x1_0000_0000
    }

    method Advance(n: nat)
      requires n <= |data|
      modifies this
      ensures data == old(data)[n..] && Lag() == old(Lag())
    {
      data := data[n..];
      currentLength := (currentLength - n) % 0x1_0000_0000;
    }

    // v was the number of n bytes at the cursor, and the cursor is now behind it.
    twostate predicate Took(v: nat, n: nat)
      reads this
    {
      GetNumber(old(data), n) == Some(Parsed(v, data)) && Lag() == old(Lag())
    }

    method ReadU8Ex() returns (v: u8)
      requires |data| >= 1
      modifies this
      ensures Took(v, 1)
    {
      v := data[0];
      assert data[..1] == [v] && Val([v]) == 256 * Val([v][..0]) + v;
      Advance(1);
    }

    method ReadU16Ex() returns (v: u16)
      requires |data| >= 2
      modifies this
      ensures Took(v, 2)
    {
      Assemble16(data[..2]);
      var a: int, b: int := data[0], data[1];
      v := a * 0x100 + b;
      Advance(2);
    }

    method ReadU32Ex() returns (v: u32)
      requires |data| >= 4
      modifies this
      ensures Took(v, 4)
    {
      Assemble32(data[..4]);
      v := Join(data[0], data[1], data[2], data[3]);
      Advance(4);
    }

    method ReadU64Ex() returns (v: u64)
      requires |data| >= 8
      modifies this
      ensures Took(v, 8)
    {
      var s := data[..8];
      Assemble64(s);
      Assemble32(s[..4]);
      Assemble32(s[4..]);
      v := Join(s[0], s[1], s[2], s[3]) * 0x1_0000_0000 + Join(s[4], s[5], s[6], s[7]);
      Advance(8);
    }

    // ReadString and ReadBytes.
    method ReadBytes(n: u32) returns (s: bytes)
      requires |data| >= n
      modifies this
      ensures GetBytes(old(data), n) == Some(Parsed(s, data)) && Lag() == old(Lag())
    {
      s := data[..n];
      Advance(n);
    }
  }
}
