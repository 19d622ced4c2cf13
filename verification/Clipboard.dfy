/** The clipboard manifest: a header and any number of items, each with strings of any length. */
module Clipboard {
  import opened Types
  import opened ByteStream

  datatype Item = Item(name: bytes, mime: bytes, formatId: u32, size: u64, flags: u32)

  datatype Manifest = Manifest(
    streamId: u32, senderIp: u32, serverPort: u16, category: u8, mime: bytes,
    winFormatId: u32, totalSize: u64, items: seq<Item>)

  // ---- Wire format -----------------------------------------------------------------------

  function ItemOnto(f: Fields, i: Item): Fields {
    f.And(Text(i.name)).And(Text(i.mime)).And(Number(i.formatId, 4)).And(Number(i.size, 8)).And(Number(i.flags, 4))
  }

  function ItemFormat(): Format {
    Nothing.By(TextOf).By(TextOf).By(NumberOf(4)).By(NumberOf(8)).By(NumberOf(4))
  }

  function HeaderFields(m: Manifest): Fields {
    End.And(Number(m.streamId, 4)).And(Number(m.senderIp, 4)).And(Number(m.serverPort, 2))
    .And(Number(m.category, 1)).And(Text(m.mime)).And(Number(m.winFormatId, 4))
    .And(Number(m.totalSize, 8)).And(Number(|m.items| % 0x1_0000_0000, 4))
  }

  function HeaderFormat(): Format {
    Nothing.By(NumberOf(4)).By(NumberOf(4)).By(NumberOf(2)).By(NumberOf(1)).By(TextOf)
    .By(NumberOf(4)).By(NumberOf(8)).By(NumberOf(4))
  }

  function PutItems(items: seq<Item>): bytes {
    if items == [] then [] else PutItems(items[..|items| - 1]) + Put(ItemOnto(End, items[|items| - 1]))
  }

  function Encoded(m: Manifest): bytes {
    Put(HeaderFields(m)) + PutItems(m.items)
  }

  function ItemOf(f: Fields): Item
    requires Fit(f, ItemFormat())
  {
    var g := f.init.init;
    Item(g.init.init.last.text, g.init.last.text, g.last.value, f.init.last.value, f.last.value)
  }

  function GetItems(s: bytes, n: nat): Option<Parsed<seq<Item>>>
    decreases n
  {
    if n == 0 then Some(Parsed([], s)) else
    var p :- GetItems(s, n - 1);
    var q :- Get(ItemFormat(), p.rest);
    RecordCanonical(ItemFormat(), p.rest);
    Some(Parsed(p.value + [ItemOf(q.value)], q.rest))
  }

  function HeaderOf(f: Fields): Manifest
    requires Fit(f, HeaderFormat())
  {
    var g := f.init.init.init;
    Manifest(g.init.init.init.init.last.value, g.init.init.init.last.value, g.init.init.last.value,
             g.init.last.value, g.last.text, f.init.init.last.value, f.init.last.value, [])
  }

  function Parse(s: bytes): Option<Parsed<Manifest>> {
    var h :- Get(HeaderFormat(), s);
    RecordCanonical(HeaderFormat(), s);
    var items :- GetItems(h.rest, h.value.last.value);
    Some(Parsed(HeaderOf(h.value).(items := items.value), items.rest))
  }

  // ---- Round trip ------------------------------------------------------------------------

  predicate ItemFits(i: Item) { |i.name| < 0x1_0000_0000 && |i.mime| < 0x1_0000_0000 }

  // 32 bits can count the items and measure every string.
  predicate Fits(m: Manifest) {
    |m.mime| < 0x1_0000_0000 && |m.items| < 0x1_0000_0000 && forall k :: 0 <= k < |m.items| ==> ItemFits(m.items[k])
  }

  lemma ItemIsItsFields(i: Item)
    requires ItemFits(i)
    ensures Fit(ItemOnto(End, i), ItemFormat()) && ItemOf(ItemOnto(End, i)) == i
  {
    Widths();
  }

  lemma FieldsAreTheItem(f: Fields)
    requires Fit(f, ItemFormat())
    ensures ItemOnto(End, ItemOf(f)) == f && ItemFits(ItemOf(f))
  {
  }

  lemma {:induction false} ItemsRoundTrip(items: seq<Item>, rest: bytes)
    requires forall k :: 0 <= k < |items| ==> ItemFits(items[k])
    ensures GetItems(PutItems(items) + rest, |items|) == Some(Parsed(items, rest))
  {
    hide Put, Get, Fit, ItemFits, ItemOnto, ItemOf;
    if items == [] {
      assert PutItems(items) + rest == rest;
    } else {
      var n := |items| - 1;
      var last := Put(ItemOnto(End, items[n]));
      ItemsRoundTrip(items[..n], last + rest);
      ItemIsItsFields(items[n]);
      RecordRoundTrip(ItemOnto(End, items[n]), ItemFormat(), rest);
      assert PutItems(items) + rest == PutItems(items[..n]) + (last + rest);
      assert items == items[..n] + [items[n]];
    }
  }

  lemma {:induction false} ItemsCanonical(s: bytes, n: nat)
    requires GetItems(s, n).Some?
    ensures var p := GetItems(s, n).value;
      |p.value| == n && (forall k :: 0 <= k < n ==> ItemFits(p.value[k])) && s == PutItems(p.value) + p.rest
  {
    hide Put, Get, Fit, ItemFits, ItemOnto, ItemOf;
    if n > 0 {
      ItemsCanonical(s, n - 1);
      var p := GetItems(s, n - 1).value;
      var q := Get(ItemFormat(), p.rest).value;
      RecordCanonical(ItemFormat(), p.rest);
      FieldsAreTheItem(q.value);
      var all := GetItems(s, n).value.value;
      assert all[..n - 1] == p.value;
    }
  }

  lemma HeaderIsItsFields(m: Manifest)
    requires |m.mime| < 0x1_0000_0000
    ensures Fit(HeaderFields(m), HeaderFormat()) && HeaderOf(HeaderFields(m)) == m.(items := [])
  {
    Widths();
  }

  lemma FieldsAreTheHeader(f: Fields, items: seq<Item>)
    requires Fit(f, HeaderFormat()) && |items| == f.last.value
    ensures HeaderFields(HeaderOf(f).(items := items)) == f && f.last.value < 0x1_0000_0000
    ensures |HeaderOf(f).mime| < 0x1_0000_0000
  {
    Widths();
  }

  // What a reader accepts is the encoding of what it returns, which 32 bits could count.
  lemma Canonical(s: bytes)
    requires Parse(s).Some?
    ensures var p := Parse(s).value; Fits(p.value) && s == Encoded(p.value) + p.rest
  {
    hide Put, Get, ItemFits, HeaderFields, HeaderOf;
    RecordCanonical(HeaderFormat(), s);
    var h := Get(HeaderFormat(), s).value;
    ItemsCanonical(h.rest, h.value.last.value);
    FieldsAreTheHeader(h.value, GetItems(h.rest, h.value.last.value).value.value);
  }

  lemma RoundTrip(m: Manifest, rest: bytes)
    requires Fits(m)
    ensures Parse(Encoded(m) + rest) == Some(Parsed(m, rest))
  {
    hide Put, Get, GetItems, PutItems, HeaderOf, ItemFits;
    var tail := PutItems(m.items) + rest;
    HeaderIsItsFields(m);
    RecordRoundTrip(HeaderFields(m), HeaderFormat(), tail);
    ItemsRoundTrip(m.items, rest);
    assert Encoded(m) + rest == Put(HeaderFields(m)) + tail;
  }

  // Parsing what was written gives the manifest back and leaves the rest alone, exactly when
  // 32 bits can count its items and measure its strings.
  lemma RoundTripExactly(m: Manifest, rest: bytes)
    ensures Parse(Encoded(m) + rest) == Some(Parsed(m, rest)) <==> Fits(m)
  {
    hide Parse, Encoded, Fits;
    if Fits(m) {
      RoundTrip(m, rest);
    } else if Parse(Encoded(m) + rest).Some? {
      Canonical(Encoded(m) + rest);
    }
  }

  // ---- Layout ----------------------------------------------------------------------------

  // A string that 32 bits can measure goes behind its length.
  function Sized(s: bytes): bytes { Be(|s|, 4) + s }

  lemma ItemOnTheWire(i: Item)
    requires ItemFits(i)
    ensures Put(ItemOnto(End, i)) == Sized(i.name) + Sized(i.mime) + Be(i.formatId, 4) + Be(i.size, 8) + Be(i.flags, 4)
  {
    hide Be, Put, PutField, Sized;
    PutEnd();
    ItemPieces(End, i);
    TextOnTheWire(i.name);
    TextOnTheWire(i.mime);
    NumberOnTheWire(i.formatId, 4);
    NumberOnTheWire(i.size, 8);
    NumberOnTheWire(i.flags, 4);
    assert [] + Sized(i.name) == Sized(i.name);
  }

  lemma TextOnTheWire(s: bytes)
    requires |s| < 0x1_0000_0000
    ensures PutField(Text(s)) == Sized(s)
  {
    hide Be;
  }

  lemma NumberOnTheWire(v: nat, w: nat)
    ensures PutField(Number(v, w)) == Be(v, w)
  {
  }

  lemma HeaderOnTheWire(m: Manifest)
    requires Fits(m)
    ensures Put(HeaderFields(m)) == Be(m.streamId, 4) + Be(m.senderIp, 4) + Be(m.serverPort, 2) + Be(m.category, 1)
      + Sized(m.mime) + Be(m.winFormatId, 4) + Be(m.totalSize, 8) + Be(|m.items|, 4)
  {
    hide Be, Put, ItemFits;
    var f1 := End.And(Number(m.streamId, 4));
    var f2 := f1.And(Number(m.senderIp, 4));
    var f3 := f2.And(Number(m.serverPort, 2));
    var f4 := f3.And(Number(m.category, 1));
    var f5 := f4.And(Text(m.mime));
    var f6 := f5.And(Number(m.winFormatId, 4));
    var f7 := f6.And(Number(m.totalSize, 8));
    PutEnd();
    PutAnd(End, Number(m.streamId, 4));
    PutAnd(f1, Number(m.senderIp, 4));
    PutAnd(f2, Number(m.serverPort, 2));
    PutAnd(f3, Number(m.category, 1));
    PutAnd(f4, Text(m.mime));
    PutAnd(f5, Number(m.winFormatId, 4));
    PutAnd(f6, Number(m.totalSize, 8));
    PutAnd(f7, Number(|m.items|, 4));
  }

  // Header, then the items in order.
  function ItemBytes(items: seq<Item>): bytes {
    if items == [] then []
    else
      var i := items[0];
      Sized(i.name) + Sized(i.mime) + Be(i.formatId, 4) + Be(i.size, 8) + Be(i.flags, 4) + ItemBytes(items[1..])
  }

  lemma {:induction false} ItemsOnTheWire(items: seq<Item>)
    requires forall k :: 0 <= k < |items| ==> ItemFits(items[k])
    ensures PutItems(items) == ItemBytes(items)
  {
    hide Put, ItemOnto, Be, ItemFits;
    if items != [] {
      ItemsOnTheWire(items[1..]);
      FirstItemFirst(items);
      ItemOnTheWire(items[0]);
    }
  }

  // The whole manifest, byte by byte.
  lemma ManifestOnTheWire(m: Manifest)
    requires Fits(m)
    ensures Encoded(m) == Be(m.streamId, 4) + Be(m.senderIp, 4) + Be(m.serverPort, 2) + Be(m.category, 1)
      + Sized(m.mime) + Be(m.winFormatId, 4) + Be(m.totalSize, 8) + Be(|m.items|, 4) + ItemBytes(m.items)
  {
    hide Be, Put, PutItems, ItemBytes, HeaderFields, ItemFits;
    HeaderOnTheWire(m);
    ItemsOnTheWire(m.items);
  }

  lemma {:induction false} FirstItemFirst(items: seq<Item>)
    requires items != []
    ensures PutItems(items) == Put(ItemOnto(End, items[0])) + PutItems(items[1..])
  {
    hide Put, ItemOnto;
    var n := |items| - 1;
    if n > 0 {
      FirstItemFirst(items[..n]);
      assert items[..n][1..] == items[1..][..n - 1];
      assert items[1..][n - 1] == items[n];
    } else {
      assert items[..0] == [] && items[1..] == [];
    }
  }

  // ---- Writing ---------------------------------------------------------------------------

  // WriteU32Ex of the length, then WriteString unless the length is zero.
  method WriteSized(w: ByteVecStreamEx, s: bytes)
    requires w.Valid()
    modifies w
    ensures w.Valid() && w.written == old(w.written).And(Text(s))
  {
    var len := |s| % 0x1_0000_0000;
    w.WriteU32Ex(len);
    if len > 0 {
      w.WriteString(s);
    }
    w.written := old(w.written).And(Text(s));
  }

  lemma Regroup(p: bytes, a: bytes, b: bytes, c: bytes, d: bytes, e: bytes)
    ensures p + a + b + c + d + e == p + ([] + a + b + c + d + e)
  {
    assert p + a + b + c + d + e == p + (a + b + c + d + e);
  }

  lemma PutItemOnto(f: Fields, i: Item)
    ensures Put(ItemOnto(f, i)) == Put(f) + Put(ItemOnto(End, i))
    ensures |Put(ItemOnto(End, i))| == |PutField(Text(i.name))| + |PutField(Text(i.mime))| + 16
  {
    hide PutField, Be;
    ItemPieces(f, i);
    ItemPieces(End, i);
    Regroup(Put(f), PutField(Text(i.name)), PutField(Text(i.mime)), PutField(Number(i.formatId, 4)),
            PutField(Number(i.size, 8)), PutField(Number(i.flags, 4)));
    NumberLengths(i.formatId, 4);
    NumberLengths(i.size, 8);
    NumberLengths(i.flags, 4);
  }

  lemma NumberLengths(v: nat, w: nat)
    ensures |PutField(Number(v, w))| == w
  {
  }

  lemma ItemPieces(f: Fields, i: Item)
    ensures Put(ItemOnto(f, i)) == Put(f) + PutField(Text(i.name)) + PutField(Text(i.mime))
      + PutField(Number(i.formatId, 4)) + PutField(Number(i.size, 8)) + PutField(Number(i.flags, 4))
  {
    hide PutField, Put;
    var f1 := f.And(Text(i.name));
    PutAnd(f, Text(i.name));
    PutAnd(f1, Text(i.mime));
    var f2 := f1.And(Text(i.mime));
    PutAnd(f2, Number(i.formatId, 4));
    PutAnd(f2.And(Number(i.formatId, 4)), Number(i.size, 8));
    PutAnd(f2.And(Number(i.formatId, 4)).And(Number(i.size, 8)), Number(i.flags, 4));
  }

  lemma HeaderLength(m: Manifest)
    ensures |Put(HeaderFields(m))| == 27 + |PutField(Text(m.mime))|
  {
    hide PutField, Put;
    var f1 := End.And(Number(m.streamId, 4));
    var f2 := f1.And(Number(m.senderIp, 4));
    var f3 := f2.And(Number(m.serverPort, 2));
    var f4 := f3.And(Number(m.category, 1));
    var f5 := f4.And(Text(m.mime));
    var f6 := f5.And(Number(m.winFormatId, 4));
    var f7 := f6.And(Number(m.totalSize, 8));
    PutNumber(End, m.streamId, 4);
    PutNumber(f1, m.senderIp, 4);
    PutNumber(f2, m.serverPort, 2);
    PutNumber(f3, m.category, 1);
    PutAnd(f4, Text(m.mime));
    PutNumber(f5, m.winFormatId, 4);
    PutNumber(f6, m.totalSize, 8);
    PutNumber(f7, |m.items| % 0x1_0000_0000, 4);
    assert Put(End) == [] by { PutEnd(); }
  }

  method SerializeItem(w: ByteVecStreamEx, item: Item)
    requires w.Valid()
    modifies w
    ensures w.Valid() && w.data == old(w.data) + Put(ItemOnto(End, item))
  {
    hide Put, PutField;
    ghost var before := w.written;
    WriteSized(w, item.name);
    WriteSized(w, item.mime);
    w.WriteU32Ex(item.formatId);
    w.WriteU64Ex(item.size);
    w.WriteU32Ex(item.flags);
    PutItemOnto(before, item);
  }

  lemma OneMoreItem(items: seq<Item>, k: nat)
    requires k < |items|
    ensures PutItems(items[..k + 1]) == PutItems(items[..k]) + Put(ItemOnto(End, items[k]))
  {
    assert items[..k + 1][..k] == items[..k];
  }

  method Serialize(m: Manifest) returns (out: bytes)
    ensures out == Encoded(m)
  {
    hide Put, PutField, PutItems;
    var w := new ByteVecStreamEx();
    w.WriteU32Ex(m.streamId);
    w.WriteU32Ex(m.senderIp);
    w.WriteU16Ex(m.serverPort);
    w.WriteU8Ex(m.category);
    WriteSized(w, m.mime);
    w.WriteU32Ex(m.winFormatId);
    w.WriteU64Ex(m.totalSize);
    w.WriteU32Ex(|m.items| % 0x1_0000_0000);
    assert PutItems(m.items[..0]) == [] by { NoItems(); }
    for k := 0 to |m.items|
      invariant w.Valid() && w.data == Put(HeaderFields(m)) + PutItems(m.items[..k])
    {
      SerializeItem(w, m.items[k]);
      OneMoreItem(m.items, k);
    }
    assert m.items[..|m.items|] == m.items;
    out := w.data;
  }

  lemma NoItems()
    ensures PutItems([]) == []
  {
  }

  lemma TextLength(s: bytes)
    requires |s| < 0x1_0000_0000
    ensures |PutField(Text(s))| == 4 + |s|
  {
  }

  lemma SizeOfOneMore(items: seq<Item>, k: nat, base: nat, entry: nat)
    requires k < |items| && ItemFits(items[k])
    requires entry == 24 + |items[k].name| + |items[k].mime|
    ensures ((base + |PutItems(items[..k])|) % 0x1_0000_0000 + entry) % 0x1_0000_0000
      == (base + |PutItems(items[..k + 1])|) % 0x1_0000_0000
  {
    hide Put, PutField, ItemOnto, PutItems;
    PutItemOnto(End, items[k]);
    OneMoreItem(items, k);
    TextLength(items[k].name);
    TextLength(items[k].mime);
    WrapsOnce(base + |PutItems(items[..k])|, entry);
  }

  // What is reserved ahead of writing, counted in 32 bits.
  method TotalPayloadSize(m: Manifest) returns (size: u32)
    ensures Fits(m) ==> size == |Encoded(m)| % 0x1_0000_0000
    ensures Fits(m) ==> (size == |Encoded(m)| <==> |Encoded(m)| < 0x1_0000_0000)
  {
    hide Put, PutField, PutItems, HeaderFields, ItemOnto;
    size := (31 + |m.mime|) % 0x1_0000_0000;
    NoItems();
    for k := 0 to |m.items|
      invariant Fits(m) ==> size == (31 + |m.mime| + |PutItems(m.items[..k])|) % 0x1_0000_0000
    {
      var item := m.items[k];
      var entry := 4 + |item.name| % 0x1_0000_0000 + 4 + |item.mime| % 0x1_0000_0000 + 4 + 8 + 4;
      if Fits(m) {
        SizeOfOneMore(m.items, k, 31 + |m.mime|, entry);
      }
      size := (size + entry) % 0x1_0000_0000;
    }
    HeaderLength(m);
    if Fits(m) {
      TextLength(m.mime);
    }
    assert m.items[..|m.items|] == m.items;
  }

  // ---- Reading ---------------------------------------------------------------------------

  method ReadSized(r: ByteStreamReader) returns (s: bytes)
    requires GetText(r.data).Some?
    modifies r
    ensures GetText(old(r.data)) == Some(Parsed(s, r.data)) && r.Lag() == old(r.Lag())
  {
    s := [];
    var len := r.ReadU32Ex();
    if len > 0 {
      s := r.ReadBytes(len);
    }
  }

  lemma {:induction false} FewerItemsParse(s: bytes, n: nat, k: nat)
    requires k <= n && GetItems(s, n).Some?
    ensures GetItems(s, k).Some?
  {
    hide Get, ItemOf;
    if k < n {
      FewerItemsParse(s, n - 1, k);
    }
  }

  method ReadItem(r: ByteStreamReader) returns (i: Item)
    requires Get(ItemFormat(), r.data).Some?
    modifies r
    ensures Get(ItemFormat(), old(r.data)) == Some(Parsed(ItemOnto(End, i), r.data)) && r.Lag() == old(r.Lag())
  {
    var name := ReadSized(r);
    var mime := ReadSized(r);
    var formatId := r.ReadU32Ex();
    var size := r.ReadU64Ex();
    var flags := r.ReadU32Ex();
    i := Item(name, mime, formatId, size, flags);
  }

  method Deserialize(r: ByteStreamReader) returns (m: Manifest)
    requires Parse(r.data).Some?
    modifies r
    ensures Parse(old(r.data)) == Some(Parsed(m, r.data)) && r.Lag() == old(r.Lag())
  {
    var streamId := r.ReadU32Ex();
    var senderIp := r.ReadU32Ex();
    var serverPort := r.ReadU16Ex();
    var category := r.ReadU8Ex();
    var mime := ReadSized(r);
    var winFormatId := r.ReadU32Ex();
    var totalSize := r.ReadU64Ex();
    var count := r.ReadU32Ex();
    ghost var start := r.data;
    var items: seq<Item> := [];
    for k := 0 to count
      invariant GetItems(start, k) == Some(Parsed(items, r.data)) && r.Lag() == old(r.Lag())
    {
      FewerItemsParse(start, count, k + 1);
      var item := ReadItem(r);
      items := items + [item];
    }
    m := Manifest(streamId, senderIp, serverPort, category, mime, winFormatId, totalSize, items);
  }
}
