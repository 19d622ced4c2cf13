/** The command packet: six kinds of argument, the variant index that tags them, and the envelope. */
module Packets {
  import opened Types
  import opened ByteStream

  type Key = k: bytes | |k| == 32 witness seq(32, _ => 0)

  datatype FuncArgs =
    | ArraySwapLayout(index1: u32, index2: u32)
    | ConnectionRequest(deviceId: u8)
    | HandshakeData(ip: u32, deviceId: u8, token: u32, key: Key, width: u32, height: u32)
    | HandshakeResponse(deviceId: u8, state: u8, trusted: bool)
    | FeatureToggleData(feature: u8, action: u8, subStreamId: u16)
    | SubStreamData(streamAction: u8, subStreamId: u16, port: u16)

  // The type of an argument; Foreign stands for every type that is no alternative.
  datatype ArgType = SwapT | RequestT | HandshakeT | ResponseT | ToggleT | SubStreamT | Foreign

  const FUNC_ARG_TYPES: seq<ArgType> := [SwapT, RequestT, HandshakeT, ResponseT, ToggleT, SubStreamT]

  const SIZE_MAX: u64 := 0xFFFF_FFFF_FFFF_FFFF

  function TypeOf(a: FuncArgs): ArgType {
    match a
    case ArraySwapLayout(_, _) => SwapT
    case ConnectionRequest(_) => RequestT
    case HandshakeData(_, _, _, _, _, _) => HandshakeT
    case HandshakeResponse(_, _, _) => ResponseT
    case FeatureToggleData(_, _, _) => ToggleT
    case SubStreamData(_, _, _) => SubStreamT
  }

  // ---- Wire format of the arguments ------------------------------------------------------

  function FieldsOf(a: FuncArgs): Fields {
    match a
    case ArraySwapLayout(i, j) => End.And(Number(i, 4)).And(Number(j, 4))
    case ConnectionRequest(d) => End.And(Number(d, 1))
    case HandshakeData(ip, d, token, key, w, h) =>
      End.And(Number(ip, 4)).And(Number(d, 1)).And(Number(token, 4)).And(Raw(key)).And(Number(w, 4)).And(Number(h, 4))
    case HandshakeResponse(d, state, trusted) =>
      End.And(Number(d, 1)).And(Number(state, 1)).And(Number(if trusted then 1 else 0, 1))
    case FeatureToggleData(f, action, id) => End.And(Number(f, 1)).And(Number(action, 1)).And(Number(id, 2))
    case SubStreamData(action, id, port) => End.And(Number(action, 1)).And(Number(id, 2)).And(Number(port, 2))
  }

  function FormatOf(t: ArgType): Format {
    match t
    case SwapT => Nothing.By(NumberOf(4)).By(NumberOf(4))
    case RequestT => Nothing.By(NumberOf(1))
    case HandshakeT =>
      Nothing.By(NumberOf(4)).By(NumberOf(1)).By(NumberOf(4)).By(RawOf(32)).By(NumberOf(4)).By(NumberOf(4))
    case ResponseT => Nothing.By(NumberOf(1)).By(NumberOf(1)).By(NumberOf(1))
    case ToggleT => Nothing.By(NumberOf(1)).By(NumberOf(1)).By(NumberOf(2))
    case SubStreamT => Nothing.By(NumberOf(1)).By(NumberOf(2)).By(NumberOf(2))
    case Foreign => Nothing
  }

  // Any byte but zero reads as trusted.
  function ArgsOf(t: ArgType, f: Fields): FuncArgs
    requires t != Foreign && Fit(f, FormatOf(t))
  {
    match t
    case SwapT => ArraySwapLayout(f.init.last.value, f.last.value)
    case RequestT => ConnectionRequest(f.last.value)
    case HandshakeT =>
      var g := f.init.init;
      HandshakeData(g.init.init.init.last.value, g.init.init.last.value, g.init.last.value, g.last.block,
                    f.init.last.value, f.last.value)
    case ResponseT => HandshakeResponse(f.init.init.last.value, f.init.last.value, f.last.value != 0)
    case ToggleT => FeatureToggleData(f.init.init.last.value, f.init.last.value, f.last.value)
    case SubStreamT => SubStreamData(f.init.init.last.value, f.init.last.value, f.last.value)
  }

  function EncodeArgs(a: FuncArgs): bytes { Put(FieldsOf(a)) }

  function ParseArgs(t: ArgType, s: bytes): Option<Parsed<FuncArgs>>
    requires t != Foreign
  {
    var p :- Get(FormatOf(t), s);
    RecordCanonical(FormatOf(t), s);
    Some(Parsed(ArgsOf(t, p.value), p.rest))
  }

  lemma ArgsAreTheirFields(a: FuncArgs)
    ensures Fit(FieldsOf(a), FormatOf(TypeOf(a))) && ArgsOf(TypeOf(a), FieldsOf(a)) == a
  {
    Widths();
  }

  lemma ArgsRoundTrip(a: FuncArgs, rest: bytes)
    ensures TypeOf(a) != Foreign && ParseArgs(TypeOf(a), EncodeArgs(a) + rest) == Some(Parsed(a, rest))
  {
    hide Put, Get, Fit, FieldsOf, FormatOf, ArgsOf;
    ArgsAreTheirFields(a);
    RecordRoundTrip(FieldsOf(a), FormatOf(TypeOf(a)), rest);
  }

  // The trust byte of a response is the one thing a reader does not keep.
  ghost predicate OddTrust(t: ArgType, s: bytes) { t == ResponseT && |s| >= 3 && s[2] > 1 }

  lemma FieldsAreTheArgs(t: ArgType, f: Fields)
    requires t != Foreign && Fit(f, FormatOf(t))
    ensures TypeOf(ArgsOf(t, f)) == t
    ensures FieldsOf(ArgsOf(t, f)) == f <==> !(t == ResponseT && f.last.value > 1)
  {
    Widths();
  }

  lemma TrustByte(f: Fields, rest: bytes)
    requires Fit(f, FormatOf(ResponseT))
    ensures |Put(f)| == 3 && (Put(f) + rest)[2] == f.last.value
  {
    Widths();
    var a, b, c := f.init.init.last.value, f.init.last.value, f.last.value;
    ByteOf(a);
    ByteOf(b);
    ByteOf(c);
    assert Put(f) == Put(f.init) + [c];
    assert Put(f.init) == Put(f.init.init) + [b];
    assert Put(f.init.init) == [] + [a];
  }

  lemma ByteOf(v: u8)
    ensures Be(v, 1) == [v]
  {
    assert Be(v, 1) == Be(v / 256, 0) + [v % 256];
  }

  // Writing what was read gives the same bytes back, except for a trust byte that is no bool.
  lemma ArgsCanonicalExactly(t: ArgType, s: bytes)
    requires t != Foreign && ParseArgs(t, s).Some?
    ensures var p := ParseArgs(t, s).value;
      TypeOf(p.value) == t && (s == EncodeArgs(p.value) + p.rest <==> !OddTrust(t, s))
  {
    hide Put, Get, Fit, FieldsOf, FormatOf, ArgsOf;
    RecordCanonical(FormatOf(t), s);
    var p := Get(FormatOf(t), s).value;
    FieldsAreTheArgs(t, p.value);
    if t == ResponseT {
      TrustByte(p.value, p.rest);
      if OddTrust(t, s) {
        var q := ArgsOf(t, p.value);
        ArgsAreTheirFields(q);
        TrustByte(FieldsOf(q), p.rest);
        TrustIsABool(q);
      }
    }
  }

  lemma TrustIsABool(a: FuncArgs)
    requires TypeOf(a) == ResponseT
    ensures FieldsOf(a).Then? && FieldsOf(a).last.Number? && FieldsOf(a).last.value <= 1
  {
  }

  // ---- The variant index -----------------------------------------------------------------

  // The position of t's first occurrence, or |types|.
  function IndexIn<T(==)>(t: T, types: seq<T>): (i: nat)
    ensures i <= |types| && (i < |types| <==> t in types)
    ensures i < |types| ==> types[i] == t
    ensures forall j :: 0 <= j < i ==> types[j] != t
  {
    if types == [] || types[0] == t then 0 else 1 + IndexIn(t, types[1..])
  }

  // variant_index: the counter of the fold, or all ones when no alternative matched.
  method VariantIndex<T(==)>(t: T, types: seq<T>) returns (index: u64)
    requires |types| < SIZE_MAX
    ensures index == if t in types then IndexIn(t, types) else SIZE_MAX
  {
    index := 0;
    var found := false;
    while index < |types| && !found
      invariant index <= |types|
      invariant forall j :: 0 <= j < index ==> types[j] != t
      invariant found ==> index < |types| && types[index] == t
      decreases |types| - index, !found
    {
      if types[index] == t {
        found := true;
      } else {
        index := index + 1;
      }
    }
    if !found {
      index := SIZE_MAX;
    }
  }

  function PositionOf(t: ArgType): nat {
    match t
    case SwapT => 0
    case RequestT => 1
    case HandshakeT => 2
    case ResponseT => 3
    case ToggleT => 4
    case SubStreamT => 5
    case Foreign => 6
  }

  lemma EveryAlternativeHasItsIndex(a: FuncArgs)
    ensures var i := IndexIn(TypeOf(a), FUNC_ARG_TYPES); i < 6 && FUNC_ARG_TYPES[i] == TypeOf(a)
    ensures forall j :: 0 <= j < 6 && FUNC_ARG_TYPES[j] == TypeOf(a) ==> j == IndexIn(TypeOf(a), FUNC_ARG_TYPES)
  {
    hide IndexIn;
    assert FUNC_ARG_TYPES[PositionOf(TypeOf(a))] == TypeOf(a);
  }

  // The index each kind has on the wire.
  lemma IndicesOnTheWire(a: FuncArgs)
    ensures IndexIn(TypeOf(a), FUNC_ARG_TYPES) ==
              match a
              case ArraySwapLayout(_, _) => 0
              case ConnectionRequest(_) => 1
              case HandshakeData(_, _, _, _, _, _) => 2
              case HandshakeResponse(_, _, _) => 3
              case FeatureToggleData(_, _, _) => 4
              case SubStreamData(_, _, _) => 5
  {
    hide IndexIn;
    EveryAlternativeHasItsIndex(a);
    assert FUNC_ARG_TYPES[PositionOf(TypeOf(a))] == TypeOf(a);
  }

  // The bytes of each kind, field by field in the order of the wire.
  lemma BytesOnTheWire(a: FuncArgs)
    ensures EncodeArgs(a) ==
              match a
              case ArraySwapLayout(i, j) => Be(i, 4) + Be(j, 4)
              case ConnectionRequest(d) => [d]
              case HandshakeData(ip, d, token, key, w, h) => Be(ip, 4) + [d] + Be(token, 4) + key + Be(w, 4) + Be(h, 4)
              case HandshakeResponse(d, state, trusted) => [d, state, if trusted then 1 else 0]
              case FeatureToggleData(f, action, id) => [f, action] + Be(id, 2)
              case SubStreamData(action, id, port) => [action] + Be(id, 2) + Be(port, 2)
  {
    hide Be;
    match a
    case ArraySwapLayout(i, j) =>
      PutAnd(End, Number(i, 4));
      PutAnd(End.And(Number(i, 4)), Number(j, 4));
    case ConnectionRequest(d) =>
      ByteOf(d);
      PutAnd(End, Number(d, 1));
    case HandshakeData(_, _, _, _, _, _) => HandshakeOnTheWire(a);
    case HandshakeResponse(d, state, trusted) =>
      var t := if trusted then 1 else 0;
      ByteOf(d);
      ByteOf(state);
      ByteOf(t);
      PutAnd(End, Number(d, 1));
      PutAnd(End.And(Number(d, 1)), Number(state, 1));
      PutAnd(End.And(Number(d, 1)).And(Number(state, 1)), Number(t, 1));
    case FeatureToggleData(f, action, id) =>
      ByteOf(f);
      ByteOf(action);
      PutAnd(End, Number(f, 1));
      PutAnd(End.And(Number(f, 1)), Number(action, 1));
      PutAnd(End.And(Number(f, 1)).And(Number(action, 1)), Number(id, 2));
    case SubStreamData(action, id, port) =>
      ByteOf(action);
      PutAnd(End, Number(action, 1));
      PutAnd(End.And(Number(action, 1)), Number(id, 2));
      PutAnd(End.And(Number(action, 1)).And(Number(id, 2)), Number(port, 2));
  }

  lemma HandshakeOnTheWire(a: FuncArgs)
    requires a.HandshakeData?
    ensures EncodeArgs(a) == Be(a.ip, 4) + [a.deviceId] + Be(a.token, 4) + a.key + Be(a.width, 4) + Be(a.height, 4)
  {
    hide Be, Put;
    ByteOf(a.deviceId);
    var f1 := End.And(Number(a.ip, 4));
    var f2 := f1.And(Number(a.deviceId, 1));
    var f3 := f2.And(Number(a.token, 4));
    var f4 := f3.And(Raw(a.key));
    var f5 := f4.And(Number(a.width, 4));
    PutEnd();
    PutAnd(End, Number(a.ip, 4));
    PutAnd(f1, Number(a.deviceId, 1));
    PutAnd(f2, Number(a.token, 4));
    PutAnd(f3, Raw(a.key));
    PutAnd(f4, Number(a.width, 4));
    PutAnd(f5, Number(a.height, 4));
  }

  // What ends up in Dest, and what the reader has left: the record of that alternative is taken
  // off the front, and an index that is none leaves both as they were.
  function Decoded(dest: FuncArgs, index: nat, s: bytes): Parsed<FuncArgs>
    requires index < 6 ==> ParseArgs(FUNC_ARG_TYPES[index], s).Some?
  {
    if index < 6 then ParseArgs(FUNC_ARG_TYPES[index], s).value else Parsed(dest, s)
  }

  // ---- Reading and writing the arguments -------------------------------------------------

  method SerializeArgs(a: FuncArgs) returns (out: bytes)
    ensures out == EncodeArgs(a)
  {
    hide Put, PutField;
    var w := new ByteVecStreamEx();
    assert |w.data| == 0 by { PutEnd(); }
    match a {
      case ArraySwapLayout(index1, index2) =>
        w.WriteU32Ex(index1);
        w.WriteU32Ex(index2);
      case ConnectionRequest(deviceId) =>
        w.WriteU8Ex(deviceId);
      case HandshakeData(ip, deviceId, token, key, width, height) =>
        w.WriteU32Ex(ip);
        w.WriteU8Ex(deviceId);
        w.WriteU32Ex(token);
        NineBytes(ip, deviceId, token);
        w.WriteBytes(key, 32);
        assert key[..32] == key;
        w.WriteU32Ex(width);
        w.WriteU32Ex(height);
      case HandshakeResponse(deviceId, state, trusted) =>
        w.WriteU8Ex(deviceId);
        w.WriteU8Ex(state);
        w.WriteU8Ex(if trusted then 1 else 0);
      case FeatureToggleData(feature, action, subStreamId) =>
        w.WriteU8Ex(feature);
        w.WriteU8Ex(action);
        w.WriteU16Ex(subStreamId);
      case SubStreamData(action, subStreamId, port) =>
        w.WriteU8Ex(action);
        w.WriteU16Ex(subStreamId);
        w.WriteU16Ex(port);
    }
    out := w.data;
  }

  lemma NineBytes(ip: u32, deviceId: u8, token: u32)
    ensures |Put(End.And(Number(ip, 4)).And(Number(deviceId, 1)).And(Number(token, 4)))| == 9
  {
    Widths();
    RecordLength(End.And(Number(ip, 4)).And(Number(deviceId, 1)).And(Number(token, 4)),
                 Nothing.By(NumberOf(4)).By(NumberOf(1)).By(NumberOf(4)));
  }

  method DeserializeArgs(t: ArgType, r: ByteStreamReader) returns (a: FuncArgs)
    requires t != Foreign && ParseArgs(t, r.data).Some?
    modifies r
    ensures ParseArgs(t, old(r.data)) == Some(Parsed(a, r.data)) && r.Lag() == old(r.Lag())
  {
    match t {
      case SwapT =>
        var index1 := r.ReadU32Ex();
        var index2 := r.ReadU32Ex();
        a := ArraySwapLayout(index1, index2);
      case RequestT =>
        var deviceId := r.ReadU8Ex();
        a := ConnectionRequest(deviceId);
      case HandshakeT =>
        var ip := r.ReadU32Ex();
        var deviceId := r.ReadU8Ex();
        var token := r.ReadU32Ex();
        var key := r.ReadBytes(32);
        var width := r.ReadU32Ex();
        var height := r.ReadU32Ex();
        a := HandshakeData(ip, deviceId, token, key, width, height);
      case ResponseT =>
        var deviceId := r.ReadU8Ex();
        var state := r.ReadU8Ex();
        var trusted := r.ReadU8Ex();
        a := HandshakeResponse(deviceId, state, trusted != 0);
      case ToggleT =>
        var feature := r.ReadU8Ex();
        var action := r.ReadU8Ex();
        var subStreamId := r.ReadU16Ex();
        a := FeatureToggleData(feature, action, subStreamId);
      case SubStreamT =>
        var action := r.ReadU8Ex();
        var subStreamId := r.ReadU16Ex();
        var port := r.ReadU16Ex();
        a := SubStreamData(action, subStreamId, port);
    }
  }

  // The fold over the alternatives: each is tried in turn until one has the index. The reader
  // has advanced by that one record, so no other alternative was decoded.
  method NetVariantDeserializer(dest: FuncArgs, index: nat, buffer: bytes, length: u32)
    returns (result: FuncArgs, ghost left: bytes)
    requires index < 6 ==> ParseArgs(FUNC_ARG_TYPES[index], buffer).Some?
    ensures Parsed(result, left) == Decoded(dest, index, buffer)
    ensures index < 6 ==> Some(Parsed(result, left)) == ParseArgs(FUNC_ARG_TYPES[index], buffer)
    ensures index >= 6 ==> result == dest && left == buffer
  {
    hide ParseArgs;
    var r := new ByteStreamReader(length, buffer);
    result := dest;
    var k, done := 0, false;
    while k < |FUNC_ARG_TYPES| && !done
      invariant k <= 6 && fresh(r)
      invariant done <==> index < k
      invariant !done ==> result == dest && r.data == buffer
      invariant done ==> Parsed(result, r.data) == Decoded(dest, index, buffer)
      decreases 6 - k
    {
      if index == k {
        assert FUNC_ARG_TYPES[k] != Foreign;
        result := DeserializeArgs(FUNC_ARG_TYPES[k], r);
        done := true;
      }
      k := k + 1;
    }
    left := r.data;
  }

  // ---- The envelope ----------------------------------------------------------------------

  datatype OmniNetCommand = OmniNetCommand(
    commandType: u8, argTypeIndex: u32, argArrayLength: u32, actionToken: u64, args: bytes)

  function NewCommand(commandType: u8, argTypeIndex: u32, args: bytes, actionToken: u64): OmniNetCommand {
    OmniNetCommand(commandType, argTypeIndex, |args| % 0x1_0000_0000, actionToken, args)
  }

  function EnvelopeFields(c: OmniNetCommand): Fields {
    End.And(Number(c.commandType, 1)).And(Number(c.argTypeIndex, 4)).And(Number(|c.args| % 0x1_0000_0000, 4))
    .And(Number(c.actionToken, 8))
  }

  function EnvelopeFormat(): Format { Nothing.By(NumberOf(1)).By(NumberOf(4)).By(NumberOf(4)).By(NumberOf(8)) }

  function EncodeCommand(c: OmniNetCommand): bytes {
    Put(EnvelopeFields(c)) + c.args[..|c.args| % 0x1_0000_0000]
  }

  function CommandOf(f: Fields, args: bytes): OmniNetCommand
    requires Fit(f, EnvelopeFormat())
  {
    var g := f.init.init;
    OmniNetCommand(g.init.last.value, g.last.value, f.init.last.value, f.last.value, args)
  }

  function ParseCommand(s: bytes): Option<Parsed<OmniNetCommand>> {
    var p :- Get(EnvelopeFormat(), s);
    RecordCanonical(EnvelopeFormat(), s);
    var args :- GetBytes(p.rest, p.value.init.last.value);
    Some(Parsed(CommandOf(p.value, args.value), args.rest))
  }

  lemma EnvelopeIsItsFields(c: OmniNetCommand)
    ensures Fit(EnvelopeFields(c), EnvelopeFormat())
    ensures CommandOf(EnvelopeFields(c), c.args) == c.(argArrayLength := |c.args| % 0x1_0000_0000)
  {
    Widths();
  }

  // The length field is written from the arguments, whatever the command itself says.
  lemma CommandRoundTripExactly(c: OmniNetCommand, rest: bytes)
    ensures ParseCommand(EncodeCommand(c) + rest) == Some(Parsed(c, rest)) <==> c.argArrayLength == |c.args|
  {
    hide Put, Get;
    var n := |c.args| % 0x1_0000_0000;
    var f := EnvelopeFields(c);
    EnvelopeIsItsFields(c);
    RecordRoundTrip(f, EnvelopeFormat(), c.args[..n] + rest);
    assert EncodeCommand(c) + rest == Put(f) + (c.args[..n] + rest);
    BytesRoundTrip(c.args[..n], rest);
    assert |c.args| < 0x1_0000_0000 ==> c.args[..n] == c.args;
  }

  lemma CommandCanonical(s: bytes)
    requires ParseCommand(s).Some?
    ensures var p := ParseCommand(s).value;
      p.value.argArrayLength == |p.value.args| && s == EncodeCommand(p.value) + p.rest
  {
    hide Put, Get;
    RecordCanonical(EnvelopeFormat(), s);
    var f := Get(EnvelopeFormat(), s).value.value;
    var c := ParseCommand(s).value.value;
    Widths();
    assert EnvelopeFields(c) == f;
  }

  lemma EnvelopeLength(c: OmniNetCommand)
    ensures |Put(EnvelopeFields(c))| == 17
  {
    EnvelopeIsItsFields(c);
    RecordLength(EnvelopeFields(c), EnvelopeFormat());
  }

  lemma CommandOnTheWire(c: OmniNetCommand)
    ensures EncodeCommand(c) == [c.commandType] + Be(c.argTypeIndex, 4) + Be(|c.args| % 0x1_0000_0000, 4)
                                + Be(c.actionToken, 8) + c.args[..|c.args| % 0x1_0000_0000]
  {
    hide Be, Put;
    ByteOf(c.commandType);
    var f1 := End.And(Number(c.commandType, 1));
    var f2 := f1.And(Number(c.argTypeIndex, 4));
    var f3 := f2.And(Number(|c.args| % 0x1_0000_0000, 4));
    PutEnd();
    PutAnd(End, Number(c.commandType, 1));
    PutAnd(f1, Number(c.argTypeIndex, 4));
    PutAnd(f2, Number(|c.args| % 0x1_0000_0000, 4));
    PutAnd(f3, Number(c.actionToken, 8));
  }

  method Serialize(c: OmniNetCommand) returns (out: bytes)
    requires 17 + |c.args| % 0x1_0000_0000 < 0x1_0000_0000
    ensures out == EncodeCommand(c)
  {
    hide Put;
    var payloadLen := |c.args| % 0x1_0000_0000;
    var w := new ByteVecStreamEx();
    w.WriteU8Ex(c.commandType);
    w.WriteU32Ex(c.argTypeIndex);
    w.WriteU32Ex(payloadLen);
    w.WriteU64Ex(c.actionToken);
    EnvelopeLength(c);
    ghost var envelope := w.written;
    w.WriteBytes(c.args, payloadLen);
    PutAnd(envelope, Raw(c.args[..payloadLen]));
    out := w.data;
  }

  method Deserialize(r: ByteStreamReader) returns (c: OmniNetCommand)
    requires ParseCommand(r.data).Some?
    modifies r
    ensures ParseCommand(old(r.data)) == Some(Parsed(c, r.data)) && r.Lag() == old(r.Lag())
  {
    var commandType := r.ReadU8Ex();
    var argTypeIndex := r.ReadU32Ex();
    var argArrayLength := r.ReadU32Ex();
    var actionToken := r.ReadU64Ex();
    var args := r.ReadBytes(argArrayLength);
    c := OmniNetCommand(commandType, argTypeIndex, argArrayLength, actionToken, args);
  }

  // ---- End to end ------------------------------------------------------------------------

  // What the sender builds for x: the handlers call it with x's own index.
  function CommandFor(commandType: u8, x: FuncArgs, token: u64): OmniNetCommand {
    NewCommand(commandType, IndexIn(TypeOf(x), FUNC_ARG_TYPES), EncodeArgs(x), token)
  }

  lemma ArgsAreShort(x: FuncArgs)
    ensures |EncodeArgs(x)| <= 49
  {
    hide Put, Get, Fit;
    ArgsAreTheirFields(x);
    RecordLength(FieldsOf(x), FormatOf(TypeOf(x)));
  }

  // Whatever was in Dest and whatever follows on the wire, the receiver ends up with the command
  // that was sent and exactly the value it was built from, with no byte of it left over.
  lemma EndToEnd(commandType: u8, x: FuncArgs, token: u64, dest: FuncArgs, rest: bytes)
    ensures var c := CommandFor(commandType, x, token);
      && ParseCommand(EncodeCommand(c) + rest) == Some(Parsed(c, rest))
      && c.argTypeIndex < 6 && TypeOf(x) == FUNC_ARG_TYPES[c.argTypeIndex]
      && ParseArgs(FUNC_ARG_TYPES[c.argTypeIndex], c.args).Some?
      && Decoded(dest, c.argTypeIndex, c.args) == Parsed(x, [])
  {
    hide ParseCommand, EncodeCommand, ParseArgs, EncodeArgs, IndexIn, TypeOf;
    ArgsAreShort(x);
    EveryAlternativeHasItsIndex(x);
    CommandRoundTripExactly(CommandFor(commandType, x, token), rest);
    ArgsRoundTrip(x, []);
    assert EncodeArgs(x) + [] == EncodeArgs(x);
  }
}
