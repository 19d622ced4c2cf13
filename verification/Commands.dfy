/** Commands between two peers: stamped with an action token and sent by one, verified, decoded
    and handed on by the other. */
module Commands {
  import opened Types
  import opened ByteStream
  import opened Packets

  // CoreCommandsWArgs::AuthlessGate: from here on a command needs a token.
  const AUTHLESS_GATE: u8 := 2

  // FlagTypes, the last byte of the session header that follows every packet.
  const VOID_ARG: u8 := 0
  const ARGONIZED: u8 := 1

  // The token of a command type and argument index under the current session with the peer,
  // 0 when the session is not authenticated.
  type Tokens = (u8, u64) -> u64

  datatype OmniCommand = OmniCommand(
    commandType: u8, argTypeIndex: u32, actionToken: u64, args: FuncArgs, device: DeviceMap)

  datatype Outcome =
    | Void(code: u32)                 // ExecuteNetCommand
    | Refused
    | Executed(command: OmniCommand)  // ExecuteNetCommandWArgs

  // The receivers differ in one thing: the Linux one does not pass on where a command came from.
  datatype Platform = Windows | Linux

  // ---- Sending ---------------------------------------------------------------------------

  function Stamped(c: OmniNetCommand, tokens: Tokens): Option<OmniNetCommand> {
    if c.commandType < AUTHLESS_GATE || c.actionToken != 0 then Some(c)
    else
      var token := tokens(c.commandType, c.argTypeIndex);
      if token == 0 then None else Some(c.(actionToken := token))
  }

  // active: the target has a session. payload: what goes out ahead of the header, if anything.
  method TransmitNetCommand(c: OmniNetCommand, active: bool, tokens: Tokens) returns (payload: Option<bytes>)
    requires 17 + |c.args| % 0x1_0000_0000 < 0x1_0000_0000
    ensures payload == if active && Stamped(c, tokens).Some? then Some(EncodeCommand(Stamped(c, tokens).value))
                       else None
  {
    hide EncodeCommand;
    var command := c;
    if command.commandType >= AUTHLESS_GATE && command.actionToken == 0 {
      command := command.(actionToken := tokens(command.commandType, command.argTypeIndex));
      if command.actionToken == 0 {
        return None;
      }
    }
    var out := Serialize(command);
    return if active then Some(out) else None;
  }

  // ---- Receiving -------------------------------------------------------------------------

  // A token verifies only if it is the session's own, and that is not 0.
  predicate Verified(c: OmniNetCommand, tokens: Tokens) {
    c.commandType < AUTHLESS_GATE ||
    (tokens(c.commandType, c.argTypeIndex) != 0 && tokens(c.commandType, c.argTypeIndex) == c.actionToken)
  }

  // What the unchecked reads need: a four-byte code, or a command whose argument parses if it
  // comes to that.
  predicate Readable(buffer: bytes, tokens: Tokens) {
    3 <= |buffer| &&
    if buffer[|buffer| - 1] == VOID_ARG then 4 <= |buffer|
    else
      && ParseCommand(buffer).Some?
      && var c := ParseCommand(buffer).value.value;
         Verified(c, tokens) && c.argTypeIndex < 6 ==> ParseArgs(FUNC_ARG_TYPES[c.argTypeIndex], c.args).Some?
  }

  function Received(buffer: bytes, from: DeviceMap, platform: Platform, tokens: Tokens): Outcome
    requires Readable(buffer, tokens)
  {
    if buffer[|buffer| - 1] == VOID_ARG then
      Void(Join(buffer[3], buffer[2], buffer[1], buffer[0]))
    else
      var c := ParseCommand(buffer).value.value;
      if !Verified(c, tokens) then Refused
      else
        Executed(OmniCommand(c.commandType, c.argTypeIndex, c.actionToken,
                             Decoded(ArraySwapLayout(0, 0), c.argTypeIndex, c.args).value,
                             if platform.Windows? then from else 0))
  }

  // buffer is the packet with its three header bytes; a void command is a little-endian number.
  method HandleCommand(buffer: bytes, from: DeviceMap, platform: Platform, tokens: Tokens) returns (outcome: Outcome)
    requires Readable(buffer, tokens)
    ensures outcome == Received(buffer, from, platform, tokens)
  {
    hide ParseCommand, ParseArgs;
    if buffer[|buffer| - 1] == VOID_ARG {
      return Void(Join(buffer[3], buffer[2], buffer[1], buffer[0]));
    }
    var r := new ByteStreamReader((|buffer| - 3) % 0x1_0000_0000, buffer);
    var payload := Deserialize(r);
    if payload.commandType >= AUTHLESS_GATE {
      var expected := tokens(payload.commandType, payload.argTypeIndex);
      if expected == 0 || expected != payload.actionToken {
        return Refused;
      }
    }
    var length := |payload.args| % 0x1_0000_0000;
    var args, _ := NetVariantDeserializer(ArraySwapLayout(0, 0), payload.argTypeIndex, payload.args, length);
    var device: DeviceMap := if platform.Windows? then from else 0;
    return Executed(OmniCommand(payload.commandType, payload.argTypeIndex, payload.actionToken, args, device));
  }

  // ---- From one to the other ---------------------------------------------------------------

  // A command for x leaves the sender exactly when it needs no token or the session can make
  // one. What leaves is executed by a peer with the same session, on the value x and nothing
  // else, whatever the other two header bytes are.
  lemma Delivered(commandType: u8, x: FuncArgs, tokens: Tokens, packetType: u8, target: u8,
                  from: DeviceMap, platform: Platform)
    ensures var index := IndexIn(TypeOf(x), FUNC_ARG_TYPES);
      var sent := Stamped(CommandFor(commandType, x, 0), tokens);
      && index < 6
      && (sent.Some? <==> commandType < AUTHLESS_GATE || tokens(commandType, index) != 0)
      && (sent.Some? ==>
            var buffer := EncodeCommand(sent.value) + [packetType, target, ARGONIZED];
            && Readable(buffer, tokens)
            && Received(buffer, from, platform, tokens)
            == Executed(OmniCommand(commandType, index, sent.value.actionToken, x,
                                    if platform.Windows? then from else 0)))
  {
    hide ParseCommand, EncodeCommand, ParseArgs, EncodeArgs, IndexIn, TypeOf;
    EveryAlternativeHasItsIndex(x);
    var sent := Stamped(CommandFor(commandType, x, 0), tokens);
    if sent.Some? {
      assert sent.value == CommandFor(commandType, x, sent.value.actionToken);
      EndToEnd(commandType, x, sent.value.actionToken, ArraySwapLayout(0, 0), [packetType, target, ARGONIZED]);
    }
  }

  // What is executed: a command whose type needs no token, or which carries the session's own.
  // The argument, which decides what the command queue will run, plays no part in it; a foreign
  // index leaves the empty swap that was there.
  lemma ExecutedExactly(buffer: bytes, from: DeviceMap, platform: Platform, tokens: Tokens)
    requires Readable(buffer, tokens) && buffer[|buffer| - 1] != VOID_ARG
    ensures var c, outcome := ParseCommand(buffer).value.value, Received(buffer, from, platform, tokens);
      && (outcome.Executed? <==>
            c.commandType < AUTHLESS_GATE ||
            (c.actionToken != 0 && c.actionToken == tokens(c.commandType, c.argTypeIndex)))
      && (!outcome.Executed? ==> outcome == Refused)
      && (outcome.Executed? ==>
            && outcome.command.commandType == c.commandType && outcome.command.argTypeIndex == c.argTypeIndex
            && outcome.command.actionToken == c.actionToken
            && outcome.command.args == if c.argTypeIndex >= 6 then ArraySwapLayout(0, 0)
                                       else ParseArgs(FUNC_ARG_TYPES[c.argTypeIndex], c.args).value.value)
  {
    hide ParseCommand, ParseArgs;
  }

  // The command types and the packet flags as they stand on the wire.
  datatype CommandType = InitiateHandshake | ConnectDevice | SwapLayout | ToggleFeature | SubStream {
    function Code(): u8 {
      match this
      case InitiateHandshake => 0
      case ConnectDevice => 1
      case SwapLayout => 2
      case ToggleFeature => 3
      case SubStream => 4
    }

    // What may only be done by a peer that was authenticated.
    predicate Guarded() { SwapLayout? || ToggleFeature? || SubStream? }
  }

  // The two types that begin a handshake are sent and executed without a token. The others are
  // sent only with one, and refused unless it is the session's own.
  lemma TypesAreGuarded(t: CommandType, c: OmniNetCommand, rest: bytes, from: DeviceMap, platform: Platform,
                        tokens: Tokens)
    requires c.commandType == t.Code() && c.argArrayLength == |c.args|
    requires rest != [] && rest[|rest| - 1] == 1 && Readable(EncodeCommand(c) + rest, tokens)
    ensures var own := tokens(t.Code(), c.argTypeIndex);
      var outcome := Received(EncodeCommand(c) + rest, from, platform, tokens);
      && (!t.Guarded() ==> outcome.Executed? && Stamped(c, tokens) == Some(c))
      && (t.Guarded() ==> (outcome.Executed? <==> c.actionToken == own != 0))
      && (t.Guarded() && !outcome.Executed? ==> outcome == Refused)
      && (t.Guarded() && c.actionToken == 0 ==>
            Stamped(c, tokens) == if own == 0 then None else Some(c.(actionToken := own)))
      && (c.actionToken != 0 ==> Stamped(c, tokens) == Some(c))
  {
    hide EncodeCommand, ParseCommand, ParseArgs;
    CommandRoundTripExactly(c, rest);
    var buffer := EncodeCommand(c) + rest;
    assert buffer[|buffer| - 1] == 1;
  }

  lemma FourBytes(n: u32)
    ensures Join(n / 0x100_0000, n / 0x1_0000 % 0x100, n / 0x100 % 0x100, n % 0x100) == n
  {
  }

  // A packet whose last byte is 0 is void, whatever else it holds: its first four bytes are the
  // little-endian code.
  lemma VoidExactly(n: u32, middle: bytes, from: DeviceMap, platform: Platform, tokens: Tokens)
    ensures var buffer := [n % 0x100, n / 0x100 % 0x100, n / 0x1_0000 % 0x100, n / 0x100_0000] + middle + [0];
      Readable(buffer, tokens) && Received(buffer, from, platform, tokens) == Void(n)
  {
    hide Join, ParseCommand, ParseArgs;
    FourBytes(n);
    VoidCode(n % 0x100, n / 0x100 % 0x100, n / 0x1_0000 % 0x100, n / 0x100_0000, middle, from, platform, tokens);
  }

  lemma VoidCode(a: u8, b: u8, c: u8, d: u8, middle: bytes, from: DeviceMap, platform: Platform, tokens: Tokens)
    requires 0 <= Join(d, c, b, a) < 0x1_0000_0000
    ensures var buffer := [a, b, c, d] + middle + [0];
      Readable(buffer, tokens) && Received(buffer, from, platform, tokens) == Void(Join(d, c, b, a))
  {
    hide Join, ParseCommand, ParseArgs;
  }

  // So every argument value is executed without a token, under a session that is not
  // authenticated, when the command says that it is of type 0.
  lemma GateLooksAtTheTypeAlone(x: FuncArgs, packetType: u8, target: u8, from: DeviceMap, platform: Platform)
    ensures var none: Tokens := (_, _) => 0;
      var sent := Stamped(CommandFor(0, x, 0), none);
      && sent.Some?
      && var buffer := EncodeCommand(sent.value) + [packetType, target, ARGONIZED];
      && Readable(buffer, none)
      && Received(buffer, from, platform, none).Executed?
      && Received(buffer, from, platform, none).command.args == x
  {
    hide ParseCommand, EncodeCommand, ParseArgs, EncodeArgs, IndexIn, TypeOf;
    Delivered(0, x, (_, _) => 0, packetType, target, from, platform);
  }
}
