/** The handshake of one device record: what each message, command or timer does to it.
    OmniCore.dfy proves the imperative handlers against these functions; LinkProtocol.dfy,
    LinkDuel.dfy and LinkRetries.dfy prove the protocol's properties about them. */
module Link {
  import opened Types

  datatype NetLinkState =
    Inactive | Failed | LinkingInit | LinkingWait | LinkingAck | LinkingAuth | Linked
  {
    function Ord(): nat {
      match this
      case Inactive => 0
      case Failed => 1
      case LinkingInit => 2
      case LinkingWait => 3
      case LinkingAck => 4
      case LinkingAuth => 5
      case Linked => 6
    }

    // An attempt is under way: LINKING_INIT up to, and not including, LINKED.
    predicate Linking() { LinkingInit.Ord() <= Ord() < Linked.Ord() }
  }

  // The deadline is not kept: "due" is a nondeterministic event.
  datatype RetryContext = RetryContext(token: u32, retriesLeft: int, active: bool)

  // The three flags of an ECDH session; keys and secrets are not modelled.
  datatype EcdhSession = EcdhSession(keyPair: bool, secret: bool, authenticated: bool)

  datatype Packet =
    | LinkRequest(token: u32)
    | LinkResponse(linkState: NetLinkState, token: u32)
    | HandshakeData(token: u32)

  // Everything one peer knows about another; out lists every packet it ever sent there.
  datatype Device = Device(
    ip: u32,
    state: NetLinkState,
    token: u32,
    session: bool,
    retry: Option<RetryContext>,
    crypt: Option<EcdhSession>,
    paired: bool,
    out: seq<Packet>)

  datatype Event =
    | Connect(newToken: u32, sessionOk: bool)
    | Accept(trust: bool)
    | Reject
    | Forget
    | Vanish                  // a scan no longer finds the device
    | Timer
    | Receive(packet: Packet)

  // ---- Session flags -------------------------------------------------------------------

  predicate Derived(d: Device) { d.crypt.Some? && d.crypt.value.secret }

  predicate Authenticated(d: Device) { Derived(d) && d.crypt.value.authenticated }

  function GenerateKeyPair(c: Option<EcdhSession>): EcdhSession {
    if c.Some? && c.value.keyPair then c.value else EcdhSession(true, false, false)
  }

  function DeriveSecret(c: EcdhSession): EcdhSession {
    c.(secret := true, authenticated := false)
  }

  function AuthenticateSession(d: Device): Device {
    if Derived(d) then d.(crypt := Some(d.crypt.value.(authenticated := true))) else d
  }

  // ---- Registry operations -------------------------------------------------------------

  // The guard of SetConnectionState: FAILED and INACTIVE always pass, the rest only upwards.
  predicate Allowed(current: NetLinkState, next: NetLinkState) {
    next.Failed? || next.Inactive? || current.Ord() < next.Ord()
  }

  function SetState(d: Device, s: NetLinkState): Device {
    if Allowed(d.state, s) then d.(state := s) else d
  }

  function Send(d: Device, ps: seq<Packet>): Device { d.(out := d.out + ps) }

  function TransmitState(d: Device): Device { Send(d, [LinkResponse(d.state, d.token)]) }

  // Commands travel over the session, so without one nothing leaves.
  function TransmitCommand(d: Device, p: Packet): Device {
    if d.session then Send(d, [p]) else d
  }

  function Reset(d: Device): Device { d.(session := false, state := Inactive, token := 0) }

  // ---- Handlers ------------------------------------------------------------------------

  predicate WinsDuel(d: Device, localIP: u32) { localIP < d.ip }

  function OnLinkRequest(d: Device, localIP: u32, token: u32): Device {
    if d.state.Linking() && WinsDuel(d, localIP) then d
    else
      var e := if d.state.Linking() then Reset(d).(retry := None) else d;
      SetState(e.(token := token), LinkingWait)
  }

  function RequestHandshake(d: Device): Device {
    var e := TransmitCommand(d.(crypt := Some(GenerateKeyPair(d.crypt))), HandshakeData(d.token));
    e.(retry := Some(RetryContext(d.token, 1, true)))
  }

  function OnLinkResponse(d: Device, s: NetLinkState, token: u32): Device {
    if token != d.token || !d.session then d
    else if s.LinkingWait? then
      if Allowed(d.state, LinkingAck) then RequestHandshake(d.(state := LinkingAck)) else d
    else if s.Linked? then
      if Allowed(d.state, Linked) then AuthenticateSession(d.(state := Linked)).(retry := None) else d
    else if s.Failed? then Reset(d).(retry := None, crypt := None)
    else d
  }

  function AcceptConnection(d: Device, trust: bool): Device {
    TransmitState(SetState(AuthenticateSession(d), Linked)).(paired := d.paired || trust, retry := None)
  }

  function RejectConnection(d: Device): Device {
    Reset(TransmitState(d.(crypt := None, state := Failed)).(retry := None))
  }

  // HandshakeData is looked at only with the right token, from LINKING_WAIT on, and while
  // LINKED only as long as the session is not authenticated.
  predicate TakesHandshakeData(d: Device, token: u32) {
    token == d.token && LinkingWait.Ord() <= d.state.Ord() &&
    !(d.state.Linked? && Authenticated(d))
  }

  function OnHandshakeData(d: Device, token: u32): Device {
    if !TakesHandshakeData(d, token) then d
    else
      var e := d.(crypt := Some(DeriveSecret(GenerateKeyPair(d.crypt))));
      var f := if d.state.LinkingWait? then TransmitCommand(e, HandshakeData(token)) else e;
      if !Allowed(f.state, LinkingAuth) then
        if f.state.Linked? then AuthenticateSession(f).(retry := None) else f
      else
        var g := f.(state := LinkingAuth);
        if d.state.LinkingWait? && Authenticated(d) then AcceptConnection(g, false)
        else if d.state.LinkingWait? && g.paired then AcceptConnection(g, true)
        else g.(retry := if g.retry.Some? then Some(g.retry.value.(retriesLeft := 1)) else None)
  }

  function ConnectInstance(d: Device, newToken: u32, sessionOk: bool): Device {
    match d.state
    case Failed | Inactive =>
      var e := d.(token := newToken);
      if !sessionOk then e.(state := Failed)
      else
        Send(e.(session := true, state := LinkingInit), [LinkRequest(newToken)])
          .(retry := Some(RetryContext(newToken, 5, true)))
    case LinkingWait =>
      if !sessionOk then d.(state := Failed)
      else TransmitState(d.(session := true)).(retry := Some(RetryContext(d.token, 5, true)))
    case _ => d
  }

  function FailHandshake(d: Device): Device {
    Reset(TransmitState(d.(crypt := None, state := Failed)))
  }

  function ForgetDevice(d: Device): Device { Reset(d).(crypt := None) }

  // ClearInstance in the middle of whatever goes on: session and retry entry stay.
  function ClearInstance(d: Device): Device { d.(ip := 0, state := Inactive, token := 0) }

  function Decrement(d: Device): Device
    requires d.retry.Some?
  {
    d.(retry := Some(d.retry.value.(retriesLeft := d.retry.value.retriesLeft - 1)))
  }

  // What one pass over a retry entry whose deadline has passed does.
  function OnTimer(d: Device): Device {
    if d.retry.None? || !d.retry.value.active then d
    else if d.retry.value.retriesLeft <= 0 then FailHandshake(d).(retry := None)
    else match d.state
      case LinkingInit =>
        Decrement(TransmitState(Send(d, [LinkRequest(d.retry.value.token)])))
      case LinkingWait => Decrement(TransmitState(d))
      case LinkingAck => Decrement(RequestHandshake(d))
      case LinkingAuth => FailHandshake(d).(retry := None)
      case _ => d.(retry := None)
  }

  function OnPacket(d: Device, localIP: u32, p: Packet): Device {
    match p
    case LinkRequest(t) => OnLinkRequest(d, localIP, t)
    case LinkResponse(s, t) => OnLinkResponse(d, s, t)
    case HandshakeData(t) => OnHandshakeData(d, t)
  }

  function Step(d: Device, localIP: u32, e: Event): Device {
    match e
    case Connect(t, ok) => ConnectInstance(d, t, ok)
    case Accept(trust) => AcceptConnection(d, trust)
    case Reject => RejectConnection(d)
    case Forget => ForgetDevice(d)
    case Vanish => ClearInstance(d)
    case Timer => OnTimer(d)
    case Receive(p) => OnPacket(d, localIP, p)
  }
}
