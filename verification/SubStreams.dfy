/** The sub-streams and feature flags of one active device: what opening, closing, toggling and
    every message from the peer does to them. ActiveInstance.dfy proves the imperative code
    against these functions. */
module SubStreams {
  import opened Types

  datatype Feature = ScreenLink | WindowLink | InputLink | AudioLink | ClipboardLink
  datatype Route = Outbound | Inbound
  datatype FeatureAction = Deactivate | Activate | Pause
  datatype StreamState = Pending | Active

  datatype Entry = Entry(feature: Feature, route: Route, state: StreamState)

  datatype Message =
    | Create(id: u16, port: u16)
    | Connected(id: u16, port: u16)
    | Disconnect(id: u16)
    | FeatureToggle(feature: Feature, action: FeatureAction, id: u16)

  // out holds the messages sent to the peer that were neither delivered nor lost yet.
  datatype Instance = Instance(
    streams: map<u16, Entry>,
    nextId: u16,
    outbound: set<Feature>,
    inbound: set<Feature>,
    out: multiset<Message>)

  // What the sockets and the session do: the peer accepts our action tokens and the device is
  // active, one of the eight sub-stream sockets is free, connecting it works, its local port.
  datatype Env = Env(linkUp: bool, slotFree: bool, connects: bool, port: u16)

  // ---- Registry ------------------------------------------------------------------------

  function StreamsOf(i: Instance, f: Feature): set<u16> {
    set id | id in i.streams && i.streams[id].feature == f
  }

  function FollowingId(id: u16): u16 { (id + 2) % 0x1_0000 }

  function Transmit(i: Instance, m: Message, linkUp: bool): Instance {
    if linkUp then i.(out := i.out + multiset{m}) else i
  }

  function Register(i: Instance, id: u16, e: Entry): Instance { i.(streams := i.streams[id := e]) }

  function Unregister(i: Instance, ids: set<u16>): Instance { i.(streams := i.streams - ids) }

  // ---- OpenSubStream, CloseSubStream, SubStreamHandler -------------------------------------

  function Open(i: Instance, f: Feature, env: Env): Instance {
    if !env.slotFree then i
    else
      Transmit(Register(i.(nextId := FollowingId(i.nextId)), i.nextId, Entry(f, Outbound, Pending)),
               Create(i.nextId, env.port), env.linkUp)
  }

  // OpenSubStream reports failure as 0, and cannot tell the identifier 0 from it.
  function OpenedId(i: Instance, env: Env): u16 { if env.slotFree then i.nextId else 0 }

  function Close(i: Instance, id: u16, notify: bool, env: Env): Instance {
    if id !in i.streams then i
    else Unregister(if notify then Transmit(i, Disconnect(id), env.linkUp) else i, {id})
  }

  function OnCreate(i: Instance, id: u16, port: u16, env: Env): Instance {
    if !env.slotFree then i
    else if port == 0 then Register(i, id, Entry(ScreenLink, Inbound, Pending))
    else if !env.connects then Unregister(i, {id})
    else Transmit(Register(i, id, Entry(ScreenLink, Inbound, Active)), Connected(id, env.port), env.linkUp)
  }

  function OnConnected(i: Instance, id: u16, env: Env): Instance {
    if id in i.streams && i.streams[id].state.Pending? && env.connects
    then Register(i, id, i.streams[id].(state := Active)) else i
  }

  // ---- Feature flags -------------------------------------------------------------------

  function SetFlag(i: Instance, f: Feature, route: Route, on: bool): Instance {
    if route.Outbound? then i.(outbound := if on then i.outbound + {f} else i.outbound - {f})
    else i.(inbound := if on then i.inbound + {f} else i.inbound - {f})
  }

  // A stream's deactivation clears the flag only if no other stream carries the feature.
  function UpdateFeature(i: Instance, f: Feature, route: Route, action: FeatureAction, id: u16): Instance {
    if action.Activate? then SetFlag(i, f, route, true)
    else if id != 0 && |StreamsOf(i, f)| > 1 then i
    else SetFlag(i, f, route, false)
  }

  predicate NeedsStream(f: Feature) { f.ScreenLink? || f.AudioLink? }

  function ActivateStream(i: Instance, f: Feature, env: Env): Instance {
    var id, next := OpenedId(i, env), Open(i, f, env);
    if id == 0 then next
    else if !env.linkUp then Close(next, id, false, env)
    else UpdateFeature(Transmit(next, FeatureToggle(f, Activate, id), true), f, Outbound, Activate, id)
  }

  function ToggleOffs(f: Feature, ids: set<u16>): multiset<Message> {
    multiset(set id | id in ids :: FeatureToggle(f, Deactivate, id))
  }

  function Disconnects(ids: set<u16>): multiset<Message> {
    multiset(set id | id in ids :: Disconnect(id))
  }

  function CloseAll(i: Instance, f: Feature, env: Env): Instance {
    var ids := StreamsOf(i, f);
    Unregister(if env.linkUp then i.(out := i.out + Disconnects(ids)) else i, ids)
  }

  function DeactivateStreams(i: Instance, f: Feature, env: Env): Instance {
    var ids := StreamsOf(i, f);
    var told := if env.linkUp then i.(out := i.out + ToggleOffs(f, ids)) else i;
    var cleared := if |ids| == 1 || 0 in ids then SetFlag(told, f, Outbound, false) else told;
    CloseAll(cleared, f, env)
  }

  // ToggleFeature on itself, once what the feature excludes or needs has been seen to.
  function Switch(i: Instance, f: Feature, action: FeatureAction, env: Env): Instance {
    if NeedsStream(f) then
      if action.Activate? then ActivateStream(i, f, env) else DeactivateStreams(i, f, env)
    else if f.WindowLink? then
      if action.Activate? then
        if !env.linkUp then i
        else SetFlag(Transmit(i, FeatureToggle(f, Activate, 0), true), f, Outbound, true)
      else
        SetFlag(Transmit(CloseAll(i, f, env), FeatureToggle(f, Deactivate, 0), env.linkUp), f, Outbound, false)
    else if !env.linkUp then i
    else
      var told := Transmit(i, FeatureToggle(f, action, 0), true);
      SetFlag(SetFlag(told, f, Outbound, action.Activate?), f, Inbound, action.Activate?)
  }

  function TargetAction(i: Instance, f: Feature): FeatureAction {
    if f in i.outbound then Deactivate else Activate
  }

  // Turning WindowLink on first turns ScreenLink off and InputLink on; turning ScreenLink on,
  // or InputLink off, first turns WindowLink off.
  function Prepare(i: Instance, f: Feature, env: Env): Instance {
    if f.WindowLink? && WindowLink !in i.outbound then
      var j := if ScreenLink in i.outbound then Switch(i, ScreenLink, Deactivate, env) else i;
      if InputLink !in j.outbound then Switch(j, InputLink, Activate, env) else j
    else if (f.ScreenLink? && ScreenLink !in i.outbound) || (f.InputLink? && InputLink in i.outbound) then
      if WindowLink in i.outbound then Switch(i, WindowLink, Deactivate, env) else i
    else i
  }

  function Toggle(i: Instance, f: Feature, env: Env): Instance {
    Switch(Prepare(i, f, env), f, TargetAction(i, f), env)
  }

  // The toggle allocates an identifier.
  predicate OpensStream(i: Instance, f: Feature, env: Env) {
    NeedsStream(f) && TargetAction(i, f).Activate? && env.slotFree
  }

  // ---- FeatureStateHandler ---------------------------------------------------------------

  function OnFeatureToggle(i: Instance, f: Feature, action: FeatureAction, id: u16, env: Env): Instance {
    if f.ClipboardLink? || f.InputLink? then
      UpdateFeature(UpdateFeature(i, f, Inbound, action, id), f, Outbound, action, id)
    else
      var j := UpdateFeature(i, f, Inbound, action, id);
      if id == 0 then j
      else if action.Deactivate? then Close(j, id, false, env)
      else if action.Activate? && id in j.streams then
        Register(j, id, Entry(f, Inbound, j.streams[id].state))
      else j
  }

  function OnMessage(i: Instance, m: Message, env: Env): Instance {
    match m
    case Create(id, port) => OnCreate(i, id, port, env)
    case Connected(id, _) => OnConnected(i, id, env)
    case Disconnect(id) => Close(i, id, false, env)
    case FeatureToggle(f, action, id) => OnFeatureToggle(i, f, action, id, env)
  }
}
