/** The active-device object and the OmniCore operations on it, in place. A null instance is a
    device that has no entry in ActiveInstances, or the local device for a toggle. */
module ActiveInstance {
  import opened Types
  import S = SubStreams

  // ---- Flag words ----------------------------------------------------------------------

  function Bit(f: S.Feature): bv32 {
    match f
    case ScreenLink => 1
    case WindowLink => 2
    case InputLink => 4
    case AudioLink => 8
    case ClipboardLink => 16
  }

  predicate Has(flags: bv32, f: S.Feature) { flags & Bit(f) != 0 }

  function FlagsOf(flags: bv32): set<S.Feature> { set f: S.Feature | Has(flags, f) }

  function SetBit(flags: bv32, f: S.Feature, on: bool): bv32 {
    if on then flags | Bit(f) else flags & !Bit(f)
  }

  // Setting or clearing one bit adds or removes that feature and no other.
  lemma SetBitIsOneFlag(flags: bv32, f: S.Feature, on: bool)
    ensures FlagsOf(SetBit(flags, f, on)) == if on then FlagsOf(flags) + {f} else FlagsOf(flags) - {f}
  {
    hide Has, SetBit;
    forall g: S.Feature
      ensures Has(SetBit(flags, f, on), g) == if g == f then on else Has(flags, g)
    {
      OneFlag(flags, f, g, on);
    }
  }

  lemma OneFlag(flags: bv32, f: S.Feature, g: S.Feature, on: bool)
    ensures Has(SetBit(flags, f, on), g) == if g == f then on else Has(flags, g)
  {
    OneBit(flags, Bit(f), Bit(g));
  }

  lemma OneBit(flags: bv32, b: bv32, c: bv32)
    requires b == 1 || b == 2 || b == 4 || b == 8 || b == 16
    requires c == 1 || c == 2 || c == 4 || c == 8 || c == 16
    ensures (flags | b) & c != 0 <==> flags & c != 0 || b == c
    ensures (flags & !b) & c != 0 <==> flags & c != 0 && b != c
  {
  }

  class OmniActiveInstance {
    var outboundFlags: bv32
    var inboundFlags: bv32
    var activeFlags: bv32
    var subStreamRegistry: map<u16, S.Entry>
    var nextSubStreamID: u16
    var outgoing: multiset<S.Message>

    predicate Valid()
      reads this
    {
      activeFlags == outboundFlags | inboundFlags
    }

    function View(): S.Instance
      reads this
    {
      S.Instance(subStreamRegistry, nextSubStreamID, FlagsOf(outboundFlags), FlagsOf(inboundFlags), outgoing)
    }

    // ActivateInstance: the side with the lower address allocates odd identifiers.
    constructor (localIP: u32, remoteIP: u32)
      ensures Valid()
      ensures View() == S.Instance(map[], if localIP < remoteIP then 1 else 2, {}, {}, multiset{})
    {
      outboundFlags, inboundFlags, activeFlags := 0, 0, 0;
      subStreamRegistry, outgoing := map[], multiset{};
      nextSubStreamID := if localIP < remoteIP then 1 else 2;
    }

    method AllocateNextSubStreamID() returns (id: u16)
      requires Valid()
      modifies this
      ensures Valid() && id == old(nextSubStreamID)
      ensures id == old(View()).nextId && View() == old(View()).(nextId := S.FollowingId(id))
    {
      id := nextSubStreamID;
      nextSubStreamID := (nextSubStreamID + 2) % 0x1_0000;
    }

    method RegisterSubStream(id: u16, entry: S.Entry)
      requires Valid()
      modifies this
      ensures Valid() && View() == S.Register(old(View()), id, entry)
    {
      subStreamRegistry := subStreamRegistry[id := entry];
    }

    method FindSubStream(id: u16) returns (entry: Option<S.Entry>)
      ensures entry == if id in View().streams then Some(View().streams[id]) else None
    {
      return if id in subStreamRegistry then Some(subStreamRegistry[id]) else None;
    }

    method SetSubStreamState(id: u16, state: S.StreamState)
      requires Valid() && id in View().streams
      modifies this
      ensures Valid() && View() == S.Register(old(View()), id, old(View()).streams[id].(state := state))
    {
      subStreamRegistry := subStreamRegistry[id := subStreamRegistry[id].(state := state)];
    }

    method SetSubStreamFeature(id: u16, f: S.Feature, route: S.Route)
      requires Valid() && id in View().streams
      modifies this
      ensures Valid()
      ensures View() == S.Register(old(View()), id, old(View()).streams[id].(feature := f, route := route))
    {
      subStreamRegistry := subStreamRegistry[id := subStreamRegistry[id].(feature := f, route := route)];
    }

    method UnregisterSubStream(id: u16)
      requires Valid()
      modifies this
      ensures Valid() && View() == S.Unregister(old(View()), {id})
    {
      subStreamRegistry := subStreamRegistry - {id};
    }

    // The identifiers tagged with a feature, each once, in no particular order.
    method GetSubStreams(f: S.Feature) returns (ids: seq<u16>)
      ensures forall a, b :: 0 <= a < b < |ids| ==> ids[a] != ids[b]
      ensures Elements(ids) == S.StreamsOf(View(), f) && |ids| == |S.StreamsOf(View(), f)|
    {
      ids := [];
      var todo := subStreamRegistry.Keys;
      while todo != {}
        invariant todo <= subStreamRegistry.Keys
        invariant forall id :: id in ids <==>
                    id in subStreamRegistry.Keys - todo && subStreamRegistry[id].feature == f
        invariant forall a, b :: 0 <= a < b < |ids| ==> ids[a] != ids[b]
        decreases todo
      {
        var id :| id in todo;
        todo := todo - {id};
        if subStreamRegistry[id].feature == f {
          ids := ids + [id];
        }
      }
      assert Elements(ids) == S.StreamsOf(View(), f);
      DistinctCount(ids);
    }

    method SetFeatureState(f: S.Feature, route: S.Route, on: bool)
      requires Valid()
      modifies this
      ensures Valid() && View() == S.SetFlag(old(View()), f, route, on)
    {
      hide Has, FlagsOf, SetBit;
      SetBitIsOneFlag(outboundFlags, f, on);
      SetBitIsOneFlag(inboundFlags, f, on);
      if route.Outbound? {
        outboundFlags := SetBit(outboundFlags, f, on);
      } else {
        inboundFlags := SetBit(inboundFlags, f, on);
      }
      activeFlags := outboundFlags | inboundFlags;
    }

    method TransmitNetCommand(m: S.Message, linkUp: bool) returns (ok: bool)
      requires Valid()
      modifies this
      ensures Valid() && ok == linkUp && View() == S.Transmit(old(View()), m, linkUp)
    {
      if linkUp {
        outgoing := outgoing + multiset{m};
      }
      return linkUp;
    }
  }

  function Elements(ids: seq<u16>): set<u16> { set id | id in ids }

  lemma {:induction false} DistinctCount(ids: seq<u16>)
    requires forall a, b :: 0 <= a < b < |ids| ==> ids[a] != ids[b]
    ensures |Elements(ids)| == |ids|
  {
    if ids != [] {
      var n := |ids| - 1;
      DistinctCount(ids[..n]);
      assert ids[n] !in Elements(ids[..n]) && Elements(ids) == Elements(ids[..n]) + {ids[n]};
    }
  }

  // ---- Sub-streams ---------------------------------------------------------------------

  method OpenSubStream(i: OmniActiveInstance?, f: S.Feature, env: S.Env) returns (id: u16)
    requires i != null ==> i.Valid()
    modifies i
    ensures i == null ==> id == 0
    ensures i != null ==> i.Valid() && i.View() == S.Open(old(i.View()), f, env)
    ensures i != null ==> id == S.OpenedId(old(i.View()), env)
  {
    hide OmniActiveInstance.View, OmniActiveInstance.Valid;
    if i == null || !env.slotFree {
      return 0;
    }
    id := i.AllocateNextSubStreamID();
    i.RegisterSubStream(id, S.Entry(f, S.Outbound, S.Pending));
    var _ := i.TransmitNetCommand(S.Create(id, env.port), env.linkUp);
  }

  method CloseSubStream(i: OmniActiveInstance?, id: u16, notify: bool, env: S.Env)
    requires i != null ==> i.Valid()
    modifies i
    ensures i != null ==> i.Valid() && i.View() == S.Close(old(i.View()), id, notify, env)
  {
    hide OmniActiveInstance.View, OmniActiveInstance.Valid;
    if i == null {
      return;
    }
    var entry := i.FindSubStream(id);
    if entry.None? {
      return;
    }
    if notify {
      var _ := i.TransmitNetCommand(S.Disconnect(id), env.linkUp);
    }
    i.UnregisterSubStream(id);
  }

  method CloseSubStreams(i: OmniActiveInstance?, f: S.Feature, env: S.Env)
    requires i != null ==> i.Valid()
    modifies i
    ensures i != null ==> i.Valid() && i.View() == S.CloseAll(old(i.View()), f, env)
  {
    if i == null {
      return;
    }
    var ids := i.GetSubStreams(f);
    hide S.Close, S.CloseAll, Closed;
    ghost var was := i.View();
    ghost var done: set<u16> := {};
    ClosedBounds(was, f, env);
    for k := 0 to |ids|
      invariant i.Valid() && done == Elements(ids[..k])
      invariant i.View() == Closed(was, done, env)
    {
      assert ids[k] in S.StreamsOf(was, f) && ids[k] !in done;
      CloseSubStream(i, ids[k], true, env);
      CloseOneMore(was, done, ids[k], env);
      done := done + {ids[k]};
    }
    assert ids[..|ids|] == ids;
  }

  // The instance after the streams in done were closed and the peer told so.
  ghost function Closed(i: S.Instance, done: set<u16>, env: S.Env): S.Instance {
    S.Unregister(if env.linkUp then i.(out := i.out + S.Disconnects(done)) else i, done)
  }

  lemma ClosedBounds(i: S.Instance, f: S.Feature, env: S.Env)
    ensures Closed(i, {}, env) == i && Closed(i, S.StreamsOf(i, f), env) == S.CloseAll(i, f, env)
  {
    assert S.Disconnects({}) == multiset{};
  }

  lemma CloseOneMore(i: S.Instance, done: set<u16>, id: u16, env: S.Env)
    requires id !in done && id in i.streams
    ensures S.Close(Closed(i, done, env), id, true, env) == Closed(i, done + {id}, env)
  {
    AddOneDisconnect(done, id);
    assert i.out + S.Disconnects(done) + multiset{S.Disconnect(id)} == i.out + S.Disconnects(done + {id});
    assert i.streams - done - {id} == i.streams - (done + {id});
  }

  lemma AddOneDisconnect(ids: set<u16>, id: u16)
    requires id !in ids
    ensures S.Disconnects(ids + {id}) == S.Disconnects(ids) + multiset{S.Disconnect(id)}
  {
    assert (set x | x in ids + {id} :: S.Disconnect(x)) == (set x | x in ids :: S.Disconnect(x)) + {S.Disconnect(id)};
  }

  method CreateHandler(i: OmniActiveInstance, id: u16, port: u16, env: S.Env)
    requires i.Valid()
    modifies i
    ensures i.Valid() && i.View() == S.OnCreate(old(i.View()), id, port, env)
  {
    hide OmniActiveInstance.View, OmniActiveInstance.Valid;
    if !env.slotFree {
      return;
    }
    i.RegisterSubStream(id, S.Entry(S.ScreenLink, S.Inbound, S.Pending));
    if port != 0 {
      if !env.connects {
        i.UnregisterSubStream(id);
        return;
      }
      i.SetSubStreamState(id, S.Active);
      var _ := i.TransmitNetCommand(S.Connected(id, env.port), env.linkUp);
    }
  }

  method ConnectedHandler(i: OmniActiveInstance, id: u16, env: S.Env)
    requires i.Valid()
    modifies i
    ensures i.Valid() && i.View() == S.OnConnected(old(i.View()), id, env)
  {
    hide OmniActiveInstance.View, OmniActiveInstance.Valid;
    var entry := i.FindSubStream(id);
    if entry.None? || !entry.value.state.Pending? {
      return;
    }
    if !env.connects {
      return;
    }
    i.SetSubStreamState(id, S.Active);
  }

  // One method in the source; each case is one here.
  method SubStreamHandler(i: OmniActiveInstance?, m: S.Message, env: S.Env)
    requires i != null ==> i.Valid()
    requires !m.FeatureToggle?
    modifies i
    ensures i != null ==> i.Valid() && i.View() == S.OnMessage(old(i.View()), m, env)
  {
    hide S.OnCreate, S.OnConnected, S.Close, OmniActiveInstance.View, OmniActiveInstance.Valid;
    if i == null {
      return;
    }
    match m {
      case Create(id, port) => CreateHandler(i, id, port, env);
      case Connected(id, _) => ConnectedHandler(i, id, env);
      case Disconnect(id) => CloseSubStream(i, id, false, env);
    }
  }

  // ---- Features ------------------------------------------------------------------------

  method UpdateFeatureState(
    i: OmniActiveInstance?, f: S.Feature, route: S.Route, action: S.FeatureAction, id: u16)
    requires i != null ==> i.Valid()
    modifies i
    ensures i != null ==> i.Valid() && i.View() == S.UpdateFeature(old(i.View()), f, route, action, id)
  {
    if i == null {
      return;
    }
    if action.Activate? {
      i.SetFeatureState(f, route, true);
    } else if id != 0 {
      var streams := i.GetSubStreams(f);
      if |streams| <= 1 {
        i.SetFeatureState(f, route, false);
      }
    } else {
      i.SetFeatureState(f, route, false);
    }
  }

  method DeactivateStreams(i: OmniActiveInstance, f: S.Feature, env: S.Env)
    requires i.Valid()
    modifies i
    ensures i.Valid() && i.View() == S.DeactivateStreams(old(i.View()), f, env)
  {
    var ids := i.GetSubStreams(f);
    hide S.ToggleOffs, Told, S.UpdateFeature, S.DeactivateStreams, S.CloseAll;
    ghost var was := i.View();
    ghost var done: set<u16> := {};
    assert Told(was, f, done, env) == was by {
      NothingToldYet(was, f, env);
    }
    for k := 0 to |ids|
      invariant i.Valid() && done == Elements(ids[..k])
      invariant i.View() == Told(was, f, done, env)
    {
      assert ids[k] in S.StreamsOf(was, f) && ids[k] !in done;
      TellPeer(i, f, ids[k], env, was, done);
      done := done + {ids[k]};
    }
    assert ids[..|ids|] == ids;
    NobodyLeftToTell(was, f, env);
    CloseSubStreams(i, f, env);
  }

  method TellPeer(
    i: OmniActiveInstance, f: S.Feature, id: u16, env: S.Env, ghost was: S.Instance, ghost done: set<u16>)
    requires i.Valid() && i.View() == Told(was, f, done, env)
    requires id in S.StreamsOf(was, f) && id !in done
    modifies i
    ensures i.Valid() && i.View() == Told(was, f, done + {id}, env)
  {
    hide Told, S.UpdateFeature;
    var _ := i.TransmitNetCommand(S.FeatureToggle(f, S.Deactivate, id), env.linkUp);
    UpdateFeatureState(i, f, S.Outbound, S.Deactivate, id);
    TellOneMore(was, f, done, id, env);
  }

  lemma NothingToldYet(i: S.Instance, f: S.Feature, env: S.Env)
    ensures Told(i, f, {}, env) == i
  {
    assert S.ToggleOffs(f, {}) == multiset{};
  }

  lemma NobodyLeftToTell(i: S.Instance, f: S.Feature, env: S.Env)
    ensures S.CloseAll(Told(i, f, S.StreamsOf(i, f), env), f, env) == S.DeactivateStreams(i, f, env)
  {
    assert |S.StreamsOf(i, f)| == 1 ==> S.StreamsOf(i, f) != {};
  }

  // The instance after the peer was told about the streams in done, and the flag updated for each.
  ghost function Told(i: S.Instance, f: S.Feature, done: set<u16>, env: S.Env): S.Instance {
    var told := if env.linkUp then i.(out := i.out + S.ToggleOffs(f, done)) else i;
    if ClearsFlag(i, f, done) then S.SetFlag(told, f, S.Outbound, false) else told
  }

  ghost predicate ClearsFlag(i: S.Instance, f: S.Feature, done: set<u16>) {
    (done != {} && |S.StreamsOf(i, f)| == 1) || 0 in done
  }

  lemma TellOneMore(i: S.Instance, f: S.Feature, done: set<u16>, id: u16, env: S.Env)
    requires id !in done && id in S.StreamsOf(i, f)
    ensures S.UpdateFeature(
              S.Transmit(Told(i, f, done, env), S.FeatureToggle(f, S.Deactivate, id), env.linkUp),
              f, S.Outbound, S.Deactivate, id) == Told(i, f, done + {id}, env)
  {
    var told := S.Transmit(Told(i, f, done, env), S.FeatureToggle(f, S.Deactivate, id), env.linkUp);
    AddOneToggleOff(f, done, id);
    assert told.out == Told(i, f, done + {id}, env).out by {
      hide S.ToggleOffs, ClearsFlag;
    }
    hide S.ToggleOffs;
    assert told.streams == i.streams;
    assert S.StreamsOf(told, f) == S.StreamsOf(i, f);
    assert |S.StreamsOf(i, f)| >= 1;
    assert ClearsFlag(i, f, done + {id}) <==> ClearsFlag(i, f, done) || |S.StreamsOf(i, f)| == 1 || id == 0;
  }

  lemma AddOneToggleOff(f: S.Feature, ids: set<u16>, id: u16)
    requires id !in ids
    ensures S.ToggleOffs(f, ids + {id}) == S.ToggleOffs(f, ids) + multiset{S.FeatureToggle(f, S.Deactivate, id)}
  {
    assert (set x | x in ids + {id} :: S.FeatureToggle(f, S.Deactivate, x))
        == (set x | x in ids :: S.FeatureToggle(f, S.Deactivate, x)) + {S.FeatureToggle(f, S.Deactivate, id)};
  }

  // Whether a toggle of f may call itself for another feature first.
  function Depth(i: S.Instance, f: S.Feature): nat {
    if (f.WindowLink? && S.WindowLink !in i.outbound) || (f.ScreenLink? && S.ScreenLink !in i.outbound) ||
       (f.InputLink? && S.InputLink in i.outbound)
    then 1 else 0
  }

  method ToggleFeature(i: OmniActiveInstance?, f: S.Feature, env: S.Env)
    requires i != null ==> i.Valid()
    modifies i
    ensures i != null ==> i.Valid() && i.View() == S.Toggle(old(i.View()), f, env)
    decreases if i == null then 0 else Depth(i.View(), f)
  {
    if i == null {
      return;
    }
    ghost var was := i.View();
    var on := i.outboundFlags & Bit(f) != 0;
    assert on <==> f in was.outbound;
    var action := if on then S.Deactivate else S.Activate;

    if f.WindowLink? && action.Activate? {
      if i.outboundFlags & Bit(S.ScreenLink) != 0 {
        assert S.ScreenLink in i.View().outbound;
        ToggleFeature(i, S.ScreenLink, env);
      }
      if !(i.outboundFlags & Bit(S.InputLink) != 0) {
        assert S.InputLink !in i.View().outbound;
        ToggleFeature(i, S.InputLink, env);
      }
    } else if f.ScreenLink? && action.Activate? {
      if i.outboundFlags & Bit(S.WindowLink) != 0 {
        assert S.WindowLink in i.View().outbound;
        ToggleFeature(i, S.WindowLink, env);
      }
    } else if f.InputLink? && action.Deactivate? {
      if i.outboundFlags & Bit(S.WindowLink) != 0 {
        assert S.WindowLink in i.View().outbound;
        ToggleFeature(i, S.WindowLink, env);
      }
    }
    assert i.View() == S.Prepare(was, f, env);
    SwitchFeature(i, f, action, env);
  }

  // The second half of ToggleFeature.
  method SwitchFeature(i: OmniActiveInstance, f: S.Feature, action: S.FeatureAction, env: S.Env)
    requires i.Valid() && !action.Pause?
    modifies i
    ensures i.Valid() && i.View() == S.Switch(old(i.View()), f, action, env)
  {
    if f.ScreenLink? || f.AudioLink? {
      if action.Activate? {
        var id := OpenSubStream(i, f, env);
        if id != 0 {
          var ok := i.TransmitNetCommand(S.FeatureToggle(f, action, id), env.linkUp);
          if !ok {
            CloseSubStream(i, id, false, env);
            return;
          }
          UpdateFeatureState(i, f, S.Outbound, action, id);
        }
      } else {
        DeactivateStreams(i, f, env);
      }
    } else if f.WindowLink? {
      if action.Activate? {
        var ok := i.TransmitNetCommand(S.FeatureToggle(f, action, 0), env.linkUp);
        if !ok {
          return;
        }
        UpdateFeatureState(i, f, S.Outbound, action, 0);
      } else {
        CloseSubStreams(i, f, env);
        var _ := i.TransmitNetCommand(S.FeatureToggle(f, action, 0), env.linkUp);
        UpdateFeatureState(i, f, S.Outbound, action, 0);
      }
    } else {
      var ok := i.TransmitNetCommand(S.FeatureToggle(f, action, 0), env.linkUp);
      if !ok {
        return;
      }
      UpdateFeatureState(i, f, S.Outbound, action, 0);
      UpdateFeatureState(i, f, S.Inbound, action, 0);
    }
  }

  method FeatureStateHandler(i: OmniActiveInstance?, f: S.Feature, action: S.FeatureAction, id: u16, env: S.Env)
    requires i != null ==> i.Valid()
    modifies i
    ensures i != null ==> i.Valid() && i.View() == S.OnFeatureToggle(old(i.View()), f, action, id, env)
  {
    if i == null {
      return;
    }
    if f.ClipboardLink? || f.InputLink? {
      UpdateFeatureState(i, f, S.Inbound, action, id);
      UpdateFeatureState(i, f, S.Outbound, action, id);
      return;
    }
    UpdateFeatureState(i, f, S.Inbound, action, id);
    if action.Deactivate? && id != 0 {
      CloseSubStream(i, id, false, env);
      return;
    }
    if action.Activate? && id != 0 {
      var entry := i.FindSubStream(id);
      if entry.None? {
        return;
      }
      i.SetSubStreamFeature(id, f, S.Inbound);
    }
  }
}
