/** What every message and every toggle does to streams, flags and the messages on their way, told
    by table instead of call by call, and what two peers have once the messages are delivered. */
module SubStreamEffects {
  import opened Types
  import opened SubStreams
  import opened SubStreamProtocol
  import F = Features

  // The features that both sides always have on or off together, in both directions.
  predicate Shared(f: Feature) { f.InputLink? || f.ClipboardLink? }

  function EntryOf(i: Instance, id: u16): Option<Entry> { if id in i.streams then Some(i.streams[id]) else None }

  // ---- Messages from the peer --------------------------------------------------------------

  function EntryAfter(was: Option<Entry>, m: Message, env: Env, id: u16): Option<Entry> {
    if m.id != id then was
    else match m
      case Create(_, port) =>
        if !env.slotFree then was
        else if port == 0 then Some(Entry(ScreenLink, Inbound, Pending))
        else if env.connects then Some(Entry(ScreenLink, Inbound, Active)) else None
      case Connected(_, _) =>
        if was.Some? && was.value.state.Pending? && env.connects then Some(was.value.(state := Active)) else was
      case Disconnect(_) => None
      case FeatureToggle(f, action, _) =>
        if Shared(f) || id == 0 || action.Pause? then was
        else if action.Deactivate? then None
        else if was.Some? then Some(Entry(f, Inbound, was.value.state)) else None
  }

  // The only answer is to a Create whose stream came up.
  function Answer(m: Message, env: Env): multiset<Message> {
    if m.Create? && env.slotFree && m.port != 0 && env.connects && env.linkUp
    then multiset{Connected(m.id, env.port)} else multiset{}
  }

  lemma MessageStreamsExactly(i: Instance, m: Message, env: Env, id: u16)
    ensures EntryOf(OnMessage(i, m, env), id) == EntryAfter(EntryOf(i, id), m, env, id)
  {
    hide StreamsOf;
    match m { case Create(_, _) => case Connected(_, _) => case Disconnect(_) => case FeatureToggle(_, _, _) => }
  }

  lemma MessageAnswersExactly(i: Instance, m: Message, env: Env)
    ensures OnMessage(i, m, env).out == i.out + Answer(m, env) && OnMessage(i, m, env).nextId == i.nextId
  {
    match m { case Create(_, _) => case Connected(_, _) => case Disconnect(_) => case FeatureToggle(_, _, _) => }
  }

  // A toggle turns its flag on, or off unless it names a stream and others carry the feature.
  predicate FlagAfter(i: Instance, m: Message, was: bool)
    requires m.FeatureToggle?
  {
    m.action.Activate? || (was && m.id != 0 && |StreamsOf(i, m.feature)| > 1)
  }

  lemma MessageFlagsExactly(i: Instance, m: Message, env: Env, g: Feature)
    ensures var j := OnMessage(i, m, env);
            && (g in j.inbound <==> if m.FeatureToggle? && m.feature == g
                                    then FlagAfter(i, m, g in i.inbound) else g in i.inbound)
            && (g in j.outbound <==> if m.FeatureToggle? && m.feature == g && Shared(g)
                                     then FlagAfter(i, m, g in i.outbound) else g in i.outbound)
  {
    match m {
      case Create(_, _) =>
      case Connected(_, _) =>
      case Disconnect(_) =>
      case FeatureToggle(f, action, id) =>
        hide UpdateFeature;
        var j := UpdateFeature(i, f, Inbound, action, id);
        UpdateFlagsExactly(i, f, Inbound, action, id, g);
        UpdateFlagsExactly(j, f, Outbound, action, id, g);
    }
  }

  lemma UpdateFlagsExactly(i: Instance, f: Feature, route: Route, action: FeatureAction, id: u16, g: Feature)
    ensures var j := UpdateFeature(i, f, route, action, id);
            && j.streams == i.streams && StreamsOf(j, f) == StreamsOf(i, f)
            && (g in j.inbound <==> if g == f && route.Inbound?
                                    then FlagAfter(i, FeatureToggle(f, action, id), g in i.inbound) else g in i.inbound)
            && (g in j.outbound <==> if g == f && route.Outbound?
                                     then FlagAfter(i, FeatureToggle(f, action, id), g in i.outbound)
                                     else g in i.outbound)
  {
    var j := UpdateFeature(i, f, route, action, id);
    assert StreamsOf(j, f) == StreamsOf(i, f);
    hide StreamsOf;
  }

  // A pending stream becomes active exactly by its own Connect, or by a Create that takes its
  // place, and only if the socket connects.
  lemma BecomesActiveExactly(i: Instance, m: Message, env: Env, id: u16)
    requires id in i.streams && i.streams[id].state.Pending?
    ensures var j := OnMessage(i, m, env);
            (id in j.streams && j.streams[id].state.Active?) <==>
              m.id == id && env.connects && (m.Connected? || (m.Create? && env.slotFree && m.port != 0))
  {
    MessageStreamsExactly(i, m, env, id);
  }

  // ---- Requests and releases -----------------------------------------------------------------

  lemma RequestExactly(i: Instance, f: Feature, env: Env, id: u16)
    ensures var j := Open(i, f, env);
            && EntryOf(j, id) == (if env.slotFree && id == i.nextId then Some(Entry(f, Outbound, Pending))
                                  else EntryOf(i, id))
            && j.nextId == (if env.slotFree then (i.nextId + 2) % 0x1_0000 else i.nextId)
            && j.out == i.out + (if env.slotFree && env.linkUp then multiset{Create(i.nextId, env.port)}
                                 else multiset{})
            && j.outbound == i.outbound && j.inbound == i.inbound
  {
  }

  lemma ReleaseExactly(i: Instance, id: u16, notify: bool, env: Env, other: u16)
    ensures var j := Close(i, id, notify, env);
            && EntryOf(j, other) == (if other == id then None else EntryOf(i, other))
            && j.out == i.out + (if notify && env.linkUp && id in i.streams then multiset{Disconnect(id)}
                                 else multiset{})
            && j.outbound == i.outbound && j.inbound == i.inbound && j.nextId == i.nextId
  {
  }

  lemma ReleaseAllExactly(i: Instance, f: Feature, env: Env, id: u16)
    ensures var j := CloseAll(i, f, env);
            && EntryOf(j, id) == (if id in i.streams && i.streams[id].feature == f then None else EntryOf(i, id))
            && j.out == i.out + SaidAbout(Closing(i, f), env)
            && j.outbound == i.outbound && j.inbound == i.inbound && j.nextId == i.nextId
  {
  }

  // ---- Toggles: messages ---------------------------------------------------------------------

  function SaidAbout(ms: multiset<Message>, env: Env): multiset<Message> {
    if env.linkUp then ms else multiset{}
  }

  function Closing(i: Instance, f: Feature): multiset<Message> { Disconnects(StreamsOf(i, f)) }

  // One Disconnect, and one toggle turning the feature off, for each stream and nothing else.
  lemma OncePerStream(f: Feature, ids: set<u16>, m: Message)
    ensures Disconnects(ids)[m] == if m.Disconnect? && m.id in ids then 1 else 0
    ensures ToggleOffs(f, ids)[m] ==
              if m.FeatureToggle? && m.feature == f && m.action.Deactivate? && m.id in ids then 1 else 0
  {
  }

  // What turning f on or off says about f itself.
  function OwnSends(i: Instance, f: Feature, on: bool, env: Env): multiset<Message> {
    if NeedsStream(f) then
      if !on then ToggleOffs(f, StreamsOf(i, f)) + Closing(i, f)
      else if !env.slotFree then multiset{}
      else if i.nextId == 0 then multiset{Create(0, env.port)}
      else multiset{Create(i.nextId, env.port), FeatureToggle(f, Activate, i.nextId)}
    else
      (if f.WindowLink? && !on then Closing(i, f) else multiset{})
      + multiset{FeatureToggle(f, if on then Activate else Deactivate, 0)}
  }

  // And first about the features it excludes or needs.
  function ToggleSends(i: Instance, f: Feature, env: Env): multiset<Message> {
    var on := f !in i.outbound;
    OwnSends(i, f, on, env) +
    if f.WindowLink? && on then
      (if ScreenLink in i.outbound then OwnSends(i, ScreenLink, false, env) else multiset{}) +
      (if InputLink !in i.outbound then OwnSends(i, InputLink, true, env) else multiset{})
    else if WindowLink in i.outbound && ((f.ScreenLink? && on) || (f.InputLink? && !on)) then
      OwnSends(i, WindowLink, false, env)
    else multiset{}
  }

  lemma SwitchSendsExactly(i: Instance, f: Feature, on: bool, env: Env)
    ensures Switch(i, f, if on then Activate else Deactivate, env).out
         == i.out + SaidAbout(OwnSends(i, f, on, env), env)
  {
    hide StreamsOf, ToggleOffs, Disconnects;
    if NeedsStream(f) {
      if on {
        ActivateSends(i, f, env);
      } else {
        DeactivateSends(i, f, env);
      }
    }
  }

  lemma ActivateSends(i: Instance, f: Feature, env: Env)
    requires NeedsStream(f)
    ensures ActivateStream(i, f, env).out == i.out + SaidAbout(OwnSends(i, f, true, env), env)
  {
  }

  lemma DeactivateSends(i: Instance, f: Feature, env: Env)
    requires NeedsStream(f)
    ensures DeactivateStreams(i, f, env).out == i.out + SaidAbout(OwnSends(i, f, false, env), env)
  {
    hide ToggleOffs, Disconnects;
    var ids := StreamsOf(i, f);
    var told := if env.linkUp then i.(out := i.out + ToggleOffs(f, ids)) else i;
    var cleared := if |ids| == 1 || 0 in ids then SetFlag(told, f, Outbound, false) else told;
    assert StreamsOf(cleared, f) == ids;
    hide StreamsOf;
  }

  // Every message a whole toggle adds, and no other; nothing while the link is down.
  lemma ToggleSendsExactly(i: Instance, f: Feature, env: Env)
    ensures Toggle(i, f, env).out == i.out + SaidAbout(ToggleSends(i, f, env), env)
  {
    hide Switch, OwnSends;
    var on := f !in i.outbound;
    var j := Prepare(i, f, env);
    SwitchSendsExactly(j, f, on, env);
    PreparedSends(i, f, env);
    OwnAfterPrepare(i, f, env);
  }

  lemma PreparedSends(i: Instance, f: Feature, env: Env)
    ensures Prepare(i, f, env).out + SaidAbout(OwnSends(i, f, f !in i.outbound, env), env)
         == i.out + SaidAbout(ToggleSends(i, f, env), env)
  {
    hide Switch, OwnSends;
    if f.WindowLink? && f !in i.outbound {
      hide SaidAbout;
      WindowOnSends(i, env);
    } else if WindowLink in i.outbound {
      SwitchSendsExactly(i, WindowLink, false, env);
    }
  }

  lemma WindowOnSends(i: Instance, env: Env)
    requires WindowLink !in i.outbound
    ensures Prepare(i, WindowLink, env).out + SaidAbout(OwnSends(i, WindowLink, true, env), env)
         == i.out + SaidAbout(ToggleSends(i, WindowLink, env), env)
  {
    hide Switch, OwnSends;
    SwitchSendsExactly(i, ScreenLink, false, env);
    var j := if ScreenLink in i.outbound then Switch(i, ScreenLink, Deactivate, env) else i;
    SwitchSendsExactly(j, InputLink, true, env);
    SharedSends(i, j, InputLink, true, env);
    ScreenOffKeepsInput(i, env);
  }

  lemma ScreenOffKeepsInput(i: Instance, env: Env)
    ensures InputLink in Switch(i, ScreenLink, Deactivate, env).outbound <==> InputLink in i.outbound
  {
  }

  lemma SharedSends(i: Instance, j: Instance, f: Feature, on: bool, env: Env)
    requires Shared(f) || (f.WindowLink? && on)
    ensures OwnSends(i, f, on, env) == OwnSends(j, f, on, env)
  {
  }

  // What comes first does not change what is said about f.
  lemma OwnAfterPrepare(i: Instance, f: Feature, env: Env)
    ensures OwnSends(Prepare(i, f, env), f, f !in i.outbound, env) == OwnSends(i, f, f !in i.outbound, env)
  {
    hide Switch, StreamsOf;
    F.PrepareIds(i, f, env);
  }

  // ---- Toggles: streams ----------------------------------------------------------------------

  // The feature whose streams the toggle closes, if it closes any.
  function Closes(i: Instance, f: Feature): Option<Feature> {
    var on := f !in i.outbound;
    if f.WindowLink? && on then (if ScreenLink in i.outbound then Some(ScreenLink) else None)
    else if (f.ScreenLink? && on) || (f.InputLink? && !on) then
      (if WindowLink in i.outbound then Some(WindowLink) else None)
    else if !on && !Shared(f) then Some(f)
    else None
  }

  function EntryAfterToggle(i: Instance, f: Feature, env: Env, id: u16): Option<Entry> {
    if OpensStream(i, f, env) && id == i.nextId then
      (if env.linkUp || id == 0 then Some(Entry(f, Outbound, Pending)) else None)
    else if id in i.streams && Closes(i, f) == Some(i.streams[id].feature) then None
    else EntryOf(i, id)
  }

  lemma SwitchStreams(i: Instance, f: Feature, action: FeatureAction, env: Env, id: u16)
    requires !action.Pause?
    ensures EntryOf(Switch(i, f, action, env), id) ==
              if NeedsStream(f) && action.Activate? then
                if env.slotFree && id == i.nextId then
                  (if env.linkUp || id == 0 then Some(Entry(f, Outbound, Pending)) else None)
                else EntryOf(i, id)
              else if !Shared(f) && action.Deactivate? && id in i.streams && i.streams[id].feature == f then None
              else EntryOf(i, id)
  {
    if NeedsStream(f) && action.Deactivate? {
      DeactivateClosesItsStreams(i, f, env, id);
    }
  }

  lemma DeactivateClosesItsStreams(i: Instance, f: Feature, env: Env, id: u16)
    ensures EntryOf(DeactivateStreams(i, f, env), id) ==
              if id in i.streams && i.streams[id].feature == f then None else EntryOf(i, id)
  {
    hide ToggleOffs, Disconnects;
    var ids := StreamsOf(i, f);
    var told := if env.linkUp then i.(out := i.out + ToggleOffs(f, ids)) else i;
    var cleared := if |ids| == 1 || 0 in ids then SetFlag(told, f, Outbound, false) else told;
    assert StreamsOf(cleared, f) == ids;
  }

  lemma ToggleStreamsExactly(i: Instance, f: Feature, env: Env, id: u16)
    ensures EntryOf(Toggle(i, f, env), id) == EntryAfterToggle(i, f, env, id)
    ensures Toggle(i, f, env).nextId == if OpensStream(i, f, env) then (i.nextId + 2) % 0x1_0000 else i.nextId
  {
    hide Switch;
    var j := Prepare(i, f, env);
    F.PrepareIds(i, f, env);
    SwitchStreams(j, f, TargetAction(i, f), env, id);
    SwitchStreams(i, ScreenLink, Deactivate, env, id);
    SwitchStreams(i, WindowLink, Deactivate, env, id);
    var k := if ScreenLink in i.outbound then Switch(i, ScreenLink, Deactivate, env) else i;
    SwitchStreams(k, InputLink, Activate, env, id);
    SwitchNextId(j, f, TargetAction(i, f), env);
  }

  lemma SwitchNextId(i: Instance, f: Feature, action: FeatureAction, env: Env)
    ensures Switch(i, f, action, env).nextId ==
              if NeedsStream(f) && action.Activate? && env.slotFree then (i.nextId + 2) % 0x1_0000 else i.nextId
  {
  }

  // ---- Toggles: flags ------------------------------------------------------------------------

  // From a consistent state: turning on adds the feature, turning off takes it away. Only turning
  // off a feature with streams, or WindowLink, works without the link; what it excludes goes off
  // in any case.
  function OutboundAfter(i: Instance, f: Feature, env: Env): set<Feature> {
    var on := f !in i.outbound;
    match f
    case ScreenLink =>
      if !on then i.outbound - {ScreenLink}
      else i.outbound - {WindowLink} + if env.slotFree && env.linkUp then {ScreenLink} else {}
    case AudioLink =>
      if !on then i.outbound - {AudioLink}
      else i.outbound + if env.slotFree && env.linkUp then {AudioLink} else {}
    case WindowLink =>
      if !on then i.outbound - {WindowLink}
      else i.outbound - {ScreenLink} + if env.linkUp then {InputLink, WindowLink} else {}
    case InputLink =>
      if !on then i.outbound - {WindowLink} - if env.linkUp then {InputLink} else {}
      else i.outbound + if env.linkUp then {InputLink} else {}
    case ClipboardLink =>
      if !env.linkUp then i.outbound
      else if on then i.outbound + {ClipboardLink} else i.outbound - {ClipboardLink}
  }

  // The other direction only follows for the shared features.
  function InboundAfter(i: Instance, f: Feature, env: Env): set<Feature> {
    if !env.linkUp then i.inbound
    else if Shared(f) then (if f in i.outbound then i.inbound - {f} else i.inbound + {f})
    else if f.WindowLink? && f !in i.outbound && InputLink !in i.outbound then i.inbound + {InputLink}
    else i.inbound
  }

  lemma SwitchFlags(i: Instance, f: Feature, action: FeatureAction, env: Env)
    requires F.Consistent(i) && action == TargetAction(i, f) && (OpensStream(i, f, env) ==> i.nextId != 0)
    ensures var j := Switch(i, f, action, env);
            var works := if action.Activate? then env.linkUp && (NeedsStream(f) ==> env.slotFree)
                         else env.linkUp || !Shared(f);
            && j.outbound == (if !works then i.outbound
                              else if action.Activate? then i.outbound + {f} else i.outbound - {f})
            && j.inbound == (if !works || !Shared(f) then i.inbound
                             else if action.Activate? then i.inbound + {f} else i.inbound - {f})
  {
    hide ActivateStream, DeactivateStreams;
    if NeedsStream(f) {
      if action.Activate? {
        ActivateFlags(i, f, env);
      } else {
        assert F.Carried(i, f);
        DeactivateFlags(i, f, env);
      }
    }
  }

  lemma ActivateFlags(i: Instance, f: Feature, env: Env)
    requires env.slotFree ==> i.nextId != 0
    ensures var j := ActivateStream(i, f, env);
            && j.outbound == (if env.linkUp && env.slotFree then i.outbound + {f} else i.outbound)
            && j.inbound == i.inbound
  {
  }

  // The flag goes off with exactly one stream, or with the one that has no usable identifier.
  lemma DeactivateFlags(i: Instance, f: Feature, env: Env)
    ensures var j, ids := DeactivateStreams(i, f, env), StreamsOf(i, f);
            && j.outbound == (if |ids| == 1 || 0 in ids then i.outbound - {f} else i.outbound)
            && j.inbound == i.inbound
  {
    hide StreamsOf, ToggleOffs, Disconnects;
  }

  lemma ToggleFlagsExactly(i: Instance, f: Feature, env: Env)
    requires F.Consistent(i) && (OpensStream(i, f, env) ==> i.nextId != 0)
    ensures Toggle(i, f, env).outbound == OutboundAfter(i, f, env)
    ensures Toggle(i, f, env).inbound == InboundAfter(i, f, env)
  {
    hide Switch, F.Consistent;
    F.PrepareKeeps(i, f, env);
    F.PrepareIds(i, f, env);
    SwitchFlags(Prepare(i, f, env), f, TargetAction(i, f), env);
    PrepareFlags(i, f, env);
  }

  // What Prepare has done to the flags by then.
  lemma PrepareFlags(i: Instance, f: Feature, env: Env)
    requires F.Consistent(i)
    ensures var j := Prepare(i, f, env);
            && j.outbound == (if f.WindowLink? && f !in i.outbound
                              then i.outbound - {ScreenLink} + if env.linkUp then {InputLink} else {}
                              else if (f.ScreenLink? && f !in i.outbound) || (f.InputLink? && f in i.outbound)
                              then i.outbound - {WindowLink} else i.outbound)
            && j.inbound == (if f.WindowLink? && f !in i.outbound && InputLink !in i.outbound && env.linkUp
                             then i.inbound + {InputLink} else i.inbound)
  {
    hide Switch, F.Consistent;
    if f.WindowLink? && f !in i.outbound {
      WindowOnFlags(i, env);
    } else if WindowLink in i.outbound {
      SwitchFlags(i, WindowLink, Deactivate, env);
    }
  }

  lemma WindowOnFlags(i: Instance, env: Env)
    requires F.Consistent(i) && WindowLink !in i.outbound
    ensures var j := Prepare(i, WindowLink, env);
            && j.outbound == i.outbound - {ScreenLink} + (if env.linkUp then {InputLink} else {})
            && j.inbound == (if InputLink !in i.outbound && env.linkUp then i.inbound + {InputLink} else i.inbound)
  {
    hide Switch, F.Consistent, StreamsOf;
    var j := if ScreenLink in i.outbound then Switch(i, ScreenLink, Deactivate, env) else i;
    if ScreenLink in i.outbound {
      SwitchFlags(i, ScreenLink, Deactivate, env);
      F.DeactivateKeeps(i, ScreenLink, env);
      F.SwitchOff(i, ScreenLink, env);
    }
    if InputLink !in j.outbound {
      SwitchFlags(j, InputLink, Activate, env);
    }
  }

  // ---- Two peers -----------------------------------------------------------------------------

  // After a shared feature was toggled and its message delivered, both peers have it on, or both
  // have it off, in both directions.
  lemma SharedFeaturesAgree(s: System, x: Side, f: Feature, env: Env, env': Env)
    requires Shared(f) && env.linkUp
    ensures var m := FeatureToggle(f, TargetAction(s.At(x).inst, f), 0);
            var told := Next(s, Toggles(x, f, env));
            var heard := Next(told, Delivers(x, m, env'));
            var p, q := heard.At(x).inst, heard.At(x.Other()).inst;
            && Enabled(s, Toggles(x, f, env)) && Enabled(told, Delivers(x, m, env'))
            && (f in p.outbound <==> f !in s.At(x).inst.outbound)
            && (f in p.outbound <==> f in p.inbound)
            && (f in p.outbound <==> f in q.outbound) && (f in p.outbound <==> f in q.inbound)
  {
    var i, j := s.At(x).inst, s.At(x.Other()).inst;
    var m := FeatureToggle(f, TargetAction(i, f), 0);
    ToggleSendsExactly(i, f, env);
    SharedToggleFlags(i, f, env);
    MessageFlagsExactly(j, m, env', f);
    hide Toggle, OnMessage;
    assert m in ToggleSends(i, f, env);
  }

  lemma SharedToggleFlags(i: Instance, f: Feature, env: Env)
    requires Shared(f) && env.linkUp
    ensures var j := Toggle(i, f, env);
            && (f in j.outbound <==> f !in i.outbound) && (f in j.inbound <==> f !in i.outbound)
  {
    hide Prepare;
    F.PlainSwitchKeepsStreams(Prepare(i, f, env), f, TargetAction(i, f), env);
  }

  // Opened, created, connected: with sockets and link up, three messages later both ends of a
  // stream are active, whatever else the two registries hold.
  lemma StreamComesUp(s: System, x: Side, f: Feature, env: Env, env1: Env, env2: Env)
    requires s.At(x).allocs < 0x7FFF
    requires env.slotFree && env.linkUp && env.port != 0
    requires env1.slotFree && env1.connects && env1.linkUp && env2.connects
    ensures var id, y := s.At(x).inst.nextId, x.Other();
            var a := Next(s, Opens(x, f, env));
            var b := Next(a, Delivers(x, Create(id, env.port), env1));
            var c := Next(b, Delivers(y, Connected(id, env1.port), env2));
            && Enabled(s, Opens(x, f, env)) && Enabled(a, Delivers(x, Create(id, env.port), env1))
            && Enabled(b, Delivers(y, Connected(id, env1.port), env2))
            && EntryOf(c.At(x).inst, id) == Some(Entry(f, Outbound, Active))
            && EntryOf(c.At(y).inst, id) == Some(Entry(ScreenLink, Inbound, Active))
  {
    var id, y := s.At(x).inst.nextId, x.Other();
    var i, j := s.At(x).inst, s.At(y).inst;
    RequestExactly(i, f, env, id);
    MessageStreamsExactly(j, Create(id, env.port), env1, id);
    MessageAnswersExactly(j, Create(id, env.port), env1);
    var a := Next(s, Opens(x, f, env));
    var b := Next(a, Delivers(x, Create(id, env.port), env1));
    MessageStreamsExactly(b.At(x).inst, Connected(id, env1.port), env2, id);
    hide Open, OnMessage;
  }

  // A feature that needs a stream comes up on both sides: flag and active stream, outbound here
  // and inbound there, once its three messages and the answer have arrived.
  lemma FeatureComesUp(s: System, x: Side, f: Feature, env: Env, env1: Env, env2: Env, env3: Env)
    requires NeedsStream(f) && f !in s.At(x).inst.outbound && F.Consistent(s.At(x).inst)
    requires s.At(x).allocs < 0x7FFF && s.At(x).inst.nextId != 0
    requires env.slotFree && env.linkUp && env.port != 0
    requires env1.slotFree && env1.connects && env1.linkUp && env3.connects
    ensures var id, y := s.At(x).inst.nextId, x.Other();
            var e1, e2 := Delivers(x, Create(id, env.port), env1), Delivers(x, FeatureToggle(f, Activate, id), env2);
            var e3 := Delivers(y, Connected(id, env1.port), env3);
            var a := Next(s, Toggles(x, f, env));
            var b := Next(a, e1);
            var c := Next(b, e2);
            var end := Next(c, e3);
            && Enabled(s, Toggles(x, f, env)) && Enabled(a, e1) && Enabled(b, e2) && Enabled(c, e3)
            && EntryOf(end.At(x).inst, id) == Some(Entry(f, Outbound, Active)) && f in end.At(x).inst.outbound
            && EntryOf(end.At(y).inst, id) == Some(Entry(f, Inbound, Active)) && f in end.At(y).inst.inbound
  {
    var i, id, y := s.At(x).inst, s.At(x).inst.nextId, x.Other();
    var create, on, up := Create(id, env.port), FeatureToggle(f, Activate, id), Connected(id, env1.port);
    var a := Next(s, Toggles(x, f, env));
    var b := Next(a, Delivers(x, create, env1));
    var c := Next(b, Delivers(x, on, env2));
    var end := Next(c, Delivers(y, up, env3));
    ToggledOn(s, x, f, env);
    PeerHears(a, x, f, id, env.port, env1, env2);
    DeliveryExactly(c, y, up, env3);
    hide Next, OnMessage, F.Consistent;
    MessageStreamsExactly(c.At(x).inst, up, env3, id);
    MessageFlagsExactly(c.At(x).inst, up, env3, f);
  }

  lemma PeerHears(a: System, x: Side, f: Feature, id: u16, port: u16, env1: Env, env2: Env)
    requires NeedsStream(f) && id != 0 && port != 0 && env1.slotFree && env1.connects && env1.linkUp
    requires Create(id, port) in a.At(x).inst.out && FeatureToggle(f, Activate, id) in a.At(x).inst.out
    ensures var y, e2 := x.Other(), Delivers(x, FeatureToggle(f, Activate, id), env2);
            var b := Next(a, Delivers(x, Create(id, port), env1));
            var c := Next(b, e2);
            && Enabled(b, e2) && Connected(id, env1.port) in c.At(y).inst.out
            && EntryOf(c.At(y).inst, id) == Some(Entry(f, Inbound, Active)) && f in c.At(y).inst.inbound
            && EntryOf(c.At(x).inst, id) == EntryOf(a.At(x).inst, id)
            && c.At(x).inst.outbound == a.At(x).inst.outbound
  {
    var y, create, on := x.Other(), Create(id, port), FeatureToggle(f, Activate, id);
    var b := Next(a, Delivers(x, create, env1));
    DeliveryExactly(a, x, create, env1);
    DeliveryExactly(b, x, on, env2);
    CreateHeard(a.At(y).inst, id, port, env1);
    ToggleHeard(b.At(y).inst, f, id, env2);
    hide Next, OnMessage;
    assert on in b.At(x).inst.out;
  }

  lemma CreateHeard(j: Instance, id: u16, port: u16, env: Env)
    requires port != 0 && env.slotFree && env.connects && env.linkUp
    ensures var k := OnMessage(j, Create(id, port), env);
            EntryOf(k, id) == Some(Entry(ScreenLink, Inbound, Active)) && Connected(id, env.port) in k.out
  {
  }

  lemma ToggleHeard(j: Instance, f: Feature, id: u16, env: Env)
    requires NeedsStream(f) && id != 0 && EntryOf(j, id) == Some(Entry(ScreenLink, Inbound, Active))
    ensures var k := OnMessage(j, FeatureToggle(f, Activate, id), env);
            EntryOf(k, id) == Some(Entry(f, Inbound, Active)) && f in k.inbound && k.out == j.out
  {
  }

  lemma ToggledOn(s: System, x: Side, f: Feature, env: Env)
    requires NeedsStream(f) && f !in s.At(x).inst.outbound && F.Consistent(s.At(x).inst)
    requires s.At(x).inst.nextId != 0 && env.slotFree && env.linkUp
    ensures var i, id, t := s.At(x).inst, s.At(x).inst.nextId, Next(s, Toggles(x, f, env));
            && EntryOf(t.At(x).inst, id) == Some(Entry(f, Outbound, Pending)) && f in t.At(x).inst.outbound
            && Create(id, env.port) in t.At(x).inst.out && FeatureToggle(f, Activate, id) in t.At(x).inst.out
            && t.At(x.Other()) == s.At(x.Other())
  {
    var i, id := s.At(x).inst, s.At(x).inst.nextId;
    hide Toggle, F.Consistent;
    ToggleStreamsExactly(i, f, env, id);
    ToggleSendsExactly(i, f, env);
    ToggleFlagsExactly(i, f, env);
    assert Create(id, env.port) in OwnSends(i, f, true, env);
    assert FeatureToggle(f, Activate, id) in OwnSends(i, f, true, env);
  }

  lemma DeliveryExactly(s: System, x: Side, m: Message, env: Env)
    ensures var t := Next(s, Delivers(x, m, env));
            && t.At(x).inst == s.At(x).inst.(out := s.At(x).inst.out - multiset{m})
            && t.At(x.Other()).inst == OnMessage(s.At(x.Other()).inst, m, env)
  {
    hide OnMessage;
  }

  // A first stream from the activation of the pair on, as a run.
  lemma FirstStreamComesUp(x: Side, f: Feature, env: Env, env1: Env, env2: Env)
    requires env.slotFree && env.linkUp && env.port != 0
    requires env1.slotFree && env1.connects && env1.linkUp && env2.connects
    ensures var id, y := x.Start(), x.Other();
            var run := [Opens(x, f, env), Delivers(x, Create(id, env.port), env1),
                        Delivers(y, Connected(id, env1.port), env2)];
            var end := Exec(Start(), run);
            && Valid(Start(), run)
            && EntryOf(end.At(x).inst, id) == Some(Entry(f, Outbound, Active))
            && EntryOf(end.At(y).inst, id) == Some(Entry(ScreenLink, Inbound, Active))
  {
    var id, y := x.Start(), x.Other();
    var e1, e2 := Opens(x, f, env), Delivers(x, Create(id, env.port), env1);
    var e3 := Delivers(y, Connected(id, env1.port), env2);
    StreamComesUp(Start(), x, f, env, env1, env2);
    ThreeSteps(Start(), e1, e2, e3);
  }

  lemma ThreeSteps(s: System, e1: Event, e2: Event, e3: Event)
    ensures Exec(s, [e1, e2, e3]) == Next(Next(Next(s, e1), e2), e3)
    ensures Valid(s, [e1, e2, e3]) <==>
              Enabled(s, e1) && Enabled(Next(s, e1), e2) && Enabled(Next(Next(s, e1), e2), e3)
  {
    hide Next, Enabled;
    var r1, r2, r3 := [e1], [e1, e2], [e1, e2, e3];
    assert r3[..2] == r2 && r2[..1] == r1 && r1[..0] == [];
    assert Exec(s, []) == s && Valid(s, []) && r1[..|r1| - 1] == [];
    assert Exec(s, r1) == Next(s, e1) && (Valid(s, r1) <==> Enabled(s, e1));
    assert Exec(s, r2) == Next(Exec(s, r1), e2) && (Valid(s, r2) <==> Valid(s, r1) && Enabled(Exec(s, r1), e2));
  }
}
