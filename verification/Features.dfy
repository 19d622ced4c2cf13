/** Which features can be on together: over every sequence of toggles and window drags on one
    device, with the link up or down, the exact condition under which the flags and the
    registered streams stay consistent. */
module Features {
  import opened Types
  import opened SubStreams

  // ScreenLink and WindowLink exclude each other, WindowLink needs InputLink, and a feature
  // that needs a stream is on exactly when exactly one stream carries it.
  predicate Consistent(i: Instance) {
    && !(ScreenLink in i.outbound && WindowLink in i.outbound)
    && (WindowLink in i.outbound ==> InputLink in i.outbound)
    && Carried(i, ScreenLink) && Carried(i, AudioLink)
  }

  predicate Carried(i: Instance, f: Feature) {
    |StreamsOf(i, f)| == if f in i.outbound then 1 else 0
  }

  datatype LocalEvent =
    | UserToggles(feature: Feature, env: Env)
    | WindowDragged(env: Env)                            // RequestSubStream
    | WindowReleased(id: u16, notify: bool, env: Env)    // ReleaseSubStream

  predicate Possible(i: Instance, e: LocalEvent) {
    e.WindowReleased? && e.id in i.streams ==> i.streams[e.id].feature.WindowLink?
  }

  function Apply(i: Instance, e: LocalEvent): Instance {
    match e
    case UserToggles(f, env) => Toggle(i, f, env)
    case WindowDragged(env) => Open(i, WindowLink, env)
    case WindowReleased(id, notify, env) => Close(i, id, notify, env)
  }

  // The next identifier is in use by a ScreenLink or AudioLink stream.
  predicate NextIdTaken(i: Instance) {
    i.nextId in i.streams && NeedsStream(i.streams[i.nextId].feature)
  }

  // The event opens a stream, and the identifier it gets is the 0 that reads as a failure, or
  // belongs to a stream whose feature is still on.
  predicate Collides(i: Instance, e: LocalEvent) {
    match e
    case UserToggles(f, env) =>
      NeedsStream(f) && f !in i.outbound && env.slotFree && (i.nextId == 0 || NextIdTaken(i))
    case WindowDragged(env) => env.slotFree && NextIdTaken(i)
    case WindowReleased(_, _, _) => false
  }

  // ---- Counting streams ----------------------------------------------------------------

  lemma RegisteredStreams(i: Instance, id: u16, e: Entry, f: Feature)
    ensures StreamsOf(Register(i, id, e), f)
         == if e.feature == f then StreamsOf(i, f) + {id} else StreamsOf(i, f) - {id}
  {
  }

  lemma CountAround(s: set<u16>, x: u16)
    ensures |s + {x}| == if x in s then |s| else |s| + 1
    ensures |s - {x}| == if x in s then |s| - 1 else |s|
  {
    if x in s {
      assert s + {x} == s;
    } else {
      assert s - {x} == s;
    }
  }

  lemma UnregisteredStreams(i: Instance, ids: set<u16>, f: Feature)
    ensures StreamsOf(Unregister(i, ids), f) == StreamsOf(i, f) - ids
  {
  }

  // ---- One event -------------------------------------------------------------------------

  // Closing every stream of one feature leaves every other feature's streams alone.
  lemma CloseAllCounts(i: Instance, f: Feature, env: Env)
    ensures StreamsOf(CloseAll(i, f, env), f) == {}
    ensures forall g :: g != f ==> StreamsOf(CloseAll(i, f, env), g) == StreamsOf(i, g)
    ensures CloseAll(i, f, env).outbound == i.outbound && CloseAll(i, f, env).nextId == i.nextId
  {
  }

  lemma DeactivateKeeps(i: Instance, f: Feature, env: Env)
    requires Consistent(i) && NeedsStream(f) && f in i.outbound
    ensures var j := DeactivateStreams(i, f, env);
            && Consistent(j) && j.outbound == i.outbound - {f} && j.nextId == i.nextId
            && StreamsOf(j, f) == {} && forall g :: g != f ==> StreamsOf(j, g) == StreamsOf(i, g)
  {
    var ids := StreamsOf(i, f);
    var told := if env.linkUp then i.(out := i.out + ToggleOffs(f, ids)) else i;
    var cleared := SetFlag(told, f, Outbound, false);
    assert forall g :: StreamsOf(cleared, g) == StreamsOf(i, g);
    CloseAllCounts(cleared, f, env);
  }

  lemma WindowOffKeeps(i: Instance, env: Env)
    requires Consistent(i)
    ensures var j := Switch(i, WindowLink, Deactivate, env);
            && Consistent(j) && j.outbound == i.outbound - {WindowLink} && j.nextId == i.nextId
            && forall g :: g != WindowLink ==> StreamsOf(j, g) == StreamsOf(i, g)
  {
    CloseAllCounts(i, WindowLink, env);
    var closed := CloseAll(i, WindowLink, env);
    var j := Switch(i, WindowLink, Deactivate, env);
    assert forall g :: StreamsOf(j, g) == StreamsOf(closed, g);
  }

  // Which streams of either kind there are after a feature was turned on.
  lemma ActivateCounts(i: Instance, f: Feature, g: Feature, env: Env)
    requires env.slotFree
    ensures var j := ActivateStream(i, f, env);
            && StreamsOf(j, g) == (if f == g && (i.nextId == 0 || env.linkUp)
                                   then StreamsOf(i, g) + {i.nextId} else StreamsOf(i, g) - {i.nextId})
            && j.outbound == if i.nextId != 0 && env.linkUp then i.outbound + {f} else i.outbound
  {
    var e := Entry(f, Outbound, Pending);
    var open, j := Open(i, f, env), ActivateStream(i, f, env);
    RegisteredStreams(i, i.nextId, e, g);
    assert StreamsOf(open, g) == StreamsOf(Register(i, i.nextId, e), g);
    if i.nextId != 0 && !env.linkUp {
      UnregisteredStreams(open, {i.nextId}, g);
    } else {
      assert StreamsOf(j, g) == StreamsOf(open, g);
    }
  }

  // Turning on a feature that needs a stream works exactly when the identifier is usable.
  lemma ActivateExactly(i: Instance, f: Feature, env: Env)
    requires Consistent(i) && NeedsStream(f) && f !in i.outbound
    requires f.ScreenLink? ==> WindowLink !in i.outbound
    ensures Consistent(ActivateStream(i, f, env))
            <==> !(env.slotFree && (i.nextId == 0 || NextIdTaken(i)))
  {
    if env.slotFree {
      hide ActivateStream, StreamsOf, NextIdTaken;
      ActivateCounts(i, f, ScreenLink, env);
      ActivateCounts(i, f, AudioLink, env);
      CountAround(StreamsOf(i, ScreenLink), i.nextId);
      CountAround(StreamsOf(i, AudioLink), i.nextId);
      NextIdTakenBy(i);
      assert StreamsOf(i, f) == {};
    }
  }

  // Toggling InputLink or ClipboardLink touches no stream.
  lemma PlainSwitchKeepsStreams(i: Instance, f: Feature, action: FeatureAction, env: Env)
    requires f.InputLink? || f.ClipboardLink?
    ensures var j := Switch(i, f, action, env);
            && j.streams == i.streams && j.nextId == i.nextId
            && j.outbound == if !env.linkUp then i.outbound
                             else if action.Activate? then i.outbound + {f} else i.outbound - {f}
  {
  }

  // What Prepare does for WindowLink, ScreenLink out of the way and InputLink on.
  lemma WindowOnKeeps(i: Instance, env: Env)
    requires Consistent(i) && WindowLink !in i.outbound
    ensures var j := Prepare(i, WindowLink, env);
            && Consistent(j) && WindowLink !in j.outbound && ScreenLink !in j.outbound
            && (env.linkUp ==> InputLink in j.outbound)
  {
    hide Switch, DeactivateStreams;
    var k := if ScreenLink in i.outbound then Switch(i, ScreenLink, Deactivate, env) else i;
    if ScreenLink in i.outbound {
      DeactivateKeeps(i, ScreenLink, env);
      SwitchOff(i, ScreenLink, env);
    }
    PlainSwitchKeepsStreams(k, InputLink, Activate, env);
    var j := Prepare(i, WindowLink, env);
    assert forall g :: StreamsOf(j, g) == StreamsOf(k, g);
  }

  lemma SwitchOff(i: Instance, f: Feature, env: Env)
    requires NeedsStream(f)
    ensures Switch(i, f, Deactivate, env) == DeactivateStreams(i, f, env)
  {
  }

  lemma PrepareKeeps(i: Instance, f: Feature, env: Env)
    requires Consistent(i)
    ensures var j := Prepare(i, f, env);
            f.WindowLink? || (j.nextId == i.nextId && NextIdTaken(j) == NextIdTaken(i))
    ensures var j := Prepare(i, f, env);
            && Consistent(j)
            && (f in j.outbound <==> f in i.outbound)
            && (f.ScreenLink? && f !in i.outbound ==> WindowLink !in j.outbound)
            && (f.InputLink? && f in i.outbound ==> WindowLink !in j.outbound)
            && (f.WindowLink? && f !in i.outbound ==>
                  ScreenLink !in j.outbound && (env.linkUp ==> InputLink in j.outbound))
  {
    if f.WindowLink? && WindowLink !in i.outbound {
      hide Prepare, Consistent;
      WindowOnKeeps(i, env);
    } else if WindowLink in i.outbound {
      hide Switch, Consistent, StreamsOf, NextIdTaken;
      WindowOffKeeps(i, env);
      var j := Prepare(i, f, env);
      NextIdTakenBy(i);
      NextIdTakenBy(j);
    }
  }

  // One event keeps the flags and the streams consistent exactly when it does not collide.
  lemma ConsistentExactly(i: Instance, e: LocalEvent)
    requires Consistent(i) && Possible(i, e)
    ensures Consistent(Apply(i, e)) <==> !Collides(i, e)
  {
    hide Toggle, Consistent, NextIdTaken;
    match e
    case UserToggles(f, env) => ToggleExactly(i, f, env);
    case WindowDragged(env) => DragExactly(i, env);
    case WindowReleased(id, notify, env) => ReleaseKeeps(i, id, notify, env);
  }

  lemma DragCounts(i: Instance, g: Feature, env: Env)
    requires env.slotFree && NeedsStream(g)
    ensures StreamsOf(Open(i, WindowLink, env), g) == StreamsOf(i, g) - {i.nextId}
    ensures Open(i, WindowLink, env).outbound == i.outbound
  {
    var entry := Entry(WindowLink, Outbound, Pending);
    RegisteredStreams(i, i.nextId, entry, g);
    assert StreamsOf(Open(i, WindowLink, env), g) == StreamsOf(Register(i, i.nextId, entry), g);
  }

  lemma NextIdTakenBy(i: Instance)
    ensures NextIdTaken(i) <==> i.nextId in StreamsOf(i, ScreenLink) || i.nextId in StreamsOf(i, AudioLink)
  {
  }

  lemma DragExactly(i: Instance, env: Env)
    requires Consistent(i)
    ensures Consistent(Open(i, WindowLink, env)) <==> !(env.slotFree && NextIdTaken(i))
  {
    if env.slotFree {
      hide StreamsOf, Open, NextIdTaken;
      DragCounts(i, ScreenLink, env);
      DragCounts(i, AudioLink, env);
      CountAround(StreamsOf(i, ScreenLink), i.nextId);
      CountAround(StreamsOf(i, AudioLink), i.nextId);
      NextIdTakenBy(i);
    }
  }

  lemma ReleaseKeeps(i: Instance, id: u16, notify: bool, env: Env)
    requires Consistent(i) && (id in i.streams ==> i.streams[id].feature.WindowLink?)
    ensures Consistent(Close(i, id, notify, env))
  {
    var j := Close(i, id, notify, env);
    assert StreamsOf(j, ScreenLink) == StreamsOf(i, ScreenLink);
    assert StreamsOf(j, AudioLink) == StreamsOf(i, AudioLink);
  }

  lemma SwitchExactly(i: Instance, f: Feature, action: FeatureAction, env: Env)
    requires Consistent(i) && action == TargetAction(i, f)
    requires f.ScreenLink? && action.Activate? ==> WindowLink !in i.outbound
    requires f.InputLink? && action.Deactivate? ==> WindowLink !in i.outbound
    requires f.WindowLink? && action.Activate? ==>
               ScreenLink !in i.outbound && (env.linkUp ==> InputLink in i.outbound)
    ensures Consistent(Switch(i, f, action, env))
            <==> !(NeedsStream(f) && action.Activate? && env.slotFree && (i.nextId == 0 || NextIdTaken(i)))
  {
    if NeedsStream(f) {
      hide ActivateStream, DeactivateStreams, Consistent, StreamsOf, NextIdTaken;
      if action.Activate? {
        ActivateExactly(i, f, env);
      } else {
        DeactivateKeeps(i, f, env);
      }
    } else if f.WindowLink? {
      hide Switch, Consistent;
      if action.Activate? {
        WindowTurnsOn(i, env);
      } else {
        WindowOffKeeps(i, env);
      }
    } else {
      hide Switch, Consistent;
      PlainSwitchKeeps(i, f, action, env);
    }
  }

  lemma WindowTurnsOn(i: Instance, env: Env)
    requires Consistent(i) && ScreenLink !in i.outbound && (env.linkUp ==> InputLink in i.outbound)
    ensures Consistent(Switch(i, WindowLink, Activate, env))
  {
    var j := Switch(i, WindowLink, Activate, env);
    assert StreamsOf(j, ScreenLink) == StreamsOf(i, ScreenLink);
    assert StreamsOf(j, AudioLink) == StreamsOf(i, AudioLink);
  }

  lemma PlainSwitchKeeps(i: Instance, f: Feature, action: FeatureAction, env: Env)
    requires Consistent(i) && (f.InputLink? || f.ClipboardLink?)
    requires f.InputLink? && !action.Activate? ==> WindowLink !in i.outbound
    ensures Consistent(Switch(i, f, action, env))
  {
    var j := Switch(i, f, action, env);
    PlainSwitchKeepsStreams(i, f, action, env);
    hide Switch;
    assert StreamsOf(j, ScreenLink) == StreamsOf(i, ScreenLink);
    assert StreamsOf(j, AudioLink) == StreamsOf(i, AudioLink);
  }

  lemma ToggleExactly(i: Instance, f: Feature, env: Env)
    requires Consistent(i)
    ensures Consistent(Toggle(i, f, env)) <==> !Collides(i, UserToggles(f, env))
  {
    hide Prepare, Switch, Consistent, NextIdTaken;
    PrepareKeeps(i, f, env);
    SwitchExactly(Prepare(i, f, env), f, TargetAction(i, f), env);
  }

  // ---- Runs ------------------------------------------------------------------------------

  function ApplyAll(i: Instance, es: seq<LocalEvent>): Instance {
    if es == [] then i else Apply(ApplyAll(i, es[..|es| - 1]), es[|es| - 1])
  }

  predicate AllPossible(i: Instance, es: seq<LocalEvent>) {
    es != [] ==>
      AllPossible(i, es[..|es| - 1]) && Possible(ApplyAll(i, es[..|es| - 1]), es[|es| - 1])
  }

  predicate NeverCollides(i: Instance, es: seq<LocalEvent>) {
    es != [] ==>
      NeverCollides(i, es[..|es| - 1]) && !Collides(ApplyAll(i, es[..|es| - 1]), es[|es| - 1])
  }

  predicate ConsistentThroughout(i: Instance, es: seq<LocalEvent>) {
    Consistent(ApplyAll(i, es)) && (es != [] ==> ConsistentThroughout(i, es[..|es| - 1]))
  }

  lemma {:induction false} ConsistentRunsExactly(i: Instance, es: seq<LocalEvent>)
    requires Consistent(i) && AllPossible(i, es)
    ensures ConsistentThroughout(i, es) <==> NeverCollides(i, es)
  {
    hide Apply, Collides, Consistent, Possible;
    if es != [] {
      var front, e := es[..|es| - 1], es[|es| - 1];
      ConsistentRunsExactly(i, front);
      if Consistent(ApplyAll(i, front)) {
        ConsistentExactly(ApplyAll(i, front), e);
      }
    }
  }

  // ---- From activation on ------------------------------------------------------------------

  function Activated(start: u16): Instance { Instance(map[], start, {}, {}, multiset{}) }

  // How many identifiers the events allocate.
  function Allocations(i: Instance, es: seq<LocalEvent>): nat {
    if es == [] then 0
    else Allocations(i, es[..|es| - 1]) + Allocates(ApplyAll(i, es[..|es| - 1]), es[|es| - 1])
  }

  function Allocates(i: Instance, e: LocalEvent): nat {
    match e
    case UserToggles(f, env) => if OpensStream(i, f, env) then 1 else 0
    case WindowDragged(env) => if env.slotFree then 1 else 0
    case WindowReleased(_, _, _) => 0
  }

  // After n allocations every registered identifier is one of the first n.
  predicate IdsBelow(i: Instance, start: u16, n: nat) {
    && i.nextId == (start + 2 * n) % 0x1_0000
    && forall id :: id in i.streams ==> start <= id < start + 2 * n
  }

  lemma SwitchIds(i: Instance, f: Feature, action: FeatureAction, env: Env)
    requires !(NeedsStream(f) && action.Activate?)
    ensures var j := Switch(i, f, action, env); j.streams.Keys <= i.streams.Keys && j.nextId == i.nextId
  {
  }

  lemma PrepareIds(i: Instance, f: Feature, env: Env)
    ensures var j := Prepare(i, f, env); j.streams.Keys <= i.streams.Keys && j.nextId == i.nextId
  {
    hide Switch;
    if f.WindowLink? && WindowLink !in i.outbound {
      SwitchIds(i, ScreenLink, Deactivate, env);
      SwitchIds(Switch(i, ScreenLink, Deactivate, env), InputLink, Activate, env);
      SwitchIds(i, InputLink, Activate, env);
    } else {
      SwitchIds(i, WindowLink, Deactivate, env);
    }
  }

  lemma IdsStep(i: Instance, j: Instance, start: u16, n: nat, one: bool)
    requires IdsBelow(i, start, n) && start + 2 * n < 0x1_0000
    requires j.nextId == if one then FollowingId(i.nextId) else i.nextId
    requires j.streams.Keys <= if one then i.streams.Keys + {i.nextId} else i.streams.Keys
    ensures IdsBelow(j, start, n + if one then 1 else 0)
  {
    assert i.nextId == start + 2 * n;
    forall id | id in j.streams ensures start <= id < start + 2 * n + if one then 2 else 0 {
      assert id in i.streams.Keys || id == i.nextId;
    }
  }

  lemma ApplyIds(i: Instance, e: LocalEvent, start: u16, n: nat)
    requires IdsBelow(i, start, n) && start + 2 * n < 0x1_0000
    ensures IdsBelow(Apply(i, e), start, n + Allocates(i, e))
  {
    hide IdsBelow, FollowingId;
    if e.UserToggles? {
      hide Prepare;
      PrepareIds(i, e.feature, e.env);
      var j := Prepare(i, e.feature, e.env);
      if !(NeedsStream(e.feature) && TargetAction(i, e.feature).Activate?) {
        SwitchIds(j, e.feature, TargetAction(i, e.feature), e.env);
      }
    }
    IdsStep(i, Apply(i, e), start, n, Allocates(i, e) == 1);
  }

  // With fewer allocations than there are identifiers of the side's parity (32767 for the even
  // side, 32768 for the odd one) no sequence of events ever breaks the flags.
  lemma {:induction false} ConsistentFromActivation(start: u16, es: seq<LocalEvent>)
    requires start == 1 || start == 2
    requires AllPossible(Activated(start), es)
    requires es != [] ==> start + 2 * Allocations(Activated(start), es[..|es| - 1]) < 0x1_0000
    ensures ConsistentThroughout(Activated(start), es)
    ensures IdsBelow(ApplyAll(Activated(start), es), start, Allocations(Activated(start), es))
  {
    hide Apply, Collides, Consistent, Possible, Allocates;
    var i := Activated(start);
    if es == [] {
      FreshIsConsistent(start);
    } else {
      var front, e := es[..|es| - 1], es[|es| - 1];
      var n := Allocations(i, front);
      ConsistentFromActivation(start, front);
      var before := ApplyAll(i, front);
      ConsistentExactly(before, e);
      FreeIdDoesNotCollide(before, e, start, n);
      ApplyIds(before, e, start, n);
    }
  }

  lemma FreshIsConsistent(start: u16)
    ensures Consistent(Activated(start))
  {
    assert StreamsOf(Activated(start), ScreenLink) == {} == StreamsOf(Activated(start), AudioLink);
  }

  lemma FreeIdDoesNotCollide(i: Instance, e: LocalEvent, start: u16, n: nat)
    requires start != 0 && IdsBelow(i, start, n) && start + 2 * n < 0x1_0000
    ensures !Collides(i, e)
  {
  }

  // ---- The peer's word ---------------------------------------------------------------------

  // A toggle from the peer without a stream keeps the outbound side consistent, except that it
  // can take InputLink away from under an active WindowLink.
  lemma PeerToggleExactly(i: Instance, f: Feature, action: FeatureAction, env: Env)
    requires Consistent(i)
    ensures Consistent(OnFeatureToggle(i, f, action, 0, env))
            <==> !(f.InputLink? && !action.Activate? && WindowLink in i.outbound)
  {
    var j := OnFeatureToggle(i, f, action, 0, env);
    assert StreamsOf(j, ScreenLink) == StreamsOf(i, ScreenLink);
    assert StreamsOf(j, AudioLink) == StreamsOf(i, AudioLink);
  }
}
