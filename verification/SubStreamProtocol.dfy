/** Sub-stream negotiation between two peers over a network that loses and reorders messages
    but does not duplicate them, within one activation of the pair. */
module SubStreamProtocol {
  import opened Types
  import opened SubStreams

  // ---- Identifier arithmetic -------------------------------------------------------------

  // The identifier the allocator hands out after n earlier allocations.
  function NthId(start: u16, n: nat): u16 { if n == 0 then start else FollowingId(NthId(start, n - 1)) }

  lemma WrapsOnce(a: nat)
    ensures (a % 0x1_0000 + 2) % 0x1_0000 == (a + 2) % 0x1_0000
  {
  }

  lemma WrapsAround(a: nat, q: nat)
    ensures (a + 0x1_0000 * q) % 0x1_0000 == a % 0x1_0000
  {
  }

  lemma {:induction false} NthIdClosed(start: u16, n: nat)
    ensures NthId(start, n) == (start + 2 * n) % 0x1_0000
  {
    if n > 0 {
      NthIdClosed(start, n - 1);
      WrapsOnce(start + 2 * (n - 1));
    }
  }

  // Only n modulo 32768 matters, and adding twice that wraps around at most once.
  lemma NthIdReduced(start: u16, n: nat)
    ensures var sum := start + 2 * (n % 0x8000);
            NthId(start, n) == if sum < 0x1_0000 then sum else sum - 0x1_0000
  {
    hide NthId;
    NthIdClosed(start, n);
    var q, r := n / 0x8000, n % 0x8000;
    WrapsAround(start + 2 * r, q);
    assert start + 2 * n == (start + 2 * r) + 0x1_0000 * q;
    SmallSum(start + 2 * r);
  }

  lemma SmallSum(a: nat)
    requires a < 0x2_0000
    ensures a % 0x1_0000 == if a < 0x1_0000 then a else a - 0x1_0000
  {
  }

  // A side repeats an identifier exactly every 32768 allocations.
  lemma RepeatsExactly(start: u16, n: nat, m: nat)
    ensures NthId(start, n) == NthId(start, m) <==> n % 0x8000 == m % 0x8000
  {
    NthIdReduced(start, n);
    NthIdReduced(start, m);
  }

  // The two sides never collide, whatever they allocated and however often they wrapped around.
  lemma SidesNeverCollide(n: nat, m: nat)
    ensures NthId(1, n) != NthId(2, m)
  {
    NthIdClosed(1, n);
    NthIdClosed(2, m);
  }

  // Odd identifiers are never the invalid 0; even ones are 0 exactly at the last allocation
  // before each wrap-around.
  lemma {:induction false} InvalidIdExactly(start: u16, n: nat)
    requires start == 1 || start == 2
    ensures NthId(start, n) == 0 <==> start == 2 && n % 0x8000 == 0x7FFF
  {
    NthIdReduced(start, n);
  }

  // ---- Two peers -------------------------------------------------------------------------

  datatype Side = Odd | Even {
    function Other(): Side { if Odd? then Even else Odd }
    function Start(): u16 { if Odd? then 1 else 2 }
  }

  // allocs counts the identifiers allocated; handled are the identifiers whose Create was
  // delivered here, answered those of them for which Connected was sent back.
  datatype Peer = Peer(inst: Instance, allocs: nat, handled: set<u16>, answered: set<u16>)

  datatype System = System(odd: Peer, even: Peer) {
    function At(x: Side): Peer { if x.Odd? then odd else even }

    function With(x: Side, p: Peer): System {
      if x.Odd? then this.(odd := p) else this.(even := p)
    }
  }

  datatype Event =
    | Toggles(side: Side, feature: Feature, env: Env)              // ToggleFeature, a whole call
    | Opens(side: Side, feature: Feature, env: Env)                // RequestSubStream
    | Closes(side: Side, id: u16, notify: bool, env: Env)          // ReleaseSubStream
    | ClosesAll(side: Side, feature: Feature, env: Env)            // CloseSubStreams
    | Delivers(side: Side, message: Message, env: Env)   // sent by side, handled by the other
    | Loses(side: Side, message: Message)

  predicate Enabled(s: System, e: Event) {
    match e
    case Toggles(x, f, env) => OpensStream(s.At(x).inst, f, env) ==> s.At(x).allocs < 0x7FFF
    case Opens(x, _, env) => env.slotFree ==> s.At(x).allocs < 0x7FFF
    case Closes(_, _, _, _) => true
    case ClosesAll(_, _, _) => true
    case Delivers(x, m, _) => m in s.At(x).inst.out
    case Loses(x, m) => m in s.At(x).inst.out
  }

  function Drop(p: Peer, m: Message): Peer { p.(inst := p.inst.(out := p.inst.out - multiset{m})) }

  function Handle(p: Peer, m: Message, env: Env): Peer {
    var q := p.(inst := OnMessage(p.inst, m, env));
    if !m.Create? then q
    else
      q.(handled := p.handled + {m.id},
         answered := if env.slotFree && m.port != 0 && env.connects && env.linkUp then p.answered + {m.id}
                     else p.answered)
  }

  function Allocated(p: Peer, i: Instance, one: bool): Peer {
    p.(inst := i, allocs := p.allocs + if one then 1 else 0)
  }

  function Next(s: System, e: Event): System {
    match e
    case Toggles(x, f, env) =>
      var p := s.At(x);
      s.With(x, Allocated(p, Toggle(p.inst, f, env), OpensStream(p.inst, f, env)))
    case Opens(x, f, env) => s.With(x, Allocated(s.At(x), Open(s.At(x).inst, f, env), env.slotFree))
    case Closes(x, id, notify, env) => s.With(x, s.At(x).(inst := Close(s.At(x).inst, id, notify, env)))
    case ClosesAll(x, f, env) => s.With(x, s.At(x).(inst := CloseAll(s.At(x).inst, f, env)))
    case Delivers(x, m, env) =>
      s.With(x, Drop(s.At(x), m)).With(x.Other(), Handle(s.At(x.Other()), m, env))
    case Loses(x, m) => s.With(x, Drop(s.At(x), m))
  }

  // ---- Invariant -------------------------------------------------------------------------

  // One of the first n identifiers of a side.
  predicate Own(x: Side, n: nat, id: u16) {
    id % 2 == x.Start() % 2 && x.Start() <= id < x.Start() + 2 * n
  }

  predicate EntryOk(x: Side, p: Peer, q: Peer, id: u16, e: Entry) {
    if e.route.Outbound? then Own(x, p.allocs, id) && (e.state.Active? ==> id in q.answered)
    else Own(x.Other(), q.allocs, id) && id in p.handled
  }

  predicate MessageOk(x: Side, p: Peer, q: Peer, m: Message) {
    match m
    case Create(id, _) => Own(x, p.allocs, id) && id !in q.handled && p.inst.out[m] == 1
    case Connected(id, _) => id in p.answered
    case Disconnect(_) => true
    case FeatureToggle(_, action, id) => action.Activate? && id != 0 ==> Own(x, p.allocs, id)
  }

  ghost predicate PeerOk(x: Side, p: Peer, q: Peer) {
    && p.allocs <= 0x7FFF
    && p.inst.nextId == (x.Start() + 2 * p.allocs) % 0x1_0000
    && p.answered <= p.handled
    && (forall id :: id in p.handled ==> Own(x.Other(), q.allocs, id))
    && (forall id :: id in p.inst.streams ==> EntryOk(x, p, q, id, p.inst.streams[id]))
    && (forall m :: m in p.inst.out ==> MessageOk(x, p, q, m))
    && (forall id, a, b :: Create(id, a) in p.inst.out && Create(id, b) in p.inst.out ==> a == b)
  }

  ghost predicate Safe(s: System) {
    PeerOk(Odd, s.odd, s.even) && PeerOk(Even, s.even, s.odd)
  }

  // ---- Steps -----------------------------------------------------------------------------

  // More allocations, handled and answered identifiers on the other side invalidate nothing.
  lemma OtherSideGrows(x: Side, p: Peer, q: Peer, q': Peer)
    requires PeerOk(x, p, q)
    requires q.allocs <= q'.allocs && q.answered <= q'.answered
    requires forall id, a :: Create(id, a) in p.inst.out ==> id !in q'.handled
    ensures PeerOk(x, p, q')
  {
  }

  lemma NextIdIsFree(x: Side, p: Peer, q: Peer)
    requires PeerOk(x, p, q) && p.allocs < 0x7FFF
    ensures var id := p.inst.nextId;
            && id == x.Start() + 2 * p.allocs && !Own(x, p.allocs, id) && Own(x, p.allocs + 1, id)
            && id !in p.inst.streams && id != 0 && (forall a :: Create(id, a) !in p.inst.out)
  {
  }

  lemma OpenedPeerOk(x: Side, p: Peer, q: Peer, f: Feature, env: Env)
    requires PeerOk(x, p, q) && PeerOk(x.Other(), q, p) && env.slotFree && p.allocs < 0x7FFF
    ensures PeerOk(x, Allocated(p, Open(p.inst, f, env), true), q)
  {
    var p' := Allocated(p, Open(p.inst, f, env), true);
    NextIdIsFree(x, p, q);
    OwnIdIsUnhandled(x, p, q);
    OwnGrows(x, p.allocs);
    NextIdFollows(x, p, q);
    hide Own, FollowingId, MessageOk;
    forall m | m in p'.inst.out ensures MessageOk(x, p', q, m) {
      OpenedMessageOk(x, p, q, f, env, m);
    }
    forall id | id in p'.inst.streams ensures EntryOk(x, p', q, id, p'.inst.streams[id]) {
      assert id != p.inst.nextId ==> EntryOk(x, p, q, id, p.inst.streams[id]);
    }
    hide EntryOk;
    forall id, a, b | Create(id, a) in p'.inst.out && Create(id, b) in p'.inst.out ensures a == b {
      assert id != p.inst.nextId ==> Create(id, a) in p.inst.out && Create(id, b) in p.inst.out;
    }
  }

  lemma OpenedMessageOk(x: Side, p: Peer, q: Peer, f: Feature, env: Env, m: Message)
    requires PeerOk(x, p, q) && PeerOk(x.Other(), q, p) && env.slotFree && p.allocs < 0x7FFF
    requires m in Open(p.inst, f, env).out
    ensures MessageOk(x, Allocated(p, Open(p.inst, f, env), true), q, m)
  {
    NextIdIsFree(x, p, q);
    OwnIdIsUnhandled(x, p, q);
    OwnGrows(x, p.allocs);
    hide Own, FollowingId;
    if m in p.inst.out {
      assert MessageOk(x, p, q, m);
    }
  }

  lemma OwnGrows(x: Side, n: nat)
    ensures forall id :: Own(x, n, id) ==> Own(x, n + 1, id)
  {
  }

  lemma NextIdFollows(x: Side, p: Peer, q: Peer)
    requires PeerOk(x, p, q) && p.allocs < 0x7FFF
    ensures FollowingId(p.inst.nextId) == (x.Start() + 2 * (p.allocs + 1)) % 0x1_0000
  {
    NextIdIsFree(x, p, q);
  }

  lemma OwnIdIsUnhandled(x: Side, p: Peer, q: Peer)
    requires PeerOk(x, p, q) && PeerOk(x.Other(), q, p) && p.allocs < 0x7FFF
    ensures p.inst.nextId !in q.handled
  {
    NextIdIsFree(x, p, q);
  }

  lemma OpensKeeps(x: Side, p: Peer, q: Peer, f: Feature, env: Env)
    requires PeerOk(x, p, q) && PeerOk(x.Other(), q, p) && (env.slotFree ==> p.allocs < 0x7FFF)
    ensures var p' := Allocated(p, Open(p.inst, f, env), env.slotFree);
            PeerOk(x, p', q) && PeerOk(x.Other(), q, p')
  {
    if env.slotFree {
      OpenedPeerOk(x, p, q, f, env);
    }
    OpeningIsSeen(x, p, q, Allocated(p, Open(p.inst, f, env), env.slotFree));
  }

  lemma OpeningIsSeen(x: Side, p: Peer, q: Peer, p': Peer)
    requires PeerOk(x.Other(), q, p) && p'.handled == p.handled && p'.answered == p.answered
    requires p.allocs <= p'.allocs
    ensures PeerOk(x.Other(), q, p')
  {
    hide Own;
    forall id, a | Create(id, a) in q.inst.out ensures id !in p'.handled {
      assert MessageOk(x.Other(), q, p, Create(id, a));
    }
    OtherSideGrows(x.Other(), q, p, p');
  }

  // ---- Toggles ---------------------------------------------------------------------------

  // Says nothing about a stream the receiver would have to know.
  predicate Harmless(m: Message) {
    m.Disconnect? || (m.FeatureToggle? && (m.action.Activate? ==> m.id == 0))
  }

  // Streams only go away, and only harmless messages are added.
  ghost predicate Shrinks(i: Instance, j: Instance) {
    && j.nextId == i.nextId
    && (forall id :: id in j.streams ==> id in i.streams && j.streams[id] == i.streams[id])
    && (forall m :: m in j.out ==> Harmless(m) || j.out[m] == i.out[m])
  }

  lemma ShrinkKeeps(x: Side, p: Peer, q: Peer, j: Instance)
    requires PeerOk(x, p, q) && PeerOk(x.Other(), q, p) && Shrinks(p.inst, j)
    ensures PeerOk(x, p.(inst := j), q) && PeerOk(x.Other(), q, p.(inst := j))
  {
    var p' := p.(inst := j);
    OtherSideGrows(x.Other(), q, p, p');
    forall m | m in j.out ensures MessageOk(x, p', q, m) {
      if !Harmless(m) {
        assert m in p.inst.out && MessageOk(x, p, q, m);
      }
    }
  }

  lemma CloseAllShrinks(i: Instance, f: Feature, env: Env)
    ensures Shrinks(i, CloseAll(i, f, env))
  {
    forall m | m in Disconnects(StreamsOf(i, f)) ensures Harmless(m) {
    }
  }

  lemma TellsOffShrinks(i: Instance, f: Feature, ids: set<u16>)
    ensures Shrinks(i, i.(out := i.out + ToggleOffs(f, ids)))
  {
    forall m | m in ToggleOffs(f, ids) ensures Harmless(m) {
    }
  }

  lemma ClearingShrinks(i: Instance, j: Instance, f: Feature)
    requires Shrinks(i, j)
    ensures Shrinks(i, SetFlag(j, f, Outbound, false))
  {
  }

  lemma DeactivateShrinks(i: Instance, f: Feature, env: Env)
    ensures Shrinks(i, DeactivateStreams(i, f, env))
  {
    hide CloseAll, Shrinks, ToggleOffs, SetFlag;
    var ids := StreamsOf(i, f);
    var told := if env.linkUp then i.(out := i.out + ToggleOffs(f, ids)) else i;
    TellsOffShrinks(i, f, ids);
    ShrinksNothing(i);
    ClearingShrinks(i, told, f);
    var cleared := if |ids| == 1 || 0 in ids then SetFlag(told, f, Outbound, false) else told;
    CloseAllShrinks(cleared, f, env);
    ShrinksTwice(i, cleared, CloseAll(cleared, f, env));
  }

  lemma ClosedAndToldShrinks(i: Instance, j: Instance, f: Feature, action: FeatureAction, env: Env)
    requires Shrinks(i, j)
    ensures Shrinks(i, SetFlag(Transmit(j, FeatureToggle(f, action, 0), env.linkUp), f, Outbound, false))
  {
  }

  lemma SwitchShrinks(i: Instance, f: Feature, action: FeatureAction, env: Env)
    requires !(NeedsStream(f) && action.Activate?)
    ensures Shrinks(i, Switch(i, f, action, env))
  {
    CloseAllShrinks(i, f, env);
    DeactivateShrinks(i, f, env);
    hide CloseAll, DeactivateStreams;
    if f.WindowLink? && action.Deactivate? {
      ClosedAndToldShrinks(i, CloseAll(i, f, env), f, action, env);
    }
  }

  lemma ShrinksTwice(i: Instance, j: Instance, k: Instance)
    requires Shrinks(i, j) && Shrinks(j, k)
    ensures Shrinks(i, k)
  {
  }

  lemma PrepareShrinks(i: Instance, f: Feature, env: Env)
    ensures Shrinks(i, Prepare(i, f, env))
  {
    hide Switch, Shrinks;
    assert Shrinks(i, i) by { ShrinksNothing(i); }
    SwitchShrinks(i, ScreenLink, Deactivate, env);
    SwitchShrinks(i, WindowLink, Deactivate, env);
    var j := if ScreenLink in i.outbound then Switch(i, ScreenLink, Deactivate, env) else i;
    SwitchShrinks(j, InputLink, Activate, env);
    ShrinksTwice(i, j, Switch(j, InputLink, Activate, env));
  }

  lemma ShrinksNothing(i: Instance)
    ensures Shrinks(i, i)
  {
  }

  // A stream that is announced as active is the one that was just opened.
  lemma AnnounceKeeps(x: Side, p: Peer, q: Peer, f: Feature, id: u16)
    requires PeerOk(x, p, q) && PeerOk(x.Other(), q, p)
    requires id in p.inst.streams && p.inst.streams[id].route.Outbound?
    ensures var p' := p.(inst := UpdateFeature(Transmit(p.inst, FeatureToggle(f, Activate, id), true),
                                               f, Outbound, Activate, id));
            PeerOk(x, p', q) && PeerOk(x.Other(), q, p')
  {
    var p' := p.(inst := UpdateFeature(Transmit(p.inst, FeatureToggle(f, Activate, id), true),
                                       f, Outbound, Activate, id));
    assert EntryOk(x, p, q, id, p.inst.streams[id]);
    assert Own(x, p.allocs, id);
    hide Own;
    OtherSideGrows(x.Other(), q, p, p');
    hide EntryOk;
    forall m | m in p'.inst.out ensures MessageOk(x, p', q, m) {
      assert m in p.inst.out ==> MessageOk(x, p, q, m);
    }
  }

  lemma OpenedEntry(i: Instance, f: Feature, env: Env)
    requires env.slotFree
    ensures var j := Open(i, f, env); i.nextId in j.streams && j.streams[i.nextId].route.Outbound?
    ensures Shrinks(Open(i, f, env), Close(Open(i, f, env), i.nextId, false, env))
  {
  }

  lemma ActivateKeeps(x: Side, p: Peer, q: Peer, f: Feature, env: Env)
    requires PeerOk(x, p, q) && PeerOk(x.Other(), q, p) && (env.slotFree ==> p.allocs < 0x7FFF)
    ensures var p' := Allocated(p, ActivateStream(p.inst, f, env), env.slotFree);
            PeerOk(x, p', q) && PeerOk(x.Other(), q, p')
  {
    OpensKeeps(x, p, q, f, env);
    if env.slotFree {
      NextIdIsFree(x, p, q);
      hide PeerOk, Open, Close, UpdateFeature, Transmit, Own, Shrinks;
      OpenedEntry(p.inst, f, env);
      var next := Allocated(p, Open(p.inst, f, env), true);
      if env.linkUp {
        AnnounceKeeps(x, next, q, f, p.inst.nextId);
      } else {
        ShrinkKeeps(x, next, q, Close(next.inst, p.inst.nextId, false, env));
      }
    }
  }

  // A whole ToggleFeature call, with everything it calls itself for.
  lemma TogglesKeeps(x: Side, p: Peer, q: Peer, f: Feature, env: Env)
    requires PeerOk(x, p, q) && PeerOk(x.Other(), q, p)
    requires OpensStream(p.inst, f, env) ==> p.allocs < 0x7FFF
    ensures var p' := Allocated(p, Toggle(p.inst, f, env), OpensStream(p.inst, f, env));
            PeerOk(x, p', q) && PeerOk(x.Other(), q, p')
  {
    hide PeerOk, Prepare, ActivateStream, DeactivateStreams, CloseAll, SetFlag, Transmit, Shrinks;
    PrepareShrinks(p.inst, f, env);
    var ready := p.(inst := Prepare(p.inst, f, env));
    ShrinkKeeps(x, p, q, ready.inst);
    var action := TargetAction(p.inst, f);
    if NeedsStream(f) && action.Activate? {
      ActivateKeeps(x, ready, q, f, env);
    } else {
      SwitchShrinks(ready.inst, f, action, env);
      ShrinkKeeps(x, ready, q, Switch(ready.inst, f, action, env));
    }
  }

  // ---- The other events ------------------------------------------------------------------

  lemma CloseShrinks(i: Instance, id: u16, notify: bool, env: Env)
    ensures Shrinks(i, Close(i, id, notify, env))
  {
  }

  lemma DropKeeps(x: Side, p: Peer, q: Peer, m: Message)
    requires PeerOk(x, p, q) && PeerOk(x.Other(), q, p) && m in p.inst.out
    ensures PeerOk(x, Drop(p, m), q) && PeerOk(x.Other(), q, Drop(p, m))
    ensures m.Create? ==> forall a :: Create(m.id, a) !in Drop(p, m).inst.out
  {
    hide Own;
    assert MessageOk(x, p, q, m);
    OtherSideGrows(x.Other(), q, p, Drop(p, m));
  }

  // What the receiver q may rely on when it handles a message that has left p's queue.
  ghost predicate Handleable(x: Side, p: Peer, q: Peer, m: Message) {
    match m
    case Create(id, _) =>
      Own(x, p.allocs, id) && id !in q.handled && forall a :: Create(id, a) !in p.inst.out
    case Connected(id, _) => id in p.answered
    case Disconnect(_) => true
    case FeatureToggle(_, action, id) => action.Activate? && id != 0 ==> Own(x, p.allocs, id)
  }

  // An identifier p owns and q has not handled is not in q's registry.
  lemma UnhandledIsFree(x: Side, p: Peer, q: Peer, id: u16)
    requires PeerOk(x.Other(), q, p) && Own(x, p.allocs, id) && id !in q.handled
    ensures id !in q.inst.streams
  {
    assert id in q.inst.streams ==> EntryOk(x.Other(), q, p, id, q.inst.streams[id]);
  }

  lemma CreateKeeps(x: Side, p: Peer, q: Peer, m: Message, env: Env)
    requires PeerOk(x, p, q) && PeerOk(x.Other(), q, p) && m.Create? && Handleable(x, p, q, m)
    ensures PeerOk(x.Other(), Handle(q, m, env), p)
  {
    var q' := Handle(q, m, env);
    UnhandledIsFree(x, p, q, m.id);
    forall id | id in q'.inst.streams ensures EntryOk(x.Other(), q', p, id, q'.inst.streams[id]) {
      if id != m.id {
        assert EntryOk(x.Other(), q, p, id, q.inst.streams[id]);
      }
    }
    forall n | n in q'.inst.out ensures MessageOk(x.Other(), q', p, n) {
      if n in q.inst.out {
        assert MessageOk(x.Other(), q, p, n);
      }
    }
  }

  // Answers, disconnects and toggles change entries, or remove them, and send nothing.
  lemma OthersKeep(x: Side, p: Peer, q: Peer, m: Message, env: Env)
    requires PeerOk(x, p, q) && PeerOk(x.Other(), q, p) && !m.Create? && Handleable(x, p, q, m)
    ensures PeerOk(x.Other(), Handle(q, m, env), p)
  {
    var q' := Handle(q, m, env);
    OthersSendNothing(q, m, env);
    forall id | id in q'.inst.streams ensures EntryOk(x.Other(), q', p, id, q'.inst.streams[id]) {
      assert id in q.inst.streams;
      EntryStaysOk(x, p, q, m, env, id);
    }
    hide Handle;
    forall n | n in q'.inst.out ensures MessageOk(x.Other(), q', p, n) {
      assert MessageOk(x.Other(), q, p, n);
    }
  }

  lemma OthersSendNothing(q: Peer, m: Message, env: Env)
    requires !m.Create?
    ensures var q' := Handle(q, m, env);
            && q'.inst.out == q.inst.out && q'.inst.nextId == q.inst.nextId
            && q'.handled == q.handled && q'.answered == q.answered && q'.allocs == q.allocs
            && q'.inst.streams.Keys <= q.inst.streams.Keys
  {
  }

  lemma EntryStaysOk(x: Side, p: Peer, q: Peer, m: Message, env: Env, id: u16)
    requires !m.Create? && Handleable(x, p, q, m) && id in Handle(q, m, env).inst.streams
    requires id in q.inst.streams && EntryOk(x.Other(), q, p, id, q.inst.streams[id])
    ensures EntryOk(x.Other(), Handle(q, m, env), p, id, Handle(q, m, env).inst.streams[id])
  {
  }

  lemma HandleKeeps(x: Side, p: Peer, q: Peer, m: Message, env: Env)
    requires PeerOk(x, p, q) && PeerOk(x.Other(), q, p) && Handleable(x, p, q, m)
    ensures PeerOk(x, p, Handle(q, m, env)) && PeerOk(x.Other(), Handle(q, m, env), p)
  {
    OtherSideGrows(x, p, q, Handle(q, m, env));
    if m.Create? {
      CreateKeeps(x, p, q, m, env);
    } else {
      OthersKeep(x, p, q, m, env);
    }
  }

  lemma DeliversKeeps(x: Side, p: Peer, q: Peer, m: Message, env: Env)
    requires PeerOk(x, p, q) && PeerOk(x.Other(), q, p) && m in p.inst.out
    ensures PeerOk(x, Drop(p, m), Handle(q, m, env)) && PeerOk(x.Other(), Handle(q, m, env), Drop(p, m))
    ensures m.Create? ==> m.id !in q.inst.streams && m.id != 0
  {
    assert MessageOk(x, p, q, m);
    DropKeeps(x, p, q, m);
    if m.Create? {
      UnhandledIsFree(x, p, q, m.id);
    }
    hide PeerOk, Handle;
    assert Handleable(x, Drop(p, m), q, m);
    HandleKeeps(x, Drop(p, m), q, m, env);
  }

  lemma SafeStep(s: System, e: Event)
    requires Safe(s) && Enabled(s, e)
    ensures Safe(Next(s, e))
  {
    hide PeerOk, Toggle, Open, Close, CloseAll, Handle, Drop, OpensStream, Shrinks;
    var x := e.side;
    var p, q := s.At(x), s.At(x.Other());
    match e {
      case Toggles(_, f, env) => TogglesKeeps(x, p, q, f, env);
      case Opens(_, f, env) => OpensKeeps(x, p, q, f, env);
      case Closes(_, id, notify, env) =>
        CloseShrinks(p.inst, id, notify, env);
        ShrinkKeeps(x, p, q, Close(p.inst, id, notify, env));
      case ClosesAll(_, f, env) =>
        CloseAllShrinks(p.inst, f, env);
        ShrinkKeeps(x, p, q, CloseAll(p.inst, f, env));
      case Delivers(_, m, env) => DeliversKeeps(x, p, q, m, env);
      case Loses(_, m) => DropKeeps(x, p, q, m);
    }
  }

  // ---- Runs ------------------------------------------------------------------------------

  function Exec(s: System, run: seq<Event>): System {
    if run == [] then s else Next(Exec(s, run[..|run| - 1]), run[|run| - 1])
  }

  predicate Valid(s: System, run: seq<Event>) {
    run != [] ==>
      Valid(s, run[..|run| - 1]) && Enabled(Exec(s, run[..|run| - 1]), run[|run| - 1])
  }

  // Both sides as ActivateInstance leaves them.
  function Start(): System {
    System(Peer(Instance(map[], 1, {}, {}, multiset{}), 0, {}, {}),
           Peer(Instance(map[], 2, {}, {}, multiset{}), 0, {}, {}))
  }

  lemma {:induction false} SafeRun(run: seq<Event>)
    requires Valid(Start(), run)
    ensures Safe(Exec(Start(), run))
  {
    hide Safe, Next, Enabled;
    if run == [] {
      assert Safe(Start()) by { StartIsSafe(); }
    } else {
      SafeRun(run[..|run| - 1]);
      SafeStep(Exec(Start(), run[..|run| - 1]), run[|run| - 1]);
    }
  }

  lemma StartIsSafe()
    ensures Safe(Start())
  {
  }

  // In every reachable state an outbound entry carries the side's own parity and an inbound one
  // its peer's, and the opener's entry is active only if the peer was handed the Create for
  // that identifier and answered it.
  lemma {:induction false} EntriesAreRight(run: seq<Event>, x: Side, id: u16)
    requires Valid(Start(), run) && id in Exec(Start(), run).At(x).inst.streams
    ensures var s := Exec(Start(), run);
            var e := s.At(x).inst.streams[id];
            && id % 2 == (if e.route.Outbound? then x else x.Other()).Start() % 2
            && (e.route.Outbound? && e.state.Active? ==>
                  id in s.At(x.Other()).handled && id in s.At(x.Other()).answered)
            && (e.route.Inbound? ==> id in s.At(x).handled)
  {
    SafeRun(run);
    var s := Exec(Start(), run);
    assert EntryOk(x, s.At(x), s.At(x.Other()), id, s.At(x).inst.streams[id]);
  }

  // No registration ever overwrites a live entry: neither a local allocation, by a request or
  // inside a toggle, nor the Create that is being delivered names an identifier the registry
  // holds, and neither is 0.
  lemma NothingIsOverwritten(run: seq<Event>, e: Event)
    requires Valid(Start(), run) && Enabled(Exec(Start(), run), e)
    ensures var s := Exec(Start(), run);
            var p := s.At(e.side);
            && (Allocates(s, e) ==> p.inst.nextId !in p.inst.streams && p.inst.nextId != 0)
            && (Allocates(s, e) && e.Toggles? ==>
                  p.inst.nextId !in Prepare(p.inst, e.feature, e.env).streams &&
                  Prepare(p.inst, e.feature, e.env).nextId == p.inst.nextId)
            && (e.Delivers? && e.message.Create? ==>
                  e.message.id !in s.At(e.side.Other()).inst.streams && e.message.id != 0)
  {
    hide Exec, Valid, Next, Prepare;
    SafeRun(run);
    var s := Exec(Start(), run);
    var p, q := s.At(e.side), s.At(e.side.Other());
    if Allocates(s, e) {
      NextIdIsFree(e.side, p, q);
      if e.Toggles? {
        PrepareShrinks(p.inst, e.feature, e.env);
      }
    } else if e.Delivers? {
      DeliversKeeps(e.side, p, q, e.message, e.env);
    }
  }

  predicate Allocates(s: System, e: Event) {
    match e
    case Toggles(x, f, env) => OpensStream(s.At(x).inst, f, env)
    case Opens(_, _, env) => env.slotFree
    case _ => false
  }
}
