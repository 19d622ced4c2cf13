/** Two peers over a network that may drop, duplicate and reorder: any packet ever sent can be
    delivered any number of times, or never. Runs of any length, from any two peers that have
    not sent anything yet. */
module LinkProtocol {
  import opened Types
  import opened Link

  datatype Side = Left | Right {
    function Other(): Side { if Left? then Right else Left }
  }

  // left is what the left peer knows about the right one, and the other way round.
  datatype System = System(left: Device, right: Device, leftIP: u32, rightIP: u32) {
    function At(x: Side): Device { if x.Left? then left else right }

    function LocalIP(x: Side): u32 { if x.Left? then leftIP else rightIP }

    // Each side's record carries the other's address, as it does until a scan clears it.
    predicate KnowEachOther() { left.ip == rightIP && right.ip == leftIP }

    function With(x: Side, d: Device): System {
      if x.Left? then this.(left := d) else this.(right := d)
    }
  }

  datatype Action = Action(side: Side, event: Event)

  predicate Enabled(s: System, a: Action) {
    match a.event
    case Receive(p) => p in s.At(a.side.Other()).out
    case Connect(t, _) => t != 0
    case _ => true
  }

  function Next(s: System, a: Action): System {
    s.With(a.side, Step(s.At(a.side), s.LocalIP(a.side), a.event))
  }

  function Exec(s: System, run: seq<Action>): System {
    if run == [] then s else Next(Exec(s, run[..|run| - 1]), run[|run| - 1])
  }

  predicate Valid(s: System, run: seq<Action>) {
    run == [] || (Valid(s, run[..|run| - 1]) && Enabled(Exec(s, run[..|run| - 1]), run[|run| - 1]))
  }

  // ---- What a step sends ---------------------------------------------------------------

  predicate AutoAccepts(d: Device, token: u32) {
    TakesHandshakeData(d, token) && d.state.LinkingWait? && (Authenticated(d) || d.paired)
  }

  // The step runs AcceptConnection, on an Accept command or by itself.
  predicate RunsAccept(d: Device, e: Event) {
    e.Accept? || (e.Receive? && e.packet.HandshakeData? && AutoAccepts(d, e.packet.token))
  }

  function IfSession(d: Device, p: Packet): seq<Packet> { if d.session then [p] else [] }

  function TimerSends(d: Device): seq<Packet> {
    if d.retry.None? || !d.retry.value.active then []
    else if d.retry.value.retriesLeft <= 0 || d.state.LinkingAuth? then [LinkResponse(Failed, d.token)]
    else if d.state.LinkingInit? then
      [LinkRequest(d.retry.value.token), LinkResponse(LinkingInit, d.token)]
    else if d.state.LinkingWait? then [LinkResponse(LinkingWait, d.token)]
    else if d.state.LinkingAck? then IfSession(d, HandshakeData(d.token))
    else []
  }

  function ConnectSends(d: Device, newToken: u32, sessionOk: bool): seq<Packet> {
    if !sessionOk then []
    else if d.state.Failed? || d.state.Inactive? then [LinkRequest(newToken)]
    else if d.state.LinkingWait? then [LinkResponse(LinkingWait, d.token)]
    else []
  }

  function PacketSends(d: Device, p: Packet): seq<Packet> {
    match p
    case LinkRequest(_) => []
    case LinkResponse(s, t) =>
      if t == d.token && d.session && s.LinkingWait? && d.state.Ord() < NetLinkState.LinkingAck.Ord()
      then [HandshakeData(t)] else []
    case HandshakeData(t) =>
      if !TakesHandshakeData(d, t) || !d.state.LinkingWait? then []
      else IfSession(d, HandshakeData(t)) + if AutoAccepts(d, t) then [LinkResponse(Linked, t)] else []
  }

  // The packets each step adds, case by case: which handler sends what, and with which token.
  function Sends(d: Device, e: Event): seq<Packet> {
    match e
    case Connect(t, ok) => ConnectSends(d, t, ok)
    case Accept(_) => [LinkResponse(Linked, d.token)]
    case Reject => [LinkResponse(Failed, d.token)]
    case Forget | Vanish => []
    case Timer => TimerSends(d)
    case Receive(p) => PacketSends(d, p)
  }

  lemma StepSends(d: Device, localIP: u32, e: Event)
    ensures Step(d, localIP, e).out == d.out + Sends(d, e)
  {
    hide ConnectInstance, ConnectSends, OnTimer, TimerSends, OnPacket, PacketSends;
    match e
    case Connect(t, ok) => ConnectSendsIsRight(d, t, ok);
    case Timer => TimerSendsIsRight(d);
    case Receive(p) => PacketSendsIsRight(d, localIP, p);
    case _ =>
  }

  lemma ConnectSendsIsRight(d: Device, t: u32, ok: bool)
    ensures ConnectInstance(d, t, ok).out == d.out + ConnectSends(d, t, ok)
  {
  }

  lemma TimerSendsIsRight(d: Device)
    ensures OnTimer(d).out == d.out + TimerSends(d)
  {
  }

  lemma PacketSendsIsRight(d: Device, localIP: u32, p: Packet)
    ensures OnPacket(d, localIP, p).out == d.out + PacketSends(d, p)
  {
    match p
    case LinkRequest(_) =>
    case LinkResponse(_, _) =>
    case HandshakeData(t) =>
      if TakesHandshakeData(d, t) && d.state.LinkingWait? && d.session {
        assert d.out + [HandshakeData(t)] + [LinkResponse(Linked, t)]
            == d.out + ([HandshakeData(t)] + [LinkResponse(Linked, t)]);
      }
  }

  // A response or handshake datum carries the token held at that moment, handshake data needs
  // a session, and LINKED is announced only while AcceptConnection runs.
  lemma SendsAreTruthful(d: Device, e: Event, p: Packet)
    requires p in Sends(d, e)
    ensures !p.LinkRequest? ==> p.token == d.token
    ensures p.HandshakeData? ==> d.session
    ensures p.LinkResponse? && p.linkState.Linked? ==> RunsAccept(d, e)
  {
  }

  predicate SentAt(s: System, run: seq<Action>, x: Side, p: Packet, j: nat) {
    j < |run| && run[j].side == x &&
    p in Sends(Exec(s, run[..j]).At(x), run[j].event)
  }

  // Nothing is in the network that no step put there.
  lemma {:induction false} SentByAStep(s: System, run: seq<Action>, x: Side, p: Packet)
    requires s.At(x).out == []
    requires p in Exec(s, run).At(x).out
    ensures exists j :: SentAt(s, run, x, p, j)
  {
    hide Step, Sends;
    var n := |run| - 1;
    var init := run[..n];
    var before := Exec(s, init);
    StepSends(before.At(run[n].side), before.LocalIP(run[n].side), run[n].event);
    if p in before.At(x).out {
      SentByAStep(s, init, x, p);
      var j: nat :| SentAt(s, init, x, p, j);
      assert init[..j] == run[..j];
      assert SentAt(s, run, x, p, j);
    } else {
      assert SentAt(s, run, x, p, n);
    }
  }

  lemma {:induction false} ValidPrefix(s: System, run: seq<Action>, j: nat)
    requires Valid(s, run) && j < |run|
    ensures Valid(s, run[..j]) && Enabled(Exec(s, run[..j]), run[j])
    decreases |run|
  {
    var init := run[..|run| - 1];
    if j < |init| {
      ValidPrefix(s, init, j);
      assert init[..j] == run[..j];
    }
  }

  // ---- Agreement -----------------------------------------------------------------------

  // At step j of the run side x runs AcceptConnection while it holds token t.
  predicate AcceptedAt(s: System, run: seq<Action>, x: Side, t: u32, j: nat) {
    j < |run| && run[j].side == x &&
    RunsAccept(Exec(s, run[..j]).At(x), run[j].event) && Exec(s, run[..j]).At(x).token == t
  }

  // A LINKED response in the network proves an earlier acceptance with its token.
  lemma {:induction false} AnnouncedMeansAccepted(s: System, run: seq<Action>, x: Side, t: u32)
    requires s.At(x).out == [] && LinkResponse(Linked, t) in Exec(s, run).At(x).out
    ensures exists j :: AcceptedAt(s, run, x, t, j)
  {
    hide Step, Sends, RunsAccept;
    var p := LinkResponse(Linked, t);
    SentByAStep(s, run, x, p);
    var j: nat :| SentAt(s, run, x, p, j);
    SendsAreTruthful(Exec(s, run[..j]).At(x), run[j].event, p);
    assert AcceptedAt(s, run, x, t, j);
  }

  // At step j side x, holding token t and a session, sends its handshake data.
  predicate OfferedAt(s: System, run: seq<Action>, x: Side, t: u32, j: nat) {
    SentAt(s, run, x, HandshakeData(t), j) &&
    Exec(s, run[..j]).At(x).token == t && Exec(s, run[..j]).At(x).session
  }

  // Without AcceptConnection there is one other way into LINKED.
  lemma EntersLinked(d: Device, localIP: u32, e: Event)
    requires !d.state.Linked? && Step(d, localIP, e).state.Linked? && !RunsAccept(d, e)
    ensures e == Receive(LinkResponse(Linked, d.token)) && d.session
  {
    match e
    case Receive(p) =>
      match p { case LinkRequest(_) => case LinkResponse(_, _) => case HandshakeData(_) => }
    case _ =>
  }

  // Whoever becomes LINKED either ran AcceptConnection itself in that very step, or holds a
  // session and a token with which its peer ran AcceptConnection earlier in the run.
  lemma Agreement(s: System, run: seq<Action>, a: Action)
    requires s.left.out == [] && s.right.out == []
    requires Valid(s, run + [a])
    requires !Exec(s, run).At(a.side).state.Linked?
    requires Exec(s, run + [a]).At(a.side).state.Linked?
    ensures var d := Exec(s, run).At(a.side);
            || RunsAccept(d, a.event)
            || (d.session && exists j :: AcceptedAt(s, run, a.side.Other(), d.token, j))
  {
    hide Step, Sends, RunsAccept;
    assert (run + [a])[..|run|] == run;
    var y := a.side.Other();
    var d := Exec(s, run).At(a.side);
    if !RunsAccept(d, a.event) {
      EntersLinked(d, Exec(s, run).LocalIP(a.side), a.event);
      AnnouncedMeansAccepted(s, run, y, d.token);
    }
  }

  // An acceptance without an Accept command rests on handshake data the peer itself sent, with
  // a session, while holding the same token.
  lemma AutomaticAcceptanceIsInvited(s: System, run: seq<Action>, x: Side, t: u32, j: nat)
    requires s.left.out == [] && s.right.out == []
    requires Valid(s, run) && AcceptedAt(s, run, x, t, j) && !run[j].event.Accept?
    ensures exists i: nat :: i < j && OfferedAt(s, run, x.Other(), t, i)
  {
    hide Exec, Sends, Step;
    ValidPrefix(s, run, j);
    var p := HandshakeData(t);
    assert run[j].event == Receive(p);
    SentByAStep(s, run[..j], x.Other(), p);
    var i: nat :| SentAt(s, run[..j], x.Other(), p, i);
    assert run[..j][..i] == run[..i];
    SendsAreTruthful(Exec(s, run[..i]).At(x.Other()), run[i].event, p);
    assert OfferedAt(s, run, x.Other(), t, i);
  }

  // Trust is given by an Accept command with the trust flag alone, and no event takes it back.
  lemma TrustedExactly(d: Device, localIP: u32, e: Event)
    ensures Step(d, localIP, e).paired <==> d.paired || e == Accept(true)
  {
    match e
    case Receive(p) =>
      match p { case LinkRequest(_) => case LinkResponse(_, _) => case HandshakeData(_) => }
    case _ =>
  }

  // ---- LINKED and authenticated ----------------------------------------------------------

  predicate LinkedMeansAuthenticated(d: Device) { d.state.Linked? ==> Authenticated(d) }

  // The step enters (or re-enters) LINKED although no secret was derived, so that
  // AuthenticateSession has nothing to mark.
  predicate LinksWithoutSecret(d: Device, e: Event) {
    !Derived(d) &&
    match e
    case Accept(_) => true
    case Receive(LinkResponse(Linked, t)) => t == d.token && d.session && !d.state.Linked?
    case _ => false
  }

  // Per step: the property survives exactly when the guard above is false.
  lemma AuthenticationKeptExactly(d: Device, localIP: u32, e: Event)
    requires LinkedMeansAuthenticated(d)
    ensures LinkedMeansAuthenticated(Step(d, localIP, e)) <==> !LinksWithoutSecret(d, e)
  {
    // Split by event so that each handler is looked at alone.
    match e
    case Receive(LinkRequest(_)) =>
    case Receive(LinkResponse(s, token)) => ResponseAuthenticationExactly(d, s, token);
    case Receive(HandshakeData(token)) => HandshakeAuthenticates(d, token);
    case _ =>
  }

  lemma ResponseAuthenticationExactly(d: Device, s: NetLinkState, token: u32)
    requires LinkedMeansAuthenticated(d)
    ensures LinkedMeansAuthenticated(OnLinkResponse(d, s, token))
      <==> !LinksWithoutSecret(d, Receive(LinkResponse(s, token)))
  {
  }

  lemma HandshakeAuthenticates(d: Device, token: u32)
    requires LinkedMeansAuthenticated(d)
    ensures LinkedMeansAuthenticated(OnHandshakeData(d, token))
  {
  }

  predicate AuthenticatedAtEveryBoundary(s: System, run: seq<Action>, x: Side) {
    && LinkedMeansAuthenticated(Exec(s, run).At(x))
    && (run != [] ==> AuthenticatedAtEveryBoundary(s, run[..|run| - 1], x))
  }

  predicate NeverLinksWithoutSecret(s: System, run: seq<Action>, x: Side) {
    run != [] ==>
      var init, a := run[..|run| - 1], run[|run| - 1];
      && NeverLinksWithoutSecret(s, init, x)
      && (a.side == x ==> !LinksWithoutSecret(Exec(s, init).At(x), a.event))
  }

  // Over a whole run: LINKED means authenticated at every step boundary, exactly when no step
  // of the run links without a secret.
  lemma {:induction false} AuthenticatedThroughout(s: System, run: seq<Action>, x: Side)
    requires LinkedMeansAuthenticated(s.At(x))
    ensures AuthenticatedAtEveryBoundary(s, run, x) <==> NeverLinksWithoutSecret(s, run, x)
  {
    hide Step, LinksWithoutSecret, LinkedMeansAuthenticated;
    if run != [] {
      var init, a := run[..|run| - 1], run[|run| - 1];
      AuthenticatedThroughout(s, init, x);
      var before := Exec(s, init);
      if LinkedMeansAuthenticated(before.At(x)) {
        AuthenticationKeptExactly(before.At(x), before.LocalIP(x), a.event);
      }
    }
  }

  // A device that is LINKED without authentication becomes authenticated with the next
  // handshake data for its token, whatever its flags are.
  lemma LateHandshakeDataAuthenticates(d: Device, localIP: u32)
    requires d.state.Linked? && !Authenticated(d)
    ensures var after := Step(d, localIP, Receive(HandshakeData(d.token)));
            after.state.Linked? && Authenticated(after) && after.retry.None?
  {
  }

  // A run in which the acceptance overtakes the handshake data that would have derived the
  // secret. Right is paired with Left, so it accepts by itself.
  function OvertakingRun(t: u32): seq<Action> {
    [Action(Left, Connect(t, true)),
     Action(Right, Receive(LinkRequest(t))),
     Action(Right, Connect(t, true)),
     Action(Left, Receive(LinkResponse(LinkingWait, t))),
     Action(Right, Receive(HandshakeData(t))),
     Action(Left, Receive(LinkResponse(Linked, t)))]
  }

  // The state before step k of that run, and after the last one.
  function Overtaking(t: u32, k: nat): System {
    var request, wait, data := LinkRequest(t), LinkResponse(LinkingWait, t), HandshakeData(t);
    var keys, secret := Some(EcdhSession(true, false, false)), Some(EcdhSession(true, true, true));
    System(
      if k == 0 then Device(2, Inactive, 0, false, None, None, false, [])
      else if k <= 3 then
        Device(2, LinkingInit, t, true, Some(RetryContext(t, 5, true)), None, false, [request])
      else if k <= 5 then
        Device(2, LinkingAck, t, true, Some(RetryContext(t, 1, true)), keys, false, [request, data])
      else Device(2, Linked, t, true, None, keys, false, [request, data]),
      if k <= 1 then Device(1, Inactive, 0, false, None, None, true, [])
      else if k == 2 then Device(1, LinkingWait, t, false, None, None, true, [])
      else if k <= 4 then
        Device(1, LinkingWait, t, true, Some(RetryContext(t, 5, true)), None, true, [wait])
      else Device(1, Linked, t, true, None, secret, true, [wait, data, LinkResponse(Linked, t)]),
      1, 2)
  }

  lemma {:induction false} OvertakingUpTo(t: u32, k: nat)
    requires t != 0 && k <= 6
    ensures Exec(Overtaking(t, 0), OvertakingRun(t)[..k]) == Overtaking(t, k)
    ensures Valid(Overtaking(t, 0), OvertakingRun(t)[..k])
  {
    hide Next, Enabled, Overtaking;
    if k > 0 {
      OvertakingUpTo(t, k - 1);
      assert OvertakingRun(t)[..k][..k - 1] == OvertakingRun(t)[..k - 1];
      OvertakingStep(t, k - 1);
    }
  }

  lemma OvertakingStep(t: u32, k: nat)
    requires t != 0 && k < 6
    ensures Enabled(Overtaking(t, k), OvertakingRun(t)[k])
    ensures Next(Overtaking(t, k), OvertakingRun(t)[k]) == Overtaking(t, k + 1)
  {
    if k == 0 {} else if k == 1 {} else if k == 2 {} else {
      OvertakingEnds(t, k);
    }
  }

  lemma OvertakingEnds(t: u32, k: nat)
    requires t != 0 && 3 <= k < 6
    ensures Enabled(Overtaking(t, k), OvertakingRun(t)[k])
    ensures Next(Overtaking(t, k), OvertakingRun(t)[k]) == Overtaking(t, k + 1)
  {
    if k == 3 {} else if k == 4 {
      var d := Overtaking(t, 4).right;
      assert OnHandshakeData(d, t) == Overtaking(t, 5).right;
    } else {}
  }

  // LINKED does not always mean authenticated: two fresh peers reach it without.
  lemma LinkedCanBeUnauthenticated(t: u32)
    requires t != 0
    ensures var s, run := Overtaking(t, 0), OvertakingRun(t);
            && Valid(s, run) && s.left.out == s.right.out == []
            && Exec(s, run).left.state.Linked? && !Authenticated(Exec(s, run).left)
  {
    OvertakingUpTo(t, 6);
    assert OvertakingRun(t)[..6] == OvertakingRun(t);
  }

  // ---- Regression ------------------------------------------------------------------------

  // The two receptions that take an attempt backwards: losing a duel after LINKING_WAIT, and a
  // FAILED response for the token in use.
  predicate TakesBack(d: Device, localIP: u32, p: Packet) {
    match p
    case LinkRequest(_) =>
      NetLinkState.LinkingWait.Ord() < d.state.Ord() < NetLinkState.Linked.Ord() && !WinsDuel(d, localIP)
    case LinkResponse(Failed, t) => t == d.token && d.session && !d.state.Inactive?
    case _ => false
  }

  // A received datagram lowers the link state exactly in those two cases.
  lemma RegressesExactly(d: Device, localIP: u32, p: Packet)
    ensures OnPacket(d, localIP, p).state.Ord() < d.state.Ord() <==> TakesBack(d, localIP, p)
  {
    match p { case LinkRequest(_) => case LinkResponse(_, _) => case HandshakeData(_) => }
  }

  // Asked for by a peer with a lower address, a device in LINKING_AUTH goes back to
  // LINKING_WAIT and loses its session on a mere second copy of the request it is answering.
  lemma DuplicateRequestRegresses(d: Device, localIP: u32)
    requires d.state.LinkingAuth? && d.ip < localIP
    ensures var after := OnPacket(d, localIP, LinkRequest(d.token));
            after.state.LinkingWait? && !after.session && after.token == d.token
  {
  }

  // ---- Inertness ---------------------------------------------------------------------------

  predicate Passive(e: Event) { e.Timer? || e.Vanish? || (e.Receive? && !e.packet.LinkRequest?) }

  function StepAll(d: Device, localIP: u32, es: seq<Event>): Device
    decreases |es|
  {
    if es == [] then d else StepAll(Step(d, localIP, es[0]), localIP, es[1..])
  }

  // A device as ResetInstance leaves it stays that way under any sequence of responses,
  // handshake data, timer passes and scans, with any tokens and whatever entry the retry table holds.
  lemma {:induction false} ResetDeviceIsInert(d: Device, localIP: u32, es: seq<Event>)
    requires d.state.Inactive? && !d.session && d.token == 0
    requires forall e :: e in es ==> Passive(e)
    ensures var after := StepAll(d, localIP, es);
            after.state.Inactive? && !after.session && after.token == 0
    decreases |es|
  {
    if es != [] {
      assert es[0] in es;
      ResetDeviceIsInert(Step(d, localIP, es[0]), localIP, es[1..]);
    }
  }
}
