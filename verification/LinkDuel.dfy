/** Two peers that asked for each other at the same time: which of them stays the initiator,
    whose token survives, and that it stays that way over every run in which no side gives up. */
module LinkDuel {
  import opened Types
  import opened Link
  import opened LinkProtocol

  // Nobody gives up: no rejection, no time-out, no scan that misses the peer, sockets come up,
  // and the user is asked only where the application asks.
  predicate Willing(d: Device, e: Event) {
    match e
    case Connect(_, ok) => ok
    case Accept(_) => d.state.LinkingAuth?
    case Reject | Forget | Vanish => false
    case Timer => d.retry.Some? && d.retry.value.active ==>
                    d.retry.value.retriesLeft > 0 && !d.state.LinkingAuth?
    case Receive(_) => true
  }

  // ---- The two sides -------------------------------------------------------------------

  // The side with the lower address: it keeps its own token and never waits.
  predicate WinnerOk(d: Device, mine: u32) {
    && d.session
    && (d.retry.Some? ==> d.retry.value.token == mine)
    && (d.state.Linked? ||
        (d.token == mine && (d.state.LinkingInit? || d.state.LinkingAck? || d.state.LinkingAuth?)))
  }

  // The other side: still asking with its own token, or past that and holding the winner's.
  predicate LoserOk(d: Device, mine: u32, theirs: u32) {
    || (d.state.LinkingInit? && d.session && d.token == mine && d.retry.Some? && d.retry.value.token == mine)
    || (d.token == theirs && (d.state.LinkingWait? || d.state.LinkingAuth? || d.state.Linked?))
  }

  // Packets that can be about before the loser has handled the winner's request.
  predicate Early(p: Packet) { p.LinkRequest? || (p.LinkResponse? && p.linkState.LinkingInit?) }

  predicate WinnerPacket(p: Packet, w: u32) {
    p.token == w && (p.LinkResponse? ==> p.linkState.LinkingInit? || p.linkState.Linked?)
  }

  predicate LoserPacket(p: Packet, w: u32, l: u32) {
    if Early(p) then p.token == l
    else p.token == w && (p.LinkResponse? ==> p.linkState.LinkingWait? || p.linkState.Linked?)
  }

  lemma WinnerStep(d: Device, localIP: u32, e: Event, w: u32, l: u32)
    requires WinnerOk(d, w) && WinsDuel(d, localIP) && Willing(d, e)
    requires e.Receive? ==> LoserPacket(e.packet, w, l)
    ensures WinnerOk(Step(d, localIP, e), w)
    ensures forall p :: p in Sends(d, e) ==> WinnerPacket(p, w)
    ensures d.state.LinkingInit? && (e.Receive? ==> Early(e.packet)) ==>
              Step(d, localIP, e).state.LinkingInit? && forall p :: p in Sends(d, e) ==> Early(p)
  {
    match e
    case Receive(p) =>
      match p { case LinkRequest(_) => case LinkResponse(_, _) => case HandshakeData(_) => }
    case _ =>
  }

  lemma LoserStep(d: Device, localIP: u32, e: Event, w: u32, l: u32)
    requires LoserOk(d, l, w) && !WinsDuel(d, localIP) && Willing(d, e)
    requires e.Receive? ==> WinnerPacket(e.packet, w)
    requires e.Receive? && d.state.LinkingInit? ==> Early(e.packet)
    ensures LoserOk(Step(d, localIP, e), l, w)
    ensures forall p :: p in Sends(d, e) ==> LoserPacket(p, w, l)
    ensures d.state.LinkingInit? ==> forall p :: p in Sends(d, e) ==> Early(p)
    ensures Step(d, localIP, e).state.LinkingInit? ==> d.state.LinkingInit?
  {
    match e
    case Receive(p) => LoserTakes(d, localIP, p, w, l);
    case _ =>
  }

  lemma LoserTakes(d: Device, localIP: u32, p: Packet, w: u32, l: u32)
    requires LoserOk(d, l, w) && !WinsDuel(d, localIP) && WinnerPacket(p, w)
    requires d.state.LinkingInit? ==> Early(p)
    ensures LoserOk(OnPacket(d, localIP, p), l, w)
    ensures forall q :: q in PacketSends(d, p) ==> LoserPacket(q, w, l) && !d.state.LinkingInit?
    ensures OnPacket(d, localIP, p).state.LinkingInit? ==> d.state.LinkingInit?
  {
    match p { case LinkRequest(_) => case LinkResponse(_, _) => case HandshakeData(_) => }
  }

  // ---- The two-peer invariant ----------------------------------------------------------

  predicate Wins(s: System, x: Side) { s.KnowEachOther() && s.LocalIP(x) < s.LocalIP(x.Other()) }

  ghost predicate DuelOk(s: System, x: Side, w: u32, l: u32) {
    var winner, loser := s.At(x), s.At(x.Other());
    && Wins(s, x)
    && WinnerOk(winner, w) && LoserOk(loser, l, w)
    && (forall p :: p in winner.out ==> WinnerPacket(p, w))
    && (forall p :: p in loser.out ==> LoserPacket(p, w, l))
    && (loser.state.LinkingInit? ==>
          && winner.state.LinkingInit?
          && (forall p :: p in winner.out ==> Early(p)) && (forall p :: p in loser.out ==> Early(p)))
  }

  lemma AddressesStay(d: Device, localIP: u32, e: Event)
    requires !e.Vanish?
    ensures Step(d, localIP, e).ip == d.ip
  {
    match e
    case Receive(p) =>
      match p { case LinkRequest(_) => case LinkResponse(_, _) => case HandshakeData(_) => }
    case _ =>
  }

  lemma WillingStays(d: Device, e: Event)
    requires Willing(d, e)
    ensures !e.Vanish?
  {
  }

  lemma {:induction false} DuelStep(s: System, a: Action, x: Side, w: u32, l: u32)
    requires DuelOk(s, x, w, l) && Enabled(s, a) && Willing(s.At(a.side), a.event)
    ensures DuelOk(Next(s, a), x, w, l)
  {
    hide Step, Sends, WinnerOk, LoserOk, Willing, WinnerPacket, LoserPacket, Early;
    var d := s.At(a.side);
    WillingStays(d, a.event);
    StepSends(d, s.LocalIP(a.side), a.event);
    AddressesStay(d, s.LocalIP(a.side), a.event);
    if a.side == x {
      WinnerStep(d, s.LocalIP(x), a.event, w, l);
    } else {
      LoserStep(d, s.LocalIP(a.side), a.event, w, l);
    }
  }

  ghost predicate WillingRun(s: System, run: seq<Action>) {
    run != [] ==>
      var init, a := run[..|run| - 1], run[|run| - 1];
      WillingRun(s, init) && Willing(Exec(s, init).At(a.side), a.event)
  }

  lemma {:induction false} DuelRun(s: System, run: seq<Action>, x: Side, w: u32, l: u32)
    requires DuelOk(s, x, w, l) && Valid(s, run) && WillingRun(s, run)
    ensures DuelOk(Exec(s, run), x, w, l)
  {
    hide DuelOk, Next, Enabled, Willing;
    if run != [] {
      var init, a := run[..|run| - 1], run[|run| - 1];
      DuelRun(s, init, x, w, l);
      DuelStep(Exec(s, init), a, x, w, l);
    }
  }

  // ---- Results -------------------------------------------------------------------------

  // Both sides have just asked, with the tokens w and l.
  predicate Crossing(s: System, x: Side, w: u32, l: u32) {
    var winner, loser := s.At(x), s.At(x.Other());
    && Wins(s, x)
    && winner.state.LinkingInit? && winner.session && winner.token == w
    && loser.state.LinkingInit? && loser.session && loser.token == l
    && winner.retry == Some(RetryContext(w, 5, true)) && loser.retry == Some(RetryContext(l, 5, true))
    && winner.out == [LinkRequest(w)] && loser.out == [LinkRequest(l)]
  }

  // Two idle peers that both connect are in that situation.
  lemma BothConnect(s: System, x: Side, w: u32, l: u32)
    requires Wins(s, x) && w != 0 && l != 0
    requires forall y :: s.At(y).state.Inactive? && s.At(y).out == []
    ensures var run := [Action(x, Connect(w, true)), Action(x.Other(), Connect(l, true))];
            Valid(s, run) && Crossing(Exec(s, run), x, w, l)
  {
    var first, second := Action(x, Connect(w, true)), Action(x.Other(), Connect(l, true));
    assert [first, second][..1] == [first];
    assert Exec(s, [first]) == Next(s, first);
    assert Exec(s, [first, second]) == Next(Next(s, first), second);
    assert s.At(x).state.Inactive? && s.At(x.Other()).state.Inactive?;
    assert Next(s, first).At(x.Other()) == s.At(x.Other());
  }

  // In every run from there in which nobody gives up: the side with the lower address keeps its
  // token until it is LINKED and never waits; the other side is still asking, or holds the
  // winner's token and never becomes an initiator; and once both are past the duel, and the
  // winner not LINKED, the tokens agree.
  lemma DuelConverges(s: System, run: seq<Action>, x: Side, w: u32, l: u32)
    requires Crossing(s, x, w, l) && Valid(s, run) && WillingRun(s, run)
    ensures var end := Exec(s, run);
            var winner, loser := end.At(x), end.At(x.Other());
            && NetLinkState.LinkingInit.Ord() <= winner.state.Ord() && !winner.state.LinkingWait?
            && (!winner.state.Linked? ==> winner.token == w)
            && NetLinkState.LinkingInit.Ord() <= loser.state.Ord() && !loser.state.LinkingAck?
            && loser.token == (if loser.state.LinkingInit? then l else w)
            && (!loser.state.LinkingInit? && !winner.state.Linked? ==> winner.token == loser.token)
  {
    hide Exec, Next, Valid, WillingRun;
    assert DuelOk(s, x, w, l);
    DuelRun(s, run, x, w, l);
  }

  // Every delivery of a request decides the duel the same way: the winner's record does not
  // change at all, and the loser, unless LINKED, waits with the winner's token, no session and
  // no retry entry.
  lemma {:induction false} EachDeliveryDecides(s: System, run: seq<Action>, x: Side, w: u32, l: u32)
    requires Crossing(s, x, w, l) && Valid(s, run) && WillingRun(s, run)
    ensures var end := Exec(s, run);
            var loser := Next(end, Action(x.Other(), Receive(LinkRequest(w)))).At(x.Other());
            && (!end.At(x).state.Linked? ==>
                  Next(end, Action(x, Receive(LinkRequest(l)))) == end)
            && (!end.At(x.Other()).state.Linked? ==>
                  loser.state.LinkingWait? && loser.token == w && !loser.session && loser.retry.None?)
  {
    hide Exec, Valid, WillingRun, Step, WinnerOk, LoserOk;
    assert DuelOk(s, x, w, l) by {
      CrossingIsADuel(s, x, w, l);
    }
    DuelRun(s, run, x, w, l);
    var end := Exec(s, run);
    if !end.At(x).state.Linked? {
      WinnerIgnores(end.At(x), end.LocalIP(x), w, l);
    }
    if !end.At(x.Other()).state.Linked? {
      LoserYields(end.At(x.Other()), end.LocalIP(x.Other()), w, l);
    }
  }

  lemma CrossingIsADuel(s: System, x: Side, w: u32, l: u32)
    requires Crossing(s, x, w, l)
    ensures DuelOk(s, x, w, l)
  {
  }

  lemma WinnerIgnores(d: Device, localIP: u32, w: u32, l: u32)
    requires WinnerOk(d, w) && WinsDuel(d, localIP) && !d.state.Linked?
    ensures Step(d, localIP, Receive(LinkRequest(l))) == d
  {
  }

  lemma LoserYields(d: Device, localIP: u32, w: u32, l: u32)
    requires LoserOk(d, l, w) && !WinsDuel(d, localIP) && !d.state.Linked?
    ensures var e := Step(d, localIP, Receive(LinkRequest(w)));
            e.state.LinkingWait? && e.token == w && !e.session && e.retry.None?
  {
  }
}
