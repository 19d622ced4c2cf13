/** What every event leaves in a device record, told field by field instead of handler by handler,
    and the run in which two strangers link. */
module LinkEffects {
  import opened Types
  import opened Link
  import opened LinkProtocol

  // ---- Occasions -------------------------------------------------------------------------

  // A request that is not ignored: no attempt is under way, or this side has the higher address.
  predicate Yields(d: Device, localIP: u32) { d.state.Linking() ==> d.ip <= localIP }

  predicate Answers(d: Device, e: Event, s: NetLinkState) {
    e.Receive? && e.packet.LinkResponse? && e.packet.linkState == s && e.packet.token == d.token && d.session
  }

  // The peer is ready, and this side is not that far yet.
  predicate Requests(d: Device, e: Event) {
    Answers(d, e, LinkingWait) && d.state in {Inactive, Failed, LinkingInit, LinkingWait}
  }

  predicate IsConfirmed(d: Device, e: Event) { Answers(d, e, Linked) && !d.state.Linked? }

  predicate Fires(d: Device, e: Event) { e.Timer? && d.retry.Some? && d.retry.value.active }

  predicate TimesOut(d: Device, e: Event) {
    Fires(d, e) && (d.retry.value.retriesLeft <= 0 || d.state.LinkingAuth?)
  }

  predicate RequestsAgain(d: Device, e: Event) { Fires(d, e) && !TimesOut(d, e) && d.state.LinkingAck? }

  // Handshake data for the token in use, from LINKING_WAIT on; a linked device takes it only
  // while it is not authenticated.
  predicate Takes(d: Device, e: Event) {
    && e.Receive? && e.packet.HandshakeData? && e.packet.token == d.token
    && d.state in {LinkingWait, LinkingAck, LinkingAuth, Linked}
    && !(d.state.Linked? && Authenticated(d))
  }

  predicate TakesAndAccepts(d: Device, e: Event) {
    Takes(d, e) && d.state.LinkingWait? && (Authenticated(d) || d.paired)
  }

  // The attempt ends and its keys are thrown away.
  predicate Drops(d: Device, e: Event) {
    e.Reject? || e.Forget? || TimesOut(d, e) || Answers(d, e, Failed)
  }

  predicate Begins(d: Device, e: Event) { e.Connect? && d.state in {Inactive, Failed} }

  predicate Joins(d: Device, e: Event) { e.Connect? && d.state.LinkingWait? }

  predicate Asked(d: Device, localIP: u32, e: Event) {
    e.Receive? && e.packet.LinkRequest? && Yields(d, localIP)
  }

  // ---- Keys ------------------------------------------------------------------------------

  predicate HasKeys(d: Device) { d.crypt.Some? && d.crypt.value.keyPair }

  // A key pair is made when handshake data is sent or taken, and only the end of an attempt
  // loses it.
  predicate HasKeysAfter(d: Device, e: Event) {
    !Drops(d, e) && (HasKeys(d) || Requests(d, e) || RequestsAgain(d, e) || Takes(d, e))
  }

  // The secret is there from the moment handshake data is taken, in whatever state. Making a
  // new pair invalidates it.
  predicate DerivedAfter(d: Device, e: Event) {
    !Drops(d, e) &&
    (Takes(d, e) || (Derived(d) && (HasKeys(d) || !(Requests(d, e) || RequestsAgain(d, e)))))
  }

  // Authenticated is who is accepted, or told LINKED, with a secret; taking handshake data
  // starts over, except that it is accepted at once or arrives when already LINKED.
  predicate AuthenticatedAfter(d: Device, e: Event) {
    if Drops(d, e) then false
    else if e.Accept? || IsConfirmed(d, e) then Derived(d)
    else if Takes(d, e) then d.state.Linked? || TakesAndAccepts(d, e)
    else Authenticated(d) && (HasKeys(d) || !(Requests(d, e) || RequestsAgain(d, e)))
  }

  lemma KeysExactly(d: Device, localIP: u32, e: Event)
    ensures HasKeys(Step(d, localIP, e)) <==> HasKeysAfter(d, e)
    ensures Derived(Step(d, localIP, e)) <==> DerivedAfter(d, e)
    ensures Authenticated(Step(d, localIP, e)) <==> AuthenticatedAfter(d, e)
  {
    match e
    case Receive(LinkRequest(_)) =>
    case Receive(LinkResponse(_, _)) => ResponseKeys(d, localIP, e);
    case Receive(HandshakeData(_)) => DataKeys(d, localIP, e);
    case Timer => TimerKeys(d, localIP, e);
    case _ =>
  }

  lemma ResponseKeys(d: Device, localIP: u32, e: Event)
    requires e.Receive? && e.packet.LinkResponse?
    ensures HasKeys(Step(d, localIP, e)) <==> HasKeysAfter(d, e)
    ensures Derived(Step(d, localIP, e)) <==> DerivedAfter(d, e)
    ensures Authenticated(Step(d, localIP, e)) <==> AuthenticatedAfter(d, e)
  {
  }

  lemma DataKeys(d: Device, localIP: u32, e: Event)
    requires e.Receive? && e.packet.HandshakeData?
    ensures HasKeys(Step(d, localIP, e)) <==> HasKeysAfter(d, e)
    ensures Derived(Step(d, localIP, e)) <==> DerivedAfter(d, e)
    ensures Authenticated(Step(d, localIP, e)) <==> AuthenticatedAfter(d, e)
  {
  }

  lemma TimerKeys(d: Device, localIP: u32, e: Event)
    requires e.Timer?
    ensures HasKeys(Step(d, localIP, e)) <==> HasKeysAfter(d, e)
    ensures Derived(Step(d, localIP, e)) <==> DerivedAfter(d, e)
    ensures Authenticated(Step(d, localIP, e)) <==> AuthenticatedAfter(d, e)
  {
  }

  // ---- State, token, session, address ------------------------------------------------------

  function StateAfter(d: Device, localIP: u32, e: Event): NetLinkState {
    if Drops(d, e) || e.Vanish? then Inactive
    else if e.Accept? || IsConfirmed(d, e) || TakesAndAccepts(d, e) then Linked
    else if Begins(d, e) then (if e.sessionOk then LinkingInit else Failed)
    else if Joins(d, e) && !e.sessionOk then Failed
    else if Asked(d, localIP, e) then (if d.state.Linked? then Linked else LinkingWait)
    else if Requests(d, e) then LinkingAck
    else if Takes(d, e) && !d.state.Linked? then LinkingAuth
    else d.state
  }

  function TokenAfter(d: Device, localIP: u32, e: Event): u32 {
    if Drops(d, e) || e.Vanish? then 0
    else if Begins(d, e) then e.newToken
    else if Asked(d, localIP, e) then e.packet.token
    else d.token
  }

  predicate SessionAfter(d: Device, localIP: u32, e: Event) {
    if Drops(d, e) then false
    else if (Begins(d, e) || Joins(d, e)) && e.sessionOk then true
    else if Asked(d, localIP, e) && d.state.Linking() then false
    else d.session
  }

  lemma LinkExactly(d: Device, localIP: u32, e: Event)
    ensures Step(d, localIP, e).state == StateAfter(d, localIP, e)
    ensures Step(d, localIP, e).token == TokenAfter(d, localIP, e)
    ensures Step(d, localIP, e).session <==> SessionAfter(d, localIP, e)
    ensures Step(d, localIP, e).ip == if e.Vanish? then 0 else d.ip
  {
    hide StateAfter, TokenAfter, SessionAfter;
    match e
    case Receive(LinkRequest(_)) => RequestLink(d, localIP, e);
    case Receive(LinkResponse(_, _)) => ResponseLink(d, localIP, e);
    case Receive(HandshakeData(_)) =>
      DataState(d, localIP, e);
      DataRest(d, localIP, e);
    case _ => CommandLink(d, localIP, e);
  }

  lemma CommandLink(d: Device, localIP: u32, e: Event)
    requires !e.Receive?
    ensures var after := Step(d, localIP, e);
            && after.state == StateAfter(d, localIP, e) && after.token == TokenAfter(d, localIP, e)
            && (after.session <==> SessionAfter(d, localIP, e)) && after.ip == if e.Vanish? then 0 else d.ip
  {
    match e
    case Timer => TimerLink(d, localIP, e);
    case _ =>
  }

  lemma TimerLink(d: Device, localIP: u32, e: Event)
    requires e.Timer?
    ensures var after := Step(d, localIP, e);
            && after.state == StateAfter(d, localIP, e) && after.token == TokenAfter(d, localIP, e)
            && (after.session <==> SessionAfter(d, localIP, e)) && after.ip == d.ip
  {
  }

  lemma RequestLink(d: Device, localIP: u32, e: Event)
    requires e.Receive? && e.packet.LinkRequest?
    ensures var after := Step(d, localIP, e);
            && after.state == StateAfter(d, localIP, e) && after.token == TokenAfter(d, localIP, e)
            && (after.session <==> SessionAfter(d, localIP, e)) && after.ip == d.ip
  {
  }

  lemma ResponseLink(d: Device, localIP: u32, e: Event)
    requires e.Receive? && e.packet.LinkResponse?
    ensures var after := Step(d, localIP, e);
            && after.state == StateAfter(d, localIP, e) && after.token == TokenAfter(d, localIP, e)
            && (after.session <==> SessionAfter(d, localIP, e)) && after.ip == d.ip
  {
  }

  lemma DataState(d: Device, localIP: u32, e: Event)
    requires e.Receive? && e.packet.HandshakeData?
    ensures Step(d, localIP, e).state == StateAfter(d, localIP, e)
  {
    hide GenerateKeyPair, DeriveSecret;
  }

  lemma DataRest(d: Device, localIP: u32, e: Event)
    requires e.Receive? && e.packet.HandshakeData?
    ensures var after := Step(d, localIP, e);
            && after.token == TokenAfter(d, localIP, e)
            && (after.session <==> SessionAfter(d, localIP, e)) && after.ip == d.ip
  {
  }

  // ---- Retry entry -------------------------------------------------------------------------

  // Five tries for a request or a wait, one for handshake data (none if the timer sent it) and
  // one while the user is asked; gone once the attempt is decided.
  function RetryAfter(d: Device, localIP: u32, e: Event): Option<RetryContext> {
    if e.Forget? then d.retry
    else if Drops(d, e) || e.Accept? || IsConfirmed(d, e) || TakesAndAccepts(d, e) then None
    else if Begins(d, e) && e.sessionOk then Some(RetryContext(e.newToken, 5, true))
    else if Joins(d, e) && e.sessionOk then Some(RetryContext(d.token, 5, true))
    else if Asked(d, localIP, e) && d.state.Linking() then None
    else if Requests(d, e) then Some(RetryContext(d.token, 1, true))
    else if RequestsAgain(d, e) then Some(RetryContext(d.token, 0, true))
    else if Takes(d, e) && d.state.Linked? then None
    else if Takes(d, e) && !d.state.LinkingAuth? && d.retry.Some? then Some(d.retry.value.(retriesLeft := 1))
    else if Fires(d, e) then
      if d.state.LinkingInit? || d.state.LinkingWait?
      then Some(d.retry.value.(retriesLeft := d.retry.value.retriesLeft - 1)) else None
    else d.retry
  }

  lemma RetryExactly(d: Device, localIP: u32, e: Event)
    ensures Step(d, localIP, e).retry == RetryAfter(d, localIP, e)
  {
    match e
    case Receive(LinkRequest(_)) =>
    case Receive(LinkResponse(_, _)) => ResponseRetry(d, localIP, e);
    case Receive(HandshakeData(_)) => DataRetry(d, localIP, e);
    case Timer => TimerRetry(d, localIP, e);
    case _ =>
  }

  lemma TimerRetry(d: Device, localIP: u32, e: Event)
    requires e.Timer?
    ensures Step(d, localIP, e).retry == RetryAfter(d, localIP, e)
  {
  }

  lemma ResponseRetry(d: Device, localIP: u32, e: Event)
    requires e.Receive? && e.packet.LinkResponse?
    ensures Step(d, localIP, e).retry == RetryAfter(d, localIP, e)
  {
  }

  lemma DataRetry(d: Device, localIP: u32, e: Event)
    requires e.Receive? && e.packet.HandshakeData?
    ensures Step(d, localIP, e).retry == RetryAfter(d, localIP, e)
  {
  }

  // ---- The good run ------------------------------------------------------------------------

  // Each state follows from the one before it by the action between them.
  ghost predicate Follows(states: seq<System>, run: seq<Action>) {
    |states| == |run| + 1 &&
    forall k :: 0 <= k < |run| ==> Enabled(states[k], run[k]) && states[k + 1] == Next(states[k], run[k])
  }

  lemma {:induction false} FollowedIsExec(states: seq<System>, run: seq<Action>)
    requires Follows(states, run)
    ensures Valid(states[0], run) && Exec(states[0], run) == states[|run|]
    decreases |run|
  {
    hide Next, Enabled;
    if run != [] {
      var n := |run| - 1;
      FollowedIsExec(states[..n + 1], run[..n]);
    }
  }

  // Left asks Right, every packet arrives in order, and somebody accepts at Right.
  function GoodRun(t: u32, trust: bool): seq<Action> {
    [Action(Left, Connect(t, true)),
     Action(Right, Receive(LinkRequest(t))),
     Action(Right, Connect(t, true)),
     Action(Left, Receive(LinkResponse(LinkingWait, t))),
     Action(Right, Receive(HandshakeData(t))),
     Action(Left, Receive(HandshakeData(t))),
     Action(Right, Accept(trust)),
     Action(Left, Receive(LinkResponse(Linked, t)))]
  }

  function Stranger(ip: u32): Device { Device(ip, Inactive, 0, false, None, None, false, []) }

  function LeftAt(ip: u32, t: u32, k: nat): Device {
    var d := Stranger(ip).(token := t, session := true);
    var keys, secret, out := EcdhSession(true, false, false), EcdhSession(true, true, false), [LinkRequest(t)];
    if k == 0 then Stranger(ip)
    else if k <= 3 then d.(state := LinkingInit, retry := Some(RetryContext(t, 5, true)), out := out)
    else if k <= 5 then
      d.(state := LinkingAck, retry := Some(RetryContext(t, 1, true)), crypt := Some(keys),
         out := out + [HandshakeData(t)])
    else if k <= 7 then
      d.(state := LinkingAuth, retry := Some(RetryContext(t, 1, true)), crypt := Some(secret),
         out := out + [HandshakeData(t)])
    else
      d.(state := Linked, crypt := Some(secret.(authenticated := true)), out := out + [HandshakeData(t)])
  }

  function RightAt(ip: u32, t: u32, trust: bool, k: nat): Device {
    var d := Stranger(ip).(token := t, session := true);
    var secret, out := EcdhSession(true, true, false), [LinkResponse(LinkingWait, t)];
    if k <= 1 then Stranger(ip)
    else if k == 2 then d.(session := false, state := LinkingWait)
    else if k <= 4 then d.(state := LinkingWait, retry := Some(RetryContext(t, 5, true)), out := out)
    else if k <= 6 then
      d.(state := LinkingAuth, retry := Some(RetryContext(t, 1, true)), crypt := Some(secret),
         out := out + [HandshakeData(t)])
    else
      d.(state := Linked, crypt := Some(secret.(authenticated := true)), paired := trust,
         out := out + [HandshakeData(t), LinkResponse(Linked, t)])
  }

  function GoodAt(a: u32, b: u32, t: u32, trust: bool, k: nat): System {
    System(LeftAt(b, t, k), RightAt(a, t, trust, k), a, b)
  }

  lemma GoodStep(a: u32, b: u32, t: u32, trust: bool, k: nat)
    requires t != 0 && k < 8
    ensures Enabled(GoodAt(a, b, t, trust, k), GoodRun(t, trust)[k])
    ensures Next(GoodAt(a, b, t, trust, k), GoodRun(t, trust)[k]) == GoodAt(a, b, t, trust, k + 1)
  {
    if k < 4 {
      GoodOpening(a, b, t, trust, k);
    } else {
      GoodClosing(a, b, t, trust, k);
    }
  }

  lemma GoodOpening(a: u32, b: u32, t: u32, trust: bool, k: nat)
    requires t != 0 && k < 4
    ensures Enabled(GoodAt(a, b, t, trust, k), GoodRun(t, trust)[k])
    ensures Next(GoodAt(a, b, t, trust, k), GoodRun(t, trust)[k]) == GoodAt(a, b, t, trust, k + 1)
  {
    if k == 0 {} else if k == 1 {} else if k == 2 {} else {}
  }

  lemma GoodClosing(a: u32, b: u32, t: u32, trust: bool, k: nat)
    requires t != 0 && 4 <= k < 8
    ensures Enabled(GoodAt(a, b, t, trust, k), GoodRun(t, trust)[k])
    ensures Next(GoodAt(a, b, t, trust, k), GoodRun(t, trust)[k]) == GoodAt(a, b, t, trust, k + 1)
  {
    if k == 4 {} else if k == 5 {} else if k == 6 {} else {}
  }

  // Two strangers with any addresses end LINKED on both sides, authenticated, with the same
  // token and without retry entries; Right remembers Left exactly if it was told to.
  lemma StrangersLink(a: u32, b: u32, t: u32, trust: bool)
    requires t != 0
    ensures var start := System(Stranger(b), Stranger(a), a, b);
            var end := Exec(start, GoodRun(t, trust));
            && Valid(start, GoodRun(t, trust))
            && end.left.state.Linked? && end.right.state.Linked?
            && Authenticated(end.left) && Authenticated(end.right)
            && end.left.token == end.right.token == t
            && end.left.retry.None? && end.right.retry.None?
            && !end.left.paired && end.right.paired == trust
  {
    var run := GoodRun(t, trust);
    var states := seq(9, k requires 0 <= k => GoodAt(a, b, t, trust, k));
    forall k | 0 <= k < |run| ensures Enabled(states[k], run[k]) && states[k + 1] == Next(states[k], run[k]) {
      GoodStep(a, b, t, trust, k);
    }
    FollowedIsExec(states, run);
    assert states[8] == GoodAt(a, b, t, trust, 8);
  }
}
