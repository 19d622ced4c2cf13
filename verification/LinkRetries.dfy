/** How long an attempt can go on: the exact number of times the retry timer can still fire
    before a new connect or a link request starts the attempt over. */
module LinkRetries {
  import opened Types
  import opened Link

  // Only these start an attempt, or start it over: a scan that misses the device does not end
  // what it interrupts.
  predicate Restarts(e: Event) { e.Connect? || e.Vanish? || (e.Receive? && e.packet.LinkRequest?) }

  // The retry timer has an entry to work on.
  predicate Armed(d: Device) { d.retry.Some? && d.retry.value.active }

  function RetriesLeft(d: Device): nat {
    if Armed(d) && d.retry.value.retriesLeft > 0 then d.retry.value.retriesLeft else 0
  }

  // ---- One step ------------------------------------------------------------------------

  // Every response, handshake datum, accept, reject or timer pass leaves the link record alone,
  // leaves it without a retry entry, or makes the pair (distance to LINKED, retries) smaller.
  lemma EachStepMakesProgress(d: Device, localIP: u32, e: Event)
    requires !Restarts(e) && !e.Forget?
    ensures var after := Step(d, localIP, e);
            || (after.state == d.state && after.retry == d.retry &&
                after.token == d.token && after.session == d.session)
            || after.retry.None?
            || d.state.Ord() < after.state.Ord()
            || (after.state == d.state && d.retry.Some? &&
                0 <= after.retry.value.retriesLeft < d.retry.value.retriesLeft)
  {
    match e
    case Receive(p) => match p { case LinkResponse(_, _) => case HandshakeData(_) => }
    case _ =>
  }

  // ---- Whole runs ----------------------------------------------------------------------

  // How often the timer fires, that is, finds an armed entry, along the events.
  function Firings(d: Device, localIP: u32, es: seq<Event>): nat
    decreases |es|
  {
    if es == [] then 0
    else (if es[0].Timer? && Armed(d) then 1 else 0) + Firings(Step(d, localIP, es[0]), localIP, es[1..])
  }

  // The claimed maximum: in LINKING_INIT or LINKING_WAIT every retry left, and with a session
  // two more for the handshake request that a LINKING_WAIT response can still set off.
  function FiresLeft(d: Device): nat {
    var armed := if Armed(d) then 1 else 0;
    match d.state
    case LinkingInit | LinkingWait => RetriesLeft(d) + if d.session then 2 else armed
    case LinkingAck => if RetriesLeft(d) > 0 then 2 else armed
    case Inactive | Failed =>
      if d.session then (if RetriesLeft(d) > 0 then 3 else 2) else armed
    case LinkingAuth | Linked => armed
  }

  lemma ResponseSpends(d: Device, localIP: u32, e: Event)
    requires e.Receive? && e.packet.LinkResponse?
    ensures FiresLeft(Step(d, localIP, e)) <= FiresLeft(d)
  {
  }

  lemma HandshakeDataSpends(d: Device, token: u32)
    ensures FiresLeft(OnHandshakeData(d, token)) <= FiresLeft(d)
  {
  }

  lemma TimerSpends(d: Device)
    ensures (if Armed(d) then 1 else 0) + FiresLeft(OnTimer(d)) <= FiresLeft(d)
  {
  }

  lemma StepSpends(d: Device, localIP: u32, e: Event)
    requires !Restarts(e)
    ensures (if e.Timer? && Armed(d) then 1 else 0) + FiresLeft(Step(d, localIP, e)) <= FiresLeft(d)
  {
    hide OnHandshakeData, OnLinkResponse, OnTimer;
    match e
    case Receive(LinkResponse(_, _)) => ResponseSpends(d, localIP, e);
    case Receive(HandshakeData(token)) => HandshakeDataSpends(d, token);
    case Timer => TimerSpends(d);
    case _ =>
  }

  lemma {:induction false} NeverMoreThanTheBudget(d: Device, localIP: u32, es: seq<Event>)
    requires forall e :: e in es ==> !Restarts(e)
    ensures Firings(d, localIP, es) <= FiresLeft(d)
    decreases |es|
  {
    hide Step, FiresLeft, Armed;
    if es != [] {
      assert es[0] in es;
      StepSpends(d, localIP, es[0]);
      NeverMoreThanTheBudget(Step(d, localIP, es[0]), localIP, es[1..]);
    }
  }

  // Missed by a scan, a device with a session and a retry entry keeps both and gets its states
  // back: the timer can then fire more often than before exactly when the attempt was already
  // past LINKING_WAIT.
  lemma VanishingRestartsExactly(d: Device)
    ensures FiresLeft(ClearInstance(d)) > FiresLeft(d) <==>
              d.session && NetLinkState.LinkingWait.Ord() < d.state.Ord()
  {
  }

  // Let the timer fire while that costs nothing, otherwise first take the response that leads
  // to LINKING_ACK.
  function Spender(d: Device): Event {
    if Armed(d) && (!d.session || RetriesLeft(d) > 0 || d.state.Ord() >= NetLinkState.LinkingAck.Ord())
    then Timer else Receive(LinkResponse(LinkingWait, d.token))
  }

  lemma SpenderSpends(d: Device, localIP: u32)
    requires FiresLeft(d) > 0
    ensures var e, after := Spender(d), Step(d, localIP, Spender(d));
            && !Restarts(e)
            && (e.Timer? ==> Armed(d) && FiresLeft(after) == FiresLeft(d) - 1)
            && (!e.Timer? ==> FiresLeft(after) == FiresLeft(d) &&
                              d.state.Ord() < after.state.Ord() == NetLinkState.LinkingAck.Ord())
  {
  }

  function SpendAll(d: Device, localIP: u32): seq<Event>
    decreases FiresLeft(d), if d.state.Ord() < NetLinkState.LinkingAck.Ord() then 1 else 0
  {
    if FiresLeft(d) == 0 then []
    else
      SpenderSpends(d, localIP);
      [Spender(d)] + SpendAll(Step(d, localIP, Spender(d)), localIP)
  }

  lemma {:induction false} TheBudgetIsReached(d: Device, localIP: u32)
    ensures Firings(d, localIP, SpendAll(d, localIP)) == FiresLeft(d)
    ensures forall e :: e in SpendAll(d, localIP) ==> !Restarts(e)
    decreases FiresLeft(d), if d.state.Ord() < NetLinkState.LinkingAck.Ord() then 1 else 0
  {
    hide Step, FiresLeft, Armed, Spender;
    if FiresLeft(d) > 0 {
      SpenderSpends(d, localIP);
      var next := Step(d, localIP, Spender(d));
      TheBudgetIsReached(next, localIP);
      assert SpendAll(d, localIP)[1..] == SpendAll(next, localIP);
    }
  }

  // So an attempt that has just been started or joined sees at most seven firings, and there
  // is a continuation in which it sees all seven.
  lemma SevenFiringsAtMost(d: Device, localIP: u32, t: u32, es: seq<Event>)
    requires d.state.Inactive? || d.state.Failed? || d.state.LinkingWait?
    requires forall e :: e in es ==> !Restarts(e)
    ensures var after := ConnectInstance(d, t, true);
            && Firings(after, localIP, es) <= 7
            && Firings(after, localIP, SpendAll(after, localIP)) == 7
  {
    var after := ConnectInstance(d, t, true);
    NeverMoreThanTheBudget(after, localIP, es);
    TheBudgetIsReached(after, localIP);
  }
}
