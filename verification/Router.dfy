/** The count of registered window sessions, with any number of threads between the exchange of
    a session pointer and the matching change of the counter. */
module Router {
  import opened Types

  const DEVICES: nat := 9

  // 0 is the null session. adds and subs are the threads that have exchanged a pointer and owe
  // the counter an increment or a decrement.
  datatype State = State(sessions: seq<nat>, count: u32, adds: set<nat>, subs: set<nat>)

  datatype Step =
    | Register(thread: nat, device: nat, session: nat)   // RegisterWindowSession, the exchange
    | Unregister(thread: nat, device: nat)               // UnregisterWindowSession or UnregisterSession
    | FetchAdd(thread: nat)
    | FetchSub(thread: nat)

  // A thread finishes one call before it starts the next.
  predicate Enabled(s: State, e: Step) {
    match e
    case Register(t, _, _) => t !in s.adds && t !in s.subs
    case Unregister(t, _) => t !in s.adds && t !in s.subs
    case FetchAdd(t) => t in s.adds
    case FetchSub(t) => t in s.subs
  }

  function Wrap(n: int): u32 { n % 0x1_0000_0000 }

  function Next(s: State, e: Step): State {
    match e
    case Register(t, d, session) =>
      if d >= |s.sessions| then s
      else
        var previous := s.sessions[d];
        s.(sessions := s.sessions[d := session],
           adds := if previous == 0 && session != 0 then s.adds + {t} else s.adds)
    case Unregister(t, d) =>
      if d >= |s.sessions| then s
      else
        var previous := s.sessions[d];
        s.(sessions := s.sessions[d := 0], subs := if previous != 0 then s.subs + {t} else s.subs)
    case FetchAdd(t) => s.(count := Wrap(s.count + 1), adds := s.adds - {t})
    case FetchSub(t) => s.(count := Wrap(s.count - 1), subs := s.subs - {t})
  }

  function NonNull(sessions: seq<nat>): nat {
    if sessions == [] then 0
    else NonNull(sessions[..|sessions| - 1]) + if sessions[|sessions| - 1] != 0 then 1 else 0
  }

  lemma {:induction false} NonNullAfter(s: seq<nat>, d: nat, x: nat)
    requires d < |s|
    ensures NonNull(s[d := x]) == NonNull(s) - (if s[d] != 0 then 1 else 0) + (if x != 0 then 1 else 0)
  {
    var n, t := |s| - 1, s[d := x];
    if d < n {
      NonNullAfter(s[..n], d, x);
      assert t[..n] == s[..n][d := x];
    } else {
      assert t[..n] == s[..n];
    }
  }

  // The counter is the number of sessions, less the increments and plus the decrements owed.
  predicate Conserved(s: State) {
    && |s.sessions| == DEVICES
    && s.count == Wrap(NonNull(s.sessions) - |s.adds| + |s.subs|)
  }

  // Registering the null session over a live one drops it without owing a decrement.
  predicate RegistersNull(s: State, e: Step) {
    e.Register? && e.device < |s.sessions| && e.session == 0 && s.sessions[e.device] != 0
  }

  lemma OwedAfter(s: set<nat>, t: nat)
    ensures t !in s ==> |s + {t}| == |s| + 1
    ensures t in s ==> |s - {t}| == |s| - 1
  {
  }

  lemma WrapsUp(n: int)
    ensures Wrap(Wrap(n) + 1) == Wrap(n + 1) != Wrap(n)
  {
  }

  lemma WrapsDown(n: int)
    ensures Wrap(Wrap(n) - 1) == Wrap(n - 1) != Wrap(n)
  {
  }

  lemma ExchangeKeeps(s: State, e: Step)
    requires Conserved(s) && Enabled(s, e) && (e.Register? || e.Unregister?)
    ensures Conserved(Next(s, e)) <==> !RegistersNull(s, e)
  {
    hide Wrap, NonNull;
    OwedAfter(s.adds, e.thread);
    OwedAfter(s.subs, e.thread);
    WrapsUp(NonNull(s.sessions) - |s.adds| + |s.subs|);
    WrapsDown(NonNull(s.sessions) - |s.adds| + |s.subs|);
    if e.device < |s.sessions| {
      NonNullAfter(s.sessions, e.device, if e.Register? then e.session else 0);
    }
  }

  lemma FetchKeeps(s: State, e: Step)
    requires Conserved(s) && Enabled(s, e) && (e.FetchAdd? || e.FetchSub?)
    ensures Conserved(Next(s, e))
  {
    hide Wrap, NonNull;
    OwedAfter(s.adds, e.thread);
    OwedAfter(s.subs, e.thread);
    WrapsUp(NonNull(s.sessions) - |s.adds| + |s.subs|);
    WrapsDown(NonNull(s.sessions) - |s.adds| + |s.subs|);
  }

  lemma ConservedExactly(s: State, e: Step)
    requires Conserved(s) && Enabled(s, e)
    ensures Conserved(Next(s, e)) <==> !RegistersNull(s, e)
  {
    hide Conserved, Next, Enabled;
    if e.Register? || e.Unregister? {
      ExchangeKeeps(s, e);
    } else {
      FetchKeeps(s, e);
    }
  }

  // ---- Runs ------------------------------------------------------------------------------

  function Exec(s: State, run: seq<Step>): State {
    if run == [] then s else Next(Exec(s, run[..|run| - 1]), run[|run| - 1])
  }

  predicate Valid(s: State, run: seq<Step>) {
    run != [] ==> Valid(s, run[..|run| - 1]) && Enabled(Exec(s, run[..|run| - 1]), run[|run| - 1])
  }

  predicate NeverRegistersNull(s: State, run: seq<Step>) {
    run != [] ==>
      NeverRegistersNull(s, run[..|run| - 1]) && !RegistersNull(Exec(s, run[..|run| - 1]), run[|run| - 1])
  }

  predicate ConservedThroughout(s: State, run: seq<Step>) {
    Conserved(Exec(s, run)) && (run != [] ==> ConservedThroughout(s, run[..|run| - 1]))
  }

  function Start(): State { State([0, 0, 0, 0, 0, 0, 0, 0, 0], 0, {}, {}) }

  // The count is conserved at every step boundary of a run exactly when no step of the run
  // registers null over a session.
  lemma {:induction false} ConservedInEveryRun(run: seq<Step>)
    requires Valid(Start(), run)
    ensures ConservedThroughout(Start(), run) <==> NeverRegistersNull(Start(), run)
  {
    if run == [] {
      NoSessions(Start().sessions);
    } else {
      hide Conserved, Next, Enabled, RegistersNull, Start;
      var front := run[..|run| - 1];
      ConservedInEveryRun(front);
      if Conserved(Exec(Start(), front)) {
        ConservedExactly(Exec(Start(), front), run[|run| - 1]);
      }
    }
  }

  // When no thread is between its two atomic steps the counter is exactly the number of
  // registered sessions, in every run.
  lemma CountIsExactAtRest(run: seq<Step>)
    requires Valid(Start(), run) && NeverRegistersNull(Start(), run)
    requires Exec(Start(), run).adds == Exec(Start(), run).subs == {}
    ensures Exec(Start(), run).count == NonNull(Exec(Start(), run).sessions)
  {
    hide Exec, Valid, NeverRegistersNull, NonNull;
    ConservedInEveryRun(run);
    AtMostLength(Exec(Start(), run).sessions);
  }

  // What the last exchange at device d stored, null if there was none.
  function LastStored(run: seq<Step>, d: nat): nat {
    if run == [] then 0
    else match run[|run| - 1]
      case Register(_, device, session) => if device == d then session else LastStored(run[..|run| - 1], d)
      case Unregister(_, device) => if device == d then 0 else LastStored(run[..|run| - 1], d)
      case _ => LastStored(run[..|run| - 1], d)
  }

  // After any run each slot holds what the last exchange there stored, whatever the threads owe.
  lemma {:induction false} SlotsHoldTheLastStored(run: seq<Step>, d: nat)
    requires d < DEVICES
    ensures |Exec(Start(), run).sessions| == DEVICES && Exec(Start(), run).sessions[d] == LastStored(run, d)
  {
    if run != [] {
      SlotsHoldTheLastStored(run[..|run| - 1], d);
    }
  }

  // Each exchange owes the counter an increment exactly if it puts a session where there was
  // none, and a decrement exactly if it removes one by unregistering.
  lemma OwesExactly(s: State, e: Step, t: nat)
    ensures t in Next(s, e).adds <==>
              (t in s.adds && e != FetchAdd(t)) ||
              (e.Register? && e.thread == t && e.device < |s.sessions| && s.sessions[e.device] == 0 && e.session != 0)
    ensures t in Next(s, e).subs <==>
              (t in s.subs && e != FetchSub(t)) ||
              (e.Unregister? && e.thread == t && e.device < |s.sessions| && s.sessions[e.device] != 0)
  {
  }

  lemma {:induction false} NoSessions(s: seq<nat>)
    requires forall k :: 0 <= k < |s| ==> s[k] == 0
    ensures NonNull(s) == 0
  {
    if s != [] {
      NoSessions(s[..|s| - 1]);
    }
  }

  lemma {:induction false} AtMostLength(s: seq<nat>)
    ensures NonNull(s) <= |s|
  {
    if s != [] {
      AtMostLength(s[..|s| - 1]);
    }
  }

  // ---- Whole calls -------------------------------------------------------------------------

  datatype Table = Table(sessions: seq<nat>, count: u32) {
    predicate Exact() { count == NonNull(sessions) }
  }

  function RegisterCall(t: Table, device: nat, session: nat): Table {
    if device >= |t.sessions| then t
    else
      Table(t.sessions[device := session],
            if t.sessions[device] == 0 && session != 0 then Wrap(t.count + 1) else t.count)
  }

  function UnregisterCall(t: Table, device: nat): Table {
    if device >= |t.sessions| then t
    else Table(t.sessions[device := 0], if t.sessions[device] != 0 then Wrap(t.count - 1) else t.count)
  }

  function TableOf(s: State): Table { Table(s.sessions, s.count) }

  // A thread that nobody interrupts makes exactly the call: its exchange, and its change of the
  // counter if it owes one.
  lemma UninterruptedCalls(s: State, thread: nat, device: nat, session: nat)
    requires thread !in s.adds && thread !in s.subs
    ensures var e := Next(s, Register(thread, device, session));
            var end := if thread in e.adds then Next(e, FetchAdd(thread)) else e;
            TableOf(end) == RegisterCall(TableOf(s), device, session) && end.adds == s.adds && end.subs == s.subs
    ensures var e := Next(s, Unregister(thread, device));
            var end := if thread in e.subs then Next(e, FetchSub(thread)) else e;
            TableOf(end) == UnregisterCall(TableOf(s), device) && end.adds == s.adds && end.subs == s.subs
  {
  }

  // A call keeps the count exact, except for the one that registers null over a session.
  lemma RegisterExactly(t: Table, device: nat, session: nat)
    requires t.Exact() && |t.sessions| == DEVICES
    ensures RegisterCall(t, device, session).Exact()
            <==> !(device < DEVICES && session == 0 && t.sessions[device] != 0)
  {
    hide NonNull;
    AtMostLength(t.sessions);
    if device < DEVICES {
      NonNullAfter(t.sessions, device, session);
      AtMostLength(t.sessions[device := session]);
    }
  }

  lemma UnregisterKeeps(t: Table, device: nat)
    requires t.Exact() && |t.sessions| == DEVICES
    ensures UnregisterCall(t, device).Exact()
  {
    hide NonNull;
    AtMostLength(t.sessions);
    if device < DEVICES {
      NonNullAfter(t.sessions, device, 0);
    }
  }

  // ---- Router object -----------------------------------------------------------------------

  class OmniRouter {
    var windowSessions: array<nat>
    var windowSessionCount: u32

    ghost predicate Valid()
      reads this
    {
      windowSessions.Length == DEVICES
    }

    function View(): Table
      reads this, windowSessions
    {
      Table(windowSessions[..], windowSessionCount)
    }

    constructor ()
      ensures Valid() && fresh(windowSessions)
      ensures View() == Table([0, 0, 0, 0, 0, 0, 0, 0, 0], 0) && View().Exact()
    {
      windowSessions := new nat[DEVICES](_ => 0);
      windowSessionCount := 0;
      new;
      NoSessions(windowSessions[..]);
    }

    method RegisterWindowSession(device: nat, session: nat)
      requires Valid()
      modifies this, windowSessions
      ensures Valid() && windowSessions == old(windowSessions)
      ensures View() == RegisterCall(old(View()), device, session)
      ensures device < DEVICES ==> windowSessions[device] == session
      ensures forall k :: 0 <= k < DEVICES && k != device ==> windowSessions[k] == old(windowSessions[k])
      ensures windowSessionCount == if device < DEVICES && old(windowSessions[..])[device] == 0 && session != 0
                                    then Wrap(old(windowSessionCount) + 1) else old(windowSessionCount)
      ensures old(View()).Exact() ==>
                (View().Exact() <==> !(device < DEVICES && session == 0 && old(windowSessions[..])[device] != 0))
    {
      ghost var was := View();
      if device < DEVICES {
        var previous := windowSessions[device];
        windowSessions[device] := session;
        if previous == 0 && session != 0 {
          windowSessionCount := Wrap(windowSessionCount + 1);
        }
      }
      if was.Exact() {
        RegisterExactly(was, device, session);
      }
    }

    method UnregisterWindowSession(device: nat)
      requires Valid()
      modifies this, windowSessions
      ensures Valid() && windowSessions == old(windowSessions)
      ensures View() == UnregisterCall(old(View()), device)
      ensures device < DEVICES ==> windowSessions[device] == 0
      ensures forall k :: 0 <= k < DEVICES && k != device ==> windowSessions[k] == old(windowSessions[k])
      ensures windowSessionCount == if device < DEVICES && old(windowSessions[..])[device] != 0
                                    then Wrap(old(windowSessionCount) - 1) else old(windowSessionCount)
      ensures old(View()).Exact() ==> View().Exact()
    {
      ghost var was := View();
      if device < DEVICES {
        var previous := windowSessions[device];
        windowSessions[device] := 0;
        if previous != 0 {
          windowSessionCount := Wrap(windowSessionCount - 1);
        }
      }
      if was.Exact() {
        UnregisterKeeps(was, device);
      }
    }
  }
}
