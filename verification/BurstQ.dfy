/** The single-producer single-consumer ring: the object as one thread sees it, and every
    interleaving of its two threads at single load and store granularity. */
module BurstQueue {
  import opened Types

  // The mask computes the following index, because the size is a power of two.
  lemma MaskAdvances(i: bv32, n: bv32)
    requires n & (n - 1) == 0 && i < n
    ensures (i + 1) & (n - 1) == if i + 1 == n then 0 else i + 1
  {
  }

  lemma AdvanceIsNext(k: nat, n: nat)
    requires n > 0
    ensures Following(k % n, n) == (k + 1) % n
  {
    var q, r := k / n, k % n;
    assert k == n * q + r;
    if r + 1 == n {
      assert k + 1 == n * (q + 1);
      ModIs(q + 1, 0, n);
    } else {
      assert k + 1 == n * q + (r + 1);
      ModIs(q, r + 1, n);
    }
  }

  lemma ModIs(q: nat, r: nat, n: nat)
    requires r < n
    ensures (n * q + r) % n == r
  {
    var x := n * q + r;
    var d := x / n - q;
    assert x == n * (x / n) + x % n;
    assert n * d == r - x % n by { Distribute(n, x / n, q); }
    Squeeze(n, d);
  }

  lemma Distribute(n: int, a: int, b: int)
    ensures n * (a - b) == n * a - n * b
  {
  }

  lemma Squeeze(n: int, d: int)
    requires n > 0 && -n < n * d < n
    ensures d == 0
  {
    assert d >= 1 ==> n * d >= n;
    assert d <= -1 ==> n * d <= -n;
  }

  // Two counters less than n apart have the same slot only if they are equal.
  lemma SameSlot(a: nat, b: nat, n: nat)
    requires n > 0 && a <= b < a + n && a % n == b % n
    ensures a == b
  {
    assert a == n * (a / n) + a % n && b == n * (b / n) + b % n;
    Distribute(n, b / n, a / n);
    Squeeze(n, b / n - a / n);
  }

  // ---- One thread ------------------------------------------------------------------------

  datatype Ring<T> = Ring(slots: seq<T>, head: nat, tail: nat) {
    predicate Valid() { head < |slots| && tail < |slots| }

    // What is queued, oldest first.
    function Contents(): seq<T>
      requires Valid()
    {
      if tail <= head then slots[tail..head] else slots[tail..] + slots[..head]
    }

    predicate Full()
      requires Valid()
    {
      Following(head, |slots|) == tail
    }

    function PushCall(item: T): Ring<T>
      requires Valid()
    {
      if Full() then this
      else this.(slots := slots[head := item], head := Following(head, |slots|))
    }

    function PopCall(): Ring<T>
      requires Valid()
    {
      if tail == head then this else this.(tail := Following(tail, |slots|))
    }
  }

  // The calls are those of a FIFO that holds one item less than there are slots.
  lemma PushAppends<T>(r: Ring<T>, item: T)
    requires r.Valid()
    ensures r.Full() <==> |r.Contents()| == |r.slots| - 1
    ensures r.PushCall(item).Valid()
    ensures r.PushCall(item).Contents() == if r.Full() then r.Contents() else r.Contents() + [item]
  {
    var q := r.PushCall(item);
    if !r.Full() && r.tail > r.head {
      assert q.slots[r.tail..] == r.slots[r.tail..];
      assert q.slots[..r.head + 1] == r.slots[..r.head] + [item];
    }
  }

  lemma PopRemoves<T>(r: Ring<T>)
    requires r.Valid()
    ensures r.PopCall().Valid()
    ensures r.Contents() == [] <==> r.tail == r.head
    ensures r.PopCall().Contents() == if r.Contents() == [] then [] else r.Contents()[1..]
    ensures r.Contents() != [] ==> r.Contents()[0] == r.slots[r.tail]
  {
  }

  class BurstQ<T(0)> {
    var queue: array<T>
    var head: nat
    var tail: nat

    ghost function View(): Ring<T>
      reads this, queue
    {
      Ring(queue[..], head, tail)
    }

    ghost predicate Valid()
      reads this, queue
    {
      View().Valid()
    }

    ghost function Contents(): seq<T>
      requires Valid()
      reads this, queue
    {
      View().Contents()
    }

    constructor (size: nat)
      requires size > 0
      ensures Valid() && fresh(queue) && queue.Length == size && Contents() == []
    {
      queue := new T[size];
      head, tail := 0, 0;
    }

    method Push(item: T) returns (ok: bool)
      requires Valid()
      modifies this`head, queue
      ensures Valid() && queue == old(queue) && View() == old(View()).PushCall(item)
      ensures ok <==> |old(Contents())| < queue.Length - 1
      ensures Contents() == if ok then old(Contents()) + [item] else old(Contents())
    {
      PushAppends(View(), item);
      var h := head;
      if Following(h, queue.Length) == tail {
        return false;
      }
      queue[h] := item;
      head := Following(h, queue.Length);
      return true;
    }

    method Pop() returns (ok: bool)
      requires Valid()
      modifies this`tail
      ensures Valid() && View() == old(View()).PopCall() && (ok <==> old(Contents()) != [])
      ensures Contents() == if ok then old(Contents())[1..] else []
    {
      PopRemoves(View());
      var t := tail;
      if t == head {
        return false;
      }
      tail := Following(t, queue.Length);
      return true;
    }

    method Peek() returns (item: Option<T>)
      requires Valid()
      ensures item == if Contents() == [] then None else Some(Contents()[0])
    {
      PopRemoves(View());
      if tail == head {
        return None;
      }
      return Some(queue[tail]);
    }

    method Empty() returns (empty: bool)
      requires Valid()
      ensures empty <==> Contents() == []
    {
      PopRemoves(View());
      return tail == head;
    }
  }
}

/** Both threads at once. pushed and popped are the whole history of completed pushes and pops;
    the two indices and the slots are what the code really has. */
module BurstQThreads {
  import opened Types
  import opened BurstQueue

  datatype Producer<T> =
    | PIdle
    | PLoaded(item: T, h: nat)      // own Head loaded
    | PRoom(item: T, h: nat)        // the other side's Tail left room
    | PWritten(item: T, h: nat)     // slot written, Head not yet stored

  datatype Consumer<T> =
    | CIdle
    | CLoaded(t: nat)               // own Tail loaded
    | CReady(t: nat)                // the other side's Head showed an item: Queue[t] may be read
    | CTaken(t: nat, item: T)       // pop(out) has moved the item out
    | CExecuting(t: nat)            // the command loop's handler works on Queue[t] in place
    | CPopping(t: nat)              // the command loop's pop() has seen the item again
    | CFailed                       // its pop() found nothing: "Command Execution Failure"

  // tailSeen and headSeen count what each side last saw of the other: a later load may return
  // any value from there to the present one.
  // handled logs every item when it is handed to the consumer: executed in place by the command
  // loop, or moved out by pop(out).
  datatype State<T> = State(
    slots: seq<T>, head: nat, tail: nat,
    producer: Producer<T>, consumer: Consumer<T>,
    pushed: seq<T>, popped: seq<T>, tailSeen: nat, headSeen: nat, handled: seq<T>)

  datatype Step<T> =
    | PushBegins(item: T)
    | PushLoadsTail(seen: nat)
    | PushWrites
    | PushStores
    | TakeBegins
    | TakeLoadsHead(seen: nat)
    | TakeMoves(leftover: T)        // moving out leaves the slot unspecified
    | TakeStores
    | Executes                      // the command loop passes Queue[Tail] to the handler
    | PopLoadsHead(seen: nat)       // the command handler is done, pop() looks again
    | PopStores

  predicate Enabled<T>(s: State<T>, e: Step<T>) {
    match e
    case PushBegins(_) => s.producer.PIdle?
    case PushLoadsTail(seen) => s.producer.PLoaded? && s.tailSeen <= seen <= |s.popped|
    case PushWrites => s.producer.PRoom? && s.producer.h < |s.slots|
    case PushStores => s.producer.PWritten? && s.producer.h < |s.slots|
    case TakeBegins => s.consumer.CIdle?
    case TakeLoadsHead(seen) => s.consumer.CLoaded? && s.headSeen <= seen <= |s.pushed|
    case TakeMoves(_) => s.consumer.CReady? && s.consumer.t < |s.slots|
    case TakeStores => s.consumer.CTaken? && s.consumer.t < |s.slots|
    case Executes => s.consumer.CReady? && s.consumer.t < |s.slots|
    case PopLoadsHead(seen) => s.consumer.CExecuting? && s.headSeen <= seen <= |s.pushed|
    case PopStores => s.consumer.CPopping? && s.consumer.t < |s.slots|
  }

  // A load of the other side's index: the counter it stands for, wrapped.
  function Wrapped<T>(s: State<T>, count: nat): nat { if |s.slots| == 0 then 0 else count % |s.slots| }

  function Next<T>(s: State<T>, e: Step<T>): State<T>
    requires Enabled(s, e)
  {
    match e
    case PushBegins(item) => s.(producer := PLoaded(item, s.head))
    case PushLoadsTail(seen) =>
      var h := s.producer.h;
      s.(tailSeen := seen,
         producer := if h < |s.slots| && Following(h, |s.slots|) != Wrapped(s, seen)
                     then PRoom(s.producer.item, h) else PIdle)
    case PushWrites =>
      s.(slots := s.slots[s.producer.h := s.producer.item],
         producer := PWritten(s.producer.item, s.producer.h))
    case PushStores =>
      s.(head := Following(s.producer.h, |s.slots|), pushed := s.pushed + [s.producer.item], producer := PIdle)
    case TakeBegins => s.(consumer := CLoaded(s.tail))
    case TakeLoadsHead(seen) =>
      s.(headSeen := seen,
         consumer := if s.consumer.t != Wrapped(s, seen) then CReady(s.consumer.t) else CIdle)
    case TakeMoves(leftover) =>
      var t := s.consumer.t;
      s.(slots := s.slots[t := leftover], consumer := CTaken(t, s.slots[t]), handled := s.handled + [s.slots[t]])
    case TakeStores =>
      s.(tail := Following(s.consumer.t, |s.slots|), popped := s.popped + [s.consumer.item], consumer := CIdle)
    case Executes =>
      var t := s.consumer.t;
      s.(consumer := CExecuting(t), handled := s.handled + [s.slots[t]])
    case PopLoadsHead(seen) =>
      s.(headSeen := seen,
         consumer := if s.consumer.t != Wrapped(s, seen) then CPopping(s.consumer.t) else CFailed)
    case PopStores =>
      s.(tail := Following(s.consumer.t, |s.slots|), popped := s.popped + [s.slots[s.consumer.t]],
         consumer := CIdle)
  }

  // ---- Invariant -------------------------------------------------------------------------

  ghost predicate Counters<T>(s: State<T>) {
    var n := |s.slots|;
    && n > 0
    && s.head == |s.pushed| % n && s.tail == |s.popped| % n
    && s.tailSeen <= |s.popped| <= s.headSeen <= |s.pushed| <= s.tailSeen + n - 1
    && s.popped == s.pushed[..|s.popped|]
  }

  ghost predicate ProducerOk<T>(s: State<T>) {
    match s.producer
    case PIdle => true
    case PLoaded(_, h) => h == s.head
    case PRoom(_, h) => h == s.head && |s.pushed| + 1 <= s.tailSeen + |s.slots| - 1
    case PWritten(item, h) =>
      h == s.head < |s.slots| && |s.pushed| + 1 <= s.tailSeen + |s.slots| - 1 && s.slots[h] == item
  }

  ghost predicate ConsumerOk<T>(s: State<T>) {
    match s.consumer
    case CIdle => true
    case CLoaded(t) => t == s.tail
    case CReady(t) => t == s.tail && |s.popped| < s.headSeen
    case CTaken(t, item) =>
      t == s.tail && |s.popped| < s.headSeen <= |s.pushed| && item == s.pushed[|s.popped|]
    case CExecuting(t) => t == s.tail && |s.popped| < s.headSeen
    case CPopping(t) => t == s.tail && |s.popped| < s.headSeen
    case CFailed => false
  }

  // Every queued item sits in its slot, except the one pop(out) has just moved out.
  ghost predicate SlotsOk<T>(s: State<T>) {
    |s.slots| > 0 &&
    forall k: nat :: |s.popped| + (if s.consumer.CTaken? then 1 else 0) <= k < |s.pushed| ==>
      s.slots[k % |s.slots|] == s.pushed[k]
  }

  // The consumer has been handed the item it is about to remove.
  predicate Busy<T>(s: State<T>) { s.consumer.CTaken? || s.consumer.CExecuting? || s.consumer.CPopping? }

  // Every item is handed over exactly once, in the order of the pushes.
  ghost predicate LogOk<T>(s: State<T>) {
    |s.popped| + (if Busy(s) then 1 else 0) <= |s.pushed| &&
    s.handled == s.pushed[..|s.popped| + if Busy(s) then 1 else 0]
  }

  ghost predicate Inv<T>(s: State<T>) {
    Counters(s) && ProducerOk(s) && ConsumerOk(s) && SlotsOk(s) && LogOk(s)
  }

  // The slot the producer is about to write, or has just written, holds no queued item.
  lemma WrittenSlotIsUnreadable<T>(s: State<T>, k: nat)
    requires Counters(s) && ProducerOk(s) && (s.producer.PRoom? || s.producer.PWritten?)
    requires |s.popped| <= k < |s.pushed|
    ensures s.producer.h != k % |s.slots|
  {
    if s.producer.h == k % |s.slots| {
      SameSlot(k, |s.pushed|, |s.slots|);
    }
  }

  lemma ProducerStepKeeps<T>(s: State<T>, e: Step<T>)
    requires Inv(s) && Enabled(s, e)
    requires e.PushBegins? || e.PushLoadsTail? || e.PushWrites? || e.PushStores?
    ensures Inv(Next(s, e))
  {
    var n, s' := |s.slots|, Next(s, e);
    AdvanceIsNext(|s.pushed|, n);
    match e {
      case PushBegins(_) =>
      case PushLoadsTail(seen) =>
        if |s.pushed| + 1 == seen + n {
          assert (|s.pushed| + 1) % n == seen % n by { WrapOnce(seen, n); }
        }
      case PushWrites =>
        forall k: nat | |s.popped| <= k < |s.pushed| ensures s.producer.h != k % n {
          WrittenSlotIsUnreadable(s, k);
        }
      case PushStores =>
        assert forall k: nat :: k < |s.pushed| ==> s'.pushed[k] == s.pushed[k];
    }
  }

  lemma WrapOnce(a: nat, n: nat)
    requires n > 0
    ensures (a + n) % n == a % n
  {
    var q, r := a / n, a % n;
    assert a + n == n * (q + 1) + r;
    ModIs(q + 1, r, n);
  }

  // Up to where the item is executed or moved out.
  lemma TakeStepKeeps<T>(s: State<T>, e: Step<T>)
    requires Inv(s) && Enabled(s, e)
    requires e.TakeBegins? || e.TakeLoadsHead? || e.TakeMoves? || e.Executes?
    ensures Inv(Next(s, e))
  {
    var n := |s.slots|;
    AdvanceIsNext(|s.popped|, n);
    match e {
      case TakeBegins =>
      case TakeLoadsHead(seen) =>
      case TakeMoves(_) =>
        forall k: nat | |s.popped| < k < |s.pushed| ensures s.consumer.t != k % n {
          if s.consumer.t == k % n {
            SameSlot(|s.popped|, k, n);
          }
        }
        if s.producer.PWritten? && s.producer.h == s.consumer.t {
          WrittenSlotIsUnreadable(s, |s.popped|);
        }
      case Executes =>
        assert s.slots[s.consumer.t] == s.pushed[|s.popped|];
    }
  }

  lemma ConsumerStepKeeps<T>(s: State<T>, e: Step<T>)
    requires Inv(s) && Enabled(s, e)
    requires e.TakeBegins? || e.TakeLoadsHead? || e.TakeMoves? || e.TakeStores? || e.Executes? || e.PopLoadsHead? ||
             e.PopStores?
    ensures Inv(Next(s, e))
  {
    var n, s' := |s.slots|, Next(s, e);
    AdvanceIsNext(|s.popped|, n);
    match e {
      case TakeStores =>
        assert s'.popped == s'.pushed[..|s'.popped|];
      case PopLoadsHead(seen) =>
        if s.consumer.t == seen % n {
          SameSlot(|s.popped|, seen, n);
        }
      case PopStores =>
        assert s'.popped == s'.pushed[..|s'.popped|];
      case _ => TakeStepKeeps(s, e);
    }
  }

  // ---- Runs ------------------------------------------------------------------------------

  ghost predicate Start<T>(s: State<T>) {
    |s.slots| > 0 && s.head == s.tail == s.tailSeen == s.headSeen == 0 &&
    s.producer.PIdle? && s.consumer.CIdle? && s.pushed == s.popped == s.handled == []
  }

  // A run is its sequence of states and the steps between them.
  ghost predicate Run<T>(states: seq<State<T>>, steps: seq<Step<T>>) {
    && |states| == |steps| + 1 && Start(states[0])
    && forall i :: 0 <= i < |steps| ==>
         Enabled(states[i], steps[i]) && states[i + 1] == Next(states[i], steps[i])
  }

  lemma {:induction false} InvAlong<T>(states: seq<State<T>>, steps: seq<Step<T>>, i: nat)
    requires Run(states, steps) && i < |states|
    ensures Inv(states[i])
  {
    hide Inv, Next, Enabled;
    if i == 0 {
      assert Inv(states[0]) by { StartInv(states[0]); }
    } else {
      InvAlong(states, steps, i - 1);
      StepKeeps(states[i - 1], steps[i - 1]);
    }
  }

  lemma StartInv<T>(s: State<T>)
    requires Start(s)
    ensures Inv(s)
  {
  }

  lemma StepKeeps<T>(s: State<T>, e: Step<T>)
    requires Inv(s) && Enabled(s, e)
    ensures Inv(Next(s, e))
  {
    hide Inv, Next;
    if e.PushBegins? || e.PushLoadsTail? || e.PushWrites? || e.PushStores? {
      ProducerStepKeeps(s, e);
    } else {
      ConsumerStepKeeps(s, e);
    }
  }

  // In every reachable state: what was popped is a prefix of what was pushed, and at most
  // Size - 1 items are held; the consumer was handed, to execute or to keep, exactly what it
  // popped, in push order, and the item it is busy with; no slot is written while it can still
  // be read; the consumer finds the oldest queued item in place for as long as it holds the
  // slot; and pop() never fails after the emptiness test has passed.
  lemma ReachableStates<T>(states: seq<State<T>>, steps: seq<Step<T>>, i: nat)
    requires Run(states, steps) && i < |states|
    ensures var s := states[i];
            && s.popped <= s.pushed && (Busy(s) ==> |s.popped| < |s.pushed|)
            && |s.pushed| - |s.popped| <= |s.slots| - 1
            && (s.producer.PRoom? || s.producer.PWritten? ==>
                  forall k: nat :: |s.popped| <= k < |s.pushed| ==> s.producer.h != k % |s.slots|)
            && s.handled == (if Busy(s) then s.popped + [s.pushed[|s.popped|]] else s.popped)
            && (s.consumer.CReady? || s.consumer.CExecuting? || s.consumer.CPopping? ==>
                  |s.popped| < |s.pushed| && s.consumer.t < |s.slots| &&
                  s.slots[s.consumer.t] == s.pushed[|s.popped|])
            && !s.consumer.CFailed?
  {
    InvAlong(states, steps, i);
    var s := states[i];
    if s.producer.PRoom? || s.producer.PWritten? {
      forall k: nat | |s.popped| <= k < |s.pushed| ensures s.producer.h != k % |s.slots| {
        WrittenSlotIsUnreadable(s, k);
      }
    }
  }

  // ---- Refinement ------------------------------------------------------------------------

  // The bounded FIFO the ring stands for.
  function Queued<T>(s: State<T>): seq<T>
    requires |s.popped| <= |s.pushed|
  {
    s.pushed[|s.popped|..]
  }

  // Each step does nothing to the FIFO, appends the item being pushed while there is room, or
  // removes and delivers the oldest item. A push is refused exactly when the FIFO it sees is
  // full, and a take finds nothing exactly when the FIFO it sees is empty.
  lemma StepRefinesFifo<T>(s: State<T>, e: Step<T>)
    requires Inv(s) && Enabled(s, e)
    ensures var s' := Next(s, e);
            && |s'.popped| <= |s'.pushed|
            && (match e
                case PushStores =>
                  |Queued(s)| < |s.slots| - 1 && Queued(s') == Queued(s) + [s.producer.item]
                case TakeStores =>
                  Queued(s) != [] && Queued(s') == Queued(s)[1..] && s'.popped == s.popped + [Queued(s)[0]]
                case PopStores =>
                  Queued(s) != [] && Queued(s') == Queued(s)[1..] && s'.popped == s.popped + [Queued(s)[0]]
                case PushLoadsTail(seen) =>
                  Queued(s') == Queued(s) && (s'.producer.PIdle? <==> |s.pushed| - seen == |s.slots| - 1)
                case TakeLoadsHead(seen) =>
                  Queued(s') == Queued(s) && (s'.consumer.CIdle? <==> seen == |s.popped|)
                case Executes =>
                  Queued(s') == Queued(s) != [] && s'.handled == s.handled + [Queued(s)[0]]
                case _ => Queued(s') == Queued(s))
  {
    var n := |s.slots|;
    match e {
      case PushLoadsTail(seen) =>
        AdvanceIsNext(|s.pushed|, n);
        if |s.pushed| - seen == n - 1 {
          WrapOnce(seen, n);
        } else if (|s.pushed| + 1) % n == seen % n {
          SameSlot(seen, |s.pushed| + 1, n);
        }
      case TakeLoadsHead(seen) =>
        if |s.popped| % n == seen % n {
          SameSlot(|s.popped|, seen, n);
        }
      case _ =>
    }
  }

  // ---- The object among the threads ----------------------------------------------------------

  function RingOf<T>(s: State<T>): Ring<T> { Ring(s.slots, s.head, s.tail) }

  // The slots between the two indices hold exactly the FIFO the histories define.
  lemma RingHoldsTheQueue<T>(s: State<T>)
    requires Inv(s) && !s.consumer.CTaken?
    ensures RingOf(s).Valid() && RingOf(s).Contents() == Queued(s)
  {
    var n, r, t, size := |s.slots|, RingOf(s), |s.popped|, |s.pushed| - |s.popped|;
    SlotOfOffset(t, size, n);
    forall k | 0 <= k < size ensures k < |r.Contents()| && r.Contents()[k] == Queued(s)[k] {
      SlotOfOffset(t, k, n);
      assert s.slots[(t + k) % n] == s.pushed[t + k];
    }
  }

  lemma SlotOfOffset(t: nat, k: nat, n: nat)
    requires k < n
    ensures (t + k) % n == if t % n + k < n then t % n + k else t % n + k - n
  {
    var q, r := t / n, t % n;
    if r + k < n {
      assert t + k == n * q + (r + k);
      ModIs(q, r + k, n);
    } else {
      assert t + k == n * (q + 1) + (r + k - n);
      ModIs(q + 1, r + k - n, n);
    }
  }

  // A side that nobody interrupts, and that sees the other's present index, makes exactly the call.
  lemma UninterruptedPush<T>(s: State<T>, item: T)
    requires Inv(s) && s.producer.PIdle?
    ensures var loaded := Next(Next(s, PushBegins(item)), PushLoadsTail(|s.popped|));
            && (loaded.producer.PIdle? <==> RingOf(s).Full())
            && RingOf(if loaded.producer.PIdle? then loaded else Next(Next(loaded, PushWrites), PushStores))
            == RingOf(s).PushCall(item)
  {
  }

  lemma UninterruptedPop<T>(s: State<T>)
    requires Inv(s) && s.consumer.CIdle?
    ensures var loaded := Next(Next(s, TakeBegins), TakeLoadsHead(|s.pushed|));
            && (loaded.consumer.CIdle? <==> s.tail == s.head)
            && RingOf(if loaded.consumer.CIdle? then loaded
                      else Next(Next(Next(loaded, Executes), PopLoadsHead(|s.pushed|)), PopStores))
            == RingOf(s).PopCall()
  {
  }
}
