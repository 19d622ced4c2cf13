/** The triple-buffered bitstream pool of the encoder session: the object, and every
    interleaving of one encoding thread with completions that release slots at any time. */
module EncoderRing {
  import opened Types

  const POOL: nat := 3

  // Frames are numbered; frames[k] is what bitstream buffer k holds.
  datatype Ring = Ring(inUse: seq<bool>, locked: seq<bool>, frames: seq<int>, current: nat, dropped: u64)

  predicate WellFormed(r: Ring) {
    |r.inUse| == |r.locked| == |r.frames| == POOL && r.current < POOL
  }

  // GetLastEncodedSlotIndex: computed from the index the next frame will use.
  function LastEncoded(current: nat): (slot: nat)
    requires current < POOL
    ensures slot < POOL && Following(slot, POOL) == current
  {
    if current == 0 then POOL - 1 else current - 1
  }

  function Drop(r: Ring): Ring { r.(dropped := (r.dropped + 1) % 0x1_0000_0000_0000_0000) }

  // What the driver answers to mapping the input, encoding and locking the output.
  datatype Driver = Driver(maps: bool, encodes: bool, locks: bool)

  // A whole Encode call when no completion comes in between.
  function EncodeCall(r: Ring, frame: int, d: Driver): Ring
    requires WellFormed(r)
  {
    var k := r.current;
    if r.inUse[k] then Drop(r)
    else
      var unlocked := r.(locked := r.locked[k := false]);
      if !d.maps then unlocked
      else
        var written := unlocked.(frames := r.frames[k := frame]);
        if !d.encodes || !d.locks then written
        else written.(locked := r.locked[k := true], inUse := r.inUse[k := true], current := Following(k, POOL))
  }

  predicate Succeeds(r: Ring, d: Driver)
    requires WellFormed(r)
  {
    !r.inUse[r.current] && d.maps && d.encodes && d.locks
  }

  // A busy slot costs the frame and is counted, and nothing else happens. Otherwise the slot is
  // unlocked first, holds the frame once the driver has mapped the input, and is locked and in
  // use exactly when everything succeeded; only then does the ring move on.
  lemma EncodesExactly(r: Ring, frame: int, d: Driver, j: nat)
    requires WellFormed(r) && j < POOL
    ensures var after, k := EncodeCall(r, frame, d), r.current;
            && WellFormed(after)
            && after.dropped == (if r.inUse[k] then (r.dropped + 1) % 0x1_0000_0000_0000_0000 else r.dropped)
            && after.current == (if Succeeds(r, d) then (k + 1) % POOL else k)
            && after.inUse[j] == (if j == k then r.inUse[k] || Succeeds(r, d) else r.inUse[j])
            && after.locked[j] == (if j == k && !r.inUse[k] then Succeeds(r, d) else r.locked[j])
            && after.frames[j] == (if j == k && !r.inUse[k] && d.maps then frame else r.frames[j])
  {
  }

  class BufferedNvencSession {
    var bufferUsageRegistry: array<bool>
    var bufferLockStates: array<bool>
    var bitstreams: array<int>
    var currentBufferIndex: nat
    var droppedFramesCount: u64

    ghost predicate Valid()
      reads this
    {
      && bufferUsageRegistry.Length == bufferLockStates.Length == bitstreams.Length == POOL
      && currentBufferIndex < POOL && bufferUsageRegistry != bufferLockStates
    }

    function View(): Ring
      reads this, bufferUsageRegistry, bufferLockStates, bitstreams
    {
      Ring(bufferUsageRegistry[..], bufferLockStates[..], bitstreams[..], currentBufferIndex, droppedFramesCount)
    }

    constructor ()
      ensures Valid() && fresh(bufferUsageRegistry) && fresh(bufferLockStates) && fresh(bitstreams)
      ensures View().inUse == View().locked == [false, false, false] && currentBufferIndex == 0
    {
      bufferUsageRegistry := new bool[POOL](_ => false);
      bufferLockStates := new bool[POOL](_ => false);
      bitstreams := new int[POOL];
      currentBufferIndex, droppedFramesCount := 0, 0;
    }

    method GetLastEncodedSlotIndex() returns (slot: nat)
      requires Valid()
      ensures slot == LastEncoded(currentBufferIndex)
    {
      return if currentBufferIndex == 0 then POOL - 1 else currentBufferIndex - 1;
    }

    method ReleaseBuffer(slot: nat)
      requires Valid() && slot < POOL
      modifies bufferUsageRegistry
      ensures Valid() && View() == old(View()).(inUse := old(View()).inUse[slot := false])
    {
      bufferUsageRegistry[slot] := false;
    }

    method Encode(frame: int, d: Driver) returns (ok: bool)
      requires Valid()
      modifies this`currentBufferIndex, this`droppedFramesCount
      modifies bufferUsageRegistry, bufferLockStates, bitstreams
      ensures Valid() && bufferUsageRegistry == old(bufferUsageRegistry)
      ensures View() == EncodeCall(old(View()), frame, d)
      ensures ok == Succeeds(old(View()), d)
    {
      var k := currentBufferIndex;
      if bufferUsageRegistry[k] {
        droppedFramesCount := (droppedFramesCount + 1) % 0x1_0000_0000_0000_0000;
        return false;
      }
      if bufferLockStates[k] {
        bufferLockStates[k] := false;
      }
      if !d.maps {
        return false;
      }
      bitstreams[k] := frame;
      if !d.encodes || !d.locks {
        return false;
      }
      bufferLockStates[k] := true;
      bufferUsageRegistry[k] := true;
      currentBufferIndex := (k + 1) % POOL;
      return true;
    }

    // Encode and send: the slot the sender is told to release, if there is one.
    method Zencode(frame: int, d: Driver) returns (slot: Option<nat>)
      requires Valid()
      modifies this`currentBufferIndex, this`droppedFramesCount
      modifies bufferUsageRegistry, bufferLockStates, bitstreams
      ensures Valid() && View() == EncodeCall(old(View()), frame, d)
      ensures slot == if Succeeds(old(View()), d) then Some(old(currentBufferIndex)) else None
      ensures slot.Some? ==> View().inUse[slot.value] && View().locked[slot.value] &&
                             View().frames[slot.value] == frame
    {
      var ok := Encode(frame, d);
      if ok {
        var last := GetLastEncodedSlotIndex();
        return Some(last);
      }
      return None;
    }
  }

  // ---- All interleavings -----------------------------------------------------------------

  datatype Pc = Idle | Checked | Unlocked | Encoded(frame: int) | Locked(frame: int) | Published(frame: int)

  // lent maps each slot the sender holds to the frame it was handed.
  datatype State = State(ring: Ring, pc: Pc, lent: map<nat, int>, successes: nat, releases: nat)

  datatype Step =
    | Begin
    | Unlock
    | MapFails
    | EncodePicture(frame: int, ok: bool)
    | LockBitstream(ok: bool)
    | Publish                       // usage flag set, index advanced, Encode returns true
    | Hand                          // Zencode passes GetLastEncodedSlotIndex to the sender
    | Release(slot: nat)            // any completion, at any time

  predicate Enabled(s: State, e: Step) {
    match e
    case Begin => s.pc.Idle?
    case Unlock => s.pc.Checked?
    case MapFails => s.pc.Unlocked?
    case EncodePicture(_, _) => s.pc.Unlocked?
    case LockBitstream(_) => s.pc.Encoded?
    case Publish => s.pc.Locked?
    case Hand => s.pc.Published?
    case Release(slot) => slot in s.lent
  }

  function SetUse(r: Ring, k: nat, on: bool): Ring
    requires k < |r.inUse|
  {
    r.(inUse := r.inUse[k := on])
  }

  function Next(s: State, e: Step): State
    requires WellFormed(s.ring) && Enabled(s, e)
  {
    var r, k := s.ring, s.ring.current;
    match e
    case Begin => if r.inUse[k] then s.(ring := Drop(r)) else s.(pc := Checked)
    case Unlock => s.(ring := r.(locked := r.locked[k := false]), pc := Unlocked)
    case MapFails => s.(pc := Idle)
    case EncodePicture(f, ok) =>
      s.(ring := r.(frames := r.frames[k := f]), pc := if ok then Encoded(f) else Idle)
    case LockBitstream(ok) =>
      if ok then s.(ring := r.(locked := r.locked[k := true]), pc := Locked(s.pc.frame)) else s.(pc := Idle)
    case Publish =>
      s.(ring := SetUse(r, k, true).(current := Following(k, POOL)), pc := Published(s.pc.frame),
         successes := s.successes + 1)
    case Hand => s.(lent := s.lent[LastEncoded(k) := s.pc.frame], pc := Idle)
    case Release(slot) =>
      if slot < POOL then
        s.(ring := SetUse(r, slot, false), lent := s.lent - {slot}, releases := s.releases + 1)
      else s
  }

  // The steps of one Encode call that nobody interrupts.
  function CallSteps(r: Ring, frame: int, d: Driver): seq<Step>
    requires WellFormed(r)
  {
    if r.inUse[r.current] then [Begin]
    else if !d.maps then [Begin, Unlock, MapFails]
    else if !d.encodes then [Begin, Unlock, EncodePicture(frame, false)]
    else if !d.locks then [Begin, Unlock, EncodePicture(frame, true), LockBitstream(false)]
    else [Begin, Unlock, EncodePicture(frame, true), LockBitstream(true), Publish]
  }

  ghost predicate Follows(states: seq<State>, steps: seq<Step>) {
    |states| == |steps| + 1 &&
    forall i :: 0 <= i < |steps| ==>
      WellFormed(states[i].ring) && Enabled(states[i], steps[i]) && states[i + 1] == Next(states[i], steps[i])
  }

  // They do to the ring what the whole call does, and count a success exactly when it succeeds.
  lemma UninterruptedEncode(states: seq<State>, frame: int, d: Driver)
    requires |states| > 0 && WellFormed(states[0].ring) && states[0].pc.Idle?
    requires Follows(states, CallSteps(states[0].ring, frame, d))
    ensures var s, end := states[0], states[|states| - 1];
            && end.ring == EncodeCall(s.ring, frame, d) && end.lent == s.lent
            && end.pc == (if Succeeds(s.ring, d) then Published(frame) else Idle)
            && end.successes == s.successes + One(Succeeds(s.ring, d))
  {
    var steps := CallSteps(states[0].ring, frame, d);
    assert states[1] == Next(states[0], steps[0]);
    if |steps| > 1 {
      assert states[2] == Next(states[1], steps[1]);
      assert states[3] == Next(states[2], steps[2]);
      if |steps| > 3 {
        assert states[4] == Next(states[3], steps[3]);
        if |steps| > 4 {
          assert states[5] == Next(states[4], steps[4]);
        }
      }
    }
  }

  // A slot is taken while it is lent out, or published and not yet handed over.
  predicate Taken(s: State, k: nat)
    requires WellFormed(s.ring)
  {
    k in s.lent || (s.pc.Published? && k == LastEncoded(s.ring.current))
  }

  function One(on: bool): nat { if on then 1 else 0 }

  function InUseCount(r: Ring): nat
    requires WellFormed(r)
  {
    One(r.inUse[0]) + One(r.inUse[1]) + One(r.inUse[2])
  }

  // A slot is marked in use exactly while it is taken; the sender's slots are locked and hold
  // the frame that was handed over.
  predicate Lending(s: State)
    requires WellFormed(s.ring)
  {
    && (forall k :: k in s.lent ==> k < POOL && s.ring.locked[k] && s.ring.frames[k] == s.lent[k])
    && (forall k :: 0 <= k < POOL ==> (s.ring.inUse[k] <==> Taken(s, k)))
  }

  // Until it publishes, Encode works on a slot that is not in use.
  predicate Working(s: State)
    requires WellFormed(s.ring)
  {
    var k := s.ring.current;
    match s.pc
    case Idle => true
    case Checked => !s.ring.inUse[k]
    case Unlocked => !s.ring.inUse[k] && !s.ring.locked[k]
    case Encoded(f) => !s.ring.inUse[k] && !s.ring.locked[k] && s.ring.frames[k] == f
    case Locked(f) => !s.ring.inUse[k] && s.ring.frames[k] == f && s.ring.locked[k]
    case Published(f) =>
      var last := LastEncoded(k);
      last !in s.lent && s.ring.frames[last] == f && s.ring.locked[last]
  }

  predicate Counting(s: State)
    requires WellFormed(s.ring)
  {
    s.ring.current == s.successes % POOL && InUseCount(s.ring) == s.successes - s.releases
  }

  ghost predicate Inv(s: State) { WellFormed(s.ring) && Lending(s) && Working(s) && Counting(s) }

  lemma CountAfter(r: Ring, k: nat, on: bool)
    requires WellFormed(r) && k < POOL
    ensures InUseCount(SetUse(r, k, on)) == InUseCount(r) - One(r.inUse[k]) + One(on)
  {
  }

  lemma PublishKeeps(s: State)
    requires Inv(s) && s.pc.Locked?
    ensures Inv(Next(s, Publish))
  {
    var s' := Next(s, Publish);
    var k := s.ring.current;
    CountAfter(s.ring, k, true);
    assert LastEncoded(s'.ring.current) == k && !Taken(s, k);
    assert Lending(s') && Working(s') by { hide Counting, InUseCount; }
    assert Counting(s') by { hide Lending, Working; }
  }

  lemma HandKeeps(s: State)
    requires Inv(s) && s.pc.Published?
    ensures Inv(Next(s, Hand))
  {
    hide Counting, InUseCount;
    var s' := Next(s, Hand);
    assert forall k :: Taken(s', k) <==> Taken(s, k);
    assert Counting(s') by { CountingIgnoresTheRest(s, s'); }
  }

  lemma CountingIgnoresTheRest(s: State, s': State)
    requires WellFormed(s.ring) && WellFormed(s'.ring) && Counting(s)
    requires s'.ring.inUse == s.ring.inUse && s'.ring.current == s.ring.current
    requires s'.successes == s.successes && s'.releases == s.releases
    ensures Counting(s')
  {
  }

  lemma ReleaseKeeps(s: State, slot: nat)
    requires Inv(s) && slot in s.lent
    ensures Inv(Next(s, Release(slot)))
  {
    var s' := Next(s, Release(slot));
    CountAfter(s.ring, slot, false);
    assert Taken(s, slot) && forall k :: Taken(s', k) <==> Taken(s, k) && k != slot;
    assert Lending(s') && Working(s') by { hide Counting, InUseCount, LastEncoded; }
    assert Counting(s') by { hide Working; }
  }

  // The steps inside Encode before it publishes touch only the current slot, which is free.
  lemma EncodingKeeps(s: State, e: Step)
    requires Inv(s) && Enabled(s, e) && !e.Publish? && !e.Hand? && !e.Release?
    ensures Inv(Next(s, e))
  {
    hide Counting, InUseCount, LastEncoded;
    var s' := Next(s, e);
    assert forall k :: Taken(s', k) <==> Taken(s, k);
    assert s'.pc.Published? || s.pc.Published? ==> false;
    assert s.ring.inUse[s.ring.current] <==> s.ring.current in s.lent;
    assert Counting(s') by { CountingIgnoresTheRest(s, s'); }
  }

  lemma StepKeeps(s: State, e: Step)
    requires Inv(s) && Enabled(s, e)
    ensures Inv(Next(s, e))
  {
    hide Inv, Next;
    match e
    case Publish => PublishKeeps(s);
    case Hand => HandKeeps(s);
    case Release(slot) => ReleaseKeeps(s, slot);
    case _ => EncodingKeeps(s, e);
  }

  // Whatever happens, a slot the sender holds stays in use and locked with the very frame it
  // was handed, until the sender itself releases it.
  lemma LentSlotsAreStable(s: State, e: Step, k: nat)
    requires Inv(s) && Enabled(s, e) && k in s.lent && e != Release(k)
    ensures var s' := Next(s, e);
            && k in s'.lent && s'.lent[k] == s.lent[k]
            && s'.ring.inUse[k] && s'.ring.locked[k] && s'.ring.frames[k] == s.lent[k]
  {
    StepKeeps(s, e);
    hide Working, Counting, LastEncoded;
    assert Taken(s, k) && Taken(Next(s, e), k);
  }

  // The frame handed over is the one just encoded, and its slot is the number of earlier
  // successes modulo three.
  lemma HandsTheSlotJustEncoded(s: State, e: Step)
    requires Inv(s) && e.Hand? && Enabled(s, e)
    ensures var k := (s.successes - 1) % POOL;
            && s.successes > 0 && k !in s.lent
            && Next(s, e).lent == s.lent[k := s.pc.frame]
            && s.ring.frames[k] == s.pc.frame
  {
    PublishedSlotIsTaken(s);
    LastIsPrevious(s.successes);
  }

  lemma PublishedSlotIsTaken(s: State)
    requires Inv(s) && s.pc.Published?
    ensures s.successes > 0
  {
    assert Taken(s, LastEncoded(s.ring.current));
  }

  lemma LastIsPrevious(n: nat)
    requires n > 0
    ensures LastEncoded(n % POOL) == (n - 1) % POOL
  {
  }

  ghost predicate Run(states: seq<State>, steps: seq<Step>) {
    && |states| == |steps| + 1
    && WellFormed(states[0].ring) && states[0].ring.current == 0 && states[0].pc.Idle?
    && states[0].ring.inUse == [false, false, false]
    && states[0].lent == map[] && states[0].successes == states[0].releases == 0
    && forall i :: 0 <= i < |steps| ==>
         Enabled(states[i], steps[i]) && WellFormed(states[i].ring) && states[i + 1] == Next(states[i], steps[i])
  }

  lemma {:induction false} NextInRun(states: seq<State>, steps: seq<Step>, i: nat)
    requires Run(states, steps) && i < |steps| && Inv(states[i])
    ensures Inv(states[i + 1])
  {
    hide Inv, Next;
    StepKeeps(states[i], steps[i]);
  }

  // Inv along every run.
  lemma {:induction false} InvAlong(states: seq<State>, steps: seq<Step>, i: nat)
    requires Run(states, steps) && i < |states|
    ensures Inv(states[i])
  {
    if i > 0 {
      InvAlong(states, steps, i - 1);
      NextInRun(states, steps, i - 1);
    }
  }

  // In every reachable state: in use implies locked, a picture is only ever encoded into a buffer
  // that is neither in use nor locked, the number of slots in use is successes
  // minus releases, and the next success will use slot (successes mod 3).
  lemma ReachableStates(states: seq<State>, steps: seq<Step>, i: nat)
    requires Run(states, steps) && i < |states|
    ensures var s := states[i];
            && WellFormed(s.ring)
            && (forall k :: 0 <= k < POOL && s.ring.inUse[k] ==> s.ring.locked[k])
            && InUseCount(s.ring) == s.successes - s.releases
            && s.ring.current == s.successes % POOL
            && (s.pc.Unlocked? || s.pc.Encoded? ==> !s.ring.inUse[s.ring.current] && !s.ring.locked[s.ring.current])
  {
    InvAlong(states, steps, i);
    var s := states[i];
    assert forall k :: 0 <= k < POOL && s.ring.inUse[k] ==> Taken(s, k);
  }

  // So over a whole run: from the moment it holds a slot until it releases it, the sender finds
  // there the frame it was handed, locked and in use.
  lemma {:induction false} HeldUntilReleased(states: seq<State>, steps: seq<Step>, i: nat, j: nat, k: nat)
    requires Run(states, steps) && i <= j < |states| && k in states[i].lent
    requires forall m :: i <= m < j ==> steps[m] != Release(k)
    ensures var s := states[j];
            && WellFormed(s.ring) && k < POOL && k in s.lent && s.lent[k] == states[i].lent[k]
            && s.ring.frames[k] == states[i].lent[k] && s.ring.locked[k] && s.ring.inUse[k]
    decreases j
  {
    hide Next, Working, Counting;
    if j == i {
      InvAlong(states, steps, i);
      assert k < POOL && Taken(states[i], k);
    } else {
      HeldUntilReleased(states, steps, i, j - 1, k);
      RunStep(states, steps, j - 1);
      InvAlong(states, steps, j - 1);
      LentSlotsAreStable(states[j - 1], steps[j - 1], k);
      InvAlong(states, steps, j);
    }
  }

  lemma RunStep(states: seq<State>, steps: seq<Step>, i: nat)
    requires Run(states, steps) && i < |steps|
    ensures |states| == |steps| + 1 && Enabled(states[i], steps[i]) && WellFormed(states[i].ring)
    ensures states[i + 1] == Next(states[i], steps[i])
  {
  }
}
