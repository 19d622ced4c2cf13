/** The nine grid slots: the open-slot mask as the 32-bit word it is, the instances in the slots,
    and the address lookup that RefreshInstanceList consults. */
module SlotAllocator {
  import opened Types
  import L = Link

  const SLOTS: nat := 9

  // ---- Words -------------------------------------------------------------------------------

  predicate Odd(m: bv32) { m & 1 == 1 }

  function Half(m: bv32): bv32 { m >> 1 }

  // 1 << slot.
  function Flag(slot: nat): bv32
    requires slot < SLOTS
  {
    match slot
    case 0 => 0x1
    case 1 => 0x2
    case 2 => 0x4
    case 3 => 0x8
    case 4 => 0x10
    case 5 => 0x20
    case 6 => 0x40
    case 7 => 0x80
    case _ => 0x100
  }

  function Or(m: bv32, f: bv32): bv32 { m | f }

  function AndNot(m: bv32, f: bv32): bv32 { m & !f }

  function With(m: bv32, slot: nat): bv32
    requires slot < SLOTS
  {
    Or(m, Flag(slot))
  }

  function Without(m: bv32, slot: nat): bv32
    requires slot < SLOTS
  {
    AndNot(m, Flag(slot))
  }

  lemma Halves(m: bv32)
    ensures m != 0 ==> Half(m) < m
    ensures m == 0 <==> !Odd(m) && Half(m) == 0
  {
  }

  lemma FlagBits(slot: nat)
    requires slot < SLOTS
    ensures Odd(Flag(slot)) <==> slot == 0
    ensures Half(Flag(slot)) == if slot == 0 then 0 else Flag(slot - 1)
  {
  }

  lemma OrOdd(m: bv32, f: bv32)
    ensures Odd(Or(m, f)) <==> Odd(m) || Odd(f)
  {
  }

  lemma OrHalf(m: bv32, f: bv32)
    ensures Half(Or(m, f)) == Or(Half(m), Half(f))
  {
  }

  lemma AndNotOdd(m: bv32, f: bv32)
    ensures Odd(AndNot(m, f)) <==> Odd(m) && !Odd(f)
  {
  }

  lemma AndNotHalf(m: bv32, f: bv32)
    ensures Half(AndNot(m, f)) == AndNot(Half(m), Half(f))
  {
  }

  lemma Neutral(m: bv32)
    ensures Or(m, 0) == m == AndNot(m, 0)
  {
  }

  lemma WithBits(m: bv32, slot: nat)
    requires slot < SLOTS
    ensures Odd(With(m, slot)) <==> Odd(m) || slot == 0
    ensures Half(With(m, slot)) == if slot == 0 then Half(m) else With(Half(m), slot - 1)
  {
    hide Odd, Half, Flag, Or;
    FlagBits(slot);
    OrOdd(m, Flag(slot));
    OrHalf(m, Flag(slot));
    Neutral(Half(m));
  }

  lemma WithoutBits(m: bv32, slot: nat)
    requires slot < SLOTS
    ensures Odd(Without(m, slot)) <==> Odd(m) && slot != 0
    ensures Half(Without(m, slot)) == if slot == 0 then Half(m) else Without(Half(m), slot - 1)
  {
    hide Odd, Half, Flag, AndNot;
    FlagBits(slot);
    AndNotOdd(m, Flag(slot));
    AndNotHalf(m, Flag(slot));
    Neutral(Half(m));
  }

  // ---- Bits --------------------------------------------------------------------------------

  // Bit k of the word.
  predicate Has(m: bv32, k: nat)
    decreases k
  {
    if k == 0 then Odd(m) else Has(Half(m), k - 1)
  }

  // No bit from n on is set.
  predicate Fits(m: bv32, n: nat)
    decreases n
  {
    if n == 0 then m == 0 else Fits(Half(m), n - 1)
  }

  // The count-trailing-zeros and population-count instructions.
  function BitScan(m: bv32): nat
    requires m != 0
    decreases m
  {
    Halves(m);
    if Odd(m) then 0 else 1 + BitScan(Half(m))
  }

  function PopCount(m: bv32): nat
    decreases m
  {
    Halves(m);
    if m == 0 then 0 else (if Odd(m) then 1 else 0) + PopCount(Half(m))
  }

  // Setting or clearing one bit of the word changes that bit and no other.
  lemma {:induction false} SetOneBit(m: bv32, slot: nat, k: nat)
    requires slot < SLOTS
    ensures Has(With(m, slot), k) <==> Has(m, k) || k == slot
    ensures Has(Without(m, slot), k) <==> Has(m, k) && k != slot
    decreases k
  {
    hide Odd, Half, With, Without;
    WithBits(m, slot);
    WithoutBits(m, slot);
    if k > 0 && slot > 0 {
      SetOneBit(Half(m), slot - 1, k - 1);
    }
  }

  lemma {:induction false} SetOneBitFits(m: bv32, slot: nat, n: nat)
    requires slot < n <= SLOTS && Fits(m, n)
    ensures Fits(With(m, slot), n) && Fits(Without(m, slot), n)
    decreases n
  {
    hide Odd, Half, With, Without;
    WithBits(m, slot);
    WithoutBits(m, slot);
    if slot > 0 {
      SetOneBitFits(Half(m), slot - 1, n - 1);
    }
  }

  lemma {:induction false} ZeroHasNone(k: nat)
    ensures !Has(0, k)
    decreases k
  {
    Halves(0);
    if k > 0 {
      hide Odd, Half;
      ZeroHasNone(k - 1);
    }
  }

  lemma {:induction false} BeyondIsClear(m: bv32, n: nat, k: nat)
    requires Fits(m, n) && n <= k
    ensures !Has(m, k)
    decreases n
  {
    hide Odd, Half;
    if n == 0 {
      ZeroHasNone(k);
    } else {
      BeyondIsClear(Half(m), n - 1, k - 1);
    }
  }

  lemma {:induction false} BitScanIsLowest(m: bv32)
    requires m != 0
    ensures Has(m, BitScan(m)) && forall k :: 0 <= k < BitScan(m) ==> !Has(m, k)
    decreases m
  {
    hide Odd, Half;
    Halves(m);
    if !Odd(m) {
      BitScanIsLowest(Half(m));
      forall k | 0 <= k < BitScan(m) ensures !Has(m, k) {
        assert k > 0 ==> !Has(Half(m), k - 1);
      }
    }
  }

  // The initial mask, 0x1FF, has exactly the nine bits.
  function Ones(n: nat): bv32
    requires n <= SLOTS
  {
    match n
    case 0 => 0
    case 1 => 0x1
    case 2 => 0x3
    case 3 => 0x7
    case 4 => 0xF
    case 5 => 0x1F
    case 6 => 0x3F
    case 7 => 0x7F
    case 8 => 0xFF
    case _ => 0x1FF
  }

  lemma OnesBits(n: nat)
    requires 0 < n <= SLOTS
    ensures Half(Ones(n)) == Ones(n - 1) && Odd(Ones(n)) && Ones(0) == 0
  {
  }

  lemma {:induction false} OnesHave(n: nat, k: nat)
    requires k < n <= SLOTS
    ensures Has(Ones(n), k) && Fits(Ones(n), n)
    decreases n
  {
    hide Odd, Half, Ones;
    OnesBits(n);
    if n > 1 {
      OnesHave(n - 1, if k == 0 then 0 else k - 1);
    }
  }

  // ---- Mask and slots ----------------------------------------------------------------------

  function EmptySlots(instances: seq<OmniInstance>): nat {
    if instances == [] then 0 else (if instances[0].ip == 0 then 1 else 0) + EmptySlots(instances[1..])
  }

  // The set bits of the mask are exactly the empty slots.
  ghost predicate Agree(m: bv32, instances: seq<OmniInstance>) {
    Fits(m, |instances|) && forall k :: 0 <= k < |instances| ==> (Has(m, k) <==> instances[k].ip == 0)
  }

  // The same, except that C0's bit may be set although the local device is there.
  ghost predicate Tracks(m: bv32, instances: seq<OmniInstance>) {
    && |instances| == SLOTS && Fits(m, SLOTS)
    && (forall k :: 0 < k < SLOTS ==> (Has(m, k) <==> instances[k].ip == 0))
    && (instances[0].ip == 0 ==> Has(m, 0))
  }

  ghost predicate Stale(m: bv32, instances: seq<OmniInstance>)
    requires |instances| > 0
  {
    Has(m, 0) && instances[0].ip != 0
  }

  lemma AgreeUnlessStale(m: bv32, instances: seq<OmniInstance>)
    requires |instances| == SLOTS
    ensures Agree(m, instances) <==> Tracks(m, instances) && !Stale(m, instances)
  {
    hide Has, Fits;
  }

  // As the registry is constructed, only the local device is there and the mask is 0x1FF. That
  // is stale: the lowest set bit is the local device's own.
  lemma StartIsStale(instances: seq<OmniInstance>)
    requires |instances| == SLOTS && forall k :: 0 < k < SLOTS ==> instances[k].ip == 0
    ensures Tracks(Ones(SLOTS), instances)
    ensures instances[0].ip != 0 ==> Stale(Ones(SLOTS), instances) && !Agree(Ones(SLOTS), instances)
    ensures Ones(SLOTS) != 0 && BitScan(Ones(SLOTS)) == 0
  {
    hide Has, Fits, Odd;
    OnesBits(SLOTS);
    forall k | 0 <= k < SLOTS ensures Has(Ones(SLOTS), k) && Fits(Ones(SLOTS), SLOTS) {
      OnesHave(SLOTS, k);
    }
    assert Has(Ones(SLOTS), 0);
    BitScanIsLowest(Ones(SLOTS));
  }

  // Once C0's bit is cleared, which only the tests do, the mask agrees.
  lemma StartAgrees(instances: seq<OmniInstance>)
    requires |instances| == SLOTS && instances[0].ip != 0
    requires forall k :: 0 < k < SLOTS ==> instances[k].ip == 0
    ensures Agree(Without(Ones(SLOTS), 0), instances)
  {
    hide Has, Fits, Without, Ones;
    OnesHave(SLOTS, 0);
    SetOneBitFits(Ones(SLOTS), 0, SLOTS);
    forall k | 0 <= k < SLOTS ensures Has(Without(Ones(SLOTS), 0), k) <==> instances[k].ip == 0 {
      OnesHave(SLOTS, k);
      SetOneBit(Ones(SLOTS), 0, k);
    }
  }

  lemma {:induction false} PopCountIsEmptySlots(m: bv32, instances: seq<OmniInstance>)
    requires Agree(m, instances)
    ensures PopCount(m) == EmptySlots(instances)
    decreases |instances|
  {
    hide Odd, Half;
    Halves(m);
    if instances != [] {
      var tail := instances[1..];
      assert Has(m, 0) <==> instances[0].ip == 0;
      forall k | 0 <= k < |tail| ensures Has(Half(m), k) <==> tail[k].ip == 0 {
        assert Has(m, k + 1) <==> instances[k + 1].ip == 0;
      }
      PopCountIsEmptySlots(Half(m), tail);
      assert m == 0 ==> PopCount(Half(m)) == 0;
    }
  }

  // A stale mask counts the local device's slot as empty.
  lemma PopCountExactly(m: bv32, instances: seq<OmniInstance>)
    requires Tracks(m, instances)
    ensures PopCount(m) == EmptySlots(instances) + if Stale(m, instances) then 1 else 0
  {
    hide Has, Fits, PopCount;
    var seen := if Stale(m, instances) then instances[0 := instances[0].Cleared()] else instances;
    assert seen[1..] == instances[1..];
    PopCountIsEmptySlots(m, seen);
  }

  // The lowest set bit is the lowest empty slot, unless the mask is stale; then it is C0.
  lemma ScansExactly(m: bv32, instances: seq<OmniInstance>)
    requires Tracks(m, instances) && m != 0
    ensures BitScan(m) < SLOTS && (instances[BitScan(m)].ip == 0 <==> !Stale(m, instances))
    ensures Stale(m, instances) ==> BitScan(m) == 0
    ensures forall k :: 0 <= k < BitScan(m) ==> instances[k].ip != 0
  {
    hide Has, Fits, BitScan;
    BitScanIsLowest(m);
    if BitScan(m) >= SLOTS {
      BeyondIsClear(m, SLOTS, BitScan(m));
    }
    assert Stale(m, instances) ==> BitScan(m) == 0;
  }

  // Either way the mask agrees once that slot is taken.
  lemma AddedAgrees(m: bv32, instances: seq<OmniInstance>, i: OmniInstance)
    requires Tracks(m, instances) && m != 0 && i.ip != 0
    ensures BitScan(m) < SLOTS && Agree(Without(m, BitScan(m)), instances[BitScan(m) := i])
  {
    hide Has, Fits, BitScan, Without;
    ScansExactly(m, instances);
    var slot := BitScan(m);
    SetOneBitFits(m, slot, SLOTS);
    var t := instances[slot := i];
    forall k | 0 <= k < SLOTS ensures Has(Without(m, slot), k) <==> t[k].ip == 0 {
      SetOneBit(m, slot, k);
    }
  }

  lemma ClearsExactly(m: bv32, instances: seq<OmniInstance>, slot: nat, i: OmniInstance)
    requires Tracks(m, instances) && slot < SLOTS && i.ip == 0
    ensures Tracks(With(m, slot), instances[slot := i])
    ensures Stale(With(m, slot), instances[slot := i]) <==> Stale(m, instances) && slot != 0
  {
    hide Has, Fits, With;
    SetOneBitFits(m, slot, SLOTS);
    var t := instances[slot := i];
    SetOneBit(m, slot, 0);
    forall k | 0 < k < SLOTS ensures Has(With(m, slot), k) <==> t[k].ip == 0 {
      SetOneBit(m, slot, k);
    }
  }

  lemma ZeroMeansFull(instances: seq<OmniInstance>)
    requires Tracks(0, instances)
    ensures forall k :: 0 <= k < SLOTS ==> instances[k].ip != 0
  {
    hide Has, Fits;
    forall k | 0 <= k < SLOTS ensures instances[k].ip != 0 {
      ZeroHasNone(k);
    }
  }

  // ---- Registry ----------------------------------------------------------------------------

  datatype OmniInstance = OmniInstance(
    ip: u32, mapIndex: u8, linkState: L.NetLinkState, token: u32, width: u32, height: u32)
  {
    // OmniInstance::Clear: the position in the grid stays.
    function Cleared(): OmniInstance { OmniInstance(0, mapIndex, L.Inactive, 0, 0, 0) }
  }

  class OmniInstanceRegistry {
    var openSlotMask: bv32
    var allInstances: array<OmniInstance>    // ip is 0 when the slot is empty
    var instanceLookup: map<u32, nat>

    ghost predicate Valid()
      reads this, allInstances
    {
      && allInstances.Length == SLOTS && Tracks(openSlotMask, allInstances[..])
      && (C0IsStale() ==> allInstances[0].ip !in instanceLookup)
    }

    // The local device is there and its bit still says that the slot is empty.
    ghost predicate C0IsStale()
      requires allInstances.Length == SLOTS
      reads this, allInstances
    {
      Stale(openSlotMask, allInstances[..])
    }

    predicate Occupied(ip: u32)
      reads this, allInstances
    {
      exists k :: 0 <= k < allInstances.Length && allInstances[k].ip == ip
    }

    ghost predicate Full()
      requires allInstances.Length == SLOTS
      reads this, allInstances
    {
      forall k :: 0 <= k < SLOTS ==> allInstances[k].ip != 0
    }

    // The local device's slot C0 is taken, if it has an address, and its bit is set all the same.
    constructor (localIP: u32)
      ensures Valid() && fresh(allInstances) && instanceLookup == map[] && openSlotMask == 0x1FF
      ensures C0IsStale() <==> localIP != 0
      ensures forall k :: 0 <= k < SLOTS ==> allInstances[k].ip == if k == 0 then localIP else 0
    {
      openSlotMask := Ones(SLOTS);
      allInstances := new OmniInstance[SLOTS](
        k => OmniInstance(if k == 0 then localIP else 0, 0, L.Inactive, 0, 0, 0));
      instanceLookup := map[];
      new;
      StartIsStale(allInstances[..]);
    }

    method GetAllInstancesCount() returns (count: nat)
      requires Valid()
      ensures count == EmptySlots(allInstances[..]) + if C0IsStale() then 1 else 0
    {
      PopCountExactly(openSlotMask, allInstances[..]);
      return PopCount(openSlotMask);
    }

    // Takes the lowest empty slot, or overwrites the local device while its bit is stale.
    method AddInstance(ip: u32) returns (slot: nat)
      requires Valid() && openSlotMask != 0 && ip != 0
      modifies this, allInstances
      ensures Valid() && !C0IsStale() && allInstances == old(allInstances) && slot < SLOTS
      ensures old(allInstances[slot].ip) == 0 <==> !old(C0IsStale())
      ensures old(C0IsStale()) ==> slot == 0
      ensures forall j :: 0 <= j < slot ==> old(allInstances[j].ip) != 0
      ensures allInstances[..] ==
                old(allInstances[..])[slot := old(allInstances[slot]).(ip := ip, mapIndex := slot)]
      ensures instanceLookup == old(instanceLookup)[ip := slot]
    {
      hide Agree, Tracks, Stale, Without, BitScan;
      ScansExactly(openSlotMask, allInstances[..]);
      slot := BitScan(openSlotMask);
      var added := allInstances[slot].(ip := ip, mapIndex := slot);
      AddedAgrees(openSlotMask, allInstances[..], added);
      allInstances[slot] := added;
      instanceLookup := instanceLookup[ip := slot];
      openSlotMask := Without(openSlotMask, slot);
      AgreeUnlessStale(openSlotMask, allInstances[..]);
      assert allInstances[..] == old(allInstances[..])[slot := added];
    }

    method ClearInstance(slot: nat)
      requires Valid() && slot < SLOTS
      modifies this, allInstances
      ensures Valid() && allInstances == old(allInstances)
      ensures C0IsStale() <==> old(C0IsStale()) && slot != 0
      ensures allInstances[slot] == OmniInstance(0, old(allInstances[slot].mapIndex), L.Inactive, 0, 0, 0)
      ensures forall k :: 0 <= k < SLOTS && k != slot ==> allInstances[k] == old(allInstances[k])
      ensures instanceLookup == old(instanceLookup)
    {
      hide Tracks, Stale, With;
      ClearsExactly(openSlotMask, allInstances[..], slot, allInstances[slot].Cleared());
      allInstances[slot] := allInstances[slot].Cleared();
      openSlotMask := With(openSlotMask, slot);
      assert allInstances[..] == old(allInstances[..])[slot := allInstances[slot]];
    }

    // The pass costs the local device its slot: it is still there after the vanished devices
    // were cleared, its bit is stale, and some address is new.
    ghost predicate LosesC0(available: set<u32>)
      requires allInstances.Length == SLOTS
      reads this, allInstances
    {
      C0IsStale() && allInstances[0].ip in available && !(available <= instanceLookup.Keys)
    }

    // One pass over new scan results. Slots whose device is gone are cleared and no other; a
    // device whose address was never looked up gets a slot while there is one; a device known to
    // the lookup gets none, so one that was ever cleared does not come back. Whoever stays is
    // left alone, except for the local device as long as its bit is stale.
    method RefreshInstanceList(available: set<u32>)
      requires Valid() && 0 !in available
      modifies this, allInstances
      ensures Valid() && allInstances == old(allInstances)
      ensures forall k :: 0 <= k < SLOTS && old(allInstances[k].ip) in available &&
                          !(k == 0 && old(LosesC0(available))) ==>
                allInstances[k] == old(allInstances[k])
      ensures old(LosesC0(available)) ==> allInstances[0].ip in available - old(instanceLookup).Keys
      ensures forall k :: 0 <= k < SLOTS && allInstances[k].ip == 0 && old(allInstances[k].ip) != 0 ==>
                allInstances[k] == OmniInstance(0, old(allInstances[k].mapIndex), L.Inactive, 0, 0, 0)
      ensures forall k :: 0 <= k < SLOTS && allInstances[k].ip != 0 ==> allInstances[k].ip in available
      ensures forall k :: 0 <= k < SLOTS && allInstances[k].ip != 0 &&
                          allInstances[k].ip != old(allInstances[k].ip) ==>
                allInstances[k].ip !in old(instanceLookup)
      ensures forall ip :: ip in available && ip !in old(instanceLookup) ==> Occupied(ip) || Full()
      ensures forall ip :: ip in available && ip in old(instanceLookup) ==> (Occupied(ip) <==> old(Occupied(ip)))
    {
      hide Tracks, Stale;
      ClearTheGone(available);
      AddTheNew(available);
      forall ip | ip in available && ip in old(instanceLookup) ensures Occupied(ip) <==> old(Occupied(ip)) {
        if old(Occupied(ip)) {
          var j :| 0 <= j < SLOTS && old(allInstances[j]).ip == ip;
          assert allInstances[j].ip == ip;
        }
      }
    }

    method AddTheNew(available: set<u32>)
      requires Valid() && 0 !in available
      requires C0IsStale() ==> allInstances[0].ip in available
      modifies this, allInstances
      ensures Valid() && allInstances == old(allInstances)
      ensures forall k :: 0 <= k < SLOTS ==>
                allInstances[k] == old(allInstances[k]) ||
                ((old(allInstances[k]).ip == 0 || (k == 0 && old(LosesC0(available)))) &&
                 allInstances[k].ip in available && allInstances[k].ip !in old(instanceLookup))
      ensures old(LosesC0(available)) ==> allInstances[0].ip in available - old(instanceLookup).Keys
      ensures forall ip :: ip in available && ip !in old(instanceLookup) ==> Occupied(ip) || Full()
    {
      hide Tracks, Stale;
      var todo := available;
      while todo != {}
        invariant Valid() && allInstances == old(allInstances) && todo <= available
        invariant forall k :: 0 <= k < SLOTS ==>
                    allInstances[k] == old(allInstances[k]) ||
                    ((old(allInstances[k]).ip == 0 || (k == 0 && old(LosesC0(available)))) &&
                     allInstances[k].ip in available && allInstances[k].ip !in old(instanceLookup))
        invariant C0IsStale() ==> old(C0IsStale()) && instanceLookup == old(instanceLookup)
        invariant !C0IsStale() && old(C0IsStale()) ==> allInstances[0].ip in available - old(instanceLookup).Keys
        invariant C0IsStale() ==> available - todo <= old(instanceLookup).Keys
        invariant old(instanceLookup).Keys <= instanceLookup.Keys <= old(instanceLookup).Keys + (available - todo)
        invariant forall ip :: ip in available - todo && ip !in old(instanceLookup) ==> Occupied(ip)
        decreases todo
      {
        var ip :| ip in todo;
        if ip !in instanceLookup {
          if openSlotMask == 0 {
            ZeroMeansFull(allInstances[..]);
            NothingStaleAtZero();
            return;
          }
          ghost var before := allInstances[..];
          var slot := AddInstance(ip);
          StaysOccupied(before, slot, ip);
        }
        todo := todo - {ip};
      }
    }

    lemma NothingStaleAtZero()
      requires allInstances.Length == SLOTS && openSlotMask == 0
      ensures !C0IsStale()
    {
      ZeroHasNone(0);
    }

    // A new occupant takes nobody's place but that of the slot it overwrites.
    lemma StaysOccupied(before: seq<OmniInstance>, slot: nat, ip: u32)
      requires allInstances.Length == |before| == SLOTS && slot < SLOTS && allInstances[slot].ip == ip
      requires forall k :: 0 <= k < SLOTS && k != slot ==> allInstances[k] == before[k]
      ensures Occupied(ip)
      ensures forall other :: other != before[slot].ip && (exists j :: 0 <= j < SLOTS && before[j].ip == other) ==>
                Occupied(other)
    {
      forall other | other != before[slot].ip && exists j :: 0 <= j < SLOTS && before[j].ip == other
        ensures Occupied(other)
      {
        var j :| 0 <= j < SLOTS && before[j].ip == other;
        assert allInstances[j].ip == other;
      }
    }

    method ClearTheGone(available: set<u32>)
      requires Valid() && 0 !in available
      modifies this, allInstances
      ensures Valid() && allInstances == old(allInstances) && instanceLookup == old(instanceLookup)
      ensures C0IsStale() <==> old(C0IsStale()) && old(allInstances[0].ip) in available
      ensures forall k :: 0 <= k < SLOTS ==>
                allInstances[k] == if old(allInstances[k]).ip != 0 && old(allInstances[k]).ip !in available
                                   then old(allInstances[k]).Cleared() else old(allInstances[k])
    {
      hide Tracks;
      for k := 0 to SLOTS
        invariant Valid() && allInstances == old(allInstances) && instanceLookup == old(instanceLookup)
        invariant C0IsStale() <==> old(C0IsStale()) && (k > 0 ==> old(allInstances[0].ip) in available)
        invariant forall j :: 0 <= j < k ==>
                    allInstances[j] == if old(allInstances[j]).ip != 0 && old(allInstances[j]).ip !in available
                                       then old(allInstances[j]).Cleared() else old(allInstances[j])
        invariant forall j :: k <= j < SLOTS ==> allInstances[j] == old(allInstances[j])
      {
        if allInstances[k].ip != 0 && allInstances[k].ip !in available {
          ClearInstance(k);
        }
      }
    }
  }
}
