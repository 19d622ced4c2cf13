/** The encoder's cache of registered textures: the pool object against a first-in first-out
    cache, and what any sequence of lookups leaves in it. */
module CachedPool {
  import opened Types

  // 0 is the null surface and the null handle; RegisterResource yields 0 when it fails.
  datatype Slot = Slot(surface: nat, handle: nat)

  // ---- Specification ---------------------------------------------------------------------

  predicate Holds(cache: seq<Slot>, texture: nat) {
    exists k :: 0 <= k < |cache| && cache[k].surface == texture
  }

  // Oldest first. A hit changes nothing; a miss is appended, and drops the oldest entry of a
  // full cache.
  function Resolve(cache: seq<Slot>, capacity: nat, texture: nat, handle: nat): seq<Slot> {
    if Holds(cache, texture) || capacity == 0 then cache
    else if |cache| < capacity then cache + [Slot(texture, handle)]
    else cache[1..] + [Slot(texture, handle)]
  }

  predicate Distinct(cache: seq<Slot>) {
    forall a, b :: 0 <= a < b < |cache| ==> cache[a].surface != cache[b].surface
  }

  datatype Request = Request(texture: nat, handle: nat)

  function ResolveAll(capacity: nat, rs: seq<Request>): seq<Slot> {
    if rs == [] then []
    else
      var r := rs[|rs| - 1];
      Resolve(ResolveAll(capacity, rs[..|rs| - 1]), capacity, r.texture, r.handle)
  }

  // Every texture that was not there when it was asked for, in that order.
  function Misses(capacity: nat, rs: seq<Request>): seq<Slot> {
    if rs == [] then []
    else
      var front, r := rs[..|rs| - 1], rs[|rs| - 1];
      Misses(capacity, front) +
      if Holds(ResolveAll(capacity, front), r.texture) then [] else [Slot(r.texture, r.handle)]
  }

  function Last(s: seq<Slot>, n: nat): seq<Slot> { if |s| <= n then s else s[|s| - n..] }

  lemma LastOfOneMore(misses: seq<Slot>, slot: Slot, n: nat)
    ensures Last(misses + [slot], n) == if n == 0 then [] else if |misses| < n then misses + [slot]
                                        else Last(misses, n)[1..] + [slot]
  {
  }

  lemma ResolveIsLast(misses: seq<Slot>, capacity: nat, texture: nat, handle: nat)
    requires var cache := Last(misses, capacity); Distinct(cache) && !Holds(cache, texture)
    ensures var after := Resolve(Last(misses, capacity), capacity, texture, handle);
            after == Last(misses + [Slot(texture, handle)], capacity) && Distinct(after) && |after| <= capacity
  {
    LastOfOneMore(misses, Slot(texture, handle), capacity);
    var cache := Last(misses, capacity);
    forall k | 0 <= k < |cache| ensures cache[k].surface != texture {
    }
  }

  // After any sequence of requests the cache holds exactly the most recent misses, as many as
  // fit, oldest first, with every texture once.
  lemma {:induction false} HoldsTheLatestMisses(capacity: nat, rs: seq<Request>)
    ensures ResolveAll(capacity, rs) == Last(Misses(capacity, rs), capacity)
    ensures Distinct(ResolveAll(capacity, rs)) && |ResolveAll(capacity, rs)| <= capacity
  {
    hide Last, Distinct;
    if rs == [] {
      assert Last([], capacity) == [] && Distinct([]) by {
        NothingMissed(capacity);
      }
    } else {
      var front, r := rs[..|rs| - 1], rs[|rs| - 1];
      HoldsTheLatestMisses(capacity, front);
      if !Holds(ResolveAll(capacity, front), r.texture) {
        ResolveIsLast(Misses(capacity, front), capacity, r.texture, r.handle);
      } else {
        assert Misses(capacity, rs) == Misses(capacity, front);
      }
    }
  }

  lemma NothingMissed(capacity: nat)
    ensures Last([], capacity) == [] && Distinct([])
  {
  }

  // The entry a full cache gives up is the one that was inserted longest ago, and it is the
  // only one: everything else stays, in its order.
  lemma EvictsTheOldest(cache: seq<Slot>, capacity: nat, texture: nat, handle: nat)
    requires |cache| == capacity > 0 && !Holds(cache, texture) && Distinct(cache)
    ensures var after := Resolve(cache, capacity, texture, handle);
            && !Holds(after, cache[0].surface) && after[|after| - 1] == Slot(texture, handle)
            && |after| == capacity && after[..capacity - 1] == cache[1..]
  {
    var after := Resolve(cache, capacity, texture, handle);
    assert cache[0].surface != texture;
    forall k | 0 <= k < |after| ensures after[k].surface != cache[0].surface {
      if k < capacity - 1 {
        assert after[k] == cache[k + 1];
      }
    }
  }

  // ---- Pool object -----------------------------------------------------------------------

  // The pool as a value: slots[..used] are occupied, live are the handles the driver has given
  // out and not taken back, balance is registrations minus unregistrations.
  datatype Pool = Pool(slots: seq<Slot>, next: nat, used: nat, live: set<nat>, balance: int)

  predicate Shape(p: Pool) {
    && p.used <= |p.slots|
    && (forall k :: 0 <= k < p.used ==> p.slots[k].surface != 0)
    && (forall k :: p.used <= k < |p.slots| ==> p.slots[k] == Slot(0, 0))
    && (if p.used < |p.slots| || |p.slots| == 0 then p.next == 0 else p.next < |p.slots|)
    && (forall a, b :: 0 <= a < b < p.used ==> p.slots[a].surface != p.slots[b].surface)
  }

  function HandlesOf(s: seq<Slot>): set<nat> {
    set k | 0 <= k < |s| && s[k].handle != 0 :: s[k].handle
  }

  function Registered(s: seq<Slot>): nat {
    if s == [] then 0
    else Registered(s[..|s| - 1]) + if s[|s| - 1].handle != 0 then 1 else 0
  }

  predicate DistinctHandles(s: seq<Slot>) {
    forall a, b :: 0 <= a < b < |s| && s[a].handle != 0 ==> s[a].handle != s[b].handle
  }

  // A live handle is a non-null handle of exactly one slot, and the driver's balance is their number.
  predicate Accounts(p: Pool) {
    p.live == HandlesOf(p.slots) && DistinctHandles(p.slots) && p.balance == Registered(p.slots)
  }

  function FifoOf(p: Pool): seq<Slot>
    requires Shape(p)
  {
    if p.used < |p.slots| then p.slots[..p.used] else p.slots[p.next..] + p.slots[..p.next]
  }

  lemma FifoLength(p: Pool)
    requires Shape(p)
    ensures |FifoOf(p)| == p.used
  {
  }

  lemma FifoHolds(p: Pool, texture: nat)
    requires Shape(p) && texture != 0
    ensures Holds(FifoOf(p), texture) <==> exists k :: 0 <= k < |p.slots| && p.slots[k].surface == texture
    ensures forall s :: s in FifoOf(p) <==> s in p.slots && s.surface != 0
  {
    var f := FifoOf(p);
    if p.used == |p.slots| {
      assert p.slots == p.slots[..p.next] + p.slots[p.next..];
    } else {
      assert p.slots == p.slots[..p.used] + p.slots[p.used..];
    }
    assert forall s :: s in f <==> s in p.slots && s.surface != 0;
    if exists k :: 0 <= k < |p.slots| && p.slots[k].surface == texture {
      var k :| 0 <= k < |p.slots| && p.slots[k].surface == texture;
      assert p.slots[k] in f;
    }
  }

  lemma HandlesAfter(s: seq<Slot>, k: nat, slot: Slot)
    requires k < |s| && DistinctHandles(s)
    requires slot.handle == 0 || slot.handle == s[k].handle || slot.handle !in HandlesOf(s)
    ensures DistinctHandles(s[k := slot])
    ensures HandlesOf(s[k := slot])
         == HandlesOf(s) - {s[k].handle} + if slot.handle == 0 then {} else {slot.handle}
  {
    var t := s[k := slot];
    var goal := HandlesOf(s) - {s[k].handle} + if slot.handle == 0 then {} else {slot.handle};
    forall h | h in goal ensures h in HandlesOf(t) {
      if h in HandlesOf(s) && h != s[k].handle {
        var j :| 0 <= j < |s| && s[j].handle == h;
        assert t[j].handle == h;
      } else {
        assert t[k].handle == h;
      }
    }
    forall h | h in HandlesOf(t) ensures h in goal {
      var j :| 0 <= j < |t| && t[j].handle == h && h != 0;
      if j != k {
        assert s[j].handle == h;
      }
    }
    forall a, b | 0 <= a < b < |t| && t[a].handle != 0 ensures t[a].handle != t[b].handle {
      if a == k && slot.handle != s[k].handle {
        assert s[b].handle != 0 ==> s[b].handle in HandlesOf(s);
      } else if b == k && slot.handle != s[k].handle {
        assert s[a].handle in HandlesOf(s);
      }
    }
  }

  lemma {:induction false} RegisteredAfter(s: seq<Slot>, k: nat, slot: Slot)
    requires k < |s|
    ensures Registered(s[k := slot]) == Registered(s)
              - (if s[k].handle != 0 then 1 else 0) + (if slot.handle != 0 then 1 else 0)
  {
    var n, t := |s| - 1, s[k := slot];
    if k < n {
      RegisteredAfter(s[..n], k, slot);
      assert t[..n] == s[..n][k := slot];
    } else {
      assert t[..n] == s[..n];
    }
  }

  // Slot k gets a texture: the balance moves by what was registered there before and is now.
  function Put(p: Pool, k: nat, slot: Slot): Pool
    requires k < |p.slots|
  {
    p.(slots := p.slots[k := slot],
       live := p.live - {p.slots[k].handle} + if slot.handle == 0 then {} else {slot.handle},
       balance := p.balance - (if p.slots[k].handle != 0 then 1 else 0) + (if slot.handle != 0 then 1 else 0))
  }

  lemma PutAccounts(p: Pool, k: nat, slot: Slot)
    requires Accounts(p) && k < |p.slots|
    requires slot.handle == 0 || slot.handle == p.slots[k].handle || slot.handle !in p.live
    ensures Accounts(Put(p, k, slot))
  {
    HandlesAfter(p.slots, k, slot);
    RegisteredAfter(p.slots, k, slot);
  }

  lemma Occupies(p: Pool, slot: Slot)
    requires Shape(p) && p.used < |p.slots| && slot.surface != 0 && !Holds(p.slots, slot.surface)
    ensures var q := Put(p, p.used, slot).(used := p.used + 1);
            Shape(q) && FifoOf(q) == FifoOf(p) + [slot]
  {
    var q := Put(p, p.used, slot).(used := p.used + 1);
    assert forall a :: 0 <= a < p.used ==> q.slots[a] == p.slots[a] && p.slots[a].surface != slot.surface;
  }

  // Overwriting at x and moving on drops the head of the rotated buffer and appends.
  lemma Rotates(s: seq<Slot>, x: nat, slot: Slot)
    requires x < |s|
    ensures var t, y := s[x := slot], Following(x, |s|); t[y..] + t[..y] == (s[x..] + s[..x])[1..] + [slot]
  {
    var t := s[x := slot];
    if x + 1 == |s| {
      assert t[0..] + t[..0] == s[..x] + [slot];
      assert (s[x..] + s[..x])[1..] == s[..x];
    } else {
      assert t[x + 1..] + t[..x + 1] == s[x + 1..] + s[..x] + [slot];
      assert (s[x..] + s[..x])[1..] == s[x + 1..] + s[..x];
    }
  }

  lemma Replaces(p: Pool, slot: Slot)
    requires Shape(p) && p.used == |p.slots| > 0 && slot.surface != 0 && !Holds(p.slots, slot.surface)
    ensures var q := Put(p, p.next, slot).(next := (p.next + 1) % |p.slots|);
            Shape(q) && FifoOf(q) == FifoOf(p)[1..] + [slot]
  {
    hide Holds;
    FollowingIsModulo(p.next, |p.slots|);
    ReplacesShape(p, slot);
    Rotates(p.slots, p.next, slot);
  }

  lemma ReplacesShape(p: Pool, slot: Slot)
    requires Shape(p) && p.used == |p.slots| > 0 && slot.surface != 0 && !Holds(p.slots, slot.surface)
    ensures Shape(Put(p, p.next, slot).(next := (p.next + 1) % |p.slots|))
  {
    assert forall a :: 0 <= a < |p.slots| ==> p.slots[a].surface != slot.surface;
    FollowingIsModulo(p.next, |p.slots|);
  }

  class CachedPoolNvencSession {
    var poolCache: array<Slot>
    var nextEvictionSlot: nat
    // NVRegisterResource.registeredResource: what the next Encode will use.
    var registeredResource: nat
    ghost var used: nat
    ghost var live: set<nat>
    ghost var balance: int

    ghost function View(): Pool
      reads this, poolCache
    {
      Pool(poolCache[..], nextEvictionSlot, used, live, balance)
    }

    ghost predicate Valid()
      reads this, poolCache
    {
      Shape(View()) && Accounts(View())
    }

    ghost function Fifo(): seq<Slot>
      requires Valid()
      reads this, poolCache
    {
      FifoOf(View())
    }

    constructor (poolSize: nat)
      ensures Valid() && fresh(poolCache) && poolCache.Length == poolSize
      ensures Fifo() == [] && live == {} && balance == 0 && registeredResource == 0
    {
      poolCache := new Slot[poolSize](_ => Slot(0, 0));
      nextEvictionSlot, registeredResource, live, used, balance := 0, 0, {}, 0, 0;
      new;
      NothingRegistered(poolCache[..]);
    }

    // Store into one slot, unregistering what was there and registering the new texture.
    method Store(k: nat, slot: Slot)
      requires k < poolCache.Length
      modifies poolCache, `registeredResource, `live, `balance
      ensures View() == Put(old(View()), k, slot) && registeredResource == slot.handle
    {
      live := live - {poolCache[k].handle} + if slot.handle == 0 then {} else {slot.handle};
      balance := balance - (if poolCache[k].handle != 0 then 1 else 0) + (if slot.handle != 0 then 1 else 0);
      poolCache[k] := slot;
      registeredResource := slot.handle;
    }

    // The first slot holding a surface; the null surface marks an empty slot.
    method Find(surface: nat) returns (slot: Option<nat>)
      ensures slot.Some? ==> slot.value < poolCache.Length && poolCache[slot.value].surface == surface &&
                             forall j :: 0 <= j < slot.value ==> poolCache[j].surface != surface
      ensures slot.None? ==> !Holds(poolCache[..], surface)
    {
      var k := 0;
      while k < poolCache.Length
        invariant 0 <= k <= poolCache.Length
        invariant forall j :: 0 <= j < k ==> poolCache[j].surface != surface
      {
        if poolCache[k].surface == surface {
          return Some(k);
        }
        k := k + 1;
      }
      return None;
    }

    // The driver does not give out a handle that is registered when it is asked. A full pool
    // has unregistered the handle it evicts by then, so that one may come straight back.
    ghost predicate Registrable(handle: nat)
      requires Valid()
      reads this, poolCache
    {
      handle !in live || (used == poolCache.Length > 0 && handle == poolCache[nextEvictionSlot].handle)
    }

    // handle: what RegisterResource answers if it is called, 0 when it fails.
    method ResolveCachedResource(texture: nat, handle: nat)
      requires Valid()
      requires texture == 0 || Holds(poolCache[..], texture) || Registrable(handle)
      modifies this, poolCache
      ensures Valid() && poolCache == old(poolCache)
      ensures texture == 0 ==> Fifo() == old(Fifo()) && registeredResource == old(registeredResource)
      ensures texture != 0 ==> Fifo() == Resolve(old(Fifo()), poolCache.Length, texture, handle)
      ensures texture != 0 && poolCache.Length > 0 ==> Slot(texture, registeredResource) in Fifo()
    {
      hide Accounts, Put, FifoOf;
      if texture == 0 {
        return;
      }
      ghost var was := View();
      FifoHolds(was, texture);
      FifoLength(was);
      var hit := Find(texture);
      if hit.Some? {
        registeredResource := poolCache[hit.value].handle;
        assert was.slots[hit.value] in FifoOf(was);
        return;
      }
      var empty := Find(0);
      if empty.Some? {
        FirstEmptyIsUsed(was, empty.value);
        Occupy(empty.value, texture, handle);
      } else if poolCache.Length > 0 {
        EmptySlotHoldsNull(was);
        Replace(texture, handle);
      }
    }

    // Cache missed with an empty slot left: the first one is taken.
    method Occupy(k: nat, texture: nat, handle: nat)
      requires Valid() && handle !in live && k == used < poolCache.Length
      requires texture != 0 && !Holds(poolCache[..], texture)
      modifies this, poolCache
      ensures Valid() && poolCache == old(poolCache) && registeredResource == handle
      ensures Fifo() == old(Fifo()) + [Slot(texture, handle)]
    {
      hide Accounts, Put;
      ghost var was := View();
      PutAccounts(was, used, Slot(texture, handle));
      Occupies(was, Slot(texture, handle));
      Store(k, Slot(texture, handle));
      used := used + 1;
      AccountsIgnoresIndices(Put(was, was.used, Slot(texture, handle)), View());
    }

    // Cache full: the slot whose turn it is gives up its texture.
    method Replace(texture: nat, handle: nat)
      requires Valid() && Registrable(handle) && used == poolCache.Length > 0
      requires texture != 0 && !Holds(poolCache[..], texture)
      modifies this, poolCache
      ensures Valid() && poolCache == old(poolCache) && registeredResource == handle
      ensures Fifo() == old(Fifo())[1..] + [Slot(texture, handle)]
    {
      hide Accounts, Put, FifoOf, Holds;
      ghost var was := View();
      PutAccounts(was, nextEvictionSlot, Slot(texture, handle));
      Replaces(was, Slot(texture, handle));
      Store(nextEvictionSlot, Slot(texture, handle));
      nextEvictionSlot := (nextEvictionSlot + 1) % poolCache.Length;
      AccountsIgnoresIndices(Put(was, was.next, Slot(texture, handle)), View());
    }

    // Every handle goes back to the driver exactly once, whatever the pool was used for.
    method NVCleanup()
      requires Valid()
      modifies this, poolCache
      ensures live == {} && balance == 0 && registeredResource == 0 && poolCache == old(poolCache)
      ensures forall k :: 0 <= k < poolCache.Length ==>
                poolCache[k] == if old(poolCache[k].handle) != 0 then Slot(0, 0) else old(poolCache[k])
    {
      var k := 0;
      while k < poolCache.Length
        invariant 0 <= k <= poolCache.Length && poolCache == old(poolCache) && Accounts(View())
        invariant forall j :: 0 <= j < k ==>
                    poolCache[j] == if old(poolCache[j].handle) != 0 then Slot(0, 0) else old(poolCache[j])
        invariant forall j :: k <= j < poolCache.Length ==> poolCache[j] == old(poolCache[j])
      {
        hide Accounts;
        if poolCache[k].handle != 0 {
          PutAccounts(View(), k, Slot(0, 0));
          Store(k, Slot(0, 0));
        }
        k := k + 1;
      }
      registeredResource := 0;
      NothingRegistered(poolCache[..]);
    }
  }

  lemma EmptySlotHoldsNull(p: Pool)
    requires Shape(p)
    ensures p.used < |p.slots| ==> Holds(p.slots, 0)
  {
    if p.used < |p.slots| {
      assert p.slots[p.used].surface == 0;
    }
  }

  lemma FirstEmptyIsUsed(p: Pool, k: nat)
    requires Shape(p) && k < |p.slots| && p.slots[k].surface == 0
    requires forall j :: 0 <= j < k ==> p.slots[j].surface != 0
    ensures k == p.used
  {
    assert p.used < k ==> p.slots[p.used].surface == 0;
  }

  lemma AccountsIgnoresIndices(p: Pool, q: Pool)
    requires Accounts(p) && p.slots == q.slots && p.live == q.live && p.balance == q.balance
    ensures Accounts(q)
  {
  }

  lemma {:induction false} NothingRegistered(s: seq<Slot>)
    requires forall k :: 0 <= k < |s| ==> s[k].handle == 0
    ensures HandlesOf(s) == {} && Registered(s) == 0
  {
    if s != [] {
      NothingRegistered(s[..|s| - 1]);
    }
  }
}
