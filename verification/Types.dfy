/** Machine integers and the small datatypes every other module uses. */
module Types {
  datatype Option<+T> = None | Some(value: T) {
    predicate IsFailure() { None? }

    function PropagateFailure<U>(): Option<U>
      requires None?
    {
      None
    }

    function Extract(): T
      requires Some?
    {
      value
    }
  }

  type u8 = x: nat | x < 0x100
  type u16 = x: nat | x < 0x1_0000
  type u32 = x: nat | x < 0x1_0000_0000
  type u64 = x: nat | x < 0x1_0000_0000_0000_0000

  // Positions of the 3x3 grid: 0 is the local device C0, 1..8 its neighbours, 9 is END.
  type DeviceMap = d: nat | d <= 9

  // The index after i in a ring of n slots.
  function Following(i: nat, n: nat): nat { if i + 1 == n then 0 else i + 1 }

  lemma FollowingIsModulo(i: nat, n: nat)
    requires i < n
    ensures (i + 1) % n == Following(i, n)
  {
  }
}
