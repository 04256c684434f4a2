/**
 * Disk slot choice and device naming for attach: the slot is the requested
 * one when it is free, otherwise the first integer from 1 up that no Image
 * attached to the VM occupies; the device name is "sd" followed by the
 * letter `slot` places after 'a'.
 */
module DiskSlots {
  import opened Outcomes

  /** `d` is the least integer >= 1 that is not an occupied slot. */
  ghost predicate LeastFreeSlot(occupied: seq<int>, d: int)
  {
    1 <= d && d !in occupied && forall k :: 1 <= k < d ==> k in occupied
  }

  /** The requested slot is taken as it is when no attached Image occupies it. */
  predicate RequestHonoured(occupied: seq<int>, requested: Option<int>)
  {
    requested.Some? && requested.value !in occupied
  }

  /** The slots 1 .. n-1. */
  function SlotRange(n: int): (r: set<int>)
    ensures forall k :: k in r <==> 1 <= k < n
    ensures |r| == if n < 1 then 0 else n - 1
    decreases n
  {
    if n <= 1 then {} else SlotRange(n - 1) + {n - 1}
  }

  /** A sequence holds at most as many distinct values as it has entries. */
  lemma {:induction false} DistinctBound(occupied: seq<int>)
    ensures |set i | i in occupied| <= |occupied|
  {
    if occupied != [] {
      DistinctBound(occupied[1..]);
      assert (set i | i in occupied) == (set i | i in occupied[1..]) + {occupied[0]};
    } else {
      assert (set i | i in occupied) == {};
    }
  }

  /** If every slot 1 .. n-1 is occupied, there are at least n - 1 occupied entries. */
  lemma OccupiedPrefixBound(occupied: seq<int>, n: int)
    requires 1 <= n
    requires forall k :: 1 <= k < n ==> k in occupied
    ensures n - 1 <= |occupied|
  {
    var held := set i | i in occupied;
    var slots := SlotRange(n);
    assert slots <= held;
    assert held == slots + (held - slots);
    DistinctBound(occupied);
  }

  /** The first-fit slot never exceeds one more than the number of attached Images. */
  lemma LeastFreeSlotBound(occupied: seq<int>, d: int)
    requires LeastFreeSlot(occupied, d)
    ensures d <= |occupied| + 1
  {
    OccupiedPrefixBound(occupied, d);
  }

  /** The least free slot is unique. */
  lemma LeastFreeSlotUnique(occupied: seq<int>, d: int, e: int)
    requires LeastFreeSlot(occupied, d) && LeastFreeSlot(occupied, e)
    ensures d == e
  {
  }

  /**
   * The slot choice of attach, with the same loop: the requested slot when
   * it is free, otherwise count up from 1 past every occupied slot.
   */
  method ChooseDiskDev(occupied: seq<int>, requested: Option<int>) returns (d: int)
    ensures d !in occupied
    ensures RequestHonoured(occupied, requested) ==> d == requested.value
    ensures !RequestHonoured(occupied, requested) ==> LeastFreeSlot(occupied, d)
  {
    if RequestHonoured(occupied, requested) {
      return requested.value;
    }
    d := 1;
    while d in occupied
      invariant 1 <= d
      invariant forall k :: 1 <= k < d ==> k in occupied
      decreases |occupied| + 1 - d
    {
      OccupiedPrefixBound(occupied, d + 1);
      d := d + 1;
    }
  }

  /**
   * 'sd' + chr(ord('a') + slot). The agents run on Python 2, whose chr()
   * accepts only 0 .. 255 and raises ValueError otherwise: None.
   */
  function DeviceName(slot: int): (r: Option<string>)
    ensures r.Some? <==> 0 <= 'a' as int + slot < 256
    ensures r.Some? ==> |r.value| == 3 && r.value[..2] == "sd" && r.value[2] as int == 'a' as int + slot
  {
    var code := 'a' as int + slot;
    if 0 <= code < 256 then Some("sd" + [code as char]) else None
  }

  /** Distinct slots get distinct device names, so each attached disk has its own name. */
  lemma DeviceNameInjective(a: int, b: int)
    requires DeviceName(a).Some? && DeviceName(b).Some? && a != b
    ensures DeviceName(a).value != DeviceName(b).value
  {
    assert DeviceName(a).value[2] != DeviceName(b).value[2];
  }

  /** First fit: slot 1 for a VM without disks, slot 2 next to slots {1, 3}. */
  lemma FirstFitExamples()
    ensures LeastFreeSlot([], 1)
    ensures LeastFreeSlot([1, 3], 2)
    ensures DeviceName(1) == Some("sdb") && DeviceName(2) == Some("sdc")
  {
    assert ('a' as int + 1) as char == 'b' && ('a' as int + 2) as char == 'c';
    assert "sd" + ['b'] == "sdb" && "sd" + ['c'] == "sdc";
  }
}
