/** The index rings shared with the kernel: free-running 32-bit counters, masked to a
    power-of-two number of entries. Each push and pop is one on a bounded FIFO, however
    often the counters have wrapped. */
module Rings {
  import opened Protocol

  // ---- arithmetic of the indices ------------------------------------------------------

  function Pow2(k: nat): (p: nat)
    ensures p >= 1
  {
    if k == 0 then 1 else 2 * Pow2(k - 1)
  }

  /** Bitwise AND. */
  function And(x: nat, y: nat): nat {
    if x == 0 || y == 0 then 0 else 2 * And(x / 2, y / 2) + (if x % 2 == 1 && y % 2 == 1 then 1 else 0)
  }

  /** The slot that counter value `x` names in a ring of 2^k entries: its last k bits. */
  function Slot(x: nat, k: nat): (r: nat)
    ensures r < Pow2(k)
  {
    if k == 0 then 0 else 2 * Slot(x / 2, k - 1) + x % 2
  }

  lemma {:induction false} SlotOfZero(k: nat)
    ensures Slot(0, k) == 0
  {
    if k != 0 { SlotOfZero(k - 1); }
  }

  /** Masking with entries - 1 gives the slot. */
  lemma {:induction false} MaskIsSlot(x: nat, k: nat)
    ensures And(x, Pow2(k) - 1) == Slot(x, k)
  {
    if x == 0 {
      SlotOfZero(k);
    } else if k != 0 {
      var m := Pow2(k - 1);
      MaskIsSlot(x / 2, k - 1);
      assert (2 * m - 1) / 2 == m - 1 && (2 * m - 1) % 2 == 1;
    }
  }

  /** Entries less than a ring apart are in different slots. */
  lemma {:induction false} SlotsDiffer(a: nat, b: nat, k: nat)
    requires a < b < a + Pow2(k)
    ensures Slot(a, k) != Slot(b, k)
  {
    if k != 0 && a % 2 == b % 2 { SlotsDiffer(a / 2, b / 2, k - 1); }
  }

  /** Slots repeat with every power of two from the ring size on. */
  lemma {:induction false} SlotsRepeat(x: nat, k: nat, n: nat)
    requires k <= n
    ensures Slot(x + Pow2(n), k) == Slot(x, k)
  {
    if k != 0 {
      assert (x + Pow2(n)) / 2 == x / 2 + Pow2(n - 1);
      SlotsRepeat(x / 2, k - 1, n - 1);
    }
  }

  lemma Pow32()
    ensures Pow2(32) == U32
  {
    assert Pow2(8) == 256;
    assert Pow2(16) == 0x1_0000;
    assert Pow2(24) == 0x100_0000;
  }

  lemma {:induction false} Below32(k: nat)
    requires k <= 31
    ensures Pow2(k) <= U32 / 2
    decreases 31 - k
  {
    if k == 31 { Pow32(); } else { Below32(k + 1); }
  }

  /** A counter one past its range names the slot that the wrapped counter names. */
  lemma WrapKeepsSlot(x: nat, k: nat)
    requires k <= 31 && x < 2 * U32
    ensures Slot(x % U32, k) == Slot(x, k)
  {
    hide Slot, Pow2;
    if x >= U32 {
      Pow32();
      SlotsRepeat(x - U32, k, 32);
    }
  }

  /** The slot of the k-th entry from `head` on. */
  function Nth(head: nat, k: nat, bits: nat): (r: nat)
    ensures r < Pow2(bits)
  {
    Slot(head + k, bits)
  }

  /** tail - head in 32 bits. */
  function Distance(tail: nat, head: nat): nat {
    (tail - head) % U32
  }

  // ---- the rings -------------------------------------------------------------------------

  /** The submission queue: entries in `sqes`, reached through the index array. */
  class SubmissionRing<T(0)> {
    const bits: nat
    const sqes: array<T>
    const indices: array<nat>
    var head: nat
    var tail: nat
    ghost var contents: seq<T>  // published and not yet consumed

    ghost predicate Valid()
      reads this, sqes, indices
    {
      && bits <= 31
      && sqes.Length == indices.Length == Pow2(bits) && sqes as object != indices
      && head < U32
      && |contents| <= Pow2(bits)
      && tail == (head + |contents|) % U32
      && (forall k | 0 <= k < |contents| ::
            && indices[Nth(head, k, bits)] == Nth(head, k, bits)
            && sqes[Nth(head, k, bits)] == contents[k])
    }

    constructor (bits: nat)
      requires bits <= 31
      ensures Valid() && fresh(sqes) && fresh(indices) && contents == [] && this.bits == bits
    {
      this.bits := bits;
      sqes := new T[Pow2(bits)];
      indices := new nat[Pow2(bits)];
      head, tail := 0, 0;
      contents := [];
    }

    /** ring_queue_sqe up to the publication of the tail: EBUSY exactly when full. */
    method Push(x: T) returns (rc: int)
      requires Valid()
      modifies this`tail, this`contents, sqes, indices
      ensures Valid()
      ensures rc == if |old(contents)| < Pow2(bits) then 0 else -EBUSY
      ensures contents == if rc == 0 then old(contents) + [x] else old(contents)
    {
      hide Slot, And, Pow2;
      Below32(bits);
      if Distance(tail, head) >= sqes.Length {
        return -EBUSY;
      }
      MaskIsSlot(tail, bits);
      var index := And(tail, sqes.Length - 1);
      WrapKeepsSlot(head + |contents|, bits);
      forall k | 0 <= k < |contents| ensures Nth(head, k, bits) != index {
        SlotsDiffer(head + k, head + |contents|, bits);
      }
      sqes[index] := x;
      indices[index] := index;
      tail := (tail + 1) % U32;
      contents := contents + [x];
      rc := 0;
    }

    /** The kernel takes the oldest entry. */
    method Consume() returns (x: T)
      requires Valid() && contents != []
      modifies this`head, this`contents
      ensures Valid() && x == old(contents)[0] && contents == old(contents)[1..]
    {
      hide Slot, And, Pow2;
      Below32(bits);
      MaskIsSlot(head, bits);
      assert Nth(head, 0, bits) == Slot(head, bits);
      x := sqes[indices[And(head, sqes.Length - 1)]];
      Advance(head, (head + 1) % U32, bits, |contents| - 1);
      ghost var before := head;
      head := (head + 1) % U32;
      contents := contents[1..];
      assert forall k | 0 <= k < |contents| :: Nth(head, k, bits) == Nth(before, k + 1, bits);
    }
  }

  /** Taking the oldest entry leaves the others in their slots. */
  lemma Advance(head: nat, next: nat, bits: nat, n: nat)
    requires next == (head + 1) % U32 && head < U32 && bits <= 31 && n < Pow2(bits)
    ensures forall k | 0 <= k <= n :: Nth(next, k, bits) == Nth(head, k + 1, bits)
  {
    hide Slot, Pow2;
    Pow32();
    forall k | 0 <= k <= n ensures Nth(next, k, bits) == Nth(head, k + 1, bits) {
      if head + 1 == U32 {
        SlotsRepeat(k, bits, 32);
        assert head + (k + 1) == k + Pow2(32);
      }
    }
  }

  /** The completion queue: the kernel posts, the daemon takes one at a time. */
  class CompletionRing<T(0)> {
    const bits: nat
    const cqes: array<T>
    var head: nat
    var tail: nat
    ghost var contents: seq<T>  // posted and not yet taken

    ghost predicate Valid()
      reads this, cqes
    {
      && bits <= 31
      && cqes.Length == Pow2(bits)
      && head < U32
      && |contents| <= Pow2(bits)
      && tail == (head + |contents|) % U32
      && (forall k | 0 <= k < |contents| :: cqes[Nth(head, k, bits)] == contents[k])
    }

    constructor (bits: nat)
      requires bits <= 31
      ensures Valid() && fresh(cqes) && contents == [] && this.bits == bits
    {
      this.bits := bits;
      cqes := new T[Pow2(bits)];
      head, tail := 0, 0;
      contents := [];
    }

    /** The kernel posts a completion; there is room as long as fewer than the ring's
        entries are outstanding. */
    method Post(x: T)
      requires Valid() && |contents| < Pow2(bits)
      modifies this`tail, this`contents, cqes
      ensures Valid() && contents == old(contents) + [x]
    {
      hide Slot, And, Pow2;
      Below32(bits);
      MaskIsSlot(tail, bits);
      var index := And(tail, cqes.Length - 1);
      WrapKeepsSlot(head + |contents|, bits);
      forall k | 0 <= k < |contents| ensures Nth(head, k, bits) != index {
        SlotsDiffer(head + k, head + |contents|, bits);
      }
      cqes[index] := x;
      tail := (tail + 1) % U32;
      contents := contents + [x];
    }

    /** iouringd_ring_peek_completion: the oldest completion, if there is one. */
    method Peek() returns (x: Option<T>)
      requires Valid()
      modifies this`head, this`contents
      ensures Valid()
      ensures x == if old(contents) == [] then None else Some(old(contents)[0])
      ensures contents == if old(contents) == [] then [] else old(contents)[1..]
    {
      hide Slot, And, Pow2;
      Below32(bits);
      if head == tail {
        return None;
      }
      MaskIsSlot(head, bits);
      assert Nth(head, 0, bits) == Slot(head, bits);
      x := Some(cqes[And(head, cqes.Length - 1)]);
      Advance(head, (head + 1) % U32, bits, |contents| - 1);
      ghost var before := head;
      head := (head + 1) % U32;
      contents := contents[1..];
      assert forall k | 0 <= k < |contents| :: Nth(head, k, bits) == Nth(before, k + 1, bits);
    }
  }
}
