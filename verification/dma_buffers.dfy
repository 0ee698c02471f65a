/**
 * The two-slot pool of DMA scratch buffers of LGFX_Device (`_dmabufs_t
 * _dmabufs[2]`, `_dma_flip`, get_dmabuffer, delete_dmabuffer).
 *
 * Every request flips to the other slot, so a buffer handed out by one call
 * can still be draining over the bus while the next call fills the other
 * one.  A slot keeps its buffer as long as requests for it round to the
 * length it already has.
 *
 * The platform allocator (heap_alloc_dma / heap_free) is outside the model:
 * whether an allocation succeeds is an input, each successful allocation
 * gets a fresh identifier, and the pool keeps a log of its allocator calls so
 * that reuse and release can be stated.
 */
module DmaBuffers {
  import opened BusTrace

  /** One `_dmabufs_t`: a buffer (None for nullptr) and its recorded length. */
  datatype Slot = Slot(buffer: Option<nat>, length: uint32)

  /** A call the pool makes into the platform allocator. */
  datatype HeapOp = HeapAlloc(length: uint32, result: Option<nat>) | HeapFree(id: nat)

  const EMPTY: Slot := Slot(None, 0)

  /** `(length + 3) & ~3` evaluated in 32-bit unsigned arithmetic. */
  function RoundUp4(length: uint32): (r: uint32)
    ensures r % 4 == 0
    ensures length <= 0xFFFF_FFFC ==> length <= r < length + 4
    ensures length > 0xFFFF_FFFC ==> r == 0
  {
    var sum := (length + 3) % 0x1_0000_0000;
    sum - sum % 4
  }

  /** Index of `_dmabufs[flip]`. */
  function SlotIndex(flip: bool): nat
  {
    if flip then 1 else 0
  }

  /** The abstract state of the pool. */
  datatype Pool = Pool(flip: bool, slots: seq<Slot>, nextId: nat, heap: seq<HeapOp>)

  /** A slot without a buffer records length 0; buffers come from the allocator. */
  predicate SlotValid(s: Slot, nextId: nat)
  {
    && (s.buffer.None? ==> s.length == 0)
    && (s.buffer.Some? ==> s.buffer.value < nextId)
  }

  predicate PoolValid(p: Pool)
  {
    && |p.slots| == 2
    && SlotValid(p.slots[0], p.nextId)
    && SlotValid(p.slots[1], p.nextId)
    && (p.slots[0].buffer.Some? && p.slots[1].buffer.Some? ==>
          p.slots[0].buffer != p.slots[1].buffer)
  }

  const INITIAL: Pool := Pool(false, [EMPTY, EMPTY], 0, [])

  /** `_dmabufs_t::free`: give a present buffer back and clear the slot. */
  function FreeSlot(s: Slot, heap: seq<HeapOp>): (Slot, seq<HeapOp>)
  {
    match s.buffer
    case Some(id) => (EMPTY, heap + [HeapFree(id)])
    case None => (s, heap)
  }

  /**
   * get_dmabuffer(length) with the allocator answering `allocOk`: the new
   * pool and the buffer returned.
   */
  function Acquire(p: Pool, length: uint32, allocOk: bool): (r: (Pool, Option<nat>))
    requires |p.slots| == 2
    ensures r.0.flip == !p.flip && |r.0.slots| == 2
    // the slot not selected by this call is left as it was
    ensures r.0.slots[1 - SlotIndex(r.0.flip)] == p.slots[1 - SlotIndex(r.0.flip)]
    // a slot whose length already matches is handed out again, without allocator calls
    ensures p.slots[SlotIndex(!p.flip)].length == RoundUp4(length) ==>
              && r.1 == p.slots[SlotIndex(!p.flip)].buffer
              && r.0.slots == p.slots && r.0.heap == p.heap && r.0.nextId == p.nextId
    // otherwise the slot is reallocated: a fresh buffer of the rounded length, or null and 0
    ensures p.slots[SlotIndex(!p.flip)].length != RoundUp4(length) ==>
              && r.1 == (if allocOk then Some(p.nextId) else None)
              && r.0.slots[SlotIndex(!p.flip)] == Slot(r.1, if allocOk then RoundUp4(length) else 0)
              && r.0.heap == p.heap
                             + (match p.slots[SlotIndex(!p.flip)].buffer
                                case Some(id) => [HeapFree(id)]
                                case None => [])
                             + [HeapAlloc(RoundUp4(length), r.1)]
    ensures r.1 == r.0.slots[SlotIndex(!p.flip)].buffer
    ensures PoolValid(p) ==> PoolValid(r.0)
  {
    var flip := !p.flip;
    var k := SlotIndex(flip);
    var len := RoundUp4(length);
    if p.slots[k].length != len then
      var (_, heap) := FreeSlot(p.slots[k], p.heap);
      var buf := if allocOk then Some(p.nextId) else None;
      var slot := Slot(buf, if allocOk then len else 0);
      (Pool(flip, p.slots[k := slot], if allocOk then p.nextId + 1 else p.nextId,
            heap + [HeapAlloc(len, buf)]),
       buf)
    else
      (Pool(flip, p.slots, p.nextId, p.heap), p.slots[k].buffer)
  }

  /** delete_dmabuffer: both slots freed, slot 0 first. */
  function Release(p: Pool): (r: Pool)
    requires PoolValid(p)
    ensures r.slots == [EMPTY, EMPTY] && r.flip == p.flip && r.nextId == p.nextId
    ensures r.heap == p.heap
                      + (if p.slots[0].buffer.Some? then [HeapFree(p.slots[0].buffer.value)] else [])
                      + (if p.slots[1].buffer.Some? then [HeapFree(p.slots[1].buffer.value)] else [])
    ensures PoolValid(r)
  {
    var (s0, h0) := FreeSlot(p.slots[0], p.heap);
    var (s1, h1) := FreeSlot(p.slots[1], h0);
    Pool(p.flip, [s0, s1], p.nextId, h1)
  }

  /**
   * Two requests for the same length that are one call apart land on the
   * same slot; once the first has been served, the second gets the very
   * same buffer without touching the allocator, whatever the request in
   * between was.
   */
  lemma SameLengthReusedEveryOtherCall(p: Pool, length: uint32, ok1: bool, other: uint32, ok2: bool, ok3: bool)
    requires PoolValid(p)
    ensures var (p1, b1) := Acquire(p, length, ok1);
            var (p2, _) := Acquire(p1, other, ok2);
            var (p3, b3) := Acquire(p2, length, ok3);
            && SlotIndex(p3.flip) == SlotIndex(p1.flip)
            && (b1.Some? ==> b3 == b1 && p3.heap == p2.heap)
  {
    var (p1, b1) := Acquire(p, length, ok1);
    var (p2, _) := Acquire(p1, other, ok2);
    var k := SlotIndex(p1.flip);
    assert p2.slots[k] == p1.slots[k];
  }

  /** A buffer handed out is at least as long as requested, whenever the rounding did not wrap. */
  lemma AcquiredBufferLongEnough(p: Pool, length: uint32, allocOk: bool)
    requires PoolValid(p) && length <= 0xFFFF_FFFC
    ensures var (p1, b) := Acquire(p, length, allocOk);
            b.Some? ==> length <= p1.slots[SlotIndex(p1.flip)].length
  {
  }

  /**
   * The in-place pool: the two slots are a fixed array as in the device,
   * the allocator log and the identifier counter belong to the model.
   */
  class DmaPool {
    var flip: bool
    const bufs: array<Slot>
    var nextId: nat
    var heap: seq<HeapOp>

    ghost predicate Valid()
      reads this, bufs
    {
      bufs.Length == 2 && PoolValid(State())
    }

    ghost function State(): Pool
      reads this, bufs
      requires bufs.Length == 2
    {
      Pool(flip, bufs[..], nextId, heap)
    }

    constructor ()
      ensures Valid() && fresh(bufs) && State() == INITIAL
    {
      flip := false;
      bufs := new Slot[2](_ => EMPTY);
      nextId := 0;
      heap := [];
      new;
      assert bufs[..] == [EMPTY, EMPTY];
    }

    /** `_dmabufs[k].free()`. */
    method FreeSlotAt(k: nat)
      requires Valid() && k < 2
      modifies this`heap, bufs
      ensures bufs.Length == 2 && bufs[1 - k] == old(bufs[1 - k])
      ensures (bufs[k], heap) == FreeSlot(old(bufs[k]), old(heap))
    {
      if bufs[k].buffer.Some? {
        heap := heap + [HeapFree(bufs[k].buffer.value)];
        bufs[k] := EMPTY;
      }
    }

    /** get_dmabuffer: `allocOk` is the answer heap_alloc_dma would give if called. */
    method GetDmaBuffer(length: uint32, allocOk: bool) returns (buf: Option<nat>)
      requires Valid()
      modifies this, bufs
      ensures Valid()
      ensures (State(), buf) == Acquire(old(State()), length, allocOk)
    {
      flip := !flip;
      var len := RoundUp4(length);
      var k := SlotIndex(flip);
      if bufs[k].length != len {
        FreeSlotAt(k);
        if allocOk {
          bufs[k] := Slot(Some(nextId), len);
          heap := heap + [HeapAlloc(len, Some(nextId))];
          nextId := nextId + 1;
        } else {
          bufs[k] := Slot(None, 0);
          heap := heap + [HeapAlloc(len, None)];
        }
      }
      buf := bufs[k].buffer;
      assert bufs[..] == old(bufs[..])[k := bufs[k]];
    }

    /** delete_dmabuffer. */
    method DeleteDmaBuffer()
      requires Valid()
      modifies this`heap, bufs
      ensures Valid()
      ensures State() == Release(old(State()))
    {
      FreeSlotAt(0);
      FreeSlotAt(1);
      assert bufs[..] == [EMPTY, EMPTY];
    }
  }
}
