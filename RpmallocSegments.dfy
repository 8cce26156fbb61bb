/** The 32-slot free-marker bitmask of an rpmalloc segment and the low-bit
    "in use" tag on heap pointers, both without their atomics: a set bit
    marks a span slot in use, and an odd heap pointer marks a heap in use.
    The segment mask is modelled as its 32 bits, bit b at index b: `m | (1
    << b)` sets entry b, `m & ~(1 << b)` clears it, and the full mask
    0xFFFFFFFF is the one with every entry set. */
module RpmallocSegments {

  const SpansPerSegment: nat := 32

  /** A value of the 32-bit `free_markers` word. */
  type Markers = m: seq<bool> | |m| == SpansPerSegment
    witness seq(SpansPerSegment, _ => false)

  predicate IsFull(m: Markers)
  {
    forall b :: 0 <= b < SpansPerSegment ==> m[b]
  }

  predicate IsEmpty(m: Markers)
  {
    forall b :: 0 <= b < SpansPerSegment ==> !m[b]
  }

  /** `segment_t`'s `free_markers`. */
  class Segment {
    var freeMarkers: Markers

    constructor (markers: Markers)
      ensures freeMarkers == markers
    {
      freeMarkers := markers;
    }

    /** `_get_span_from_segment`: nothing for a full segment; otherwise the
        lowest free slot, which is marked used while no other bit changes. */
    method GetSpan() returns (found: bool, slot: nat)
      modifies this
      ensures !found <==> IsFull(old(freeMarkers))
      ensures !found ==> freeMarkers == old(freeMarkers)
      ensures found ==> slot < SpansPerSegment && !old(freeMarkers)[slot]
      ensures found ==> forall b :: 0 <= b < slot ==> old(freeMarkers)[b]
      ensures found ==> freeMarkers == old(freeMarkers)[slot := true]
    {
      var slots := freeMarkers;
      if IsFull(slots) {
        return false, 0;
      }
      var b := 0;
      while b < SpansPerSegment
        invariant b <= SpansPerSegment
        invariant forall k :: 0 <= k < b ==> slots[k]
      {
        if !slots[b] {
          freeMarkers := slots[b := true];
          return true, b;
        }
        b := b + 1;
      }
      assert false;
    }

    /** `_return_span_to_segment`: clears the span's slot bit and reports
        whether the segment became completely free. */
    method ReturnSpan(slot: nat) returns (empty: bool)
      requires slot < SpansPerSegment
      modifies this
      ensures freeMarkers == old(freeMarkers)[slot := false]
      ensures empty <==> IsEmpty(freeMarkers)
    {
      var newSlots := freeMarkers[slot := false];
      freeMarkers := newSlots;
      empty := IsEmpty(newSlots);
    }
  }

  /** Taking a span from a segment and giving the same slot back restores
      the markers. */
  lemma GetThenReturnRestores(m: Markers, slot: nat)
    requires slot < SpansPerSegment && !m[slot]
    ensures m[slot := true][slot := false] == m
  {
  }

  /** `_is_heap_in_use`: the low bit of the heap pointer. */
  predicate IsHeapInUse(heap: bv64)
  {
    heap & 1 != 0
  }

  /** `_mark_heap_in_use`: sets the low bit. */
  function MarkHeapInUse(heap: bv64): (r: bv64)
    ensures IsHeapInUse(r)
    ensures UnmarkHeapInUse(r) == UnmarkHeapInUse(heap)
  {
    heap | 1
  }

  /** `_unmark_heap_in_use`, also `_get_heap_ptr`: clears the low bit. */
  function UnmarkHeapInUse(heap: bv64): (r: bv64)
    ensures !IsHeapInUse(r)
    ensures !IsHeapInUse(heap) ==> r == heap
  {
    heap & !1
  }

  /** For an aligned (even) heap pointer, marking and then unmarking gives
      the pointer back. */
  lemma MarkUnmarkRoundTrip(heap: bv64)
    requires !IsHeapInUse(heap)
    ensures UnmarkHeapInUse(MarkHeapInUse(heap)) == heap
    ensures MarkHeapInUse(UnmarkHeapInUse(heap)) == MarkHeapInUse(heap)
  {
  }
}
