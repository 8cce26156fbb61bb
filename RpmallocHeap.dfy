/** Per-heap bookkeeping of rpmalloc without its atomics: the allocation
    high-water counters and the thread span cache, a singly linked list of
    free spans whose head records the list length. */
module RpmallocHeap {

  /** 2^32: counters and list sizes are uint32_t. */
  const U32: nat := 0x1_0000_0000
  /** Space-priority cache preset. */
  const MinSpanCacheSize: nat := 8
  const MinSpanCacheRelease: nat := 8
  const MaxSpanCacheDivisor: nat := 16

  /** A global high-water mark such as `_memory_max_allocation`. */
  class GlobalCounter {
    var value: nat

    ghost predicate Valid()
      reads this
    {
      value < U32
    }

    constructor ()
      ensures Valid() && value == 0
    {
      value := 0;
    }
  }

  /** `span_counter_t`: the current number of allocations, their high-water
      mark and the cache limit derived from it. */
  class SpanCounter {
    var maxAllocations: nat
    var currentAllocations: nat
    var cacheLimit: nat

    ghost predicate Valid()
      reads this
    {
      maxAllocations < U32 &&
      currentAllocations <= maxAllocations &&
      cacheLimit == maxAllocations / MaxSpanCacheDivisor
    }

    constructor ()
      ensures Valid()
      ensures maxAllocations == 0 && currentAllocations == 0 && cacheLimit == 0
    {
      maxAllocations := 0;
      currentAllocations := 0;
      cacheLimit := 0;
    }

    /** `_memory_counter_increase`: one more allocation (a uint32_t
        increment); when it passes the high-water mark, the mark, the cache
        limit and, if exceeded, the global mark follow it. */
    method Increase(global: GlobalCounter)
      requires Valid() && global.Valid()
      modifies this, global
      ensures Valid() && global.Valid()
      ensures currentAllocations == (old(currentAllocations) + 1) % U32
      ensures currentAllocations > old(maxAllocations) ==>
        maxAllocations == currentAllocations &&
        global.value == (if currentAllocations > old(global.value) then currentAllocations else old(global.value))
      ensures currentAllocations <= old(maxAllocations) ==>
        maxAllocations == old(maxAllocations) && global.value == old(global.value)
      ensures old(maxAllocations) <= old(global.value) ==> maxAllocations <= global.value
    {
      currentAllocations := (currentAllocations + 1) % U32;
      if currentAllocations > maxAllocations {
        maxAllocations := currentAllocations;
        cacheLimit := maxAllocations / MaxSpanCacheDivisor;
        if maxAllocations > global.value {
          global.value := maxAllocations;
        }
      }
    }
  }

  /** The span fields the cache uses: `data.list_size` and `next_span`. */
  class Span {
    var listSize: nat
    var next: Span?

    constructor ()
      ensures listSize == 0 && next == null
    {
      listSize := 0;
      next := null;
    }
  }

  /** The spans from `first` on form a list linked through next_span that
      ends with null. */
  ghost predicate Linked(list: seq<Span>)
    reads set s | s in list
  {
    (forall i :: 0 <= i < |list| - 1 ==> list[i].next == list[i + 1]) &&
    (list != [] ==> list[|list| - 1].next == null)
  }

  ghost predicate Distinct(list: seq<Span>)
  {
    forall i, j :: 0 <= i < j < |list| ==> list[i] != list[j]
  }

  /** The part of `heap_t` the span cache uses. */
  class Heap {
    /** The list headed by `span_cache`, in next_span order. */
    var spanCache: seq<Span>
    /** `span_counter.cache_limit`. */
    var cacheLimit: nat

    ghost predicate Valid()
      reads this, set s | s in spanCache
    {
      Distinct(spanCache) && Linked(spanCache) &&
      (spanCache != [] ==> spanCache[0].listSize == |spanCache|)
    }

    constructor ()
      ensures Valid() && spanCache == [] && cacheLimit == 0
    {
      spanCache := [];
      cacheLimit := 0;
    }

    /** `_memory_heap_cache_insert`: push the span at the head, its list size
        one more than the old head's. When the list reaches
        MIN_SPAN_CACHE_RELEASE + MIN_SPAN_CACHE_SIZE spans and exceeds the
        cache limit, the first MIN_SPAN_CACHE_RELEASE spans are cut off and
        returned for the global cache, and the rest stays cached with its
        new head recording the remaining length. */
    method CacheInsert(span: Span) returns (released: seq<Span>)
      requires Valid() && span !in spanCache
      modifies this, span, set s | s in spanCache
      ensures Valid() && cacheLimit == old(cacheLimit)
      ensures var full := [span] + old(spanCache);
        if |full| >= MinSpanCacheRelease + MinSpanCacheSize && |full| > cacheLimit
        then released == full[..MinSpanCacheRelease] && spanCache == full[MinSpanCacheRelease..]
        else released == [] && spanCache == full
      ensures released != [] ==> Linked(released) && Distinct(released)
    {
      var full := [span] + spanCache;
      span.next := if spanCache == [] then null else spanCache[0];
      if spanCache != [] {
        span.listSize := spanCache[0].listSize + 1;
      } else {
        span.listSize := 1;
      }
      spanCache := full;
      assert Linked(full);
      if span.listSize >= MinSpanCacheRelease + MinSpanCacheSize && span.listSize > cacheLimit {
        var listSize := 1;
        var next := span.next;
        var last := span;
        while listSize < MinSpanCacheRelease
          invariant 1 <= listSize <= MinSpanCacheRelease
          invariant last == full[listSize - 1] && next == full[listSize]
        {
          last := next;
          next := next.next;
          listSize := listSize + 1;
        }
        next.listSize := span.listSize - listSize;
        last.next := null;
        spanCache := full[MinSpanCacheRelease..];
        released := full[..MinSpanCacheRelease];
      } else {
        released := [];
      }
    }

    /** Taking the head span of the cache, as the single-span path of
        `_memory_allocate_large_from_heap` does: the next span becomes the
        head with one less in its list size; an empty cache yields null. */
    method CacheExtract() returns (span: Span?)
      requires Valid()
      modifies set s | s in spanCache
      modifies this
      ensures Valid() && cacheLimit == old(cacheLimit)
      ensures old(spanCache) == [] ==> span == null && spanCache == []
      ensures old(spanCache) != [] ==> span == old(spanCache)[0] && spanCache == old(spanCache)[1..]
    {
      if spanCache == [] {
        return null;
      }
      span := spanCache[0];
      if span.listSize > 1 {
        assert Linked(spanCache) && spanCache[0].next == spanCache[1];
        var nextSpan := span.next;
        nextSpan.listSize := span.listSize - 1;
        spanCache := spanCache[1..];
      } else {
        spanCache := [];
      }
    }
  }

  /** The cache search of `_memory_allocate_large_from_heap` for a block of
      numSpans > 1 spans: starting at class numSpans - 1, move to the next
      larger large class while the current one is empty, the last large
      class is not reached and the class has at most two spans more than
      needed. */
  method LargeCacheIndex(numSpans: nat, hasSpan: seq<bool>) returns (idx: nat)
    requires 2 <= numSpans <= 4 && |hasSpan| == 4
    ensures numSpans - 1 <= idx < 4 && idx <= numSpans + 1
    ensures forall k :: numSpans - 1 <= k < idx ==> !hasSpan[k]
    ensures hasSpan[idx] || idx == 3 || idx == numSpans + 1
  {
    idx := numSpans - 1;
    while !hasSpan[idx] && idx < 3 && idx < numSpans + 1
      invariant numSpans - 1 <= idx < 4 && idx <= numSpans + 1
      invariant forall k :: numSpans - 1 <= k < idx ==> !hasSpan[k]
      decreases 3 - idx
    {
      idx := idx + 1;
    }
  }
}
