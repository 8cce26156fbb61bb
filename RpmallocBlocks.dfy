/** Block sizes in rpmalloc: the span and page counts of large and oversized
    blocks, the span header a block's size is read back from, the usable
    size of a block, and whether a reallocation keeps the block in place.
    size_t arithmetic is 64-bit; where a subtraction can wrap, it is taken
    modulo 2^64. */
module RpmallocBlocks {
  import opened RpmallocSizeClasses

  const U64: nat := 0x1_0000_0000_0000_0000

  /** `size + SPAN_HEADER_SIZE` in size_t. The source adds the header
      without a bound check, so for the largest 48 sizes the sum wraps
      past 2^64 to a small number. */
  function WithHeader(size: nat): (total: nat)
    requires size < U64
    ensures total < U64
    ensures size + SpanHeaderSize < U64 ==> total == size + SpanHeaderSize
    ensures size + SpanHeaderSize >= U64 ==> total < SpanHeaderSize
  {
    (size + SpanHeaderSize) % U64
  }

  /** The number of 8192-byte spans a large block of `size` bytes occupies
      together with its span header: the ceiling of the (wrapped) total
      over the span size. */
  function SpanCount(size: nat): (n: nat)
    requires size < U64
    ensures WithHeader(size) <= n * SpanMaxSize
    ensures n == 0 || (n - 1) * SpanMaxSize < WithHeader(size)
    ensures size + SpanHeaderSize < U64 ==> n >= 1
  {
    var total := WithHeader(size);
    total / SpanMaxSize + (if total % SpanMaxSize != 0 then 1 else 0)
  }

  /** The number of 512-byte pages an oversized block occupies together
      with its span header, from the same wrapped total; the pages never
      exceed the address space. */
  function PageCount(size: nat): (n: nat)
    requires size < U64
    ensures WithHeader(size) <= n * PageSize <= U64
    ensures n == 0 || (n - 1) * PageSize < WithHeader(size)
    ensures size + SpanHeaderSize < U64 ==> n >= 1
  {
    var total := WithHeader(size);
    total / PageSize + (if total % PageSize != 0 then 1 else 0)
  }

  /** A large block (up to LARGE_SIZE_LIMIT) needs one to four spans. */
  lemma LargeSpanCountRange(size: nat)
    requires MediumSizeLimit < size <= LargeSizeLimit
    ensures 1 <= SpanCount(size) <= LargeClassCount
  {
  }

  /** The span header fields a block's size is derived from: the owning
      heap (0 for an oversized block mapped directly), the size class (a
      small or medium class, or SIZE_CLASS_COUNT + k for a large block of
      k + 1 spans) and, for an oversized block, the page count stored in
      next_span. */
  datatype SpanHeader = SpanHeader(heapId: int, sizeClass: nat, pageCount: nat)

  ghost predicate HeaderOk(h: SpanHeader)
  {
    if h.heapId != 0 then h.sizeClass < SizeClassCount + LargeClassCount
    else h.pageCount * PageSize <= U64
  }

  /** `_memory_usable_size`: the class size of a small or medium block;
      the spans or pages of a large or oversized block minus the header. */
  function UsableSize(t: seq<SizeClass>, h: SpanHeader): (n: nat)
    requires |t| == SizeClassCount && HeaderOk(h)
    ensures h.heapId != 0 && h.sizeClass < SizeClassCount ==> n == t[h.sizeClass].size
  {
    if h.heapId != 0 then
      if h.sizeClass < SizeClassCount then t[h.sizeClass].size
      else (h.sizeClass - SizeClassCount + 1) * SpanMaxSize - SpanHeaderSize
    else ((h.pageCount * PageSize - SpanHeaderSize) % U64) as nat
  }

  /** The header of the block `_memory_allocate` hands out for `size`
      bytes: a small or medium block from the class the table serves the
      request from; a large block from large class `largeIdx`, which the
      cache search picks at or above the span count minus one; otherwise a
      directly mapped block with its page count. */
  function AllocatedHeader(t: seq<SizeClass>, size: nat, heapId: int, largeIdx: nat): (h: SpanHeader)
    requires TableOk(t, SizeClassCount) && |t| == SizeClassCount
    requires 1 <= size < U64 && heapId != 0
    requires MediumSizeLimit < size <= LargeSizeLimit ==>
      SpanCount(size) - 1 <= largeIdx < LargeClassCount
    ensures HeaderOk(h)
    ensures size <= MediumSizeLimit ==> h.heapId == heapId && h.sizeClass < SizeClassCount
    ensures MediumSizeLimit < size <= LargeSizeLimit ==> h.heapId == heapId && h.sizeClass >= SizeClassCount
    ensures size > LargeSizeLimit ==> h.heapId == 0
  {
    if size <= MediumSizeLimit then SpanHeader(heapId, ServingClass(t, size), 0)
    else if size <= LargeSizeLimit then SpanHeader(heapId, SizeClassCount + largeIdx, 0)
    else SpanHeader(0, 0, PageCount(size))
  }

  /** Every block handed out for a request whose size plus header fits
      in size_t is at least as large as the request: the usable size read
      back covers the requested bytes. */
  lemma UsableSizeCoversRequest(t: seq<SizeClass>, size: nat, heapId: int, largeIdx: nat)
    requires TableOk(t, SizeClassCount) && |t| == SizeClassCount
    requires 1 <= size && size + SpanHeaderSize < U64 && heapId != 0
    requires MediumSizeLimit < size <= LargeSizeLimit ==>
      SpanCount(size) - 1 <= largeIdx < LargeClassCount
    ensures size <= UsableSize(t, AllocatedHeader(t, size, heapId, largeIdx))
  {
    var h := AllocatedHeader(t, size, heapId, largeIdx);
    if size > LargeSizeLimit {
      var n := PageCount(size);
      assert size + SpanHeaderSize <= n * PageSize;
    } else if size > MediumSizeLimit {
      var n := SpanCount(size);
      assert (largeIdx + 1) * SpanMaxSize >= n * SpanMaxSize;
    }
  }

  /** What `_memory_reallocate` does with a block. */
  datatype Realloc =
    | KeepInPlace
      /** A new block of allocSize bytes is allocated, `copied` bytes are
          copied into it, and the old block (if any) is freed. */
    | Moved(allocSize: nat, copied: nat, freesOld: bool)

  function Min(a: nat, b: nat): nat { if a < b then a else b }
  function Max(a: nat, b: nat): nat { if a < b then b else a }

  /** The hysteresis bound: the old size plus a quarter plus an eighth. */
  function LowerBound(oldsize: nat): nat
  {
    (oldsize + oldsize / 4 + oldsize / 8) % U64
  }

  /** `_memory_reallocate(p, size, oldsize, flags)`; `block` is the header
      of p's span, or None for a null p, and `noPreserve` is the
      RPMALLOC_NO_PRESERVE flag. A small or medium block is kept when its
      class still holds `size` bytes; a large or oversized one when it
      still has enough spans (pages) and needs at least half of them. A
      zero `oldsize` stands for the whole usable size of the old block. */
  function Reallocate(t: seq<SizeClass>, block: Option<SpanHeader>, size: nat, oldsize: nat, noPreserve: bool): (r: Realloc)
    requires |t| == SizeClassCount && size < U64 && oldsize < U64
    requires block.Some? ==> HeaderOk(block.value)
    ensures r.KeepInPlace? ==> block.Some?
    ensures r.KeepInPlace? && size + SpanHeaderSize < U64 ==> size <= UsableSize(t, block.value)
    ensures block.Some? && block.value.heapId != 0 && block.value.sizeClass < SizeClassCount ==>
      (r.KeepInPlace? <==> size <= UsableSize(t, block.value))
    ensures block.Some? && block.value.heapId != 0 && block.value.sizeClass >= SizeClassCount ==>
      var current := block.value.sizeClass - SizeClassCount + 1;
      (r.KeepInPlace? <==> current >= SpanCount(size) && SpanCount(size) >= current / 2)
    ensures block.Some? && block.value.heapId == 0 ==>
      var current := block.value.pageCount;
      (r.KeepInPlace? <==> current >= PageCount(size) && PageCount(size) >= current / 2)
  {
    match block
    case None => Moved(Max(size, LowerBound(oldsize)), 0, false)
    case Some(h) =>
      var keepOrOld: Option<nat> :=
        if h.heapId != 0 then
          if h.sizeClass < SizeClassCount then
            if t[h.sizeClass].size >= size then None
            else Some(if oldsize == 0 then t[h.sizeClass].size else oldsize)
          else
            var numSpans := SpanCount(size);
            var currentSpans := h.sizeClass - SizeClassCount + 1;
            if currentSpans >= numSpans && numSpans >= currentSpans / 2 then None
            else Some(if oldsize == 0 then currentSpans * SpanMaxSize - SpanHeaderSize else oldsize)
        else
          var numPages := PageCount(size);
          var currentPages := h.pageCount;
          if currentPages >= numPages && numPages >= currentPages / 2 then None
          else Some(if oldsize == 0 then ((currentPages * PageSize - SpanHeaderSize) % U64) as nat else oldsize);
      match keepOrOld
      case None => KeepInPlace
      case Some(prior) =>
        Moved(Max(size, LowerBound(prior)), if noPreserve then 0 else Min(prior, size), true)
  }

  /** The old size a move works from: the given one, or the block's
      usable size when none (zero) is given. */
  function PriorSize(t: seq<SizeClass>, block: Option<SpanHeader>, oldsize: nat): nat
    requires |t| == SizeClassCount
    requires block.Some? ==> HeaderOk(block.value)
  {
    if block.Some? && oldsize == 0 then UsableSize(t, block.value) else oldsize
  }

  /** A moved block gets exactly the larger of the new size and the
      hysteresis bound of the prior size, so at least the new size; the
      smaller of the prior and the new size is copied, nothing without a
      block or with no-preserve; and the old block is freed exactly when
      there was one. */
  lemma ReallocateMoves(t: seq<SizeClass>, block: Option<SpanHeader>, size: nat, oldsize: nat, noPreserve: bool)
    requires |t| == SizeClassCount && size < U64 && oldsize < U64
    requires block.Some? ==> HeaderOk(block.value)
    ensures var r := Reallocate(t, block, size, oldsize, noPreserve);
      r.Moved? ==> r.allocSize == Max(size, LowerBound(PriorSize(t, block, oldsize)))
    ensures var r := Reallocate(t, block, size, oldsize, noPreserve);
      r.Moved? ==> r.copied == (if block.None? || noPreserve then 0 else Min(PriorSize(t, block, oldsize), size))
    ensures var r := Reallocate(t, block, size, oldsize, noPreserve);
      r.Moved? ==> size <= r.allocSize && r.copied <= size && (r.freesOld <==> block.Some?)
    ensures var r := Reallocate(t, block, size, oldsize, noPreserve);
      r.Moved? && block.Some? && oldsize == 0 && !noPreserve ==>
      r.copied == Min(UsableSize(t, block.value), size)
    ensures var r := Reallocate(t, block, size, oldsize, noPreserve);
      r.Moved? && (block.None? || noPreserve) ==> r.copied == 0
  {
  }

  /** A request within 48 bytes of 2^64 wraps when the header is added:
      `_memory_allocate(2^64 - 1)` maps a single page, whose usable size
      is 464 bytes. */
  lemma WrappedRequestGetsOnePage(t: seq<SizeClass>, heapId: int, largeIdx: nat)
    requires TableOk(t, SizeClassCount) && |t| == SizeClassCount && heapId != 0
    ensures AllocatedHeader(t, U64 - 1, heapId, largeIdx) == SpanHeader(0, 0, 1)
    ensures UsableSize(t, AllocatedHeader(t, U64 - 1, heapId, largeIdx)) == 464
  {
    assert WithHeader(U64 - 1) == SpanHeaderSize - 1;
  }

  /** The same wrap in `_memory_reallocate`: a one-span large block asked
      to grow to 2^64 - 1 bytes needs "one span" and is kept in place,
      although it holds 8144 bytes. */
  lemma WrappedReallocKeeps(t: seq<SizeClass>, heapId: int, oldsize: nat, noPreserve: bool)
    requires |t| == SizeClassCount && heapId != 0 && oldsize < U64
    ensures Reallocate(t, Some(SpanHeader(heapId, SizeClassCount, 0)), U64 - 1, oldsize, noPreserve) == KeepInPlace
    ensures UsableSize(t, SpanHeader(heapId, SizeClassCount, 0)) == 8144
  {
    assert WithHeader(U64 - 1) == SpanHeaderSize - 1;
  }

  datatype Option<T> = None | Some(value: T)
}
