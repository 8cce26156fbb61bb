/** Small and medium size classes of the rpmalloc allocator: the constants
    derived from the 512-byte page and the 48-byte span header, the mapping
    from a requested size to a class index, and the global class table that
    `rpmalloc_initialize` fills and `_memory_adjust_size_class` merges. */
module RpmallocSizeClasses {

  const PageSize: nat := 512
  const SpanHeaderSize: nat := 48
  const SpanMaxSize: nat := 8192
  /** SPAN_MAX_PAGE_COUNT, also QUICK_ALLOCATION_PAGES_COUNT. */
  const SpanMaxPageCount: nat := SpanMaxSize / PageSize
  const SmallGranularity: nat := 16
  const SmallClassCount: nat := ((PageSize - SpanHeaderSize) / 2) / SmallGranularity
  const SmallSizeLimit: nat := SmallClassCount * SmallGranularity
  const MediumGranularity: nat := 32
  const MediumClassCount: nat := 60
  const MediumSizeLimit: nat := SmallSizeLimit + MediumGranularity * MediumClassCount - SpanHeaderSize
  const SizeClassCount: nat := SmallClassCount + MediumClassCount
  const LargeClassCount: nat := 4
  const LargeMaxPages: nat := SpanMaxPageCount * LargeClassCount
  const LargeSizeLimit: nat := LargeMaxPages * PageSize - SpanHeaderSize

  /** The derived constants, as the preprocessor computes them. */
  lemma ConstantValues()
    ensures SpanMaxPageCount == 16 && SmallClassCount == 14 && SmallSizeLimit == 224
    ensures MediumSizeLimit == 2096 && SizeClassCount == 74 && LargeSizeLimit == 32720
  {
  }

  /** One entry of `_memory_size_class`; every field is a uint16_t and every
      value stored here fits. */
  datatype SizeClass = SizeClass(size: nat, pageCount: nat, blockCount: nat, classIdx: nat)

  /** The raw class index of `_memory_allocate_from_heap`: a shift by the
      small granularity up to SMALL_SIZE_LIMIT, by the medium one above it.
      A zero size would wrap the unsigned `- 1`, so size >= 1 is required. */
  function ClassIndex(size: nat): (idx: nat)
    requires 1 <= size <= MediumSizeLimit
    ensures idx < SizeClassCount
    ensures size <= BaseSize(idx)
    ensures idx > 0 ==> BaseSize(idx - 1) < size
  {
    if size <= SmallSizeLimit then (size + (SmallGranularity - 1)) / SmallGranularity - 1
    else SmallClassCount + (size - SmallSizeLimit + (MediumGranularity - 1)) / MediumGranularity - 1
  }

  /** The block size `rpmalloc_initialize` writes into entry i before it is
      adjusted: 16 (i + 1) for small classes, 224 + 32 (j + 1) capped at
      MEDIUM_SIZE_LIMIT for medium class j. */
  function BaseSize(i: nat): nat
  {
    if i < SmallClassCount then (i + 1) * SmallGranularity
    else
      var size := SmallSizeLimit + (i - SmallClassCount + 1) * MediumGranularity;
      if size > MediumSizeLimit then MediumSizeLimit else size
  }

  lemma {:induction false} BaseSizeMonotone(i: nat, j: nat)
    requires i <= j
    ensures 0 < BaseSize(i) <= BaseSize(j)
  {
  }

  /** Block count of a class: as many blocks as fit into the 16 pages of a
      span after the span header. */
  function BlockCount(size: nat): nat
    requires size > 0
  {
    (SpanMaxPageCount * PageSize - SpanHeaderSize) / size
  }

  /** The state of the table once entries [0, n) have been set up:
      - each entry has 16 pages and as many blocks as fit in them;
      - each entry names a class at or after itself and before n, and the
        entries from itself to the named class are all identical (merging
        copies the whole entry, class index included);
      - each entry holds the initial size of the class it names. */
  ghost predicate TableOk(t: seq<SizeClass>, n: nat)
  {
    n <= |t| &&
    forall j :: 0 <= j < n ==>
      t[j].pageCount == SpanMaxPageCount &&
      j <= t[j].classIdx < n &&
      t[j].size == BaseSize(t[j].classIdx) &&
      t[j].blockCount == BlockCount(t[j].size) &&
      forall k :: j <= k <= t[j].classIdx ==> t[k] == t[j]
  }

  /** `_memory_adjust_size_class(iclass)`: stores 16 pages, the block count
      and the class's own index into entry iclass, then walks backwards
      copying the whole entry over every directly preceding entry with the
      same page and block counts, stopping at the first that differs.
      `prevclass` is where the walk stopped: entries [prevclass, iclass]
      all hold class iclass's entry, and the merged ones had its page and
      block counts before. */
  method AdjustSizeClass(table: array<SizeClass>, iclass: nat) returns (prevclass: nat)
    requires iclass < table.Length
    requires TableOk(table[..], iclass)
    requires table[iclass].size == BaseSize(iclass)
    modifies table
    ensures TableOk(table[..], iclass + 1)
    ensures prevclass <= iclass
    ensures forall k :: prevclass <= k <= iclass ==>
      table[k] == SizeClass(BaseSize(iclass), SpanMaxPageCount, BlockCount(BaseSize(iclass)), iclass)
    ensures forall k :: 0 <= k < prevclass ==> table[k] == old(table[k])
    ensures forall k :: iclass < k < table.Length ==> table[k] == old(table[k])
    ensures forall k :: prevclass <= k < iclass ==>
      old(table[k]).pageCount == SpanMaxPageCount &&
      old(table[k]).blockCount == BlockCount(BaseSize(iclass))
    ensures prevclass > 0 ==>
      !(old(table[prevclass - 1]).pageCount == SpanMaxPageCount &&
        old(table[prevclass - 1]).blockCount == BlockCount(BaseSize(iclass)))
  {
    BaseSizeMonotone(0, iclass);
    var blockSize := table[iclass].size;
    var pageCount := SpanMaxPageCount;
    var blockCount := (pageCount * PageSize - SpanHeaderSize) / blockSize;
    var entry := SizeClass(blockSize, pageCount, blockCount, iclass);
    assert entry == SizeClass(BaseSize(iclass), SpanMaxPageCount, BlockCount(BaseSize(iclass)), iclass);
    table[iclass] := entry;
    ghost var before := table[..];
    assert forall k :: 0 <= k < table.Length && k != iclass ==> before[k] == old(table[k]);

    prevclass := MergeRun(table, iclass);
    MergeKeepsTable(before, table[..], iclass, prevclass, entry);
  }

  /** The backward walk of `_memory_adjust_size_class`: entry iclass is
      copied over every directly preceding entry with the same page and
      block counts; the walk stops at the first that differs. */
  method MergeRun(table: array<SizeClass>, iclass: nat) returns (prevclass: nat)
    requires iclass < table.Length
    modifies table
    ensures prevclass <= iclass
    ensures forall k :: prevclass <= k <= iclass ==> table[k] == old(table[iclass])
    ensures forall k :: 0 <= k < prevclass ==> table[k] == old(table[k])
    ensures forall k :: iclass < k < table.Length ==> table[k] == old(table[k])
    ensures forall k :: prevclass <= k < iclass ==>
      old(table[k]).pageCount == old(table[iclass]).pageCount &&
      old(table[k]).blockCount == old(table[iclass]).blockCount
    ensures prevclass > 0 ==>
      !(old(table[prevclass - 1]).pageCount == old(table[iclass]).pageCount &&
        old(table[prevclass - 1]).blockCount == old(table[iclass]).blockCount)
  {
    ghost var before := table[..];
    var entry := table[iclass];
    prevclass := iclass;
    while prevclass > 0
      invariant 0 <= prevclass <= iclass
      invariant forall k :: prevclass <= k <= iclass ==> table[k] == entry
      invariant forall k :: 0 <= k < prevclass ==> table[k] == before[k]
      invariant forall k :: iclass < k < table.Length ==> table[k] == before[k]
      invariant forall k :: prevclass <= k < iclass ==>
        before[k].pageCount == entry.pageCount && before[k].blockCount == entry.blockCount
    {
      prevclass := prevclass - 1;
      if table[prevclass].pageCount == table[iclass].pageCount &&
         table[prevclass].blockCount == table[iclass].blockCount {
        table[prevclass] := table[iclass];
      } else {
        prevclass := prevclass + 1;
        return;
      }
    }
  }

  /** The table that results from the merge walk satisfies TableOk one entry
      further. An untouched entry j cannot name a class inside the
      overwritten run: the entry just before the run lies between j and its
      class, so it would equal the run's first entry and have been merged. */
  lemma MergeKeepsTable(before: seq<SizeClass>, after: seq<SizeClass>, iclass: nat, p: nat, entry: SizeClass)
    requires iclass < |before| == |after|
    requires TableOk(before, iclass)
    requires entry == before[iclass] &&
      entry == SizeClass(BaseSize(iclass), SpanMaxPageCount, BlockCount(BaseSize(iclass)), iclass)
    requires p <= iclass
    requires forall k :: p <= k <= iclass ==> after[k] == entry
    requires forall k :: 0 <= k < p ==> after[k] == before[k]
    requires forall k :: p <= k < iclass ==>
      before[k].pageCount == entry.pageCount && before[k].blockCount == entry.blockCount
    requires p > 0 ==>
      !(before[p - 1].pageCount == entry.pageCount && before[p - 1].blockCount == entry.blockCount)
    ensures TableOk(after, iclass + 1)
  {
    forall j | 0 <= j < iclass + 1
      ensures after[j].pageCount == SpanMaxPageCount
      ensures j <= after[j].classIdx < iclass + 1
      ensures after[j].size == BaseSize(after[j].classIdx)
      ensures after[j].blockCount == BlockCount(after[j].size)
      ensures forall k :: j <= k <= after[j].classIdx ==> after[k] == after[j]
    {
      if j < p < iclass {
        // the run's first entry matches, the entry before it does not
        assert before[p - 1] != before[p];
      }
    }
  }

  /** The table loop of `rpmalloc_initialize`: the small classes, then the
      medium classes with their size capped at MEDIUM_SIZE_LIMIT, each
      adjusted (and possibly merged) as soon as it is written. */
  method InitializeSizeClasses(table: array<SizeClass>)
    requires table.Length == SizeClassCount
    modifies table
    ensures TableOk(table[..], SizeClassCount)
  {
    var iclass := 0;
    while iclass < SmallClassCount
      invariant iclass <= SmallClassCount
      invariant TableOk(table[..], iclass)
    {
      var size := (iclass + 1) * SmallGranularity;
      table[iclass] := table[iclass].(size := size);
      var _ := AdjustSizeClass(table, iclass);
      iclass := iclass + 1;
    }
    iclass := 0;
    while iclass < MediumClassCount
      invariant iclass <= MediumClassCount
      invariant TableOk(table[..], SmallClassCount + iclass)
    {
      var size := SmallSizeLimit + (iclass + 1) * MediumGranularity;
      if size > MediumSizeLimit {
        size := MediumSizeLimit;
      }
      table[SmallClassCount + iclass] := table[SmallClassCount + iclass].(size := size);
      var _ := AdjustSizeClass(table, SmallClassCount + iclass);
      iclass := iclass + 1;
    }
  }

  /** The class a request of `size` bytes is served from: the raw index's
      entry, followed through its class_idx. */
  function ServingClass(t: seq<SizeClass>, size: nat): (c: nat)
    requires TableOk(t, SizeClassCount)
    requires 1 <= size <= MediumSizeLimit
    ensures ClassIndex(size) <= c < SizeClassCount
    ensures size <= t[c].size
  {
    var idx := ClassIndex(size);
    BaseSizeMonotone(idx, t[idx].classIdx);
    t[idx].classIdx
  }

  /** Every class of an initialized table has 16 pages and blocks that fit
      in them: size * block_count <= 16 * 512 - 48, and the class a merged
      entry names has the same page and block counts. */
  lemma TableClassesFit(t: seq<SizeClass>, i: nat)
    requires TableOk(t, SizeClassCount) && i < SizeClassCount
    ensures t[i].size * t[i].blockCount <= SpanMaxPageCount * PageSize - SpanHeaderSize
    ensures t[t[i].classIdx].pageCount == t[i].pageCount
    ensures t[t[i].classIdx].blockCount == t[i].blockCount
  {
    BaseSizeMonotone(0, t[i].classIdx);
    var s := t[i].size;
    var total := SpanMaxPageCount * PageSize - SpanHeaderSize;
    assert s * (total / s) <= total;
  }
}
