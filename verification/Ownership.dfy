/** Address arithmetic of free and realloc: which branch a pointer takes, and why it is the right one. */
module Ownership {
  import opened Arith
  import opened SizeClasses
  import opened Bitmap
  import opened RunSpec
  import opened Reserve
  import opened HeapSpec

  /** run_of: round down to a multiple of the run size. */
  function RunOf(a: nat): nat { AlignDown(a, RUN_SIZE) }

  /** ours_small. The header is looked up among the live ones: user data never looks like a header. */
  ghost predicate OursSmall(h: Heap, a: nat) {
    var base := RunOf(a);
    && base in h.runs && ValidElem(h.runs[base].elem)
    && (var r := h.runs[base];
        var d := base + DataOffset(Elems(r.elem));
        a >= d && a - d < Elems(r.elem) * r.elem && (a - d) % r.elem == 0)
  }

  /** ours_large: the header sits just before the pointer. */
  ghost predicate OursLarge(h: Heap, a: nat) {
    a >= LARGE_HEADER && a - LARGE_HEADER in h.large
  }

  /** Where free and realloc send a pointer inside the reserve. */
  datatype Route = ToRun(base: nat) | ToLarge(base: nat) | Unrecognised

  ghost function RouteOf(h: Heap, a: nat): Route {
    if OursSmall(h, a) then ToRun(RunOf(a))
    else if OursLarge(h, a) then ToLarge(a - LARGE_HEADER)
    else Unrecognised
  }

  /** The block starts within the first RUN_SIZE bytes of its run. */
  predicate Reachable(elem: nat, idx: nat)
    requires ValidElem(elem)
  {
    BlockOffset(elem, idx) < RUN_SIZE
  }

  lemma BlockOffsetBound(elem: nat, idx: nat)
    requires ValidElem(elem) && idx < Elems(elem)
    ensures PAGE <= BlockOffset(elem, idx) < 2 * RUN_SIZE && BlockOffset(elem, idx) + elem <= MapBytes(elem)
  {
    BlockInRun(elem, idx);
    MapBytesBounds(elem);
  }

  /** run_of finds the run of a block exactly when the block starts before the 2 MiB mark. */
  lemma RunOfIff(base: nat, elem: nat, idx: nat)
    requires ValidElem(elem) && idx < Elems(elem) && base % RUN_SIZE == 0
    ensures RunOf(base + BlockOffset(elem, idx)) == base <==> Reachable(elem, idx)
    ensures !Reachable(elem, idx) ==> RunOf(base + BlockOffset(elem, idx)) == base + RUN_SIZE
  {
    BlockOffsetBound(elem, idx);
    hide BlockOffset, Elems, MapBytes;
    var off := BlockOffset(elem, idx);
    if off < RUN_SIZE {
      AlignDownUnique(base + off, base, RUN_SIZE);
    } else {
      ModUnique(base + RUN_SIZE, RUN_SIZE, base / RUN_SIZE + 1, 0);
      AlignDownUnique(base + off, base + RUN_SIZE, RUN_SIZE);
    }
  }

  /** No other mapped region starts strictly inside a mapped region. */
  lemma NoBaseInside(h: Heap, a: nat, x: nat)
    requires Consistent(h) && a in h.space && a < x < a + h.space[a]
    ensures x !in h.space && x !in h.runs && x !in h.large
  {
    hide RunOk, LargeOk, ListOk, LiveOk;
  }

  /** The bytes of an issued pointer lie in its region, past the header. */
  lemma IssuedInside(h: Heap, p: Ptr)
    requires Consistent(h) && Issued(h, p)
    ensures
      var base := if p.Small? then p.b.base else p.base;
      && base in h.space
      && base + LARGE_HEADER <= Addr(h, p)
      && Addr(h, p) + Capacity(h, p) <= base + h.space[base]
  {
    hide SumUsed, SumBytes, ValidRun, ListOk, LiveOk;
    match p
    case Small(b) =>
      assert RunOk(h, b.base);
      BlockOffsetBound(h.runs[b.base].elem, b.idx);
    case Large(base) =>
      assert LargeOk(h, base);
      LargeRoom(h, base);
  }

  lemma LargeRoom(h: Heap, base: nat)
    requires Consistent(h) && base in h.large
    ensures h.large[base].mapSize >= LARGE_HEADER
    ensures base in h.space && h.space[base] == h.large[base].mapSize
  {
    assert LargeOk(h, base);
  }

  /** Two issued pointers never share a byte. */
  lemma IssuedApart(h: Heap, p: Ptr, q: Ptr)
    requires Consistent(h) && Issued(h, p) && Issued(h, q) && p != q
    ensures Disjoint(Bytes(h, p), Bytes(h, q))
  {
    IssuedInside(h, p);
    IssuedInside(h, q);
    hide Consistent, Capacity, BlockOffset;
    if p.Small? && q.Small? && p.b.base == q.b.base {
      SameRunApart(h, p.b, q.b);
    } else {
      OtherRegions(h, p, q);
    }
  }

  lemma SameRunApart(h: Heap, a: Block, b: Block)
    requires Issued(h, Small(a)) && Issued(h, Small(b)) && a != b && a.base == b.base
    ensures Disjoint(Bytes(h, Small(a)), Bytes(h, Small(b)))
  {
    var elem := h.runs[a.base].elem;
    if a.idx < b.idx { BlocksApart(elem, a.idx, b.idx); } else { BlocksApart(elem, b.idx, a.idx); }
    hide BlockOffset;
  }

  function BaseOf(p: Ptr): nat { if p.Small? then p.b.base else p.base }

  lemma OtherRegions(h: Heap, p: Ptr, q: Ptr)
    requires Consistent(h) && Issued(h, p) && Issued(h, q) && p != q
    requires p.Small? && q.Small? ==> p.b.base != q.b.base
    ensures Disjoint(Bytes(h, p), Bytes(h, q))
  {
    hide RunOk, LargeOk, ListOk, LiveOk, Addr, Capacity, RegionOk, Issued, Shape;
    IssuedInside(h, p);
    IssuedInside(h, q);
    LargeNotRun(h, p, q);
  }

  lemma LargeNotRun(h: Heap, p: Ptr, q: Ptr)
    requires Consistent(h) && Issued(h, p) && Issued(h, q) && p != q
    requires p.Small? && q.Small? ==> p.b.base != q.b.base
    ensures BaseOf(p) != BaseOf(q)
  {
    hide RunOk, ListOk, LiveOk, SpaceOk;
    if p.Large? { assert LargeOk(h, p.base); }
    if q.Large? { assert LargeOk(h, q.base); }
  }

  // ---------------------------------------------------------------- the routes

  /** A live small block goes to its own run when it is reachable, and is dropped otherwise. */
  lemma SmallRoute(h: Heap, b: Block)
    requires Consistent(h) && Issued(h, Small(b))
    ensures
      RouteOf(h, Addr(h, Small(b))) ==
      if Reachable(h.runs[b.base].elem, b.idx) then ToRun(b.base) else Unrecognised
  {
    hide Consistent, MapBytes, RunOf, Elems, BlockOffset, DataOffset;
    var elem := h.runs[b.base].elem;
    SmallFacts(h, b);
    NotLargeAt(h, b);
    if Reachable(elem, b.idx) {
      ReachableTest(h, b.base, b.idx);
    } else {
      NoBaseInside(h, b.base, b.base + RUN_SIZE);
    }
  }

  /** What ours_small computes for a block that run_of resolves. */
  lemma ReachableTest(h: Heap, base: nat, idx: nat)
    requires base in h.runs && ValidElem(h.runs[base].elem) && idx < Elems(h.runs[base].elem)
    requires RunOf(base + BlockOffset(h.runs[base].elem, idx)) == base
    ensures OursSmall(h, base + BlockOffset(h.runs[base].elem, idx))
  {
    hide RunOf, Elems;
    SmallTest(h.runs[base].elem, idx);
  }

  lemma RunPlaced(h: Heap, base: nat)
    requires Consistent(h) && base in h.runs
    ensures base in h.space && base % RUN_SIZE == 0 && ValidElem(h.runs[base].elem)
    ensures h.space[base] == MapBytes(h.runs[base].elem)
  {
    assert RunOk(h, base);
  }

  lemma SmallFacts(h: Heap, b: Block)
    requires Consistent(h) && Issued(h, Small(b))
    ensures b.base in h.space && b.base % RUN_SIZE == 0
    ensures
      var elem, a := h.runs[b.base].elem, Addr(h, Small(b));
      && a == b.base + BlockOffset(elem, b.idx)
      && b.base < a < b.base + h.space[b.base]
      && (RunOf(a) == b.base <==> Reachable(elem, b.idx))
      && (!Reachable(elem, b.idx) ==> RunOf(a) == b.base + RUN_SIZE <= a)
  {
    RunPlaced(h, b.base);
    hide Consistent, RunOf, Elems, MapBytes;
    BlockOffsetBound(h.runs[b.base].elem, b.idx);
    RunOfIff(b.base, h.runs[b.base].elem, b.idx);
  }

  /** The arithmetic of ours_small and run_give on a pointer to block `idx`. */
  lemma SmallTest(elem: nat, idx: nat)
    requires ValidElem(elem) && idx < Elems(elem)
    ensures
      var off := BlockOffset(elem, idx) - DataOffset(Elems(elem));
      off == idx * elem && off < Elems(elem) * elem && off % elem == 0 && off / elem == idx
  {
    MulMono(idx + 1, Elems(elem), elem);
    ModUnique(idx * elem, elem, idx, 0);
  }

  lemma NotLargeAt(h: Heap, b: Block)
    requires Consistent(h) && Issued(h, Small(b))
    ensures !OursLarge(h, Addr(h, Small(b)))
  {
    IssuedInside(h, Small(b));
    BlockOffsetBound(h.runs[b.base].elem, b.idx);
    NoBaseInside(h, b.base, Addr(h, Small(b)) - LARGE_HEADER);
  }

  /** A live large region never passes for a small block, and is found by its own header. */
  lemma LargeRoute(h: Heap, base: nat)
    requires Consistent(h) && base in h.large
    ensures RouteOf(h, Addr(h, Large(base))) == ToLarge(base)
  {
    var a := Addr(h, Large(base));
    var run := RunOf(a);
    assert LargeOk(h, base);
    AlignDownFacts(a, RUN_SIZE);
    if OursSmall(h, a) {
      assert RunOk(h, run);
      MapBytesBounds(h.runs[run].elem);
      InBoth(h, run, base, a);
    }
  }

  lemma InBoth(h: Heap, a: nat, b: nat, x: nat)
    requires Consistent(h) && a in h.space && b in h.space
    requires a <= x < a + h.space[a] && b <= x < b + h.space[b]
    ensures a == b
  {
    hide RunOk, LargeOk, ListOk, LiveOk, RegionOk;
  }

  /** The header ours_small reads for a live small block lies in that block's own mapping. */
  lemma ProbeMapped(h: Heap, b: Block)
    requires Consistent(h) && Issued(h, Small(b))
    ensures b.base in h.space
    ensures b.base <= RunOf(Addr(h, Small(b))) < b.base + h.space[b.base]
  {
    hide Consistent, RunOf;
    SmallFacts(h, b);
  }

  /** Address `a` lies in some mapping. */
  ghost predicate Covered(h: Heap, a: nat) { exists b :: b in h.space && b <= a < b + h.space[b] }

  /** For a large region this is not so. The header probed for it is sure to lie in mapped memory, whatever else
      the heap holds, exactly when the region starts on a 2 MiB boundary. */
  lemma LargeProbeCoveredIff(h: Heap, base: nat)
    requires Consistent(h) && base in h.large
    ensures
      (forall g :: Consistent(g) && base in g.large && g.large[base] == h.large[base] ==>
         Covered(g, RunOf(Addr(g, Large(base))))) <==> base % RUN_SIZE == 0
  {
    if base % RUN_SIZE == 0 {
      forall g | Consistent(g) && base in g.large && g.large[base] == h.large[base]
        ensures Covered(g, RunOf(Addr(g, Large(base))))
      {
        LargeProbeOwnIff(g, base);
      }
    } else {
      var g := LoneRegion(h, base);
      LargeProbeOwnIff(g, base);
      assert !Covered(g, RunOf(Addr(g, Large(base))));
    }
  }

  /** The heap that holds one large region of h and nothing else. */
  lemma LoneRegion(h: Heap, base: nat) returns (g: Heap)
    requires Consistent(h) && base in h.large
    ensures Consistent(g) && base in g.large && g.large[base] == h.large[base] && g.space.Keys == {base}
  {
    assert LargeOk(h, base) && RegionOk(h, base);
    var hdr := h.large[base];
    assert base + hdr.mapSize <= USER_TOP;
    hide Consistent, LargeOk, RegionOk;
    var size := hdr.mapSize;
    g := EmptyHeap(base, size).(bump := base + size + 1, space := map[base := size], mapped := size,
                                large := map[base := hdr]);
    SumBytesAdd(map[], base, size);
    assert map[][base := size] == g.space;
    LoneConsistent(g, base, hdr);
  }

  lemma LoneConsistent(g: Heap, base: nat, hdr: LargeHdr)
    requires base % PAGE == 0 && LARGE_HEADER <= hdr.mapSize && base + hdr.mapSize <= USER_TOP
    requires g == EmptyHeap(base, hdr.mapSize).(bump := base + hdr.mapSize + 1, space := map[base := hdr.mapSize],
                                               mapped := hdr.mapSize, large := map[base := hdr])
    requires SumBytes(g.space) == hdr.mapSize
    ensures Consistent(g)
  {
    hide SumBytes;
  }

  /** The header read for a large pointer lies in that region's own mapping exactly when the region starts on
      a 2 MiB boundary. */
  lemma LargeProbeOwnIff(h: Heap, base: nat)
    requires Consistent(h) && base in h.large
    ensures base in h.space
    ensures base <= RunOf(Addr(h, Large(base))) < base + h.space[base] <==> base % RUN_SIZE == 0
  {
    assert LargeOk(h, base);
    hide Consistent, LargeOk;
    var a := base + LARGE_HEADER;
    AlignDownFacts(a, RUN_SIZE);
    if base % RUN_SIZE == 0 {
      AlignDownUnique(a, base, RUN_SIZE);
    } else {
      PageAligned(base, RunOf(a));
    }
  }

  /** Once a large region is unmapped, the header it began with is in no mapping. */
  lemma HeaderGone(h: Heap, base: nat, a: nat)
    requires Consistent(h) && base in h.large && base <= a < base + LARGE_HEADER
    ensures Covered(h, a) && !Covered(UnmapLarge(h, base), a)
  {
    assert LargeOk(h, base);
    hide RunOk, LargeOk, ListOk, LiveOk, RegionOk;
    assert base in h.space && base <= a < base + h.space[base];
  }

  /** Two multiples of the page size less than a page apart are equal. */
  lemma PageAligned(base: nat, x: nat)
    requires base % PAGE == 0 && x % RUN_SIZE == 0 && x <= base + LARGE_HEADER && base % RUN_SIZE != 0
    ensures x < base
  {
    ModUnique(x, PAGE, x / RUN_SIZE * 512, 0);
  }

  // ---------------------------------------------------------------- blocks that free loses

  /** How many blocks of a run start past its first 2 MiB: none while the number of blocks is capped, and
      otherwise as many as fit in the header area less the remainder of the run size. */
  function LostBlocks(elem: nat): nat
    requires ValidElem(elem)
  {
    var d, m := DataOffset(Elems(elem)), RUN_SIZE % elem;
    if elem < 32 || d < m then 0 else Quotient(d - m, elem)
  }

  /** Exactly that many, the last ones, are lost to free. */
  lemma LostIff(elem: nat, idx: nat)
    requires ValidElem(elem) && idx < Elems(elem)
    ensures !Reachable(elem, idx) <==> idx + LostBlocks(elem) >= Elems(elem)
  {
    DataBytesBound(elem);
    DataOffsetBounds(Elems(elem));
    if elem < 32 {
      MulMono(idx, MAX_ELEMS, elem);
    } else {
      UncappedElems(elem);
      LostByOffset(elem, Elems(elem), DataOffset(Elems(elem)), RUN_SIZE % elem, idx);
    }
  }

  lemma UncappedElems(elem: nat)
    requires ValidElem(elem) && elem >= 32
    ensures Elems(elem) * elem + RUN_SIZE % elem == RUN_SIZE
  {
    MulMono(32, elem, MAX_ELEMS + 1);
    DivBelow(RUN_SIZE, elem, MAX_ELEMS);
  }

  lemma DivBelow(a: nat, m: nat, q: nat)
    requires m > 0 && a < (q + 1) * m
    ensures a / m <= q
  {
    DivFacts(a, m);
    if a / m > q {
      MulMono(q + 1, a / m, m);
    }
  }

  lemma LostByOffset(elem: nat, n: nat, d: nat, m: nat, idx: nat)
    requires elem > 0 && idx < n
    ensures d + idx * elem >= n * elem + m <==> d >= m && n - idx <= Quotient(d - m, elem)
  {
    assert n * elem == idx * elem + (n - idx) * elem;
    if d >= m {
      DivFacts(d - m, elem);
      var q := Quotient(d - m, elem);
      if n - idx <= q { MulMono(n - idx, q, elem); } else { MulMono(q + 1, n - idx, elem); }
    }
  }

  /** A run of this block size has a block that free loses exactly when the header area has room for a whole
      block beyond what the run size leaves over. */
  lemma SomeBlockLostIff(elem: nat)
    requires ValidElem(elem)
    ensures
      (exists idx :: 0 <= idx < Elems(elem) && !Reachable(elem, idx)) <==>
      elem >= 32 && DataOffset(Elems(elem)) >= elem + RUN_SIZE % elem
  {
    DataBytesBound(elem);
    DataOffsetBounds(Elems(elem));
    var last := Elems(elem) - 1;
    hide Elems, DataOffset, Reachable, LostBlocks;
    forall idx: nat | idx < Elems(elem) ensures !Reachable(elem, idx) ==> !Reachable(elem, last) {
      LostIff(elem, idx);
      LostIff(elem, last);
    }
    LostIff(elem, last);
    AnyLost(elem);
  }

  lemma AnyLost(elem: nat)
    requires ValidElem(elem)
    ensures LostBlocks(elem) >= 1 <==> elem >= 32 && DataOffset(Elems(elem)) >= elem + RUN_SIZE % elem
  {
    hide Elems, DataOffset;
    var d, m := DataOffset(Elems(elem)), RUN_SIZE % elem;
    if d >= m {
      DivFacts(d - m, elem);
    }
  }

  ghost function Lost(elem: nat): set<nat>
    requires ValidElem(elem)
  {
    set idx: nat {:trigger Is(idx)} | idx < Elems(elem) && Is(idx) && !Reachable(elem, idx)
  }

  lemma LostCount(elem: nat)
    requires ValidElem(elem)
    ensures LostBlocks(elem) < Elems(elem) && |Lost(elem)| == LostBlocks(elem)
  {
    DataBytesBound(elem);
    DataOffsetBounds(Elems(elem));
    LostIff(elem, 0);
    hide Elems, Reachable, LostBlocks;
    var found := Elems(elem) - LostBlocks(elem);
    forall idx: nat ensures idx in Lost(elem) <==> idx in Below(Elems(elem)) - Below(found) {
      assert Is(idx);
      if idx < Elems(elem) { LostIff(elem, idx); }
    }
    assert Lost(elem) == Below(Elems(elem)) - Below(found);
    assert Below(Elems(elem)) * Below(found) == Below(found);
    BelowSize(Elems(elem));
    BelowSize(found);
  }

  /** Class 32 loses 384 blocks of every run, class 64 loses 128, and class 4096 its last. */
  lemma LostInClasses()
    ensures LostBlocks(32) == 384 && LostBlocks(64) == 128 && LostBlocks(4096) == 1
  {
    LostFrom(32, 65536, 12288);
    LostFrom(64, 32768, 8192);
    LostFrom(4096, 512, 4096);
  }

  lemma LostFrom(elem: nat, n: nat, d: nat)
    requires 32 <= elem <= RUN_SIZE && elem * n == RUN_SIZE && n <= MAX_ELEMS
    requires d % PAGE == 0 && RUN_HEADER + Words(n) * 8 <= d < RUN_HEADER + Words(n) * 8 + PAGE
    ensures LostBlocks(elem) == Quotient(d, elem)
  {
    ModUnique(RUN_SIZE, elem, n, 0);
    AlignDownUnique(RUN_HEADER + Words(n) * 8 + PAGE - 1, d, PAGE);
  }
}
