/** The allocator's shared state as a value: the kernel's mappings, the runs, the class lists, the
    large regions, the counters and the bytes. The operations are the contracts of ClassList. */
module HeapSpec {
  import opened Arith
  import opened Seqs
  import opened SizeClasses
  import opened RunSpec
  import opened Options
  import opened Reserve

  datatype Block = Block(base: nat, idx: nat)

  /** What a client holds: a block of a run, or a large region. */
  datatype Ptr = Small(b: Block) | Large(base: nat)

  datatype LargeHdr = LargeHdr(mapSize: nat, user: nat)

  datatype Heap = Heap(
    start: nat, end: nat, bump: nat,
    space: map<nat, nat>,        // regions now mapped read-write: base to size
    runs: map<nat, RunState>,    // run headers, by base
    lists: seq<seq<nat>>,        // per class, the bases of its runs, head first
    live: seq<nat>,              // per class, live_blocks
    large: map<nat, LargeHdr>,   // large headers, by base
    mapped: nat, freed: nat,     // g_mapped and g_freed_to_os
    mem: nat -> bv8)

  // ---------------------------------------------------------------- addresses

  ghost predicate IsBlock(h: Heap, b: Block) {
    && b.base in h.runs && ValidElem(h.runs[b.base].elem)
    && b.idx < Elems(h.runs[b.base].elem)
  }

  /** In somebody's hands: a block of a mapped run whose bitmap bit is clear, or a live region. */
  ghost predicate Issued(h: Heap, p: Ptr) {
    match p
    case Small(b) => IsBlock(h, b) && b.idx !in h.runs[b.base].free
    case Large(base) => base in h.large
  }

  ghost function Addr(h: Heap, p: Ptr): nat
    requires Issued(h, p)
  {
    match p
    case Small(b) => b.base + BlockOffset(h.runs[b.base].elem, b.idx)
    case Large(base) => base + LARGE_HEADER
  }

  /** The bytes a holder may use. */
  ghost function Capacity(h: Heap, p: Ptr): nat
    requires Issued(h, p)
  {
    match p
    case Small(b) => h.runs[b.base].elem
    case Large(base) => if h.large[base].mapSize < LARGE_HEADER then 0 else h.large[base].mapSize - LARGE_HEADER
  }

  ghost function Bytes(h: Heap, p: Ptr): Region
    requires Issued(h, p)
  {
    Region(Addr(h, p), Capacity(h, p))
  }

  // ---------------------------------------------------------------- consistency

  ghost function States(list: seq<nat>, runs: map<nat, RunState>): seq<RunState>
    requires forall b :: b in list ==> b in runs
  {
    seq(|list|, i requires 0 <= i < |list| => runs[list[i]])
  }

  /** Bytes in all mapped regions. */
  ghost function SumBytes(m: map<nat, nat>): nat
    decreases |m|
  {
    if m == map[] then 0
    else
      var k := Least(m.Keys);
      DropSmaller(m, k);
      m[k] + SumBytes(m - {k})
  }

  lemma DropSmaller(m: map<nat, nat>, k: nat)
    requires k in m
    ensures |m - {k}| == |m| - 1
  {
    assert (m - {k}).Keys == m.Keys - {k};
    assert |(m - {k}).Keys| == |m.Keys| - 1;
  }

  lemma {:induction false} SumBytesDrop(m: map<nat, nat>, k: nat)
    requires k in m
    ensures SumBytes(m) == m[k] + SumBytes(m - {k})
    decreases |m|
  {
    var q := Least(m.Keys);
    if k != q {
      DropSmaller(m, k);
      DropSmaller(m, q);
      SumBytesDrop(m - {q}, k);
      SumBytesDrop(m - {k}, q);
      assert m - {q} - {k} == m - {k} - {q};
    }
  }

  lemma SumBytesAdd(m: map<nat, nat>, k: nat, v: nat)
    requires k !in m
    ensures SumBytes(m[k := v]) == SumBytes(m) + v
  {
    SumBytesDrop(m[k := v], k);
    assert m[k := v] - {k} == m;
  }

  ghost predicate Shape(h: Heap) {
    |h.lists| == NUM_CLASSES && |h.live| == NUM_CLASSES
  }

  ghost predicate RunOk(h: Heap, b: nat)
    requires Shape(h) && b in h.runs
  {
    var r := h.runs[b];
    && ValidRun(r) && ValidClass(r.cls) && r.elem == Size(r.cls)
    && b % RUN_SIZE == 0 && b in h.lists[r.cls - 1]
    && b in h.space && h.space[b] == MapBytes(r.elem)
  }

  ghost predicate ListOk(h: Heap, c: nat)
    requires Shape(h) && c < NUM_CLASSES
  {
    && Distinct(h.lists[c])
    && (forall b :: b in h.lists[c] ==> b in h.runs && h.runs[b].cls == c + 1)
  }

  ghost predicate LargeOk(h: Heap, b: nat)
    requires b in h.large
  {
    && b !in h.runs && b % PAGE == 0
    && b in h.space && h.space[b] == h.large[b].mapSize
    && LARGE_HEADER <= h.large[b].mapSize
  }

  /** The region holds its header and the request. */
  predicate HasRoom(hdr: LargeHdr) { LARGE_HEADER + hdr.user <= hdr.mapSize }

  /** Every large region does. */
  ghost predicate Roomy(h: Heap) { forall b :: b in h.large ==> HasRoom(h.large[b]) }

  /** A mapped region lies in the reserve, below the bump pointer. */
  ghost predicate RegionOk(h: Heap, b: nat)
    requires b in h.space
  {
    0 < h.space[b] && h.start <= b && b + h.space[b] <= h.end && b + h.space[b] < h.bump
  }

  ghost predicate RegionsApart(h: Heap) {
    forall a, b :: a in h.space && b in h.space && a < b ==> a + h.space[a] <= b
  }

  ghost predicate LiveOk(h: Heap, c: nat)
    requires Shape(h) && c < NUM_CLASSES && ListOk(h, c)
  {
    h.live[c] == SumUsed(States(h.lists[c], h.runs))
  }

  ghost predicate Consistent(h: Heap) {
    && Shape(h)
    && (forall b :: b in h.runs ==> RunOk(h, b))
    && (forall b :: b in h.large ==> LargeOk(h, b))
    && (forall c :: 0 <= c < NUM_CLASSES ==> ListOk(h, c) && LiveOk(h, c))
    && h.space.Keys == h.runs.Keys + h.large.Keys
    && SpaceOk(h)
  }

  /** The kernel's side: regions in the reserve, apart, and accounted for by the two counters. */
  ghost predicate SpaceOk(h: Heap) {
    && h.start <= h.bump < WORD64 && h.end <= USER_TOP
    && (forall b :: b in h.space ==> RegionOk(h, b))
    && RegionsApart(h)
    && h.mapped == h.freed + SumBytes(h.space)
  }

  /** Before the first allocation: an empty reserve. */
  ghost function EmptyHeap(start: nat, size: nat): Heap {
    Heap(start, start + size, start, map[], map[], seq(NUM_CLASSES, _ => []), seq(NUM_CLASSES, _ => 0),
         map[], 0, 0, (x: nat) => 0)
  }

  // ---------------------------------------------------------------- memory

  ghost function Zeroed(mem: nat -> bv8, r: Region): nat -> bv8 {
    (x: nat) => if r.Contains(x) then 0 else mem(x)
  }

  /** madvise on the pages that purge_run gives back in the run at `base`. */
  ghost function Purged(mem: nat -> bv8, base: nat, r: RunState): nat -> bv8
    requires ValidElem(r.elem)
  {
    var d := base + DataOffset(Elems(r.elem));
    (x: nat) => if x >= d && Discards(r.elem, r.free, (x - d) / PAGE) then 0 else mem(x)
  }

  // ---------------------------------------------------------------- operations

  /** reserve_map of `size` bytes, answering with the base when it fits and mmap agrees. */
  ghost function MapRegion(h: Heap, size: nat, align: nat, mapped: bool): (Heap, Option<nat>)
    requires align > 0
  {
    var base := Place(h.bump, align);
    var moved := h.(bump := NextBump(h.bump, size, align));
    if Placed(h.bump, h.end, size, align, mapped) then
      (moved.(space := h.space[base := size], mapped := h.mapped + size, mem := Zeroed(h.mem, Region(base, size))),
       Some(base))
    else (moved, None)
  }

  /** munmap of the region at `base`, charged to g_freed_to_os as `size` bytes. */
  ghost function UnmapRegion(h: Heap, base: nat, size: nat): Heap {
    h.(space := h.space - {base}, freed := h.freed + size)
  }

  ghost predicate HasClass(h: Heap, c: nat) { Consistent(h) && c < NUM_CLASSES }

  lemma ClassFacts(h: Heap, c: nat)
    requires HasClass(h, c)
    ensures Shape(h) && ListOk(h, c) && LiveOk(h, c)
    ensures AllValid(States(h.lists[c], h.runs))
  {
    hide SumUsed, ValidRun, Size, MapBytes, SumBytes;
    assert ListOk(h, c);
    forall i | 0 <= i < |h.lists[c]|
      ensures h.lists[c][i] in h.runs && ValidRun(h.runs[h.lists[c][i]])
    {
      assert h.lists[c][i] in h.lists[c];
      assert RunOk(h, h.lists[c][i]);
    }
  }

  /** The runs of class c, head first. */
  ghost function ClassStates(h: Heap, c: nat): (ss: seq<RunState>)
    requires HasClass(h, c)
    ensures |ss| == |h.lists[c]| && AllValid(ss)
    ensures forall i :: 0 <= i < |ss| ==> h.lists[c][i] in h.runs && ss[i] == h.runs[h.lists[c][i]]
  {
    ClassFacts(h, c);
    States(h.lists[c], h.runs)
  }

  /** A run of the heap takes a new state of the same class, and live_blocks follows. */
  ghost function SetRun(h: Heap, base: nat, r: RunState): Heap
    requires Consistent(h) && base in h.runs
  {
    var c := h.runs[base].cls - 1;
    var left := h.live[c] - h.runs[base].used + r.used;
    h.(runs := h.runs[base := r], live := h.live[c := if left < 0 then 0 else left])
  }

  /** malloc's critical section on class c (0-based). */
  ghost function TakeBlock(h: Heap, c: nat, now: nat, mapped: bool): (Heap, Option<Block>)
    requires HasClass(h, c)
  {
    var ss := ClassStates(h, c);
    var i := FirstWithRoom(ss);
    if i < |ss| then
      var base := h.lists[c][i];
      FullIffNoneFree(ss[i]);
      (SetRun(h, base, Taken(ss[i], now)), Some(Block(base, AllocatedIndex(ss))))
    else
      SizeBounds(c + 1);
      var (g, base) := MapRegion(h, MapBytes(Size(c + 1)), RUN_SIZE, mapped);
      if base.None? then (g, None) else (AddRun(g, c, base.value, now), Some(Block(base.value, 0)))
  }

  /** malloc's critical section does not make the bump pointer wrap. */
  ghost predicate TakeFits(h: Heap, c: nat)
    requires HasClass(h, c)
  {
    FirstWithRoom(ClassStates(h, c)) < |ClassStates(h, c)| || RunBumpFits(h.bump, c)
  }

  /** Mapping a run of class c does not. */
  predicate RunBumpFits(bump: nat, c: nat)
    requires c < NUM_CLASSES
  {
    SizeBounds(c + 1);
    BumpFits(bump, MapBytes(Size(c + 1)), RUN_SIZE)
  }

  /** run_new with the first block taken, once its region is mapped. */
  ghost function AddRun(g: Heap, c: nat, base: nat, now: nat): Heap
    requires c < NUM_CLASSES && Shape(g)
  {
    SizeBounds(c + 1);
    g.(runs := g.runs[base := FreshTaken(c + 1, Size(c + 1), now)],
       lists := g.lists[c := [base] + g.lists[c]], live := g.live[c := g.live[c] + 1])
  }

  /** run_give of an issued block. */
  ghost function GiveBlock(h: Heap, b: Block, touch: nat, stamp: nat): Heap
    requires Consistent(h) && Issued(h, Small(b))
  {
    SetRun(h, b.base, Given(h.runs[b.base], b.idx, touch, stamp))
  }

  /** purge_run on the run at `base`. */
  ghost function PurgeRun(h: Heap, base: nat, t: nat, runIdle: nat, dirtyIdle: nat): Heap
    requires Consistent(h) && base in h.runs
  {
    var r := h.runs[base];
    if IdleFree(r, t, runIdle) then DropRun(h, base)
    else
      SetRun(h, base, Kept(r, t, dirtyIdle)).(
        mem := if IdleDirty(r, t, dirtyIdle) then Purged(h.mem, base, r) else h.mem)
  }

  /** run_remove and munmap, with the size recomputed from the header. */
  ghost function DropRun(h: Heap, base: nat): Heap
    requires Consistent(h) && base in h.runs
  {
    var r := h.runs[base];
    UnmapRegion(h, base, MapBytes(r.elem)).(
      runs := h.runs - {base}, lists := h.lists[r.cls - 1 := Remove(h.lists[r.cls - 1], base)])
  }

  /** The mapping size malloc computes for a large request, with 64-bit wrap-around. */
  function LargeMapBytes(n: nat): nat {
    AlignDown(((LARGE_HEADER + n) % WORD64 + (PAGE - 1)) % WORD64, PAGE)
  }

  /** The size computation does not wrap. */
  predicate LargeFits(n: nat) { LARGE_HEADER + n + (PAGE - 1) < WORD64 }

  /** Header and request together fit in 2^64 bytes: true of all sizes but the 23 largest. */
  predicate HeaderFits(n: nat) { LARGE_HEADER + n <= WORD64 }

  /** The size computed for a large request is enough exactly when nothing wraps. When only the rounding wraps
      it is zero, which mmap refuses; when the header already wraps it is a single page. */
  lemma LargeMapHolds(n: nat)
    requires LARGE_MIN <= n < WORD64
    ensures LargeMapBytes(n) >= LARGE_HEADER + n <==> LargeFits(n)
    ensures LargeFits(n) ==> LargeMapBytes(n) < LARGE_HEADER + n + PAGE
    ensures !LargeFits(n) ==> LargeMapBytes(n) == if HeaderFits(n) then 0 else PAGE
    ensures LargeMapBytes(n) % PAGE == 0 && LargeMapBytes(n) + PAGE <= WORD64
  {
    LargeRounded(n);
    if LargeFits(n) {
      LargeUnwrapped(n);
    } else {
      LargeWrapped(n);
    }
  }

  lemma LargeRounded(n: nat)
    ensures LargeMapBytes(n) % PAGE == 0 && LargeMapBytes(n) + PAGE <= WORD64
  {
    var up := ((LARGE_HEADER + n) % WORD64 + (PAGE - 1)) % WORD64;
    AlignDownFacts(up, PAGE);
    hide AlignDown;
    PageRoom(AlignDown(up, PAGE));
  }

  /** A multiple of the page size below 2^64 leaves room for one more page. */
  lemma PageRoom(x: nat)
    requires x % PAGE == 0 && x < WORD64
    ensures x + PAGE <= WORD64
  {}

  lemma LargeUnwrapped(n: nat)
    requires LargeFits(n)
    ensures LARGE_HEADER + n <= LargeMapBytes(n) < LARGE_HEADER + n + PAGE
  {
    Wraps(LARGE_HEADER + n, 0);
    Wraps(LARGE_HEADER + n + (PAGE - 1), 0);
    AlignDownFacts(LARGE_HEADER + n + (PAGE - 1), PAGE);
  }

  lemma LargeWrapped(n: nat)
    requires LARGE_MIN <= n < WORD64 && !LargeFits(n)
    ensures LargeMapBytes(n) == if HeaderFits(n) then 0 else PAGE
  {
    var need := (LARGE_HEADER + n) % WORD64;
    var up := (need + (PAGE - 1)) % WORD64;
    if LARGE_HEADER + n < WORD64 {
      Wraps(LARGE_HEADER + n, 0);
      Wraps(need + (PAGE - 1), 1);
      AlignDownUnique(up, 0, PAGE);
    } else {
      Wraps(LARGE_HEADER + n, 1);
      Wraps(need + (PAGE - 1), 0);
      AlignDownUnique(up, if HeaderFits(n) then 0 else PAGE, PAGE);
    }
  }

  lemma Wraps(x: nat, k: nat)
    requires k * WORD64 <= x < (k + 1) * WORD64
    ensures x % WORD64 == x - k * WORD64
  {
    ModUnique(x, WORD64, k, x - k * WORD64);
  }

  /** malloc of a large request: its region gets a header. */
  ghost function MapLarge(h: Heap, n: nat, mapped: bool): (Heap, Option<nat>) {
    var (g, base) := MapRegion(h, LargeMapBytes(n), PAGE, mapped);
    if base.None? then (g, None) else (AddLarge(g, base.value, n), base)
  }

  /** A large malloc is harmless: a region it gets holds the request, and if it gets none the bump pointer has not
      wrapped. */
  ghost predicate LargeKept(h: Heap, n: nat, mapped: bool) {
    if MapLarge(h, n, mapped).1.Some? then HeaderFits(n) else BumpFits(h.bump, LargeMapBytes(n), PAGE)
  }

  ghost function AddLarge(g: Heap, base: nat, n: nat): Heap {
    g.(large := g.large[base := LargeHdr(LargeMapBytes(n), n)])
  }

  /** free of a large region, with the size read from the header before it is unmapped. */
  ghost function UnmapLarge(h: Heap, base: nat): Heap
    requires base in h.large
  {
    UnmapRegion(h, base, h.large[base].mapSize).(large := h.large - {base})
  }
}
