/** Where the code does less than it promises, in states it can reach: for each promise the exact condition
    under which every run of the system keeps it, with a run that breaks it otherwise. */
module Failures {
  import opened Arith
  import opened SizeClasses
  import opened RunSpec
  import opened Options
  import opened Reserve
  import opened PurgeSafety
  import opened HeapSpec
  import opened Ownership
  import opened Protocol
  import opened Guarantees
  import opened Progress
  import opened Reaching
  import Integrity
  import Timing
  import ProtocolSteps

  /** The trimmer is about to visit a run. */
  ghost predicate Visiting(s: State) { Arises(s) && Sound(s) && Guard(s, TrimVisit) }

  /** The run it is about to visit. */
  ghost predicate AtRun(s: State, base: nat) {
    s.trim.Walking? && s.trim.cur == Some(base) && base in s.heap.runs
  }

  ghost function Visited(s: State): State
    requires Visiting(s)
  {
    Do(s, TrimVisit)
  }

  // ---------------------------------------------------------------- bytes of live blocks

  /** Address x belongs to block b, which is in somebody's hands and of class cls. */
  ghost predicate LiveByte(h: Heap, cls: nat, b: Block, x: nat) {
    Issued(h, Small(b)) && h.runs[b.base].cls == cls && Bytes(h, Small(b)).Contains(x)
  }

  ghost predicate SparesClass(s: State, cls: nat)
    requires Visiting(s)
  {
    forall b, x :: LiveByte(s.heap, cls, b, x) ==> Visited(s).heap.mem(x) == s.heap.mem(x)
  }

  /** In all reachable states the trimmer changes no byte of any live block of a class exactly when the
      block size divides the page or is at least a page. */
  lemma ClassSparedIff(cls: nat)
    requires ValidClass(cls)
    ensures Size(cls) > 0
    ensures (forall s :: Visiting(s) ==> SparesClass(s, cls)) <==> DividesOrFillsPage(Size(cls))
  {
    SizeBounds(cls);
    hide Visiting, Visited, Size, LiveByte;
    if DividesOrFillsPage(Size(cls)) {
      forall s, b, x | Visiting(s) && LiveByte(s.heap, cls, b, x)
        ensures Visited(s).heap.mem(x) == s.heap.mem(x)
      {
        ByteSpared(s, cls, b, x);
      }
    } else {
      var s, b, x := PurgeHits(cls - 1, 1, 0, 0);
      assert LiveByte(s.heap, cls, b, x);
    }
  }

  lemma ByteSpared(s: State, cls: nat, b: Block, x: nat)
    requires ValidClass(cls) && Size(cls) > 0 && DividesOrFillsPage(Size(cls))
    requires Visiting(s) && LiveByte(s.heap, cls, b, x)
    ensures Visited(s).heap.mem(x) == s.heap.mem(x)
  {
    hide Arises, Sound, Consistent, Issued, Bytes, DividesOrFillsPage, Do;
    ArisesConsistent(s);
    LiveElem(s.heap, b);
    Integrity.PageSizesNotExposed(s.heap, Small(b), x);
    Integrity.StepBytes(s, TrimVisit, Small(b), x);
  }

  lemma LiveElem(h: Heap, b: Block)
    requires Consistent(h) && Issued(h, Small(b))
    ensures ValidClass(h.runs[b.base].cls) && ValidElem(h.runs[b.base].elem)
    ensures h.runs[b.base].elem == Size(h.runs[b.base].cls)
  {
    assert RunOk(h, b.base);
  }

  /** Otherwise, whatever the idle times: fill page 0 of a new run and one block more, free all but that last
      block, and write into it. The trimmer's next pass zeroes the byte written. */
  lemma PurgeHits(c: nat, now: nat, runIdle: nat, dirtyIdle: nat) returns (s: State, b: Block, x: nat)
    requires now > 0 && dirtyIdle < WORD64
    requires c < NUM_CLASSES && Size(c + 1) > 0 && !DividesOrFillsPage(Size(c + 1))
    ensures Visiting(s) && s.runIdle == runIdle && s.dirtyIdle == dirtyIdle
    ensures Small(b) in s.held && b.idx == PAGE / Size(c + 1) && LiveByte(s.heap, c + 1, b, x)
    ensures s.heap.mem(x) == 1 && Visited(s).heap.mem(x) == 0
  {
    SizeBounds(c + 1);
    hide *;
    var k := CutBlock(c);
    var base;
    s, base := FilledAndFreed(c, k, now, runIdle, dirtyIdle);
    s, x := Written(s, c, base, k);
    s := Noticed(s, c, base, k, x);
    b := Block(base, k);
    VisitHits(s, c, base, k, x);
    CutIndex(c, k);
  }

  lemma CutIndex(c: nat, k: nat)
    requires Cuts(c, k)
    ensures c < NUM_CLASSES && Size(c + 1) > 0 && k == PAGE / Size(c + 1)
  {
    hide Size;
  }

  /** Concretely, class 24: with 171 blocks taken and the first 170 freed, block 170 is hit. */
  lemma Class24Hit(now: nat, runIdle: nat, dirtyIdle: nat) returns (s: State, b: Block, x: nat)
    requires now > 0 && dirtyIdle < WORD64
    ensures Size(3) == 24 && Visiting(s) && s.runIdle == runIdle && s.dirtyIdle == dirtyIdle
    ensures Small(b) in s.held && b.idx == 170 && LiveByte(s.heap, 3, b, x)
    ensures s.heap.mem(x) == 1 && Visited(s).heap.mem(x) == 0
  {
    hide Visiting, Visited, LiveByte;
    TableAsListed(2);
    s, b, x := PurgeHits(2, now, runIdle, dirtyIdle);
  }

  /** Block k starts in page 0 and runs over its end. */
  ghost predicate Cuts(c: nat, k: nat) {
    && c < NUM_CLASSES && ValidElem(Size(c + 1)) && 0 < k == PAGE / Size(c + 1)
    && k * Size(c + 1) < PAGE <= Elems(Size(c + 1)) * Size(c + 1)
  }

  /** There is one when the size does not divide the page. */
  lemma CutBlock(c: nat) returns (k: nat)
    requires c < NUM_CLASSES && ValidElem(Size(c + 1)) && !DividesOrFillsPage(Size(c + 1))
    ensures Cuts(c, k) && k < Elems(Size(c + 1)) && Ownership.Reachable(Size(c + 1), k)
  {
    hide Size;
    var elem := Size(c + 1);
    k := PAGE / elem;
    ManyBlocks(elem);
    DataBytesBound(elem);
    DataOffsetBounds(Elems(elem));
    DivFacts(PAGE, elem);
    hide Elems, DataOffset;
    if PAGE / elem * elem == PAGE {
      ModUnique(PAGE, elem, PAGE / elem, 0);
    }
  }

  lemma FilledAndFreed(c: nat, k: nat, now: nat, runIdle: nat, dirtyIdle: nat) returns (s: State, base: nat)
    requires now > 0 && c < NUM_CLASSES && ValidElem(Size(c + 1))
    requires 0 < k < Elems(Size(c + 1)) && Ownership.Reachable(Size(c + 1), k)
    ensures Prepared(s, c, base, k, k + 1) && s.trim == Asleep && s.now == now
    ensures s.runIdle == runIdle && s.dirtyIdle == dirtyIdle
  {
    hide Prepared, Size, Elems, Ownership.Reachable;
    s, base := StartMalloc(2 * RUN_SIZE, now, runIdle, dirtyIdle, c);
    s := Fill(s, c, base, 1, k);
    s := Drain(s, c, base, 0, k);
  }

  /** A client holds block k of the run at `base`, all others are free, and byte x of that block is 1. */
  ghost predicate Marked(s: State, c: nat, base: nat, k: nat, x: nat) {
    && Arises(s) && OneRun(s.heap, c, base, k, k + 1) && Small(Block(base, k)) in s.held
    && x == base + BlockOffset(Size(c + 1), k) && s.heap.mem(x) == 1
  }

  ghost predicate TouchedNow(s: State, base: nat) {
    base in s.heap.runs && s.heap.runs[base].touchedAt == s.now
  }

  lemma Written(s: State, c: nat, base: nat, k: nat) returns (u: State, x: nat)
    requires Prepared(s, c, base, k, k + 1)
    ensures Marked(u, c, base, k, x) && Quiet(u) && TouchedNow(u, base)
    ensures u.now == s.now && SameSettings(s, u)
  {
    hide Arises, Sound, Consistent, Elems, Size;
    var p := Small(Block(base, k));
    assert HeldFor(s, p.b, Size(c + 1));
    SizeBounds(c + 1);
    ArisesSound(s);
    ArisesNext(s, Write(p, 0, 1));
    u := Do(s, Write(p, 0, 1));
    x := base + BlockOffset(Size(c + 1), k);
  }

  /** The trimmer stands at the run, and found it untouched for the idle time. */
  ghost predicate Due(s: State, base: nat) {
    && AtRun(s, base)
    && s.heap.runs[base].touchedAt + s.dirtyIdle == s.trim.t
  }

  /** The trimmer wakes once the run has been left alone for the idle time, and reaches it. */
  lemma Noticed(s: State, c: nat, base: nat, k: nat, x: nat) returns (u: State)
    requires Marked(s, c, base, k, x) && Quiet(s) && s.trim == Asleep && TouchedNow(s, base)
    ensures Marked(u, c, base, k, x) && Visiting(u) && Due(u, base)
    ensures u.runIdle == s.runIdle && u.dirtyIdle == s.dirtyIdle
  {
    hide Arises, Sound, OneRun, BlockOffset, Size;
    var v := Woken(s, s.now + s.dirtyIdle);
    u := WalkTo(v, c, base, k, k + 1);
  }

  /** Time passes and the trimmer wakes. */
  lemma Woken(s: State, time: nat) returns (u: State)
    requires Arises(s) && s.trim == Asleep && s.now <= time
    ensures Arises(u) && u == s.(now := time, trim := AtClass(time, 0))
  {
    hide Arises, Sound;
    ArisesSound(s);
    ArisesNext(s, Tick(time));
    var v := Do(s, Tick(time));
    ArisesNext(v, TrimWake);
    u := Do(v, TrimWake);
  }

  lemma VisitHits(s: State, c: nat, base: nat, k: nat, x: nat)
    requires Marked(s, c, base, k, x) && Visiting(s) && Due(s, base) && s.dirtyIdle < WORD64 && Cuts(c, k)
    ensures LiveByte(s.heap, c + 1, Block(base, k), x) && Visited(s).heap.mem(x) == 0
  {
    hide Arises, Sound, Guard, Orderly, Do, Consistent, PurgeRun, RunTaken, Cuts, LiveByte, Visiting, Visited,
      BlockOffset, Size, ValidRun;
    ArisesConsistent(s);
    MarkedLive(s, c, base, k, x);
    RunIsValid(s.heap, base);
    VisitIsPurge(s, base);
    PurgeZeroes(s.heap, c, base, k, s.trim.t, s.runIdle, s.dirtyIdle);
  }

  lemma MarkedLive(s: State, c: nat, base: nat, k: nat, x: nat)
    requires Marked(s, c, base, k, x)
    ensures LiveByte(s.heap, c + 1, Block(base, k), x)
  {
    hide Arises, Elems, Size, DataOffset;
  }

  lemma VisitIsPurge(s: State, base: nat)
    requires AtRun(s, base) && Consistent(s.heap) && Visiting(s)
    ensures Visited(s).heap == PurgeRun(s.heap, base, s.trim.t, s.runIdle, s.dirtyIdle)
  {
    hide Arises, Sound, Consistent, PurgeRun;
  }

  lemma PurgeZeroes(h: Heap, c: nat, base: nat, k: nat, t: nat, runIdle: nat, dirtyIdle: nat)
    requires Consistent(h) && base in h.runs && ValidRun(h.runs[base]) && RunTaken(h.runs[base], c, k, k + 1)
    requires h.runs[base].touchedAt + dirtyIdle == t && dirtyIdle < WORD64
    requires Cuts(c, k)
    ensures PurgeRun(h, base, t, runIdle, dirtyIdle).mem(base + BlockOffset(Size(c + 1), k)) == 0
  {
    hide *;
    var r := h.runs[base];
    ExactlyIdle(r, t, dirtyIdle);
    Chosen(r, c, k, k + 1, k);
    HeldMeansUsed(r, k);
    KeptPurged(h, base, t, runIdle, dirtyIdle);
    FirstPageGoes(r, c, k);
    PurgedAt(h.mem, base, r, k);
    RunClass(r, c, k, k + 1);
  }

  lemma ExactlyIdle(r: RunState, t: nat, dirtyIdle: nat)
    requires r.touchedAt + dirtyIdle == t && dirtyIdle < WORD64
    ensures IdleDirty(r, t, dirtyIdle)
  {
    ModUnique(dirtyIdle, WORD64, 0, dirtyIdle);
  }

  lemma KeptPurged(h: Heap, base: nat, t: nat, runIdle: nat, dirtyIdle: nat)
    requires Consistent(h) && base in h.runs && ValidElem(h.runs[base].elem)
    requires h.runs[base].used > 0 && IdleDirty(h.runs[base], t, dirtyIdle)
    ensures PurgeRun(h, base, t, runIdle, dirtyIdle).mem == Purged(h.mem, base, h.runs[base])
  {
    hide Consistent, Purged, Sub64, IdleDirty;
  }

  lemma PurgedAt(mem: nat -> bv8, base: nat, r: RunState, k: nat)
    requires ValidElem(r.elem) && Discards(r.elem, r.free, k * r.elem / PAGE)
    ensures Purged(mem, base, r)(base + BlockOffset(r.elem, k)) == 0
  {
    hide Discards, Elems, DataOffset;
  }

  lemma FirstPageGoes(r: RunState, c: nat, k: nat)
    requires RunTaken(r, c, k, k + 1) && Cuts(c, k)
    ensures Discards(r.elem, r.free, k * r.elem / PAGE)
  {
    hide Elems, Size;
    DivUnique(k * r.elem, PAGE, 0);
    MulMono(1, k, r.elem);
    assert FirstChecked(r.elem, 0) == 0 && FirstChecked(r.elem, 1) == k;
  }

  // ---------------------------------------------------------------- the idle time of a run

  /** A run that this visit unmaps became empty at least the idle time ago. */
  ghost predicate KeepsIdleTime(s: State)
    requires Visiting(s)
  {
    forall base :: base in s.heap.runs && base !in Visited(s).heap.runs ==>
      s.heap.runs[base].fullyFreeAt + s.runIdle <= s.now
  }

  /** Every run the trimmer ever unmaps was empty for the idle time exactly when that time is zero. */
  lemma IdleTimeKeptIff(runIdle: nat)
    requires runIdle < WORD64
    ensures (forall s :: Visiting(s) && s.runIdle == runIdle ==> KeepsIdleTime(s)) <==> runIdle == 0
  {
    hide Visiting, Visited;
    if runIdle == 0 {
      forall s, base | Visiting(s) && base in s.heap.runs && base !in Visited(s).heap.runs
        ensures s.heap.runs[base].fullyFreeAt <= s.now
      {
        StampPast(s, base);
      }
    } else {
      var s, base := UnmappedFresh(0, 1, runIdle, 0);
      assert !KeepsIdleTime(s);
    }
  }

  lemma StampPast(s: State, base: nat)
    requires Visiting(s) && base in s.heap.runs
    ensures s.heap.runs[base].fullyFreeAt <= s.now && s.heap.runs[base].touchedAt <= s.now
  {
    hide Starts, Sound, Guard, Orderly, Do;
    var trace, steps :| Execution(trace, steps) && trace[|steps|] == s;
    Timing.ExecutionTimed(trace, steps, |steps|);
    assert Timing.RunTime(s, base);
  }

  /** The trimmer reads its clock, the last block of a run is freed one millisecond later, and the run is
      unmapped at that very moment. */
  lemma UnmappedFresh(c: nat, now: nat, runIdle: nat, dirtyIdle: nat) returns (s: State, base: nat)
    requires now > 0 && c < NUM_CLASSES && runIdle < WORD64
    ensures Visiting(s) && s.runIdle == runIdle && s.dirtyIdle == dirtyIdle
    ensures base in s.heap.runs && base !in Visited(s).heap.runs && s.heap.runs[base].fullyFreeAt == s.now
  {
    hide Visiting, Visited, Prepared;
    var s0;
    s0, base := StartMalloc(2 * RUN_SIZE, now, runIdle, dirtyIdle, c);
    s := Emptied(s0, c, base);
    VisitUnmaps(s, c, base);
  }

  /** The run was found empty, by a clock read before it was. */
  ghost predicate Outrun(s: State, base: nat) {
    && AtRun(s, base)
    && s.heap.runs[base].used == 0 && s.heap.runs[base].fullyFreeAt == s.now == s.trim.t + 1
  }

  lemma Emptied(s: State, c: nat, base: nat) returns (u: State)
    requires Prepared(s, c, base, 0, 1) && s.trim == Asleep
    ensures Visiting(u) && Outrun(u, base) && u.runIdle == s.runIdle && u.dirtyIdle == s.dirtyIdle
  {
    hide Arises, Sound, RunTaken, Ownership.Reachable, Size;
    FirstReachable(c);
    var v := Woken(s, s.now);
    v := FreeFirst(v, c, base, 0, 1, s.now + 1);
    u := WalkTo(v, c, base, 1, 1);
  }

  lemma FirstReachable(c: nat)
    requires c < NUM_CLASSES
    ensures ValidElem(Size(c + 1)) && Ownership.Reachable(Size(c + 1), 0)
  {
    SizeBounds(c + 1);
    DataBytesBound(Size(c + 1));
    DataOffsetBounds(Elems(Size(c + 1)));
  }

  lemma VisitUnmaps(s: State, c: nat, base: nat)
    requires Visiting(s) && Outrun(s, base) && s.runIdle < WORD64
    ensures base !in Visited(s).heap.runs
  {
    hide Arises, Sound, Consistent, PurgeRun, IdleFree;
    ArisesConsistent(s);
    VisitIsPurge(s, base);
    WrappedIdle(s.heap.runs[base], s.trim.t, s.runIdle);
    Timing.PurgeEffect(s.heap, base, s.trim.t, s.runIdle, s.dirtyIdle);
  }

  lemma WrappedIdle(r: RunState, t: nat, runIdle: nat)
    requires r.used == 0 && r.fullyFreeAt == t + 1 && runIdle < WORD64
    ensures IdleFree(r, t, runIdle)
  {
    assert Sub64(t, r.fullyFreeAt) == WORD64 - 1;
  }

  // ---------------------------------------------------------------- the idle time of pages

  /** This visit keeps the run and gives back its pages. */
  predicate PurgesPages(r: RunState, t: nat, runIdle: nat, dirtyIdle: nat) {
    !IdleFree(r, t, runIdle) && IdleDirty(r, t, dirtyIdle)
  }

  /** A run whose pages this visit gives back was last touched at least the idle time ago. */
  ghost predicate KeepsDirtyTime(s: State)
    requires Visiting(s)
  {
    forall base ::
      AtRun(s, base) && PurgesPages(s.heap.runs[base], s.trim.t, s.runIdle, s.dirtyIdle) ==>
        s.heap.runs[base].touchedAt + s.dirtyIdle <= s.now
  }

  /** The trimmer leaves every run's pages alone for the idle time exactly when that time is zero. */
  lemma DirtyTimeKeptIff(dirtyIdle: nat)
    requires dirtyIdle < WORD64
    ensures (forall s :: Visiting(s) && s.dirtyIdle == dirtyIdle ==> KeepsDirtyTime(s)) <==> dirtyIdle == 0
  {
    hide Visiting, Visited, PurgesPages;
    if dirtyIdle == 0 {
      forall s, base | Visiting(s) && AtRun(s, base)
        ensures s.heap.runs[base].touchedAt <= s.now
      {
        StampPast(s, base);
      }
    } else {
      var s, base := PurgedFresh(1, 0, dirtyIdle);
      assert !KeepsDirtyTime(s);
    }
  }

  /** The trimmer reads its clock, a block of a run is handed out one millisecond later, and the pages of that run
      are given back at that very moment, which the run's stamp then puts into the past. */
  lemma PurgedFresh(now: nat, runIdle: nat, dirtyIdle: nat) returns (s: State, base: nat)
    requires now > 0 && dirtyIdle < WORD64
    ensures Visiting(s) && s.runIdle == runIdle && s.dirtyIdle == dirtyIdle && AtRun(s, base)
    ensures PurgesPages(s.heap.runs[base], s.trim.t, s.runIdle, s.dirtyIdle) && s.heap.runs[base].touchedAt == s.now
    ensures base in Visited(s).heap.runs && Visited(s).heap.runs[base].touchedAt < s.now
  {
    hide Visiting, Visited, Prepared, PurgesPages;
    var s0;
    s0, base := StartMalloc(2 * RUN_SIZE, now, runIdle, dirtyIdle, 0);
    s := Retouched(s0, base);
    TouchedPurged(s, base);
  }

  /** The run was touched after the clock was read. */
  ghost predicate Overtaken(s: State, base: nat) {
    && AtRun(s, base)
    && s.heap.runs[base].used > 0 && s.heap.runs[base].touchedAt == s.now == s.trim.t + 1
  }

  lemma Retouched(s: State, base: nat) returns (u: State)
    requires Prepared(s, 0, base, 0, 1) && s.trim == Asleep
    ensures Visiting(u) && Overtaken(u, base) && u.runIdle == s.runIdle && u.dirtyIdle == s.dirtyIdle
  {
    hide Arises, Sound, Consistent, RunTaken, Size, Elems, ValidRun;
    SizeBounds(1);
    var v := Woken(s, s.now);
    v := Later(v, s.now + 1);
    SmallestHoldsTwo();
    v := NextMalloc(v, 0, base, 1);
    ArisesConsistent(v);
    RunIsValid(v.heap, base);
    Chosen(v.heap.runs[base], 0, 0, 2, 0);
    HeldMeansUsed(v.heap.runs[base], 0);
    u := WalkTo(v, 0, base, 0, 2);
  }

  lemma SmallestHoldsTwo()
    ensures ValidElem(Size(1)) && Elems(Size(1)) > 1
  {}

  lemma Later(s: State, time: nat) returns (u: State)
    requires Arises(s) && s.now <= time
    ensures Arises(u) && u == s.(now := time)
  {
    hide Arises, Sound;
    ArisesSound(s);
    ArisesNext(s, Tick(time));
    u := Do(s, Tick(time));
  }

  lemma TouchedPurged(s: State, base: nat)
    requires Visiting(s) && Overtaken(s, base) && s.dirtyIdle < WORD64
    ensures PurgesPages(s.heap.runs[base], s.trim.t, s.runIdle, s.dirtyIdle)
    ensures base in Visited(s).heap.runs && Visited(s).heap.runs[base].touchedAt < s.now
  {
    hide Arises, Sound, Consistent, PurgeRun;
    ArisesConsistent(s);
    VisitIsPurge(s, base);
    WrappedDirty(s.heap.runs[base], s.trim.t, s.runIdle, s.dirtyIdle);
    Timing.PurgeEffect(s.heap, base, s.trim.t, s.runIdle, s.dirtyIdle);
  }

  lemma WrappedDirty(r: RunState, t: nat, runIdle: nat, dirtyIdle: nat)
    requires r.used > 0 && r.touchedAt == t + 1 && dirtyIdle < WORD64
    ensures PurgesPages(r, t, runIdle, dirtyIdle)
  {
    assert Sub64(t, r.touchedAt) == WORD64 - 1;
  }

  // ---------------------------------------------------------------- the probe of a large pointer

  /** The first large region of a process starts where the reserve does. The header that free would read for
      it is mapped exactly when the reserve starts on a 2 MiB boundary. */
  lemma FirstLargeProbeIff(start: nat, size: nat, n: nat, now: nat) returns (s: State)
    requires now > 0 && 0 < start && start % PAGE == 0 && start + size <= USER_TOP
    requires LARGE_MIN <= n && LargeFits(n) && LargeMapBytes(n) <= size
    ensures Arises(s) && Large(start) in s.held && start in s.heap.large && Guard(s, Step.Free(0, Large(start)))
    ensures Covered(s.heap, RunOf(Addr(s.heap, Large(start)))) <==> start % RUN_SIZE == 0
  {
    hide Arises, Sound, Consistent, LargeMapBytes, Covered, RunOf;
    s := FirstLarge(start, size, n, now);
    ArisesConsistent(s);
    LargeProbeOwnIff(s.heap, start);
    OneCover(s.heap, start, LargeMapBytes(n), RunOf(Addr(s.heap, Large(start))));
  }

  lemma OneCover(h: Heap, base: nat, size: nat, a: nat)
    requires h.space == map[base := size]
    ensures Covered(h, a) <==> base <= a < base + size
  {
    assert base in h.space;
  }

  // ---------------------------------------------------------------- blocks that free drops

  /** free has dropped block b, of class cls, in a state the system can reach. */
  ghost predicate LeakOf(s: State, cls: nat, b: Block) {
    Arises(s) && b in s.leaked && Issued(s.heap, Small(b)) && s.heap.runs[b.base].cls == cls
  }

  /** Some run of the system leaks a block of the class exactly when the header area has room for a whole block
      beyond what the run size leaves over. */
  lemma ClassLeaksIff(cls: nat)
    requires ValidClass(cls) && ValidElem(Size(cls))
    ensures
      var elem := Size(cls);
      (exists s, b :: LeakOf(s, cls, b)) <==> elem >= 32 && DataOffset(Elems(elem)) >= elem + RUN_SIZE % elem
  {
    hide Arises, Size, Elems, DataOffset, Consistent, Ownership.Reachable;
    var elem := Size(cls);
    SomeBlockLostIff(elem);
    if s, b :| LeakOf(s, cls, b) {
      LeakedUnreachable(s, b);
      ArisesConsistent(s);
      LiveElem(s.heap, b);
    }
    if exists idx :: 0 <= idx < Elems(elem) && !Ownership.Reachable(elem, idx) {
      var idx :| 0 <= idx < Elems(elem) && !Ownership.Reachable(elem, idx);
      var s, b := DropOne(cls - 1, idx);
      assert LeakOf(s, cls, b);
    }
  }

  /** Fill a run up to a block past the 2 MiB mark, and free that block. */
  lemma DropOne(c: nat, idx: nat) returns (s: State, b: Block)
    requires c < NUM_CLASSES && ValidElem(Size(c + 1)) && idx < Elems(Size(c + 1))
    requires !Ownership.Reachable(Size(c + 1), idx)
    ensures LeakOf(s, c + 1, b)
  {
    hide Prepared, Size, Elems, Ownership.Reachable, LeakOf;
    FirstReachable(c);
    var base;
    s, base := StartMalloc(2 * RUN_SIZE, 1, 0, 0, c);
    s := Fill(s, c, base, 1, idx);
    b := Block(base, idx);
    s := DropHeld(s, c, base, idx);
  }

  lemma DropHeld(s: State, c: nat, base: nat, idx: nat) returns (u: State)
    requires Prepared(s, c, base, 0, idx + 1) && !Ownership.Reachable(Size(c + 1), idx)
    ensures LeakOf(u, c + 1, Block(base, idx))
  {
    hide Arises, Sound, Consistent, Size, Elems, Ownership.Reachable, DoTest;
    var p := Small(Block(base, idx));
    assert HeldFor(s, p.b, Size(c + 1));
    ArisesSound(s);
    ArisesConsistent(s);
    ArisesNext(s, Step.Free(0, p));
    var v := Do(s, Step.Free(0, p));
    ProtocolSteps.TestOutcome(v, 0, p);
    ArisesNext(v, Test(0));
    u := Do(v, Test(0));
  }
}
