/** No step of the allocator changes a byte of memory in somebody's hands, except where a page that the
    trimmer discards ends inside a block: the bytes of issued pointers along any run of the system. */
module Integrity {
  import opened Arith
  import opened SizeClasses
  import opened RunSpec
  import opened Options
  import opened Reserve
  import opened PurgeSafety
  import opened HeapSpec
  import opened HeapProofs
  import opened Issuing
  import opened Ownership
  import opened Protocol
  import opened ProtocolHeapSteps
  import opened Guarantees
  import Timing

  /** Byte `x` of block `b` lies in a page whose end cuts the block: the one page the purge would give
      back without having looked at the block. */
  ghost predicate Exposed(h: Heap, p: Ptr, x: nat)
    requires Issued(h, p)
  {
    p.Small? &&
    var elem := h.runs[p.b.base].elem;
    var d := p.b.base + DataOffset(Elems(elem));
    elem < PAGE && x >= d && Straddles(elem, p.b.idx, Quotient(x - d, PAGE))
  }

  /** No byte of a block whose size divides the page, or is at least a page, is exposed. */
  lemma PageSizesNotExposed(h: Heap, p: Ptr, x: nat)
    requires Issued(h, p)
    requires p.Small? ==> ValidElem(h.runs[p.b.base].elem) && DividesOrFillsPage(h.runs[p.b.base].elem)
    ensures !Exposed(h, p, x)
  {
    if Exposed(h, p, x) {
      var elem := h.runs[p.b.base].elem;
      var q := Quotient(x - (p.b.base + DataOffset(Elems(elem))), PAGE);
      hide Elems, DataOffset;
      DividesMultiple(elem, q + 1);
    }
  }

  // ---------------------------------------------------------------- the operations

  /** A region just mapped meets no issued pointer. */
  lemma FreshBytes(h: Heap, size: nat, align: nat, mapped: bool, p: Ptr, x: nat)
    requires Consistent(h) && 0 < align < USER_TOP && Issued(h, p) && Bytes(h, p).Contains(x)
    ensures MapRegion(h, size, align, mapped).0.mem(x) == h.mem(x)
  {
    IssuedInside(h, p);
    ConsistentSpace(h);
    BoundsOf(h);
    RegionBelow(h, BaseOf(p));
    hide Consistent, SpaceOk, Issued, Addr, Capacity, Reserve.Place, NextBump, Placed;
    if Placed(h.bump, h.end, size, align, mapped) {
      PlacedFits(h.bump, h.end, size, align, mapped);
    }
  }

  lemma RegionBelow(h: Heap, base: nat)
    requires Consistent(h) && base in h.space
    ensures base + h.space[base] < h.bump
  {
    assert RegionOk(h, base);
  }

  lemma TakeBytes(h: Heap, c: nat, now: nat, mapped: bool, p: Ptr, x: nat)
    requires HasClass(h, c) && Issued(h, p) && Bytes(h, p).Contains(x)
    ensures TakeBlock(h, c, now, mapped).0.mem(x) == h.mem(x)
  {
    hide Consistent, MapRegion, Size, MapBytes, Issued, Bytes;
    var ss := ClassStates(h, c);
    var i := FirstWithRoom(ss);
    if i < |ss| {
      FullIffNoneFree(ss[i]);
    } else {
      SizeBounds(c + 1);
      FreshBytes(h, MapBytes(Size(c + 1)), RUN_SIZE, mapped, p, x);
    }
  }

  lemma LargeBytes(h: Heap, n: nat, mapped: bool, p: Ptr, x: nat)
    requires Consistent(h) && Issued(h, p) && Bytes(h, p).Contains(x)
    ensures MapLarge(h, n, mapped).0.mem(x) == h.mem(x)
  {
    FreshBytes(h, LargeMapBytes(n), PAGE, mapped, p, x);
    hide Consistent, MapRegion, LargeMapBytes;
  }

  lemma PurgeBytes(h: Heap, base: nat, t: nat, runIdle: nat, dirtyIdle: nat, p: Ptr, x: nat)
    requires Consistent(h) && base in h.runs && Issued(h, p) && Bytes(h, p).Contains(x) && !Exposed(h, p, x)
    ensures PurgeRun(h, base, t, runIdle, dirtyIdle).mem(x) == h.mem(x)
  {
    hide Consistent, Issued, Bytes, Exposed, Sub64, Purged, MapBytes, ValidElem;
    RunPlaced(h, base);
    PurgedBytes(h, base, p, x);
  }

  /** The data page of the run at `base` that holds address `x` is discarded. */
  ghost predicate Gone(h: Heap, base: nat, x: nat)
    requires base in h.runs && ValidElem(h.runs[base].elem)
  {
    var r := h.runs[base];
    var d := base + DataOffset(Elems(r.elem));
    x >= d && Discards(r.elem, r.free, Quotient(x - d, PAGE))
  }

  lemma PurgedBytes(h: Heap, base: nat, p: Ptr, x: nat)
    requires Consistent(h) && base in h.runs && Issued(h, p) && Bytes(h, p).Contains(x) && !Exposed(h, p, x)
    requires ValidElem(h.runs[base].elem)
    ensures Purged(h.mem, base, h.runs[base])(x) == h.mem(x)
  {
    hide *;
    NotGone(h, base, p, x);
    PurgedGone(h, base, x);
  }

  lemma PurgedGone(h: Heap, base: nat, x: nat)
    requires base in h.runs && ValidElem(h.runs[base].elem) && !Gone(h, base, x)
    ensures Purged(h.mem, base, h.runs[base])(x) == h.mem(x)
  {
    hide Discards, DataOffset, Elems;
  }

  lemma NotGone(h: Heap, base: nat, p: Ptr, x: nat)
    requires Consistent(h) && base in h.runs && Issued(h, p) && Bytes(h, p).Contains(x) && !Exposed(h, p, x)
    requires ValidElem(h.runs[base].elem)
    ensures !Gone(h, base, x)
  {
    hide Consistent, Issued, Bytes, Exposed, Gone;
    if BaseOf(p) == base {
      LargeIsNoRun(h, p);
      SameRunSafe(h, p.b, x);
    } else {
      OtherRunSafe(h, base, p, x);
    }
  }

  lemma OtherRunSafe(h: Heap, base: nat, p: Ptr, x: nat)
    requires Consistent(h) && base in h.runs && Issued(h, p) && Bytes(h, p).Contains(x) && BaseOf(p) != base
    requires ValidElem(h.runs[base].elem)
    ensures !Gone(h, base, x)
  {
    hide Consistent, Issued, Addr, Capacity, Gone;
    GoneInside(h, base, x);
    IssuedInside(h, p);
    NotInBoth(h, base, BaseOf(p), x);
  }

  lemma GoneInside(h: Heap, base: nat, x: nat)
    requires Consistent(h) && base in h.runs && ValidElem(h.runs[base].elem)
    ensures base in h.space
    ensures Gone(h, base, x) ==> base <= x < base + h.space[base]
  {
    hide Consistent, Discards, DataOffset, Elems;
    RunSpan(h, base);
    if Gone(h, base, x) {
      DiscardedInside(h.runs[base], x - (base + DataOffset(Elems(h.runs[base].elem))));
    }
  }

  lemma NotInBoth(h: Heap, a: nat, b: nat, x: nat)
    requires Consistent(h) && a in h.space && b in h.space && a != b && b <= x < b + h.space[b]
    ensures !(a <= x < a + h.space[a])
  {
    hide RunOk, LargeOk, ListOk, LiveOk, RegionOk;
  }

  lemma RunSpan(h: Heap, base: nat)
    requires Consistent(h) && base in h.runs
    ensures ValidElem(h.runs[base].elem) && base in h.space
    ensures
      var elem := h.runs[base].elem;
      base + DataOffset(Elems(elem)) + Elems(elem) * elem <= base + h.space[base]
  {
    assert RunOk(h, base);
    hide Consistent;
    MapBytesBounds(h.runs[base].elem);
  }

  lemma DiscardedInside(r: RunState, off: nat)
    requires ValidElem(r.elem) && Discards(r.elem, r.free, Quotient(off, PAGE))
    ensures off < Elems(r.elem) * r.elem
  {
    DivFacts(off, PAGE);
  }

  lemma SameRunSafe(h: Heap, b: Block, x: nat)
    requires Issued(h, Small(b)) && Bytes(h, Small(b)).Contains(x) && !Exposed(h, Small(b), x)
    ensures !Gone(h, b.base, x)
  {
    hide Discards, Elems, DataOffset, Quotient, Straddles, Overlaps;
    var r := h.runs[b.base];
    var off: nat := x - (b.base + DataOffset(Elems(r.elem)));
    ByteOverlaps(r.elem, b.idx, off);
    SafePage(r, b.idx, Quotient(off, PAGE));
  }

  /** A page that overlaps a block in use is discarded only when it ends inside that block. */
  lemma SafePage(r: RunState, idx: nat, q: nat)
    requires ValidElem(r.elem) && idx !in r.free && Overlaps(r.elem, idx, q)
    requires !(r.elem < PAGE && Straddles(r.elem, idx, q))
    ensures !Discards(r.elem, r.free, q)
  {
    DividesMultiple(PAGE, q + 1);
    if Discards(r.elem, r.free, q) {
      HarmsOnlyStraddler(r, q, idx);
    }
  }

  lemma LargeIsNoRun(h: Heap, p: Ptr)
    requires Consistent(h) && Issued(h, p) && BaseOf(p) in h.runs
    ensures p.Small?
  {
    assert p.Large? ==> LargeOk(h, p.base);
  }

  lemma ByteOverlaps(elem: nat, idx: nat, off: nat)
    requires ValidElem(elem) && idx * elem <= off < idx * elem + elem
    ensures Overlaps(elem, idx, Quotient(off, PAGE))
  {
    DivFacts(off, PAGE);
    assert (idx + 1) * elem == idx * elem + elem;
  }

  // ---------------------------------------------------------------- one step

  /** A client's store to the byte at offset `off` of what it holds at p. */
  predicate WritesTo(st: Step, p: Ptr, off: int) { st.Write? && st.p == p && st.off == off }

  lemma StepBytes(s: State, st: Step, p: Ptr, x: nat)
    requires Arises(s) && Sound(s) && Guard(s, st)
    requires Issued(s.heap, p) && Bytes(s.heap, p).Contains(x) && !Exposed(s.heap, p, x)
    requires !WritesTo(st, p, x - Addr(s.heap, p))
    ensures Do(s, st).heap.mem(x) == s.heap.mem(x)
  {
    hide Arises, Sound, Consistent, Issued, Bytes, Addr, Exposed, MapLarge, PurgeRun, DoTake, DoGive, WritesTo;
    if ThreadStep(st) {
      Timing.ThreadAside(s, st);
    } else {
      SoundHeap(s);
      match st {
        case MallocLarge(_, n, mapped) => LargeBytes(s.heap, n, mapped, p, x);
        case Take(t, mapped) => TakenBytes(s, t, mapped, p, x);
        case Give(t, stamp) => GivenBytes(s, t, stamp);
        case Unmap(t) => UnmapNow(s, t);
        case TrimVisit =>
          VisitedRun(s);
          PurgeBytes(s.heap, s.trim.cur.value, s.trim.t, s.runIdle, s.dirtyIdle, p, x);
        case Write(q, off, v) => WrittenBytes(s, q, off, v, p, x);
        case _ =>
      }
    }
  }

  lemma WrittenBytes(s: State, q: Ptr, off: nat, v: bv8, p: Ptr, x: nat)
    requires Arises(s) && Sound(s) && Consistent(s.heap) && Guard(s, Write(q, off, v))
    requires Issued(s.heap, p) && Bytes(s.heap, p).Contains(x) && !WritesTo(Write(q, off, v), p, x - Addr(s.heap, p))
    ensures Do(s, Write(q, off, v)).heap.mem(x) == s.heap.mem(x)
  {
    hide Arises, Sound, Consistent, Issued, Addr, Capacity;
    if q != p {
      OtherByte(s, q, off, p, x);
    }
  }

  lemma SoundHeap(s: State)
    requires Sound(s)
    ensures Consistent(s.heap)
  {}

  lemma VisitedRun(s: State)
    requires Sound(s) && Guard(s, TrimVisit)
    ensures s.trim.cur.value in s.heap.runs
  {}

  lemma TakenBytes(s: State, t: nat, mapped: bool, p: Ptr, x: nat)
    requires Sound(s) && Guard(s, Step.Take(t, mapped)) && Issued(s.heap, p) && Bytes(s.heap, p).Contains(x)
    ensures DoTake(s, t, mapped).heap.mem(x) == s.heap.mem(x)
  {
    hide Sound, Consistent, Issued, Bytes, TakeBlock;
    Timing.InsideClass(s, t);
    TakeBytes(s.heap, s.threads[t].pc.c, s.now, mapped, p, x);
  }

  lemma GivenBytes(s: State, t: nat, stamp: nat)
    requires Sound(s) && Guard(s, Give(t, stamp))
    ensures DoGive(s, t, stamp).heap.mem == s.heap.mem
  {
    GivenIssued(s, t);
    hide Sound, Consistent, Issued;
    var b := GivenBack(s.threads[t]).value;
    GiveMem(s.heap, b, s.now, stamp);
  }

  lemma GiveMem(h: Heap, b: Block, touch: nat, stamp: nat)
    requires Consistent(h) && Issued(h, Small(b))
    ensures GiveBlock(h, b, touch, stamp).mem == h.mem
  {
    hide Consistent;
  }

  /** A client writes inside what it asked for, so outside everything else. */
  lemma OtherByte(s: State, q: Ptr, off: nat, p: Ptr, x: nat)
    requires Arises(s) && q in s.held && off < s.held[q] && p != q
    requires Consistent(s.heap) && Issued(s.heap, p) && Bytes(s.heap, p).Contains(x)
    ensures Issued(s.heap, q) && Addr(s.heap, q) + off != x
  {
    HeldFits(s, q);
    hide Arises, Consistent, Issued, Addr, Capacity;
    Ownership.IssuedApart(s.heap, p, q);
    assert Bytes(s.heap, q).Contains(Addr(s.heap, q) + off);
  }

  // ---------------------------------------------------------------- whole runs of the system

  /** What is issued before and after a step is the same memory. */
  lemma StepKind(s: State, st: Step, p: Ptr)
    requires Sound(s) && Guard(s, st) && Issued(s.heap, p) && Issued(Do(s, st).heap, p)
    ensures SameKind(s.heap, Do(s, st).heap, p)
  {
    hide Sound, Consistent, Issued, MapLarge, PurgeRun, UnmapLarge, DoTake, DoGive, SameKind, HeapStep;
    Still(s.heap, None);
    StepKindAt(s.heap, s.heap, None, p);
    if ThreadStep(st) {
      Timing.ThreadAside(s, st);
    } else {
      SoundHeap(s);
      match st {
        case MallocLarge(_, n, mapped) => LargeKind(s.heap, n, mapped, p);
        case Take(t, mapped) => TakeKind(s, t, mapped, p);
        case Give(t, stamp) => GiveKind(s, t, stamp, p);
        case Unmap(t) =>
          UnmapNow(s, t);
          UnmapLargeStep(s.heap, s.threads[t].pc.base);
          StepKindAt(s.heap, Do(s, st).heap, Some(Large(s.threads[t].pc.base)), p);
        case TrimVisit =>
          VisitedRun(s);
          PurgeStep(s.heap, s.trim.cur.value, s.trim.t, s.runIdle, s.dirtyIdle);
          StepKindAt(s.heap, Do(s, st).heap, None, p);
        case Write(q, off, v) =>
          MemStep(s.heap, s.heap, Do(s, st).heap);
          StepKindAt(s.heap, Do(s, st).heap, None, p);
        case _ =>
      }
    }
  }

  lemma StepKindAt(h: Heap, g: Heap, moved: Option<Ptr>, p: Ptr)
    requires HeapStep(h, g, moved) && Issued(h, p) && Issued(g, p)
    requires moved.Some? ==> !Issued(h, moved.value) || !Issued(g, moved.value)
    ensures SameKind(h, g, p)
  {}

  lemma LargeKind(h: Heap, n: nat, mapped: bool, p: Ptr)
    requires Consistent(h) && Issued(h, p) && Issued(MapLarge(h, n, mapped).0, p)
    ensures SameKind(h, MapLarge(h, n, mapped).0, p)
  {
    hide Consistent, Issued, MapLarge, HeapStep, SameKind;
    MapLargeStep(h, n, mapped);
    var (g, base) := MapLarge(h, n, mapped);
    StepKindAt(h, g, if base.None? then None else Some(Large(base.value)), p);
  }

  lemma TakeKind(s: State, t: nat, mapped: bool, p: Ptr)
    requires Sound(s) && Guard(s, Step.Take(t, mapped)) && Issued(s.heap, p) && Issued(DoTake(s, t, mapped).heap, p)
    ensures SameKind(s.heap, DoTake(s, t, mapped).heap, p)
  {
    hide Sound, Consistent, Issued, TakeBlock, HeapStep, SameKind;
    Timing.InsideClass(s, t);
    TakeStep(s.heap, s.threads[t].pc.c, s.now, mapped);
    var (g, b) := TakeBlock(s.heap, s.threads[t].pc.c, s.now, mapped);
    StepKindAt(s.heap, g, if b.None? then None else Some(Small(b.value)), p);
  }

  lemma GiveKind(s: State, t: nat, stamp: nat, p: Ptr)
    requires Sound(s) && Guard(s, Give(t, stamp)) && Issued(s.heap, p) && Issued(DoGive(s, t, stamp).heap, p)
    ensures SameKind(s.heap, DoGive(s, t, stamp).heap, p)
  {
    hide Sound, Consistent, Issued, GiveBlock, HeapStep, SameKind;
    GivenIssued(s, t);
    SoundHeap(s);
    var b := GivenBack(s.threads[t]).value;
    GiveStep(s.heap, b, s.now, stamp);
    StepKindAt(s.heap, GiveBlock(s.heap, b, s.now, stamp), Some(Small(b)), p);
  }

  lemma KindBytes(h: Heap, g: Heap, p: Ptr, x: nat)
    requires Issued(h, p) && Issued(g, p) && SameKind(h, g, p)
    ensures Bytes(g, p) == Bytes(h, p) && (Exposed(g, p, x) <==> Exposed(h, p, x))
  {}

  /** While a pointer stays issued its address, its size and the bytes that can be cut off stay the same. */
  lemma {:induction false} SafeStays(trace: seq<State>, steps: seq<Step>, i: nat, j: nat, p: Ptr, off: nat)
    requires Execution(trace, steps) && i <= j <= |steps|
    requires forall k :: i <= k <= j ==> Issued(trace[k].heap, p)
    ensures Bytes(trace[j].heap, p) == Bytes(trace[i].heap, p)
    ensures Safe(trace[j].heap, p, off) <==> Safe(trace[i].heap, p, off)
    decreases j
  {
    hide Issued, Addr, Capacity, Exposed, Sound, Guard, Orderly, Do, Starts, SameKind;
    if i < j {
      SafeStays(trace, steps, i, j - 1, p, off);
      var s, u := trace[j - 1], trace[j - 1 + 1];
      assert u == Do(s, steps[j - 1]);
      StepKind(s, steps[j - 1], p);
      KindBytes(s.heap, u.heap, p, Addr(s.heap, p) + off);
    }
  }

  /** While a pointer stays issued its address and size stay put, and a byte of it that no discarded page
      can cut off changes only when its holder writes that byte: through every interleaving of the threads'
      and the trimmer's steps. */
  lemma {:induction false} BytesSurvive(trace: seq<State>, steps: seq<Step>, i: nat, j: nat, p: Ptr, off: nat)
    requires Execution(trace, steps) && i <= j <= |steps|
    requires forall k :: i <= k <= j ==> Issued(trace[k].heap, p)
    requires forall k :: i <= k < j ==> !WritesTo(steps[k], p, off)
    requires Safe(trace[i].heap, p, off)
    ensures ByteAt(trace[j].heap, p, off) == ByteAt(trace[i].heap, p, off)
    ensures Bytes(trace[j].heap, p) == Bytes(trace[i].heap, p) && Safe(trace[j].heap, p, off)
    decreases j
  {
    hide Issued, Addr, Capacity, Exposed, Sound, Guard, Orderly, Do, Starts, Arises;
    SafeStays(trace, steps, i, j, p, off);
    if i < j {
      BytesSurvive(trace, steps, i, j - 1, p, off);
      SafeStays(trace, steps, j - 1, j, p, off);
      ArisesAt(trace, steps, j - 1);
      var s, u := trace[j - 1], trace[j - 1 + 1];
      var x := Addr(s.heap, p) + off;
      assert !WritesTo(steps[j - 1], p, x - Addr(s.heap, p));
      StepBytes(s, steps[j - 1], p, x);
      assert u == Do(s, steps[j - 1]);
    }
  }

  /** The byte at offset `off` exists and no page the purge discards cuts it off. */
  ghost predicate Safe(h: Heap, p: Ptr, off: nat)
    requires Issued(h, p)
  {
    off < Capacity(h, p) && !Exposed(h, p, Addr(h, p) + off)
  }

  ghost function ByteAt(h: Heap, p: Ptr, off: nat): bv8
    requires Issued(h, p)
  {
    h.mem(Addr(h, p) + off)
  }

  lemma ArisesAt(trace: seq<State>, steps: seq<Step>, k: nat)
    requires Execution(trace, steps) && k <= |steps|
    ensures Arises(trace[k])
  {
    hide Sound, Guard, Orderly, Do, Starts;
    assert Execution(trace[..k + 1], steps[..k]);
  }

  // ---------------------------------------------------------------- addresses are mapped once

  /** Behind the bump pointer and in no mapping. */
  ghost predicate Dead(h: Heap, a: nat) { a < h.bump && !Covered(h, a) }

  lemma MapKeepsDead(h: Heap, size: nat, align: nat, mapped: bool, a: nat)
    requires SpaceOk(h) && 0 < align < USER_TOP && Dead(h, a) && BumpFits(h.bump, size, align)
    ensures Dead(MapRegion(h, size, align, mapped).0, a)
  {
    MapRegionSpace(h, size, align, mapped);
    hide SpaceOk, MapRegion, BumpFits;
  }

  lemma FewerMappings(h: Heap, g: Heap, a: nat)
    requires Dead(h, a) && g.bump == h.bump && g.space.Keys <= h.space.Keys
    requires forall b :: b in g.space ==> g.space[b] == h.space[b]
    ensures Dead(g, a)
  {}

  lemma TakeKeepsDead(h: Heap, c: nat, now: nat, mapped: bool, a: nat)
    requires HasClass(h, c) && TakeFits(h, c) && Dead(h, a)
    ensures Dead(TakeBlock(h, c, now, mapped).0, a)
  {
    hide Consistent, SpaceOk, MapRegion, Size, MapBytes, Covered, BumpFits;
    var ss := ClassStates(h, c);
    var i := FirstWithRoom(ss);
    ConsistentSpace(h);
    if i < |ss| {
      FullIffNoneFree(ss[i]);
      FewerMappings(h, TakeBlock(h, c, now, mapped).0, a);
    } else {
      SizeBounds(c + 1);
      assert RunBumpFits(h.bump, c);
      MapKeepsDead(h, MapBytes(Size(c + 1)), RUN_SIZE, mapped, a);
      var (g, base) := MapRegion(h, MapBytes(Size(c + 1)), RUN_SIZE, mapped);
      FewerMappings(g, TakeBlock(h, c, now, mapped).0, a);
    }
  }

  lemma LargeKeepsDead(h: Heap, n: nat, mapped: bool, a: nat)
    requires Consistent(h) && Dead(h, a) && LARGE_MIN <= n < WORD64 && LargeKept(h, n, mapped)
    ensures Dead(MapLarge(h, n, mapped).0, a)
  {
    hide Consistent, SpaceOk, MapRegion, LargeMapBytes, Covered, BumpFits;
    ConsistentSpace(h);
    MapRegionSpace(h, LargeMapBytes(n), PAGE, mapped);
    MapKeepsDead(h, LargeMapBytes(n), PAGE, mapped, a);
    var (g, base) := MapRegion(h, LargeMapBytes(n), PAGE, mapped);
    FewerMappings(g, MapLarge(h, n, mapped).0, a);
  }

  lemma StepKeepsDead(s: State, st: Step, a: nat)
    requires Sound(s) && Guard(s, st) && Orderly(s, st) && Dead(s.heap, a)
    ensures Dead(Do(s, st).heap, a)
  {
    hide Sound, Consistent, Dead, MapLarge, PurgeRun, UnmapLarge, DoTake, DoGive;
    if ThreadStep(st) {
      Timing.ThreadAside(s, st);
    } else {
      SoundHeap(s);
      match st {
        case MallocLarge(_, n, mapped) => LargeKeepsDead(s.heap, n, mapped, a);
        case Take(t, mapped) => TookKeepsDead(s, t, mapped, a);
        case Give(t, stamp) => GaveKeepsDead(s, t, stamp, a);
        case Unmap(t) => UnmapNow(s, t); UnmapKeepsDead(s.heap, s.threads[t].pc.base, a);
        case TrimVisit => VisitedRun(s); PurgeKeepsDead(s, a);
        case Write(_, _, _) => FewerMappings(s.heap, Do(s, st).heap, a);
        case _ =>
      }
    }
  }

  lemma TookKeepsDead(s: State, t: nat, mapped: bool, a: nat)
    requires Sound(s) && Guard(s, Step.Take(t, mapped)) && Orderly(s, Step.Take(t, mapped)) && Dead(s.heap, a)
    ensures Dead(DoTake(s, t, mapped).heap, a)
  {
    hide Sound, Consistent, Dead, TakeBlock;
    Timing.InsideClass(s, t);
    TakeKeepsDead(s.heap, s.threads[t].pc.c, s.now, mapped, a);
  }

  lemma GaveKeepsDead(s: State, t: nat, stamp: nat, a: nat)
    requires Sound(s) && Guard(s, Give(t, stamp)) && Dead(s.heap, a)
    ensures Dead(DoGive(s, t, stamp).heap, a)
  {
    hide Sound, Consistent, Issued, Covered;
    GivenIssued(s, t);
    SoundHeap(s);
    var b := GivenBack(s.threads[t]).value;
    FewerMappings(s.heap, GiveBlock(s.heap, b, s.now, stamp), a);
  }

  lemma UnmapKeepsDead(h: Heap, base: nat, a: nat)
    requires base in h.large && Dead(h, a)
    ensures Dead(UnmapLarge(h, base), a)
  {
    hide Covered;
    FewerMappings(h, UnmapLarge(h, base), a);
  }

  lemma PurgeKeepsDead(s: State, a: nat)
    requires Sound(s) && Guard(s, TrimVisit) && Dead(s.heap, a) && s.trim.cur.value in s.heap.runs
    ensures Dead(PurgeRun(s.heap, s.trim.cur.value, s.trim.t, s.runIdle, s.dirtyIdle), a)
  {
    SoundHeap(s);
    hide Sound, Consistent, Covered, PurgeRun;
    PurgeSpace(s.heap, s.trim.cur.value, s.trim.t, s.runIdle, s.dirtyIdle);
    FewerMappings(s.heap, PurgeRun(s.heap, s.trim.cur.value, s.trim.t, s.runIdle, s.dirtyIdle), a);
  }

  lemma PurgeSpace(h: Heap, base: nat, t: nat, runIdle: nat, dirtyIdle: nat)
    requires Consistent(h) && base in h.runs
    ensures
      var g := PurgeRun(h, base, t, runIdle, dirtyIdle);
      g.bump == h.bump && g.space.Keys <= h.space.Keys && forall b :: b in g.space ==> g.space[b] == h.space[b]
  {
    hide Consistent, IdleFree, IdleDirty, Purged, MapBytes;
  }

  /** An address that was unmapped is never mapped again, in any run of the system. */
  lemma {:induction false} DeadForever(trace: seq<State>, steps: seq<Step>, i: nat, j: nat, a: nat)
    requires Execution(trace, steps) && i <= j <= |steps| && Dead(trace[i].heap, a)
    ensures Dead(trace[j].heap, a)
    decreases j
  {
    hide Sound, Guard, Orderly, Do, Starts, Dead;
    if i < j {
      DeadForever(trace, steps, i, j - 1, a);
      StepKeepsDead(trace[j - 1], steps[j - 1], a);
    }
  }

  /** free of a large pointer reads its header once more after unmapping it. Whenever that read comes, and
      whatever the other threads have done meanwhile, the header lies in no mapping. */
  lemma HeaderReadMisses(trace: seq<State>, steps: seq<Step>, i: nat, j: nat, t: nat, a: nat)
    requires Execution(trace, steps) && i < j <= |steps| && steps[i] == Unmap(t)
    requires t in trace[i].threads && trace[i].threads[t].pc.Unmapping?
    requires trace[i].threads[t].pc.base <= a < trace[i].threads[t].pc.base + LARGE_HEADER
    ensures Covered(trace[i].heap, a) && !Covered(trace[j].heap, a)
  {
    hide Starts, Sound, Do, Consistent;
    var s := trace[i];
    assert Guard(s, steps[i]) && Sound(s) && trace[i + 1] == Do(s, steps[i]);
    UnmapNow(s, t);
    SoundHeap(s);
    HeaderDies(s, t, a);
    DeadForever(trace, steps, i + 1, j, a);
  }

  lemma HeaderDies(s: State, t: nat, a: nat)
    requires Sound(s) && Guard(s, Unmap(t)) && Consistent(s.heap) && s.threads[t].pc.base in s.heap.large
    requires s.threads[t].pc.base <= a < s.threads[t].pc.base + LARGE_HEADER
    ensures Covered(s.heap, a) && Dead(Do(s, Unmap(t)).heap, a)
  {
    var base := s.threads[t].pc.base;
    LargeBelow(s.heap, base);
    hide Sound, Consistent, Covered;
    HeaderGone(s.heap, base, a);
  }

  lemma LargeBelow(h: Heap, base: nat)
    requires Consistent(h) && base in h.large
    ensures base + LARGE_HEADER < h.bump
  {
    assert LargeOk(h, base) && RegionOk(h, base);
  }
}
