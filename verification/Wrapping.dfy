/** What the 64-bit arithmetic of large requests can do to the reserve: exactly which steps upset it, and runs
    of the system that do. */
module Wrapping {
  import opened Arith
  import opened SizeClasses
  import opened Options
  import opened Reserve
  import opened HeapSpec
  import opened HeapProofs
  import opened Protocol
  import opened ProtocolInv
  import opened ProtocolHeapSteps
  import opened Guarantees
  import opened Reaching
  import Integrity
  import Timing
  import TrimSweep

  // ---------------------------------------------------------------- exactly which steps

  /** After the step the shared state is consistent, every large region has room for its request, and space once
      consumed is still behind the bump pointer. */
  ghost predicate StaysInOrder(s: State, u: State) { Consistent(u.heap) && Roomy(u.heap) && s.heap.bump <= u.heap.bump }

  /** Of the steps the code may take in a reachable state, exactly the orderly ones leave the reserve in order. */
  lemma OrderlyIff(s: State, st: Step)
    requires Arises(s) && Sound(s) && Guard(s, st)
    ensures Orderly(s, st) <==> StaysInOrder(s, Do(s, st))
  {
    hide Arises, Sound, Consistent, Inv, DoTake, DoMallocLarge, LargeKept, TakeFits;
    var own := ReachableInv(s);
    ArisesConsistent(s);
    InvRoomy(s, own);
    hide Roomy;
    match st {
      case MallocLarge(t, n, mapped) =>
        MapLargeRoomyIff(s.heap, n, mapped);
        LargeHeap(s, n, mapped);
      case Take(t, mapped) => TakeOrderly(s, t, mapped);
      case _ =>
        var after := StepKeeps(s, own, st);
        TrimSweep.InvConsistent(Do(s, st), after);
        InvRoomy(Do(s, st), after);
        OtherBump(s, st);
    }
  }

  lemma InvRoomy(s: State, own: map<Ptr, Place>)
    requires Inv(s, own)
    ensures Roomy(s.heap)
  {
    hide Consistent, Owned, ThreadsOk, LocksOk, TrimSound, HasRoom;
    forall b | b in s.heap.large ensures HasRoom(s.heap.large[b]) {
      assert Issued(s.heap, Large(b));
      assert PtrOk(s, Large(b), own[Large(b)]);
    }
  }

  lemma LargeHeap(s: State, n: nat, mapped: bool)
    ensures DoMallocLarge(s, n, mapped).heap == MapLarge(s.heap, n, mapped).0
  {
    hide MapLarge;
  }

  lemma TakeOrderly(s: State, t: nat, mapped: bool)
    requires Sound(s) && Guard(s, Step.Take(t, mapped)) && Consistent(s.heap) && Roomy(s.heap)
    ensures Orderly(s, Step.Take(t, mapped)) <==> StaysInOrder(s, Do(s, Step.Take(t, mapped)))
  {
    hide Sound, Consistent, TakeBlock, TakeFits, Roomy;
    Timing.InsideClass(s, t);
    TakeKeepsIff(s.heap, s.threads[t].pc.c, s.now, mapped);
    TakeRoomy(s.heap, s.threads[t].pc.c, s.now, mapped);
  }

  /** No other step touches the bump pointer. */
  lemma OtherBump(s: State, st: Step)
    requires Sound(s) && Guard(s, st) && !st.MallocLarge? && !st.Take?
    ensures Do(s, st).heap.bump == s.heap.bump
  {
    hide Sound, Consistent, PurgeRun, UnmapLarge, DoTake, DoGive;
    if ThreadStep(st) {
      Timing.ThreadAside(s, st);
    } else {
      match st {
        case Give(t, stamp) => GiveBump(s, t, stamp);
        case Unmap(t) => UnmapNow(s, t); UnmapBump(s.heap, s.threads[t].pc.base);
        case TrimVisit => VisitBump(s);
        case _ =>
      }
    }
  }

  lemma GiveBump(s: State, t: nat, stamp: nat)
    requires Sound(s) && Guard(s, Give(t, stamp))
    ensures DoGive(s, t, stamp).heap.bump == s.heap.bump
  {
    GivenIssued(s, t);
    hide Sound, Consistent, Issued;
  }

  lemma UnmapBump(h: Heap, base: nat)
    requires base in h.large
    ensures UnmapLarge(h, base).bump == h.bump
  {}

  lemma VisitBump(s: State)
    requires Sound(s) && Guard(s, TrimVisit)
    ensures DoVisit(s).heap.bump == s.heap.bump
  {
    Integrity.SoundHeap(s);
    Integrity.VisitedRun(s);
    hide Sound, Consistent, PurgeRun;
    Integrity.PurgeSpace(s.heap, s.trim.cur.value, s.trim.t, s.runIdle, s.dirtyIdle);
  }

  // ---------------------------------------------------------------- the bump pointer wraps

  /** The request whose rounded size takes the bump pointer back over a region of the given size. */
  function Undoing(mapSize: nat): int { WORD64 - mapSize - LARGE_HEADER }

  /** Two held regions share a byte. */
  ghost predicate Clash(s: State, p: Ptr, q: Ptr, x: nat) {
    && p != q && p in s.held && q in s.held && Issued(s.heap, p) && Issued(s.heap, q)
    && Bytes(s.heap, p).Contains(x) && Bytes(s.heap, q).Contains(x)
  }

  /** They share all of their common range, and it reads as zero. */
  ghost predicate ClashAll(s: State, p: Ptr, q: Ptr, lo: nat, hi: nat) {
    forall x: nat :: lo <= x < hi ==> Clash(s, p, q, x) && s.heap.mem(x) == 0
  }

  /** Three large mallocs, whatever the sizes of the first and the third: the first gets a region; the second is
      refused by mmap and answers null, but moves the bump pointer back over it; the third gets a region inside
      the first, whose bytes there are zeroed. */
  lemma WrapOverlaps(start: nat, size: nat, n: nat, m: nat, now: nat) returns (s: State, u: State, v: State)
    requires now > 0 && 0 < start && start % PAGE == 0 && start + size <= USER_TOP
    requires LARGE_MIN <= n && LargeFits(n) && LargeMapBytes(n) <= size
    requires LARGE_MIN <= m && LargeFits(m) && 2 * PAGE + LargeMapBytes(m) <= size
    ensures LARGE_MIN <= Undoing(LargeMapBytes(n)) < WORD64
    ensures
      var undo := Undoing(LargeMapBytes(n));
      && Arises(s) && Sound(s) && Guard(s, MallocLarge(0, undo, true)) && u == Do(s, MallocLarge(0, undo, true))
      && u.held == s.held && u.heap == s.heap.(bump := u.heap.bump) && u.heap.bump < s.heap.bump
    ensures 0 in u.threads && u.threads[0].pc == Idle && v == DoMallocLarge(u, m, true)
    ensures
      var again := start + 2 * PAGE;
      var lo, hi := again + LARGE_HEADER, Lesser(start + LargeMapBytes(n), again + LargeMapBytes(m));
      lo < hi && ClashAll(v, Large(start), Large(again), lo, hi)
  {
    LargeMapHolds(n);
    LargeMapHolds(m);
    UndoingBytes(n);
    hide Arises, Sound, Consistent, LargeMapBytes, LargeFits, MapLarge, DoMallocLarge, ClashAll, Guard, Do;
    var undo := Undoing(LargeMapBytes(n));
    s := FirstLarge(start, size, n, now);
    ArisesSound(s);
    MovedBack(s.heap, start, n, true);
    u := s.(heap := s.heap.(bump := start + 2 * PAGE));
    Refused(s, undo, u.heap);
    v := DoMallocLarge(u, m, true);
    FitsBoth(m);
    ThirdRegion(u, start, n, m);
  }

  /** A large malloc that answers null. */
  lemma Refused(s: State, n: nat, g: Heap)
    requires Sound(s) && Quiet(s) && LARGE_MIN <= n < WORD64 && MapLarge(s.heap, n, true) == (g, None)
    ensures Guard(s, MallocLarge(0, n, true)) && Do(s, MallocLarge(0, n, true)) == s.(heap := g)
  {
    hide Sound, MapLarge;
  }

  /** The size computed for it, which with the size undone is exactly 2^64. */
  lemma UndoingBytes(n: nat)
    requires LARGE_MIN <= n < WORD64 && LargeFits(n) && LargeMapBytes(n) <= USER_TOP
    ensures LARGE_MIN < LargeMapBytes(n) && LARGE_MIN <= Undoing(LargeMapBytes(n)) < WORD64
    ensures LargeMapBytes(Undoing(LargeMapBytes(n))) == WORD64 - LargeMapBytes(n)
  {
    LargeMapHolds(n);
    hide LargeMapBytes;
    RoundedBytes(WORD64 - LargeMapBytes(n));
  }

  lemma RoundedBytes(size: nat)
    requires size % PAGE == 0 && LARGE_HEADER <= size < WORD64 - PAGE
    ensures LargeMapBytes(size - LARGE_HEADER) == size
  {
    Wraps(size, 0);
    Wraps(size + (PAGE - 1), 0);
    AlignDownUnique(size + (PAGE - 1), size, PAGE);
  }

  /** The bound check passes, because the sum wraps as well; mmap refuses the size. */
  lemma MovedBack(h: Heap, start: nat, n: nat, mapped: bool)
    requires 0 < start && start % PAGE == 0 && LARGE_MIN <= n < WORD64 && LargeFits(n) && LargeMapBytes(n) <= USER_TOP
    requires h.bump == start + LargeMapBytes(n) + PAGE <= USER_TOP + PAGE && start + PAGE <= h.end
    ensures
      var undo := Undoing(LargeMapBytes(n));
      && (Reserve.Place(h.bump, PAGE) + LargeMapBytes(undo)) % WORD64 <= h.end
      && MapLarge(h, undo, mapped) == (h.(bump := start + 2 * PAGE), None)
  {
    UndoingBytes(n);
    LargeMapHolds(n);
    hide LargeMapBytes, LargeFits;
    var size := LargeMapBytes(Undoing(LargeMapBytes(n)));
    PlaceAligned(h.bump, PAGE);
    WrapOnce(h.bump + size);
    WrapOnce(size + PAGE);
    WrapOnce(h.bump + (size + PAGE));
    hide Reserve.Place;
    assert Advance(size, PAGE) == size + PAGE;
    assert NextBump(h.bump, size, PAGE) == start + 2 * PAGE;
  }

  lemma ThirdRegion(u: State, start: nat, n: nat, m: nat)
    requires 0 < start && start % PAGE == 0 && LARGE_MIN <= m && HeaderFits(m) && LARGE_MIN < LargeMapBytes(n)
    requires u.heap.bump == start + 2 * PAGE && LARGE_MIN < LargeMapBytes(m)
    requires start + 2 * PAGE + LargeMapBytes(m) <= u.heap.end <= USER_TOP
    requires Large(start) in u.held && u.heap.large == map[start := LargeHdr(LargeMapBytes(n), n)]
    ensures
      var again := start + 2 * PAGE;
      ClashAll(DoMallocLarge(u, m, true), Large(start), Large(again),
               again + LARGE_HEADER, Lesser(start + LargeMapBytes(n), again + LargeMapBytes(m)))
  {
    hide LargeMapBytes, HeaderFits, MapLarge;
    LargeAt(u.heap, m);
    var v := DoMallocLarge(u, m, true);
    assert v.heap == MapLarge(u.heap, m, true).0;
    forall x: nat |
      start + 2 * PAGE + LARGE_HEADER <= x < Lesser(start + LargeMapBytes(n), start + 2 * PAGE + LargeMapBytes(m))
      ensures Clash(v, Large(start), Large(start + 2 * PAGE), x) && v.heap.mem(x) == 0
    {
      assert Region(start + 2 * PAGE, LargeMapBytes(m)).Contains(x);
    }
  }

  // ---------------------------------------------------------------- the size wraps

  /** Each of the 23 largest requests can succeed as a process's first call: the client then holds a single page
      for it. */
  lemma UndersizedGranted(start: nat, size: nat, n: nat, now: nat) returns (s: State, u: State)
    requires now > 0 && 0 < start && start % PAGE == 0 && PAGE <= size && start + size <= USER_TOP
    requires n < WORD64 && !HeaderFits(n)
    ensures Arises(s) && Sound(s) && Guard(s, MallocLarge(0, n, true)) && u == Do(s, MallocLarge(0, n, true))
    ensures Large(start) in u.held && u.held[Large(start)] == n && Issued(u.heap, Large(start))
    ensures Capacity(u.heap, Large(start)) == PAGE - LARGE_HEADER < n
  {
    s := Begun(start, size, now, 0, 0);
    NeitherFits(n);
    LargeMapHolds(n);
    hide Arises, Sound, Consistent, LargeMapBytes, HeaderFits, LargeFits, MapLarge, Guard, Do;
    BegunArises(start, size, now, 0, 0);
    ArisesSound(s);
    LargeAt(s.heap, n);
    u := s.(heap := MapLarge(s.heap, n, true).0, held := s.held[Large(start) := n]);
    AnsweredWith(s, n, u.heap, start);
  }

  lemma NeitherFits(n: nat)
    requires !HeaderFits(n)
    ensures !LargeFits(n) && n > LARGE_MIN && n > PAGE
  {}

  /** A large malloc that answers with a region. */
  lemma AnsweredWith(s: State, n: nat, g: Heap, base: nat)
    requires Sound(s) && Quiet(s) && LARGE_MIN <= n < WORD64 && MapLarge(s.heap, n, true) == (g, Some(base))
    ensures Guard(s, MallocLarge(0, n, true))
    ensures Do(s, MallocLarge(0, n, true)) == s.(heap := g, held := s.held[Large(base) := n])
  {
    hide Sound, MapLarge;
  }
}
