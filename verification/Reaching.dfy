/** Runs of the system that lead to chosen states: a single thread that fills and frees the blocks of one run,
    and a trimmer that walks up to its class. They show that the failing cases are ones the code can reach. */
module Reaching {
  import opened Arith
  import opened SizeClasses
  import opened Bitmap
  import opened RunSpec
  import opened Options
  import opened Reserve
  import opened HeapSpec
  import opened HeapProofs
  import opened Ownership
  import opened Protocol
  import opened ProtocolInv
  import opened Guarantees
  import opened Progress

  // ---------------------------------------------------------------- the start

  lemma InitialArises(start: nat, size: nat, now: nat, runIdle: nat, dirtyIdle: nat)
    requires now > 0 && start + size <= USER_TOP
    ensures Arises(Initial(start, size, now, runIdle, dirtyIdle))
  {
    hide Sound, Guard, Orderly, Do, Initial;
    var s := Initial(start, size, now, runIdle, dirtyIdle);
    assert Execution([s], []);
  }

  /** Thread 0 is idle and has no cache, and no lock is held. */
  ghost predicate Quiet(s: State) {
    && 0 in s.threads && s.threads[0] == Thread(Idle, None)
    && |s.mu| == NUM_CLASSES && forall d :: 0 <= d < NUM_CLASSES ==> s.mu[d] == None
  }

  /** The start of the system with its first thread. */
  ghost function Begun(start: nat, size: nat, now: nat, runIdle: nat, dirtyIdle: nat): State {
    DoSpawn(Initial(start, size, now, runIdle, dirtyIdle), 0, false)
  }

  lemma BegunArises(start: nat, size: nat, now: nat, runIdle: nat, dirtyIdle: nat)
    requires now > 0 && start + size <= USER_TOP
    ensures Arises(Begun(start, size, now, runIdle, dirtyIdle)) && Quiet(Begun(start, size, now, runIdle, dirtyIdle))
  {
    hide Arises, Sound, EmptyHeap;
    var s := Initial(start, size, now, runIdle, dirtyIdle);
    InitialArises(start, size, now, runIdle, dirtyIdle);
    ArisesSound(s);
    ArisesNext(s, Spawn(0, false));
  }

  // ---------------------------------------------------------------- one run

  /** A run of class c (0-based) whose blocks lo to hi - 1 are taken and all others free. */
  ghost predicate RunTaken(r: RunState, c: nat, lo: nat, hi: nat) {
    && c < NUM_CLASSES && r.cls == c + 1 && r.elem == Size(c + 1) && ValidElem(r.elem)
    && lo <= hi <= Elems(r.elem)
    && forall i: nat :: i in r.free <==> i < Elems(r.elem) && !(lo <= i < hi)
  }

  /** That run is the only one of the heap. */
  ghost predicate OneRun(h: Heap, c: nat, base: nat, lo: nat, hi: nat) {
    && Shape(h) && base in h.runs && RunTaken(h.runs[base], c, lo, hi)
    && forall d :: 0 <= d < NUM_CLASSES ==> h.lists[d] == if d == c then [base] else []
  }

  predicate HeldFor(s: State, b: Block, n: nat) { Small(b) in s.held && s.held[Small(b)] == n }

  /** Clients hold exactly blocks lo to hi - 1 of that run. */
  ghost predicate Ready(s: State, c: nat, base: nat, lo: nat, hi: nat) {
    && Arises(s) && Quiet(s) && c < NUM_CLASSES && OneRun(s.heap, c, base, lo, hi)
    && (lo < hi ==> s.heap.runs[base].fullyFreeAt == 0)
    && forall i: nat :: lo <= i < hi ==> HeldFor(s, Block(base, i), Size(c + 1))
  }

  /** And it was touched just now. */
  ghost predicate Prepared(s: State, c: nat, base: nat, lo: nat, hi: nat) {
    Ready(s, c, base, lo, hi) && s.heap.runs[base].touchedAt == s.now
  }

  /** A request of exactly a class's size goes to that class. */
  lemma OwnSize(c: nat)
    requires c < NUM_CLASSES
    ensures ServedBy(Size(c + 1), c) && Size(c + 1) > 0
  {
    SizeBounds(c + 1);
    forall d | 1 <= d < c + 1 ensures Size(d) < Size(c + 1) { TableSorted(d - 1, c); }
  }

  /** The first block of the first run. */
  lemma FirstTake(h: Heap, c: nat, now: nat)
    requires HasClass(h, c) && Shape(h) && (forall d :: 0 <= d < NUM_CLASSES ==> h.lists[d] == [])
    requires 0 < Reserve.Place(h.bump, RUN_SIZE) && Reserve.Place(h.bump, RUN_SIZE) + 2 * RUN_SIZE <= h.end <= USER_TOP
    ensures
      var (g, b) := TakeBlock(h, c, now, true);
      && TakeFits(h, c) && b.Some? && b.value.idx == 0 && OneRun(g, c, b.value.base, 0, 1)
      && g.runs[b.value.base].touchedAt == now && g.runs[b.value.base].fullyFreeAt == 0
  {
    hide Consistent, Size, MapBytes, Elems, Reserve.Place, NextBump, SumBytes;
    SizeBounds(c + 1);
    MapBytesBounds(Size(c + 1));
    DataBytesBound(Size(c + 1));
    FreshTakenFacts(c + 1, Size(c + 1), now);
    hide FreshTaken;
    var size := MapBytes(Size(c + 1));
    var (g, base) := MapRegion(h, size, RUN_SIZE, true);
    NewRun(g, c, base.value, now);
    TakeKeepsIff(h, c, now, true);
  }

  lemma NewRun(g: Heap, c: nat, base: nat, now: nat)
    requires c < NUM_CLASSES && Shape(g) && (forall d :: 0 <= d < NUM_CLASSES ==> g.lists[d] == [])
    ensures OneRun(AddRun(g, c, base, now), c, base, 0, 1)
  {
    hide Size, Elems, FreshTaken;
    SizeBounds(c + 1);
    DataBytesBound(Size(c + 1));
    FreshTakenFacts(c + 1, Size(c + 1), now);
    assert forall i: nat :: Is(i);
  }

  /** The next block of a run with its first hi blocks taken. */
  lemma NextTake(h: Heap, c: nat, base: nat, hi: nat, now: nat)
    requires HasClass(h, c) && OneRun(h, c, base, 0, hi) && 0 < hi < Elems(Size(c + 1))
    requires h.runs[base].fullyFreeAt == 0
    ensures
      var (g, b) := TakeBlock(h, c, now, true);
      && TakeFits(h, c) && b == Some(Block(base, hi)) && OneRun(g, c, base, 0, hi + 1)
      && g.runs[base].touchedAt == now && g.runs[base].fullyFreeAt == 0
  {
    hide Consistent, Size, Elems;
    var ss := ClassStates(h, c);
    var r := h.runs[base];
    assert h.lists[c][0] == base && ss == [r];
    assert hi in r.free;
    FullIffNoneFree(r);
    assert IsLeast(r.free, Least(r.free)) && Least(r.free) == hi;
    MoreTaken(r, c, 0, hi, now);
  }

  lemma MoreTaken(r: RunState, c: nat, lo: nat, hi: nat, now: nat)
    requires RunTaken(r, c, lo, hi) && r.free != {} && Least(r.free) == hi
    ensures RunTaken(Taken(r, now), c, lo, hi + 1)
  {
    hide Size, Elems;
    assert hi in r.free;
  }

  /** Giving back the first block that is taken. */
  lemma GiveFirst(h: Heap, c: nat, base: nat, lo: nat, hi: nat, touch: nat, stamp: nat)
    requires Consistent(h) && OneRun(h, c, base, lo, hi) && lo < hi && h.runs[base].fullyFreeAt == 0
    ensures Issued(h, Small(Block(base, lo)))
    ensures
      var g := GiveBlock(h, Block(base, lo), touch, stamp);
      && OneRun(g, c, base, lo + 1, hi) && g.runs[base].touchedAt == touch
      && g.runs[base].fullyFreeAt == (if lo + 1 < hi then 0 else stamp)
      && (lo + 1 == hi ==> g.runs[base].used == 0)
  {
    RunIsValid(h, base);
    hide Consistent, Size, Elems, RunTaken;
    LessTaken(h.runs[base], c, lo, hi, touch, stamp);
    Chosen(h.runs[base], c, lo, hi, lo);
    SetOneRun(h, c, base, lo, hi, Given(h.runs[base], lo, touch, stamp), lo + 1, hi);
  }

  lemma RunIsValid(h: Heap, base: nat)
    requires Consistent(h) && base in h.runs
    ensures ValidRun(h.runs[base])
  {
    assert RunOk(h, base);
  }

  lemma Chosen(r: RunState, c: nat, lo: nat, hi: nat, i: nat)
    requires RunTaken(r, c, lo, hi) && lo <= i < hi
    ensures ValidElem(r.elem) && i < Elems(r.elem) && i !in r.free
  {}

  lemma SetOneRun(h: Heap, c: nat, base: nat, lo: nat, hi: nat, r: RunState, from: nat, to: nat)
    requires Consistent(h) && OneRun(h, c, base, lo, hi) && RunTaken(r, c, from, to)
    ensures OneRun(SetRun(h, base, r), c, base, from, to) && SetRun(h, base, r).runs[base] == r
  {
    hide Consistent, Size, Elems, ValidElem;
  }

  lemma LessTaken(r: RunState, c: nat, lo: nat, hi: nat, touch: nat, stamp: nat)
    requires ValidRun(r) && RunTaken(r, c, lo, hi) && lo < hi && r.fullyFreeAt == 0
    ensures
      var g := Given(r, lo, touch, stamp);
      RunTaken(g, c, lo + 1, hi) && (g.used == 0 <==> lo + 1 == hi) &&
      g.fullyFreeAt == (if lo + 1 < hi then 0 else stamp)
  {
    hide Size, Elems;
    var g := Given(r, lo, touch, stamp);
    GivenValid(r, lo, touch, stamp);
    if lo + 1 < hi {
      HeldMeansUsed(g, lo + 1);
    } else {
      BelowSize(Elems(r.elem));
      assert forall i: nat :: Is(i);
      assert g.free == Below(Elems(r.elem));
    }
  }

  // ---------------------------------------------------------------- calls

  /** The first malloc. */
  lemma StartMalloc(size: nat, now: nat, runIdle: nat, dirtyIdle: nat, c: nat) returns (s: State, base: nat)
    requires now > 0 && c < NUM_CLASSES && 2 * RUN_SIZE <= size <= USER_TOP - RUN_SIZE
    ensures Prepared(s, c, base, 0, 1) && s.trim == Asleep && s.now == now
    ensures s.runIdle == runIdle && s.dirtyIdle == dirtyIdle
  {
    hide Arises, Sound, Runs, Consistent, TakeBlock, TakeFits, Size, OneRun, ServedBy, Reserve.Place;
    var s0 := Begun(RUN_SIZE, size, now, runIdle, dirtyIdle);
    BegunArises(RUN_SIZE, size, now, runIdle, dirtyIdle);
    OwnSize(c);
    ArisesConsistent(s0);
    PlaceAligned(RUN_SIZE, RUN_SIZE);
    FirstTake(s0.heap, c, now);
    s := MallocCompletes(s0, 0, Size(c + 1), c, true);
    RunsArise(s0, [MallocSmall(0, Size(c + 1)), Lock(0), Step.Take(0, true), Unlock(0)], s);
    base := TakeBlock(s0.heap, c, now, true).1.value.base;
  }

  /** One more malloc. */
  lemma NextMalloc(s: State, c: nat, base: nat, hi: nat) returns (u: State)
    requires Ready(s, c, base, 0, hi) && 0 < hi < Elems(Size(c + 1))
    ensures Prepared(u, c, base, 0, hi + 1) && u.now == s.now && SameSettings(s, u)
  {
    hide Arises, Sound, Runs, Consistent, TakeBlock, TakeFits, Size, OneRun, ServedBy;
    OwnSize(c);
    ArisesConsistent(s);
    NextTake(s.heap, c, base, hi, s.now);
    u := MallocCompletes(s, 0, Size(c + 1), c, true);
    RunsArise(s, [MallocSmall(0, Size(c + 1)), Lock(0), Step.Take(0, true), Unlock(0)], u);
  }

  /** One free, of the first block still held. */
  lemma FreeFirst(s: State, c: nat, base: nat, lo: nat, hi: nat, stamp: nat) returns (u: State)
    requires Prepared(s, c, base, lo, hi) && lo < hi && s.now <= stamp
    requires Ownership.Reachable(Size(c + 1), lo)
    ensures Arises(u) && Quiet(u) && OneRun(u.heap, c, base, lo + 1, hi) && u.now == stamp && SameSettings(s, u)
    ensures u.held == s.held - {Small(Block(base, lo))}
    ensures
      var r := u.heap.runs[base];
      && r.touchedAt == s.now && r.fullyFreeAt == (if lo + 1 < hi then 0 else stamp)
      && (lo + 1 == hi ==> r.used == 0)
  {
    hide Arises, Sound, Runs, Consistent, GiveBlock, Size, Issued, Ownership.Reachable, Issuing.HeapStep, RunTaken;
    ArisesConsistent(s);
    GiveFirst(s.heap, c, base, lo, hi, s.now, stamp);
    var b := Block(base, lo);
    RunClass(s.heap.runs[base], c, lo, hi);
    assert HeldFor(s, b, Size(c + 1));
    u := FreeCompletes(s, 0, b, c, stamp);
    RunsArise(s, [Step.Free(0, Small(b)), Test(0), Route(0), Lock(0), Give(0, stamp), Unlock(0)], u);
  }

  lemma RunClass(r: RunState, c: nat, lo: nat, hi: nat)
    requires RunTaken(r, c, lo, hi)
    ensures c < NUM_CLASSES && r.cls == c + 1 && r.elem == Size(c + 1) && ValidElem(r.elem)
  {}

  lemma FreeNext(s: State, c: nat, base: nat, lo: nat, hi: nat) returns (u: State)
    requires Prepared(s, c, base, lo, hi) && lo + 1 < hi && Ownership.Reachable(Size(c + 1), lo)
    ensures Prepared(u, c, base, lo + 1, hi) && u.now == s.now && SameSettings(s, u)
  {
    hide Arises, Consistent, Size, OneRun, Ownership.Reachable;
    u := FreeFirst(s, c, base, lo, hi, s.now);
  }

  /** The first k + 1 blocks are taken, and then the first k of them given back. */
  lemma {:induction false} Fill(s: State, c: nat, base: nat, hi: nat, k: nat) returns (u: State)
    requires c < NUM_CLASSES && Prepared(s, c, base, 0, hi) && 0 < hi <= k < Elems(Size(c + 1))
    ensures Prepared(u, c, base, 0, k + 1) && u.now == s.now && SameSettings(s, u)
    decreases k - hi
  {
    hide Ready, Size;
    u := NextMalloc(s, c, base, hi);
    if hi < k {
      u := Fill(u, c, base, hi + 1, k);
    }
  }

  lemma {:induction false} Drain(s: State, c: nat, base: nat, lo: nat, k: nat) returns (u: State)
    requires c < NUM_CLASSES && Prepared(s, c, base, lo, k + 1) && lo <= k
    requires ValidElem(Size(c + 1)) && Ownership.Reachable(Size(c + 1), k)
    ensures Prepared(u, c, base, k, k + 1) && u.now == s.now && SameSettings(s, u)
    decreases k - lo
  {
    hide Prepared, Size;
    u := s;
    if lo < k {
      EarlierReachable(Size(c + 1), lo, k);
      u := FreeNext(s, c, base, lo, k + 1);
      u := Drain(u, c, base, lo + 1, k);
    }
  }

  lemma EarlierReachable(elem: nat, i: nat, k: nat)
    requires ValidElem(elem) && i < k && Ownership.Reachable(elem, k)
    ensures Ownership.Reachable(elem, i)
  {
    BlocksApart(elem, i, k);
  }

  // ---------------------------------------------------------------- the trimmer

  /** The trimmer goes by the classes that have no run. */
  lemma {:induction false} WalkPast(s: State, d: nat, c: nat) returns (u: State)
    requires Arises(s) && Quiet(s) && d <= c < NUM_CLASSES && s.trim.AtClass? && s.trim.c == d
    requires Shape(s.heap) && forall e :: d <= e < c ==> s.heap.lists[e] == []
    ensures Arises(u) && u == s.(trim := AtClass(s.trim.t, c))
    decreases c - d
  {
    hide Arises, Sound, Consistent;
    u := s;
    if d < c {
      ArisesSound(s);
      ArisesNext(s, TrimLock);
      var v := Do(s, TrimLock);
      ArisesNext(v, TrimUnlock);
      var w := Do(v, TrimUnlock);
      assert w.mu == s.mu;
      u := WalkPast(w, d + 1, c);
    }
  }

  /** The trimmer's walk reaches the one run there is. */
  lemma WalkTo(s: State, c: nat, base: nat, lo: nat, hi: nat) returns (u: State)
    requires Arises(s) && Quiet(s) && OneRun(s.heap, c, base, lo, hi) && s.trim.AtClass? && s.trim.c == 0
    ensures Arises(u) && Sound(u) && Guard(u, TrimVisit)
    ensures u.heap == s.heap && u.held == s.held && u.now == s.now && u.trim == Walking(s.trim.t, c, Some(base))
    ensures u.runIdle == s.runIdle && u.dirtyIdle == s.dirtyIdle
  {
    hide Arises, Sound, Consistent, Size, Elems;
    var v := WalkPast(s, 0, c);
    ArisesSound(v);
    ArisesNext(v, TrimLock);
    u := Do(v, TrimLock);
  }

  // ---------------------------------------------------------------- large regions

  /** A process whose first call is a large malloc. */
  lemma FirstLarge(start: nat, size: nat, n: nat, now: nat) returns (s: State)
    requires now > 0 && 0 < start && start % PAGE == 0 && start + size <= USER_TOP
    requires LARGE_MIN <= n && LargeFits(n) && LargeMapBytes(n) <= size
    ensures Arises(s) && Quiet(s) && s.held == map[Large(start) := n]
    ensures s.heap.start == start && s.heap.end == start + size && s.heap.bump == start + LargeMapBytes(n) + PAGE
    ensures s.heap.space == map[start := LargeMapBytes(n)]
    ensures s.heap.large == map[start := LargeHdr(LargeMapBytes(n), n)]
  {
    var s0 := Begun(start, size, now, 0, 0);
    LargeMapHolds(n);
    hide Arises, Sound, Consistent, LargeMapBytes, LargeKept;
    BegunArises(start, size, now, 0, 0);
    ArisesSound(s0);
    LargeAt(s0.heap, n);
    ArisesNext(s0, MallocLarge(0, n, true));
    s := Do(s0, MallocLarge(0, n, true));
  }

  /** A large malloc when the bump pointer is page-aligned and the reserve has room. */
  lemma LargeAt(h: Heap, n: nat)
    requires 0 < h.bump && h.bump % PAGE == 0 && 0 < LargeMapBytes(n) && h.bump + LargeMapBytes(n) <= h.end <= USER_TOP
    ensures
      var (g, base) := MapLarge(h, n, true);
      && base == Some(h.bump) && (HeaderFits(n) ==> LargeKept(h, n, true))
      && g.start == h.start && g.end == h.end && g.bump == h.bump + LargeMapBytes(n) + PAGE
      && g.space == h.space[h.bump := LargeMapBytes(n)] && g.runs == h.runs
      && g.large == h.large[h.bump := LargeHdr(LargeMapBytes(n), n)]
      && g.mem == Zeroed(h.mem, Region(h.bump, LargeMapBytes(n)))
  {
    hide LargeMapBytes, HeaderFits;
    var size := LargeMapBytes(n);
    PlaceAligned(h.bump, PAGE);
    hide Reserve.Place;
    WrapOnce(h.bump + size);
    WrapOnce(size + PAGE);
    BumpFitsIff(h.bump, size, PAGE);
    hide NextBump, BumpFits;
    assert Placed(h.bump, h.end, size, PAGE, true);
  }
}
