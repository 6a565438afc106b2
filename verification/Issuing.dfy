/** What each operation on the shared state does to the set of issued pointers: taking adds one, giving
    back and unmapping a large region remove one, purging changes none. */
module Issuing {
  import opened Arith
  import opened SizeClasses
  import opened Bitmap
  import opened RunSpec
  import opened Options
  import opened Reserve
  import opened HeapSpec
  import opened HeapProofs

  /** The same kind of memory before and after. */
  ghost predicate SameKind(h: Heap, g: Heap, p: Ptr)
    requires Issued(h, p) && Issued(g, p)
  {
    match p
    case Small(b) => g.runs[b.base].cls == h.runs[b.base].cls && g.runs[b.base].elem == h.runs[b.base].elem
    case Large(base) => g.large[base] == h.large[base]
  }

  /** Everything but `moved` is issued as before. */
  ghost predicate HeapStep(h: Heap, g: Heap, moved: Option<Ptr>) {
    forall p :: Some(p) != moved ==> (Issued(h, p) <==> Issued(g, p)) && (Issued(h, p) ==> SameKind(h, g, p))
  }

  lemma Still(h: Heap, moved: Option<Ptr>)
    ensures HeapStep(h, h, moved)
  {
    hide Issued;
  }

  // ---------------------------------------------------------------- runs

  /** A run in a new state: its own blocks follow the new free set, nothing else moves. */
  lemma SetRunStep(h: Heap, base: nat, r: RunState, moved: Option<Ptr>)
    requires Consistent(h) && base in h.runs
    requires r.cls == h.runs[base].cls && r.elem == h.runs[base].elem
    requires forall i: nat :: Some(Small(Block(base, i))) != moved ==> (i in r.free <==> i in h.runs[base].free)
    ensures HeapStep(h, SetRun(h, base, r), moved)
  {
    hide Consistent, Elems, ValidElem;
    var g := SetRun(h, base, r);
    forall p | Some(p) != moved ensures (Issued(h, p) <==> Issued(g, p)) && (Issued(h, p) ==> SameKind(h, g, p)) {
      if p.Small? && p.b.base == base {
        assert p == Small(Block(base, p.b.idx));
      }
    }
  }

  lemma GiveStep(h: Heap, b: Block, touch: nat, stamp: nat)
    requires Consistent(h) && Issued(h, Small(b))
    ensures
      var g := GiveBlock(h, b, touch, stamp);
      && HeapStep(h, g, Some(Small(b))) && !Issued(g, Small(b))
      && g.lists == h.lists && g.runs.Keys == h.runs.Keys
  {
    var r := Given(h.runs[b.base], b.idx, touch, stamp);
    SetRunStep(h, b.base, r, Some(Small(b)));
    assert b.idx in r.free;
  }

  /** `got` is the one newly issued block, of class c, if any; other classes' lists are untouched. */
  ghost predicate TookOne(h: Heap, g: Heap, c: nat, got: Option<Block>) {
    && (got.None? ==> HeapStep(h, g, None))
    && (got.Some? ==>
          && HeapStep(h, g, Some(Small(got.value))) && !Issued(h, Small(got.value)) && Issued(g, Small(got.value))
          && g.runs[got.value.base].cls == c + 1)
    && h.runs.Keys <= g.runs.Keys && Shape(h) && Shape(g)
    && (forall d :: 0 <= d < NUM_CLASSES && d != c ==> g.lists[d] == h.lists[d])
  }

  lemma TakeStep(h: Heap, c: nat, now: nat, mapped: bool)
    requires HasClass(h, c)
    ensures TookOne(h, TakeBlock(h, c, now, mapped).0, c, TakeBlock(h, c, now, mapped).1)
  {
    var ss := ClassStates(h, c);
    var i := FirstWithRoom(ss);
    ClassFacts(h, c);
    if i < |ss| {
      TakeOldStep(h, c, i, now);
    } else {
      TakeNewStep(h, c, now, mapped);
    }
  }

  lemma TakeOldStep(h: Heap, c: nat, i: nat, now: nat)
    requires HasClass(h, c) && i < |ClassStates(h, c)| && ClassStates(h, c)[i].free != {}
    ensures
      var r := ClassStates(h, c)[i];
      var b := Block(h.lists[c][i], Least(r.free));
      && b.base in h.runs && HeapStep(h, SetRun(h, b.base, Taken(r, now)), Some(Small(b)))
      && !Issued(h, Small(b)) && Issued(SetRun(h, b.base, Taken(r, now)), Small(b))
      && r.cls == c + 1 && r.elem == Size(c + 1)
  {
    hide Consistent, ClassStates, Size, Elems, SetRun, Taken, HeapStep, ValidElem;
    ListedRun(h, c, i);
    var r := ClassStates(h, c)[i];
    TakenValid(r, now);
    TakeFrom(h, h.lists[c][i], r, now);
  }

  lemma ListedRun(h: Heap, c: nat, i: nat)
    requires HasClass(h, c) && i < |ClassStates(h, c)|
    ensures Shape(h) && i < |h.lists[c]|
    ensures
      var base := h.lists[c][i];
      var r := ClassStates(h, c)[i];
      && base in h.runs && h.runs[base] == r && ValidRun(r) && r.cls == c + 1 && r.elem == Size(c + 1)
  {
    ClassFacts(h, c);
    hide Size, ValidRun, SumUsed, MapBytes;
    assert RunOk(h, h.lists[c][i]);
  }

  lemma TakeFrom(h: Heap, base: nat, r: RunState, now: nat)
    requires Consistent(h) && base in h.runs && h.runs[base] == r && ValidRun(r) && r.free != {}
    requires Least(r.free) < Elems(r.elem)
    ensures
      var b := Block(base, Least(r.free));
      var g := SetRun(h, base, Taken(r, now));
      HeapStep(h, g, Some(Small(b))) && !Issued(h, Small(b)) && Issued(g, Small(b))
  {
    hide Consistent, Elems, HeapStep;
    SetRunStep(h, base, Taken(r, now), Some(Small(Block(base, Least(r.free)))));
  }

  /** A region just mapped is nobody's. */
  lemma FreshRegion(h: Heap, size: nat, align: nat, mapped: bool)
    requires Consistent(h) && 0 < align < USER_TOP
    ensures
      var (m, base) := MapRegion(h, size, align, mapped);
      && m.runs == h.runs && m.large == h.large && m.lists == h.lists && m.live == h.live
      && (base.Some? ==> base.value !in h.runs && base.value !in h.large)
  {
    MapRegionSpace(h, size, align, mapped);
    hide MapRegion, RunOk, LargeOk, ListOk, LiveOk, SpaceOk;
  }

  lemma TakeNewStep(h: Heap, c: nat, now: nat, mapped: bool)
    requires HasClass(h, c) && FirstWithRoom(ClassStates(h, c)) == |ClassStates(h, c)|
    ensures TookOne(h, TakeBlock(h, c, now, mapped).0, c, TakeBlock(h, c, now, mapped).1)
  {
    SizeBounds(c + 1);
    FreshRegion(h, MapBytes(Size(c + 1)), RUN_SIZE, mapped);
    ClassFacts(h, c);
    hide Consistent, MapRegion, Size, MapBytes, FirstWithRoom, Issued, AddRun, SameKind, HeapStep, ListOk, LiveOk;
    var (m, base) := MapRegion(h, MapBytes(Size(c + 1)), RUN_SIZE, mapped);
    if base.Some? {
      NewRunStep(h, m, c, base.value, now);
    } else {
      SameIssued(h, m);
    }
  }

  lemma SameIssued(h: Heap, m: Heap)
    requires m.runs == h.runs && m.large == h.large
    ensures HeapStep(h, m, None)
  {
    hide Elems, ValidElem;
  }

  lemma NewRunStep(h: Heap, m: Heap, c: nat, base: nat, now: nat)
    requires c < NUM_CLASSES && base !in h.runs && ValidElem(Size(c + 1)) && Shape(h)
    requires m.runs == h.runs && m.large == h.large && m.lists == h.lists && m.live == h.live
    ensures TookOne(h, AddRun(m, c, base, now), c, Some(Block(base, 0)))
  {
    FreshTakenFacts(c + 1, Size(c + 1), now);
    DataBytesBound(Size(c + 1));
    hide Size, Elems, FreshTaken, ValidElem;
    var g := AddRun(m, c, base, now);
    forall p | Some(p) != Some(Small(Block(base, 0)))
      ensures (Issued(h, p) <==> Issued(g, p)) && (Issued(h, p) ==> SameKind(h, g, p))
    {
      if p.Small? && p.b.base == base {
        NotIssuedInFresh(g, p.b);
      }
    }
  }

  lemma NotIssuedInFresh(g: Heap, b: Block)
    requires b.base in g.runs && ValidElem(g.runs[b.base].elem) && b.idx != 0
    requires g.runs[b.base].free == Below(Elems(g.runs[b.base].elem)) - {0}
    ensures !Issued(g, Small(b))
  {
    assert Is(b.idx);
  }

  lemma PurgeStep(h: Heap, base: nat, t: nat, runIdle: nat, dirtyIdle: nat)
    requires Consistent(h) && base in h.runs
    ensures
      var g := PurgeRun(h, base, t, runIdle, dirtyIdle);
      && HeapStep(h, g, None)
      && h.runs.Keys - {base} <= g.runs.Keys
  {
    var r := h.runs[base];
    var g := PurgeRun(h, base, t, runIdle, dirtyIdle);
    assert RunOk(h, base);
    if IdleFree(r, t, runIdle) {
      DropStep(h, base);
    } else {
      hide Consistent, RunOk, Sub64;
      SetRunStep(h, base, Kept(r, t, dirtyIdle), None);
      MemStep(h, SetRun(h, base, Kept(r, t, dirtyIdle)), g);
    }
  }

  lemma MemStep(h: Heap, k: Heap, g: Heap)
    requires HeapStep(h, k, None) && g == k.(mem := g.mem)
    ensures HeapStep(h, g, None)
  {
    forall p ensures (Issued(h, p) <==> Issued(g, p)) && (Issued(h, p) ==> SameKind(h, g, p)) {
      assert Issued(k, p) <==> Issued(g, p);
    }
  }

  /** An empty run has no issued block. */
  lemma NoneInEmpty(h: Heap, base: nat, i: nat)
    requires Consistent(h) && base in h.runs && h.runs[base].used == 0
    ensures !Issued(h, Small(Block(base, i)))
  {
    assert RunOk(h, base);
    hide Consistent;
    if Issued(h, Small(Block(base, i))) {
      HeldMeansUsed(h.runs[base], i);
    }
  }

  lemma DropStep(h: Heap, base: nat)
    requires Consistent(h) && base in h.runs && h.runs[base].used == 0
    ensures HeapStep(h, DropRun(h, base), None)
  {
    hide *;
    forall i: nat ensures !Issued(h, Small(Block(base, i))) { NoneInEmpty(h, base, i); }
    DropFrame(h, base);
  }

  lemma DropFrame(h: Heap, base: nat)
    requires Consistent(h) && base in h.runs && forall i: nat :: !Issued(h, Small(Block(base, i)))
    ensures HeapStep(h, DropRun(h, base), None)
  {
    hide Consistent, MapBytes, Elems, ValidElem;
    forall p: Ptr ensures p.Small? && p.b.base == base ==> !Issued(h, p) {
      if p.Small? && p.b.base == base { assert p == Small(Block(base, p.b.idx)); }
    }
  }

  // ---------------------------------------------------------------- large regions

  /** `base` is the one newly issued region, if any, and remembers the request. */
  ghost predicate MappedOne(h: Heap, g: Heap, base: Option<nat>, n: nat) {
    && (base.None? ==> HeapStep(h, g, None))
    && (base.Some? ==>
          && HeapStep(h, g, Some(Large(base.value))) && !Issued(h, Large(base.value)) && Issued(g, Large(base.value))
          && g.large[base.value].user == n)
    && g.lists == h.lists && g.runs == h.runs
  }

  lemma MapLargeStep(h: Heap, n: nat, mapped: bool)
    requires Consistent(h)
    ensures MappedOne(h, MapLarge(h, n, mapped).0, MapLarge(h, n, mapped).1, n)
  {
    FreshRegion(h, LargeMapBytes(n), PAGE, mapped);
    hide Consistent, LargeMapBytes, MapRegion, MappedOne, AddLarge;
    var (g, base) := MapRegion(h, LargeMapBytes(n), PAGE, mapped);
    AddLargeStep(h, g, base, n);
  }

  lemma AddLargeStep(h: Heap, g: Heap, base: Option<nat>, n: nat)
    requires g.runs == h.runs && g.large == h.large && g.lists == h.lists
    requires base.Some? ==> base.value !in h.large
    ensures MappedOne(h, if base.None? then g else AddLarge(g, base.value, n), base, n)
  {
    hide LargeMapBytes, Elems, ValidElem;
  }

  lemma UnmapLargeStep(h: Heap, base: nat)
    requires Consistent(h) && base in h.large
    ensures
      var g := UnmapLarge(h, base);
      && HeapStep(h, g, Some(Large(base))) && !Issued(g, Large(base))
      && g.lists == h.lists && g.runs == h.runs
  {
    hide Consistent;
  }
}
