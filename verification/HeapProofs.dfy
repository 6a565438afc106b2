/** Every operation keeps the allocator state consistent, and agrees with the list-level contracts. */
module HeapProofs {
  import opened Arith
  import opened Seqs
  import opened SizeClasses
  import opened Bitmap
  import opened RunSpec
  import opened Options
  import opened Reserve
  import opened HeapSpec

  lemma EmptyConsistent(start: nat, size: nat)
    requires start + size <= USER_TOP
    ensures Consistent(EmptyHeap(start, size))
  {}

  // ---------------------------------------------------------------- regions

  lemma MapRegionSpace(h: Heap, size: nat, align: nat, mapped: bool)
    requires SpaceOk(h) && 0 < align < USER_TOP
    ensures
      var (g, base) := MapRegion(h, size, align, mapped);
      && (SpaceOk(g) && g.bump >= h.bump <==> BumpFits(h.bump, size, align))
      && (base.None? ==> g == h.(bump := g.bump))
      && (base.Some? ==>
            && BumpFits(h.bump, size, align)
            && base.value !in h.space && base.value % align == 0 && size > 0
            && h.bump <= base.value && base.value + size <= h.end
            && g == h.(bump := g.bump, space := h.space[base.value := size],
                       mapped := g.mapped, mem := Zeroed(h.mem, Region(base.value, size))))
  {
    BoundsOf(h);
    BumpFitsIff(h.bump, size, align);
    hide Place, NextBump, BumpFits, Placed, SumBytes, SpaceOk;
    var (g, base) := MapRegion(h, size, align, mapped);
    if base.Some? {
      PlacedFits(h.bump, h.end, size, align, mapped);
      AddRegion(h, g, base.value, size);
    } else if BumpFits(h.bump, size, align) {
      SpaceSame(h, g);
    }
  }

  lemma BoundsOf(h: Heap)
    requires SpaceOk(h)
    ensures h.start <= h.bump < WORD64 && h.end <= USER_TOP
  {
    hide RegionOk, RegionsApart, SumBytes;
  }

  lemma AddRegion(h: Heap, g: Heap, base: nat, size: nat)
    requires SpaceOk(h) && h.bump <= base && base + size <= h.end && 0 < size
    requires g.start == h.start && g.end == h.end && base + size < g.bump < WORD64
    requires g.space == h.space[base := size] && g.mapped == h.mapped + size && g.freed == h.freed
    ensures base !in h.space && SpaceOk(g)
  {
    hide SumBytes;
    assert base in h.space ==> RegionOk(h, base);
    SumBytesAdd(h.space, base, size);
    forall b | b in g.space ensures RegionOk(g, b) {
      if b != base { assert RegionOk(h, b); }
    }
    forall a, b | a in g.space && b in g.space && a < b ensures a + g.space[a] <= b {
      if a != base { assert RegionOk(h, a); }
      if b != base { assert RegionOk(h, b); }
    }
  }

  lemma UnmapRegionSpace(h: Heap, base: nat)
    requires SpaceOk(h) && base in h.space
    ensures SpaceOk(UnmapRegion(h, base, h.space[base]))
  {
    hide SumBytes;
    var g := UnmapRegion(h, base, h.space[base]);
    SumBytesDrop(h.space, base);
    forall b | b in g.space ensures RegionOk(g, b) { assert RegionOk(h, b); }
  }

  // ---------------------------------------------------------------- changing one run

  lemma {:induction false} IndexOf(s: seq<nat>, x: nat) returns (i: nat)
    requires x in s
    ensures i < |s| && s[i] == x
  {
    if s[0] == x { i := 0; } else { i := IndexOf(s[1..], x); i := i + 1; }
  }

  /** The states of one class after one of its runs changes. */
  lemma StatesUpdate(list: seq<nat>, runs: map<nat, RunState>, i: nat, r: RunState)
    requires (forall b :: b in list ==> b in runs) && Distinct(list) && i < |list|
    ensures States(list, runs[list[i] := r]) == States(list, runs)[i := r]
  {}

  lemma StatesElsewhere(list: seq<nat>, runs: map<nat, RunState>, base: nat, r: RunState)
    requires (forall b :: b in list ==> b in runs) && base !in list
    ensures States(list, runs[base := r]) == States(list, runs)
  {}

  lemma RunListed(h: Heap, base: nat) returns (c: nat, i: nat)
    requires Consistent(h) && base in h.runs
    ensures HasClass(h, c) && c == h.runs[base].cls - 1
    ensures i < |h.lists[c]| && h.lists[c][i] == base
    ensures Distinct(h.lists[c]) && |ClassStates(h, c)| == |h.lists[c]| && ClassStates(h, c)[i] == h.runs[base]
    ensures forall d :: 0 <= d < NUM_CLASSES && d != c ==> base !in h.lists[d]
  {
    assert RunOk(h, base);
    c := h.runs[base].cls - 1;
    ClassFacts(h, c);
    i := IndexOf(h.lists[c], base);
    forall d | 0 <= d < NUM_CLASSES && d != c ensures base !in h.lists[d] { ClassFacts(h, d); }
  }

  lemma SetRunKeeps(h: Heap, base: nat, r: RunState)
    requires Consistent(h) && base in h.runs
    requires ValidRun(r) && r.cls == h.runs[base].cls && r.elem == h.runs[base].elem
    ensures Consistent(SetRun(h, base, r))
    ensures forall c :: 0 <= c < NUM_CLASSES ==> HasClass(h, c) && HasClass(SetRun(h, base, r), c)
    ensures forall c, i :: 0 <= c < NUM_CLASSES && 0 <= i < |h.lists[c]| && h.lists[c][i] == base ==>
              ClassStates(SetRun(h, base, r), c) == ClassStates(h, c)[i := r]
    ensures forall c :: 0 <= c < NUM_CLASSES && base !in h.lists[c] ==>
              ClassStates(SetRun(h, base, r), c) == ClassStates(h, c)
  {
    hide SumBytes, SumUsed, ValidRun, SpaceOk, MapBytes, Size;
    var g := SetRun(h, base, r);
    var k, i := RunListed(h, base);
    forall c | 0 <= c < NUM_CLASSES ensures ListOk(g, c) && LiveOk(g, c) {
      ClassFacts(h, c);
      if c == k {
        StatesUpdate(h.lists[c], h.runs, i, r);
        SumUpdate(States(h.lists[c], h.runs), i, r);
      } else {
        StatesElsewhere(h.lists[c], h.runs, base, r);
      }
    }
    forall b | b in g.runs ensures RunOk(g, b) { assert RunOk(h, b); }
    forall b | b in g.large ensures LargeOk(g, b) { assert LargeOk(h, b); }
    SpaceSame(h, g);
  }

  lemma SpaceSame(h: Heap, g: Heap)
    requires SpaceOk(h) && g.space == h.space && g.mapped == h.mapped && g.freed == h.freed
    requires g.start == h.start && g.end == h.end && (h.bump == g.bump || h.bump <= g.bump < WORD64)
    ensures SpaceOk(g)
  {
    forall b | b in g.space ensures RegionOk(g, b) { assert RegionOk(h, b); }
  }

  // ---------------------------------------------------------------- taking and giving

  lemma TakeKeeps(h: Heap, c: nat, now: nat, mapped: bool)
    requires HasClass(h, c) && TakeFits(h, c)
    ensures Consistent(TakeBlock(h, c, now, mapped).0)
  {
    hide Consistent, TakeBlock, TakeFits;
    TakeKeepsIff(h, c, now, mapped);
  }

  /** malloc's critical section keeps the state consistent, and consumed space consumed, exactly when the bump
      pointer does not wrap. */
  lemma TakeKeepsIff(h: Heap, c: nat, now: nat, mapped: bool)
    requires HasClass(h, c)
    ensures
      var (g, b) := TakeBlock(h, c, now, mapped);
      Consistent(g) && h.bump <= g.bump <==> TakeFits(h, c)
    ensures TakeBlock(h, c, now, mapped).1.Some? ==> TakeFits(h, c)
  {
    var ss := ClassStates(h, c);
    var i := FirstWithRoom(ss);
    if i < |ss| {
      FullIffNoneFree(ss[i]);
      TakenValid(ss[i], now);
      TakenCount(ss[i], now);
      SetRunKeeps(h, h.lists[c][i], Taken(ss[i], now));
    } else {
      SizeBounds(c + 1);
      MapBytesBounds(Size(c + 1));
      ConsistentSpace(h);
      MapRegionSpace(h, MapBytes(Size(c + 1)), RUN_SIZE, mapped);
      TakeMapped(h, c, now, mapped);
    }
  }

  lemma TakeMapped(h: Heap, c: nat, now: nat, mapped: bool)
    requires HasClass(h, c) && FirstWithRoom(ClassStates(h, c)) == |ClassStates(h, c)| && ValidElem(Size(c + 1))
    ensures
      var (g, b) := TakeBlock(h, c, now, mapped);
      && (Consistent(g) && h.bump <= g.bump <==> RunBumpFits(h.bump, c))
      && (b.Some? ==> RunBumpFits(h.bump, c))
  {
    ConsistentSpace(h);
    hide Consistent, SumUsed, ValidRun, SpaceOk, Size, NextBump, MapBytes, Elems, FirstWithRoom, BumpFits, Placed,
      Place, ClassStates, AddRun, MapRegion;
    MapRegionSpace(h, MapBytes(Size(c + 1)), RUN_SIZE, mapped);
    var (g, base) := MapRegion(h, MapBytes(Size(c + 1)), RUN_SIZE, mapped);
    if base.Some? {
      AddRunKeeps(h, g, c, base.value, now);
      AddedBump(g, c, base.value, now);
    } else {
      BumpOnly(h, g);
    }
  }

  lemma TakeRoomy(h: Heap, c: nat, now: nat, mapped: bool)
    requires HasClass(h, c) && Roomy(h)
    ensures Roomy(TakeBlock(h, c, now, mapped).0)
  {
    hide Consistent, MapBytes, Size, FirstWithRoom, Placed, HasRoom;
    var ss := ClassStates(h, c);
    if FirstWithRoom(ss) < |ss| {
      FullIffNoneFree(ss[FirstWithRoom(ss)]);
    } else {
      SizeBounds(c + 1);
    }
  }

  lemma AddedBump(g: Heap, c: nat, base: nat, now: nat)
    requires c < NUM_CLASSES && Shape(g)
    ensures AddRun(g, c, base, now).bump == g.bump
  {}

  lemma BumpOnly(h: Heap, g: Heap)
    requires Consistent(h) && g == h.(bump := g.bump)
    ensures Shape(g) && (Consistent(g) <==> SpaceOk(g))
    ensures Consistent(g) ==>
              forall c :: 0 <= c < NUM_CLASSES ==> HasClass(h, c) && ClassStates(g, c) == ClassStates(h, c)
  {
    hide SumBytes, SumUsed, ValidRun, SpaceOk, MapBytes, Size;
    forall c | 0 <= c < NUM_CLASSES ensures ListOk(g, c) && LiveOk(g, c) { ClassFacts(h, c); }
    forall b | b in g.runs ensures RunOk(g, b) { assert RunOk(h, b); }
    forall b | b in g.large ensures LargeOk(g, b) { assert LargeOk(h, b); }
  }

  /** Adding a run to class c, with its region already mapped in `g`. */
  lemma AddRunKeeps(h: Heap, g: Heap, c: nat, base: nat, now: nat)
    requires HasClass(h, c) && SpaceOk(g) && ValidElem(Size(c + 1))
    requires g == h.(bump := g.bump, space := g.space, mapped := g.mapped, mem := g.mem)
    requires base !in h.space && base % RUN_SIZE == 0 && g.space == h.space[base := MapBytes(Size(c + 1))]
    ensures Consistent(AddRun(g, c, base, now))
    ensures ClassStates(AddRun(g, c, base, now), c) ==
            [FreshTaken(c + 1, Size(c + 1), now)] + ClassStates(h, c)
    ensures forall d :: 0 <= d < NUM_CLASSES && d != c ==>
              HasClass(h, d) && ClassStates(AddRun(g, c, base, now), d) == ClassStates(h, d)
  {
    hide SumBytes, SumUsed, ValidRun, SpaceOk, MapBytes, Size, FreshTaken;
    var k := AddRun(g, c, base, now);
    FreshTakenFacts(c + 1, Size(c + 1), now);
    forall d | 0 <= d < NUM_CLASSES ensures ListOk(k, d) && LiveOk(k, d) {
      AddRunClass(h, g, c, base, now, d);
    }
    forall b | b in k.runs ensures RunOk(k, b) {
      if b != base { assert RunOk(h, b); }
    }
    forall b | b in k.large ensures LargeOk(k, b) { assert LargeOk(h, b); }
    SpaceSame(g, k);
    forall d | 0 <= d < NUM_CLASSES && d != c
      ensures HasClass(h, d) && ClassStates(k, d) == ClassStates(h, d)
    {
      AddRunClass(h, g, c, base, now, d);
    }
    AddRunClass(h, g, c, base, now, c);
  }

  lemma AddRunClass(h: Heap, g: Heap, c: nat, base: nat, now: nat, d: nat)
    requires HasClass(h, c) && ValidElem(Size(c + 1)) && d < NUM_CLASSES
    requires g == h.(bump := g.bump, space := g.space, mapped := g.mapped, mem := g.mem)
    requires base !in h.space
    ensures
      var k := AddRun(g, c, base, now);
      && Shape(k) && ListOk(k, d) && LiveOk(k, d)
      && States(k.lists[d], k.runs) ==
         (if d == c then [FreshTaken(c + 1, Size(c + 1), now)] else []) + ClassStates(h, d)
  {
    hide SumBytes, SumUsed, ValidRun, SpaceOk, MapBytes, Size, FreshTaken;
    var r := FreshTaken(c + 1, Size(c + 1), now);
    var k := AddRun(g, c, base, now);
    FreshTakenFacts(c + 1, Size(c + 1), now);
    ClassFacts(h, d);
    assert base !in h.lists[d];
    StatesElsewhere(h.lists[d], h.runs, base, r);
    if d == c {
      assert States(k.lists[d], k.runs) == [r] + States(h.lists[d], h.runs);
      SumConcat([r], States(h.lists[d], h.runs));
      SumOne(r);
    }
  }

  lemma SumOne(r: RunState)
    ensures SumUsed([r]) == r.used
  {}

  lemma FreshTakenFacts(cls: nat, elem: nat, now: nat)
    requires ValidElem(elem)
    ensures ValidRun(FreshTaken(cls, elem, now)) && FreshTaken(cls, elem, now).used == 1
    ensures FreshTaken(cls, elem, now).cls == cls && FreshTaken(cls, elem, now).elem == elem
    ensures FreshTaken(cls, elem, now).free == Below(Elems(elem)) - {0}
    ensures FreshTaken(cls, elem, now).fullyFreeAt == 0 && FreshTaken(cls, elem, now).touchedAt == now
  {
    FreshValid(cls, elem, now);
    FreshCount(cls, elem, now, []);
    TakenValid(Fresh(cls, elem, now), now);
  }

  lemma GiveKeeps(h: Heap, b: Block, touch: nat, stamp: nat)
    requires Consistent(h) && Issued(h, Small(b))
    ensures Consistent(GiveBlock(h, b, touch, stamp))
  {
    var r := h.runs[b.base];
    assert RunOk(h, b.base);
    GivenValid(r, b.idx, touch, stamp);
    SetRunKeeps(h, b.base, Given(r, b.idx, touch, stamp));
  }

  // ---------------------------------------------------------------- agreement with the class lists

  /** The class after malloc's critical section, as ClassState.Allocate leaves it: its states, its list, the
      run the block comes from and the index in it; the other classes as before. */
  ghost predicate TakesAs(h: Heap, c: nat, now: nat, fits: bool, g: Heap, b: Option<Block>)
    requires HasClass(h, c)
  {
    var ss := ClassStates(h, c);
    var i := FirstWithRoom(ss);
    && HasClass(g, c) && ValidElem(Size(c + 1))
    && ClassStates(g, c) == Allocated(ss, c + 1, Size(c + 1), now, fits)
    && (b.Some? <==> i < |ss| || fits)
    && (b.Some? ==> b.value.idx == AllocatedIndex(ss))
    && (i < |ss| ==> i < |h.lists[c]| && b.Some? && b.value.base == h.lists[c][i] && g.lists == h.lists)
    && (i == |ss| && fits ==>
          b.Some? && b.value.base == Place(h.bump, RUN_SIZE) && g.lists == h.lists[c := [b.value.base] + h.lists[c]])
    && (i == |ss| && !fits ==> g.lists == h.lists)
    && (forall d :: 0 <= d < NUM_CLASSES && d != c ==>
          HasClass(h, d) && HasClass(g, d) && ClassStates(g, d) == ClassStates(h, d))
  }

  /** A new run fits in the reserve and mmap agrees. */
  predicate RunFits(h: Heap, c: nat, mapped: bool)
    requires c < NUM_CLASSES
  {
    SizeBounds(c + 1);
    Placed(h.bump, h.end, MapBytes(Size(c + 1)), RUN_SIZE, mapped)
  }

  /** TakeBlock does to its class what ClassState.Allocate does, and nothing to the others. When the bump pointer
      wraps, there is no block and nothing else moves. */
  lemma TakeIsAllocate(h: Heap, c: nat, now: nat, mapped: bool)
    requires HasClass(h, c)
    ensures
      var (g, b) := TakeBlock(h, c, now, mapped);
      if TakeFits(h, c) then TakesAs(h, c, now, RunFits(h, c, mapped), g, b)
      else b == None && g == h.(bump := g.bump) && !RunFits(h, c, mapped)
  {
    if FirstWithRoom(ClassStates(h, c)) < |ClassStates(h, c)| {
      TakeOldRun(h, c, now, mapped);
    } else if RunBumpFits(h.bump, c) {
      TakeNewRun(h, c, now, mapped);
    } else {
      TakeWrapped(h, c, now, mapped);
    }
  }

  lemma TakeWrapped(h: Heap, c: nat, now: nat, mapped: bool)
    requires HasClass(h, c) && FirstWithRoom(ClassStates(h, c)) == |ClassStates(h, c)| && !RunBumpFits(h.bump, c)
    ensures
      var (g, b) := TakeBlock(h, c, now, mapped);
      b == None && g == h.(bump := g.bump) && !RunFits(h, c, mapped)
  {
    SizeBounds(c + 1);
    ConsistentSpace(h);
    NewTakeValue(h, c, now, mapped);
    hide Consistent, SpaceOk, Size, MapBytes, Elems, FirstWithRoom, RunFits, ClassStates, ValidElem, TakeBlock,
      MapRegion, Allocated, AllocatedIndex, BumpFits, FreshTaken, AddRun, Place;
    MapRegionSpace(h, MapBytes(Size(c + 1)), RUN_SIZE, mapped);
  }

  lemma TakeOldRun(h: Heap, c: nat, now: nat, mapped: bool)
    requires HasClass(h, c) && FirstWithRoom(ClassStates(h, c)) < |ClassStates(h, c)|
    ensures
      var (g, b) := TakeBlock(h, c, now, mapped);
      TakesAs(h, c, now, RunFits(h, c, mapped), g, b)
  {
    hide Consistent, SumUsed, Elems, SetRun, Taken, Allocated, AllocatedIndex, FirstWithRoom, TakesAs,
      TakeBlock, RunFits,
      Size, ClassStates;
    SizeBounds(c + 1);
    OldRunFacts(h, c, now);
    OldTakeValue(h, c, now, mapped);
    var i := FirstWithRoom(ClassStates(h, c));
    var r := ClassStates(h, c)[i];
    SetRunKeeps(h, h.lists[c][i], Taken(r, now));
    OnlyInOneList(h, c, i);
    OldRunTakes(h, c, now, RunFits(h, c, mapped), i, SetRun(h, h.lists[c][i], Taken(r, now)));
  }

  /** The run the scan stops at. */
  lemma OldRunFacts(h: Heap, c: nat, now: nat)
    requires HasClass(h, c) && FirstWithRoom(ClassStates(h, c)) < |ClassStates(h, c)|
    ensures
      var i := FirstWithRoom(ClassStates(h, c));
      var r := ClassStates(h, c)[i];
      && Shape(h) && i < |h.lists[c]| && h.lists[c][i] in h.runs && h.runs[h.lists[c][i]] == r
      && r.free != {} && ValidRun(Taken(r, now)) && Taken(r, now).cls == r.cls && Taken(r, now).elem == r.elem
  {
    hide Consistent, SumUsed, Elems;
    ShapeOf(h);
    var i := FirstWithRoom(ClassStates(h, c));
    var r := ClassStates(h, c)[i];
    FullIffNoneFree(r);
    TakenValid(r, now);
    TakenFrame(r, now);
  }

  lemma ShapeOf(h: Heap)
    requires Consistent(h)
    ensures Shape(h)
  {}

  /** What TakeBlock and Allocated compute at that run. */
  lemma OldTakeValue(h: Heap, c: nat, now: nat, mapped: bool)
    requires HasClass(h, c) && FirstWithRoom(ClassStates(h, c)) < |ClassStates(h, c)| && ValidElem(Size(c + 1))
    requires Shape(h) && FirstWithRoom(ClassStates(h, c)) < |h.lists[c]|
    requires h.lists[c][FirstWithRoom(ClassStates(h, c))] in h.runs
    requires ClassStates(h, c)[FirstWithRoom(ClassStates(h, c))].free != {}
    ensures
      var ss := ClassStates(h, c);
      var i := FirstWithRoom(ss);
      && TakeBlock(h, c, now, mapped) ==
         (SetRun(h, h.lists[c][i], Taken(ss[i], now)), Some(Block(h.lists[c][i], AllocatedIndex(ss))))
      && Allocated(ss, c + 1, Size(c + 1), now, RunFits(h, c, mapped)) == ss[i := Taken(ss[i], now)]
  {
    hide Consistent, SumUsed, Elems, ValidRun, SetRun, Taken, Size, MapRegion, FirstWithRoom;
  }

  lemma OldRunTakes(h: Heap, c: nat, now: nat, fits: bool, i: nat, g: Heap)
    requires HasClass(h, c) && ValidElem(Size(c + 1)) && Shape(h)
    requires i == FirstWithRoom(ClassStates(h, c)) < |ClassStates(h, c)| && i < |h.lists[c]|
    requires ClassStates(h, c)[i].free != {} && h.lists[c][i] in h.runs
    requires
      Allocated(ClassStates(h, c), c + 1, Size(c + 1), now, fits) ==
      ClassStates(h, c)[i := Taken(ClassStates(h, c)[i], now)]
    requires g == SetRun(h, h.lists[c][i], Taken(ClassStates(h, c)[i], now))
    requires forall d :: 0 <= d < NUM_CLASSES ==> HasClass(h, d) && HasClass(g, d)
    requires ClassStates(g, c) == ClassStates(h, c)[i := Taken(ClassStates(h, c)[i], now)]
    requires forall d :: 0 <= d < NUM_CLASSES && d != c ==> h.lists[c][i] !in h.lists[d]
    requires forall d :: 0 <= d < NUM_CLASSES && h.lists[c][i] !in h.lists[d] ==> ClassStates(g, d) == ClassStates(h, d)
    ensures TakesAs(h, c, now, fits, g, Some(Block(h.lists[c][i], AllocatedIndex(ClassStates(h, c)))))
  {
    hide Consistent, SumUsed, Elems, ValidRun, Taken, Size, FirstWithRoom, Allocated, AllocatedIndex, ClassStates,
      ValidElem;
  }

  lemma TakeNewRun(h: Heap, c: nat, now: nat, mapped: bool)
    requires HasClass(h, c) && FirstWithRoom(ClassStates(h, c)) == |ClassStates(h, c)| && RunBumpFits(h.bump, c)
    ensures
      var (g, b) := TakeBlock(h, c, now, mapped);
      TakesAs(h, c, now, RunFits(h, c, mapped), g, b)
  {
    SizeBounds(c + 1);
    MapBytesBounds(Size(c + 1));
    ConsistentSpace(h);
    NewTakeValue(h, c, now, mapped);
    hide Consistent, SumUsed, ValidRun, SpaceOk, Size, FreshTaken, NextBump, MapBytes, Elems, FirstWithRoom, RunFits,
      Place, ClassStates, AddRun, ValidElem, TakeBlock, TakesAs, MapRegion, Allocated, AllocatedIndex, BumpFits;
    MapRegionSpace(h, MapBytes(Size(c + 1)), RUN_SIZE, mapped);
    var (g, base) := MapRegion(h, MapBytes(Size(c + 1)), RUN_SIZE, mapped);
    if base.None? {
      BumpOnly(h, g);
      NewRunFails(h, g, c, now);
    } else {
      AddRunKeeps(h, g, c, base.value, now);
      AddedList(g, c, base.value, now);
      NewRunTakes(h, AddRun(g, c, base.value, now), c, now, base.value);
    }
  }

  /** What TakeBlock and Allocated compute when every run is full. */
  lemma NewTakeValue(h: Heap, c: nat, now: nat, mapped: bool)
    requires HasClass(h, c) && FirstWithRoom(ClassStates(h, c)) == |ClassStates(h, c)|
    requires ValidElem(Size(c + 1)) && Shape(h)
    ensures
      var ss := ClassStates(h, c);
      var (g, base) := MapRegion(h, MapBytes(Size(c + 1)), RUN_SIZE, mapped);
      && (base.Some? <==> RunFits(h, c, mapped)) && Shape(g)
      && (base.Some? ==> base.value == Place(h.bump, RUN_SIZE))
      && TakeBlock(h, c, now, mapped) ==
         (if base.None? then (g, None) else (AddRun(g, c, base.value, now), Some(Block(base.value, 0))))
      && AllocatedIndex(ss) == 0
      && Allocated(ss, c + 1, Size(c + 1), now, RunFits(h, c, mapped)) ==
         if base.Some? then [FreshTaken(c + 1, Size(c + 1), now)] + ss else ss
  {
    MapBytesBounds(Size(c + 1));
    hide Consistent, Elems, Size, FirstWithRoom, FreshTaken, AddRun, MapBytes, Placed;
  }

  lemma NewRunFails(h: Heap, g: Heap, c: nat, now: nat)
    requires HasClass(h, c) && ValidElem(Size(c + 1)) && FirstWithRoom(ClassStates(h, c)) == |ClassStates(h, c)|
    requires Consistent(g) && g.lists == h.lists
    requires forall d :: 0 <= d < NUM_CLASSES ==> HasClass(h, d) && ClassStates(g, d) == ClassStates(h, d)
    requires Allocated(ClassStates(h, c), c + 1, Size(c + 1), now, false) == ClassStates(h, c)
    ensures TakesAs(h, c, now, false, g, None)
  {
    hide Consistent, Size, FirstWithRoom, Allocated, ClassStates, ValidElem, Elems, ValidRun;
  }

  lemma NewRunTakes(h: Heap, g: Heap, c: nat, now: nat, base: nat)
    requires HasClass(h, c) && ValidElem(Size(c + 1)) && FirstWithRoom(ClassStates(h, c)) == |ClassStates(h, c)|
    requires Shape(h)
    requires Consistent(g) && g.lists == h.lists[c := [base] + h.lists[c]] && base == Place(h.bump, RUN_SIZE)
    requires ClassStates(g, c) == Allocated(ClassStates(h, c), c + 1, Size(c + 1), now, true)
    requires forall d :: 0 <= d < NUM_CLASSES && d != c ==> HasClass(h, d) && ClassStates(g, d) == ClassStates(h, d)
    requires AllocatedIndex(ClassStates(h, c)) == 0
    ensures TakesAs(h, c, now, true, g, Some(Block(base, 0)))
  {
    hide Consistent, Size, FirstWithRoom, Allocated, AllocatedIndex, ClassStates, ValidElem, Elems, ValidRun, Place;
  }

  lemma AddedList(g: Heap, c: nat, base: nat, now: nat)
    requires c < NUM_CLASSES && Shape(g)
    ensures AddRun(g, c, base, now).lists == g.lists[c := [base] + g.lists[c]]
  {}

  lemma ConsistentSpace(h: Heap)
    requires Consistent(h)
    ensures SpaceOk(h) && Shape(h)
  {}

  lemma TakenFrame(r: RunState, now: nat)
    requires r.free != {}
    ensures Taken(r, now).cls == r.cls && Taken(r, now).elem == r.elem
  {}

  lemma OnlyInOneList(h: Heap, c: nat, i: nat)
    requires HasClass(h, c) && i < |ClassStates(h, c)|
    ensures forall d :: 0 <= d < NUM_CLASSES && d != c ==> HasClass(h, d) && h.lists[c][i] !in h.lists[d]
  {
    hide SumBytes, SumUsed, ValidRun, SpaceOk, Size;
    ClassFacts(h, c);
    forall d | 0 <= d < NUM_CLASSES && d != c ensures h.lists[c][i] !in h.lists[d] { ClassFacts(h, d); }
  }

  // ---------------------------------------------------------------- the trim pass

  lemma DropRunKeeps(h: Heap, base: nat)
    requires Consistent(h) && base in h.runs && h.runs[base].used == 0
    ensures Consistent(DropRun(h, base))
  {
    hide SumBytes, SumUsed, ValidRun, SpaceOk, MapBytes, Size, ListOk, LiveOk, Remove;
    var g := DropRun(h, base);
    assert RunOk(h, base);
    UnmapRegionSpace(h, base);
    forall c | 0 <= c < NUM_CLASSES ensures ListOk(g, c) && LiveOk(g, c) { DropClass(h, base, c); }
    forall b | b in g.runs ensures RunOk(g, b) { DropOther(h, base, b); }
    forall b | b in g.large ensures LargeOk(g, b) { assert LargeOk(h, b); }
    SpaceSame(UnmapRegion(h, base, h.space[base]), g);
  }

  lemma DropClass(h: Heap, base: nat, c: nat)
    requires Consistent(h) && base in h.runs && h.runs[base].used == 0 && c < NUM_CLASSES
    ensures Shape(DropRun(h, base)) && ListOk(DropRun(h, base), c) && LiveOk(DropRun(h, base), c)
  {
    hide SumBytes, SumUsed, ValidRun, SpaceOk, MapBytes, Size;
    var g := DropRun(h, base);
    var k, i := RunListed(h, base);
    RemoveIsRemoveAt(h.lists[k], i);
    ClassFacts(h, c);
    hide Consistent;
    if c == k {
      ListWithout(h, c, i, g.runs);
    } else {
      assert States(h.lists[c], g.runs) == States(h.lists[c], h.runs);
    }
  }

  lemma DropOther(h: Heap, base: nat, b: nat)
    requires Consistent(h) && base in h.runs && b in h.runs && b != base
    ensures Shape(DropRun(h, base)) && RunOk(DropRun(h, base), b)
  {
    hide SumBytes, SumUsed, ValidRun, SpaceOk, MapBytes, Size, ListOk, LiveOk, LargeOk, Remove;
    assert RunOk(h, base) && RunOk(h, b);
    hide Consistent;
    RemoveMember(h.lists[h.runs[b].cls - 1], base, b);
  }

  lemma ListWithout(h: Heap, c: nat, i: nat, runs: map<nat, RunState>)
    requires HasClass(h, c) && i < |h.lists[c]| && Shape(h) && ListOk(h, c)
    requires runs == h.runs - {h.lists[c][i]}
    ensures Distinct(RemoveAt(h.lists[c], i))
    ensures forall b :: b in RemoveAt(h.lists[c], i) ==> b in runs && runs[b].cls == c + 1
    ensures States(RemoveAt(h.lists[c], i), runs) == RemoveAt(ClassStates(h, c), i)
    ensures SumUsed(States(RemoveAt(h.lists[c], i), runs)) == SumUsed(ClassStates(h, c)) - h.runs[h.lists[c][i]].used
  {
    hide SumBytes, SumUsed, ValidRun, SpaceOk, MapBytes, Size, RemoveAt, Consistent;
    var list := h.lists[c];
    RemoveAtDistinct(list, i);
    forall b | b in RemoveAt(list, i) ensures b in runs && runs[b].cls == c + 1 {
      RemoveAtMembers(list, i, b);
    }
    SumRemove(ClassStates(h, c), i);
    forall k | 0 <= k < |list| - 1
      ensures States(RemoveAt(list, i), runs)[k] == RemoveAt(ClassStates(h, c), i)[k]
    {
      RemoveAtIndex(list, i, k);
      RemoveAtIndex(ClassStates(h, c), i, k);
    }
    assert States(RemoveAt(list, i), runs) == RemoveAt(ClassStates(h, c), i);
  }

  lemma MemOnly(h: Heap, mem: nat -> bv8)
    requires Consistent(h)
    ensures Consistent(h.(mem := mem))
  {
    hide SumBytes, SumUsed, ValidRun, MapBytes, Size;
    var g := h.(mem := mem);
    SameRuns(h, g);
    forall b | b in g.large ensures LargeOk(g, b) { assert LargeOk(h, b); }
    SpaceSame(h, g);
  }

  lemma PurgeKeeps(h: Heap, base: nat, t: nat, runIdle: nat, dirtyIdle: nat)
    requires Consistent(h) && base in h.runs
    ensures Consistent(PurgeRun(h, base, t, runIdle, dirtyIdle))
  {
    var r := h.runs[base];
    assert RunOk(h, base);
    if IdleFree(r, t, runIdle) {
      DropRunKeeps(h, base);
    } else {
      KeptValid(r, t, dirtyIdle);
      SetRunKeeps(h, base, Kept(r, t, dirtyIdle));
      MemOnly(SetRun(h, base, Kept(r, t, dirtyIdle)),
              if IdleDirty(r, t, dirtyIdle) then Purged(h.mem, base, r) else h.mem);
    }
  }

  // ---------------------------------------------------------------- large regions

  /** A large malloc keeps the state consistent, and consumed space consumed, exactly when it gets a region or the
      bump pointer does not wrap. The region has room for the request exactly when that is not one of the 23
      largest, whose size wraps to a single page. */
  lemma MapLargeKeepsIff(h: Heap, n: nat, mapped: bool)
    requires Consistent(h) && LARGE_MIN <= n < WORD64
    ensures
      var (g, base) := MapLarge(h, n, mapped);
      && (Consistent(g) && h.bump <= g.bump <==> base.Some? || BumpFits(h.bump, LargeMapBytes(n), PAGE))
      && (base.Some? ==> base.value in g.large && (HasRoom(g.large[base.value]) <==> HeaderFits(n)))
  {
    LargeMapHolds(n);
    ConsistentSpace(h);
    hide Consistent, SumBytes, SumUsed, ValidRun, SpaceOk, MapBytes, Size, LargeMapBytes, MapRegion, LargeFits,
      HeaderFits, BumpFits;
    MapRegionSpace(h, LargeMapBytes(n), PAGE, mapped);
    var (g, base) := MapRegion(h, LargeMapBytes(n), PAGE, mapped);
    if base.None? {
      BumpOnly(h, g);
    } else {
      FitsBoth(n);
      WholePage(LargeMapBytes(n));
      AddHeaderKeeps(h, g, base.value, LargeHdr(LargeMapBytes(n), n));
    }
  }

  /** So a state whose large regions have room stays one exactly when the call is harmless. */
  lemma MapLargeRoomyIff(h: Heap, n: nat, mapped: bool)
    requires Consistent(h) && Roomy(h) && LARGE_MIN <= n < WORD64
    ensures
      var g := MapLarge(h, n, mapped).0;
      Consistent(g) && Roomy(g) && h.bump <= g.bump <==> LargeKept(h, n, mapped)
  {
    MapLargeKeepsIff(h, n, mapped);
    MapLargeHeaders(h, n, mapped);
    hide Consistent, MapLarge, HeaderFits, BumpFits, LargeMapBytes, HasRoom;
    var (g, base) := MapLarge(h, n, mapped);
    if base.Some? && HeaderFits(n) {
      forall b | b in g.large ensures HasRoom(g.large[b]) {
        if b != base.value { assert b in h.large; }
      }
    }
  }

  lemma MapLargeHeaders(h: Heap, n: nat, mapped: bool)
    ensures
      var (g, base) := MapLarge(h, n, mapped);
      g.large == if base.None? then h.large else h.large[base.value := LargeHdr(LargeMapBytes(n), n)]
  {
    hide LargeMapBytes, Placed;
  }

  lemma FitsBoth(n: nat)
    ensures LargeFits(n) ==> HeaderFits(n)
  {}

  lemma WholePage(size: nat)
    requires size % PAGE == 0 && size > 0
    ensures size >= LARGE_HEADER
  {}

  lemma MapLargeKeeps(h: Heap, n: nat, mapped: bool)
    requires Consistent(h) && LARGE_MIN <= n < WORD64 && LargeKept(h, n, mapped)
    ensures
      var (g, base) := MapLarge(h, n, mapped);
      Consistent(g) && h.bump <= g.bump && (base.Some? ==> base.value in g.large && HasRoom(g.large[base.value]))
  {
    hide Consistent, MapLarge, HeaderFits, BumpFits, LargeMapBytes, HasRoom;
    MapLargeKeepsIff(h, n, mapped);
  }

  lemma AddHeaderKeeps(h: Heap, g: Heap, base: nat, hdr: LargeHdr)
    requires Consistent(h) && SpaceOk(g)
    requires g == h.(bump := g.bump, space := g.space, mapped := g.mapped, mem := g.mem)
    requires base !in h.space && base % PAGE == 0 && g.space == h.space[base := hdr.mapSize]
    requires LARGE_HEADER <= hdr.mapSize
    ensures Consistent(g.(large := g.large[base := hdr]))
  {
    hide SumBytes, SumUsed, ValidRun, SpaceOk, MapBytes, Size;
    var k := g.(large := g.large[base := hdr]);
    SameRuns(h, k);
    forall b | b in k.large ensures LargeOk(k, b) {
      if b != base { assert LargeOk(h, b); }
    }
    SpaceSame(g, k);
  }

  /** Runs, lists and counters untouched, and no run's mapping changed. */
  lemma SameRuns(h: Heap, k: Heap)
    requires Consistent(h) && k.runs == h.runs && k.lists == h.lists && k.live == h.live
    requires forall b :: b in h.runs ==> b in k.space && b in h.space && k.space[b] == h.space[b]
    ensures Shape(k) && (forall b :: b in k.runs ==> RunOk(k, b))
    ensures forall c :: 0 <= c < NUM_CLASSES ==> ListOk(k, c) && LiveOk(k, c)
  {
    hide SumBytes, SumUsed, ValidRun, SpaceOk, MapBytes, Size;
    forall c | 0 <= c < NUM_CLASSES ensures ListOk(k, c) && LiveOk(k, c) { ClassFacts(h, c); }
    forall b | b in k.runs ensures RunOk(k, b) { assert RunOk(h, b); }
  }

  lemma UnmapLargeKeeps(h: Heap, base: nat)
    requires Consistent(h) && base in h.large
    ensures Consistent(UnmapLarge(h, base))
  {
    hide SumBytes, SumUsed, ValidRun, SpaceOk, MapBytes, Size;
    var k := UnmapLarge(h, base);
    assert LargeOk(h, base);
    UnmapRegionSpace(h, base);
    SameRuns(h, k);
    forall b | b in k.large ensures LargeOk(k, b) { assert LargeOk(h, b); }
    SpaceSame(UnmapRegion(h, base, h.space[base]), k);
  }
}
