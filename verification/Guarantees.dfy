/** What holds in every reachable state, whatever the threads and the trimmer do: the main results about
    the allocator's concurrency. */
module Guarantees {
  import opened Seqs
  import opened SizeClasses
  import opened Bitmap
  import opened RunSpec
  import opened Options
  import opened Reserve
  import opened HeapSpec
  import opened HeapProofs
  import opened Issuing
  import opened Ownership
  import opened Protocol
  import opened ProtocolInv
  import opened ProtocolHeapSteps

  /** A run of the whole system from its start. */
  ghost predicate Execution(trace: seq<State>, steps: seq<Step>) { Trace(trace, steps) && Starts(trace[0]) }

  /** Reachable from the start by steps that leave the reserve in order. */
  ghost predicate Arises(s: State) {
    exists trace, steps :: Execution(trace, steps) && trace[|steps|] == s
  }

  lemma ReachableInv(s: State) returns (own: map<Ptr, Place>)
    requires Arises(s)
    ensures Inv(s, own) && Sound(s)
  {
    hide Inv, Sound, Starts, Guard, Orderly, Do;
    var trace, steps :| Execution(trace, steps) && trace[|steps|] == s;
    own := Reached(trace, steps);
  }

  /** The steps' preconditions hold in every reachable state: all that threads hold or carry is issued, and the
      headers they are about to use, apart from a large pointer's probed and released ones, are live. */
  lemma ArisesSound(s: State)
    requires Arises(s)
    ensures Sound(s)
  {
    hide Sound, Arises;
    var own := ReachableInv(s);
  }

  // ---------------------------------------------------------------- ownership

  /** Every block of every run that is not free in its bitmap, and every large region, is in exactly one
      place: with the client, in one slot of one thread's cache, in one thread's hands, or leaked. Free
      blocks and unmapped memory are in none. */
  lemma ExactlyOnePlace(s: State, p: Ptr)
    requires Arises(s)
    ensures Issued(s.heap, p) <==> exists pl :: InPlace(s, p, pl)
    ensures forall a, b :: InPlace(s, p, a) && InPlace(s, p, b) ==> a == b
  {
    hide Sound, Arises, InPlace, Consistent, Issued, AllOk, ThreadsOk, LocksOk, TrimSound;
    var own := ReachableInv(s);
    if Issued(s.heap, p) {
      assert InPlace(s, p, own[p]);
    }
  }

  /** Two results of malloc that clients hold at the same time share no byte, and each lies in memory that
      is mapped. */
  lemma HeldApart(s: State, p: Ptr, q: Ptr)
    requires Arises(s) && p in s.held && q in s.held && p != q
    ensures Issued(s.heap, p) && Issued(s.heap, q) && Disjoint(Bytes(s.heap, p), Bytes(s.heap, q))
    ensures BaseOf(p) in s.heap.space
    ensures BaseOf(p) <= Addr(s.heap, p) && Addr(s.heap, p) + Capacity(s.heap, p) <= BaseOf(p) + s.heap.space[BaseOf(p)]
  {
    hide Arises, Consistent, Issued, AllOk, ThreadsOk, LocksOk, TrimSound, Disjoint, Bytes, Addr, Capacity;
    var own := ReachableInv(s);
    hide Sound;
    OwnedIssued(s, own, p, Client);
    OwnedIssued(s, own, q, Client);
    Ownership.IssuedApart(s.heap, p, q);
    IssuedInside(s.heap, p);
  }

  /** The block is of the least class that fits and lies in its run's data area; a large region has room
      for the request. */
  lemma HeldFits(s: State, p: Ptr)
    requires Arises(s) && p in s.held
    ensures Issued(s.heap, p) && 1 <= s.held[p] <= Capacity(s.heap, p)
    ensures p.Small? <==> s.held[p] <= 2097152
    ensures p.Small? ==> IsLeastClass(s.held[p], s.heap.runs[p.b.base].cls)
    ensures p.Small? ==>
      var elem := s.heap.runs[p.b.base].elem;
      && p.b.base + DataOffset(Elems(elem)) <= Addr(s.heap, p)
      && Addr(s.heap, p) + elem <= p.b.base + RunBytes(elem)
  {
    hide Arises, Sound, Consistent, AllOk, ThreadsOk, LocksOk, TrimSound, IsLeastClass, Elems, DataOffset,
      RunBytes, BlockOffset;
    var own := ReachableInv(s);
    OwnedIssued(s, own, p, Client);
    match p
    case Small(b) => SmallFits(s.heap, b, s.held[p]);
    case Large(base) => LargeFitsRegion(s.heap, base);
  }

  lemma LargeFitsRegion(h: Heap, base: nat)
    requires base in h.large && HasRoom(h.large[base])
    ensures h.large[base].user <= Capacity(h, Large(base))
  {}

  lemma SmallFits(h: Heap, b: Block, n: nat)
    requires Consistent(h) && Issued(h, Small(b)) && AnswerOk(n, h.runs[b.base].cls)
    ensures n <= h.runs[b.base].elem && IsLeastClass(n, h.runs[b.base].cls)
    ensures
      var elem := h.runs[b.base].elem;
      && b.base + DataOffset(Elems(elem)) <= Addr(h, Small(b))
      && Addr(h, Small(b)) + elem <= b.base + RunBytes(elem)
  {
    assert RunOk(h, b.base);
    hide Consistent, RunOk, Elems, DataOffset, RunBytes, MapBytes, Size, SumUsed;
    BlockInRun(h.runs[b.base].elem, b.idx);
    DataFirst(h.runs[b.base].elem, b.idx);
    assert Size(h.runs[b.base].cls) == h.runs[b.base].elem;
  }

  lemma DataFirst(elem: nat, idx: nat)
    requires ValidElem(elem)
    ensures BlockOffset(elem, idx) >= DataOffset(Elems(elem))
  {}

  /** Slot row c of a cache holds only blocks of class c that free can find again, at most 16 of them,
      and no block twice. */
  lemma CacheHoldsItsClass(s: State, t: nat, c: nat, i: nat, b: Block)
    requires Arises(s) && t in s.threads && ProtocolInv.Has(s.threads[t], Small(b), Slot(c, i))
    ensures |s.threads[t].cache.value| == NUM_CLASSES && |s.threads[t].cache.value[c]| <= 16
    ensures Issued(s.heap, Small(b)) && s.heap.runs[b.base].cls == c + 1
    ensures Ownership.Reachable(s.heap.runs[b.base].elem, b.idx)
    ensures forall at :: ProtocolInv.Has(s.threads[t], Small(b), at) ==> at == Slot(c, i)
  {
    hide Arises, Sound, Consistent, AllOk, OwnsIssued, LocksOk, TrimSound, Ownership.Reachable;
    var own := ReachableInv(s);
    assert ThreadOk(s.threads[t]);
    var p := Small(b);
    assert InPlace(s, p, In(t, Slot(c, i)));
    OwnedIssued(s, own, p, In(t, Slot(c, i)));
    forall at | ProtocolInv.Has(s.threads[t], p, at) ensures at == Slot(c, i) {
      assert InPlace(s, p, In(t, at));
    }
  }

  /** free loses a block only when it starts past the first 2 MiB of its run. */
  lemma LeakedUnreachable(s: State, b: Block)
    requires Arises(s) && b in s.leaked
    ensures Issued(s.heap, Small(b)) && !Ownership.Reachable(s.heap.runs[b.base].elem, b.idx)
  {
    hide Arises, Sound, Consistent, AllOk, OwnsIssued, LocksOk, TrimSound, Ownership.Reachable;
    var own := ReachableInv(s);
    OwnedIssued(s, own, Small(b), Leaked);
  }

  // ---------------------------------------------------------------- no access to unmapped memory

  /** Wherever an issued block is, its run is mapped and not empty, and the header that free reads without
      a lock lies in that mapping. */
  lemma PlacedBlocksMapped(s: State, b: Block, pl: Place)
    requires Arises(s) && InPlace(s, Small(b), pl)
    ensures Issued(s.heap, Small(b)) && s.heap.runs[b.base].used > 0
    ensures b.base in s.heap.space
    ensures b.base <= RunOf(Addr(s.heap, Small(b))) < b.base + s.heap.space[b.base]
  {
    hide Arises, Sound, Consistent, Issued, AllOk, ThreadsOk, LocksOk, TrimSound, RunOf, InPlace, PtrOk;
    var own := ReachableInv(s);
    OwnedIssued(s, own, Small(b), pl);
    ProbeMapped(s.heap, b);
    IssuedUsed(s.heap, b);
  }

  lemma IssuedUsed(h: Heap, b: Block)
    requires Consistent(h) && Issued(h, Small(b))
    ensures h.runs[b.base].used > 0
  {
    assert RunOk(h, b.base);
    HeldMeansUsed(h.runs[b.base], b.idx);
  }

  /** A visit of the trimmer unmaps a run only when none of its blocks is in anybody's hands, and changes
      the place of no block. */
  lemma TrimSparesPlaced(s: State, p: Ptr, pl: Place)
    requires Arises(s) && Guard(s, TrimVisit) && Sound(s)
    requires InPlace(s, p, pl)
    ensures InPlace(Do(s, TrimVisit), p, pl) && Issued(Do(s, TrimVisit).heap, p)
    ensures BaseOf(p) in Do(s, TrimVisit).heap.space
  {
    var own := ReachableInv(s);
    TrimSpares(s, own, p, pl);
  }

  lemma TrimSpares(s: State, own: map<Ptr, Place>, p: Ptr, pl: Place)
    requires Inv(s, own) && Guard(s, TrimVisit) && Sound(s) && InPlace(s, p, pl)
    ensures InPlace(Do(s, TrimVisit), p, pl) && Issued(Do(s, TrimVisit).heap, p)
    ensures BaseOf(p) in Do(s, TrimVisit).heap.space
  {
    hide Consistent, Issued, AllOk, ThreadsOk, LocksOk, PtrOk, PurgeRun;
    OwnedIssued(s, own, p, pl);
    PurgeStep(s.heap, s.trim.cur.value, s.trim.t, s.runIdle, s.dirtyIdle);
    PurgeKeeps(s.heap, s.trim.cur.value, s.trim.t, s.runIdle, s.dirtyIdle);
    IssuedInside(Do(s, TrimVisit).heap, p);
  }

  // ---------------------------------------------------------------- locks

  /** Critical sections of one class exclude each other, the trimmer's walk included. */
  lemma ClassExclusion(s: State, t: nat, u: nat)
    requires Arises(s) && t in s.threads && u in s.threads
    requires Holding(s.threads[t].pc).Some?
    ensures Holding(s.threads[t].pc) == Holding(s.threads[u].pc) ==> t == u
    ensures s.trim.Walking? ==> Holding(s.threads[t].pc) != Some(s.trim.c)
  {
    hide Arises, Sound, Consistent, Issued, AllOk, Owned, OwnsIssued, TrimSound;
    var own := ReachableInv(s);
  }

  // ---------------------------------------------------------------- conservation

  /** The blocks of the listed runs that are in somebody's hands. */
  ghost function InUse(h: Heap, list: seq<nat>): set<Block>
    requires forall b :: b in list ==> b in h.runs && ValidElem(h.runs[b].elem)
  {
    if list == [] then {} else InUseOf(list[0], h.runs[list[0]]) + InUse(h, list[1..])
  }

  ghost function InUseOf(base: nat, r: RunState): set<Block>
    requires ValidElem(r.elem)
  {
    set i | i in Below(Elems(r.elem)) - r.free :: Block(base, i)
  }

  lemma {:induction false} ImageSize(base: nat, idxs: set<nat>)
    ensures |set i | i in idxs :: Block(base, i)| == |idxs|
  {
    if idxs != {} {
      var k :| k in idxs;
      ImageSize(base, idxs - {k});
      assert (set i | i in idxs :: Block(base, i)) == (set i | i in idxs - {k} :: Block(base, i)) + {Block(base, k)};
    } else {
      assert (set i | i in idxs :: Block(base, i)) == {};
    }
  }

  lemma InUseOfSize(base: nat, r: RunState)
    requires ValidRun(r)
    ensures |InUseOf(base, r)| == r.used
  {
    BelowSize(Elems(r.elem));
    ImageSize(base, Below(Elems(r.elem)) - r.free);
    DiffSize(Below(Elems(r.elem)), r.free);
  }

  lemma DiffSize(a: set<nat>, b: set<nat>)
    requires b <= a
    ensures |a - b| == |a| - |b|
  {
    assert a == (a - b) + b;
  }

  lemma {:induction false} InUseMembers(h: Heap, list: seq<nat>, b: Block)
    requires forall x :: x in list ==> x in h.runs && ValidElem(h.runs[x].elem)
    ensures b in InUse(h, list) <==> b.base in list && Issued(h, Small(b))
  {
    if list != [] {
      InUseMembers(h, list[1..], b);
      assert Is(b.idx);
    }
  }

  lemma {:induction false} InUseSize(h: Heap, list: seq<nat>)
    requires Distinct(list) && forall x :: x in list ==> x in h.runs && ValidElem(h.runs[x].elem) && ValidRun(h.runs[x])
    ensures |InUse(h, list)| == SumUsed(States(list, h.runs))
  {
    if list != [] {
      var rest := list[1..];
      forall i, j | 0 <= i < j < |rest| ensures rest[i] != rest[j] { assert list[i + 1] != list[j + 1]; }
      InUseSize(h, rest);
      InUseOfSize(list[0], h.runs[list[0]]);
      forall b | b in InUse(h, rest) ensures b !in InUseOf(list[0], h.runs[list[0]]) {
        InUseMembers(h, rest, b);
      }
      assert States(list, h.runs)[1..] == States(rest, h.runs);
      UnionSize(InUseOf(list[0], h.runs[list[0]]), InUse(h, rest));
    }
  }

  lemma UnionSize<T>(a: set<T>, b: set<T>)
    requires forall x :: x in b ==> x !in a
    ensures |a + b| == |a| + |b|
  {
    assert a * b == {};
  }

  /** live_blocks counts exactly the blocks of the class that are somewhere outside the bitmaps, and the
      two byte counters differ by exactly the bytes now mapped. */
  lemma Conservation(s: State, c: nat) returns (out: set<Block>)
    requires Arises(s) && c < NUM_CLASSES
    ensures Shape(s.heap) && s.heap.live[c] == |out|
    ensures forall b :: b in out <==> (exists pl :: InPlace(s, Small(b), pl)) && b.base in s.heap.lists[c]
    ensures s.heap.mapped == s.heap.freed + SumBytes(s.heap.space)
    ensures s.heap.space.Keys == s.heap.runs.Keys + s.heap.large.Keys
    ensures forall b :: b in s.heap.runs ==>
              ValidElem(s.heap.runs[b].elem) && s.heap.space[b] == MapBytes(s.heap.runs[b].elem)
    ensures forall b :: b in s.heap.large ==> s.heap.space[b] == s.heap.large[b].mapSize
  {
    ArisesConsistent(s);
    LiveCounts(s.heap, c);
    SizesAgree(s.heap);
    hide Arises, Consistent, InPlace;
    out := InUse(s.heap, s.heap.lists[c]);
    forall b ensures b in out <==> (exists pl :: InPlace(s, Small(b), pl)) && b.base in s.heap.lists[c] {
      InUseMembers(s.heap, s.heap.lists[c], b);
      ExactlyOnePlace(s, Small(b));
    }
  }

  lemma ArisesConsistent(s: State)
    requires Arises(s)
    ensures Consistent(s.heap)
  {
    hide Arises, Consistent;
    var own := ReachableInv(s);
  }

  lemma LiveCounts(h: Heap, c: nat)
    requires Consistent(h) && c < NUM_CLASSES
    ensures Shape(h) && forall x :: x in h.lists[c] ==> x in h.runs && ValidElem(h.runs[x].elem)
    ensures h.live[c] == |InUse(h, h.lists[c])|
  {
    ClassFacts(h, c);
    forall x | x in h.lists[c] ensures ValidRun(h.runs[x]) { assert RunOk(h, x); }
    InUseSize(h, h.lists[c]);
  }

  lemma SizesAgree(h: Heap)
    requires Consistent(h)
    ensures h.mapped == h.freed + SumBytes(h.space)
    ensures h.space.Keys == h.runs.Keys + h.large.Keys
    ensures forall b :: b in h.runs ==> ValidElem(h.runs[b].elem) && h.space[b] == MapBytes(h.runs[b].elem)
    ensures forall b :: b in h.large ==> h.space[b] == h.large[b].mapSize
  {
    hide SumBytes, MapBytes, ListOk, LiveOk, RegionOk;
    forall b | b in h.runs ensures ValidElem(h.runs[b].elem) && h.space[b] == MapBytes(h.runs[b].elem) {
      assert RunOk(h, b);
    }
    forall b | b in h.large ensures h.space[b] == h.large[b].mapSize { assert LargeOk(h, b); }
  }
}
