/** Exactly what malloc, calloc and realloc answer, read off the heap they are called on and what mmap would say. */
module Answers {
  import opened Arith
  import opened SizeClasses
  import opened RunSpec
  import opened Options
  import opened Reserve
  import opened HeapSpec
  import opened HeapProofs
  import opened Issuing
  import opened Ownership
  import opened Api
  import Protocol

  // ---------------------------------------------------------------- a class

  /** No run of the class has a free block. */
  ghost predicate NoneFree(h: Heap, cls: nat)
    requires Shape(h) && ValidClass(cls)
  {
    forall b :: b in h.lists[cls - 1] ==> b in h.runs && h.runs[b].free == {}
  }

  /** The run at position i of the list is the first that has one. */
  ghost predicate FirstFree(h: Heap, cls: nat, i: nat)
    requires Shape(h) && ValidClass(cls)
  {
    var list := h.lists[cls - 1];
    && i < |list| && list[i] in h.runs && h.runs[list[i]].free != {}
    && forall j :: 0 <= j < i ==> list[j] in h.runs && h.runs[list[j]].free == {}
  }

  /** Block b is the least free one of that run. */
  ghost predicate LeastOf(h: Heap, cls: nat, i: nat, b: Block)
    requires Shape(h) && ValidClass(cls) && FirstFree(h, cls, i)
  {
    b.base == h.lists[cls - 1][i] && IsLeast(h.runs[b.base].free, b.idx)
  }

  /** No run of the class can be mapped. */
  ghost predicate NoRun(h: Heap, cls: nat, mapped: bool)
    requires ValidClass(cls)
  {
    SizeBounds(cls);
    !Placed(h.bump, h.end, MapBytes(Size(cls)), 2097152, mapped)
  }

  /** The critical section takes the least free block of the first run that has one; when none has, block 0 of a new
      run, if one can be mapped. */
  lemma TakeAnswer(h: Heap, cls: nat, now: nat, mapped: bool)
    requires Shape(h) && ValidClass(cls) && HasClass(h, cls - 1)
    ensures
      var b := TakeBlock(h, cls - 1, now, mapped).1;
      && (b == None <==> NoneFree(h, cls) && NoRun(h, cls, mapped))
      && (NoneFree(h, cls) && !NoRun(h, cls, mapped) ==> b == Some(Block(Reserve.Place(h.bump, 2097152), 0)))
      && (forall i: nat :: FirstFree(h, cls, i) ==> b.Some? && LeastOf(h, cls, i, b.value))
  {
    var c := cls - 1;
    TakeIsAllocate(h, c, now, mapped);
    ScanStops(h, cls);
    hide Consistent, TakeBlock, TakeFits, ClassStates, FirstWithRoom, Allocated, Size, Reserve.Place, Placed, FirstFree,
      LeastOf, NoneFree;
    OneFirst(h, cls);
  }

  /** The first run with a free block is one run, and there is one unless none is free. */
  lemma OneFirst(h: Heap, cls: nat)
    requires Shape(h) && ValidClass(cls)
    ensures forall i: nat, j: nat :: FirstFree(h, cls, i) && FirstFree(h, cls, j) ==> i == j
    ensures NoneFree(h, cls) ==> forall i: nat :: !FirstFree(h, cls, i)
    ensures (exists i: nat :: FirstFree(h, cls, i)) ==> !NoneFree(h, cls)
  {
    forall i: nat | FirstFree(h, cls, i) ensures !NoneFree(h, cls) {
      assert h.lists[cls - 1][i] in h.lists[cls - 1];
    }
  }

  /** The scan in terms of free blocks. */
  lemma ScanStops(h: Heap, cls: nat)
    requires Shape(h) && ValidClass(cls) && HasClass(h, cls - 1)
    ensures
      var ss := ClassStates(h, cls - 1);
      var i := FirstWithRoom(ss);
      && |ss| == |h.lists[cls - 1]| && AllValid(ss)
      && (i < |ss| ==> FirstFree(h, cls, i) && LeastOf(h, cls, i, Block(h.lists[cls - 1][i], AllocatedIndex(ss))))
      && (i == |ss| ==> NoneFree(h, cls) && AllocatedIndex(ss) == 0)
  {
    var ss := ClassStates(h, cls - 1);
    hide Consistent, Elems, ClassStates;
    forall j | 0 <= j < |ss| ensures ss[j].used == Elems(ss[j].elem) <==> ss[j].free == {} { FullIffNoneFree(ss[j]); }
  }

  // ---------------------------------------------------------------- malloc

  /** There is no memory for a request of n bytes: its class has no free block and no run for it can be mapped, or no
      region of its own can be mapped. */
  ghost predicate NoMemory(h: Heap, n: nat, mapped: bool)
    requires Shape(h)
  {
    var m := if n == 0 then 1 else n;
    if m > 2097152 then !Placed(h.bump, h.end, LargeMapBytes(m), 4096, mapped)
    else forall cls: nat :: IsLeastClass(m, cls) ==> NoneFree(h, cls) && NoRun(h, cls, mapped)
  }

  lemma OwnClass(m: nat) returns (cls: nat)
    requires m < LARGE_MIN
    ensures ValidClass(cls) && cls == ClassFor(m) && IsLeastClass(m, cls)
    ensures forall d: nat :: IsLeastClass(m, d) ==> d == cls
  {
    cls := ClassFor(m);
    forall d: nat | IsLeastClass(m, d) ensures d == cls { LeastClassUnique(m, d, cls); }
  }

  /** A small malloc hands out the least free block of the first run of its class that has one, its class being the
      least that holds max(n, 1) bytes; failing that, block 0 of a run mapped at the next 2 MiB boundary. */
  lemma MallocPicks(h: Heap, n: nat, env: Env, cls: nat)
    requires Consistent(h) && n <= 2097152 && IsLeastClass(if n == 0 then 1 else n, cls)
    ensures ValidClass(cls) && Shape(h)
    ensures
      var reply := Malloc(h, n, env).1;
      && (forall i: nat :: FirstFree(h, cls, i) ==> reply.Got? && reply.p.Small? && LeastOf(h, cls, i, reply.p.b))
      && (NoneFree(h, cls) && !NoRun(h, cls, env.mapped) ==>
            reply == Got(Small(Block(Reserve.Place(h.bump, 2097152), 0))))
      && (reply == Null <==> NoneFree(h, cls) && NoRun(h, cls, env.mapped))
  {
    ShapeOf(h);
    assert ValidClass(cls) && HasClass(h, cls - 1);
    hide Consistent, Malloc, TakeBlock, NoRun, NoneFree, FirstFree, LeastOf, IsLeastClass, Reserve.Place;
    SmallReply(h, n, env, cls);
    TakeAnswer(h, cls, env.now, env.mapped);
  }

  lemma SmallReply(h: Heap, n: nat, env: Env, cls: nat)
    requires Consistent(h) && n <= 2097152 && IsLeastClass(if n == 0 then 1 else n, cls) && HasClass(h, cls - 1)
    ensures
      var b := TakeBlock(h, cls - 1, env.now, env.mapped).1;
      Malloc(h, n, env).1 == if b.Some? then Got(Small(b.value)) else Null
  {
    hide Consistent, TakeBlock;
    var m := if n == 0 then 1 else n;
    LeastClassUnique(m, cls, ClassFor(m));
  }

  /** A large malloc hands out a region at the next page boundary when it can be mapped there. */
  lemma MallocPlaces(h: Heap, n: nat, env: Env)
    requires Consistent(h) && 2097152 < n < WORD64
    ensures Malloc(h, n, env).1 ==
            if Placed(h.bump, h.end, LargeMapBytes(n), 4096, env.mapped) then Got(Large(Reserve.Place(h.bump, 4096)))
            else Null
  {
    hide Consistent, LargeMapBytes, Placed, Reserve.Place;
  }

  /** malloc answers null exactly when there is none. */
  lemma MallocNullIff(h: Heap, n: nat, env: Env)
    requires Consistent(h) && n < WORD64
    ensures Shape(h) && (Malloc(h, n, env).1 == Null <==> NoMemory(h, n, env.mapped))
  {
    ShapeOf(h);
    hide Consistent, Malloc, LargeMapBytes, Placed, NoRun, NoneFree, FirstFree, LeastOf, IsLeastClass, Reserve.Place;
    var m := if n == 0 then 1 else n;
    if m <= 2097152 {
      var cls := OwnClass(m);
      MallocPicks(h, n, env, cls);
    } else {
      MallocPlaces(h, n, env);
    }
  }

  // ---------------------------------------------------------------- calloc and realloc

  /** calloc answers null exactly when the product overflows or there is no memory for it. */
  lemma CallocNullIff(h: Heap, count: nat, size: nat, env: Env)
    requires Consistent(h)
    ensures Shape(h)
    ensures Calloc(h, count, size, env).1 == Null <==>
            count * size >= 0x1_0000_0000_0000_0000 || NoMemory(h, count * size, env.mapped)
  {
    ShapeOf(h);
    hide Consistent, Malloc, NoMemory;
    if count * size < WORD64 {
      MallocNullIff(h, count * size, env);
      MallocAnswers(h, count * size, env);
    }
  }

  /** realloc of a null pointer keeps malloc's promise exactly when its answer is harmless, and answers null exactly
      when there is no memory. */
  lemma ReallocOfNull(h: Heap, n: nat, env: Env, later: Env)
    requires Consistent(h) && Roomy(h) && n < WORD64
    ensures Shape(h)
    ensures
      var (g, reply) := Realloc(h, None, n, env, later);
      && (Granted(h, g, n, reply) <==> Harmless(h, n, reply))
      && (reply == Null <==> NoMemory(h, n, env.mapped))
  {
    ShapeOf(h);
    hide Consistent, Roomy, Malloc, NoMemory, Granted, Harmless;
    MallocGrantsIff(h, n, env);
    MallocNullIff(h, n, env);
  }

  /** realloc of a block that free can find stays in place when the new size fits and uses more than half of a size
      below the large threshold; else it answers null exactly when there is no memory. */
  lemma ReallocNullIff(h: Heap, p: Ptr, n: nat, env: Env, later: Env)
    requires Consistent(h) && Issued(h, p) && 0 < n < WORD64
    ensures Shape(h)
    ensures
      var (g, reply) := Realloc(h, Some(p), n, env, later);
      && (reply == Delegated <==> Unreachable(h, p))
      && (!Unreachable(h, p) ==>
            var had := OldSize(h, p);
            var stays := n <= had && had < 2097153 && n > had / 2;
            (reply == Got(p) <==> stays) && (reply == Null <==> !stays && NoMemory(h, n, env.mapped)))
  {
    ShapeOf(h);
    hide Consistent, Issued, Malloc, Realloc, NoMemory, OldSize, Unreachable, Capacity, OthersKept, NothingNew,
      HeaderFits, IsLeastClass;
    ReallocReply(h, p, n, env, later);
    MallocNullIff(h, n, env);
    MallocAnswers(h, n, env);
  }

  lemma ReallocReply(h: Heap, p: Ptr, n: nat, env: Env, later: Env)
    requires Consistent(h) && Issued(h, p) && 0 < n < WORD64
    ensures
      Realloc(h, Some(p), n, env, later).1 ==
      if Unreachable(h, p) then Delegated
      else if StaysPut(OldSize(h, p), n) then Got(p)
      else Malloc(h, n, env).1
  {
    Recognised(h, p);
    MallocAnswers(h, n, env);
    hide Consistent, Issued, Malloc, MovedTo, OldSize, Unreachable, RouteOf, Addr, StaysPut, Answered;
    NeverDelegated(h, n, env);
  }

  lemma NeverDelegated(h: Heap, n: nat, env: Env)
    requires Consistent(h)
    ensures !Malloc(h, n, env).1.Delegated?
  {
    hide Consistent, TakeBlock, MapLarge;
  }

  /** realloc to zero answers null exactly when there is no memory for one byte once the block is freed. */
  lemma ReallocZeroNullIff(h: Heap, p: Ptr, env: Env, later: Env)
    requires Consistent(h) && Issued(h, p)
    ensures
      var mid := Free(h, p, env);
      Shape(mid) && (Realloc(h, Some(p), 0, env, later).1 == Null <==> NoMemory(mid, 1, later.mapped))
  {
    FreeReleases(h, p, env);
    hide Consistent, Issued, Malloc, NoMemory, Free, OthersKept, NothingNew, Unreachable;
    MallocNullIff(Free(h, p, env), 1, later);
  }
}
