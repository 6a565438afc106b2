/** malloc, free, calloc and realloc as one thread sees them when nothing interferes: results, contents,
    and what is released. Threads have no cache here. */
module Api {
  import opened Arith
  import opened SizeClasses
  import opened RunSpec
  import opened Options
  import opened Reserve
  import opened HeapSpec
  import opened HeapProofs
  import opened Issuing
  import opened Ownership
  import opened Integrity
  import Protocol
  import ProtocolSteps

  /** What a call observes from outside: the clock, twice, and whether mmap agrees. */
  datatype Env = Env(now: nat, stamp: nat, mapped: bool)

  /** Delegated: the pointer is handed to the C library's own function. */
  datatype Reply = Got(p: Ptr) | Null | Delegated

  // ---------------------------------------------------------------- the calls

  ghost function Malloc(h: Heap, n: nat, env: Env): (Heap, Reply)
    requires Consistent(h)
  {
    var m := Protocol.Asked(n);
    if m >= LARGE_MIN then
      var (g, base) := MapLarge(h, m, env.mapped);
      (g, if base.Some? then Got(Large(base.value)) else Null)
    else
      var (g, b) := TakeBlock(h, ClassFor(m) - 1, env.now, env.mapped);
      (g, if b.Some? then Got(Small(b.value)) else Null)
  }

  ghost function Free(h: Heap, p: Ptr, env: Env): Heap
    requires Consistent(h) && Issued(h, p)
  {
    RouteAgrees(h, p);
    match RouteOf(h, Addr(h, p))
    case ToRun(base) => GiveBlock(h, Protocol.BlockAt(h, base, Addr(h, p)), env.now, env.stamp)
    case ToLarge(base) => UnmapLarge(h, base)
    case Unrecognised => h
  }

  /** The route taken is the one the pointer was made for. */
  lemma RouteAgrees(h: Heap, p: Ptr)
    requires Consistent(h) && Issued(h, p)
    ensures
      match RouteOf(h, Addr(h, p))
      case ToRun(base) =>
        && p.Small? && base == p.b.base
        && OursSmall(h, Addr(h, p)) && Protocol.BlockAt(h, base, Addr(h, p)) == p.b
      case ToLarge(base) => p == Large(base) && base in h.large
      case Unrecognised => true
    ensures p.Large? ==> RouteOf(h, Addr(h, p)) == ToLarge(p.base)
    ensures p.Small? ==>
      RouteOf(h, Addr(h, p)) == if Reachable(h.runs[p.b.base].elem, p.b.idx) then ToRun(p.b.base) else Unrecognised
  {
    hide Consistent, RouteOf, Addr, Reachable, Protocol.BlockAt, OursSmall;
    match p
    case Large(base) => LargeRoute(h, base);
    case Small(b) =>
      SmallRoute(h, b);
      if Reachable(h.runs[b.base].elem, b.idx) { ProtocolSteps.BlockAtAddress(h, b); }
  }

  /** What realloc reads as the old size: the class size, or the size a large block was asked for. */
  ghost function OldSize(h: Heap, p: Ptr): nat
    requires Issued(h, p)
  {
    match p
    case Small(b) => h.runs[b.base].elem
    case Large(base) => h.large[base].user
  }

  ghost function Byte(h: Heap, p: Ptr, k: nat): bv8
    requires Issued(h, p)
  {
    h.mem(Addr(h, p) + k)
  }

  /** The first `len` bytes of r in g are those of p in h. */
  ghost predicate SamePrefix(h: Heap, p: Ptr, g: Heap, r: Ptr, len: nat)
    requires Issued(h, p) && Issued(g, r)
  {
    forall k: nat :: k < len ==> Byte(g, r, k) == Byte(h, p, k)
  }

  ghost function CopiedMem(mem: nat -> bv8, dst: nat, src: nat, len: nat): nat -> bv8 {
    (x: nat) => if dst <= x < dst + len then mem(src + (x - dst)) else mem(x)
  }

  function Min(a: nat, b: nat): nat { if a < b then a else b }

  /** realloc may answer with the same block. */
  predicate StaysPut(had: nat, n: nat) { n <= had && had < LARGE_MIN && n > had / 2 }

  // ---------------------------------------------------------------- malloc and free

  /** Every other issued pointer is still issued, at the same place, of the same size, with the same bytes. */
  ghost predicate OthersKept(h: Heap, g: Heap, p: Option<Ptr>) {
    forall q :: Issued(h, q) && Some(q) != p ==>
      Issued(g, q) && SameKind(h, g, q) && SameBytes(h, g, q)
  }

  ghost predicate SameBytes(h: Heap, g: Heap, q: Ptr)
    requires Issued(h, q) && Issued(g, q)
  {
    Bytes(g, q) == Bytes(h, q) && forall x :: Bytes(h, q).Contains(x) ==> g.mem(x) == h.mem(x)
  }

  /** Nothing is issued in `g` that was not in `h`, but for `p`. */
  ghost predicate NothingNew(h: Heap, g: Heap, p: Option<Ptr>) {
    forall q :: Issued(g, q) && Some(q) != p ==> Issued(h, q)
  }

  /** What malloc(n) promises: on success one new pointer with room for n bytes, of the least class when
      small; in any case all others untouched, and space once consumed still behind the bump pointer. */
  ghost predicate Granted(h: Heap, g: Heap, n: nat, reply: Reply) {
    && Consistent(g) && Roomy(g) && h.bump <= g.bump && OthersKept(h, g, None)
    && match reply
       case Got(p) =>
         && !Issued(h, p) && Issued(g, p) && NothingNew(h, g, Some(p))
         && Protocol.Asked(n) <= Capacity(g, p) && Capacity(g, p) >= OldSize(g, p) >= n
         && (p.Large? <==> Protocol.Asked(n) >= LARGE_MIN)
         && (p.Small? ==> IsLeastClass(if n == 0 then 1 else n, g.runs[p.b.base].cls))
       case Null => NothingNew(h, g, None)
       case Delegated => false
  }

  lemma KeptFromStep(h: Heap, g: Heap, moved: Option<Ptr>)
    requires HeapStep(h, g, moved)
    requires forall q, x :: Issued(h, q) && Some(q) != moved && Bytes(h, q).Contains(x) ==> g.mem(x) == h.mem(x)
    ensures OthersKept(h, g, moved) && NothingNew(h, g, moved)
  {
    hide Issued, Bytes, SameKind;
    forall q | Issued(h, q) && Some(q) != moved
      ensures Issued(g, q) && SameKind(h, g, q) && SameBytes(h, g, q)
    {
      KindBytes(h, g, q, 0);
    }
  }

  /** malloc(n) does not make the bump pointer wrap. */
  ghost predicate MallocFits(h: Heap, n: nat)
    requires Consistent(h)
  {
    var m := Protocol.Asked(n);
    if m >= LARGE_MIN then BumpFits(h.bump, LargeMapBytes(m), PAGE) else TakeFits(h, ClassFor(m) - 1)
  }

  /** A block is harmless unless its size is one of the 23 largest, and a null answer unless the bump pointer wraps. */
  ghost predicate Harmless(h: Heap, n: nat, reply: Reply)
    requires Consistent(h)
  {
    if reply.Got? then HeaderFits(n) else MallocFits(h, n)
  }

  /** malloc keeps its promise exactly when its answer is harmless. */
  lemma MallocGrantsIff(h: Heap, n: nat, env: Env)
    requires Consistent(h) && Roomy(h) && n < WORD64
    ensures
      var (g, reply) := Malloc(h, n, env);
      Granted(h, g, n, reply) <==> Harmless(h, n, reply)
  {
    hide Consistent, Roomy, MapLarge, TakeBlock, TakeFits, ClassFor, HeaderFits, BumpFits, LargeMapBytes, Granted;
    var m := Protocol.Asked(n);
    if m >= LARGE_MIN {
      assert m == n;
      LargeGrants(h, n, env);
      var (g, base) := MapLarge(h, n, env.mapped);
      assert Malloc(h, n, env) == (g, if base.Some? then Got(Large(base.value)) else Null);
    } else {
      SmallHeaderFits(n);
      SmallGrants(h, n, m, env);
    }
  }

  lemma SmallHeaderFits(n: nat)
    requires n < LARGE_MIN
    ensures HeaderFits(n)
  {}

  /** In any case malloc touches no other pointer, and what it answers with is new and issued. */
  ghost predicate Answered(h: Heap, g: Heap, n: nat, reply: Reply) {
    && !reply.Delegated? && OthersKept(h, g, None) && NothingNew(h, g, if reply.Got? then Some(reply.p) else None)
    && (reply.Got? ==>
          && Consistent(g) && h.bump <= g.bump && !Issued(h, reply.p) && Issued(g, reply.p)
          && (reply.p.Large? <==> Protocol.Asked(n) >= LARGE_MIN)
          && (Protocol.Asked(n) <= Capacity(g, reply.p) <==> HeaderFits(n))
          && OldSize(g, reply.p) >= n && (HeaderFits(n) ==> OldSize(g, reply.p) <= Capacity(g, reply.p))
          && (reply.p.Large? ==> OldSize(g, reply.p) == n)
          && (reply.p.Small? ==>
                var cls := g.runs[reply.p.b.base].cls;
                IsLeastClass(if n == 0 then 1 else n, cls) && OldSize(g, reply.p) == Size(cls)))
  }

  lemma MallocAnswers(h: Heap, n: nat, env: Env)
    requires Consistent(h) && n < WORD64
    ensures Answered(h, Malloc(h, n, env).0, n, Malloc(h, n, env).1)
  {
    hide Consistent, MapLarge, TakeBlock, ClassFor, HeaderFits, LargeMapBytes, Answered;
    var m := Protocol.Asked(n);
    if m >= LARGE_MIN {
      assert m == n;
      LargeAnswers(h, n, env);
      var (g, base) := MapLarge(h, n, env.mapped);
      assert Malloc(h, n, env) == (g, if base.Some? then Got(Large(base.value)) else Null);
    } else {
      SmallHeaderFits(n);
      SmallAnswers(h, n, m, env);
    }
  }

  lemma LargeAnswers(h: Heap, n: nat, env: Env)
    requires Consistent(h) && LARGE_MIN <= n < WORD64
    ensures
      var (g, base) := MapLarge(h, n, env.mapped);
      Answered(h, g, n, if base.Some? then Got(Large(base.value)) else Null)
  {
    hide Consistent, MapLarge, HeaderFits, BumpFits, Issued, Bytes, HeapStep, SameKind, OthersKept, NothingNew,
      Capacity, LargeMapBytes;
    var (g, base) := MapLarge(h, n, env.mapped);
    MapLargeKeepsIff(h, n, env.mapped);
    MapLargeStep(h, n, env.mapped);
    forall q, x | Issued(h, q) && Bytes(h, q).Contains(x) ensures g.mem(x) == h.mem(x) {
      LargeBytes(h, n, env.mapped, q, x);
    }
    var moved := if base.Some? then Some(Large(base.value)) else None;
    KeptFromStep(h, g, moved);
    KeptAll(h, g, moved);
    if base.Some? { LargeRoomy(g, base.value); }
  }

  /** It keeps its promise when it answers, the state stays in order and the region has room. */
  lemma LargeGrants(h: Heap, n: nat, env: Env)
    requires Consistent(h) && Roomy(h) && LARGE_MIN <= n < WORD64
    ensures
      var (g, base) := MapLarge(h, n, env.mapped);
      Granted(h, g, n, if base.Some? then Got(Large(base.value)) else Null) <==> LargeKept(h, n, env.mapped)
  {
    hide Consistent, Roomy, MapLarge, HeaderFits, BumpFits, OthersKept, NothingNew, Issued, Capacity, OldSize,
      LargeMapBytes, IsLeastClass;
    LargeAnswers(h, n, env);
    MapLargeRoomyIff(h, n, env.mapped);
  }

  /** A pointer not issued before is no exception. */
  lemma KeptAll(h: Heap, g: Heap, moved: Option<Ptr>)
    requires OthersKept(h, g, moved) && (moved.Some? ==> !Issued(h, moved.value))
    ensures OthersKept(h, g, None)
  {
    hide Issued, SameKind, SameBytes;
  }

  lemma LargeRoomy(g: Heap, base: nat)
    requires Consistent(g) && Issued(g, Large(base))
    ensures OldSize(g, Large(base)) == g.large[base].user
    ensures g.large[base].user <= Capacity(g, Large(base)) <==> HasRoom(g.large[base])
  {
    assert LargeOk(g, base);
  }

  lemma SmallAnswers(h: Heap, n: nat, m: nat, env: Env)
    requires Consistent(h) && m == Protocol.Asked(n) && m < LARGE_MIN && HeaderFits(n)
    ensures
      var (g, b) := TakeBlock(h, ClassFor(m) - 1, env.now, env.mapped);
      Answered(h, g, n, if b.Some? then Got(Small(b.value)) else Null)
  {
    hide Consistent, TakeBlock, TakeFits, Issued, Bytes, HeapStep, SameKind, OthersKept, NothingNew, Capacity, ClassFor,
      OldSize, HeaderFits;
    var c := ClassFor(m) - 1;
    var (g, b) := TakeBlock(h, c, env.now, env.mapped);
    TakeKeepsIff(h, c, env.now, env.mapped);
    TakeStep(h, c, env.now, env.mapped);
    forall q, x | Issued(h, q) && Bytes(h, q).Contains(x) ensures g.mem(x) == h.mem(x) {
      TakeBytes(h, c, env.now, env.mapped, q, x);
    }
    var moved := if b.Some? then Some(Small(b.value)) else None;
    KeptFromStep(h, g, moved);
    KeptAll(h, g, moved);
    if b.Some? { SmallRoomy(g, b.value, m); }
  }

  lemma SmallGrants(h: Heap, n: nat, m: nat, env: Env)
    requires Consistent(h) && Roomy(h) && m == Protocol.Asked(n) && m < LARGE_MIN && HeaderFits(n)
    ensures
      var (g, b) := TakeBlock(h, ClassFor(m) - 1, env.now, env.mapped);
      && (Granted(h, g, n, if b.Some? then Got(Small(b.value)) else Null) <==> TakeFits(h, ClassFor(m) - 1))
      && (b.Some? ==> TakeFits(h, ClassFor(m) - 1))
  {
    hide Consistent, Roomy, TakeBlock, TakeFits, ClassFor, HeaderFits, OthersKept, NothingNew, Issued, Capacity,
      OldSize;
    SmallAnswers(h, n, m, env);
    TakeKeepsIff(h, ClassFor(m) - 1, env.now, env.mapped);
    TakeRoomy(h, ClassFor(m) - 1, env.now, env.mapped);
  }

  lemma SmallRoomy(g: Heap, b: Block, m: nat)
    requires Consistent(g) && Issued(g, Small(b)) && m < LARGE_MIN && g.runs[b.base].cls == ClassFor(m)
    ensures OldSize(g, Small(b)) == Capacity(g, Small(b)) >= m && IsLeastClass(m, g.runs[b.base].cls)
    ensures OldSize(g, Small(b)) == Size(g.runs[b.base].cls)
  {
    assert RunOk(g, b.base);
  }

  /** What free(p) promises: p is no longer issued, unless it is a block past the 2 MiB mark, and nothing
      else changes. */
  ghost predicate Released(h: Heap, g: Heap, p: Ptr)
    requires Issued(h, p)
  {
    && Consistent(g) && (Roomy(h) ==> Roomy(g)) && g.bump == h.bump
    && OthersKept(h, g, Some(p)) && NothingNew(h, g, None)
    && (Issued(g, p) <==> Unreachable(h, p))
  }

  lemma FreeReleases(h: Heap, p: Ptr, env: Env)
    requires Consistent(h) && Issued(h, p)
    ensures Released(h, Free(h, p, env), p)
  {
    hide Consistent, Issued, Bytes, SameKind, OthersKept, NothingNew, GiveBlock, UnmapLarge, HeapStep,
      Reachable, RouteOf, Addr,
      Protocol.BlockAt, OursSmall;
    RouteAgrees(h, p);
    var g := Free(h, p, env);
    match RouteOf(h, Addr(h, p)) {
      case ToRun(base) =>
        GiveKeeps(h, p.b, env.now, env.stamp);
        GiveStep(h, p.b, env.now, env.stamp);
        GiveMem(h, p.b, env.now, env.stamp);
        GiveFrame(h, p.b, env.now, env.stamp);
      case ToLarge(base) =>
        UnmapLargeKeeps(h, base);
        UnmapLargeStep(h, base);
        UnmapMem(h, base);
      case Unrecognised => Still(h, Some(p));
    }
    KeptFromStep(h, g, Some(p));
    NewMeansOld(h, g, p);
  }

  lemma UnmapMem(h: Heap, base: nat)
    requires base in h.large
    ensures UnmapLarge(h, base).mem == h.mem && UnmapLarge(h, base).bump == h.bump
    ensures Roomy(h) ==> Roomy(UnmapLarge(h, base))
  {}

  lemma GiveFrame(h: Heap, b: Block, touch: nat, stamp: nat)
    requires Consistent(h) && Issued(h, Small(b))
    ensures
      var g := GiveBlock(h, b, touch, stamp);
      g.bump == h.bump && (Roomy(h) ==> Roomy(g))
  {
    hide Consistent, Given;
  }

  lemma NewMeansOld(h: Heap, g: Heap, p: Ptr)
    requires Issued(h, p) && NothingNew(h, g, Some(p))
    ensures NothingNew(h, g, None)
  {
    hide Issued;
  }

  // ---------------------------------------------------------------- realloc

  ghost function Realloc(h: Heap, p: Option<Ptr>, n: nat, env: Env, later: Env): (Heap, Reply)
    requires Consistent(h) && (p.Some? ==> Issued(h, p.value)) && n < WORD64
  {
    if p.None? then Malloc(h, n, env)
    else if n == 0 then
      FreeReleases(h, p.value, env);
      Malloc(Free(h, p.value, env), 1, later)
    else if RouteOf(h, Addr(h, p.value)) == Unrecognised then (h, Delegated)
    else if StaysPut(OldSize(h, p.value), n) then (h, Got(p.value))
    else
      MallocAnswers(h, n, env);
      var (g, reply) := Malloc(h, n, env);
      if reply.Got? then (MovedTo(g, p.value, reply.p, n, later), reply) else (g, Null)
  }

  /** memcpy to the new block, then free of the old one. */
  ghost function MovedTo(g: Heap, p: Ptr, r: Ptr, n: nat, env: Env): Heap
    requires Consistent(g) && Issued(g, p) && Issued(g, r)
  {
    CopyKeeps(g, p, r, n);
    Free(CopiedOver(g, p, r, n), p, env)
  }

  ghost function CopiedOver(g: Heap, p: Ptr, r: Ptr, n: nat): Heap
    requires Issued(g, p) && Issued(g, r)
  {
    g.(mem := CopiedMem(g.mem, Addr(g, r), Addr(g, p), Min(OldSize(g, p), n)))
  }

  lemma CopyKeeps(g: Heap, p: Ptr, r: Ptr, n: nat)
    requires Consistent(g) && Issued(g, p) && Issued(g, r)
    ensures Consistent(CopiedOver(g, p, r, n)) && HeapStep(g, CopiedOver(g, p, r, n), None)
    ensures CopiedOver(g, p, r, n) == g.(mem := CopiedOver(g, p, r, n).mem)
    ensures Issued(CopiedOver(g, p, r, n), p) && Issued(CopiedOver(g, p, r, n), r)
  {
    hide Consistent, Issued, HeapStep, CopiedMem;
    MemOnly(g, CopiedOver(g, p, r, n).mem);
    Still(g, None);
    MemStep(g, g, CopiedOver(g, p, r, n));
    StillIssued(g, CopiedOver(g, p, r, n), p);
    StillIssued(g, CopiedOver(g, p, r, n), r);
  }

  lemma StillIssued(g: Heap, c: Heap, p: Ptr)
    requires HeapStep(g, c, None) && Issued(g, p)
    ensures Issued(c, p)
  {
    hide Issued, SameKind;
  }

  /** The copy changes only the new block, which receives the old bytes. */
  lemma CopyBytes(g: Heap, p: Ptr, r: Ptr, n: nat)
    requires Consistent(g) && Issued(g, p) && Issued(g, r) && p != r && n <= Capacity(g, r)
    ensures OthersKept(g, CopiedOver(g, p, r, n), Some(r))
    ensures Issued(CopiedOver(g, p, r, n), r)
    ensures SamePrefix(g, p, CopiedOver(g, p, r, n), r, Min(OldSize(g, p), n))
  {
    hide *;
    CopyKeeps(g, p, r, n);
    CopyOthers(g, p, r, n);
    CopyPrefix(g, p, r, n);
  }

  lemma CopyOthers(g: Heap, p: Ptr, r: Ptr, n: nat)
    requires Consistent(g) && Issued(g, p) && Issued(g, r) && p != r && n <= Capacity(g, r)
    requires HeapStep(g, CopiedOver(g, p, r, n), None)
    ensures OthersKept(g, CopiedOver(g, p, r, n), Some(r))
  {
    hide Consistent, Issued, HeapStep, Addr, Capacity, OldSize, SameKind, OthersKept, NothingNew, Bytes, CopiedOver;
    var c := CopiedOver(g, p, r, n);
    forall q, x | Issued(g, q) && q != r && Bytes(g, q).Contains(x) ensures c.mem(x) == g.mem(x) {
      Ownership.IssuedApart(g, q, r);
      assert !Bytes(g, r).Contains(x);
      CopyOutside(g, p, r, n, x);
    }
    WeakerStep(g, c, r);
    KeptFromStep(g, c, Some(r));
  }

  lemma CopyOutside(g: Heap, p: Ptr, r: Ptr, n: nat, x: nat)
    requires Issued(g, p) && Issued(g, r) && n <= Capacity(g, r) && !Bytes(g, r).Contains(x)
    ensures CopiedOver(g, p, r, n).mem(x) == g.mem(x)
  {
    hide Issued, Addr, Capacity, OldSize;
  }

  lemma CopyPrefix(g: Heap, p: Ptr, r: Ptr, n: nat)
    requires Issued(g, p) && Issued(g, r) && Issued(CopiedOver(g, p, r, n), r)
    requires HeapStep(g, CopiedOver(g, p, r, n), None)
    ensures SamePrefix(g, p, CopiedOver(g, p, r, n), r, Min(OldSize(g, p), n))
  {
    hide Issued, Addr, OldSize, SameKind, HeapStep, Capacity;
    var c := CopiedOver(g, p, r, n);
    KindAt(g, c, r);
    KindBytes(g, c, r, 0);
    assert Bytes(c, r) == Bytes(g, r);
  }

  lemma WeakerStep(g: Heap, c: Heap, r: Ptr)
    requires HeapStep(g, c, None)
    ensures HeapStep(g, c, Some(r))
  {
    hide Issued, SameKind;
  }

  lemma KindAt(g: Heap, c: Heap, r: Ptr)
    requires HeapStep(g, c, None) && Issued(g, r) && Issued(c, r)
    ensures SameKind(g, c, r)
  {
    hide Issued;
  }

  /** What realloc(p, n) promises for n > 0. In place, nothing changes. Moved, the new block holds the first
      min(old, n) bytes, the old one is released, once, and no other pointer is touched. On failure the
      old block is still there with its bytes. Handing the pointer to the C library is no answer. */
  ghost predicate Resized(h: Heap, g: Heap, p: Ptr, n: nat, reply: Reply)
    requires Issued(h, p)
  {
    && Consistent(g) && Roomy(g) && h.bump <= g.bump && OthersKept(h, g, Some(p))
    && (reply == Got(p) <==> n <= OldSize(h, p) < 2097153 && n > OldSize(h, p) / 2)
    && match reply
       case Got(r) =>
         && Issued(g, r) && n <= Capacity(g, r)
         && SamePrefix(h, p, g, r, Min(OldSize(h, p), n))
         && (r == p ==> g == h)
         && (r != p ==> !Issued(h, r) && !Issued(g, p) && NothingNew(h, g, Some(r)))
       case Null => OthersKept(h, g, None) && NothingNew(h, g, None)
       case Delegated => false
  }

  /** realloc keeps its promise exactly when the block starts before the 2 MiB mark of its run and the answer is
      harmless. */
  lemma ReallocResizes(h: Heap, p: Ptr, n: nat, env: Env, later: Env)
    requires Consistent(h) && Roomy(h) && Issued(h, p) && 0 < n < WORD64
    ensures
      var (g, reply) := Realloc(h, Some(p), n, env, later);
      Resized(h, g, p, n, reply) <==> !Unreachable(h, p) && Harmless(h, n, reply)
  {
    hide Consistent, Roomy, Issued, Malloc, MovedTo, Granted, Addr, Capacity, OldSize, Reachable, MallocFits,
      HeaderFits, RouteOf, OthersKept, NothingNew, Protocol.BlockAt, OursSmall, SamePrefix, Unreachable, Resized,
      StaysPut, IsLeastClass;
    Recognised(h, p);
    MallocGrantsIff(h, n, env);
    MallocAnswers(h, n, env);
    var (g, reply) := Malloc(h, n, env);
    if Unreachable(h, p) {
      NotResized(h, h, p, n);
    } else if StaysPut(OldSize(h, p), n) {
      PutResized(h, p, n);
    } else if reply.Null? {
      NullResized(h, g, p, n);
    } else if Granted(h, g, n, reply) {
      IssuedStill(h, g, p, n, reply.p);
      MovesOver(h, g, p, reply.p, n, later);
      MovedResized(h, MovedTo(g, p, reply.p, n, later), p, reply.p, n);
    } else {
      IssuedStill(h, g, p, n, reply.p);
      TooSmall(h, g, p, reply.p, n, later);
    }
  }

  lemma NotResized(h: Heap, g: Heap, p: Ptr, n: nat)
    requires Issued(h, p)
    ensures !Resized(h, g, p, n, Delegated)
  {
    hide Issued;
  }

  lemma PutResized(h: Heap, p: Ptr, n: nat)
    requires Consistent(h) && Roomy(h) && Issued(h, p) && StaysPut(OldSize(h, p), n)
    ensures Resized(h, h, p, n, Got(p)) && Harmless(h, n, Got(p))
  {
    hide Consistent, Roomy, Issued, Capacity, OldSize, OthersKept, NothingNew, SamePrefix;
    KeptSelf(h, p);
    InPlaceRoom(h, p);
    SamePrefixSelf(h, p, n);
  }

  lemma NullResized(h: Heap, g: Heap, p: Ptr, n: nat)
    requires Issued(h, p) && Answered(h, g, n, Null) && !StaysPut(OldSize(h, p), n)
    ensures Resized(h, g, p, n, Null) <==> Granted(h, g, n, Null)
  {
    hide Consistent, Roomy, Issued, OldSize, OthersKept, NothingNew;
    KeptWeaker(h, g, Some(p));
  }

  lemma MovedResized(h: Heap, k: Heap, p: Ptr, r: Ptr, n: nat)
    requires Issued(h, p) && Relocated(h, k, p, r, n) && !StaysPut(OldSize(h, p), n) && r != p && !Issued(h, r)
    ensures Resized(h, k, p, n, Got(r))
  {
    hide Consistent, Roomy, Issued, Capacity, OldSize, OthersKept, NothingNew, SamePrefix;
  }

  /** For one of the 23 largest sizes the new region stays too small, whatever the copy and the free do. */
  lemma TooSmall(h: Heap, g: Heap, p: Ptr, r: Ptr, n: nat, env: Env)
    requires Consistent(h) && Roomy(h) && Issued(h, p) && Consistent(g) && Issued(g, p) && Issued(g, r) && p != r
    requires Answered(h, g, n, Got(r)) && !HeaderFits(n)
    ensures !Resized(h, MovedTo(g, p, r, n, env), p, n, Got(r))
  {
    assert Protocol.Asked(n) == n;
    hide Consistent, Roomy, Issued, Addr, OldSize, Capacity, HeapStep, SameKind, SameBytes, CopiedOver, Free,
      OthersKept, NothingNew, SamePrefix, HeaderFits, IsLeastClass;
    var c := CopiedOver(g, p, r, n);
    CopyKeeps(g, p, r, n);
    var k := Free(c, p, env);
    FreeReleases(c, p, env);
    KindAt(g, c, r);
    KindSizes(g, c, r);
    KeptCapacity(c, k, p, r);
  }

  lemma KeptCapacity(c: Heap, k: Heap, p: Ptr, r: Ptr)
    requires OthersKept(c, k, Some(p)) && r != p && Issued(c, r)
    ensures Issued(k, r) && Capacity(k, r) == Capacity(c, r)
  {
    hide Issued, SameBytes, Capacity;
    KindSizes(c, k, r);
  }

  lemma SamePrefixSelf(h: Heap, p: Ptr, n: nat)
    requires Issued(h, p)
    ensures SamePrefix(h, p, h, p, n)
  {}

  lemma Recognised(h: Heap, p: Ptr)
    requires Consistent(h) && Issued(h, p)
    ensures RouteOf(h, Addr(h, p)) == Unrecognised <==> Unreachable(h, p)
  {
    hide Consistent, RouteOf, Addr, Reachable, Protocol.BlockAt, OursSmall;
    RouteAgrees(h, p);
  }

  /** A block past the 2 MiB mark of its run. */
  ghost predicate Unreachable(h: Heap, p: Ptr)
    requires Issued(h, p)
  {
    p.Small? && !Reachable(h.runs[p.b.base].elem, p.b.idx)
  }

  lemma IssuedStill(h: Heap, g: Heap, p: Ptr, n: nat, r: Ptr)
    requires Issued(h, p) && Answered(h, g, n, Got(r))
    ensures r != p && !Issued(h, r) && Issued(g, p) && Issued(g, r) && Consistent(g)
    ensures SameKind(h, g, p) && SameBytes(h, g, p)
  {
    hide Consistent, Issued, SameBytes, SameKind, Capacity, OldSize, IsLeastClass;
  }

  lemma KeptSelf(h: Heap, p: Ptr)
    requires Issued(h, p)
    ensures OthersKept(h, h, Some(p))
  {
    hide Issued, Bytes;
  }

  lemma InPlaceRoom(h: Heap, p: Ptr)
    requires Consistent(h) && Roomy(h) && Issued(h, p)
    ensures OldSize(h, p) <= Capacity(h, p)
  {
    if p.Large? { LargeRoomy(h, p.base); }
  }

  lemma KeptTrans(h: Heap, g: Heap, k: Heap, a: Option<Ptr>, b: Option<Ptr>)
    requires OthersKept(h, g, a) && OthersKept(g, k, b)
    requires b.Some? && b != a ==> !Issued(h, b.value)
    ensures OthersKept(h, k, a)
  {
    hide Issued, Bytes;
    forall q | Issued(h, q) && Some(q) != a ensures Issued(k, q) && SameKind(h, k, q) && SameBytes(h, k, q) {
      assert SameBytes(h, g, q) && SameBytes(g, k, q) && SameKind(h, g, q) && SameKind(g, k, q);
    }
  }

  lemma KeptWeaker(h: Heap, g: Heap, p: Option<Ptr>)
    requires OthersKept(h, g, None)
    ensures OthersKept(h, g, p)
  {
    hide Issued, Bytes, SameBytes, SameKind;
  }

  lemma PrefixKept(h: Heap, g: Heap, p: Ptr, len: nat)
    requires Issued(h, p) && Issued(g, p) && SameBytes(h, g, p) && len <= Capacity(h, p)
    ensures SamePrefix(h, p, g, p, len)
  {
    hide Issued, Addr, Capacity;
    forall k: nat | k < len ensures Byte(g, p, k) == Byte(h, p, k) {
      assert Bytes(h, p).Contains(Addr(h, p) + k);
    }
  }

  lemma PrefixTrans(a: Heap, p: Ptr, b: Heap, q: Ptr, c: Heap, r: Ptr, len: nat)
    requires Issued(a, p) && Issued(b, q) && Issued(c, r) && SamePrefix(a, p, b, q, len) && SamePrefix(b, q, c, r, len)
    ensures SamePrefix(a, p, c, r, len)
  {
    hide Issued, Byte;
    forall k: nat | k < len ensures Byte(c, r, k) == Byte(a, p, k) { assert Byte(b, q, k) == Byte(a, p, k); }
  }

  lemma KindSizes(h: Heap, g: Heap, p: Ptr)
    requires Issued(h, p) && Issued(g, p) && SameKind(h, g, p)
    ensures OldSize(g, p) == OldSize(h, p) && Capacity(g, p) == Capacity(h, p)
    ensures Unreachable(g, p) <==> Unreachable(h, p)
  {}

  /** What the composed malloc, copy and free leave behind. */
  ghost predicate Relocated(h: Heap, k: Heap, p: Ptr, r: Ptr, n: nat)
    requires Issued(h, p)
  {
    && Consistent(k) && Roomy(k) && h.bump <= k.bump
    && OthersKept(h, k, Some(p)) && NothingNew(h, k, Some(r)) && !Issued(k, p)
    && Issued(k, r) && n <= Capacity(k, r) && SamePrefix(h, p, k, r, Min(OldSize(h, p), n))
  }

  lemma MovesOver(h: Heap, g: Heap, p: Ptr, r: Ptr, n: nat, env: Env)
    requires Consistent(h) && Roomy(h) && Consistent(g) && Issued(h, p)
    requires Granted(h, g, n, Got(r)) && Answered(h, g, n, Got(r))
    requires !Unreachable(h, p)
    requires Issued(g, p) && Issued(g, r)
    ensures Relocated(h, MovedTo(g, p, r, n, env), p, r, n)
  {
    hide Consistent, Issued, Addr, Capacity, OldSize, Reachable, HeapStep, SameKind, SameBytes, CopiedOver,
      Free, Unreachable,
      SamePrefix, OthersKept, NothingNew;
    var c := CopiedOver(g, p, r, n);
    CopyKeeps(g, p, r, n);
    var k := Free(c, p, env);
    IssuedStill(h, g, p, n, r);
    CopyBytes(g, p, r, n);
    FreeReleases(c, p, env);
    KeptOthers(h, g, c, k, p, r);
    NewOnlyOne(h, g, c, k, r);
    MovedPrefix(h, g, c, k, p, r, n);
    NowFree(h, g, c, p);
  }

  lemma NowFree(h: Heap, g: Heap, c: Heap, p: Ptr)
    requires Issued(h, p) && Issued(g, p) && Issued(c, p) && SameKind(h, g, p) && HeapStep(g, c, None)
    ensures Unreachable(c, p) <==> Unreachable(h, p)
  {
    KindAt(g, c, p);
    KindSizes(h, g, p);
    KindSizes(g, c, p);
  }

  lemma KeptOthers(h: Heap, g: Heap, c: Heap, k: Heap, p: Ptr, r: Ptr)
    requires OthersKept(h, g, None) && OthersKept(g, c, Some(r)) && OthersKept(c, k, Some(p)) && !Issued(h, r)
    ensures OthersKept(h, k, Some(p))
  {
    hide OthersKept, Issued;
    KeptTrans(h, g, c, None, Some(r));
    KeptWeaker(h, c, Some(p));
    KeptTrans(h, c, k, Some(p), Some(p));
  }

  lemma NewOnlyOne(h: Heap, g: Heap, c: Heap, k: Heap, r: Ptr)
    requires NothingNew(h, g, Some(r)) && HeapStep(g, c, None) && NothingNew(c, k, None)
    ensures NothingNew(h, k, Some(r))
  {
    hide Issued, SameKind;
  }

  lemma MovedPrefix(h: Heap, g: Heap, c: Heap, k: Heap, p: Ptr, r: Ptr, n: nat)
    requires Issued(h, p) && Issued(g, p) && Issued(g, r) && Issued(c, p) && Issued(c, r) && r != p
    requires Consistent(h) && Roomy(h) && SameKind(h, g, p) && SameBytes(h, g, p) && HeapStep(g, c, None)
    requires n <= Capacity(g, r) && SamePrefix(g, p, c, r, Min(OldSize(g, p), n)) && OthersKept(c, k, Some(p))
    ensures Issued(k, r) && n <= Capacity(k, r) && SamePrefix(h, p, k, r, Min(OldSize(h, p), n))
  {
    hide Consistent, Issued, Addr, Capacity, OldSize, HeapStep, SameKind, SameBytes, SamePrefix, Unreachable;
    var len := Min(OldSize(h, p), n);
    KindSizes(h, g, p);
    InPlaceRoom(h, p);
    KindAt(g, c, r);
    KindSizes(g, c, r);
    assert SameBytes(c, k, r) && SameKind(c, k, r);
    KindSizes(c, k, r);
    PrefixKept(h, g, p, len);
    PrefixKept(c, k, r, len);
    PrefixTrans(h, p, g, p, c, r, len);
    PrefixTrans(h, p, c, r, k, r, len);
  }

  /** realloc(p, 0) frees p and hands out a block for one byte, which may be p again. The state stays in order exactly
      when that malloc's answer is harmless. */
  lemma ReallocZero(h: Heap, p: Ptr, env: Env, later: Env)
    requires Consistent(h) && Roomy(h) && Issued(h, p)
    ensures
      var (g, reply) := Realloc(h, Some(p), 0, env, later);
      && OthersKept(h, g, Some(p)) && !reply.Delegated?
      && NothingNew(h, g, if reply.Got? then Some(reply.p) else None)
      && (reply.Got? ==> Issued(g, reply.p) && reply.p.Small? && 1 <= Capacity(g, reply.p))
      && (Issued(g, p) ==> Unreachable(h, p) || reply == Got(p))
      && Consistent(Free(h, p, env))
      && (Consistent(g) && Roomy(g) && h.bump <= g.bump <==> Harmless(Free(h, p, env), 1, reply))
  {
    hide Consistent, Roomy, Issued, Malloc, Free, Capacity, OldSize, Unreachable, OthersKept, NothingNew, IsLeastClass,
      Harmless;
    FreeReleases(h, p, env);
    var mid := Free(h, p, env);
    MallocGrantsIff(mid, 1, later);
    MallocAnswers(mid, 1, later);
    var (g, reply) := Malloc(mid, 1, later);
    GrantedInOrder(mid, g, 1, reply);
    KeptWeaker(mid, g, Some(p));
    KeptTrans(h, mid, g, Some(p), Some(p));
    Joined(h, mid, g, p, if reply.Got? then Some(reply.p) else None);
  }

  /** For a size that fits, the promise comes down to a state in order. */
  lemma GrantedInOrder(h: Heap, g: Heap, n: nat, reply: Reply)
    requires Answered(h, g, n, reply) && HeaderFits(n)
    ensures Granted(h, g, n, reply) <==> Consistent(g) && Roomy(g) && h.bump <= g.bump
  {
    hide Consistent, Roomy, Issued, Capacity, OldSize, OthersKept, NothingNew, IsLeastClass;
  }

  lemma Joined(h: Heap, mid: Heap, g: Heap, p: Ptr, r: Option<Ptr>)
    requires Issued(h, p) && NothingNew(h, mid, None) && NothingNew(mid, g, r)
    ensures NothingNew(h, g, r)
    ensures Issued(g, p) ==> Issued(mid, p) || r == Some(p)
  {
    hide Issued;
  }

  /** free undoes malloc, whatever the size: the same pointers are issued as before, with the same bytes. */
  lemma FreeUndoesMalloc(h: Heap, n: nat, env: Env, later: Env)
    requires Consistent(h) && n < WORD64 && Malloc(h, n, env).1.Got?
    ensures
      var (g, reply) := Malloc(h, n, env);
      Consistent(g) && Issued(g, reply.p) &&
      var k := Free(g, reply.p, later);
      Consistent(k) && OthersKept(h, k, None) && (NothingNew(h, k, None) <==> !Unreachable(g, reply.p))
  {
    hide Consistent, Issued, Malloc, Free, Capacity, OldSize, Unreachable, OthersKept, NothingNew, IsLeastClass;
    MallocAnswers(h, n, env);
    var (g, reply) := Malloc(h, n, env);
    var p := reply.p;
    FreeReleases(g, p, later);
    var k := Free(g, p, later);
    KeptTrans(h, g, k, None, Some(p));
    Undone(h, g, k, p);
  }

  lemma Undone(h: Heap, g: Heap, k: Heap, p: Ptr)
    requires NothingNew(h, g, Some(p)) && NothingNew(g, k, None) && !Issued(h, p)
    ensures NothingNew(h, k, None) <==> !Issued(k, p)
  {
    hide Issued;
  }

  // ---------------------------------------------------------------- calloc

  ghost function Calloc(h: Heap, count: nat, size: nat, env: Env): (Heap, Reply)
    requires Consistent(h)
  {
    var total := count * size;
    if total >= WORD64 then (h, Null)
    else
      var (g, reply) := Malloc(h, total, env);
      MallocAnswers(h, total, env);
      if reply.Got? then (Cleared(g, reply.p, total), reply) else (g, reply)
  }

  ghost function Cleared(g: Heap, p: Ptr, len: nat): Heap
    requires Issued(g, p)
  {
    g.(mem := Zeroed(g.mem, Region(Addr(g, p), len)))
  }

  /** calloc fails on a product that overflows; otherwise it keeps malloc's promise, with the requested bytes zero,
      exactly when its answer is harmless. */
  lemma CallocZeroes(h: Heap, count: nat, size: nat, env: Env)
    requires Consistent(h) && Roomy(h)
    ensures
      var (g, reply) := Calloc(h, count, size, env);
      if count * size >= WORD64 then g == h && reply == Null
      else
        && (Granted(h, g, count * size, reply) <==> Harmless(h, count * size, reply))
        && (Harmless(h, count * size, reply) && reply.Got? ==> Issued(g, reply.p) && AllZero(g, reply.p, count * size))
  {
    var total := count * size;
    hide Consistent, Roomy, Issued, Malloc, Cleared, Granted, HeaderFits, MallocFits, AllZero, Capacity, OldSize,
      OthersKept, NothingNew, IsLeastClass;
    if total < WORD64 {
      MallocGrantsIff(h, total, env);
      MallocAnswers(h, total, env);
      var (g, reply) := Malloc(h, total, env);
      if reply.Got? {
        if Granted(h, g, total, reply) {
          ClearedKeeps(h, g, reply.p, total);
        } else {
          StillTooSmall(h, g, reply.p, total);
        }
      }
    }
  }

  ghost predicate AllZero(g: Heap, p: Ptr, len: nat)
    requires Issued(g, p)
  {
    forall k: nat :: k < len ==> Byte(g, p, k) == 0
  }

  /** Clearing bytes makes no room. */
  lemma StillTooSmall(h: Heap, g: Heap, p: Ptr, n: nat)
    requires Consistent(g) && Answered(h, g, n, Got(p)) && !HeaderFits(n)
    ensures !Granted(h, Cleared(g, p, n), n, Got(p))
  {
    hide Consistent, Roomy, Issued, OthersKept, NothingNew, IsLeastClass, Cleared, HeapStep, SameKind, Capacity,
      OldSize;
    ClearedStep(g, p, n);
    KindAt(g, Cleared(g, p, n), p);
    KindSizes(g, Cleared(g, p, n), p);
  }

  lemma ClearedKeeps(h: Heap, g: Heap, p: Ptr, len: nat)
    requires Granted(h, g, len, Got(p)) && Issued(g, p)
    ensures Granted(h, Cleared(g, p, len), len, Got(p))
    ensures Issued(Cleared(g, p, len), p) && AllZero(Cleared(g, p, len), p, len)
  {
    hide Consistent, Issued, HeapStep, SameKind, OthersKept, NothingNew, Capacity, OldSize, Cleared,
      Unreachable, IsLeastClass, Byte;
    var c := Cleared(g, p, len);
    ClearedStep(g, p, len);
    KindAt(g, c, p);
    KindSizes(g, c, p);
    ClearedOthers(g, p, len);
    KeptTrans(h, g, c, None, Some(p));
    NothingNewSelf(c);
    NewOnlyOne(h, g, c, c, p);
  }

  lemma NothingNewSelf(c: Heap)
    ensures NothingNew(c, c, None)
  {}

  lemma ClearedStep(g: Heap, p: Ptr, len: nat)
    requires Consistent(g) && Issued(g, p)
    ensures
      var c := Cleared(g, p, len);
      && Consistent(c) && HeapStep(g, c, None) && Issued(c, p) && c == g.(mem := c.mem)
      && forall k: nat :: k < len ==> Byte(c, p, k) == 0
  {
    hide Consistent, Issued, HeapStep, Addr, SameKind, Capacity;
    var c := Cleared(g, p, len);
    MemOnly(g, c.mem);
    Still(g, None);
    MemStep(g, g, c);
    StillIssued(g, c, p);
    KindAt(g, c, p);
    KindBytes(g, c, p, 0);
    assert Bytes(c, p) == Bytes(g, p);
    forall k: nat | k < len ensures Byte(c, p, k) == 0 {
      assert Region(Addr(g, p), len).Contains(Addr(g, p) + k);
    }
  }

  lemma ClearedOthers(g: Heap, p: Ptr, len: nat)
    requires Consistent(g) && Issued(g, p) && len <= Capacity(g, p) && HeapStep(g, Cleared(g, p, len), None)
    ensures OthersKept(g, Cleared(g, p, len), Some(p))
  {
    hide Consistent, Issued, HeapStep, Addr, Capacity, SameKind, OthersKept, NothingNew, Cleared;
    var c := Cleared(g, p, len);
    forall q, x | Issued(g, q) && q != p && Bytes(g, q).Contains(x) ensures c.mem(x) == g.mem(x) {
      Ownership.IssuedApart(g, q, p);
      assert !Bytes(g, p).Contains(x);
      ClearedOutside(g, p, len, x);
    }
    WeakerStep(g, c, p);
    KeptFromStep(g, c, Some(p));
  }

  lemma ClearedOutside(g: Heap, p: Ptr, len: nat, x: nat)
    requires Issued(g, p) && len <= Capacity(g, p) && !Bytes(g, p).Contains(x)
    ensures Cleared(g, p, len).mem(x) == g.mem(x)
  {
    hide Issued, Addr, Capacity;
  }
}
