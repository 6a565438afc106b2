/** The allocator as a system of steps: any number of client threads doing malloc, free and exit,
    interleaved with the trim thread. Every step is one atomic action of the source: a cache access,
    an unlocked header test, a lock operation, or a critical section. */
module Protocol {
  import opened Arith
  import opened SizeClasses
  import opened Options
  import opened Reserve
  import opened HeapSpec
  import opened Ownership

  const CACHE_SLOTS: nat := 16 // kTCap

  // ---------------------------------------------------------------- threads

  /** What a thread wants the class lock for. */
  datatype Job =
    | Alloc(n: nat)                // malloc's slow path
    | Release(b: Block)            // free's slow path
    | FlushSlot(c: nat, i: nat)    // the exit destructor, at its cache slot (c, i)

  datatype After =
    | Answer(n: nat, got: Option<Block>)
    | Freed
    | FlushFrom(c: nat, i: nat)

  datatype Pc =
    | Idle
    | Testing(p: Ptr)              // in free, before the ownership test
    | Routed(b: Block)             // ours_small held; the class is about to be read
    | Unmapping(base: nat)         // ours_large held
    | Flushing(c: nat, i: nat)     // thread exit, before testing slot (c, i)
    | Waiting(c: nat, job: Job)    // about to lock class c
    | Inside(c: nat, job: Job)     // holds the lock of class c
    | Leaving(c: nat, after: After) // about to unlock class c

  /** A thread may or may not have a cache; slots are filled and emptied at the high end. */
  datatype Thread = Thread(pc: Pc, cache: Option<seq<seq<Block>>>)

  datatype Trim =
    | Asleep
    | AtClass(t: nat, c: nat)
    | Walking(t: nat, c: nat, cur: Option<nat>) // holds the lock of class c

  datatype Holder = Worker(t: nat) | Trimmer

  datatype State = State(
    heap: Heap, threads: map<nat, Thread>, trim: Trim, mu: seq<Option<Holder>>,
    held: map<Ptr, nat>,   // what clients hold, with the size they asked for
    leaked: set<Block>,    // dropped by free
    now: nat, runIdle: nat, dirtyIdle: nat,
    // history, read by no step: when a run last lost a block to malloc, and when it last became empty
    taken: map<nat, nat>, emptied: map<nat, nat>)

  // ---------------------------------------------------------------- what the steps rely on

  ghost predicate JobSound(h: Heap, th: Thread, job: Job) {
    match job
    case Alloc(n) => n < LARGE_MIN
    case Release(b) => Issued(h, Small(b))
    case FlushSlot(c, i) => HasSlot(th, c, i) && Issued(h, Small(th.cache.value[c][i]))
  }

  predicate HasSlot(th: Thread, c: nat, i: nat) {
    th.cache.Some? && c < |th.cache.value| && i < |th.cache.value[c]|
  }

  ghost predicate ThreadSound(h: Heap, th: Thread) {
    && (th.cache.Some? ==> |th.cache.value| == NUM_CLASSES)
    && match th.pc
       case Idle => true
       case Testing(p) => Issued(h, p)
       case Routed(b) => Issued(h, Small(b)) && ValidClass(h.runs[b.base].cls)
       case Unmapping(base) => base in h.large
       case Flushing(c, i) => th.cache.Some? && (HasSlot(th, c, i) ==> Issued(h, Small(th.cache.value[c][i])))
       case Waiting(c, job) => c < NUM_CLASSES && JobSound(h, th, job)
       case Inside(c, job) => c < NUM_CLASSES && JobSound(h, th, job)
       case Leaving(c, _) => c < NUM_CLASSES
  }

  ghost predicate TrimSound(h: Heap, trim: Trim) {
    match trim
    case Asleep => true
    case AtClass(_, c) => c <= NUM_CLASSES
    case Walking(_, c, cur) =>
      c < NUM_CLASSES && Shape(h) && (cur.Some? ==> cur.value in h.lists[c] && cur.value in h.runs)
  }

  /** What threads hold or carry is issued, and the run or large header a thread is about to use, like the run
      the trimmer is about to visit, is live. Steps are defined on sound states only, and every reachable state
      is sound (Guarantees.ArisesSound), so this restricts nothing. It says nothing of the header that free
      probes for a large pointer (Ownership.LargeProbeCoveredIff) or reads after unmapping it
      (Integrity.HeaderReadMisses). */
  ghost predicate Sound(s: State) {
    && Consistent(s.heap) && |s.mu| == NUM_CLASSES
    && (forall p :: p in s.held ==> Issued(s.heap, p))
    && (forall t :: t in s.threads ==> ThreadSound(s.heap, s.threads[t]))
    && TrimSound(s.heap, s.trim)
  }

  // ---------------------------------------------------------------- steps

  datatype Step =
    | Spawn(t: nat, caching: bool)
    | Tick(time: nat)
    | MallocLarge(t: nat, n: nat, mapped: bool)
    | MallocSmall(t: nat, n: nat)
    | Lock(t: nat)
    | Take(t: nat, mapped: bool)
    | Give(t: nat, stamp: nat)
    | Unlock(t: nat)
    | Free(t: nat, p: Ptr)
    | Test(t: nat)
    | Route(t: nat)
    | Unmap(t: nat)
    | Exit(t: nat)
    | Flush(t: nat)
    | TrimWake
    | TrimLock
    | TrimVisit
    | TrimUnlock
    | TrimDone
    | Write(p: Ptr, off: nat, value: bv8)

  predicate At(s: State, t: nat) { t in s.threads }

  /** malloc(0) is malloc(1). */
  function Asked(n: nat): nat { if n == 0 then 1 else n }

  /** The block a thread inside a critical section is about to give back. */
  function GivenBack(th: Thread): Option<Block> {
    match th.pc
    case Inside(_, Release(b)) => Some(b)
    case Inside(_, FlushSlot(c, i)) => if HasSlot(th, c, i) then Some(th.cache.value[c][i]) else None
    case _ => None
  }

  /** When a step may be taken, as far as the code goes. */
  ghost predicate Guard(s: State, st: Step) {
    match st
    case Spawn(t, _) => t !in s.threads
    case Tick(time) => s.now <= time
    case MallocLarge(t, n, _) => At(s, t) && s.threads[t].pc == Idle && LARGE_MIN <= n < WORD64
    case MallocSmall(t, n) => At(s, t) && s.threads[t].pc == Idle && n < LARGE_MIN
    case Lock(t) =>
      At(s, t) && s.threads[t].pc.Waiting? && s.threads[t].pc.c < |s.mu| && s.mu[s.threads[t].pc.c] == None
    case Take(t, _) => At(s, t) && s.threads[t].pc.Inside? && s.threads[t].pc.job.Alloc?
    case Give(t, stamp) => At(s, t) && GivenBack(s.threads[t]).Some? && s.now <= stamp
    case Unlock(t) => At(s, t) && s.threads[t].pc.Leaving?
    case Free(t, p) => At(s, t) && s.threads[t].pc == Idle && p in s.held
    case Test(t) => At(s, t) && s.threads[t].pc.Testing?
    case Route(t) => At(s, t) && s.threads[t].pc.Routed?
    case Unmap(t) => At(s, t) && s.threads[t].pc.Unmapping?
    case Exit(t) => At(s, t) && s.threads[t].pc == Idle
    case Flush(t) => At(s, t) && s.threads[t].pc.Flushing?
    case TrimWake => s.trim == Asleep
    case TrimLock => s.trim.AtClass? && s.trim.c < |s.mu| && s.mu[s.trim.c] == None
    case TrimVisit => s.trim.Walking? && s.trim.cur.Some?
    case TrimUnlock => s.trim.Walking? && s.trim.cur == None
    case TrimDone => s.trim.AtClass? && s.trim.c == NUM_CLASSES
    case Write(p, off, _) => p in s.held && off < s.held[p]
  }

  /** The step leaves the reserve in order: no addition to the bump pointer wraps around, and no region is too small
      for its header and request. By itself the code does not see to this. */
  ghost predicate Orderly(s: State, st: Step)
    requires Sound(s) && Guard(s, st)
  {
    match st
    case MallocLarge(_, n, mapped) => LargeKept(s.heap, n, mapped)
    case Take(t, _) => TakeFits(s.heap, s.threads[t].pc.c)
    case _ => true
  }

  function SetPc(s: State, t: nat, pc: Pc): State
    requires t in s.threads
  {
    s.(threads := s.threads[t := s.threads[t].(pc := pc)])
  }

  ghost function Do(s: State, st: Step): State
    requires Sound(s) && Guard(s, st)
  {
    match st
    case Spawn(t, caching) => DoSpawn(s, t, caching)
    case Tick(time) => s.(now := time)
    case MallocLarge(t, n, mapped) => DoMallocLarge(s, n, mapped)
    case MallocSmall(t, n) => DoMallocSmall(s, t, Asked(n))
    case Lock(t) => DoLock(s, t)
    case Take(t, mapped) => DoTake(s, t, mapped)
    case Give(t, stamp) => DoGive(s, t, stamp)
    case Unlock(t) => DoUnlock(s, t)
    case Free(t, p) => SetPc(s.(held := s.held - {p}), t, Testing(p))
    case Test(t) => DoTest(s, t)
    case Route(t) => DoRoute(s, t)
    case Unmap(t) => SetPc(s.(heap := UnmapLarge(s.heap, s.threads[t].pc.base)), t, Idle)
    case Exit(t) => if s.threads[t].cache.None? then s.(threads := s.threads - {t}) else SetPc(s, t, Flushing(0, 0))
    case Flush(t) => DoFlush(s, t)
    case TrimWake => s.(trim := AtClass(s.now, 0))
    case TrimLock =>
      s.(mu := s.mu[s.trim.c := Some(Trimmer)],
         trim := Walking(s.trim.t, s.trim.c, FirstOf(s.heap.lists[s.trim.c])))
    case TrimVisit => DoVisit(s)
    case TrimUnlock => s.(mu := s.mu[s.trim.c := None], trim := AtClass(s.trim.t, s.trim.c + 1))
    case TrimDone => s.(trim := Asleep)
    case Write(p, off, v) =>
      var a := Addr(s.heap, p) + off;
      s.(heap := s.heap.(mem := (x: nat) => if x == a then v else s.heap.mem(x)))
  }

  ghost function DoSpawn(s: State, t: nat, caching: bool): State {
    var cache := if caching then Some(seq(NUM_CLASSES, _ => [])) else None;
    s.(threads := s.threads[t := Thread(Idle, cache)])
  }

  ghost function DoMallocLarge(s: State, n: nat, mapped: bool): State {
    var (g, base) := MapLarge(s.heap, n, mapped);
    var s' := s.(heap := g);
    if base.Some? then s'.(held := s.held[Large(base.value) := n]) else s'
  }

  /** malloc up to the class lock: a hit pops the cache slot of the class. */
  ghost function DoMallocSmall(s: State, t: nat, n: nat): State
    requires Sound(s) && At(s, t) && n < LARGE_MIN
  {
    var c := ClassFor(n) - 1;
    var th := s.threads[t];
    if th.cache.Some? && th.cache.value[c] != [] then
      var slot := th.cache.value[c];
      var b := slot[|slot| - 1];
      s.(threads := s.threads[t := th.(cache := Some(th.cache.value[c := slot[..|slot| - 1]]))],
         held := s.held[Small(b) := n])
    else SetPc(s, t, Waiting(c, Alloc(n)))
  }

  function DoLock(s: State, t: nat): State
    requires At(s, t) && s.threads[t].pc.Waiting? && s.threads[t].pc.c < |s.mu|
  {
    var pc := s.threads[t].pc;
    SetPc(s, t, Inside(pc.c, pc.job)).(mu := s.mu[pc.c := Some(Worker(t))])
  }

  ghost function DoTake(s: State, t: nat, mapped: bool): State
    requires Sound(s) && Guard(s, Take(t, mapped))
  {
    var (g, b) := TakeBlock(s.heap, s.threads[t].pc.c, s.now, mapped);
    TookState(s, t, g, b)
  }

  function TookState(s: State, t: nat, g: Heap, b: Option<Block>): State
    requires At(s, t) && s.threads[t].pc.Inside? && s.threads[t].pc.job.Alloc?
  {
    var pc := s.threads[t].pc;
    var s' := SetPc(s, t, Leaving(pc.c, Answer(pc.job.n, b))).(heap := g);
    if b.Some? then s'.(taken := s.taken[b.value.base := s.now]) else s'
  }

  ghost function DoGive(s: State, t: nat, stamp: nat): State
    requires Sound(s) && Guard(s, Give(t, stamp))
  {
    var b := GivenBack(s.threads[t]).value;
    GaveState(s, t, b.base, GiveBlock(s.heap, b, s.now, stamp), stamp)
  }

  function GaveState(s: State, t: nat, base: nat, g: Heap, stamp: nat): State
    requires At(s, t) && s.threads[t].pc.Inside? && !s.threads[t].pc.job.Alloc?
  {
    var s' := SetPc(s, t, GivenPc(s.threads[t].pc)).(heap := g, now := stamp);
    if base in g.runs && g.runs[base].used == 0 then s'.(emptied := s.emptied[base := stamp]) else s'
  }

  /** The thread after run_give, still inside the lock. */
  function GivenPc(pc: Pc): Pc
    requires pc.Inside? && !pc.job.Alloc?
  {
    Leaving(pc.c, if pc.job.Release? then Freed else FlushFrom(pc.job.c, pc.job.i + 1))
  }

  function DoUnlock(s: State, t: nat): State
    requires At(s, t) && s.threads[t].pc.Leaving? && s.threads[t].pc.c < |s.mu|
  {
    var pc := s.threads[t].pc;
    var s' := s.(mu := s.mu[pc.c := None]);
    match pc.after
    case Answer(n, got) =>
      var s'' := SetPc(s', t, Idle);
      if got.Some? then s''.(held := s.held[Small(got.value) := n]) else s''
    case Freed => SetPc(s', t, Idle)
    case FlushFrom(c, i) => SetPc(s', t, Flushing(c, i))
  }

  /** free's ownership test, on the bare address. A pointer neither test accepts is dropped. */
  ghost function DoTest(s: State, t: nat): State
    requires Sound(s) && Guard(s, Test(t))
  {
    var p := s.threads[t].pc.p;
    var a := Addr(s.heap, p);
    match RouteOf(s.heap, a)
    case ToRun(base) => SetPc(s, t, Routed(BlockAt(s.heap, base, a)))
    case ToLarge(base) => SetPc(s, t, Unmapping(base))
    case Unrecognised =>
      SetPc(s, t, Idle).(leaked := if p.Small? then s.leaked + {p.b} else s.leaked)
  }

  /** The block at address `a` of the run at `base`, as run_give computes its index. */
  ghost function BlockAt(h: Heap, base: nat, a: nat): Block
    requires OursSmall(h, a) && base == RunOf(a)
  {
    var r := h.runs[base];
    var off: nat := a - (base + DataOffset(Elems(r.elem)));
    Block(base, Quotient(off, r.elem))
  }

  /** The unlocked class read, then the cache if it has room, else the lock. */
  function DoRoute(s: State, t: nat): State
    requires At(s, t) && s.threads[t].pc.Routed? && s.threads[t].pc.b.base in s.heap.runs
    requires ValidClass(s.heap.runs[s.threads[t].pc.b.base].cls)
    requires s.threads[t].cache.Some? ==> |s.threads[t].cache.value| == NUM_CLASSES
  {
    var th := s.threads[t];
    var b := th.pc.b;
    var c := s.heap.runs[b.base].cls - 1;
    if th.cache.Some? && |th.cache.value[c]| < CACHE_SLOTS then
      s.(threads := s.threads[t := Thread(Idle, Some(th.cache.value[c := th.cache.value[c] + [b]]))])
    else SetPc(s, t, Waiting(c, Release(b)))
  }

  /** One turn of the exit destructor: next slot, next class, or the end of the thread. */
  ghost function DoFlush(s: State, t: nat): State
    requires Sound(s) && Guard(s, Flush(t))
  {
    var th := s.threads[t];
    var c, i := th.pc.c, th.pc.i;
    if c >= NUM_CLASSES then s.(threads := s.threads - {t})
    else if i >= |th.cache.value[c]| then SetPc(s, t, Flushing(c + 1, 0))
    else
      var b := th.cache.value[c][i];
      match RouteOf(s.heap, Addr(s.heap, Small(b)))
      case ToRun(base) => SetPc(s, t, Waiting(ClassRead(s.heap, base), FlushSlot(c, i)))
      case _ => SetPc(s, t, Flushing(c, i + 1)).(leaked := s.leaked + {b})
  }

  function ClassRead(h: Heap, base: nat): nat {
    if base in h.runs && h.runs[base].cls > 0 then h.runs[base].cls - 1 else 0
  }

  function FirstOf(list: seq<nat>): Option<nat> { if list == [] then None else Some(list[0]) }

  /** r->next: the run after `x`. */
  function NextOf(list: seq<nat>, x: nat): Option<nat> {
    if list == [] then None else if list[0] == x then FirstOf(list[1..]) else NextOf(list[1..], x)
  }

  /** One turn of the trim walk: the successor is read first, then the run is purged. */
  ghost function DoVisit(s: State): State
    requires Sound(s) && Guard(s, TrimVisit)
  {
    var tr := s.trim;
    s.(heap := PurgeRun(s.heap, tr.cur.value, tr.t, s.runIdle, s.dirtyIdle),
       trim := Walking(tr.t, tr.c, NextOf(s.heap.lists[tr.c], tr.cur.value)))
  }

  // ---------------------------------------------------------------- runs of the system

  ghost function Initial(start: nat, size: nat, now: nat, runIdle: nat, dirtyIdle: nat): State {
    State(EmptyHeap(start, size), map[], Asleep, seq(NUM_CLASSES, _ => None), map[], {}, now, runIdle, dirtyIdle,
          map[], map[])
  }

  /** `trace` is a run of the system: consecutive states are joined by the given steps, and none of them upsets the
      reserve. */
  ghost predicate Trace(trace: seq<State>, steps: seq<Step>) {
    && |trace| == |steps| + 1
    && (forall i :: 0 <= i < |steps| ==>
          && Sound(trace[i]) && Guard(trace[i], steps[i]) && Orderly(trace[i], steps[i])
          && trace[i + 1] == Do(trace[i], steps[i]))
  }

  /** Starting from an empty reserve below the kernel's addresses, with a positive clock. */
  ghost predicate Starts(s: State) {
    exists start: nat, size: nat, now: nat, runIdle: nat, dirtyIdle: nat ::
      now > 0 && start + size <= USER_TOP && s == Initial(start, size, now, runIdle, dirtyIdle)
  }
}
