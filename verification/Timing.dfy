/** The clock side of the trimmer: what the "fully free" stamp means in every reachable state, and how long
    an unmapped run had been idle. */
module Timing {
  import opened Arith
  import opened SizeClasses
  import opened Bitmap
  import opened RunSpec
  import opened Options
  import opened HeapSpec
  import opened HeapProofs
  import opened Ownership
  import opened Protocol
  import ProtocolSteps
  import opened ProtocolHeapSteps
  import opened Guarantees

  /** The stamp of an empty run is the moment it last became empty, later than every take; a run in use
      has no stamp. `taken` and `emptied` are the histories kept by the step system. */
  ghost predicate RunTime(s: State, base: nat)
    requires base in s.heap.runs
  {
    var r := s.heap.runs[base];
    && base in s.taken && s.taken[base] <= s.now && r.touchedAt <= s.now
    && (r.used > 0 ==> r.fullyFreeAt == 0)
    && (r.used == 0 ==>
          base in s.emptied && r.fullyFreeAt == s.emptied[base] > 0 && s.taken[base] <= s.emptied[base] <= s.now)
  }

  ghost predicate TrimTime(s: State) {
    match s.trim
    case Asleep => true
    case AtClass(t, _) => t <= s.now
    case Walking(t, _, _) => t <= s.now
  }

  ghost predicate Timed(s: State) {
    s.now > 0 && TrimTime(s) && forall base :: base in s.heap.runs ==> RunTime(s, base)
  }

  /** All runs but the one at `base` are as before. */
  lemma TimedFrame(s: State, s': State, base: nat)
    requires Timed(s) && s.now <= s'.now && TrimTime(s')
    requires forall b :: b in s'.heap.runs && b != base ==>
               b in s.heap.runs && s'.heap.runs[b] == s.heap.runs[b]
    requires forall b :: b != base ==> (b in s.taken <==> b in s'.taken) && (b in s.emptied <==> b in s'.emptied)
    requires forall b :: b != base && b in s.taken ==> s'.taken[b] == s.taken[b]
    requires forall b :: b != base && b in s.emptied ==> s'.emptied[b] == s.emptied[b]
    requires base in s'.heap.runs ==> RunTime(s', base)
    ensures Timed(s')
  {
    forall b | b in s'.heap.runs ensures RunTime(s', b) {
      if b != base { assert RunTime(s, b); }
    }
  }

  /** The steps that touch no run header. */
  predicate Aside(st: Step) { !st.Take? && !st.Give? && !st.TrimVisit? }

  ghost predicate Untouched(s: State, s': State) {
    && s'.heap.runs == s.heap.runs && s'.taken == s.taken && s'.emptied == s.emptied && s.now <= s'.now
    && (TrimTime(s) ==> TrimTime(s')) && s'.runIdle == s.runIdle && s'.dirtyIdle == s.dirtyIdle
  }

  /** Nothing shared changed at all. */
  ghost predicate OwnBusiness(s: State, s': State) {
    Untouched(s, s') && s'.heap == s.heap && s'.trim == s.trim
  }

  /** A thread's own steps leave the shared state alone. */
  lemma ThreadAside(s: State, st: Step)
    requires Sound(s) && Guard(s, st) && ThreadStep(st)
    ensures OwnBusiness(s, Do(s, st))
  {
    hide Sound, Consistent, Addr, ClassFor, DoTest, DoFlush, DoUnlock, DoRoute, DoMallocSmall;
    match st {
      case MallocSmall(t, n) => SmallAside(s, t, Asked(n));
      case Unlock(t) => CanUnlockNow(s, t); UnlockAside(s, t);
      case Test(t) => TestAside(s, t);
      case Route(t) => CanRouteNow(s, t); RouteAside(s, t);
      case Flush(t) => FlushAside(s, t);
      case _ =>
    }
  }

  lemma SmallAside(s: State, t: nat, n: nat)
    requires Sound(s) && At(s, t) && n < LARGE_MIN
    ensures OwnBusiness(s, DoMallocSmall(s, t, n))
  {
    hide Sound, ClassFor;
  }

  lemma UnlockAside(s: State, t: nat)
    requires t in s.threads && s.threads[t].pc.Leaving? && s.threads[t].pc.c < |s.mu|
    ensures OwnBusiness(s, DoUnlock(s, t))
  {}

  lemma TestAside(s: State, t: nat)
    requires Sound(s) && Guard(s, Test(t))
    ensures OwnBusiness(s, DoTest(s, t))
  {
    hide Sound, Guard, RouteOf, Addr;
  }

  lemma RouteAside(s: State, t: nat)
    requires ProtocolSteps.CanRoute(s, t)
    ensures OwnBusiness(s, DoRoute(s, t))
  {}

  lemma FlushAside(s: State, t: nat)
    requires Sound(s) && Guard(s, Flush(t))
    ensures OwnBusiness(s, DoFlush(s, t))
  {
    hide Sound, Guard, RouteOf, Addr, ClassRead;
  }

  lemma AsideSame(s: State, st: Step)
    requires Sound(s) && Guard(s, st) && Aside(st)
    ensures Untouched(s, Do(s, st))
  {
    hide Sound, Guard, Orderly, Do, Untouched;
    if ThreadStep(st) { ThreadAside(s, st); } else { SharedAside(s, st); }
  }

  lemma SharedAside(s: State, st: Step)
    requires Sound(s) && Guard(s, st) && Aside(st) && !ThreadStep(st)
    ensures Untouched(s, Do(s, st))
  {
    hide Sound, Consistent, ThreadSound, TrimSound, Addr, MapLarge, UnmapLarge;
    match st {
      case MallocLarge(_, n, mapped) => LargeAside(s.heap, n, mapped);
      case Unmap(t) => UnmapNow(s, t); UnmapAside(s.heap, s.threads[t].pc.base);
      case _ =>
    }
  }

  lemma UnmapAside(h: Heap, base: nat)
    requires base in h.large
    ensures UnmapLarge(h, base).runs == h.runs
  {}

  lemma LargeAside(h: Heap, n: nat, mapped: bool)
    ensures MapLarge(h, n, mapped).0.runs == h.runs
  {}

  lemma InsideClass(s: State, t: nat)
    requires Sound(s) && t in s.threads && s.threads[t].pc.Inside?
    ensures HasClass(s.heap, s.threads[t].pc.c)
  {
    hide Consistent, TrimSound;
    assert ThreadSound(s.heap, s.threads[t]);
  }

  lemma TakenTime(s: State, t: nat, mapped: bool)
    requires Sound(s) && Guard(s, Step.Take(t, mapped)) && Timed(s)
    ensures Timed(DoTake(s, t, mapped))
  {
    InsideClass(s, t);
    hide Sound, Consistent, TakeBlock, Timed, TookState, NowInUse;
    TakeEffect(s.heap, s.threads[t].pc.c, s.now, mapped);
    var (g, b) := TakeBlock(s.heap, s.threads[t].pc.c, s.now, mapped);
    TookTime(s, t, g, b);
  }

  lemma TookTime(s: State, t: nat, g: Heap, b: Option<Block>)
    requires Timed(s) && t in s.threads && s.threads[t].pc.Inside? && s.threads[t].pc.job.Alloc?
    requires if b.None? then g.runs == s.heap.runs else NowInUse(s.heap, g, b.value.base, s.now)
    ensures Timed(TookState(s, t, g, b))
  {
    var base := if b.None? then 0 else b.value.base;
    assert base in s.heap.runs ==> RunTime(s, base);
    TimedFrame(s, TookState(s, t, g, b), base);
  }

  /** Only the run at `base` changed, and it is in use with no new stamp. */
  ghost predicate NowInUse(h: Heap, g: Heap, base: nat, now: nat) {
    && base in g.runs && g.runs == h.runs[base := g.runs[base]]
    && g.runs[base].used > 0 && g.runs[base].touchedAt == now
    && (g.runs[base].fullyFreeAt == 0
        || (base in h.runs && h.runs[base].used > 0 && g.runs[base].fullyFreeAt == h.runs[base].fullyFreeAt))
  }

  lemma TakeEffect(h: Heap, c: nat, now: nat, mapped: bool)
    requires HasClass(h, c)
    ensures
      var (g, b) := TakeBlock(h, c, now, mapped);
      if b.None? then g.runs == h.runs else NowInUse(h, g, b.value.base, now)
  {
    hide Consistent, Size, MapBytes, FreshTaken, Elems, Below;
    var ss := ClassStates(h, c);
    var i := FirstWithRoom(ss);
    if i < |ss| {
      FullIffNoneFree(ss[i]);
    } else {
      SizeBounds(c + 1);
      FreshTakenFacts(c + 1, Size(c + 1), now);
    }
  }

  /** The run at `base` lost one user, and got a stamp if that was the last. */
  ghost predicate LostUser(h: Heap, g: Heap, base: nat, touch: nat, stamp: nat) {
    && base in h.runs && base in g.runs && g.runs == h.runs[base := g.runs[base]]
    && h.runs[base].used > 0 && g.runs[base].used == h.runs[base].used - 1 && g.runs[base].touchedAt == touch
    && g.runs[base].fullyFreeAt ==
       if g.runs[base].used == 0 && h.runs[base].fullyFreeAt == 0 then stamp else h.runs[base].fullyFreeAt
  }

  lemma GivenTime(s: State, t: nat, stamp: nat)
    requires Sound(s) && Guard(s, Give(t, stamp)) && Timed(s)
    ensures Timed(DoGive(s, t, stamp))
  {
    GivenIssued(s, t);
    hide Sound, Consistent, GiveBlock, Issued, Timed, GaveState, LostUser;
    var b := GivenBack(s.threads[t]).value;
    GiveEffect(s.heap, b, s.now, stamp);
    GaveTime(s, t, b.base, GiveBlock(s.heap, b, s.now, stamp), stamp);
  }

  lemma GaveTime(s: State, t: nat, base: nat, g: Heap, stamp: nat)
    requires Timed(s) && t in s.threads && s.threads[t].pc.Inside? && !s.threads[t].pc.job.Alloc?
    requires s.now <= stamp && LostUser(s.heap, g, base, s.now, stamp)
    ensures Timed(GaveState(s, t, base, g, stamp))
  {
    assert RunTime(s, base);
    TimedFrame(s, GaveState(s, t, base, g, stamp), base);
  }

  lemma GiveEffect(h: Heap, b: Block, touch: nat, stamp: nat)
    requires Consistent(h) && Issued(h, Small(b))
    ensures LostUser(h, GiveBlock(h, b, touch, stamp), b.base, touch, stamp)
  {
    hide Consistent, Elems;
    IssuedUsed(h, b);
  }

  lemma VisitTime(s: State)
    requires Sound(s) && Guard(s, TrimVisit) && Timed(s)
    ensures Timed(DoVisit(s))
  {
    var base := s.trim.cur.value;
    var s' := DoVisit(s);
    PurgeEffect(s.heap, base, s.trim.t, s.runIdle, s.dirtyIdle);
    hide Sound, Consistent, ThreadSound, Guard, PurgeRun;
    assert RunTime(s, base);
    TimedFrame(s, s', base);
  }

  lemma PurgeEffect(h: Heap, base: nat, t: nat, runIdle: nat, dirtyIdle: nat)
    requires Consistent(h) && base in h.runs
    ensures
      var g := PurgeRun(h, base, t, runIdle, dirtyIdle);
      && (base !in g.runs <==> IdleFree(h.runs[base], t, runIdle))
      && (forall b :: b in g.runs ==> b in h.runs && (b != base ==> g.runs[b] == h.runs[b]))
      && (base in g.runs ==>
            && g.runs[base].used == h.runs[base].used && g.runs[base].fullyFreeAt == h.runs[base].fullyFreeAt
            && g.runs[base].touchedAt == if IdleDirty(h.runs[base], t, dirtyIdle) then t else h.runs[base].touchedAt)
  {
    hide Consistent, Sub64, MapBytes;
  }

  lemma StepTime(s: State, st: Step)
    requires Sound(s) && Guard(s, st) && Timed(s)
    ensures Timed(Do(s, st))
  {
    hide Sound, Consistent, Timed, DoTake, DoGive, DoVisit;
    match st {
      case Take(t, mapped) => TakenTime(s, t, mapped);
      case Give(t, stamp) => GivenTime(s, t, stamp);
      case TrimVisit => VisitTime(s);
      case _ => AsideTime(s, st);
    }
  }

  lemma AsideTime(s: State, st: Step)
    requires Sound(s) && Guard(s, st) && Aside(st) && Timed(s)
    ensures Timed(Do(s, st))
  {
    hide Sound, Guard, Orderly, Do;
    AsideSame(s, st);
    assert 0 in s.heap.runs ==> RunTime(s, 0);
    TimedFrame(s, Do(s, st), 0);
  }

  // ---------------------------------------------------------------- whole runs

  lemma {:induction false} ExecutionTimed(trace: seq<State>, steps: seq<Step>, k: nat)
    requires Execution(trace, steps) && k <= |steps|
    ensures Timed(trace[k])
  {
    hide Sound, Guard, Orderly, Do, Timed;
    if k == 0 {
      StartTimed(trace[0]);
    } else {
      ExecutionTimed(trace, steps, k - 1);
      StepTime(trace[k - 1], steps[k - 1]);
    }
  }

  lemma StartTimed(s: State)
    requires Starts(s)
    ensures Timed(s)
  {}

  /** In every reachable state a run is empty exactly when it is stamped, and the stamp is the start of its
      present empty period: no block was taken since. */
  lemma StampMeaning(s: State, base: nat)
    requires Arises(s) && base in s.heap.runs
    ensures Stamped(s.heap.runs[base]) && RunTime(s, base)
  {
    hide Sound, Guard, Orderly, Do, Starts, RunTime;
    var trace, steps :| Execution(trace, steps) && trace[|steps|] == s;
    ExecutionTimed(trace, steps, |steps|);
    assert RunTime(s, base);
    StampedByTime(s, base);
  }

  lemma StampedByTime(s: State, base: nat)
    requires base in s.heap.runs && RunTime(s, base)
    ensures Stamped(s.heap.runs[base])
  {}

  /** Step `st` from `s` is malloc taking a block of the run at `base`. */
  ghost predicate TakesFrom(s: State, st: Step, base: nat) {
    && Sound(s) && Guard(s, st) && st.Take?
    && (var (_, b) := TakeBlock(s.heap, s.threads[st.t].pc.c, s.now, st.mapped); b.Some? && b.value.base == base)
  }

  lemma TakenNow(s: State, st: Step, base: nat)
    requires TakesFrom(s, st, base)
    ensures base in Do(s, st).taken && Do(s, st).taken[base] == s.now
  {
    hide Sound, TakeBlock;
  }

  /** The clock and the take history of a run only move forward. */
  ghost predicate Forward(s: State, s': State, base: nat) {
    && s.now <= s'.now
    && (base in s.taken && s.taken[base] <= s.now ==> base in s'.taken && s.taken[base] <= s'.taken[base] <= s'.now)
  }

  lemma StepForward(s: State, st: Step, base: nat)
    requires Sound(s) && Guard(s, st)
    ensures Forward(s, Do(s, st), base)
  {
    hide Sound, Consistent, DoTake, DoGive, DoVisit;
    match st {
      case Take(t, mapped) => TakeForward(s, t, mapped, base);
      case Give(t, stamp) => GiveForward(s, t, stamp, base);
      case TrimVisit => VisitForward(s, base);
      case _ => AsideSame(s, st);
    }
  }

  lemma TakeForward(s: State, t: nat, mapped: bool, base: nat)
    requires Sound(s) && Guard(s, Step.Take(t, mapped))
    ensures Forward(s, DoTake(s, t, mapped), base)
  {
    hide Sound, Consistent, TakeBlock;
  }

  lemma GiveForward(s: State, t: nat, stamp: nat, base: nat)
    requires Sound(s) && Guard(s, Give(t, stamp))
    ensures Forward(s, DoGive(s, t, stamp), base)
  {
    hide Sound, Consistent, GiveBlock;
  }

  lemma VisitForward(s: State, base: nat)
    requires Sound(s) && Guard(s, TrimVisit)
    ensures Forward(s, DoVisit(s), base)
  {
    hide Sound, Consistent, PurgeRun;
  }

  lemma {:induction false} TakenSince(trace: seq<State>, steps: seq<Step>, j: nat, k: nat, base: nat)
    requires Execution(trace, steps) && j < k <= |steps| && TakesFrom(trace[j], steps[j], base)
    ensures base in trace[k].taken && trace[j].now <= trace[k].taken[base] <= trace[k].now
  {
    hide Sound, Guard, Orderly, Do, Starts, Timed, TakesFrom;
    if k == j + 1 {
      TakenNow(trace[j], steps[j], base);
      StepForward(trace[j], steps[j], base);
    } else {
      TakenSince(trace, steps, j, k - 1, base);
      StepForward(trace[k - 1], steps[k - 1], base);
    }
  }

  /** A run unmapped on a clock value not before its stamp lost no block to malloc during the idle time
      before that value. */
  lemma UnmappedAfterIdle(trace: seq<State>, steps: seq<Step>, j: nat, k: nat)
    requires Execution(trace, steps) && j < k < |steps| && steps[k] == TrimVisit
    requires trace[k].trim.Walking? && trace[k].trim.cur.Some?
    requires
      var base := trace[k].trim.cur.value;
      && base in trace[k].heap.runs && base !in trace[k + 1].heap.runs
      && trace[k].heap.runs[base].fullyFreeAt <= trace[k].trim.t < WORD64
      && TakesFrom(trace[j], steps[j], base)
    ensures trace[j].now + trace[k].runIdle <= trace[k].trim.t <= trace[k].now
  {
    var s := trace[k];
    var base := s.trim.cur.value;
    TakenSince(trace, steps, j, k, base);
    ExecutionTimed(trace, steps, k);
    assert RunTime(s, base);
    hide TakesFrom, Starts, Execution, Consistent, RunTime;
    VisitDrops(s, base);
    NoWrap(s.heap.runs[base], s.trim.t, s.runIdle);
    EmptySince(s, base);
  }

  lemma EmptySince(s: State, base: nat)
    requires base in s.heap.runs && RunTime(s, base) && s.heap.runs[base].used == 0
    ensures base in s.taken && s.taken[base] <= s.heap.runs[base].fullyFreeAt
  {}

  lemma VisitDrops(s: State, base: nat)
    requires Sound(s) && Guard(s, TrimVisit) && s.trim.cur == Some(base) && base in s.heap.runs
    requires base !in Do(s, TrimVisit).heap.runs
    ensures IdleFree(s.heap.runs[base], s.trim.t, s.runIdle)
  {
    hide ThreadSound, TrimSound, Consistent, PurgeRun, IdleFree;
    PurgeEffect(s.heap, base, s.trim.t, s.runIdle, s.dirtyIdle);
  }

  lemma NoWrap(r: RunState, t: nat, runIdle: nat)
    requires r.fullyFreeAt <= t < WORD64
    ensures IdleFree(r, t, runIdle) <==> r.used == 0 && r.fullyFreeAt + runIdle <= t
  {
    ModUnique(t - r.fullyFreeAt, WORD64, 0, t - r.fullyFreeAt);
  }

  /** The idle time of pages is computed in the same way, so that a run whose pages are purged was left alone for
      the idle time exactly when it was not touched after the clock was read. */
  lemma DirtyLongEnoughIff(r: RunState, t: nat, dirtyIdle: nat)
    requires r.touchedAt < WORD64 && t < WORD64 && IdleDirty(r, t, dirtyIdle)
    ensures r.touchedAt + dirtyIdle <= t <==> r.touchedAt <= t
  {
    if r.touchedAt <= t {
      ModUnique(t - r.touchedAt, WORD64, 0, t - r.touchedAt);
    }
  }

  /** The subtraction wraps when the run became empty after the trimmer read its clock, and then the run is
      unmapped at once: an empty run that purge_run unmaps was idle long enough exactly when the stamp is
      not after the clock value. */
  lemma IdleLongEnoughIff(r: RunState, t: nat, runIdle: nat)
    requires r.fullyFreeAt < WORD64 && t < WORD64 && IdleFree(r, t, runIdle)
    ensures r.fullyFreeAt + runIdle <= t <==> r.fullyFreeAt <= t
  {
    if r.fullyFreeAt <= t {
      NoWrap(r, t, runIdle);
    }
  }
}
