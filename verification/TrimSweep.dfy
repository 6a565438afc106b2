/** One pass of the trimmer over a class, in any interleaving: while it holds the class lock nobody else
    changes the class, so at unlock the class is exactly what the sequential sweep makes of it. */
module TrimSweep {
  import opened Seqs
  import opened SizeClasses
  import opened RunSpec
  import opened Options
  import opened HeapSpec
  import opened HeapProofs
  import opened Issuing
  import opened Agreement
  import opened Protocol
  import opened ProtocolInv
  import opened ProtocolHeapSteps
  import opened Guarantees
  import Timing
  import Integrity

  // ---------------------------------------------------------------- the other steps

  /** A block about to be given back belongs to the class whose lock is held. */
  lemma GivenClass(s: State, own: map<Ptr, Place>, t: nat)
    requires Inv(s, own) && t in s.threads && GivenBack(s.threads[t]).Some?
    ensures
      var b := GivenBack(s.threads[t]).value;
      Issued(s.heap, Small(b)) && s.heap.runs[b.base].cls == s.threads[t].pc.c + 1
  {
    hide Consistent, Owned, OwnsIssued, AllOk, LocksOk, TrimSound, Ownership.Reachable, ClassFor;
    var th := s.threads[t];
    assert ThreadOk(th);
    match th.pc.job
    case Release(b) =>
      assert InPlace(s, Small(b), In(t, Carry));
      OwnedIssued(s, own, Small(b), In(t, Carry));
    case FlushSlot(c, i) =>
      var b := th.cache.value[c][i];
      assert InPlace(s, Small(b), In(t, Slot(c, i)));
      OwnedIssued(s, own, Small(b), In(t, Slot(c, i)));
  }

  /** Same runs, same lists, same class. */
  lemma UnchangedClass(h: Heap, g: Heap, d: nat)
    requires HasClass(h, d) && HasClass(g, d) && g.runs == h.runs && g.lists == h.lists
    ensures SameClass(h, g, d)
  {}

  /** The walked class and the walk itself stand still. */
  ghost predicate StandsStill(s: State, u: State) {
    && s.trim.Walking? && SameClass(s.heap, u.heap, s.trim.c)
    && u.trim == s.trim && u.runIdle == s.runIdle && u.dirtyIdle == s.dirtyIdle
  }

  /** No step but the trimmer's own changes the class it is walking. */
  lemma OthersKeepClass(s: State, st: Step)
    requires Arises(s) && Sound(s) && Guard(s, st) && Orderly(s, st)
    requires s.trim.Walking? && st != TrimVisit && st != TrimUnlock
    ensures StandsStill(s, Do(s, st))
  {
    hide Arises, Inv, Sound, Guard, Orderly, Do, StandsStill;
    var own := ReachableInv(s);
    var after := StepKeeps(s, own, st);
    InvClass(s, own);
    InvConsistent(Do(s, st), after);
    if ThreadStep(st) { OwnStepStill(s, st); } else { SharedStepStill(s, own, st); }
  }

  lemma InvClass(s: State, own: map<Ptr, Place>)
    requires Inv(s, own) && s.trim.Walking?
    ensures HasClass(s.heap, s.trim.c)
  {
    hide Consistent;
  }

  lemma InvConsistent(s: State, own: map<Ptr, Place>)
    requires Inv(s, own)
    ensures Consistent(s.heap)
  {
    hide Consistent;
  }

  lemma OwnStepStill(s: State, st: Step)
    requires Sound(s) && Guard(s, st) && ThreadStep(st) && s.trim.Walking? && HasClass(s.heap, s.trim.c)
    ensures StandsStill(s, Do(s, st))
  {
    hide Sound, Guard, Orderly, Do, Consistent;
    Timing.ThreadAside(s, st);
    UnchangedClass(s.heap, Do(s, st).heap, s.trim.c);
  }

  lemma SharedStepStill(s: State, own: map<Ptr, Place>, st: Step)
    requires Inv(s, own) && Sound(s) && Guard(s, st) && Orderly(s, st)
    requires !ThreadStep(st) && st != TrimVisit && st != TrimUnlock
    requires s.trim.Walking? && HasClass(s.heap, s.trim.c) && Consistent(Do(s, st).heap)
    ensures StandsStill(s, Do(s, st))
  {
    hide Sound, Inv, Consistent, DoTake, DoGive, StandsStill, Do, Orderly;
    match st {
      case Take(t, mapped) => TakeElsewhere(s, own, t, mapped); DoIsTake(s, st);
      case Give(t, stamp) => GiveElsewhere(s, own, t, stamp); DoIsGive(s, st);
      case _ => RestStill(s, st);
    }
  }

  lemma DoIsTake(s: State, st: Step)
    requires Sound(s) && Guard(s, st) && st.Take?
    ensures Do(s, st) == DoTake(s, st.t, st.mapped)
  {
    hide Sound, DoTake;
  }

  lemma DoIsGive(s: State, st: Step)
    requires Sound(s) && Guard(s, st) && st.Give?
    ensures Do(s, st) == DoGive(s, st.t, st.stamp)
  {
    hide Sound, DoGive;
  }

  /** Large regions, client writes and the clock. */
  lemma RestStill(s: State, st: Step)
    requires Sound(s) && Guard(s, st) && !ThreadStep(st) && !st.Take? && !st.Give?
    requires st != TrimVisit && st != TrimUnlock
    requires s.trim.Walking? && HasClass(s.heap, s.trim.c) && Consistent(Do(s, st).heap)
    ensures StandsStill(s, Do(s, st))
  {
    RestShape(s, st);
    hide Sound, Guard, Orderly, Do, Consistent, SameClass;
    UnchangedClass(s.heap, Do(s, st).heap, s.trim.c);
  }

  lemma RestShape(s: State, st: Step)
    requires Sound(s) && Guard(s, st) && !ThreadStep(st) && !st.Take? && !st.Give?
    requires st != TrimVisit && st != TrimUnlock
    requires s.trim.Walking?
    ensures
      var u := Do(s, st);
      && u.heap.runs == s.heap.runs && u.heap.lists == s.heap.lists
      && u.trim == s.trim && u.runIdle == s.runIdle && u.dirtyIdle == s.dirtyIdle
  {
    hide Sound, MapLarge, UnmapLarge, Consistent, HeapStep, Issued;
    match st {
      case MallocLarge(_, n, mapped) => Integrity.SoundHeap(s); MapLargeStep(s.heap, n, mapped);
      case Unmap(t) => Integrity.SoundHeap(s); UnmapNow(s, t); UnmapLargeStep(s.heap, s.threads[t].pc.base);
      case _ =>
    }
  }

  lemma TakeElsewhere(s: State, own: map<Ptr, Place>, t: nat, mapped: bool)
    requires Inv(s, own) && Sound(s) && Guard(s, Step.Take(t, mapped)) && Orderly(s, Step.Take(t, mapped))
    requires s.trim.Walking?
    ensures StandsStill(s, DoTake(s, t, mapped))
  {
    hide Sound, Consistent, Owned, OwnsIssued, AllOk, ThreadsOk, TakeBlock, TakeFits, SameClass;
    Timing.InsideClass(s, t);
    OtherClass(s, t);
    OtherTaken(s.heap, s.threads[t].pc.c, s.trim.c, s.now, mapped);
  }

  lemma OtherTaken(h: Heap, c: nat, d: nat, now: nat, mapped: bool)
    requires HasClass(h, c) && TakeFits(h, c) && HasClass(h, d) && d != c
    ensures HasClass(TakeBlock(h, c, now, mapped).0, d) && SameClass(h, TakeBlock(h, c, now, mapped).0, d)
  {
    hide Consistent, TakeBlock, TakeFits, RunFits, Allocated, AllocatedIndex, HeapStep, ClassStates, Elems;
    TakeIsAllocate(h, c, now, mapped);
    TakeStep(h, c, now, mapped);
  }

  lemma GiveElsewhere(s: State, own: map<Ptr, Place>, t: nat, stamp: nat)
    requires Inv(s, own) && Sound(s) && Guard(s, Give(t, stamp)) && s.trim.Walking?
    ensures StandsStill(s, DoGive(s, t, stamp))
  {
    hide Sound, Consistent, Issued, Owned, OwnsIssued, AllOk, ThreadsOk, GiveBlock, SameClass;
    GivenClass(s, own, t);
    OtherClass(s, t);
    var c, i := GiveIsGiven(s.heap, GivenBack(s.threads[t]).value, s.now, stamp);
  }

  // ---------------------------------------------------------------- the walk

  lemma {:induction false} NextOfAt(list: seq<nat>, i: nat)
    requires Distinct(list) && i < |list|
    ensures NextOf(list, list[i]) == if i + 1 < |list| then Some(list[i + 1]) else None
  {
    if i > 0 {
      var rest := list[1..];
      forall a, b | 0 <= a < b < |rest| ensures rest[a] != rest[b] { assert list[a + 1] != list[b + 1]; }
      assert list[0] != list[i];
      NextOfAt(rest, i - 1);
    }
  }

  /** The first m of the old runs have been visited, the others are as they were. */
  ghost predicate Midway(list: seq<nat>, ss: seq<RunState>, m: nat, now: seq<nat>, tt: seq<RunState>,
                         t: nat, runIdle: nat, dirtyIdle: nat)
  {
    && |list| == |ss| && m <= |list|
    && now == Survivors(list[..m], ss[..m], t, runIdle) + list[m..]
    && tt == Swept(ss[..m], t, runIdle, dirtyIdle) + ss[m..]
  }

  /** The next run to visit stands right after the survivors so far. */
  lemma MidwayHere(list: seq<nat>, ss: seq<RunState>, m: nat, now: seq<nat>, tt: seq<RunState>,
                   t: nat, runIdle: nat, dirtyIdle: nat) returns (pos: nat)
    requires Midway(list, ss, m, now, tt, t, runIdle, dirtyIdle) && m < |list|
    ensures pos == |Survivors(list[..m], ss[..m], t, runIdle)| == |Swept(ss[..m], t, runIdle, dirtyIdle)|
    ensures pos < |now| == |tt| && now[pos] == list[m] && tt[pos] == ss[m]
    ensures pos + 1 < |now| <==> m + 1 < |list|
    ensures m + 1 < |list| ==> now[pos + 1] == list[m + 1]
  {
    hide Survivors, Swept;
    pos := |Survivors(list[..m], ss[..m], t, runIdle)|;
    SurvivorCount(list[..m], ss[..m], t, runIdle, dirtyIdle);
    assert list[m..][0] == list[m] && ss[m..][0] == ss[m];
    if m + 1 < |list| { assert now[pos + 1] == list[m..][1] == list[m + 1]; }
  }

  lemma MidwayNext(list: seq<nat>, ss: seq<RunState>, m: nat, pos: nat, now: seq<nat>, tt: seq<RunState>,
                   next: seq<nat>, uu: seq<RunState>, t: nat, runIdle: nat, dirtyIdle: nat)
    requires Midway(list, ss, m, now, tt, t, runIdle, dirtyIdle) && m < |list|
    requires pos == |Survivors(list[..m], ss[..m], t, runIdle)| == |Swept(ss[..m], t, runIdle, dirtyIdle)|
    requires pos < |now| == |tt| && tt[pos] == ss[m]
    requires VisitedAt(tt, now, uu, next, pos, t, runIdle, dirtyIdle)
    ensures Midway(list, ss, m + 1, next, uu, t, runIdle, dirtyIdle)
  {
    assert list[..m + 1][..m] == list[..m] && ss[..m + 1][..m] == ss[..m];
    assert list[m..] == [list[m]] + list[m + 1..] && ss[m..] == [ss[m]] + ss[m + 1..];
  }

  /** In state s the trimmer is walking class c with m runs behind it. */
  ghost predicate Walked(s: State, c: nat, list: seq<nat>, ss: seq<RunState>, m: nat,
                         t: nat, runIdle: nat, dirtyIdle: nat)
  {
    && HasClass(s.heap, c) && s.runIdle == runIdle && s.dirtyIdle == dirtyIdle
    && Midway(list, ss, m, ListOf(s.heap, c), ClassStates(s.heap, c), t, runIdle, dirtyIdle)
    && s.trim == Walking(t, c, if m < |list| then Some(list[m]) else None)
  }

  lemma VisitWalks(s: State, c: nat, list: seq<nat>, ss: seq<RunState>, m: nat, t: nat, runIdle: nat, dirtyIdle: nat)
    requires Sound(s) && Guard(s, TrimVisit) && Walked(s, c, list, ss, m, t, runIdle, dirtyIdle)
    ensures m < |list| && Walked(Do(s, TrimVisit), c, list, ss, m + 1, t, runIdle, dirtyIdle)
  {
    Integrity.VisitedRun(s);
    hide Sound, HasClass, ClassStates, PurgeRun, Midway, ListOf;
    VisitedMidway(s.heap, c, list, ss, m, t, runIdle, dirtyIdle);
    VisitTrim(s, c);
  }

  lemma VisitTrim(s: State, c: nat)
    requires Sound(s) && Guard(s, TrimVisit) && s.trim.c == c && HasClass(s.heap, c)
    ensures
      var u := Do(s, TrimVisit);
      && s.trim.cur.value in s.heap.runs
      && u.heap == PurgeRun(s.heap, s.trim.cur.value, s.trim.t, s.runIdle, s.dirtyIdle)
      && u.trim == Walking(s.trim.t, c, NextOf(ListOf(s.heap, c), s.trim.cur.value))
      && u.runIdle == s.runIdle && u.dirtyIdle == s.dirtyIdle
  {
    Integrity.VisitedRun(s);
    hide Sound, PurgeRun, Consistent;
  }

  /** One visit takes the class from m runs behind to m + 1. */
  lemma VisitedMidway(h: Heap, c: nat, list: seq<nat>, ss: seq<RunState>, m: nat, t: nat, runIdle: nat, dirtyIdle: nat)
    requires HasClass(h, c) && Midway(list, ss, m, ListOf(h, c), ClassStates(h, c), t, runIdle, dirtyIdle) && m < |list|
    ensures list[m] in h.runs
    ensures
      var g := PurgeRun(h, list[m], t, runIdle, dirtyIdle);
      && HasClass(g, c) && Midway(list, ss, m + 1, ListOf(g, c), ClassStates(g, c), t, runIdle, dirtyIdle)
      && NextOf(ListOf(h, c), list[m]) == if m + 1 < |list| then Some(list[m + 1]) else None
  {
    var pos := MidwayHere(list, ss, m, ListOf(h, c), ClassStates(h, c), t, runIdle, dirtyIdle);
    Listed(h, c, pos, list[m]);
    hide Consistent, ClassStates, PurgeRun, Midway, VisitedAt, SameClass, Survivors, Swept;
    var k, i := PurgeIsPurge(h, list[m], t, runIdle, dirtyIdle);
    SamePlace(ListOf(h, c), i, pos);
    NextOfAt(ListOf(h, c), pos);
    var g := PurgeRun(h, list[m], t, runIdle, dirtyIdle);
    MidwayNext(list, ss, m, pos, ListOf(h, c), ClassStates(h, c), ListOf(g, c), ClassStates(g, c),
               t, runIdle, dirtyIdle);
  }

  lemma Listed(h: Heap, c: nat, pos: nat, base: nat)
    requires HasClass(h, c) && pos < |h.lists[c]| && h.lists[c][pos] == base
    ensures base in h.runs && h.runs[base].cls == c + 1 && Distinct(h.lists[c])
  {
    ClassFacts(h, c);
  }

  lemma SamePlace(list: seq<nat>, i: nat, j: nat)
    requires Distinct(list) && i < |list| && j < |list| && list[i] == list[j]
    ensures i == j
  {}

  lemma LockWalks(s: State)
    requires Sound(s) && Guard(s, TrimLock) && HasClass(s.heap, s.trim.c)
    ensures Walked(Do(s, TrimLock), s.trim.c, ListOf(s.heap, s.trim.c), ClassStates(s.heap, s.trim.c), 0,
                   s.trim.t, s.runIdle, s.dirtyIdle)
  {
    hide Sound, Consistent, ClassStates;
    var list, ss := ListOf(s.heap, s.trim.c), ClassStates(s.heap, s.trim.c);
    assert list[0..] == list && ss[0..] == ss;
  }

  lemma StillWalks(s: State, u: State, c: nat, list: seq<nat>, ss: seq<RunState>, m: nat,
                   t: nat, runIdle: nat, dirtyIdle: nat)
    requires Walked(s, c, list, ss, m, t, runIdle, dirtyIdle) && StandsStill(s, u)
    ensures Walked(u, c, list, ss, m, t, runIdle, dirtyIdle)
  {
    hide Consistent, ClassStates, Midway;
  }

  /** How many of the steps i to k - 1 are visits. */
  function VisitCount(steps: seq<Step>, i: nat, k: nat): nat
    requires i <= k <= |steps|
    decreases k
  {
    if i == k then 0 else VisitCount(steps, i, k - 1) + (if steps[k - 1] == TrimVisit then 1 else 0)
  }

  /** From the lock on, the class is midway through the sequential sweep, whatever is interleaved. */
  lemma {:induction false} WalkInProgress(trace: seq<State>, steps: seq<Step>, i: nat, k: nat) returns (m: nat)
    requires Execution(trace, steps) && i < k <= |steps| && steps[i] == TrimLock
    requires forall j :: i < j < k ==> steps[j] != TrimUnlock
    ensures HasClass(trace[i].heap, trace[i].trim.c) && trace[i].trim.AtClass? && m == VisitCount(steps, i + 1, k)
    ensures
      var s := trace[i];
      Walked(trace[k], s.trim.c, ListOf(s.heap, s.trim.c), ClassStates(s.heap, s.trim.c), m,
             s.trim.t, s.runIdle, s.dirtyIdle)
    decreases k
  {
    hide Sound, Guard, Orderly, Do, Starts, Arises, Walked, StandsStill, HasClass, ClassStates;
    LockedClass(trace, steps, i);
    var s := trace[i];
    var list, ss := ListOf(s.heap, s.trim.c), ClassStates(s.heap, s.trim.c);
    if k == i + 1 {
      m := 0;
      LockWalks(s);
      assert trace[k] == Do(s, TrimLock);
    } else {
      var j := k - 1;
      m := WalkInProgress(trace, steps, i, j);
      assert trace[j + 1] == Do(trace[j], steps[j]);
      if steps[j] == TrimVisit {
        VisitWalks(trace[j], s.trim.c, list, ss, m, s.trim.t, s.runIdle, s.dirtyIdle);
        m := m + 1;
      } else {
        Integrity.ArisesAt(trace, steps, j);
        IsWalking(trace[j], s.trim.c, list, ss, m, s.trim.t, s.runIdle, s.dirtyIdle);
        OthersKeepClass(trace[j], steps[j]);
        StillWalks(trace[j], trace[k], s.trim.c, list, ss, m, s.trim.t, s.runIdle, s.dirtyIdle);
      }
    }
  }

  lemma IsWalking(s: State, c: nat, list: seq<nat>, ss: seq<RunState>, m: nat, t: nat, runIdle: nat, dirtyIdle: nat)
    requires Walked(s, c, list, ss, m, t, runIdle, dirtyIdle)
    ensures s.trim.Walking?
  {}

  lemma LockedClass(trace: seq<State>, steps: seq<Step>, i: nat)
    requires Execution(trace, steps) && i < |steps| && steps[i] == TrimLock
    ensures trace[i].trim.AtClass? && HasClass(trace[i].heap, trace[i].trim.c)
    ensures Sound(trace[i]) && Guard(trace[i], steps[i])
  {
    hide Consistent, Starts, Do;
    assert Sound(trace[i]) && Guard(trace[i], steps[i]);
  }

  /** Between locking and unlocking a class, in any interleaving, one pass of the trimmer visits every run
      listed at the lock exactly once; at the unlock the list is the old one without the idle fully free
      runs, in order, and the runs kept are as the sequential sweep leaves them. */
  lemma PassIsSweep(trace: seq<State>, steps: seq<Step>, i: nat, j: nat)
    requires Execution(trace, steps) && i < j < |steps| && steps[i] == TrimLock && steps[j] == TrimUnlock
    requires forall k :: i < k < j ==> steps[k] != TrimUnlock
    ensures HasClass(trace[i].heap, trace[i].trim.c) && HasClass(trace[j].heap, trace[i].trim.c)
    ensures trace[i].trim.AtClass?
    ensures
      var s, u := trace[i], trace[j];
      var c := s.trim.c;
      && ListOf(u.heap, c) == Survivors(ListOf(s.heap, c), ClassStates(s.heap, c), s.trim.t, s.runIdle)
      && ClassStates(u.heap, c) == Swept(ClassStates(s.heap, c), s.trim.t, s.runIdle, s.dirtyIdle)
      && VisitCount(steps, i + 1, j) == |ListOf(s.heap, c)|
  {
    hide Sound, HasClass, Starts, Do, Guard, ClassStates, Survivors, Swept, ListOf, Walked;
    LockedClass(trace, steps, i);
    var s, u := trace[i], trace[j];
    var m := WalkInProgress(trace, steps, i, j);
    UnlockedClass(u);
    WalkEnds(u, s.trim.c, ListOf(s.heap, s.trim.c), ClassStates(s.heap, s.trim.c), m, s.trim.t, s.runIdle, s.dirtyIdle);
  }

  lemma UnlockedClass(u: State)
    requires Guard(u, TrimUnlock)
    ensures u.trim.Walking? && u.trim.cur == None
  {}

  lemma WalkEnds(u: State, c: nat, list: seq<nat>, ss: seq<RunState>, m: nat, t: nat, runIdle: nat, dirtyIdle: nat)
    requires Walked(u, c, list, ss, m, t, runIdle, dirtyIdle) && u.trim.cur == None
    ensures HasClass(u.heap, c) && |list| == |ss| && m == |list|
    ensures ListOf(u.heap, c) == Survivors(list, ss, t, runIdle)
    ensures ClassStates(u.heap, c) == Swept(ss, t, runIdle, dirtyIdle)
  {
    hide Consistent, ClassStates, Survivors, Swept;
    assert list[..m] == list && ss[..m] == ss && list[m..] == [] && ss[m..] == [];
  }
}
