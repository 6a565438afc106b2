/** A whole pass of the trim thread, from waking to going back to sleep, in any interleaving: it locks every class
    once, in order, and leaves each of them swept. */
module TrimPass {
  import opened Arith
  import opened SizeClasses
  import opened RunSpec
  import opened Options
  import opened HeapSpec
  import opened Protocol
  import opened ProtocolHeapSteps
  import opened Guarantees
  import opened Agreement
  import opened TrimSweep
  import Timing

  /** The trimmer's own steps. */
  predicate ByTrimmer(st: Step) { st.TrimWake? || st.TrimLock? || st.TrimVisit? || st.TrimUnlock? || st.TrimDone? }

  /** No other step moves the trimmer. */
  lemma OthersKeepTrim(s: State, st: Step)
    requires Sound(s) && Guard(s, st) && !ByTrimmer(st)
    ensures Do(s, st).trim == s.trim
  {
    hide Sound, Consistent, MapLarge, UnmapLarge, TakeBlock, GiveBlock;
    if ThreadStep(st) {
      Timing.ThreadAside(s, st);
    } else {
      match st {
        case Take(t, mapped) => TakeTrim(s, t, mapped);
        case Give(t, stamp) => GiveTrim(s, t, stamp);
        case Unmap(t) => UnmapNow(s, t);
        case _ =>
      }
    }
  }

  lemma TakeTrim(s: State, t: nat, mapped: bool)
    requires Sound(s) && Guard(s, Step.Take(t, mapped))
    ensures DoTake(s, t, mapped).trim == s.trim
  {
    hide Sound, Consistent, TakeBlock;
    Timing.InsideClass(s, t);
  }

  lemma GiveTrim(s: State, t: nat, stamp: nat)
    requires Sound(s) && Guard(s, Give(t, stamp))
    ensures DoGive(s, t, stamp).trim == s.trim
  {
    GivenIssued(s, t);
    hide Sound, Consistent, Issued, GiveBlock;
  }

  /** The trimmer's own steps, from one class to the next. */
  lemma TrimmerMoves(s: State, st: Step)
    requires Sound(s) && Guard(s, st) && ByTrimmer(st)
    ensures
      var was, trim := s.trim, Do(s, st).trim;
      match st
      case TrimWake => was == Asleep && trim == AtClass(s.now, 0)
      case TrimLock => was.AtClass? && was.c < 68 && trim.Walking? && trim.t == was.t && trim.c == was.c
      case TrimVisit => was.Walking? && trim.Walking? && trim.t == was.t && trim.c == was.c
      case TrimUnlock => was.Walking? && was.cur == None && trim == AtClass(was.t, was.c + 1)
      case TrimDone => was.AtClass? && was.c == 68 && trim == Asleep
  {
    hide ThreadSound, TrimSound, Consistent, PurgeRun, FirstOf, NextOf;
  }

  // ---------------------------------------------------------------- a pass

  /** The classes 0 to |at| - 1 were locked at these moments. */
  ghost predicate LocksAt(trace: seq<State>, steps: seq<Step>, i: nat, j: nat, t: nat, at: seq<nat>)
    requires |trace| == |steps| + 1 && i < j <= |steps|
  {
    forall d :: 0 <= d < |at| ==> i < at[d] < j && steps[at[d]] == TrimLock && trace[at[d]].trim == AtClass(t, d)
  }

  /** The classes 0 to |at| - 1 were unlocked at these. */
  ghost predicate UnlocksAt(trace: seq<State>, steps: seq<Step>, i: nat, j: nat, t: nat, at: seq<nat>)
    requires |trace| == |steps| + 1 && i < j <= |steps|
  {
    forall d :: 0 <= d < |at| ==>
      i < at[d] < j && steps[at[d]] == TrimUnlock && trace[at[d]].trim == Walking(t, d, None)
  }

  /** Each class is unlocked after it is locked, and before any later class is. */
  ghost predicate InTurn(locks: seq<nat>, unlocks: seq<nat>) {
    && |unlocks| <= |locks|
    && (forall d :: 0 <= d < |unlocks| ==> locks[d] < unlocks[d])
    && (forall d, e :: 0 <= d < |unlocks| && d < e < |locks| ==> unlocks[d] < locks[e])
  }

  /** There is no other lock or unlock. */
  ghost predicate NoOther(steps: seq<Step>, i: nat, j: nat, locks: seq<nat>, unlocks: seq<nat>)
    requires i < j <= |steps|
  {
    && (forall k :: i < k < j && steps[k] == TrimLock ==> k in locks)
    && (forall k :: i < k < j && steps[k] == TrimUnlock ==> k in unlocks)
  }

  /** By moment j the pass that began at i with clock value t has locked the classes 0 to |locks| - 1, at those moments
      and no others, and unlocked the classes 0 to |unlocks| - 1. */
  ghost predicate PassSoFar(trace: seq<State>, steps: seq<Step>, i: nat, j: nat, t: nat,
                            locks: seq<nat>, unlocks: seq<nat>)
    requires |trace| == |steps| + 1 && i < j <= |steps|
  {
    && LocksAt(trace, steps, i, j, t, locks) && UnlocksAt(trace, steps, i, j, t, unlocks)
    && InTurn(locks, unlocks) && NoOther(steps, i, j, locks, unlocks)
  }

  /** Where the trimmer stands then. */
  ghost predicate Standing(trim: Trim, t: nat, locked: nat, unlocked: nat) {
    if locked == unlocked then trim == AtClass(t, unlocked)
    else locked == unlocked + 1 && trim.Walking? && trim.t == t && trim.c == unlocked
  }

  lemma {:induction false} PassGoesOn(trace: seq<State>, steps: seq<Step>, i: nat, j: nat)
    returns (locks: seq<nat>, unlocks: seq<nat>)
    requires Execution(trace, steps) && i < j <= |steps| && steps[i] == TrimWake
    requires forall k :: i < k < j ==> steps[k] != TrimDone
    ensures PassSoFar(trace, steps, i, j, trace[i].now, locks, unlocks)
    ensures Standing(trace[j].trim, trace[i].now, |locks|, |unlocks|)
    decreases j
  {
    hide Sound, Guard, Orderly, Do, Starts, PassSoFar, Standing;
    var k := j - 1;
    assert Sound(trace[k]) && Guard(trace[k], steps[k]) && trace[k + 1] == Do(trace[k], steps[k]);
    if k == i {
      TrimmerMoves(trace[k], steps[k]);
      locks, unlocks := [], [];
      PassBegins(trace, steps, i);
    } else {
      locks, unlocks := PassGoesOn(trace, steps, i, k);
      locks, unlocks := PassStep(trace, steps, i, k, locks, unlocks);
    }
  }

  lemma PassBegins(trace: seq<State>, steps: seq<Step>, i: nat)
    requires |trace| == |steps| + 1 && i < |steps| && trace[i + 1].trim == AtClass(trace[i].now, 0)
    ensures PassSoFar(trace, steps, i, i + 1, trace[i].now, [], []) && Standing(trace[i + 1].trim, trace[i].now, 0, 0)
  {}

  lemma PassStep(trace: seq<State>, steps: seq<Step>, i: nat, k: nat, was: seq<nat>, had: seq<nat>)
    returns (locks: seq<nat>, unlocks: seq<nat>)
    requires |trace| == |steps| + 1 && i < k < |steps| && steps[k] != TrimDone
    requires Sound(trace[k]) && Guard(trace[k], steps[k]) && trace[k + 1] == Do(trace[k], steps[k])
    requires PassSoFar(trace, steps, i, k, trace[i].now, was, had)
    requires Standing(trace[k].trim, trace[i].now, |was|, |had|)
    ensures PassSoFar(trace, steps, i, k + 1, trace[i].now, locks, unlocks)
    ensures Standing(trace[k + 1].trim, trace[i].now, |locks|, |unlocks|)
  {
    hide Sound, Guard, Do, PassSoFar;
    if ByTrimmer(steps[k]) { TrimmerMoves(trace[k], steps[k]); } else { OthersKeepTrim(trace[k], steps[k]); }
    locks, unlocks := was, had;
    if steps[k] == TrimLock {
      Locked(trace, steps, i, k, trace[i].now, was, had);
      locks := was + [k];
    } else if steps[k] == TrimUnlock {
      Unlocked(trace, steps, i, k, trace[i].now, was, had);
      unlocks := had + [k];
    } else {
      Neither(trace, steps, i, k, trace[i].now, was, had);
    }
  }

  lemma Neither(trace: seq<State>, steps: seq<Step>, i: nat, k: nat, t: nat, locks: seq<nat>, unlocks: seq<nat>)
    requires |trace| == |steps| + 1 && i < k < |steps| && PassSoFar(trace, steps, i, k, t, locks, unlocks)
    requires steps[k] != TrimLock && steps[k] != TrimUnlock
    ensures PassSoFar(trace, steps, i, k + 1, t, locks, unlocks)
  {}

  lemma Locked(trace: seq<State>, steps: seq<Step>, i: nat, k: nat, t: nat, locks: seq<nat>, unlocks: seq<nat>)
    requires |trace| == |steps| + 1 && i < k < |steps| && PassSoFar(trace, steps, i, k, t, locks, unlocks)
    requires steps[k] == TrimLock && trace[k].trim == AtClass(t, |locks|)
    ensures PassSoFar(trace, steps, i, k + 1, t, locks + [k], unlocks)
  {
    Found(steps, i, k, locks, unlocks, locks + [k], unlocks);
    hide NoOther;
  }

  lemma Unlocked(trace: seq<State>, steps: seq<Step>, i: nat, k: nat, t: nat, locks: seq<nat>, unlocks: seq<nat>)
    requires |trace| == |steps| + 1 && i < k < |steps| && PassSoFar(trace, steps, i, k, t, locks, unlocks)
    requires steps[k] == TrimUnlock && |locks| == |unlocks| + 1 && trace[k].trim == Walking(t, |unlocks|, None)
    ensures PassSoFar(trace, steps, i, k + 1, t, locks, unlocks + [k])
  {
    Found(steps, i, k, locks, unlocks, locks, unlocks + [k]);
    hide NoOther;
  }

  lemma Found(steps: seq<Step>, i: nat, k: nat, locks: seq<nat>, unlocks: seq<nat>, more: seq<nat>, most: seq<nat>)
    requires i < k < |steps| && NoOther(steps, i, k, locks, unlocks) && locks <= more && unlocks <= most
    requires steps[k] == TrimLock ==> more == locks + [k]
    requires steps[k] == TrimUnlock ==> most == unlocks + [k]
    ensures NoOther(steps, i, k + 1, more, most)
  {
    forall m | i < m < k + 1 && steps[m] == TrimLock ensures m in more {
      if m == k { assert more[|locks|] == k; } else { assert m in locks; }
    }
    forall m | i < m < k + 1 && steps[m] == TrimUnlock ensures m in most {
      if m == k { assert most[|unlocks|] == k; } else { assert m in unlocks; }
    }
  }

  /** From waking to sleeping the trimmer locks and unlocks each of the 68 classes exactly once, in ascending order, and
      works all the while with the clock value read on waking. */
  lemma EveryClassOnce(trace: seq<State>, steps: seq<Step>, i: nat, j: nat) returns (locks: seq<nat>, unlocks: seq<nat>)
    requires Execution(trace, steps) && i < j < |steps| && steps[i] == TrimWake && steps[j] == TrimDone
    requires forall k :: i < k < j ==> steps[k] != TrimDone
    ensures |locks| == |unlocks| == 68 && PassSoFar(trace, steps, i, j, trace[i].now, locks, unlocks)
    ensures trace[j + 1].trim == Asleep
  {
    hide Sound, Guard, Orderly, Do, Starts, PassSoFar;
    locks, unlocks := PassGoesOn(trace, steps, i, j);
    assert Sound(trace[j]) && Guard(trace[j], steps[j]) && trace[j + 1] == Do(trace[j], steps[j]);
    TrimmerMoves(trace[j], steps[j]);
  }

  // ---------------------------------------------------------------- what the pass leaves of a class

  /** Empty, and for the idle time by clock value t; the difference is an unsigned word. */
  predicate Expired(r: RunState, t: nat, runIdle: nat) {
    r.used == 0 && (t - r.fullyFreeAt) % 0x1_0000_0000_0000_0000 >= runIdle
  }

  /** Of class c as it is in s exactly the expired runs are gone in g; the others are in the same order, and as they
      were but for the touch stamp of those left alone for the idle time of pages. */
  ghost predicate ClassSwept(s: State, g: Heap, c: nat, t: nat) {
    && Shape(s.heap) && Shape(g) && c < 68
    && (forall b :: b in g.lists[c] <==>
          b in s.heap.lists[c] && b in s.heap.runs && !Expired(s.heap.runs[b], t, s.runIdle))
    && (forall b :: b in g.lists[c] ==> b in g.runs && b in s.heap.runs && KeptRun(s, s.heap.runs[b], g.runs[b], t))
    && (forall k, m :: 0 <= k < m < |g.lists[c]| ==> Before(s.heap.lists[c], g.lists[c][k], g.lists[c][m]))
  }

  predicate KeptRun(s: State, was: RunState, now: RunState, t: nat) {
    now == if (t - was.touchedAt) % 0x1_0000_0000_0000_0000 >= s.dirtyIdle then was.(touchedAt := t) else was
  }

  ghost predicate Before(list: seq<nat>, a: nat, b: nat) {
    exists k, m :: 0 <= k < m < |list| && list[k] == a && list[m] == b
  }

  lemma {:induction false} SurvivorFrom(xs: seq<nat>, ss: seq<RunState>, t: nat, runIdle: nat, dirtyIdle: nat, i: nat)
    returns (j: nat)
    requires |xs| == |ss| && i < |Survivors(xs, ss, t, runIdle)|
    ensures |Swept(ss, t, runIdle, dirtyIdle)| == |Survivors(xs, ss, t, runIdle)|
    ensures i <= j < |xs| && Survivors(xs, ss, t, runIdle)[i] == xs[j] && !IdleFree(ss[j], t, runIdle)
    ensures Swept(ss, t, runIdle, dirtyIdle)[i] == Kept(ss[j], t, dirtyIdle)
    decreases |xs|
  {
    SurvivorCount(xs, ss, t, runIdle, dirtyIdle);
    var n := |ss| - 1;
    var rest := Survivors(xs[..n], ss[..n], t, runIdle);
    SurvivorCount(xs[..n], ss[..n], t, runIdle, dirtyIdle);
    if i < |rest| {
      j := SurvivorFrom(xs[..n], ss[..n], t, runIdle, dirtyIdle, i);
    } else {
      SurvivorsFew(xs[..n], ss[..n], t, runIdle);
      j := n;
    }
  }

  lemma {:induction false} SurvivorsFew(xs: seq<nat>, ss: seq<RunState>, t: nat, runIdle: nat)
    requires |xs| == |ss|
    ensures |Survivors(xs, ss, t, runIdle)| <= |xs|
    decreases |xs|
  {
    if ss != [] { SurvivorsFew(xs[..|ss| - 1], ss[..|ss| - 1], t, runIdle); }
  }

  lemma {:induction false} SurvivorTo(xs: seq<nat>, ss: seq<RunState>, t: nat, runIdle: nat, j: nat)
    requires |xs| == |ss| && j < |xs| && !IdleFree(ss[j], t, runIdle)
    ensures xs[j] in Survivors(xs, ss, t, runIdle)
    decreases |xs|
  {
    var n := |ss| - 1;
    if j < n {
      SurvivorTo(xs[..n], ss[..n], t, runIdle, j);
    } else {
      assert Survivors(xs, ss, t, runIdle)[|Survivors(xs[..n], ss[..n], t, runIdle)|] == xs[n];
    }
  }

  lemma {:induction false} SurvivorsInOrder(xs: seq<nat>, ss: seq<RunState>, t: nat, runIdle: nat, k: nat, m: nat)
    requires |xs| == |ss| && k < m < |Survivors(xs, ss, t, runIdle)|
    ensures Before(xs, Survivors(xs, ss, t, runIdle)[k], Survivors(xs, ss, t, runIdle)[m])
    decreases |xs|
  {
    var n := |ss| - 1;
    var rest := Survivors(xs[..n], ss[..n], t, runIdle);
    if m < |rest| {
      SurvivorsInOrder(xs[..n], ss[..n], t, runIdle, k, m);
      var a, b :| 0 <= a < b < |xs[..n]| && xs[..n][a] == rest[k] && xs[..n][b] == rest[m];
      assert xs[a] == rest[k] && xs[b] == rest[m];
    } else {
      var a := SurvivorFrom(xs[..n], ss[..n], t, runIdle, 0, k);
      assert xs[a] == rest[k] && xs[n] == Survivors(xs, ss, t, runIdle)[m];
    }
  }

  /** The two lists and their runs, as values. */
  lemma MembersSwept(xs: seq<nat>, ss: seq<RunState>, ys: seq<nat>, tt: seq<RunState>, t: nat, runIdle: nat,
                     dirtyIdle: nat, b: nat)
    requires |xs| == |ss| && ys == Survivors(xs, ss, t, runIdle) && tt == Swept(ss, t, runIdle, dirtyIdle)
    ensures |ys| == |tt|
    ensures b in ys <==> exists j :: 0 <= j < |xs| && xs[j] == b && !IdleFree(ss[j], t, runIdle)
    ensures forall i :: 0 <= i < |ys| ==>
              exists j :: 0 <= j < |xs| && xs[j] == ys[i] && tt[i] == Kept(ss[j], t, dirtyIdle)
  {
    SurvivorCount(xs, ss, t, runIdle, dirtyIdle);
    hide Survivors, Swept, IdleFree, Kept;
    if b in ys {
      var i :| 0 <= i < |ys| && ys[i] == b;
      var j := SurvivorFrom(xs, ss, t, runIdle, dirtyIdle, i);
    }
    forall j | 0 <= j < |xs| && xs[j] == b && !IdleFree(ss[j], t, runIdle) ensures b in ys {
      SurvivorTo(xs, ss, t, runIdle, j);
    }
    forall i | 0 <= i < |ys|
      ensures exists j :: 0 <= j < |xs| && xs[j] == ys[i] && tt[i] == Kept(ss[j], t, dirtyIdle)
    {
      var j := SurvivorFrom(xs, ss, t, runIdle, dirtyIdle, i);
    }
  }

  lemma SweptByList(s: State, g: Heap, c: nat, t: nat)
    requires HasClass(s.heap, c) && HasClass(g, c)
    requires ListOf(g, c) == Survivors(ListOf(s.heap, c), ClassStates(s.heap, c), t, s.runIdle)
    requires ClassStates(g, c) == Swept(ClassStates(s.heap, c), t, s.runIdle, s.dirtyIdle)
    ensures ClassSwept(s, g, c, t)
  {
    Listed(s.heap, c);
    Listed(g, c);
    var xs, ss, ys, tt := s.heap.lists[c], ClassStates(s.heap, c), g.lists[c], ClassStates(g, c);
    hide Consistent, Survivors, Swept, HasClass, ClassStates;
    ListSwept(s, xs, ss, ys, tt, g.runs, t);
  }

  lemma Listed(h: Heap, c: nat)
    requires HasClass(h, c)
    ensures Shape(h) && |ClassStates(h, c)| == |h.lists[c]| && StatesOf(h.lists[c], ClassStates(h, c), h.runs)
  {
    ClassFacts(h, c);
    hide Consistent;
  }

  ghost predicate StatesOf(list: seq<nat>, ss: seq<RunState>, runs: map<nat, RunState>) {
    |list| == |ss| && forall j :: 0 <= j < |list| ==> list[j] in runs && ss[j] == runs[list[j]]
  }

  lemma ListSwept(s: State, xs: seq<nat>, ss: seq<RunState>, ys: seq<nat>, tt: seq<RunState>,
                  runs: map<nat, RunState>, t: nat)
    requires StatesOf(xs, ss, s.heap.runs) && StatesOf(ys, tt, runs)
    requires ys == Survivors(xs, ss, t, s.runIdle) && tt == Swept(ss, t, s.runIdle, s.dirtyIdle)
    ensures forall b :: b in ys <==> b in xs && b in s.heap.runs && !Expired(s.heap.runs[b], t, s.runIdle)
    ensures forall b :: b in ys ==> b in runs && b in s.heap.runs && KeptRun(s, s.heap.runs[b], runs[b], t)
    ensures forall k, m :: 0 <= k < m < |ys| ==> Before(xs, ys[k], ys[m])
  {
    hide Survivors, Swept, Expired, KeptRun, Before, IdleFree, Kept;
    forall b: nat
      ensures b in ys <==> b in xs && b in s.heap.runs && !Expired(s.heap.runs[b], t, s.runIdle)
      ensures b in ys ==> b in runs && b in s.heap.runs && KeptRun(s, s.heap.runs[b], runs[b], t)
    {
      MembersSwept(xs, ss, ys, tt, t, s.runIdle, s.dirtyIdle, b);
      MemberRuns(xs, ss, s.heap.runs, t, s.runIdle, b);
      if b in ys { MemberKept(s, xs, ss, ys, tt, runs, t, b); }
    }
    forall k, m | 0 <= k < m < |ys| ensures Before(xs, ys[k], ys[m]) {
      SurvivorsInOrder(xs, ss, t, s.runIdle, k, m);
    }
  }

  lemma MemberKept(s: State, xs: seq<nat>, ss: seq<RunState>, ys: seq<nat>, tt: seq<RunState>,
                   runs: map<nat, RunState>, t: nat, b: nat)
    requires StatesOf(xs, ss, s.heap.runs) && StatesOf(ys, tt, runs)
    requires forall i :: 0 <= i < |ys| ==>
               exists j :: 0 <= j < |xs| && xs[j] == ys[i] && tt[i] == Kept(ss[j], t, s.dirtyIdle)
    requires b in ys
    ensures b in runs && b in s.heap.runs && KeptRun(s, s.heap.runs[b], runs[b], t)
  {
    var i :| 0 <= i < |ys| && ys[i] == b;
  }

  lemma MemberRuns(xs: seq<nat>, ss: seq<RunState>, runs: map<nat, RunState>, t: nat, runIdle: nat, b: nat)
    requires StatesOf(xs, ss, runs)
    ensures (exists j :: 0 <= j < |xs| && xs[j] == b && !IdleFree(ss[j], t, runIdle)) <==>
            b in xs && b in runs && !Expired(runs[b], t, runIdle)
  {}

  lemma NoneBetween(steps: seq<Step>, i: nat, j: nat, locks: seq<nat>, unlocks: seq<nat>, c: nat)
    requires i < j <= |steps| && NoOther(steps, i, j, locks, unlocks) && InTurn(locks, unlocks)
    requires c < |unlocks| && i < locks[c] && unlocks[c] < j
    ensures locks[c] < unlocks[c] && forall k :: locks[c] < k < unlocks[c] ==> steps[k] != TrimUnlock
  {}

  /** So in a pass every class is swept once, by the clock value read on waking. */
  lemma PassSweepsClass(trace: seq<State>, steps: seq<Step>, i: nat, j: nat, c: nat) returns (l: nat, u: nat)
    requires Execution(trace, steps) && i < j < |steps| && steps[i] == TrimWake && steps[j] == TrimDone
    requires forall k :: i < k < j ==> steps[k] != TrimDone
    requires c < 68
    ensures i < l < u < j && steps[l] == TrimLock && steps[u] == TrimUnlock
    ensures trace[l].trim.AtClass? && trace[l].trim.c == c && ClassSwept(trace[l], trace[u].heap, c, trace[i].now)
  {
    hide Sound, Guard, Orderly, Do, Starts, ClassSwept, HasClass, ClassStates, ListOf, Survivors, Swept, NoOther,
      InTurn;
    var locks, unlocks := EveryClassOnce(trace, steps, i, j);
    l, u := locks[c], unlocks[c];
    NoneBetween(steps, i, j, locks, unlocks, c);
    PassIsSweep(trace, steps, l, u);
    SweptByList(trace[l], trace[u].heap, c, trace[i].now);
  }
}
