/** One run as a value: what run_new, run_take, run_give and purge_run do to it, and what follows. */
module RunSpec {
  import opened Arith
  import opened SizeClasses
  import opened Bitmap
  import opened Seqs

  /** `free` is the bitmap as a set of block indices; `used` is kept separately, as in the source. */
  datatype RunState = RunState(
    cls: nat, elem: nat, free: set<nat>, used: nat, fullyFreeAt: nat, touchedAt: nat)

  ghost predicate ValidRun(r: RunState) {
    && ValidElem(r.elem)
    && r.free <= Below(Elems(r.elem))
    && r.used + |r.free| == Elems(r.elem)
  }

  /** The stamp is set exactly while the run is fully free. */
  ghost predicate Stamped(r: RunState) { r.used == 0 <==> r.fullyFreeAt != 0 }

  ghost predicate IsLeast(s: set<nat>, i: nat) { i in s && forall j :: j in s ==> i <= j }

  ghost function Least(s: set<nat>): (i: nat)
    requires s != {}
    ensures IsLeast(s, i)
  {
    LeastExists(s);
    var i :| IsLeast(s, i);
    i
  }

  lemma {:induction false} LeastExists(s: set<nat>)
    requires s != {}
    ensures exists i :: IsLeast(s, i)
  {
    var k :| k in s;
    if !IsLeast(s, k) {
      var j :| j in s && j < k;
      LeastBelow(s, j);
    }
  }

  lemma {:induction false} LeastBelow(s: set<nat>, k: nat)
    requires k in s
    ensures exists i :: IsLeast(s, i)
    decreases k
  {
    if !IsLeast(s, k) {
      var j :| j in s && j < k;
      LeastBelow(s, j);
    }
  }

  // ---------------------------------------------------------------- transitions

  ghost function Fresh(cls: nat, elem: nat, now: nat): RunState
    requires ValidElem(elem)
  {
    RunState(cls, elem, Below(Elems(elem)), 0, now, now)
  }

  ghost function Taken(r: RunState, now: nat): RunState
    requires r.free != {}
  {
    r.(free := r.free - {Least(r.free)}, used := r.used + 1,
       fullyFreeAt := if r.used == 0 then 0 else r.fullyFreeAt, touchedAt := now)
  }

  /** run_give reads the clock twice: for the touch and, when the run empties, for the stamp. */
  ghost function Given(r: RunState, idx: nat, touch: nat, stamp: nat): RunState {
    var left := if r.used > 0 then r.used - 1 else 0;
    r.(free := r.free + {idx}, used := left, touchedAt := touch,
       fullyFreeAt := if left == 0 && r.fullyFreeAt == 0 then stamp else r.fullyFreeAt)
  }

  lemma FreshValid(cls: nat, elem: nat, now: nat)
    requires ValidElem(elem)
    ensures ValidRun(Fresh(cls, elem, now)) && (now > 0 ==> Stamped(Fresh(cls, elem, now)))
  {
    BelowSize(Elems(elem));
  }

  lemma {:induction false} BelowSize(n: nat)
    ensures |Below(n)| == n
  {
    if n == 0 {
      assert Below(0) == {};
    } else {
      BelowSize(n - 1);
      assert Is(n - 1);
      assert Below(n) == Below(n - 1) + {n - 1};
    }
  }

  /** run_take returns null only on a full run. */
  lemma FullIffNoneFree(r: RunState)
    requires ValidRun(r)
    ensures r.used == Elems(r.elem) <==> r.free == {}
    ensures r.used <= Elems(r.elem)
  {}

  lemma TakenValid(r: RunState, now: nat)
    requires ValidRun(r) && r.free != {}
    ensures ValidRun(Taken(r, now)) && Taken(r, now).used > 0
    ensures Stamped(r) ==> Stamped(Taken(r, now))
    ensures Least(r.free) < Elems(r.elem)
  {
    var i := Least(r.free);
    assert |r.free - {i}| == |r.free| - 1;
  }

  lemma TakenCount(r: RunState, now: nat)
    requires r.free != {}
    ensures Taken(r, now).used == r.used + 1 && Taken(r, now).elem == r.elem
  {}

  /** A block that is not free, so held by somebody, makes `used` positive. */
  lemma HeldMeansUsed(r: RunState, idx: nat)
    requires ValidRun(r) && idx < Elems(r.elem) && idx !in r.free
    ensures r.used > 0
  {
    var all := Below(Elems(r.elem));
    BelowSize(Elems(r.elem));
    assert Is(idx);
    assert idx in all && r.free <= all - {idx};
    SubsetSize(r.free, all - {idx});
  }

  lemma {:induction false} SubsetSize<T>(a: set<T>, b: set<T>)
    requires a <= b
    ensures |a| <= |b|
  {
    if a != {} {
      var x :| x in a;
      SubsetSize(a - {x}, b - {x});
    }
  }

  lemma GivenValid(r: RunState, idx: nat, touch: nat, stamp: nat)
    requires ValidRun(r) && idx < Elems(r.elem) && idx !in r.free
    ensures ValidRun(Given(r, idx, touch, stamp))
    ensures Given(r, idx, touch, stamp).used == r.used - 1
    ensures Stamped(r) && stamp > 0 ==> Stamped(Given(r, idx, touch, stamp))
  {
    HeldMeansUsed(r, idx);
    assert Is(idx);
    assert |r.free + {idx}| == |r.free| + 1;
  }

  /** Giving back the block just taken restores the bitmap and the count. */
  lemma GiveUndoesTake(r: RunState, now: nat, touch: nat, stamp: nat)
    requires ValidRun(r) && r.free != {}
    ensures
      var back := Given(Taken(r, now), Least(r.free), touch, stamp);
      back.free == r.free && back.used == r.used
  {}

  // ---------------------------------------------------------------- purging

  /** purge_run unmaps the run. The clock difference is unsigned. */
  predicate IdleFree(r: RunState, t: nat, runIdle: nat) {
    r.used == 0 && Sub64(t, r.fullyFreeAt) >= runIdle
  }

  predicate IdleDirty(r: RunState, t: nat, dirtyIdle: nat) { Sub64(t, r.touchedAt) >= dirtyIdle }

  /** Blocks the page loop looks at for data page `p`: the quotients are both rounded down. */
  function FirstChecked(elem: nat, p: nat): nat
    requires elem > 0
  {
    p * PAGE / elem
  }

  ghost predicate Discards(elem: nat, free: set<nat>, p: nat)
    requires ValidElem(elem)
  {
    && elem <= PAGE
    && (p + 1) * PAGE <= Elems(elem) * elem
    && forall b :: FirstChecked(elem, p) <= b < FirstChecked(elem, p + 1) ==> b in free
  }

  /** How many of the first n data pages the purge gives back. */
  ghost function DiscardCount(elem: nat, free: set<nat>, n: nat): nat
    requires ValidElem(elem)
  {
    if n == 0 then 0 else DiscardCount(elem, free, n - 1) + (if Discards(elem, free, n - 1) then 1 else 0)
  }

  /** A run kept by purge_run: only its touch stamp may change. */
  function Kept(r: RunState, t: nat, dirtyIdle: nat): RunState {
    if IdleDirty(r, t, dirtyIdle) then r.(touchedAt := t) else r
  }

  lemma KeptValid(r: RunState, t: nat, dirtyIdle: nat)
    requires ValidRun(r)
    ensures ValidRun(Kept(r, t, dirtyIdle)) && Kept(r, t, dirtyIdle).used == r.used
    ensures Kept(r, t, dirtyIdle).free == r.free && Kept(r, t, dirtyIdle).elem == r.elem
  {}

  // ---------------------------------------------------------------- a class: its runs, head first

  ghost predicate AllValid(ss: seq<RunState>) {
    forall j :: 0 <= j < |ss| ==> ValidRun(ss[j])
  }

  function SumUsed(ss: seq<RunState>): nat {
    if ss == [] then 0 else ss[0].used + SumUsed(ss[1..])
  }

  lemma {:induction false} SumUpdate(ss: seq<RunState>, i: nat, r: RunState)
    requires i < |ss|
    ensures SumUsed(ss[i := r]) == SumUsed(ss) - ss[i].used + r.used
    ensures SumUsed(ss) >= ss[i].used
  {
    var tt := ss[i := r];
    if i == 0 {
      assert tt[1..] == ss[1..];
    } else {
      assert tt[1..] == ss[1..][i - 1 := r];
      SumUpdate(ss[1..], i - 1, r);
    }
  }

  lemma {:induction false} SumRemove(ss: seq<RunState>, i: nat)
    requires i < |ss|
    ensures SumUsed(RemoveAt(ss, i)) == SumUsed(ss) - ss[i].used
  {
    SumConcat(ss[..i], ss[i + 1..]);
    SumConcat(ss[..i], ss[i..]);
    assert ss == ss[..i] + ss[i..];
    assert ss[i..][1..] == ss[i + 1..];
  }

  lemma {:induction false} SumConcat(a: seq<RunState>, b: seq<RunState>)
    ensures SumUsed(a + b) == SumUsed(a) + SumUsed(b)
  {
    if a == [] {
      assert a + b == b;
    } else {
      assert (a + b)[1..] == a[1..] + b;
      SumConcat(a[1..], b);
    }
  }

  lemma FreshCount(cls: nat, elem: nat, now: nat, ss: seq<RunState>)
    requires ValidElem(elem)
    ensures SumUsed([Fresh(cls, elem, now)] + ss) == SumUsed(ss)
    ensures Fresh(cls, elem, now).free != {} && Least(Fresh(cls, elem, now).free) == 0
  {
    DataBytesBound(elem);
    assert Is(0);
    assert 0 in Below(Elems(elem));
    assert ([Fresh(cls, elem, now)] + ss)[1..] == ss;
  }

  /** A new run with its first block already handed out. */
  ghost function FreshTaken(cls: nat, elem: nat, now: nat): RunState
    requires ValidElem(elem)
  {
    FreshCount(cls, elem, now, []);
    Taken(Fresh(cls, elem, now), now)
  }

  /** malloc's scan: the first run that is not full, or |ss| when all are. */
  function FirstWithRoom(ss: seq<RunState>): (i: nat)
    requires forall j :: 0 <= j < |ss| ==> ValidElem(ss[j].elem)
    ensures i <= |ss| && (i < |ss| ==> ss[i].used != Elems(ss[i].elem))
    ensures forall j :: 0 <= j < i ==> ss[j].used == Elems(ss[j].elem)
  {
    if ss == [] || ss[0].used != Elems(ss[0].elem) then 0 else 1 + FirstWithRoom(ss[1..])
  }

  /** The block malloc hands out: the least free one of the first run with room, or block 0 of a new
      run when there is none. */
  ghost function AllocatedIndex(ss: seq<RunState>): nat
    requires AllValid(ss)
  {
    var i := FirstWithRoom(ss);
    if i < |ss| then
      FullIffNoneFree(ss[i]);
      Least(ss[i].free)
    else 0
  }

  /** The class after malloc's critical section; `fits` says whether a new run could be mapped. */
  ghost function Allocated(ss: seq<RunState>, cls: nat, elem: nat, now: nat, fits: bool): seq<RunState>
    requires ValidElem(elem) && AllValid(ss)
  {
    var i := FirstWithRoom(ss);
    if i < |ss| then
      FullIffNoneFree(ss[i]);
      ss[i := Taken(ss[i], now)]
    else if fits then [FreshTaken(cls, elem, now)] + ss
    else ss
  }

  /** One trim pass over the runs of a class: idle fully free runs go, the others are kept in order. */
  function Swept(ss: seq<RunState>, t: nat, runIdle: nat, dirtyIdle: nat): seq<RunState> {
    if ss == [] then []
    else
      var rest := Swept(ss[..|ss| - 1], t, runIdle, dirtyIdle);
      var r := ss[|ss| - 1];
      if IdleFree(r, t, runIdle) then rest else rest + [Kept(r, t, dirtyIdle)]
  }

  /** The same selection on anything listed beside the runs. */
  function Survivors<T>(xs: seq<T>, ss: seq<RunState>, t: nat, runIdle: nat): (ys: seq<T>)
    requires |xs| == |ss|
  {
    if ss == [] then []
    else
      var rest := Survivors(xs[..|ss| - 1], ss[..|ss| - 1], t, runIdle);
      if IdleFree(ss[|ss| - 1], t, runIdle) then rest else rest + [xs[|ss| - 1]]
  }

  lemma {:induction false} SurvivorCount<T>(xs: seq<T>, ss: seq<RunState>, t: nat, runIdle: nat, dirtyIdle: nat)
    requires |xs| == |ss|
    ensures |Survivors(xs, ss, t, runIdle)| == |Swept(ss, t, runIdle, dirtyIdle)|
  {
    if ss != [] { SurvivorCount(xs[..|ss| - 1], ss[..|ss| - 1], t, runIdle, dirtyIdle); }
  }

  /** How many runs a trim pass unmaps. */
  function IdleCount(ss: seq<RunState>, t: nat, runIdle: nat): nat {
    if ss == [] then 0
    else IdleCount(ss[..|ss| - 1], t, runIdle) + (if IdleFree(ss[|ss| - 1], t, runIdle) then 1 else 0)
  }

  /** The bytes a trim pass gives back to the kernel by unmapping. */
  function IdleBytes(ss: seq<RunState>, t: nat, runIdle: nat): nat
    requires forall j :: 0 <= j < |ss| ==> ValidElem(ss[j].elem)
  {
    if ss == [] then 0
    else
      var r := ss[|ss| - 1];
      IdleBytes(ss[..|ss| - 1], t, runIdle) + (if IdleFree(r, t, runIdle) then MapBytes(r.elem) else 0)
  }

  lemma IdleBytesStep(ss: seq<RunState>, j: nat, t: nat, runIdle: nat)
    requires j <= |ss| && forall k :: 0 <= k < |ss| ==> ValidElem(ss[k].elem)
    ensures IdleBytes([], t, runIdle) == 0
    ensures j < |ss| ==>
              IdleBytes(ss[..j + 1], t, runIdle) ==
              IdleBytes(ss[..j], t, runIdle) + (if IdleFree(ss[j], t, runIdle) then MapBytes(ss[j].elem) else 0)
  {
    if j < |ss| {
      SplitLast(ss, j);
    }
  }

  /** Unmapping only empty runs, a trim pass leaves the number of live blocks alone. */
  lemma {:induction false} SweptKeepsUsed(ss: seq<RunState>, t: nat, runIdle: nat, dirtyIdle: nat)
    ensures SumUsed(Swept(ss, t, runIdle, dirtyIdle)) == SumUsed(ss)
    ensures |Swept(ss, t, runIdle, dirtyIdle)| == |ss| - IdleCount(ss, t, runIdle)
  {
    if ss != [] {
      var n := |ss| - 1;
      var rest := Swept(ss[..n], t, runIdle, dirtyIdle);
      SweptKeepsUsed(ss[..n], t, runIdle, dirtyIdle);
      assert ss == ss[..n] + [ss[n]];
      SumConcat(ss[..n], [ss[n]]);
      SumConcat(rest, [Kept(ss[n], t, dirtyIdle)]);
    }
  }
}
