/** The intrusive doubly linked list of runs of one class, with its live-block counter. */
module ClassList {
  import opened Arith
  import opened SizeClasses
  import opened RunSpec
  import opened Options
  import opened Reserve
  import opened Seqs
  import opened RunObject

  /** The i-th run of a list, null past either end. */
  ghost function At(s: seq<Run>, i: int): Run? {
    if 0 <= i < |s| then s[i] else null
  }

  ghost predicate Apart(s: seq<Run>) {
    forall i, j :: 0 <= i < j < |s| ==> s[i].bits != s[j].bits && s[i].data != s[j].data
  }

  lemma OthersDiffer(s: seq<Run>, j: nat)
    requires j < |s| && Distinct(s)
    ensures forall m :: 0 <= m < j ==> s[m] != s[j]
  {}

  lemma AtIs(s: seq<Run>, i: nat)
    ensures At(s, i) == null <==> i >= |s|
    ensures i < |s| ==> At(s, i) == s[i]
  {}

  class ClassState {
    const cls: nat
    const elem: nat
    var head: Run?
    /** The runs from head to tail; only the links below are real. */
    ghost var runs: seq<Run>
    /** What each of them holds, in the same order. */
    ghost var states: seq<RunState>
    var liveBlocks: nat

    /** `head`, `next` and `prev` spell out `runs`, which visits no run twice. */
    ghost predicate Linked()
      reads this`head, this`runs, runs`next, runs`prev
    {
      && Distinct(runs)
      && head == At(runs, 0)
      && (forall i {:trigger runs[i].next} :: 0 <= i < |runs| ==> runs[i].next == At(runs, i + 1))
      && (forall i {:trigger runs[i].prev} :: 0 <= i < |runs| ==> runs[i].prev == At(runs, i - 1))
    }

    /** The class as a whole: linked, every run well formed and still mapped, no two sharing memory,
        and `liveBlocks` counting the blocks in use. */
    ghost predicate Valid()
      reads this, runs, set r | r in runs :: r.bits
    {
      && Linked() && ValidClass(cls) && elem == Size(cls) && ValidElem(elem)
      && Apart(runs)
      && |states| == |runs|
      && (forall i :: 0 <= i < |runs| ==> Holds(runs[i], states[i]))
      && liveBlocks == SumUsed(states)
    }

    ghost predicate Holds(r: Run, s: RunState)
      reads r`used, r`fullyFreeAt, r`touchedAt, r`mapped, r.bits
    {
      && r.mapped && r.Valid() && r.elem == elem && r.cls == cls
      && r.State() == s && ValidRun(s)
    }

    constructor (cls: nat)
      requires ValidClass(cls)
      ensures Valid() && runs == [] && this.cls == cls
    {
      SizeBounds(cls);
      this.cls, this.elem := cls, Size(cls);
      head, runs, states, liveBlocks := null, [], [], 0;
    }

    method Insert(r: Run)
      requires Linked() && r !in runs
      modifies this`head, this`runs, r`next, r`prev, (if head == null then {} else {head})`prev
      ensures Linked() && runs == [r] + old(runs)
    {
      r.prev := null;
      r.next := head;
      if head != null {
        head.prev := r;
      }
      head := r;
      runs := [r] + runs;
      assert forall i :: 0 < i < |runs| ==> runs[i] == old(runs)[i - 1];
    }

    /** run_remove. `Unlink` rewires the neighbours; the ghost list then drops the run. */
    method Remove(r: Run, ghost i: nat)
      requires Linked() && i < |runs| && runs[i] == r
      modifies this`head, this`runs
      modifies (if r.prev == null then {} else {r.prev})`next
      modifies (if r.next == null then {} else {r.next})`prev
      ensures Linked() && runs == RemoveAt(old(runs), i)
    {
      Unlink(r, i);
      ghost var was := runs;
      runs := RemoveAt(runs, i);
      Relinked(was, i);
    }

    method Unlink(r: Run, ghost i: nat)
      requires Linked() && i < |runs| && runs[i] == r
      modifies this`head
      modifies (if r.prev == null then {} else {r.prev})`next
      modifies (if r.next == null then {} else {r.next})`prev
      ensures Bypassed(runs, i)
    {
      if r.prev != null {
        r.prev.next := r.next;
      } else {
        head := r.next;
      }
      if r.next != null {
        r.next.prev := r.prev;
      }
    }

    /** The list `s` is linked except that the links around s[i] skip it. */
    ghost predicate Bypassed(s: seq<Run>, i: nat)
      requires i < |s|
      reads this`head, s
    {
      && Distinct(s)
      && head == At(s, if i == 0 then 1 else 0)
      && (forall j {:trigger s[j].next} :: 0 <= j < |s| && j != i ==>
            s[j].next == At(s, if j == i - 1 then i + 1 else j + 1))
      && (forall j {:trigger s[j].prev} :: 0 <= j < |s| && j != i ==>
            s[j].prev == At(s, if j == i + 1 then i - 1 else j - 1))
    }

    lemma Relinked(was: seq<Run>, i: nat)
      requires i < |was| && Bypassed(was, i) && runs == RemoveAt(was, i)
      ensures Linked()
    {
      hide RemoveAt;
      RemoveAtDistinct(was, i);
      forall k | 0 <= k < |runs|
        ensures runs[k].next == At(runs, k + 1)
        ensures runs[k].prev == At(runs, k - 1)
      {
        RemoveAtIndex(was, i, k);
        if k + 1 < |runs| { RemoveAtIndex(was, i, k + 1); }
        if k > 0 { RemoveAtIndex(was, i, k - 1); }
      }
      if |was| > 1 { RemoveAtIndex(was, i, 0); }
    }

    // -------------------------------------------------------------- blocks in and out

    /** Replacing the state of one run, and nothing else, keeps the class well formed. */
    lemma OneRunChanged(was: seq<RunState>, i: nat, s: RunState)
      requires Linked() && ValidClass(cls) && elem == Size(cls) && ValidElem(elem) && Apart(runs)
      requires |was| == |runs| && i < |runs| && states == was[i := s]
      requires forall k :: 0 <= k < |runs| && k != i ==> Holds(runs[k], was[k])
      requires Holds(runs[i], s)
      requires liveBlocks == SumUsed(was) - was[i].used + s.used
      ensures Valid()
    {
      hide Holds, Linked;
      SumUpdate(was, i, s);
    }

    lemma HeldRun(r: Run, s: RunState)
      requires Holds(r, s)
      ensures r.mapped && r.Valid() && r.elem == elem && r.cls == cls && r.State() == s && ValidRun(s)
      ensures s.elem == elem
    {}

    lemma KeepRun(r: Run, s: RunState)
      requires r.mapped && r.Valid() && r.elem == elem && r.cls == cls && r.State() == s && ValidRun(s)
      ensures Holds(r, s)
    {}

    /** No other run of the list shares the header or the bitmap of the i-th. */
    lemma NotSame(i: nat)
      requires i < |runs| && Distinct(runs) && Apart(runs)
      ensures forall k :: 0 <= k < |runs| && k != i ==>
                runs[k] != runs[i] && runs[k].bits != runs[i].bits && runs[k].data != runs[i].data
    {}

    /** run_take on the i-th run: the address of its least free block. */
    method Take(r: Run, ghost i: nat, now: nat) returns (p: Option<nat>)
      requires Valid() && i < |runs| && runs[i] == r
      modifies this`liveBlocks, this`states, r`used, r`fullyFreeAt, r`touchedAt, r.bits
      ensures Valid() && runs == old(runs)
      ensures p.None? <==> old(states)[i].free == {}
      ensures p.None? ==> states == old(states)
      ensures p.Some? ==>
                && states == old(states)[i := Taken(old(states)[i], now)]
                && p.value == r.base + BlockOffset(elem, Least(old(states)[i].free))
    {
      hide Holds, ValidRun, Taken, SumUsed;
      ghost var was := states;
      HeldRun(r, was[i]);
      NotSame(i);
      var idx := r.Take(now);
      if idx.None? {
        KeepRun(r, was[i]);
        OneRunChanged(was, i, was[i]);
        return None;
      }
      TakenValid(was[i], now);
      TakenCount(was[i], now);
      KeepRun(r, Taken(was[i], now));
      liveBlocks := liveBlocks + 1;
      states := states[i := Taken(was[i], now)];
      OneRunChanged(was, i, states[i]);
      return Some(r.base + BlockOffset(elem, idx.value));
    }

    /** run_give of block `idx` of the i-th run, which must be in use. */
    method Give(r: Run, p: nat, ghost i: nat, ghost idx: nat, touch: nat, stamp: nat)
      requires Valid() && i < |runs| && runs[i] == r
      requires idx < Elems(elem) && idx !in states[i].free && p == r.base + BlockOffset(elem, idx)
      modifies this`liveBlocks, this`states, r`used, r`fullyFreeAt, r`touchedAt, r.bits
      ensures Valid() && runs == old(runs)
      ensures states == old(states)[i := Given(old(states)[i], idx, touch, stamp)]
    {
      hide Holds, ValidRun, Given, SumUsed;
      ghost var was := states;
      HeldRun(r, was[i]);
      NotSame(i);
      GivenValid(was[i], idx, touch, stamp);
      HeldMeansUsed(was[i], idx);
      SumUpdate(was, i, was[i]);
      r.Give(p, idx, touch, stamp);
      KeepRun(r, Given(was[i], idx, touch, stamp));
      states := states[i := Given(was[i], idx, touch, stamp)];
      liveBlocks := liveBlocks - 1;
      OneRunChanged(was, i, states[i]);
    }

    // -------------------------------------------------------------- malloc's slow path

    /** The scan of malloc: the first run with a free block. */
    method Scan() returns (r: Run?, ghost i: nat)
      requires Valid()
      ensures r == At(runs, FirstWithRoom(states)) && i == FirstWithRoom(states)
      ensures r == null ==> i == |states|
      ensures r != null ==> i < |states| && states[i].free != {}
    {
      r := head;
      i := 0;
      while r != null && r.used == r.elems
        invariant i <= |runs| && r == At(runs, i)
        invariant forall j :: 0 <= j < i ==> states[j].used == Elems(elem)
        decreases |runs| - i
      {
        assert Holds(runs[i], states[i]);
        r := r.next;
        i := i + 1;
      }
      FirstIs(i);
    }

    lemma FirstIs(i: nat)
      requires Valid() && i <= |states|
      requires forall j :: 0 <= j < i ==> states[j].used == Elems(elem)
      requires i < |states| ==> runs[i].used != Elems(elem)
      ensures AllValid(states)
      ensures i == FirstWithRoom(states) && (i < |states| ==> states[i].free != {})
    {
      forall j | 0 <= j < |states| ensures states[j].elem == elem && ValidRun(states[j]) {
        HeldRun(runs[j], states[j]);
      }
      if i < |states| {
        HeldRun(runs[i], states[i]);
        FullIffNoneFree(states[i]);
      }
      var f := FirstWithRoom(states);
      assert f < |states| ==> states[f].used != Elems(elem);
    }

    /** run_new: map a region, write the header, push the run on the list. */
    method New(res: AddressReserve, now: nat, mapped: bool) returns (r: Run?)
      requires Valid() && res.Valid()
      modifies res, this`head, this`runs, this`states, (if head == null then {} else {head})`prev
      ensures Valid() && res.bump == NextBump(old(res.bump), MapBytes(elem), RUN_SIZE)
      ensures BumpFits(old(res.bump), MapBytes(elem), RUN_SIZE) ==> res.Valid()
      ensures r != null ==> BumpFits(old(res.bump), MapBytes(elem), RUN_SIZE)
      ensures r == null ==> runs == old(runs) && states == old(states) && res.issued == old(res.issued)
      ensures r == null <==> !Placed(old(res.bump), res.end, MapBytes(elem), RUN_SIZE, mapped)
      ensures r != null ==>
                && fresh(r) && fresh(r.bits) && fresh(r.data)
                && runs == [r] + old(runs) && states == [Fresh(cls, elem, now)] + old(states)
                && r.base == Place(old(res.bump), RUN_SIZE) && r.base % RUN_SIZE == 0
                && res.issued == old(res.issued) + [Region(r.base, MapBytes(elem))]
    {
      hide Holds, Linked, MapBytes, Place, NextBump, Placed, BumpFits, Fresh, SumUsed;
      var base := res.Map(MapBytes(elem), RUN_SIZE, mapped);
      if base.None? {
        return null;
      }
      r := Push(base.value, now);
    }

    /** The header and list half of run_new, once a region is mapped at `base`. */
    method Push(base: nat, now: nat) returns (r: Run)
      requires Valid()
      modifies this`head, this`runs, this`states, (if head == null then {} else {head})`prev
      ensures Valid() && fresh(r) && fresh(r.bits) && fresh(r.data) && r.base == base
      ensures runs == [r] + old(runs) && states == [Fresh(cls, elem, now)] + old(states)
    {
      hide Fresh, ValidRun, SumUsed;
      r := new Run(base, cls, elem, now);
      FreshValid(cls, elem, now);
      FreshCount(cls, elem, now, states);
      ghost var wasRuns, wasStates := runs, states;
      KeepRun(r, Fresh(cls, elem, now));
      hide Holds, Linked;
      Insert(r);
      states := [Fresh(cls, elem, now)] + states;
      Prepended(r, Fresh(cls, elem, now), wasRuns, wasStates);
    }

    lemma Prepended(r: Run, s: RunState, wasRuns: seq<Run>, was: seq<RunState>)
      requires Linked() && ValidClass(cls) && elem == Size(cls) && ValidElem(elem) && Apart(wasRuns)
      requires runs == [r] + wasRuns && states == [s] + was && |was| == |wasRuns|
      requires forall k :: 0 <= k < |was| ==> Holds(wasRuns[k], was[k])
      requires forall q :: q in wasRuns ==> q.bits != r.bits && q.data != r.data
      requires Holds(r, s) && liveBlocks == SumUsed(states)
      ensures Valid()
    {
      hide Holds, Linked, SumUsed;
      forall k | 0 <= k < |runs| ensures Holds(runs[k], states[k]) {
        if k > 0 { assert runs[k] == wasRuns[k - 1] && states[k] == was[k - 1]; }
      }
    }

    /** The part of malloc under the class lock: scan, make a run if none has room, take a block. */
    method Allocate(res: AddressReserve, now: nat, mapped: bool) returns (p: Option<nat>, r: Run?)
      requires Valid() && res.Valid()
      modifies res, this, runs, set x | x in runs :: x.bits
      ensures Valid() && AllValid(old(states))
      ensures FirstWithRoom(old(states)) < |old(states)| || BumpFits(old(res.bump), MapBytes(elem), RUN_SIZE) ==>
                res.Valid()
      ensures
        var fits := Placed(old(res.bump), res.end, MapBytes(elem), RUN_SIZE, mapped);
        && states == Allocated(old(states), cls, elem, now, fits)
        && (r == null <==> FirstWithRoom(old(states)) == |old(states)| && !fits)
      ensures r == null ==> p == None && runs == old(runs)
      ensures r != null ==> p == Some(r.base + BlockOffset(elem, AllocatedIndex(old(states))))
      ensures r != null ==>
                if FirstWithRoom(old(states)) < |old(states)| then runs == old(runs) && r in runs
                else fresh(r) && runs == [r] + old(runs)
    {
      hide Holds, Linked, Apart, MapBytes, Place, NextBump, Placed, BumpFits, Taken, FreshTaken, BlockOffset, SumUsed;
      StatesValid();
      HeadListed();
      ghost var i;
      r, i := Scan();
      if r != null {
        p := TakeSome(r, i, now);
      } else {
        p, r := AllocateNew(res, now, mapped);
      }
    }

    lemma HeadListed()
      requires Linked()
      ensures head != null ==> head in runs
      ensures Distinct(runs) && head == At(runs, 0)
    {}

    lemma ElemsAgree()
      requires Valid()
      ensures forall k :: 0 <= k < |states| ==> states[k].elem == elem && ValidElem(states[k].elem)
    {
      forall k | 0 <= k < |states| ensures states[k].elem == elem { HeldRun(runs[k], states[k]); }
    }

    lemma StatesValid()
      requires Valid()
      ensures AllValid(states)
    {}

    method AllocateNew(res: AddressReserve, now: nat, mapped: bool) returns (p: Option<nat>, r: Run?)
      requires Valid() && res.Valid()
      modifies res, this`head, this`runs, this`states, this`liveBlocks
      modifies (if head == null then {} else {head})`prev
      ensures Valid() && (BumpFits(old(res.bump), MapBytes(elem), RUN_SIZE) ==> res.Valid())
      ensures r != null <==> Placed(old(res.bump), res.end, MapBytes(elem), RUN_SIZE, mapped)
      ensures p == if r == null then None else Some(r.base + BlockOffset(elem, 0))
      ensures r == null ==> runs == old(runs) && states == old(states)
      ensures r != null ==> fresh(r) && runs == [r] + old(runs)
                            && states == [FreshTaken(cls, elem, now)] + old(states)
    {
      hide Holds, Linked, Place, MapBytes, BlockOffset, NextBump, Placed, BumpFits;
      ghost var was := states;
      r := New(res, now, mapped);
      if r == null {
        return None, null;
      }
      FreshCount(cls, elem, now, was);
      p := TakeSome(r, 0, now);
      assert states == [FreshTaken(cls, elem, now)] + was;
    }

    /** run_take never fails on a run that the scan or run_new hands it. */
    method TakeSome(r: Run, ghost i: nat, now: nat) returns (p: Option<nat>)
      requires Valid() && i < |runs| && runs[i] == r && states[i].free != {}
      modifies this`liveBlocks, this`states, r`used, r`fullyFreeAt, r`touchedAt, r.bits
      ensures Valid() && runs == old(runs)
      ensures states == old(states)[i := Taken(old(states)[i], now)]
      ensures p == Some(r.base + BlockOffset(elem, Least(old(states)[i].free)))
    {
      hide *;
      p := Take(r, i, now);
    }

    // -------------------------------------------------------------- the trim pass

    lemma RemovedOne(was: seq<RunState>, wasRuns: seq<Run>, i: nat)
      requires Linked() && ValidClass(cls) && elem == Size(cls) && ValidElem(elem) && Apart(wasRuns)
      requires |was| == |wasRuns| && i < |was|
      requires states == RemoveAt(was, i) && runs == RemoveAt(wasRuns, i)
      requires forall k :: 0 <= k < |was| && k != i ==> Holds(wasRuns[k], was[k])
      requires liveBlocks == SumUsed(states)
      ensures Valid()
    {
      hide Holds, Linked, SumUsed, RemoveAt;
      forall k | 0 <= k < |runs| ensures Holds(runs[k], states[k]) {
        RemoveAtIndex(was, i, k);
        RemoveAtIndex(wasRuns, i, k);
      }
      forall j, k | 0 <= j < k < |runs|
        ensures runs[j].bits != runs[k].bits && runs[j].data != runs[k].data
      {
        RemoveAtIndex(wasRuns, i, j);
        RemoveAtIndex(wasRuns, i, k);
      }
    }

    /** purge_run on the i-th run: unmap it when it has been free long enough, else purge its pages.
        Returns the bytes given back by munmap and by madvise. */
    method PurgeRun(r: Run, ghost i: nat, t: nat, runIdle: nat, dirtyIdle: nat) returns (freed: nat, purged: nat)
      requires Valid() && i < |runs| && runs[i] == r
      modifies this`head, this`runs, this`states, r`touchedAt, r`mapped, r.data
      modifies (if r.prev == null then {} else {r.prev})`next
      modifies (if r.next == null then {} else {r.next})`prev
      ensures Valid()
      ensures IdleFree(old(states)[i], t, runIdle) ==>
                && runs == RemoveAt(old(runs), i) && states == RemoveAt(old(states), i)
                && !r.mapped && freed == MapBytes(elem) && purged == 0 && unchanged(r.data)
      ensures !IdleFree(old(states)[i], t, runIdle) ==>
                && runs == old(runs) && states == old(states)[i := Kept(old(states)[i], t, dirtyIdle)]
                && r.mapped && freed == 0 && PagesPurged(r, old(r.data[..]), old(states)[i], t, dirtyIdle)
    {
      hide Holds, Linked, Kept, SumUsed, MapBytes;
      ghost var was, wasRuns := states, runs;
      HeldRun(r, was[i]);
      NotSame(i);
      if r.used == 0 && Sub64(t, r.fullyFreeAt) >= runIdle {
        freed, purged := MapBytes(r.elem), 0;
        SumRemove(was, i);
        Remove(r, i);
        r.mapped := false;
        states := RemoveAt(states, i);
        RemovedOne(was, wasRuns, i);
      } else {
        freed := 0;
        purged := r.PurgePages(t, dirtyIdle);
        KeptValid(was[i], t, dirtyIdle);
        KeepRun(r, Kept(was[i], t, dirtyIdle));
        states := states[i := Kept(was[i], t, dirtyIdle)];
        OneRunChanged(was, i, states[i]);
      }
    }

    /** The bytes of a purged run: zero on the discarded pages, untouched elsewhere. */
    ghost predicate PagesPurged(r: Run, before: seq<bv8>, s: RunState, t: nat, dirtyIdle: nat)
      requires |before| == r.data.Length && ValidElem(s.elem)
      reads r.data
    {
      forall k :: 0 <= k < r.data.Length ==>
        r.data[k] == if IdleDirty(s, t, dirtyIdle) && Discards(s.elem, s.free, k / PAGE) then 0 else before[k]
    }

    /** Mid-sweep: the first j of the old runs have been dealt with, the others are as they were. */
    ghost predicate InSweep(rs: seq<Run>, ss: seq<RunState>, j: nat, t: nat, runIdle: nat, dirtyIdle: nat)
      reads this`runs, this`states
    {
      && |rs| == |ss| && j <= |rs| && Distinct(rs)
      && runs == Survivors(rs[..j], ss[..j], t, runIdle) + rs[j..]
      && states == Swept(ss[..j], t, runIdle, dirtyIdle) + ss[j..]
      && (forall r :: r in runs ==> r in rs)
    }

    /** The next run to visit sits right after the survivors so far. */
    lemma SweepHere(rs: seq<Run>, ss: seq<RunState>, j: nat, t: nat, runIdle: nat, dirtyIdle: nat)
      returns (pos: nat)
      requires Valid() && InSweep(rs, ss, j, t, runIdle, dirtyIdle) && j < |rs|
      ensures pos == |Survivors(rs[..j], ss[..j], t, runIdle)| < |runs|
      ensures runs[pos] == rs[j] && states[pos] == ss[j]
      ensures rs[j].mapped && rs[j].next == At(rs, j + 1)
      ensures rs[j].next != null ==> rs[j].next in rs
      ensures rs[j].prev != null ==> rs[j].prev in rs
    {
      hide Survivors, Swept, SumUsed;
      pos := |Survivors(rs[..j], ss[..j], t, runIdle)|;
      SurvivorCount(rs[..j], ss[..j], t, runIdle, dirtyIdle);
      assert rs[j..][0] == rs[j] && ss[j..][0] == ss[j];
      HeldRun(runs[pos], states[pos]);
      assert rs[j].next == At(runs, pos + 1) && rs[j].prev == At(runs, pos - 1);
      if j + 1 < |rs| {
        assert runs[pos + 1] == rs[j..][1] == rs[j + 1];
      }
    }

    lemma SweepNext(rs: seq<Run>, ss: seq<RunState>, j: nat, pos: nat, t: nat, runIdle: nat, dirtyIdle: nat)
      requires |rs| == |ss| && j < |rs| && Distinct(rs)
      requires pos == |Survivors(rs[..j], ss[..j], t, runIdle)| == |Swept(ss[..j], t, runIdle, dirtyIdle)|
      requires
        var before := Survivors(rs[..j], ss[..j], t, runIdle) + rs[j..];
        var was := Swept(ss[..j], t, runIdle, dirtyIdle) + ss[j..];
        && (forall r :: r in before ==> r in rs)
        && if IdleFree(ss[j], t, runIdle)
           then runs == RemoveAt(before, pos) && states == RemoveAt(was, pos)
           else runs == before && states == was[pos := Kept(ss[j], t, dirtyIdle)]
      ensures InSweep(rs, ss, j + 1, t, runIdle, dirtyIdle)
    {
      assert rs[..j + 1][..j] == rs[..j] && ss[..j + 1][..j] == ss[..j];
      assert rs[j..] == [rs[j]] + rs[j + 1..] && ss[j..] == [ss[j]] + ss[j + 1..];
    }

    lemma SweepEnds(rs: seq<Run>, ss: seq<RunState>, t: nat, runIdle: nat, dirtyIdle: nat)
      requires |rs| == |ss| && Distinct(rs)
      ensures InSweep(rs, ss, 0, t, runIdle, dirtyIdle) <==> runs == rs && states == ss
      ensures InSweep(rs, ss, |rs|, t, runIdle, dirtyIdle) ==>
                runs == Survivors(rs, ss, t, runIdle) && states == Swept(ss, t, runIdle, dirtyIdle)
    {
      assert rs[..0] == [] && rs[0..] == rs && rs[..|rs|] == rs && rs[|rs|..] == [];
      assert ss[..0] == [] && ss[0..] == ss && ss[..|rs|] == ss && ss[|rs|..] == [];
    }

    /** What a sweep has done after j runs: the list, the bytes given back, and who is still mapped. */
    ghost predicate SweptTo(rs: seq<Run>, ss: seq<RunState>, j: nat, freed: nat, t: nat, runIdle: nat, dirtyIdle: nat)
      reads this, runs, set r | r in runs :: r.bits, rs`mapped
    {
      && Valid() && InSweep(rs, ss, j, t, runIdle, dirtyIdle)
      && (forall k :: 0 <= k < |ss| ==> ss[k].elem == elem && ValidElem(ss[k].elem))
      && freed == IdleBytes(ss[..j], t, runIdle)
      && (forall m :: 0 <= m < j ==> rs[m].mapped == !IdleFree(ss[m], t, runIdle))
    }

    lemma SweepStarts(t: nat, runIdle: nat, dirtyIdle: nat)
      requires Valid()
      ensures SweptTo(runs, states, 0, 0, t, runIdle, dirtyIdle) && head == At(runs, 0)
    {
      ElemsAgree();
      HeadListed();
      hide Holds, Linked, SumUsed;
      SweepEnds(runs, states, t, runIdle, dirtyIdle);
    }

    lemma SweepDone(rs: seq<Run>, ss: seq<RunState>, freed: nat, t: nat, runIdle: nat, dirtyIdle: nat)
      requires SweptTo(rs, ss, |rs|, freed, t, runIdle, dirtyIdle)
      ensures Valid() && |rs| == |ss| && (forall k :: 0 <= k < |ss| ==> ValidElem(ss[k].elem))
      ensures states == Swept(ss, t, runIdle, dirtyIdle) && runs == Survivors(rs, ss, t, runIdle)
      ensures freed == IdleBytes(ss, t, runIdle)
      ensures forall m :: 0 <= m < |rs| ==> rs[m].mapped == !IdleFree(ss[m], t, runIdle)
    {
      hide Holds, Linked, SumUsed, Swept, Survivors, IdleBytes;
      SweepEnds(rs, ss, t, runIdle, dirtyIdle);
      assert ss[..|rs|] == ss;
    }

    /** One turn of the walk: the successor is read before the run is purged, which may unmap it. */
    method Visit(r: Run, ghost rs: seq<Run>, ghost ss: seq<RunState>, ghost j: nat, before: nat,
                 t: nat, runIdle: nat, dirtyIdle: nat) returns (nx: Run?, freed: nat)
      requires SweptTo(rs, ss, j, before, t, runIdle, dirtyIdle) && j < |rs| && r == rs[j]
      modifies this`head, this`runs, this`states, r`touchedAt, r`mapped, r.data, rs`next, rs`prev
      ensures SweptTo(rs, ss, j + 1, freed, t, runIdle, dirtyIdle)
      ensures nx == At(rs, j + 1)
    {
      hide Holds, Linked, SumUsed, MapBytes, Kept, Swept, Survivors, PagesPurged, IdleBytes;
      ghost var pos := SweepHere(rs, ss, j, t, runIdle, dirtyIdle);
      SurvivorCount(rs[..j], ss[..j], t, runIdle, dirtyIdle);
      IdleBytesStep(ss, j, t, runIdle);
      OthersDiffer(rs, j);
      assert r.mapped; // the header is still there to be read
      nx := r.next;
      var f, _ := PurgeRun(r, pos, t, runIdle, dirtyIdle);
      SweepNext(rs, ss, j, pos, t, runIdle, dirtyIdle);
      freed := before + f;
    }

    /** The walk of trim_thread over one class: every run is visited once, the idle fully free ones
        are unmapped, and the survivors keep their order. */
    method Sweep(t: nat, runIdle: nat, dirtyIdle: nat) returns (freed: nat)
      requires Valid()
      modifies this`head, this`runs, this`states
      modifies runs`touchedAt, runs`mapped, runs`next, runs`prev, set r | r in runs :: r.data
      ensures Valid()
      ensures |old(runs)| == |old(states)|
      ensures forall k :: 0 <= k < |old(states)| ==> ValidElem(old(states)[k].elem)
      ensures states == Swept(old(states), t, runIdle, dirtyIdle)
      ensures runs == Survivors(old(runs), old(states), t, runIdle)
      ensures freed == IdleBytes(old(states), t, runIdle)
      ensures forall m :: 0 <= m < |old(runs)| ==>
                old(runs)[m].mapped == !IdleFree(old(states)[m], t, runIdle)
    {
      hide *;
      ghost var rs, ss, j: nat := runs, states, 0;
      freed := 0;
      var r := head;
      SweepStarts(t, runIdle, dirtyIdle);
      while r != null
        invariant j <= |rs| && r == At(rs, j)
        invariant SweptTo(rs, ss, j, freed, t, runIdle, dirtyIdle)
        decreases |rs| - j
      {
        AtIs(rs, j);
        r, freed := Visit(r, rs, ss, j, freed, t, runIdle, dirtyIdle);
        j := j + 1;
      }
      AtIs(rs, j);
      SweepDone(rs, ss, freed, t, runIdle, dirtyIdle);
    }
  }
}
