/** The value-level operations do to a class exactly what the linked-list methods of ClassState promise, and
    nothing to the other classes. With HeapProofs.TakeIsAllocate these tie the step system to the code. */
module Agreement {
  import opened Arith
  import opened Seqs
  import opened SizeClasses
  import opened RunSpec
  import opened HeapSpec
  import opened HeapProofs
  import Ownership

  ghost function ListOf(h: Heap, c: nat): seq<nat>
    requires HasClass(h, c)
  {
    h.lists[c]
  }

  /** The runs of class d, in order, with their states. */
  ghost predicate SameClass(h: Heap, g: Heap, d: nat) {
    HasClass(h, d) && HasClass(g, d) && g.lists[d] == h.lists[d] && ClassStates(g, d) == ClassStates(h, d)
  }

  /** GiveBlock is ClassState.Give. */
  lemma GiveIsGiven(h: Heap, b: Block, touch: nat, stamp: nat) returns (c: nat, i: nat)
    requires Consistent(h) && Issued(h, Small(b))
    ensures
      var g := GiveBlock(h, b, touch, stamp);
      && HasClass(h, c) && HasClass(g, c) && c == h.runs[b.base].cls - 1
      && i < |h.lists[c]| && h.lists[c][i] == b.base && g.lists == h.lists
      && g.space == h.space && g.mapped == h.mapped && g.freed == h.freed && g.mem == h.mem
      && ClassStates(g, c) == ClassStates(h, c)[i := Given(ClassStates(h, c)[i], b.idx, touch, stamp)]
      && (forall d :: 0 <= d < NUM_CLASSES && d != c ==> SameClass(h, g, d))
  {
    c, i := RunListed(h, b.base);
    var r := h.runs[b.base];
    assert RunOk(h, b.base);
    hide Consistent, RunOk, MapBytes, Size;
    GivenValid(r, b.idx, touch, stamp);
    SetRunKeeps(h, b.base, Given(r, b.idx, touch, stamp));
  }

  /** PurgeRun is ClassState.PurgeRun. */
  lemma PurgeIsPurge(h: Heap, base: nat, t: nat, runIdle: nat, dirtyIdle: nat) returns (c: nat, i: nat)
    requires Consistent(h) && base in h.runs
    ensures
      var g := PurgeRun(h, base, t, runIdle, dirtyIdle);
      && HasClass(h, c) && HasClass(g, c) && c == h.runs[base].cls - 1 && ValidElem(h.runs[base].elem)
      && i < |h.lists[c]| && h.lists[c][i] == base
      && VisitedAt(ClassStates(h, c), h.lists[c], ClassStates(g, c), g.lists[c], i, t, runIdle, dirtyIdle)
      && BytesAfterPurge(h, g, base, t, runIdle, dirtyIdle)
      && (forall d :: 0 <= d < NUM_CLASSES && d != c ==> SameClass(h, g, d))
  {
    c, i := RunListed(h, base);
    var r := h.runs[base];
    assert RunOk(h, base);
    PurgeKeeps(h, base, t, runIdle, dirtyIdle);
    PurgeBytesAgree(h, base, t, runIdle, dirtyIdle);
    hide BytesAfterPurge;
    if IdleFree(r, t, runIdle) {
      DropIsRemove(h, base, c, i);
    } else {
      KeptIsUpdate(h, base, c, i, t, dirtyIdle);
    }
  }

  /** The data area of a purged run: the discarded pages are zero, the rest is as before. */
  ghost predicate PagesZeroed(mem: nat -> bv8, after: nat -> bv8, base: nat, r: RunState)
    requires ValidElem(r.elem)
  {
    var d := base + DataOffset(Elems(r.elem));
    forall k: nat :: k < Elems(r.elem) * r.elem ==>
      after(d + k) == if Discards(r.elem, r.free, Quotient(k, PAGE)) then 0 else mem(d + k)
  }

  /** Every byte outside the data area is as before. */
  ghost predicate OutsideKept(mem: nat -> bv8, after: nat -> bv8, base: nat, r: RunState)
    requires ValidElem(r.elem)
  {
    var d := base + DataOffset(Elems(r.elem));
    forall x: nat :: !(d <= x < d + Elems(r.elem) * r.elem) ==> after(x) == mem(x)
  }

  /** The kernel's side of a visit, as ClassState.PurgeRun and Run.PurgePages leave it: an unmapped run is charged
      to the freed counter with the size it was mapped with; a kept one loses only its discarded pages. */
  ghost predicate BytesAfterPurge(h: Heap, g: Heap, base: nat, t: nat, runIdle: nat, dirtyIdle: nat)
    requires base in h.runs && ValidElem(h.runs[base].elem)
  {
    var r := h.runs[base];
    if IdleFree(r, t, runIdle) then
      && base in h.space && g.space == h.space - {base} && g.mapped == h.mapped
      && g.freed == h.freed + h.space[base] == h.freed + MapBytes(r.elem) && g.mem == h.mem
    else
      && g.space == h.space && g.mapped == h.mapped && g.freed == h.freed
      && if IdleDirty(r, t, dirtyIdle) then PagesZeroed(h.mem, g.mem, base, r) && OutsideKept(h.mem, g.mem, base, r)
         else g.mem == h.mem
  }

  lemma PurgeBytesAgree(h: Heap, base: nat, t: nat, runIdle: nat, dirtyIdle: nat)
    requires Consistent(h) && base in h.runs && ValidElem(h.runs[base].elem)
    ensures BytesAfterPurge(h, PurgeRun(h, base, t, runIdle, dirtyIdle), base, t, runIdle, dirtyIdle)
  {
    hide Consistent, MapBytes, Sub64, PagesZeroed, OutsideKept, Purged;
    Ownership.RunPlaced(h, base);
    PurgedInside(h.mem, base, h.runs[base]);
    PurgedOutside(h.mem, base, h.runs[base]);
  }

  lemma PurgedInside(mem: nat -> bv8, base: nat, r: RunState)
    requires ValidElem(r.elem)
    ensures PagesZeroed(mem, Purged(mem, base, r), base, r)
  {
    hide Discards, Elems, DataOffset;
    var d := base + DataOffset(Elems(r.elem));
    forall k: nat | k < Elems(r.elem) * r.elem
      ensures Purged(mem, base, r)(d + k) == if Discards(r.elem, r.free, Quotient(k, PAGE)) then 0 else mem(d + k)
    {
      assert d + k - d == k;
    }
  }

  /** Nothing outside the data area is discarded. */
  lemma PurgedOutside(mem: nat -> bv8, base: nat, r: RunState)
    requires ValidElem(r.elem)
    ensures OutsideKept(mem, Purged(mem, base, r), base, r)
  {
    hide Elems, DataOffset;
    var d := base + DataOffset(Elems(r.elem));
    forall x: nat | !(d <= x < d + Elems(r.elem) * r.elem) ensures Purged(mem, base, r)(x) == mem(x) {
      if x >= d { NotDiscardedBeyond(r, x - d); }
    }
  }

  lemma NotDiscardedBeyond(r: RunState, off: nat)
    requires ValidElem(r.elem) && off >= Elems(r.elem) * r.elem
    ensures !Discards(r.elem, r.free, Quotient(off, PAGE))
  {
    DivFacts(off, PAGE);
  }

  /** One visit at position i: the run is removed, or kept with at most a new touch stamp. */
  predicate VisitedAt(ss: seq<RunState>, list: seq<nat>, tt: seq<RunState>, rest: seq<nat>, i: nat,
                    t: nat, runIdle: nat, dirtyIdle: nat)
    requires i < |ss| == |list|
  {
    if IdleFree(ss[i], t, runIdle) then tt == RemoveAt(ss, i) && rest == RemoveAt(list, i)
    else tt == ss[i := Kept(ss[i], t, dirtyIdle)] && rest == list
  }

  lemma DropIsRemove(h: Heap, base: nat, c: nat, i: nat)
    requires HasClass(h, c) && base in h.runs && c == h.runs[base].cls - 1
    requires i < |h.lists[c]| && h.lists[c][i] == base
    requires HasClass(DropRun(h, base), c)
    requires forall d :: 0 <= d < NUM_CLASSES && d != c ==> base !in h.lists[d]
    ensures
      var g := DropRun(h, base);
      && g.lists[c] == RemoveAt(h.lists[c], i) && ClassStates(g, c) == RemoveAt(ClassStates(h, c), i)
      && (forall d :: 0 <= d < NUM_CLASSES && d != c ==> SameClass(h, g, d))
  {
    hide Consistent, MapBytes, Size, RunOk, Remove, RemoveAt, ListOk, LiveOk, DropRun;
    DropOwnClass(h, base, c, i);
    forall d | 0 <= d < NUM_CLASSES && d != c ensures SameClass(h, DropRun(h, base), d) {
      DropOtherClass(h, base, d);
    }
  }

  lemma DropOwnClass(h: Heap, base: nat, c: nat, i: nat)
    requires HasClass(h, c) && base in h.runs && c == h.runs[base].cls - 1
    requires i < |h.lists[c]| && h.lists[c][i] == base && HasClass(DropRun(h, base), c)
    ensures
      var g := DropRun(h, base);
      g.lists[c] == RemoveAt(h.lists[c], i) && ClassStates(g, c) == RemoveAt(ClassStates(h, c), i)
  {
    ClassFacts(h, c);
    hide Consistent, MapBytes, Size, Remove, RemoveAt, LiveOk;
    RemoveIsRemoveAt(h.lists[c], i);
    ListWithout(h, c, i, h.runs - {base});
  }

  lemma DropOtherClass(h: Heap, base: nat, d: nat)
    requires HasClass(h, d) && base in h.runs && Consistent(DropRun(h, base)) && base !in h.lists[d]
    ensures SameClass(h, DropRun(h, base), d)
  {
    hide MapBytes, Remove, RunOk, LargeOk, ListOk, LiveOk, SpaceOk;
    assert RunOk(h, base);
    var g := DropRun(h, base);
    assert g.lists[d] == h.lists[d] by { NotItsClass(h, base, d); }
  }

  lemma NotItsClass(h: Heap, base: nat, d: nat)
    requires HasClass(h, d) && base in h.runs && base !in h.lists[d]
    ensures h.runs[base].cls != d + 1
  {
    assert RunOk(h, base);
  }

  lemma KeptIsUpdate(h: Heap, base: nat, c: nat, i: nat, t: nat, dirtyIdle: nat)
    requires HasClass(h, c) && base in h.runs && ValidRun(h.runs[base])
    requires i < |h.lists[c]| && h.lists[c][i] == base
    requires forall d :: 0 <= d < NUM_CLASSES && d != c ==> base !in h.lists[d]
    ensures
      var k := SetRun(h, base, Kept(h.runs[base], t, dirtyIdle));
      forall mem ::
        var g := k.(mem := mem);
        && HasClass(g, c) && g.lists == h.lists
        && ClassStates(g, c) == ClassStates(h, c)[i := Kept(h.runs[base], t, dirtyIdle)]
        && (forall d :: 0 <= d < NUM_CLASSES && d != c ==> SameClass(h, g, d))
  {
    var r := Kept(h.runs[base], t, dirtyIdle);
    var k := SetRun(h, base, r);
    KeptValid(h.runs[base], t, dirtyIdle);
    SetRunKeeps(h, base, r);
    hide Consistent, MapBytes, Size, RunOk;
    forall mem: nat -> bv8 ensures Consistent(k.(mem := mem)) { MemOnly(k, mem); }
  }
}
