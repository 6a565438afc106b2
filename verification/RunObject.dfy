/** The run header as an object updated in place. Every method is tied to its value in RunSpec. */
module RunObject {
  import opened Arith
  import opened SizeClasses
  import opened Bitmap
  import opened RunSpec
  import opened Options
  import opened PurgeSafety

  class Run {
    const base: nat
    const cls: nat
    const elem: nat
    const elems: nat
    const bits: array<bv64>
    /** The bytes of the data area, from run_data on. */
    const data: array<bv8>
    var used: nat
    var fullyFreeAt: nat
    var touchedAt: nat
    var next: Run?
    var prev: Run?
    /** False once the region has been given back to the kernel; nothing may read the run then. */
    ghost var mapped: bool

    ghost predicate Shaped() {
      && ValidElem(elem) && elems == Elems(elem)
      && bits.Length == Words(elems) && data.Length == elems * elem
    }

    ghost predicate Valid()
      reads bits
    {
      Shaped() && Tight(bits[..], elems)
    }

    ghost function State(): RunState
      requires Shaped()
      reads this`used, this`fullyFreeAt, this`touchedAt, bits
    {
      RunState(cls, elem, Free(bits[..], elems), used, fullyFreeAt, touchedAt)
    }

    /** The header run_new writes into a region mapped at `base`. */
    constructor (base: nat, cls: nat, elem: nat, now: nat)
      requires ValidElem(elem)
      ensures Valid() && State() == Fresh(cls, elem, now)
      ensures this.base == base && this.cls == cls && this.elem == elem
      ensures mapped && fresh(bits) && fresh(data)
    {
      this.base, this.cls, this.elem := base, cls, elem;
      elems := Elems(elem);
      used := 0;
      fullyFreeAt, touchedAt := now, now;
      next, prev := null, null;
      mapped := true;
      bits := new bv64[Words(Elems(elem))](_ => ALL_ONES);
      data := new bv8[Elems(elem) * elem](_ => 0);
      new;
      if elems % 64 != 0 {
        bits[elems / 64] := Meet(bits[elems / 64], BitsBelow(Bit(elems % 64)));
      }
      FreshFill(bits[..], elems);
    }

    /** run_take without the class counter: the index of the block handed out. */
    method Take(now: nat) returns (idx: Option<nat>)
      requires Valid() && mapped
      modifies this`used, this`fullyFreeAt, this`touchedAt, bits
      ensures Valid()
      ensures idx.None? <==> old(State()).free == {}
      ensures idx.None? ==> State() == old(State())
      ensures idx.Some? ==> idx.value == Least(old(State()).free) && State() == Taken(old(State()), now)
    {
      var i := 0;
      while i < bits.Length && bits[i] == 0
        invariant 0 <= i <= bits.Length
        invariant forall v :: 0 <= v < i ==> bits[v] == 0
      {
        i := i + 1;
      }
      if i == bits.Length {
        AllZeroNoneFree(bits[..], elems);
        return None;
      }
      var k := Claim(i, now);
      return Some(k);
    }

    /** The body of run_take's loop at the first nonzero word. */
    method Claim(w: nat, now: nat) returns (k: nat)
      requires Valid() && mapped && w < bits.Length && bits[w] != 0
      requires forall v :: 0 <= v < w ==> bits[v] == 0
      modifies this`used, this`fullyFreeAt, this`touchedAt, bits
      ensures Valid() && old(State()).free != {}
      ensures k == Least(old(State()).free) && State() == Taken(old(State()), now)
    {
      hide On, Ctz, DropLowest, Has;
      TakeLowest(bits[..], elems, w);
      k := w * 64 + Ctz(bits[w]);
      assert k < elems; // so the source's bound check on the index always passes
      bits[w] := DropLowest(bits[w]);
      used := used + 1;
      if used == 1 {
        fullyFreeAt := 0;
      }
      touchedAt := now;
    }

    /** run_give without the class counter, from the pointer as the caller passes it. */
    method Give(p: nat, ghost idx: nat, touch: nat, stamp: nat)
      requires Valid() && mapped && idx < elems && p == base + BlockOffset(elem, idx)
      modifies this`used, this`fullyFreeAt, this`touchedAt, bits
      ensures Valid() && State() == Given(old(State()), idx, touch, stamp)
    {
      var i := (p - (base + DataOffset(elems))) / elem;
      DivUnique(idx * elem, elem, idx);
      GiveBit(bits[..], elems, i);
      bits[i / 64] := Or(bits[i / 64], Bit(i % 64));
      if used > 0 {
        used := used - 1;
      }
      touchedAt := touch;
      if used == 0 && fullyFreeAt == 0 {
        fullyFreeAt := stamp;
      }
    }

    /** The inner loop of the page purge: are the blocks b0..b1-1 all free? */
    method AllFree(b0: nat, b1: nat) returns (allFree: bool)
      requires Valid() && mapped && b1 <= elems
      ensures allFree <==> forall b :: b0 <= b < b1 ==> b in State().free
    {
      hide On;
      var b := b0;
      while b < b1
        invariant b0 <= b
        invariant b0 <= b1 ==> b <= b1
        invariant forall i :: b0 <= i < b ==> i in State().free
      {
        if !On(bits[b / 64], b % 64) {
          assert !Has(bits[..], b) && b !in State().free;
          return false;
        }
        assert Has(bits[..], b);
        b := b + 1;
      }
      return true;
    }

    /** madvise(MADV_DONTNEED) on one data page: it reads as zero afterwards. */
    method DiscardPage(off: nat, ghost p: nat)
      requires mapped && off == p * PAGE && off + PAGE <= data.Length
      modifies data
      ensures forall k :: 0 <= k < data.Length ==>
                data[k] == if k / PAGE == p then 0 else old(data[k])
    {
      forall k | off <= k < off + PAGE {
        data[k] := 0;
      }
    }

    ghost predicate PageGoes(p: nat)
      requires Shaped()
      reads this`used, this`fullyFreeAt, this`touchedAt, bits
    {
      Discards(elem, State().free, p)
    }

    /** The range of blocks to check for the page at `off`, both quotients rounded down. */
    method CheckedRange(off: nat, ghost p: nat) returns (b0: nat, b1: nat)
      requires Shaped() && off == p * PAGE && off + PAGE <= data.Length
      requires elem > PAGE ==> p == 0
      ensures b0 == FirstChecked(elem, p) && b1 == FirstChecked(elem, p + 1) <= elems
      ensures b1 <= b0 <==> elem > PAGE
    {
      hide FirstChecked, Elems;
      QuotientsInRange(elem, elems, p, off);
      b0 := off / elem;
      b1 := (off + PAGE) / elem;
      if b1 > elems {
        b1 := elems;
      }
    }

    /** One turn of the page loop at page `p`: stop at once for blocks over a page, else give the
        page back when its checked blocks are all free. */
    method PageStep(off: nat, ghost p: nat) returns (stop: bool, gone: bool)
      requires Valid() && mapped && off == p * PAGE && off + PAGE <= data.Length
      requires elem > PAGE ==> p == 0
      modifies data
      ensures stop <==> elem > PAGE
      ensures gone <==> PageGoes(p)
      ensures forall k :: 0 <= k < data.Length ==>
                data[k] == if gone && k / PAGE == p then 0 else old(data[k])
    {
      hide Discards, Free, FirstChecked, Elems;
      var b0, b1 := CheckedRange(off, p);
      DiscardDecided(elem, State().free, p, b0, b1);
      if b1 <= b0 {
        return true, false;
      }
      var allFree := AllFree(b0, b1);
      if allFree {
        DiscardPage(off, p);
      }
      return false, allFree;
    }

    /** The page loop of purge_run. */
    method PageLoop() returns (purged: nat)
      requires Valid() && mapped
      modifies data
      ensures forall k :: 0 <= k < data.Length ==>
                data[k] == if PageGoes(k / PAGE) then 0 else old(data[k])
      ensures purged == PAGE * DiscardCount(elem, State().free, data.Length / PAGE)
    {
      hide Discards;
      var off: nat := 0;
      ghost var p: nat := 0;
      purged := 0;
      while off + PAGE <= data.Length
        invariant off == p * PAGE && p <= data.Length / PAGE
        invariant elem > PAGE ==> p == 0
        invariant purged == PAGE * DiscardCount(elem, State().free, p)
        invariant forall k :: 0 <= k < data.Length ==>
                    data[k] == if k / PAGE < p && PageGoes(k / PAGE) then 0 else old(data[k])
        decreases data.Length - off
      {
        var stop, gone := PageStep(off, p);
        if stop {
          break;
        }
        if gone {
          purged := purged + PAGE;
        }
        off := off + PAGE;
        p := p + 1;
      }
      NoneBeyond(elem, State().free, p);
      if elem > PAGE {
        NoDiscards(elem, State().free, data.Length / PAGE);
      }
    }

    /** purge_run below its unmapping branch: the touch stamp and the page loop. */
    method PurgePages(t: nat, dirtyIdle: nat) returns (purged: nat)
      requires Valid() && mapped
      modifies this`touchedAt, data
      ensures Valid() && State() == Kept(old(State()), t, dirtyIdle)
      ensures forall k :: 0 <= k < data.Length ==>
                data[k] == if IdleDirty(old(State()), t, dirtyIdle) && old(PageGoes(k / PAGE))
                           then 0 else old(data[k])
      ensures purged == if IdleDirty(old(State()), t, dirtyIdle)
                        then PAGE * DiscardCount(elem, old(State()).free, data.Length / PAGE) else 0
    {
      if Sub64(t, touchedAt) < dirtyIdle {
        return 0;
      }
      touchedAt := t;
      if elem >= PAGE && elem % PAGE != 0 {
        NoDiscards(elem, State().free, data.Length / PAGE);
        return 0;
      }
      purged := PageLoop();
    }
  }

  /** Past the last whole page of data, and for blocks over a page, nothing is discarded. */
  lemma NoneBeyond(elem: nat, free: set<nat>, p: nat)
    requires ValidElem(elem)
    ensures forall q: nat :: (q + 1) * PAGE > Elems(elem) * elem || elem > PAGE ==> !Discards(elem, free, q)
  {}

  lemma {:induction false} NoDiscards(elem: nat, free: set<nat>, n: nat)
    requires ValidElem(elem) && elem > PAGE
    ensures DiscardCount(elem, free, n) == 0
  {
    if n > 0 {
      NoDiscards(elem, free, n - 1);
    }
  }

  /** The bounds the page loop computes at page `p` are the checked range, within the run; they are
      a nonempty range exactly for blocks up to a page (a larger block is only asked about page 0). */
  lemma QuotientsInRange(elem: nat, elems: nat, p: nat, off: nat)
    requires elem > 0 && off == p * PAGE && off + PAGE <= elems * elem
    requires elem > PAGE ==> p == 0
    ensures off / elem == FirstChecked(elem, p)
    ensures (off + PAGE) / elem == FirstChecked(elem, p + 1) <= elems
    ensures (off + PAGE) / elem <= off / elem <==> elem > PAGE
  {
    assert off + PAGE == (p + 1) * PAGE;
    ChecksInRun(elem, elems, off + PAGE);
    ChecksSome(elem, off);
    if elem > PAGE {
      DivUnique(0, elem, 0);
      DivUnique(PAGE, elem, 0);
    }
  }

  lemma ChecksInRun(elem: nat, elems: nat, x: nat)
    requires elem > 0 && x <= elems * elem
    ensures x / elem <= elems
  {
    QuotientMono(x, elems * elem, elem);
    DivUnique(elems * elem, elem, elems);
  }

  lemma ChecksSome(elem: nat, off: nat)
    requires 0 < elem
    ensures elem <= PAGE ==> off / elem < (off + PAGE) / elem
  {
    if elem <= PAGE {
      DivFacts(off, elem);
      DivUnique(off + elem, elem, off / elem + 1);
      QuotientMono(off + elem, off + PAGE, elem);
    }
  }

  lemma DiscardDecided(elem: nat, free: set<nat>, p: nat, b0: nat, b1: nat)
    requires ValidElem(elem) && (p + 1) * PAGE <= Elems(elem) * elem
    requires b0 == FirstChecked(elem, p) && b1 == FirstChecked(elem, p + 1)
    ensures Discards(elem, free, p) <==> elem <= PAGE && forall b :: b0 <= b < b1 ==> b in free
  {}

  lemma AllZeroNoneFree(bits: seq<bv64>, elems: nat)
    requires elems <= 64 * |bits| && forall w :: 0 <= w < |bits| ==> bits[w] == 0
    ensures Free(bits, elems) == {}
  {
    hide On;
    forall i: nat | i < elems ensures !Has(bits, i) { OnOnes(i % 64); }
  }
}
