/** The bump-allocated address reserve, in 64-bit arithmetic: every region is carved out of one interval, and as
    long as the bump pointer does not wrap around, its address is never handed out again. */
module Reserve {
  import opened Arith
  import opened Options

  /** Where user addresses end: the upper half of the address space is the kernel's. */
  const USER_TOP: nat := 0x8000_0000_0000_0000

  /** An interval [base, base + size) of addresses. */
  datatype Region = Region(base: nat, size: nat) {
    predicate Contains(a: nat) { base <= a < base + size }
  }

  /** No address lies in both; an empty region meets nothing. */
  ghost predicate Disjoint(r: Region, q: Region) {
    forall a :: !(r.Contains(a) && q.Contains(a))
  }

  // ---------------------------------------------------------------- the reserve as a value

  /** Where reserve_map would place a region: the next multiple of `align`. */
  function Place(bump: nat, align: nat): nat
    requires align > 0
  {
    AlignDown((bump + align - 1) % WORD64, align)
  }

  /** What the call adds to the bump pointer, whether it succeeds or not. */
  function Advance(size: nat, align: nat): nat { (size + align) % WORD64 }

  function NextBump(bump: nat, size: nat, align: nat): nat { (bump + Advance(size, align)) % WORD64 }

  /** The addition does not wrap. */
  predicate BumpFits(bump: nat, size: nat, align: nat) { bump + Advance(size, align) < WORD64 }

  /** mmap may agree: it maps neither nothing, nor address zero, nor kernel addresses. */
  predicate Mappable(base: nat, size: nat) { 0 < base && 0 < size && base + size <= USER_TOP }

  /** reserve_map answers with a region: its bound check passes and mmap, whose verdict is `mapped`, agrees. */
  predicate Placed(bump: nat, end: nat, size: nat, align: nat, mapped: bool)
    requires align > 0
  {
    var base := Place(bump, align);
    (base + size) % WORD64 <= end && mapped && Mappable(base, size)
  }

  /** The bump pointer moves back exactly when the addition wraps. */
  lemma BumpFitsIff(bump: nat, size: nat, align: nat)
    requires bump < WORD64
    ensures NextBump(bump, size, align) < WORD64
    ensures BumpFits(bump, size, align) <==> NextBump(bump, size, align) >= bump
    ensures BumpFits(bump, size, align) ==> NextBump(bump, size, align) == bump + Advance(size, align)
    ensures !BumpFits(bump, size, align) ==> NextBump(bump, size, align) == bump + Advance(size, align) - WORD64
  {
    var sum := bump + Advance(size, align);
    WrapOnce(sum);
    WrapOnce(size + align);
  }

  lemma WrapOnce(x: nat)
    ensures x % WORD64 < WORD64
    ensures x < WORD64 ==> x % WORD64 == x
    ensures WORD64 <= x < 2 * WORD64 ==> x % WORD64 == x - WORD64
  {
    if x < WORD64 {
      ModUnique(x, WORD64, 0, x);
    } else if x < 2 * WORD64 {
      ModUnique(x, WORD64, 1, x - WORD64);
    }
  }

  /** A region handed out is aligned, lies between the old and the new bump pointer and below `end`, and the
      addition has not wrapped: only a refused call can move the bump pointer back. */
  lemma PlacedFits(bump: nat, end: nat, size: nat, align: nat, mapped: bool)
    requires 0 < align < USER_TOP && bump < WORD64 && end <= USER_TOP && Placed(bump, end, size, align, mapped)
    ensures BumpFits(bump, size, align)
    ensures Place(bump, align) % align == 0 && size > 0
    ensures bump <= Place(bump, align) && Place(bump, align) + size <= end
    ensures Place(bump, align) + size < NextBump(bump, size, align)
  {
    var near := bump + align - 1;
    WrapOnce(near);
    AlignDownFacts(near % WORD64, align);
    if near >= WORD64 {
      AlignDownUnique(near % WORD64, 0, align);
    }
    hide AlignDown;
    WrapOnce(Place(bump, align) + size);
    WrapOnce(size + align);
    BumpFitsIff(bump, size, align);
  }

  /** The least multiple of `align` from the bump pointer on. */
  predicate NextAligned(bump: nat, align: nat, base: nat)
    requires align > 0
  {
    bump <= base < bump + align && base % align == 0
  }

  /** A call is answered exactly when mmap agrees and the region, placed at the next aligned address, is not empty and
      fits below the end: no wrap of the sums lets a region through that does not. */
  lemma PlacedIff(bump: nat, end: nat, size: nat, align: nat, mapped: bool)
    requires 0 < align < USER_TOP && 0 < bump < WORD64 && end <= USER_TOP
    ensures Placed(bump, end, size, align, mapped) <==>
            mapped && size > 0 && exists base: nat :: NextAligned(bump, align, base) && base + size <= end
    ensures Placed(bump, end, size, align, mapped) ==> NextAligned(bump, align, Place(bump, align))
  {
    hide Placed, NextAligned, Place;
    if Placed(bump, end, size, align, mapped) {
      PlacedFits(bump, end, size, align, mapped);
      PlaceNear(bump, align);
      PlacedMapped(bump, end, size, align, mapped);
    }
    forall base: nat | NextAligned(bump, align, base) && base + size <= end && mapped && size > 0
      ensures Placed(bump, end, size, align, mapped)
    {
      PlacedAt(bump, end, size, align, base);
    }
  }

  lemma PlacedMapped(bump: nat, end: nat, size: nat, align: nat, mapped: bool)
    requires align > 0 && Placed(bump, end, size, align, mapped)
    ensures mapped && size > 0
  {
    hide Place;
  }

  lemma PlacedAt(bump: nat, end: nat, size: nat, align: nat, base: nat)
    requires 0 < align < USER_TOP && 0 < bump < WORD64 && end <= USER_TOP
    requires NextAligned(bump, align, base) && base + size <= end && size > 0
    ensures Place(bump, align) == base && Placed(bump, end, size, align, true)
  {
    WrapOnce(bump + align - 1);
    AlignDownUnique(bump + align - 1, base, align);
    hide AlignDown;
    assert Place(bump, align) == base;
    hide Place;
    WrapOnce(base + size);
  }

  lemma PlaceNear(bump: nat, align: nat)
    requires 0 < align < USER_TOP && bump < WORD64
    ensures Place(bump, align) >= bump ==> NextAligned(bump, align, Place(bump, align))
  {
    WrapOnce(bump + align - 1);
    AlignDownFacts((bump + align - 1) % WORD64, align);
  }

  /** A bump pointer that is aligned is where the region goes. */
  lemma PlaceAligned(bump: nat, align: nat)
    requires align > 0 && bump % align == 0 && bump + align <= WORD64
    ensures Place(bump, align) == bump
  {
    WrapOnce(bump + align - 1);
    AlignDownUnique(bump + align - 1, bump, align);
  }

  // ---------------------------------------------------------------- the reserve as an object

  class AddressReserve {
    const start: nat
    const end: nat
    var bump: nat
    /** Every region ever returned, oldest first; unmapping does not remove it. */
    ghost var issued: seq<Region>

    ghost predicate Valid()
      reads this
    {
      && start <= bump < WORD64 && end <= USER_TOP
      && (forall i :: 0 <= i < |issued| ==> Inside(issued[i]))
      && (forall i, j :: 0 <= i < j < |issued| ==> issued[i].base + issued[i].size < issued[j].base)
    }

    ghost predicate Inside(r: Region)
      reads this
    {
      start <= r.base && r.base + r.size <= end && r.base + r.size < bump
    }

    constructor (start: nat, size: nat)
      requires start + size <= USER_TOP
      ensures Valid() && issued == [] && bump == start
      ensures this.start == start && this.end == start + size
    {
      this.start, this.end := start, start + size;
      bump := start;
      issued := [];
    }

    /** reserve_map. The bump pointer moves even when the call fails, and when that wraps it moves back: then
        nothing is returned, and the reserve may no longer be valid. */
    method Map(size: nat, align: nat, mapped: bool) returns (base: Option<nat>)
      requires Valid() && 0 < align < USER_TOP
      modifies this
      ensures bump == NextBump(old(bump), size, align)
      ensures BumpFits(old(bump), size, align) <==> old(bump) <= bump
      ensures BumpFits(old(bump), size, align) ==> Valid()
      ensures base.Some? <==> Placed(old(bump), end, size, align, mapped)
      ensures base.Some? ==> base.value == Place(old(bump), align) && base.value % align == 0
      ensures base.Some? ==> BumpFits(old(bump), size, align)
      ensures issued == old(issued) + (if base.Some? then [Region(base.value, size)] else [])
      ensures forall r :: r in old(issued) && base.Some? ==> Disjoint(r, Region(base.value, size))
    {
      var want := bump;
      bump := (bump + (size + align) % WORD64) % WORD64;
      BumpFitsIff(want, size, align);
      var b := AlignDown((want + align - 1) % WORD64, align);
      if (b + size) % WORD64 > end || !mapped || !Mappable(b, size) {
        return None;
      }
      PlacedFits(want, end, size, align, mapped);
      issued := issued + [Region(b, size)];
      return Some(b);
    }
  }

  // ---------------------------------------------------------------- any sequence of calls

  datatype Request = Request(size: nat, align: nat, mapped: bool)

  /** Alignments are small. */
  predicate Aligned(calls: seq<Request>) { forall q :: q in calls ==> 0 < q.align < USER_TOP }

  /** The regions returned by a sequence of reserve_map calls, oldest first. */
  function Issue(bump: nat, end: nat, calls: seq<Request>): (rs: seq<Region>)
    requires Aligned(calls)
    decreases |calls|
  {
    if calls == [] then []
    else
      var q := calls[0];
      var rest := Issue(NextBump(bump, q.size, q.align), end, calls[1..]);
      if Placed(bump, end, q.size, q.align, q.mapped) then [Region(Place(bump, q.align), q.size)] + rest else rest
  }

  /** No call of the sequence makes the bump pointer wrap. */
  predicate NeverWraps(bump: nat, calls: seq<Request>)
    decreases |calls|
  {
    calls == [] ||
    (BumpFits(bump, calls[0].size, calls[0].align) &&
     NeverWraps(NextBump(bump, calls[0].size, calls[0].align), calls[1..]))
  }

  /** Strictly ascending regions inside [lo, hi). */
  ghost predicate Ascending(rs: seq<Region>, lo: nat, hi: nat) {
    && (forall i :: 0 <= i < |rs| ==> lo <= rs[i].base && rs[i].base + rs[i].size <= hi)
    && (forall i, j :: 0 <= i < j < |rs| ==> rs[i].base + rs[i].size < rs[j].base)
  }

  lemma AscendingPrepend(r: Region, rs: seq<Region>, lo: nat, mid: nat, hi: nat)
    requires Ascending(rs, mid, hi)
    requires lo <= r.base && r.base + r.size < mid && r.base + r.size <= hi
    ensures Ascending([r] + rs, lo, hi)
  {
    var all := [r] + rs;
    forall i | 0 <= i < |all| ensures lo <= all[i].base && all[i].base + all[i].size <= hi {
      if i > 0 { assert all[i] == rs[i - 1]; }
    }
    forall i, j | 0 <= i < j < |all| ensures all[i].base + all[i].size < all[j].base {
      assert all[j] == rs[j - 1];
      if i > 0 { assert all[i] == rs[i - 1]; }
    }
  }

  lemma {:induction false} IssuedAscending(bump: nat, end: nat, calls: seq<Request>)
    requires bump < WORD64 && end <= USER_TOP && Aligned(calls) && NeverWraps(bump, calls)
    ensures Ascending(Issue(bump, end, calls), bump, end)
    decreases |calls|
  {
    hide Place, NextBump, BumpFits, Placed;
    if calls != [] {
      var q := calls[0];
      var next := NextBump(bump, q.size, q.align);
      BumpFitsIff(bump, q.size, q.align);
      IssuedAscending(next, end, calls[1..]);
      if Placed(bump, end, q.size, q.align, q.mapped) {
        PlacedFits(bump, end, q.size, q.align, q.mapped);
        AscendingPrepend(Region(Place(bump, q.align), q.size), Issue(next, end, calls[1..]), bump, next, end);
      }
    }
  }

  /** Whatever the sizes, alignments and failures, as long as the bump pointer does not wrap every region ever
      issued lies in the reserve and no two share an address. Unmapping is absent from the statement: an
      address is issued once. */
  lemma IssuedApart(start: nat, end: nat, calls: seq<Request>)
    requires start <= end <= USER_TOP && Aligned(calls) && NeverWraps(start, calls)
    ensures
      var rs := Issue(start, end, calls);
      && (forall i :: 0 <= i < |rs| ==> start <= rs[i].base && rs[i].base + rs[i].size <= end)
      && (forall i, j :: 0 <= i < j < |rs| ==> Disjoint(rs[i], rs[j]))
  {
    IssuedAscending(start, end, calls);
  }

  /** Each issued region answers one call and has that call's size and alignment. */
  lemma {:induction false} IssuedAnswersCall(bump: nat, end: nat, calls: seq<Request>, i: nat) returns (k: nat)
    requires Aligned(calls) && i < |Issue(bump, end, calls)|
    ensures i <= k < |calls| && calls[k].mapped
    ensures Issue(bump, end, calls)[i].size == calls[k].size
    ensures Issue(bump, end, calls)[i].base % calls[k].align == 0
    decreases |calls|
  {
    var q := calls[0];
    AlignDownFacts((bump + q.align - 1) % WORD64, q.align);
    var hit := Placed(bump, end, q.size, q.align, q.mapped);
    hide AlignDown, NextBump;
    if hit && i == 0 {
      k := 0;
    } else {
      k := IssuedAnswersCall(NextBump(bump, q.size, q.align), end, calls[1..], if hit then i - 1 else i);
      k := k + 1;
    }
  }

  // ---------------------------------------------------------------- exactly when consumed space stays consumed

  /** Calls that do not wrap, made once the bump pointer stands at `bump`, issue nothing below `floor`. */
  ghost predicate NothingBelow(bump: nat, end: nat, floor: nat) {
    forall calls, r :: Aligned(calls) && NeverWraps(bump, calls) && r in Issue(bump, end, calls) ==> r.base >= floor
  }

  function Lesser(a: nat, b: nat): nat { if a < b then a else b }

  /** One call leaves the space it found consumed alone for good exactly when its addition does not wrap, or wraps
      to where the reserve ends. */
  lemma ConsumedIff(bump: nat, end: nat, size: nat, align: nat)
    requires 1 < bump < WORD64 && 1 < end <= USER_TOP
    ensures
      var next := NextBump(bump, size, align);
      NothingBelow(next, end, Lesser(bump, end)) <==> BumpFits(bump, size, align) || next >= end
  {
    var next := NextBump(bump, size, align);
    BumpFitsIff(bump, size, align);
    hide NextBump, BumpFits;
    if next >= Lesser(bump, end) {
      forall calls, r | Aligned(calls) && NeverWraps(next, calls) && r in Issue(next, end, calls)
        ensures r.base >= Lesser(bump, end)
      {
        IssuedAscending(next, end, calls);
      }
    } else {
      var calls, r := IssuedBelow(next, end, Lesser(bump, end));
      assert !NothingBelow(next, end, Lesser(bump, end));
    }
  }

  lemma IssuedBelow(next: nat, end: nat, floor: nat) returns (calls: seq<Request>, r: Region)
    requires next < floor <= end <= USER_TOP && 1 < floor
    ensures Aligned(calls) && NeverWraps(next, calls) && r in Issue(next, end, calls) && r.base < floor
  {
    hide Issue, NeverWraps;
    var one := Request(1, 1, true);
    if next > 0 {
      OneByte(next, end);
      calls, r := [one], Region(next, 1);
    } else {
      OneByte(1, end);
      AfterNothing(end, [one]);
      calls, r := [Request(0, 1, true)] + [one], Region(1, 1);
    }
  }

  /** A request for nothing moves the bump pointer all the same. */
  lemma AfterNothing(end: nat, rest: seq<Request>)
    requires Aligned(rest)
    ensures
      var calls := [Request(0, 1, true)] + rest;
      Aligned(calls) && (NeverWraps(1, rest) ==> NeverWraps(0, calls)) && Issue(0, end, calls) == Issue(1, end, rest)
  {
    var calls := [Request(0, 1, true)] + rest;
    assert NextBump(0, 0, 1) == 1 && BumpFits(0, 0, 1);
    assert !Placed(0, end, 0, 1, true);
    hide NextBump, Placed, BumpFits;
    assert calls[1..] == rest;
  }

  lemma OneByte(next: nat, end: nat)
    requires 0 < next < end <= USER_TOP
    ensures
      var calls := [Request(1, 1, true)];
      Aligned(calls) && NeverWraps(next, calls) && Issue(next, end, calls) == [Region(next, 1)]
  {
    AlignDownUnique(next, next, 1);
    var calls := [Request(1, 1, true)];
    assert Place(next, 1) == next;
    assert Issue(NextBump(next, 1, 1), end, calls[1..]) == [];
  }
}
