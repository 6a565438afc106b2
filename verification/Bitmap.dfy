/** 64-bit words as sets of indices: the bit tricks of run_new, run_take and run_give. */
module Bitmap {

  const ALL_ONES: bv64 := 0xFFFF_FFFF_FFFF_FFFF

  /** The word `1ULL << k`; see BitIsShift. */
  function Bit(k: nat): bv64
    requires k < 64
  {
    if k == 0 then 1 else Bit(k - 1) << 1
  }

  // The word operations of the source, named so that proofs about indices can treat them as given.

  function Or(b: bv64, s: bv64): bv64 { b | s }
  function Meet(b: bv64, m: bv64): bv64 { b & m }
  /** `b & (b - 1)`. */
  function DropLowest(b: bv64): bv64 { b & (b - 1) }
  /** `m - 1`: for a single bit m, all the bits below it. */
  function BitsBelow(m: bv64): bv64 { m - 1 }

  /** The source's bit test, `b & (1ULL << k)`. */
  predicate On(b: bv64, k: nat)
    requires k < 64
  {
    Meet(b, Bit(k)) != 0
  }

  predicate Has(bits: seq<bv64>, i: nat)
    requires i < 64 * |bits|
  {
    On(bits[i / 64], i % 64)
  }

  /** The indices below `elems` whose bit is 1, that is, the free blocks. */
  ghost function Free(bits: seq<bv64>, elems: nat): set<nat>
    requires elems <= 64 * |bits|
  {
    set i: nat | i < elems && Has(bits, i)
  }

  predicate Is(i: nat) { true }

  /** The set {0, ..., n-1}. */
  ghost function Below(n: nat): set<nat> { set i: nat {:trigger Is(i)} | i < n && Is(i) }

  /** No bit at or above `elems` is set. */
  ghost predicate Tight(bits: seq<bv64>, elems: nat) {
    forall i: nat :: elems <= i < 64 * |bits| ==> !Has(bits, i)
  }

  // ---------------------------------------------------------------- one word

  /** Exactly one bit of `m` is set. */
  predicate Single(m: bv64) { m != 0 && m & (m - 1) == 0 }

  lemma ShiftSingle(k: nat)
    requires k < 64
    ensures Single(1 << k)
  {}

  lemma ShiftNext(k: nat)
    requires k < 63
    ensures (1 as bv64) << (k + 1) == ((1 as bv64) << k) << 1
  {
    var m := (1 as bv64) << k;
    assert m << 1 == m + m;
  }

  lemma {:induction false} BitIsShift(k: nat)
    requires k < 64
    ensures Bit(k) == 1 << k
  {
    if k > 0 {
      BitIsShift(k - 1);
      ShiftNext(k - 1);
    }
  }

  lemma BitSingle(k: nat)
    requires k < 64
    ensures Single(Bit(k))
  {
    BitIsShift(k);
    ShiftSingle(k);
  }

  lemma DoubleUp(m: bv64)
    requires m << 1 != 0 && Single(m)
    ensures m < m << 1
  {}

  lemma {:induction false} BitOrder(i: nat, j: nat)
    requires i < j < 64
    ensures Bit(i) < Bit(j)
  {
    BitSingle(j);
    BitSingle(j - 1);
    DoubleUp(Bit(j - 1));
    if i < j - 1 {
      BitOrder(i, j - 1);
    }
  }

  /** Order on words, named so that proofs about indices can treat it as given. */
  predicate Under(m: bv64, n: bv64) { m < n }

  lemma UnderStrict(m: bv64, n: bv64)
    requires m < n
    ensures Under(m, n) && m != n && !Under(n, m)
  {}

  lemma NotUnderItself(m: bv64)
    ensures !Under(m, m)
  {}

  lemma BitsApart(i: nat, j: nat)
    requires i < 64 && j < 64
    ensures Bit(i) == Bit(j) <==> i == j
    ensures Under(Bit(i), Bit(j)) <==> i < j
  {
    hide Bit, Under;
    if i < j {
      BitBelow(i, j);
    } else if j < i {
      BitBelow(j, i);
    } else {
      NotUnderItself(Bit(i));
    }
  }

  lemma BitBelow(i: nat, j: nat)
    requires i < j < 64
    ensures Under(Bit(i), Bit(j)) && Bit(i) != Bit(j) && !Under(Bit(j), Bit(i))
  {
    hide Bit, Under;
    BitOrder(i, j);
    UnderStrict(Bit(i), Bit(j));
  }

  lemma OrWord(b: bv64, s: bv64, m: bv64)
    requires Single(s) && Single(m)
    ensures Meet(Or(b, s), m) != 0 <==> s == m || Meet(b, m) != 0
  {
    OrRaw(b, s, m);
  }

  lemma OrRaw(b: bv64, s: bv64, m: bv64)
    requires s != 0 && s & (s - 1) == 0 && m != 0 && m & (m - 1) == 0
    ensures (b | s) & m != 0 <==> s == m || b & m != 0
  {}

  /** `b | (1ULL << j)` sets bit j and no other. */
  lemma OnOr(b: bv64, j: nat, k: nat)
    requires j < 64 && k < 64
    ensures On(Or(b, Bit(j)), k) <==> k == j || On(b, k)
  {
    hide Bit, Single, Meet, Or, Under;
    BitSingle(j);
    BitSingle(k);
    BitsApart(j, k);
    OrWord(b, Bit(j), Bit(k));
  }

  function Without(b: bv64, l: bv64): bv64 { b & !l }

  /** Steps of `b & (b - 1) == b & ~l` for the lowest set bit l: b is its other bits and l, one less turns
      l into the bits below it, and those meet b nowhere. */
  lemma Whole(b: bv64, l: bv64)
    requires Single(l) && Meet(b, l) != 0
    ensures l != 0 && b == Or(Without(b, l), l)
  {
    hide Single, Meet, Or, Without;
    MeetAll(b, l);
    SplitOff(b, l);
  }

  lemma MeetAll(b: bv64, l: bv64)
    requires Single(l) && Meet(b, l) != 0
    ensures l != 0 && Meet(b, l) == l
  {}

  lemma SplitOff(b: bv64, l: bv64)
    requires Meet(b, l) == l
    ensures b == Or(Without(b, l), l)
  {}

  lemma OthersApart(b: bv64, l: bv64)
    requires Meet(b, BitsBelow(l)) == 0
    ensures Meet(Without(b, l), l) == 0 && Meet(Without(b, l), BitsBelow(l)) == 0
  {}

  lemma OneLess(a: bv64, l: bv64)
    requires l != 0 && Meet(a, l) == 0 && Meet(a, BitsBelow(l)) == 0
    ensures BitsBelow(Or(a, l)) == Or(a, BitsBelow(l))
  {}

  lemma Overlap(a: bv64, l: bv64)
    requires Single(l) && Meet(a, l) == 0 && Meet(a, BitsBelow(l)) == 0
    ensures Meet(Or(a, l), Or(a, BitsBelow(l))) == a
  {}

  lemma DropIsMeet(b: bv64)
    ensures DropLowest(b) == Meet(b, BitsBelow(b))
  {}

  lemma DropIsWithout(b: bv64, l: bv64)
    requires Single(l) && Meet(b, l) != 0 && Meet(b, BitsBelow(l)) == 0
    ensures DropLowest(b) == Without(b, l)
  {
    hide *;
    var a := Without(b, l);
    Whole(b, l);
    OthersApart(b, l);
    OneLess(a, l);
    Overlap(a, l);
    DropIsMeet(b);
  }

  lemma WithoutWord(b: bv64, l: bv64, m: bv64)
    requires Single(l) && Single(m)
    ensures Meet(Without(b, l), m) != 0 <==> m != l && Meet(b, m) != 0
  {
    WithoutRaw(b, l, m);
  }

  lemma WithoutRaw(b: bv64, l: bv64, m: bv64)
    requires l != 0 && l & (l - 1) == 0 && m != 0 && m & (m - 1) == 0
    ensures (b & !l) & m != 0 <==> m != l && b & m != 0
  {}

  /** With bit j the lowest one of `b`, `b & (b - 1)` clears bit j and no other. */
  lemma OnDrop(b: bv64, j: nat, k: nat)
    requires j < 64 && k < 64 && On(b, j) && Meet(b, BitsBelow(Bit(j))) == 0
    ensures On(DropLowest(b), k) <==> k != j && On(b, k)
  {
    hide Bit, Single, Meet, DropLowest, BitsBelow, Without, Under;
    BitSingle(j);
    BitSingle(k);
    BitsApart(j, k);
    DropIsWithout(b, Bit(j));
    WithoutWord(b, Bit(j), Bit(k));
  }

  lemma BelowWord(b: bv64, l: bv64, m: bv64)
    requires Single(l) && Single(m)
    ensures Meet(Meet(b, BitsBelow(l)), m) != 0 <==> Under(m, l) && Meet(b, m) != 0
  {
    hide *;
    BelowBit(l, m);
    MeetTwice(b, BitsBelow(l), m);
    MeetNothing(b);
  }

  lemma BelowBit(l: bv64, m: bv64)
    requires Single(l) && Single(m)
    ensures Meet(BitsBelow(l), m) == if Under(m, l) then m else 0
  {}

  lemma MeetTwice(b: bv64, x: bv64, m: bv64)
    ensures Meet(Meet(b, x), m) == Meet(b, Meet(x, m))
  {}

  lemma MeetNothing(b: bv64)
    ensures Meet(b, 0) == 0
  {}

  /** `b & ((1ULL << j) - 1)` keeps exactly the bits below j. */
  lemma OnBelow(b: bv64, j: nat, k: nat)
    requires j < 64 && k < 64
    ensures On(Meet(b, BitsBelow(Bit(j))), k) <==> k < j && On(b, k)
  {
    hide Bit, Single, Meet, BitsBelow, Under;
    BitSingle(j);
    BitSingle(k);
    BitsApart(k, j);
    BelowWord(b, Bit(j), Bit(k));
  }

  lemma OnesWord(m: bv64)
    ensures Meet(ALL_ONES, m) == m && Meet(0, m) == 0 && (Single(m) ==> m != 0)
  {}

  lemma OnOnes(k: nat)
    requires k < 64
    ensures On(ALL_ONES, k) && !On(0, k)
  {
    hide Bit, Single, Meet;
    BitSingle(k);
    OnesWord(Bit(k));
  }

  /** __builtin_ctzll, on a nonzero word. */
  function Ctz(b: bv64): (k: nat)
    requires b != 0
    ensures k < 64 && On(b, k) && Meet(b, BitsBelow(Bit(k))) == 0
    ensures forall j :: 0 <= j < k ==> !On(b, j)
  {
    NothingBelowBit0(b);
    CtzFrom(b, 0)
  }

  lemma NothingBelowBit0(b: bv64)
    ensures Meet(b, BitsBelow(Bit(0))) == 0
  {}

  function CtzFrom(b: bv64, i: nat): (k: nat)
    requires b != 0 && i < 64 && Meet(b, BitsBelow(Bit(i))) == 0
    requires forall j :: 0 <= j < i ==> !On(b, j)
    ensures k < 64 && On(b, k) && Meet(b, BitsBelow(Bit(k))) == 0
    ensures forall j :: 0 <= j < k ==> !On(b, j)
    decreases 64 - i
  {
    hide Bit, Meet, BitsBelow;
    if On(b, i) then i
    else
      NextWord(b, i);
      CtzFrom(b, i + 1)
  }

  lemma NextMask(b: bv64, l: bv64)
    requires Single(l) && Meet(b, l) == 0 && Meet(b, BitsBelow(l)) == 0 && b != 0
    ensures Meet(b, BitsBelow(l << 1)) == 0 && l != 0x8000_0000_0000_0000
  {}

  lemma NextWord(b: bv64, i: nat)
    requires b != 0 && i < 64 && Meet(b, BitsBelow(Bit(i))) == 0 && !On(b, i)
    ensures i + 1 < 64 && Meet(b, BitsBelow(Bit(i + 1))) == 0
  {
    hide Single, Meet, BitsBelow;
    BitSingle(i);
    NextMask(b, Bit(i));
    TopBit();
  }

  lemma TopBit()
    ensures Bit(63) == 0x8000_0000_0000_0000
  {
    BitIsShift(63);
  }

  // ---------------------------------------------------------------- the whole bitmap

  /** run_take: the lowest set bit of the first nonzero word is the least free index, and clearing
      it removes that index alone. */
  lemma TakeLowest(bits: seq<bv64>, elems: nat, w: nat)
    requires elems <= 64 * |bits| && Tight(bits, elems)
    requires w < |bits| && bits[w] != 0 && forall v :: 0 <= v < w ==> bits[v] == 0
    ensures
      var idx := 64 * w + Ctz(bits[w]);
      var after := bits[w := DropLowest(bits[w])];
      && idx in Free(bits, elems)
      && (forall i :: i in Free(bits, elems) ==> idx <= i)
      && Free(after, elems) == Free(bits, elems) - {idx}
      && Tight(after, elems)
  {
    hide On, Bit, Meet, DropLowest, BitsBelow;
    var idx := 64 * w + Ctz(bits[w]);
    var after := bits[w := DropLowest(bits[w])];
    assert Has(bits, idx);
    forall i: nat | i < 64 * |bits|
      ensures Has(after, i) <==> (i != idx && Has(bits, i))
      ensures Has(bits, i) ==> idx <= i
    {
      TakeLowestAt(bits, w, i);
    }
  }

  lemma TakeLowestAt(bits: seq<bv64>, w: nat, i: nat)
    requires w < |bits| && bits[w] != 0 && forall v :: 0 <= v < w ==> bits[v] == 0
    requires i < 64 * |bits|
    ensures Has(bits[w := DropLowest(bits[w])], i) <==> (i != 64 * w + Ctz(bits[w]) && Has(bits, i))
    ensures Has(bits, i) ==> 64 * w + Ctz(bits[w]) <= i
  {
    hide On, Bit, Meet, DropLowest, BitsBelow, Ctz;
    if i / 64 == w {
      OnDrop(bits[w], Ctz(bits[w]), i % 64);
    } else if i / 64 < w {
      OnOnes(i % 64);
    }
  }

  /** run_give: or-ing in one bit adds that index alone. */
  lemma GiveBit(bits: seq<bv64>, elems: nat, idx: nat)
    requires idx < elems <= 64 * |bits| && Tight(bits, elems)
    ensures
      var after := bits[idx / 64 := Or(bits[idx / 64], Bit(idx % 64))];
      Free(after, elems) == Free(bits, elems) + {idx} && Tight(after, elems)
  {
    hide On, Bit, Or;
    var after := bits[idx / 64 := Or(bits[idx / 64], Bit(idx % 64))];
    forall i: nat | i < 64 * |bits|
      ensures Has(after, i) <==> (i == idx || Has(bits, i))
    {
      if i / 64 == idx / 64 {
        OnOr(bits[idx / 64], idx % 64, i % 64);
      }
    }
  }

  /** run_new: all-ones words with the tail masked off are the full set below `elems`. */
  lemma FreshFill(bits: seq<bv64>, elems: nat)
    requires |bits| == (elems + 63) / 64
    requires forall w :: 0 <= w < |bits| && w != elems / 64 ==> bits[w] == ALL_ONES
    requires elems % 64 != 0 ==> bits[elems / 64] == Meet(ALL_ONES, BitsBelow(Bit(elems % 64)))
    ensures Free(bits, elems) == Below(elems) && Tight(bits, elems)
  {
    hide On, Bit, Meet, BitsBelow;
    forall i: nat | i < 64 * |bits|
      ensures Has(bits, i) <==> i < elems
    {
      OnOnes(i % 64);
      if i / 64 == elems / 64 {
        OnBelow(ALL_ONES, elems % 64, i % 64);
      }
    }
    assert forall i :: i in Below(elems) <==> i in Free(bits, elems);
  }
}
