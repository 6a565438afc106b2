/** Which pages the purge gives back, and exactly when that can destroy a live block. */
module PurgeSafety {
  import opened Arith
  import opened SizeClasses
  import opened Bitmap
  import opened RunSpec

  /** Block `b` has a byte in data page `p`. */
  predicate Overlaps(elem: nat, b: nat, p: nat) {
    b * elem < (p + 1) * PAGE && p * PAGE < (b + 1) * elem
  }

  /** The block that straddles the end of page `p`, when the block size does not divide that offset. */
  predicate Straddles(elem: nat, b: nat, p: nat)
    requires elem > 0
  {
    (p + 1) * PAGE % elem != 0 && b == FirstChecked(elem, p + 1)
  }

  /** The loop checks every overlapping block except the one straddling the page end. */
  lemma CheckedOrStraddling(elem: nat, b: nat, p: nat)
    requires 0 < elem
    ensures Overlaps(elem, b, p) <==>
            FirstChecked(elem, p) <= b < FirstChecked(elem, p + 1) || Straddles(elem, b, p)
    ensures FirstChecked(elem, p) <= FirstChecked(elem, p + 1)
  {
    StartsBefore(elem, b, (p + 1) * PAGE);
    EndsAfter(elem, b, p * PAGE);
    QuotientMono(p * PAGE, (p + 1) * PAGE, elem);
  }

  /** Block b starts before byte x exactly when b is below x / elem, or equal to it with a remainder. */
  lemma StartsBefore(elem: nat, b: nat, x: nat)
    requires 0 < elem
    ensures b * elem < x <==> b < x / elem || (b == x / elem && x % elem != 0)
  {
    var q := x / elem;
    assert x == q * elem + x % elem;
    if b < q {
      MulMono(b + 1, q, elem);
    } else if b > q {
      MulMono(q + 1, b, elem);
    }
  }

  lemma EndsAfter(elem: nat, b: nat, x: nat)
    requires 0 < elem
    ensures x < (b + 1) * elem <==> x / elem <= b
  {
    var q := x / elem;
    DivFacts(x, elem);
    if q <= b {
      MulMono(q + 1, b + 1, elem);
    } else {
      MulMono(b + 1, q, elem);
    }
  }

  lemma QuotientMono(x: nat, y: nat, m: nat)
    requires 0 < m && x <= y
    ensures x / m <= y / m
  {
    DivFacts(x, m);
    DivFacts(y, m);
    if y / m < x / m {
      MulMono(y / m + 1, x / m, m);
    }
  }

  lemma DividesMultiple(elem: nat, p: nat)
    requires 0 < elem && PAGE % elem == 0
    ensures p * PAGE % elem == 0
  {
    var k := PAGE / elem;
    assert PAGE == elem * k;
    assert p * PAGE == elem * (p * k);
    ModUnique(p * PAGE, elem, p * k, 0);
  }

  /** For a size that divides the page, exactly the pages with only free overlapping blocks go. */
  lemma DiscardsExactly(r: RunState, p: nat)
    requires ValidElem(r.elem) && PAGE % r.elem == 0
    ensures Discards(r.elem, r.free, p) <==>
            (p + 1) * PAGE <= Elems(r.elem) * r.elem && forall b :: Overlaps(r.elem, b, p) ==> b in r.free
  {
    DividesMultiple(r.elem, p + 1);
    DividingIsSmall(r.elem);
    forall b: nat
      ensures Overlaps(r.elem, b, p) <==> FirstChecked(r.elem, p) <= b < FirstChecked(r.elem, p + 1)
    {
      CheckedOrStraddling(r.elem, b, p);
    }
  }

  lemma DividingIsSmall(elem: nat)
    requires 0 < elem && PAGE % elem == 0
    ensures elem <= PAGE
  {}

  /** A discarded page overlaps a block that is not free exactly when that block straddles its end. */
  lemma HarmsOnlyStraddler(r: RunState, p: nat, b: nat)
    requires ValidElem(r.elem) && Discards(r.elem, r.free, p) && b !in r.free
    ensures Overlaps(r.elem, b, p) <==> Straddles(r.elem, b, p)
  {
    CheckedOrStraddling(r.elem, b, p);
  }

  /** No live block of this run loses a byte to the purge. */
  ghost predicate PurgeSafe(r: RunState)
    requires ValidElem(r.elem)
  {
    forall p: nat, b: nat :: Discards(r.elem, r.free, p) && b < Elems(r.elem) && Overlaps(r.elem, b, p) ==> b in r.free
  }

  /** Per run: the purge is safe unless some discarded page ends inside a live block. */
  lemma PurgeSafeIff(r: RunState)
    requires ValidElem(r.elem)
    ensures PurgeSafe(r) <==>
            forall p: nat, b: nat ::
              Discards(r.elem, r.free, p) && b < Elems(r.elem) && Straddles(r.elem, b, p) ==> b in r.free
  {
    forall p: nat, b: nat | Discards(r.elem, r.free, p) && b !in r.free
      ensures Overlaps(r.elem, b, p) <==> Straddles(r.elem, b, p)
    {
      HarmsOnlyStraddler(r, p, b);
    }
  }

  /** Whatever pattern of free blocks a run of this size has, the purge is safe. */
  ghost predicate SizeIsPurgeSafe(elem: nat)
    requires ValidElem(elem)
  {
    forall r: RunState :: ValidRun(r) && r.elem == elem ==> PurgeSafe(r)
  }

  predicate DividesOrFillsPage(elem: nat)
    requires elem > 0
  {
    elem >= PAGE || PAGE % elem == 0
  }

  /** As far as one run's bitmap goes, live data is never overwritten for a block size exactly when the size
      divides the page or is at least a page. (For states the system reaches: Failures.ClassSparedIff.) */
  lemma SizeIsPurgeSafeIff(elem: nat)
    requires ValidElem(elem)
    ensures SizeIsPurgeSafe(elem) <==> DividesOrFillsPage(elem)
  {
    if DividesOrFillsPage(elem) {
      forall r: RunState | ValidRun(r) && r.elem == elem ensures PurgeSafe(r) {
        DividingSizesSafe(r);
      }
    } else {
      var r := HarmfulRun(elem);
      assert !PurgeSafe(r);
    }
  }

  lemma DividingSizesSafe(r: RunState)
    requires ValidElem(r.elem) && DividesOrFillsPage(r.elem)
    ensures PurgeSafe(r)
  {
    forall p: nat, b: nat | Discards(r.elem, r.free, p) && b < Elems(r.elem) && Overlaps(r.elem, b, p)
      ensures b in r.free
    {
      if r.elem == PAGE {
        assert PAGE % r.elem == 0;
      }
      DiscardsExactly(r, p);
    }
  }

  /** Otherwise: free every block wholly inside page 0 and keep the next one live. The page is
      discarded, and with it the first bytes of that live block. */
  lemma HarmfulRun(elem: nat) returns (r: RunState)
    requires ValidElem(elem) && !DividesOrFillsPage(elem)
    ensures ValidRun(r) && r.elem == elem
    ensures
      var b := PAGE / elem;
      b < Elems(elem) && b !in r.free && Discards(r.elem, r.free, 0) && Overlaps(elem, b, 0)
    ensures !PurgeSafe(r)
  {
    var b := PAGE / elem;
    ManyBlocks(elem);
    BelowSize(b);
    BelowSize(Elems(elem));
    assert forall i :: i in Below(b) ==> Is(i);
    r := RunState(0, elem, Below(b), Elems(elem) - b, 0, 0);
    CheckedOrStraddling(elem, b, 0);
    assert b !in r.free;
    assert FirstChecked(elem, 0) == 0 && FirstChecked(elem, 1) == b;
    forall i | 0 <= i < b ensures i in r.free { assert Is(i); }
    assert Discards(r.elem, r.free, 0);
  }

  lemma ManyBlocks(elem: nat)
    requires ValidElem(elem) && elem < PAGE
    ensures PAGE / elem < Elems(elem) && PAGE <= Elems(elem) * elem
  {
    DivFacts(PAGE, elem);
    DivFacts(RUN_SIZE, elem);
    DivUnder(PAGE, elem, 513);
    assert PAGE / elem <= 512;
    if RUN_SIZE / elem <= 512 {
      MulMono(RUN_SIZE / elem + 1, 513, elem);
    }
    MulMono(PAGE / elem + 1, Elems(elem), elem);
  }

  lemma DivUnder(a: nat, m: nat, q: nat)
    requires m >= 8 && a <= 8 * (q - 1)
    ensures a / m < q
  {
    DivFacts(a, m);
    if a / m >= q {
      MulMono(q, a / m, m);
      MulMono(8, m, q);
    }
  }

  /** Larger blocks are never purged by page, although the source's comment lists multiples of the
      page among the sizes it covers. */
  lemma LargeBlocksKeepPages(r: RunState, p: nat)
    requires ValidElem(r.elem) && r.elem > PAGE
    ensures !Discards(r.elem, r.free, p)
  {}

  /** Below the page size at most one overlapping block goes unchecked, and one does exactly when the
      size does not divide the page's end offset. */
  lemma AtMostOneUnchecked(elem: nat, p: nat)
    requires 0 < elem <= PAGE
    ensures forall b, c ::
              Unchecked(elem, b, p) && Unchecked(elem, c, p) ==> b == c
    ensures (exists b :: Unchecked(elem, b, p)) <==> (p + 1) * PAGE % elem != 0
  {
    forall b: nat ensures Unchecked(elem, b, p) <==> Straddles(elem, b, p) {
      CheckedOrStraddling(elem, b, p);
    }
    var s := FirstChecked(elem, p + 1);
    assert (p + 1) * PAGE % elem != 0 ==> Unchecked(elem, s, p);
  }

  predicate Unchecked(elem: nat, b: nat, p: nat)
    requires 0 < elem
  {
    Overlaps(elem, b, p) && !(FirstChecked(elem, p) <= b < FirstChecked(elem, p + 1))
  }

  /** Concretely, class 24: block 170 covers bytes 4080..4103 and is not looked at. */
  lemma Class24Unsafe()
    ensures !SizeIsPurgeSafe(24)
    ensures Overlaps(24, 170, 0) && Straddles(24, 170, 0)
  {
    SizeIsPurgeSafeIff(24);
  }
}
