/** The size-class table, the binary search over it, and the geometry of one run of a class. */
module SizeClasses {
  import opened Arith

  const NUM_CLASSES: nat := 68
  const LARGE_MIN: nat := 2097153
  const RUN_SIZE: nat := 2097152
  const MAX_ELEMS: nat := 65536
  const RUN_HEADER: nat := 56   // sizeof(Run) without the trailing bitmap
  const LARGE_HEADER: nat := 24 // sizeof(LargeHdr)

  /** The table as the source lists it, counting from 0. */
  function ListedSize(i: nat): nat
    requires i < NUM_CLASSES
  {
    match i
    case 0 => 8 case 1 => 16 case 2 => 24 case 3 => 32
    case 4 => 40 case 5 => 48 case 6 => 56 case 7 => 64
    case 8 => 80 case 9 => 96 case 10 => 112 case 11 => 128
    case 12 => 160 case 13 => 192 case 14 => 224 case 15 => 256
    case 16 => 320 case 17 => 384 case 18 => 448 case 19 => 512
    case 20 => 640 case 21 => 768 case 22 => 896 case 23 => 1024
    case 24 => 1280 case 25 => 1536 case 26 => 1792 case 27 => 2048
    case 28 => 2560 case 29 => 3072 case 30 => 3584 case 31 => 4096
    case 32 => 5120 case 33 => 6144 case 34 => 7168 case 35 => 8192
    case 36 => 10240 case 37 => 12288 case 38 => 14336 case 39 => 16384
    case 40 => 20480 case 41 => 24576 case 42 => 28672 case 43 => 32768
    case 44 => 40960 case 45 => 49152 case 46 => 57344 case 47 => 65536
    case 48 => 81920 case 49 => 98304 case 50 => 114688 case 51 => 131072
    case 52 => 163840 case 53 => 196608 case 54 => 229376 case 55 => 262144
    case 56 => 327680 case 57 => 393216 case 58 => 458752 case 59 => 524288
    case 60 => 655360 case 61 => 786432 case 62 => 917504 case 63 => 1048576
    case 64 => 1310720 case 65 => 1572864 case 66 => 1835008 case 67 => 2097152
  }

  /** The same table in closed form: multiples of 8 up to 64, then four sizes for each doubling. */
  function TableEntry(i: nat): nat
    requires i < NUM_CLASSES
  {
    if i < 8 then 8 * (i + 1) else (5 + (i - 8) % 4) * Pow2((i - 8) / 4 + 4)
  }

  lemma TableAsListed(i: nat)
    requires i < NUM_CLASSES
    ensures TableEntry(i) == ListedSize(i)
  {
    if i >= 8 {
      TableGroup((i - 8) / 4, (i - 8) % 4);
    }
  }

  lemma PowValues()
    ensures Pow2(4) == 16 && Pow2(5) == 32 && Pow2(6) == 64 && Pow2(7) == 128 && Pow2(8) == 256
    ensures Pow2(9) == 512 && Pow2(10) == 1024 && Pow2(11) == 2048 && Pow2(12) == 4096
    ensures Pow2(13) == 8192 && Pow2(14) == 16384 && Pow2(15) == 32768 && Pow2(16) == 65536
    ensures Pow2(17) == 131072 && Pow2(18) == 262144
  {
    assert Pow2(8) == 256;
    assert Pow2(12) == 4096;
  }

  lemma TableGroup(g: nat, j: nat)
    requires g < 15 && j < 4
    ensures ListedSize(8 + 4 * g + j) == (5 + j) * Pow2(g + 4)
  {
    PowValues();
    match g
    case 0 => assert Pow2(4) == 16;
    case 1 => assert Pow2(5) == 32;
    case 2 => assert Pow2(6) == 64;
    case 3 => assert Pow2(7) == 128;
    case 4 => assert Pow2(8) == 256;
    case 5 => assert Pow2(9) == 512;
    case 6 => assert Pow2(10) == 1024;
    case 7 => assert Pow2(11) == 2048;
    case 8 => assert Pow2(12) == 4096;
    case 9 => assert Pow2(13) == 8192;
    case 10 => assert Pow2(14) == 16384;
    case 11 => assert Pow2(15) == 32768;
    case 12 => assert Pow2(16) == 65536;
    case 13 => assert Pow2(17) == 131072;
    case _ => assert Pow2(18) == 262144;
  }

  /** A class number is 1-based; its block size is in the table. */
  predicate ValidClass(cls: nat) { 1 <= cls <= NUM_CLASSES }

  function Size(cls: nat): nat
    requires ValidClass(cls)
  {
    TableEntry(cls - 1)
  }

  lemma TableSteps(i: nat)
    requires i + 1 < NUM_CLASSES
    ensures TableEntry(i) < TableEntry(i + 1)
  {
    if i >= 8 {
      var g, j := (i - 8) / 4, (i - 8) % 4;
      if j < 3 {
        assert (i + 1 - 8) / 4 == g && (i + 1 - 8) % 4 == j + 1;
      } else {
        assert (i + 1 - 8) / 4 == g + 1 && (i + 1 - 8) % 4 == 0;
      }
    }
  }

  lemma {:induction false} TableSorted(i: nat, j: nat)
    requires i <= j < NUM_CLASSES
    ensures TableEntry(i) <= TableEntry(j)
    ensures i < j ==> TableEntry(i) < TableEntry(j)
    decreases j - i
  {
    if i < j {
      TableSteps(i);
      TableSorted(i + 1, j);
    }
  }

  lemma SizeBounds(cls: nat)
    requires ValidClass(cls)
    ensures 8 <= Size(cls) <= RUN_SIZE
  {
    LastEntry();
    TableSorted(0, cls - 1);
    TableSorted(cls - 1, NUM_CLASSES - 1);
  }


  /** `cls` is the smallest class whose blocks hold `n` bytes. */
  ghost predicate IsLeastClass(n: nat, cls: nat) {
    && ValidClass(cls)
    && n <= Size(cls)
    && forall c :: 1 <= c < cls ==> Size(c) < n
  }

  lemma LeastClassUnique(n: nat, a: nat, b: nat)
    requires IsLeastClass(n, a) && IsLeastClass(n, b)
    ensures a == b
  {}

  /** The binary search of class_of. Sizes above the table get class 69, which no caller asks for. */
  method ClassOf(n: nat) returns (cls: nat)
    ensures n < LARGE_MIN ==> IsLeastClass(n, cls) && cls == ClassFor(n)
    ensures n >= LARGE_MIN ==> cls == NUM_CLASSES + 1
  {
    var lo: nat, hi: nat := 0, NUM_CLASSES;
    TableSorted(0, NUM_CLASSES - 1);
    while lo < hi
      invariant lo <= hi <= NUM_CLASSES
      invariant forall i :: 0 <= i < lo ==> TableEntry(i) < n
      invariant forall i :: hi <= i < NUM_CLASSES ==> n <= TableEntry(i)
    {
      var mid := (lo + hi) / 2;
      if TableEntry(mid) < n {
        forall i | 0 <= i <= mid ensures TableEntry(i) < n { TableSorted(i, mid); }
        lo := mid + 1;
      } else {
        forall i | mid <= i < NUM_CLASSES ensures n <= TableEntry(i) { TableSorted(mid, i); }
        hi := mid;
      }
    }
    LastEntry();
    assert n < LARGE_MIN ==> lo < NUM_CLASSES;
    cls := lo + 1;
    if n < LARGE_MIN { LeastClassUnique(n, cls, ClassFor(n)); }
  }

  lemma LastEntry()
    ensures TableEntry(NUM_CLASSES - 1) == RUN_SIZE
  {
    PowValues();
  }

  /** The class malloc uses for a request below the large threshold. */
  ghost function ClassFor(n: nat): (cls: nat)
    requires n < LARGE_MIN
    ensures IsLeastClass(n, cls)
  {
    LeastClassExists(n);
    var c :| IsLeastClass(n, c);
    c
  }

  lemma {:induction false} LeastClassFrom(n: nat, i: nat) returns (cls: nat)
    requires n < LARGE_MIN && i < NUM_CLASSES
    requires i > 0 ==> TableEntry(i - 1) < n
    ensures ValidClass(cls) && n <= TableEntry(cls - 1) && (cls > 1 ==> TableEntry(cls - 2) < n)
    decreases NUM_CLASSES - i
  {
    if i + 1 == NUM_CLASSES {
      LastEntry();
      cls := i + 1;
    } else if n <= TableEntry(i) {
      cls := i + 1;
    } else {
      cls := LeastClassFrom(n, i + 1);
    }
  }

  lemma LeastClassExists(n: nat)
    requires n < LARGE_MIN
    ensures exists c :: IsLeastClass(n, c)
  {
    var cls := LeastClassFrom(n, 0);
    forall c | 1 <= c < cls ensures Size(c) < n { TableSorted(c - 1, cls - 2); }
    assert IsLeastClass(n, cls);
  }

  // ---------------------------------------------------------------- geometry of a run

  /** Block sizes for which the run geometry makes sense; SizeBounds puts every class in it. */
  predicate ValidElem(elem: nat) { 8 <= elem <= RUN_SIZE }

  function Elems(elem: nat): nat
    requires ValidElem(elem)
  {
    if RUN_SIZE / elem > MAX_ELEMS then MAX_ELEMS else RUN_SIZE / elem
  }

  function Words(elems: nat): nat { (elems + 63) / 64 }

  /** Bytes from the run base to its first block. */
  function DataOffset(elems: nat): nat { AlignUp(RUN_HEADER + Words(elems) * 8, PAGE) }

  function RunBytes(elem: nat): nat
    requires ValidElem(elem)
  {
    DataOffset(Elems(elem)) + Elems(elem) * elem
  }

  /** What run_new maps and what purge_run unmaps. */
  function MapBytes(elem: nat): nat
    requires ValidElem(elem)
  {
    AlignUp(RunBytes(elem), PAGE)
  }

  /** Byte offset of block `idx` from the base of its run. */
  function BlockOffset(elem: nat, idx: nat): nat
    requires ValidElem(elem)
  {
    DataOffset(Elems(elem)) + idx * elem
  }

  lemma DataBytesBound(elem: nat)
    requires ValidElem(elem)
    ensures 1 <= Elems(elem) <= MAX_ELEMS
    ensures Elems(elem) * elem <= RUN_SIZE
  {
    DivFacts(RUN_SIZE, elem);
    MulMono(Elems(elem), RUN_SIZE / elem, elem);
  }

  lemma DataOffsetBounds(elems: nat)
    requires 1 <= elems <= MAX_ELEMS
    ensures PAGE <= DataOffset(elems) <= 3 * PAGE && DataOffset(elems) % PAGE == 0
    ensures RUN_HEADER + Words(elems) * 8 <= DataOffset(elems)
  {
    AlignUpFacts(RUN_HEADER + Words(elems) * 8, PAGE);
  }

  lemma MapBytesBounds(elem: nat)
    requires ValidElem(elem)
    ensures RunBytes(elem) <= MapBytes(elem) < RunBytes(elem) + PAGE
    ensures PAGE < MapBytes(elem) < 2 * RUN_SIZE && MapBytes(elem) % PAGE == 0
  {
    DataBytesBound(elem);
    DataOffsetBounds(Elems(elem));
    assert Elems(elem) * elem >= elem by { MulMono(1, Elems(elem), elem); }
    AlignUpFacts(RunBytes(elem), PAGE);
  }

  /** Blocks of one run do not overlap. */
  lemma BlocksApart(elem: nat, i: nat, j: nat)
    requires ValidElem(elem) && i < j
    ensures BlockOffset(elem, i) + elem <= BlockOffset(elem, j)
  {
    MulMono(i + 1, j, elem);
  }

  /** A block lies wholly between the run's header and the end of its mapping. */
  lemma BlockInRun(elem: nat, idx: nat)
    requires ValidElem(elem) && idx < Elems(elem)
    ensures RUN_HEADER < PAGE <= BlockOffset(elem, idx)
    ensures BlockOffset(elem, idx) + elem <= RunBytes(elem) <= MapBytes(elem)
  {
    assert PAGE <= BlockOffset(elem, 0) <= BlockOffset(elem, idx) by {
      DataBytesBound(elem);
      DataOffsetBounds(Elems(elem));
      MulMono(0, idx, elem);
    }
    BlocksApart(elem, idx, Elems(elem));
    MapBytesBounds(elem);
  }
}
