/** The pagemap sampler: chunked reads of the soft-dirty bits, whatever sizes the kernel returns. */
module Sampler {
  import opened Arith
  import opened EngineSpec
  import EngineProofs

  datatype Vma = Vma(start: nat, end: nat, readable: bool, privAnon: bool)

  /** Bit 55 of a pagemap entry. */
  predicate SoftDirty(e: bv64) { e & 0x0080_0000_0000_0000 != 0 }

  lemma SoftDirtyBit(e: bv64)
    ensures SoftDirty(e) <==> (e >> 55) & 1 == 1
  {}

  predicate Counts(v: Vma) { v.privAnon && v.readable }

  /** The pages of an area; the difference is an unsigned word. */
  function Pages(v: Vma): nat { if Counts(v) then Quotient(Sub64(v.end, v.start), PAGE) else 0 }

  function FirstPage(v: Vma): nat { Quotient(v.start, PAGE) }

  // ---------------------------------------------------------------- the one-pass count

  /** Soft-dirty entries among n pages from `first` on. */
  function Dirty(entry: nat -> bv64, first: nat, n: nat): nat {
    if n == 0 then 0 else Dirty(entry, first, n - 1) + (if SoftDirty(entry(first + n - 1)) then 1 else 0)
  }

  lemma DirtyNone(entry: nat -> bv64, first: nat)
    ensures Dirty(entry, first, 0) == 0
  {}

  lemma {:induction false} DirtySplit(entry: nat -> bv64, first: nat, a: nat, b: nat)
    ensures Dirty(entry, first, a + b) == Dirty(entry, first, a) + Dirty(entry, first + a, b)
  {
    if b > 0 { DirtySplit(entry, first, a, b - 1); }
  }

  lemma {:induction false} DirtyBound(entry: nat -> bv64, first: nat, n: nat)
    ensures Dirty(entry, first, n) <= n
  {
    if n > 0 { DirtyBound(entry, first, n - 1); }
  }

  lemma DirtyPrefix(entry: nat -> bv64, first: nat, a: nat, n: nat)
    requires a <= n
    ensures Dirty(entry, first, a) <= Dirty(entry, first, n)
  {
    DirtySplit(entry, first, a, n - a);
  }

  /** Both totals over the first n areas: pages, and soft-dirty pages in one pass. */
  function TotalPages(vmas: seq<Vma>, n: nat): nat
    requires n <= |vmas|
  {
    if n == 0 then 0 else TotalPages(vmas, n - 1) + Pages(vmas[n - 1])
  }

  function TotalDirty(vmas: seq<Vma>, entry: nat -> bv64, n: nat): nat
    requires n <= |vmas|
  {
    if n == 0 then 0 else TotalDirty(vmas, entry, n - 1) + Dirty(entry, FirstPage(vmas[n - 1]), Pages(vmas[n - 1]))
  }

  lemma {:induction false} DirtyWithinTotal(vmas: seq<Vma>, entry: nat -> bv64, n: nat)
    requires n <= |vmas|
    ensures TotalDirty(vmas, entry, n) <= TotalPages(vmas, n)
  {
    if n > 0 {
      DirtyWithinTotal(vmas, entry, n - 1);
      DirtyBound(entry, FirstPage(vmas[n - 1]), Pages(vmas[n - 1]));
    }
  }

  // ---------------------------------------------------------------- what the kernel delivers

  /** How many entries a pread answers with, by area and by the page of the area it starts from; 0 stands for an
      error or the end. No position is asked for twice. */
  type Preads = (nat, nat) -> nat

  /** What it delivers: at most what was asked for, 4096 entries or what is left of the area. */
  function Got(pread: Preads, area: nat, pages: nat, done: nat): nat
    requires done <= pages
  {
    var want := if pages - done < 4096 then pages - done else 4096;
    if pread(area, done) < want then pread(area, done) else want
  }

  /** The pages of the area read when the loop stands at `done` and runs to its end. */
  function Delivered(pread: Preads, area: nat, pages: nat, done: nat): (n: nat)
    requires done <= pages
    ensures done <= n <= pages
    decreases pages - done
  {
    var got := Got(pread, area, pages, done);
    if got == 0 then done else Delivered(pread, area, pages, done + got)
  }

  /** The positions of consecutive reads from the start of the area, each of which delivers something. */
  ghost predicate Positions(pread: Preads, area: nat, pages: nat, ps: seq<nat>) {
    && |ps| > 0 && ps[0] == 0 && (forall k :: 0 <= k < |ps| ==> ps[k] <= pages)
    && (forall k :: 0 <= k < |ps| - 1 ==>
          Got(pread, area, pages, ps[k]) > 0 && ps[k + 1] == ps[k] + Got(pread, area, pages, ps[k]))
  }

  /** The loop ends at the end of the area, or at the first read that delivers nothing. */
  ghost predicate EndsAt(pread: Preads, area: nat, pages: nat, n: nat) {
    && n <= pages && (n == pages || pread(area, n) == 0)
    && exists ps :: Positions(pread, area, pages, ps) && ps[|ps| - 1] == n
  }

  lemma {:induction false} DeliveredFrom(pread: Preads, area: nat, pages: nat, ps: seq<nat>) returns (more: seq<nat>)
    requires Positions(pread, area, pages, ps)
    ensures Positions(pread, area, pages, more) && more[|more| - 1] == Delivered(pread, area, pages, ps[|ps| - 1])
    ensures
      var n := more[|more| - 1];
      n == pages || pread(area, n) == 0
    decreases pages - ps[|ps| - 1]
  {
    var done := ps[|ps| - 1];
    var got := Got(pread, area, pages, done);
    more := ps;
    if got > 0 {
      more := DeliveredFrom(pread, area, pages, ps + [done + got]);
    }
  }

  /** Exactly there. */
  lemma DeliveredIff(pread: Preads, area: nat, pages: nat, n: nat)
    ensures n == Delivered(pread, area, pages, 0) <==> EndsAt(pread, area, pages, n)
  {
    var ps := DeliveredFrom(pread, area, pages, [0]);
    if EndsAt(pread, area, pages, n) {
      var qs :| Positions(pread, area, pages, qs) && qs[|qs| - 1] == n;
      SameEnd(pread, area, pages, qs, |qs| - 1);
    }
  }

  lemma {:induction false} SameEnd(pread: Preads, area: nat, pages: nat, ps: seq<nat>, k: nat)
    requires Positions(pread, area, pages, ps) && k < |ps|
    ensures Delivered(pread, area, pages, 0) == Delivered(pread, area, pages, ps[k])
  {
    if k > 0 {
      SameEnd(pread, area, pages, ps, k - 1);
      assert ps[k - 1 + 1] == ps[k - 1] + Got(pread, area, pages, ps[k - 1]);
    }
  }

  /** When every read delivers something the whole area is read. */
  lemma {:induction false} DeliveredWhole(pread: Preads, area: nat, pages: nat, done: nat)
    requires done <= pages && forall p :: pread(area, p) > 0
    ensures Delivered(pread, area, pages, done) == pages
    decreases pages - done
  {
    if done < pages { DeliveredWhole(pread, area, pages, done + Got(pread, area, pages, done)); }
  }

  /** Area i has pages to count, and not all of them are read. */
  ghost predicate CutShort(vmas: seq<Vma>, seek: nat -> bool, pread: Preads, i: nat)
    requires i < |vmas|
  {
    Pages(vmas[i]) > 0 && (!seek(i) || Delivered(pread, i, Pages(vmas[i]), 0) < Pages(vmas[i]))
  }

  /** The pages read of area i. */
  function PagesRead(vmas: seq<Vma>, seek: nat -> bool, pread: Preads, i: nat): nat
    requires i < |vmas|
  {
    if seek(i) then Delivered(pread, i, Pages(vmas[i]), 0) else 0
  }

  /** Soft-dirty entries among the pages read of the first n areas. */
  function ReadDirty(vmas: seq<Vma>, entry: nat -> bv64, seek: nat -> bool, pread: Preads, n: nat): nat
    requires n <= |vmas|
  {
    if n == 0 then 0
    else
      ReadDirty(vmas, entry, seek, pread, n - 1) +
      Dirty(entry, FirstPage(vmas[n - 1]), PagesRead(vmas, seek, pread, n - 1))
  }

  /** It is the one-pass count as far as no area is cut short, and never more. */
  lemma {:induction false} ReadDirtyFacts(vmas: seq<Vma>, entry: nat -> bv64, seek: nat -> bool, pread: Preads, n: nat)
    requires n <= |vmas|
    ensures ReadDirty(vmas, entry, seek, pread, n) <= TotalDirty(vmas, entry, n)
    ensures (forall i :: 0 <= i < n ==> !CutShort(vmas, seek, pread, i)) ==>
              ReadDirty(vmas, entry, seek, pread, n) == TotalDirty(vmas, entry, n)
  {
    if n > 0 {
      var v := vmas[n - 1];
      ReadDirtyFacts(vmas, entry, seek, pread, n - 1);
      DirtyPrefix(entry, FirstPage(v), PagesRead(vmas, seek, pread, n - 1), Pages(v));
      hide Dirty, Pages, FirstPage, Delivered;
      if !CutShort(vmas, seek, pread, n - 1) {
        assert PagesRead(vmas, seek, pread, n - 1) == Pages(v);
      }
    }
  }

  /** One area more in the sums. */
  lemma OneArea(vmas: seq<Vma>, entry: nat -> bv64, seek: nat -> bool, pread: Preads, i: nat)
    requires i < |vmas|
    ensures ReadDirty(vmas, entry, seek, pread, i + 1) ==
            ReadDirty(vmas, entry, seek, pread, i) + Dirty(entry, FirstPage(vmas[i]), PagesRead(vmas, seek, pread, i))
    ensures TotalPages(vmas, i + 1) == TotalPages(vmas, i) + Pages(vmas[i])
    ensures !Counts(vmas[i]) ==> Pages(vmas[i]) == 0
    ensures Pages(vmas[i]) == 0 || !seek(i) ==> PagesRead(vmas, seek, pread, i) == 0
    ensures Dirty(entry, FirstPage(vmas[i]), 0) == 0
  {
    hide FirstPage, Quotient;
  }

  /** The pages of a well-formed area: whole ones, none unless it is readable private anonymous memory. */
  lemma PagesMeans(v: Vma)
    requires v.start <= v.end < 0x1_0000_0000_0000_0000
    ensures v.readable && v.privAnon ==> 4096 * Pages(v) <= v.end - v.start < 4096 * (Pages(v) + 1)
    ensures !v.readable || !v.privAnon ==> Pages(v) == 0
    ensures 4096 * FirstPage(v) <= v.start < 4096 * (FirstPage(v) + 1)
  {
    DivFacts(v.start, PAGE);
    ModUnique(v.end - v.start, WORD64, 0, v.end - v.start);
    DivFacts(v.end - v.start, PAGE);
  }

  // ---------------------------------------------------------------- the loops

  /** pread of `want` entries, of which `n` are delivered. */
  method Pread(entry: nat -> bv64, buf: array<bv64>, n: nat, off: nat) returns (got: nat)
    requires n <= buf.Length && off % 8 == 0
    modifies buf
    ensures got == n * 8 && forall i :: 0 <= i < n ==> buf[i] == entry(off / 8 + i)
  {
    var i := 0;
    while i < n
      invariant 0 <= i <= n
      invariant forall k :: 0 <= k < i ==> buf[k] == entry(off / 8 + k)
    {
      buf[i] := entry(off / 8 + i);
      i := i + 1;
    }
    got := n * 8;
  }

  /** The entries of one buffer. */
  method CountBuffer(entry: nat -> bv64, buf: array<bv64>, n: nat, ghost first: nat) returns (touched: nat)
    requires n <= buf.Length && forall i :: 0 <= i < n ==> buf[i] == entry(first + i)
    ensures touched == Dirty(entry, first, n)
  {
    touched := 0;
    var i := 0;
    while i < n
      invariant 0 <= i <= n && touched == Dirty(entry, first, i)
    {
      var e := buf[i];
      if e & 0x0080_0000_0000_0000 != 0 { touched := touched + 1; }
      i := i + 1;
    }
  }

  /** One area, read in chunks, to its end or to the first read that delivers nothing. */
  method SampleArea(entry: nat -> bv64, buf: array<bv64>, v: Vma, area: nat, pread: Preads)
    returns (touched: nat, early: bool)
    requires buf.Length == 4096 && v.privAnon && v.readable
    modifies buf
    ensures touched == Dirty(entry, FirstPage(v), Delivered(pread, area, Pages(v), 0))
    ensures early <==> Delivered(pread, area, Pages(v), 0) < Pages(v)
    ensures !early ==> touched == Dirty(entry, FirstPage(v), Pages(v))
  {
    DirtyNone(entry, FirstPage(v));
    hide Quotient, SoftDirty, Dirty;
    ghost var first := FirstPage(v);
    var pages := Pages(v);
    var off := FirstPage(v) * 8;
    var remaining := pages;
    touched, early := 0, false;
    while remaining > 0
      invariant 0 <= remaining <= pages && off == (first + (pages - remaining)) * 8
      invariant touched == Dirty(entry, first, pages - remaining)
      invariant Delivered(pread, area, pages, pages - remaining) == Delivered(pread, area, pages, 0)
      decreases remaining
    {
      var want := if remaining < 4096 then remaining else 4096;
      var answer := pread(area, pages - remaining);
      var got := Pread(entry, buf, if answer < want then answer else want, off);
      if got <= 0 {
        return touched, true;
      }
      var n := got / 8;
      var here := CountBuffer(entry, buf, n, off / 8);
      DirtySplit(entry, first, pages - remaining, n);
      touched := touched + here;
      remaining := remaining - n;
      off := off + got;
    }
  }

  /** sample_working_set. `seek` says whether positioning succeeds for an area, `pread` what each read delivers; an
      area that cannot be read still counts towards the total. `early` is the model's own. */
  method SampleWorkingSet(canRead: bool, vmas: seq<Vma>, entry: nat -> bv64, seek: nat -> bool, pread: Preads)
    returns (s: Sample, early: bool)
    ensures s.ok == canRead
    ensures canRead ==> s.totalKb == 4 * TotalPages(vmas, |vmas|)
    ensures canRead ==> s.touchedKb == 4 * ReadDirty(vmas, entry, seek, pread, |vmas|)
    ensures canRead ==> s.touchedKb <= 4 * TotalDirty(vmas, entry, |vmas|) <= s.totalKb
    ensures canRead ==> (early <==> exists i :: 0 <= i < |vmas| && CutShort(vmas, seek, pread, i))
    ensures canRead && !early ==> s.touchedKb == 4 * TotalDirty(vmas, entry, |vmas|)
    ensures canRead && (forall i :: seek(i)) && (forall i, p :: pread(i, p) > 0) ==>
              s.touchedKb == 4 * TotalDirty(vmas, entry, |vmas|)
  {
    hide Dirty, Delivered, Pages, FirstPage, TotalPages, TotalDirty, ReadDirty, PagesRead, CutShort;
    early := false;
    if !canRead { return Sample(false, 0, 0), early; }
    SumsOfNone(vmas, entry, seek, pread);
    var touched: nat, total: nat := 0, 0;
    var buf := new bv64[4096];
    var i := 0;
    while i < |vmas|
      invariant 0 <= i <= |vmas|
      invariant total == TotalPages(vmas, i)
      invariant touched == ReadDirty(vmas, entry, seek, pread, i)
      invariant early <==> exists k :: 0 <= k < i && CutShort(vmas, seek, pread, k)
    {
      var v := vmas[i];
      OneArea(vmas, entry, seek, pread, i);
      CutIff(vmas, seek, pread, i);
      i := i + 1;
      if !v.privAnon || !v.readable { continue; }
      var pages := Pages(v);
      if pages == 0 { continue; }
      total := total + pages;
      if !seek(i - 1) {
        early := true;
        continue;
      }
      var here, stopped := SampleArea(entry, buf, v, i - 1, pread);
      touched := touched + here;
      early := early || stopped;
    }
    DirtyWithinTotal(vmas, entry, |vmas|);
    ReadDirtyFacts(vmas, entry, seek, pread, |vmas|);
    NeverCut(vmas, seek, pread);
    s := Sample(true, total * 4, touched * 4);
  }

  lemma SumsOfNone(vmas: seq<Vma>, entry: nat -> bv64, seek: nat -> bool, pread: Preads)
    ensures TotalPages(vmas, 0) == 0 && ReadDirty(vmas, entry, seek, pread, 0) == 0
  {}

  lemma CutIff(vmas: seq<Vma>, seek: nat -> bool, pread: Preads, i: nat)
    requires i < |vmas|
    ensures Pages(vmas[i]) == 0 ==> !CutShort(vmas, seek, pread, i)
    ensures Pages(vmas[i]) > 0 && !seek(i) ==> CutShort(vmas, seek, pread, i)
    ensures Pages(vmas[i]) > 0 && seek(i) ==>
              (CutShort(vmas, seek, pread, i) <==> Delivered(pread, i, Pages(vmas[i]), 0) < Pages(vmas[i]))
    ensures seek(i) ==> PagesRead(vmas, seek, pread, i) == Delivered(pread, i, Pages(vmas[i]), 0)
  {
    hide Pages, Delivered;
  }

  lemma NeverCut(vmas: seq<Vma>, seek: nat -> bool, pread: Preads)
    ensures (forall i :: seek(i)) && (forall i, p :: pread(i, p) > 0) ==>
              forall i :: 0 <= i < |vmas| ==> !CutShort(vmas, seek, pread, i)
  {
    if (forall i :: seek(i)) && (forall i, p :: pread(i, p) > 0) {
      forall i | 0 <= i < |vmas| ensures !CutShort(vmas, seek, pread, i) {
        DeliveredWhole(pread, i, Pages(vmas[i]), 0);
      }
    }
  }

  // ---------------------------------------------------------------- what the score is fed

  /** Any sample with touched at most total gives a ratio between 0 and 1, and the score of a sampled
      process of non-negative weight lies between 0 and 1.3 times weight times megabytes. */
  lemma SampledScoreBounds(cfg: Config, ps: Stat, tr: Track, ws: Sample, damonOn: bool)
    requires ws.touchedKb <= ws.totalKb && 0.0 <= ps.wsRatio <= 1.0 && 0.0 <= WeightFor(cfg, ps.cgroup)
    ensures
      var (p, _) := Scored(cfg, ps, tr, ws, damonOn);
      && 0.0 <= p.wsRatio <= 1.0
      && 0.0 <= p.score <= 1.3 * WeightFor(cfg, ps.cgroup) * (p.anonKb as real / 1024.0)
  {
    var (p, _) := Measured(cfg, ps, tr, ws, damonOn);
    if ws.totalKb > 0 { ShareBounds(ws.touchedKb, ws.totalKb); }
    hide WeightFor;
    EngineProofs.ScoreBounds(p.anonKb, p.wsRatio, p.swapKb, WeightFor(cfg, p.cgroup));
    hide Score;
  }

  lemma ShareBounds(touched: nat, total: nat)
    requires touched <= total && total > 0
    ensures 0.0 <= touched as real / total as real <= 1.0
  {}
}
