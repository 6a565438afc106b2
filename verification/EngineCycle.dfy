/** What one cycle of the reclaim engine does, stated on what it observes: when it pauses, when it acts, how each
    process is scored, whom it tries and what becomes of the cooldowns. */
module EngineCycle {
  import opened Options
  import opened EngineSpec
  import opened EngineProofs
  import Arith

  // ---------------------------------------------------------------- when a cycle pauses, and when it acts

  /** The kernel is stalled a quarter of the time, or less than 5 % of memory is available. */
  predicate Emergency(x: Input) {
    || (x.psi.ok && x.psi.full >= 0.25)
    || (x.mem.total > 0 && x.mem.available > 0 && 20 * x.mem.available < x.mem.total)
  }

  /** Some are stalled up to the threshold, or less than 10 % of memory is available, or less than 15 % and some are
      stalled up to the low threshold. */
  predicate Strained(x: Input) {
    || (x.psi.ok && x.psi.some >= x.cfg.psiThreshold)
    || (x.mem.total > 0 && x.mem.available > 0 &&
          (10 * x.mem.available < x.mem.total
           || (20 * x.mem.available < 3 * x.mem.total && x.psi.some >= x.cfg.psiLow)))
  }

  /** A forced cycle acts, and any other that is no emergency and is under strain or a dry run. */
  predicate MayAct(x: Input) { x.kind.Force? || (!Emergency(x) && (Strained(x) || x.cfg.dryRun)) }

  /** A ratio compared with a number of twentieths. */
  lemma ShareBelow(a: nat, b: nat, k: nat)
    requires b > 0
    ensures a as real / b as real < k as real / 20.0 <==> 20 * a < k * b
  {
    var r := a as real / b as real;
    assert r * b as real == a as real;
    var y := k as real / 20.0;
    if r < y {
      RealStrict(r, y, b as real);
    } else {
      RealMono(y, r, b as real);
    }
    TwentiethTimes(k, b);
  }

  lemma TwentiethTimes(k: nat, b: nat)
    ensures 20.0 * (k as real / 20.0 * b as real) == (k * b) as real
  {
    assert k as real / 20.0 * b as real * 20.0 == k as real * b as real;
    ProductReal(k, b);
  }

  lemma {:induction false} ProductReal(k: nat, b: nat)
    ensures k as real * b as real == (k * b) as real
  {
    if k > 0 {
      ProductReal(k - 1, b);
      assert (k - 1) * b == k * b - b;
    }
  }

  lemma CrisisIff(x: Input)
    ensures Paused(x) <==> x.kind.Run? && Emergency(x)
  {
    if x.mem.total > 0 { ShareBelow(x.mem.available, x.mem.total, 1); }
  }

  lemma PressureIff(x: Input)
    ensures Pressure(x.cfg, x.psi, x.mem) <==> Strained(x)
  {
    if x.mem.total > 0 {
      ShareBelow(x.mem.available, x.mem.total, 2);
      ShareBelow(x.mem.available, x.mem.total, 3);
    }
  }

  /** run_cycle scores nothing exactly in an emergency. Then it tries nothing and changes no process's entry. */
  lemma PausesIff(s: State, x: Input)
    requires Valid(s, x)
    ensures
      var (t, r) := Cycle(s, x);
      && (r.scored <==> x.kind.Force? || !Emergency(x))
      && (!r.scored ==>
            && r.attempts == [] && t.cleared == s.cleared
            && forall p :: Cool(t.tracked, p) == Cool(s.tracked, p) && Samples(t.tracked, p) == Samples(s.tracked, p))
  {
    CrisisIff(x);
    if Paused(x) {
      forall p ensures Cool(Cycle(s, x).0.tracked, p) == Cool(s.tracked, p) &&
                       Samples(Cycle(s, x).0.tracked, p) == Samples(s.tracked, p)
      {
        AdmittedFacts(s.tracked, x.procs, p);
      }
    }
  }

  /** A cycle that tries a process is forced, or is no emergency and under strain or a dry run. */
  lemma AttemptsNeedStrain(s: State, x: Input)
    requires Valid(s, x) && Cycle(s, x).1.attempts != []
    ensures MayAct(x)
    ensures x.kind.Run? && !x.cfg.dryRun ==> !Emergency(x) && Strained(x)
  {
    CrisisIff(x);
    PressureIff(x);
    hide ScoresOf, Acted;
  }

  // ---------------------------------------------------------------- cooldowns

  /** The fault counters report more than 20000 faults of p. */
  predicate Faulting(faults: seq<(int, nat)>, p: int) {
    exists i :: 0 <= i < |faults| && faults[i].0 == p && faults[i].1 > 20000
  }

  /** The cooldown of p once the guard has looked: a running one is at least 20 when p is faulting. */
  function Guard(s: State, x: Input, p: int): int {
    var cool := Cool(s.tracked, p);
    if x.kind.Run? && cool > 0 && Faulting(x.faults, p) && cool < 20 then 20 else cool
  }

  lemma {:induction false} GuardedExactly(tracked: map<int, Track>, faults: seq<(int, nat)>, p: int)
    ensures Cool(GuardedAll(tracked, faults), p) ==
            if Cool(tracked, p) > 0 && Faulting(faults, p) && Cool(tracked, p) < 20 then 20 else Cool(tracked, p)
    decreases |faults|
  {
    if faults != [] {
      var n := |faults| - 1;
      GuardedExactly(tracked, faults[..n], p);
      assert Faulting(faults, p) <==> Faulting(faults[..n], p) || (faults[n].0 == p && faults[n].1 > 20000) by {
        if Faulting(faults[..n], p) {
          var i :| 0 <= i < n && faults[..n][i].0 == p && faults[..n][i].1 > 20000;
          assert faults[i].0 == p;
        }
        if Faulting(faults, p) {
          var i :| 0 <= i < |faults| && faults[i].0 == p && faults[i].1 > 20000;
          if i < n { assert faults[..n][i].0 == p; }
        }
      }
    }
  }

  lemma BaseExactly(s: State, x: Input, p: int)
    ensures Cool(Base(s, x).tracked, p) == Guard(s, x, p) && Samples(Base(s, x).tracked, p) == Samples(s.tracked, p)
  {
    AdmittedFacts(s.tracked, x.procs, p);
    GuardedExactly(Admitted(s.tracked, x.procs), x.faults, p);
    GuardFacts(Admitted(s.tracked, x.procs), x.faults, p);
    DamonFacts(Prepared(s, x), x.damonAnswer, p);
    hide Cool, Samples, GuardedAll, Admitted, DamonSampled;
  }

  /** Exactly what a cycle that scores does to a cooldown: 5 after a reclaim; else one less than the guard left, if that
      was running and the process was seen. */
  lemma CooldownExactly(s: State, x: Input, p: int)
    requires Valid(s, x) && Cycle(s, x).1.scored
    ensures Cool(Cycle(s, x).0.tracked, p) ==
            if Reclaims(s, x, p) then 5
            else if Seen(x, p) && Guard(s, x, p) > 0 then Guard(s, x, p) - 1
            else Guard(s, x, p)
  {
    CrisisIff(x);
    BaseExactly(s, x, p);
    ScoresFacts(s, x, p);
    hide Base, ScoresOf, Acted, AllScored, Ranked, Guard;
    var c := ScoresOf(s, x);
    if Seen(x, p) {
      var i :| 0 <= i < |x.procs| && x.procs[i].pid == p;
      ScoredCool(s, x, i);
    }
    if Acts(x) {
      var start := Tally(c.tracked, [], 0, 0);
      ActedTracks(x.cfg, InOrder(c.snapshot, x.order), x.gain, 0, start, p);
      var r := Acted(x.cfg, InOrder(c.snapshot, x.order), x.gain, 0, start);
      assert r.attempts[0..] == r.attempts;
    }
  }

  // ---------------------------------------------------------------- scores

  /** The score is additive in the memory and in the weight, 1 for an untouched megabyte of weight 1, three tenths more
      with anything swapped out, and falls evenly to zero at a quarter touched. */
  lemma ScoreLaws(a: nat, b: nat, ratio: real, swapKb: nat, v: real, w: real)
    requires 0.0 <= ratio
    ensures Score(a + b, ratio, swapKb, w) == Score(a, ratio, swapKb, w) + Score(b, ratio, swapKb, w)
    ensures Score(a, ratio, swapKb, v + w) == Score(a, ratio, swapKb, v) + Score(a, ratio, swapKb, w)
    ensures Score(1024, 0.0, 0, 1.0) == 1.0
    ensures swapKb > 0 ==> 10.0 * Score(a, ratio, swapKb, w) == 13.0 * Score(a, ratio, 0, w)
    ensures ratio >= 0.25 ==> Score(a, ratio, swapKb, w) == 0.0
    ensures ratio <= 0.25 ==> Score(a, ratio, swapKb, w) == (1.0 - 4.0 * ratio) * Score(a, 0.0, swapKb, w)
  {
    var cold := 1.0 - MinReal(1.0, ratio * 4.0);
    var swap := if swapKb > 0 then 1.3 else 1.0;
    var x, y := a as real / 1024.0, b as real / 1024.0;
    assert (a + b) as real / 1024.0 == x + y;
    Distributes(x, y, cold, swap, w);
    AddsWeights(x * cold * swap, v, w);
    Cools(x, cold, swap, w);
    SwapLaw(a, ratio, swapKb, w);
    hide MinReal;
  }

  lemma SwapLaw(a: nat, ratio: real, swapKb: nat, w: real)
    ensures swapKb > 0 ==> 10.0 * Score(a, ratio, swapKb, w) == 13.0 * Score(a, ratio, 0, w)
  {
    hide MinReal;
    var m := a as real / 1024.0 * (1.0 - MinReal(1.0, ratio * 4.0));
    Swaps(m, w);
    assert Score(a, ratio, 0, w) == m * 1.0 * w;
    if swapKb > 0 { assert Score(a, ratio, swapKb, w) == m * 1.3 * w; }
    hide Score;
  }

  lemma Distributes(x: real, y: real, cold: real, swap: real, w: real)
    ensures (x + y) * cold * swap * w == x * cold * swap * w + y * cold * swap * w
  {
    assert (x + y) * cold == x * cold + y * cold;
    AddsWeights(swap, x * cold, y * cold);
    assert (x * cold + y * cold) * swap == x * cold * swap + y * cold * swap;
    AddsWeights(w, x * cold * swap, y * cold * swap);
  }

  lemma AddsWeights(m: real, v: real, w: real)
    ensures m * (v + w) == m * v + m * w && (v + w) * m == v * m + w * m
  {}

  lemma Cools(x: real, cold: real, swap: real, w: real)
    ensures x * cold * swap * w == cold * (x * 1.0 * swap * w)
  {
    assert x * cold == cold * x;
    assert cold * x * swap == cold * (x * swap);
    assert cold * (x * swap) * w == cold * (x * swap * w);
  }

  lemma Swaps(m: real, w: real)
    ensures 10.0 * (m * 1.3 * w) == 13.0 * (m * 1.0 * w)
  {
    var q := m * w;
    assert m * 1.0 * w == q;
    assert m * 1.3 == 1.3 * m;
    Regrouped(1.3, m, w);
    assert m * 1.3 * w == 1.3 * q;
  }

  lemma Regrouped(a: real, b: real, c: real)
    ensures a * b * c == a * (b * c)
  {}

  /** The sampler's verdict counts for a process over half the configured size whose bits were cleared before. */
  predicate Counted(s: State, x: Input, i: nat)
    requires i < |x.procs|
  {
    var p := x.procs[i];
    var ws := x.sample(p.pid);
    p.anonKb > 512 * x.cfg.minReclaimableMb && Samples(s.tracked, p.pid) > 0 && ws.ok && ws.totalKb > 0
  }

  /** What the engine records of process i when DAMON is off. */
  lemma ScoredExactly(s: State, x: Input, i: nat)
    requires Valid(s, x) && Cycle(s, x).1.scored && !s.damonOn && !x.damonStarts && i < |x.procs|
    ensures
      var t, p, ws := Cycle(s, x).0, x.procs[i], x.sample(x.procs[i].pid);
      var anon := if Counted(s, x, i) && p.anonKb < ws.totalKb then ws.totalKb else p.anonKb;
      var ratio := if Counted(s, x, i) then ws.touchedKb as real / ws.totalKb as real else 1.0;
      var score := if Guard(s, x, p.pid) > 0 then 0.0 else Score(anon, ratio, p.swapKb, WeightFor(x.cfg, p.cgroup));
      && |t.snapshot| == |x.procs| && t.snapshot[i] == Stat(p.pid, p.cgroup, anon, p.swapKb, ratio, score)
      && Samples(t.tracked, p.pid) ==
         Samples(s.tracked, p.pid) + (if p.anonKb > 512 * x.cfg.minReclaimableMb then 1 else 0)
      && (p.anonKb > 512 * x.cfg.minReclaimableMb && Samples(s.tracked, p.pid) == 0 ==> p.pid in t.cleared)
  {
    var p := x.procs[i];
    CrisisIff(x);
    BaseExactly(s, x, p.pid);
    BaseFacts(s, x, p.pid);
    ScoresFacts(s, x, p.pid);
    BaseDamon(s, x);
    var b, c := Base(s, x), ScoresOf(s, x);
    hide Base, ScoresOf, Acted, Ranked, Guard, Score, WeightFor, Prepared;
    assert ScoredHere(x.cfg, b, c, i, x.sample) && b.snapshot[i] == Fresh(p);
    hide AllScored;
    ScoredValue(x.cfg, p, b.tracked[p.pid], x.sample(p.pid));
    hide Scored;
    if Acts(x) { ActedTracks(x.cfg, InOrder(c.snapshot, x.order), x.gain, 0, Tally(c.tracked, [], 0, 0), p.pid); }
  }

  lemma ScoredValue(cfg: Config, p: Proc, tr: Track, ws: Sample)
    ensures
      var counted := p.anonKb > 512 * cfg.minReclaimableMb && tr.samples > 0 && ws.ok && ws.totalKb > 0;
      var anon := if counted && p.anonKb < ws.totalKb then ws.totalKb else p.anonKb;
      var ratio := if counted then ws.touchedKb as real / ws.totalKb as real else 1.0;
      var score := if tr.cooldown > 0 then 0.0 else Score(anon, ratio, p.swapKb, WeightFor(cfg, p.cgroup));
      var (ps, t) := Scored(cfg, Fresh(p), tr, ws, false);
      && ps == Stat(p.pid, p.cgroup, anon, p.swapKb, ratio, score)
      && t.samples == tr.samples + (if p.anonKb > 512 * cfg.minReclaimableMb then 1 else 0)
  {
    hide Score, WeightFor;
  }

  lemma BaseDamon(s: State, x: Input)
    ensures Base(s, x).damonOn == (s.damonOn || x.damonStarts)
  {
    DamonFacts(Prepared(s, x), x.damonAnswer, 0);
    hide DamonSampled;
  }

  /** With DAMON off a process scores above zero exactly when no cooldown runs, its sample counts and shows less than a
      quarter touched, and its weight is positive. */
  lemma PositiveIff(s: State, x: Input, i: nat)
    requires Valid(s, x) && Cycle(s, x).1.scored && !s.damonOn && !x.damonStarts && i < |x.procs|
    ensures
      var p, ws := x.procs[i], x.sample(x.procs[i].pid);
      |Cycle(s, x).0.snapshot| == |x.procs| &&
      (Cycle(s, x).0.snapshot[i].score > 0.0 <==>
       Guard(s, x, p.pid) <= 0 && Counted(s, x, i) && 4 * ws.touchedKb < ws.totalKb && WeightFor(x.cfg, p.cgroup) > 0.0)
  {
    ScoredExactly(s, x, i);
    hide Cycle, Guard, WeightFor, Score, Valid;
    var p, ws := x.procs[i], x.sample(x.procs[i].pid);
    var anon := if Counted(s, x, i) && p.anonKb < ws.totalKb then ws.totalKb else p.anonKb;
    var w := WeightFor(x.cfg, p.cgroup);
    if Counted(s, x, i) {
      ShareBelow(ws.touchedKb, ws.totalKb, 5);
      ShareNotNegative(ws.touchedKb, ws.totalKb);
      ScorePositiveIff(anon, ws.touchedKb as real / ws.totalKb as real, p.swapKb, w);
    } else {
      ScorePositiveIff(anon, 1.0, p.swapKb, w);
    }
  }

  lemma ShareNotNegative(a: nat, b: nat)
    requires b > 0
    ensures a as real / b as real >= 0.0
  {}

  lemma ScorePositiveIff(a: nat, ratio: real, swapKb: nat, w: real)
    requires ratio >= 0.0
    ensures Score(a, ratio, swapKb, w) > 0.0 <==> a > 0 && ratio < 0.25 && w > 0.0
  {
    var cold := 1.0 - MinReal(1.0, ratio * 4.0);
    var swap := if swapKb > 0 then 1.3 else 1.0;
    var mb := a as real / 1024.0;
    assert cold >= 0.0 && (cold > 0.0 <==> ratio < 0.25);
    hide MinReal;
    SignOf(mb, cold);
    SignOf(mb * cold, swap);
    SignOf(mb * cold * swap, w);
  }

  lemma SignOf(m: real, w: real)
    requires m >= 0.0
    ensures m * w > 0.0 <==> m > 0.0 && w > 0.0
    ensures w >= 0.0 ==> m * w >= 0.0
  {
    if m > 0.0 && w > 0.0 { RealStrict(0.0, m, w); }
    if w <= 0.0 { RealMono(w, 0.0, m); assert w * m == m * w; }
  }

  // ---------------------------------------------------------------- DAMON

  /** A process's cold total grows by the kilobytes of each region without accesses, in 32 bits. */
  lemma ColdKbLaw(regs: seq<DamonRegion>, r: DamonRegion)
    requires r.start <= r.end < 0x1_0000_0000_0000_0000
    ensures ColdKb([]) == 0
    ensures r.accesses > 0 ==> ColdKb(regs + [r]) == ColdKb(regs)
    ensures r.accesses == 0 && ColdKb(regs) + (r.end - r.start) / 1024 < 0x1_0000_0000 - 1 ==>
              ColdKb(regs + [r]) == ColdKb(regs) + (r.end - r.start) / 1024
  {
    assert (regs + [r])[..|regs|] == regs;
    Arith.ModUnique(r.end - r.start, Arith.WORD64, 0, r.end - r.start);
  }

  /** The cold total the engine has on record for p before the cycle. */
  function Recorded(s: State, p: int): nat { if p in s.tracked then s.tracked[p].damonColdKb else 0 }

  /** Entry k is the last of the answer for p. */
  predicate LastFor(answer: seq<(int, seq<DamonRegion>)>, p: int, k: nat) {
    k < |answer| && answer[k].0 == p && forall j :: k < j < |answer| ==> answer[j].0 != p
  }

  /** The last entry counts; without one the old total stays. */
  lemma {:induction false} ColdRecord(tracked: map<int, Track>, answer: seq<(int, seq<DamonRegion>)>, p: int)
    requires p in tracked
    ensures p in DamonTracked(tracked, answer)
    ensures forall k: nat :: LastFor(answer, p, k) ==>
              DamonTracked(tracked, answer)[p].damonColdKb == ColdKb(answer[k].1)
    ensures (forall j :: 0 <= j < |answer| ==> answer[j].0 != p) ==>
              DamonTracked(tracked, answer)[p].damonColdKb == tracked[p].damonColdKb
    decreases |answer|
  {
    if answer != [] {
      var n := |answer| - 1;
      ColdRecord(tracked, answer[..n], p);
      ColdFacts(tracked, answer[..n], p);
      forall k: nat | LastFor(answer, p, k)
        ensures DamonTracked(tracked, answer)[p].damonColdKb == ColdKb(answer[k].1)
      {
        if k < n {
          assert answer[n].0 != p;
          assert LastFor(answer[..n], p, k);
        }
      }
      if forall j :: 0 <= j < |answer| ==> answer[j].0 != p {
        assert answer[n].0 != p;
        forall j | 0 <= j < n ensures answer[..n][j].0 != p { assert answer[j].0 != p; }
      }
    }
  }

  /** The cold total a process is judged by, when DAMON answers. */
  ghost predicate JudgedBy(s: State, x: Input, p: int, coldKb: nat) {
    && x.damonAnswer.Some?
    && (forall k: nat :: LastFor(x.damonAnswer.value, p, k) ==> coldKb == ColdKb(x.damonAnswer.value[k].1))
    && ((forall j :: 0 <= j < |x.damonAnswer.value| ==> x.damonAnswer.value[j].0 != p) ==> coldKb == Recorded(s, p))
  }

  /** With DAMON on and answering, the ratio of a process is what its cold total leaves of its memory, and it scores
      above zero exactly when no cooldown runs, its weight is positive and more than three quarters are cold. */
  lemma DamonScores(s: State, x: Input, i: nat) returns (coldKb: nat)
    requires Valid(s, x) && Cycle(s, x).1.scored && (s.damonOn || x.damonStarts) && x.damonAnswer.Some? && i < |x.procs|
    ensures JudgedBy(s, x, x.procs[i].pid, coldKb)
    ensures
      var t, p := Cycle(s, x).0, x.procs[i];
      var cold := if coldKb < p.anonKb then coldKb else p.anonKb;
      && |t.snapshot| == |x.procs| && t.snapshot[i].pid == p.pid && t.snapshot[i].anonKb == p.anonKb
      && t.snapshot[i].wsRatio == (if p.anonKb == 0 then 1.0 else 1.0 - cold as real / p.anonKb as real)
      && (t.snapshot[i].score > 0.0 <==>
          Guard(s, x, p.pid) <= 0 && WeightFor(x.cfg, p.cgroup) > 0.0 && 4 * cold > 3 * p.anonKb)
  {
    var p := x.procs[i];
    coldKb := DamonBase(s, x, i);
    CrisisIff(x);
    BaseExactly(s, x, p.pid);
    ScoresFacts(s, x, p.pid);
    BaseDamon(s, x);
    var b, c := Base(s, x), ScoresOf(s, x);
    hide Base, ScoresOf, Acted, Ranked, Guard, Score, WeightFor, JudgedBy, Chilled;
    assert ScoredHere(x.cfg, b, c, i, x.sample);
    hide AllScored;
    ChilledRatio(p, coldKb);
    var ps := Chilled(Fresh(p), coldKb);
    ScorePositiveIff(p.anonKb, ps.wsRatio, p.swapKb, WeightFor(x.cfg, p.cgroup));
  }

  /** The process as it is scored. */
  lemma DamonBase(s: State, x: Input, i: nat) returns (coldKb: nat)
    requires Valid(s, x) && (s.damonOn || x.damonStarts) && x.damonAnswer.Some? && i < |x.procs|
    ensures JudgedBy(s, x, x.procs[i].pid, coldKb)
    ensures |Base(s, x).snapshot| == |x.procs| && Base(s, x).snapshot[i] == Chilled(Fresh(x.procs[i]), coldKb)
  {
    var p := x.procs[i].pid;
    var u := Prepared(s, x);
    PreparedFacts(s, x, p);
    AdmittedCold(s.tracked, x.procs, p);
    GuardCold(Admitted(s.tracked, x.procs), x.faults, p);
    assert u.snapshot[i].pid in u.tracked;
    ColdRecord(u.tracked, x.damonAnswer.value, p);
    coldKb := DamonTracked(u.tracked, x.damonAnswer.value)[p].damonColdKb;
    hide DamonTracked, Chilled, GuardedAll, Admitted;
  }

  lemma {:induction false} AdmittedCold(tracked: map<int, Track>, procs: seq<Proc>, p: int)
    ensures p in Admitted(tracked, procs) ==>
              Admitted(tracked, procs)[p].damonColdKb == if p in tracked then tracked[p].damonColdKb else 0
    decreases |procs|
  {
    if procs != [] {
      AdmittedCold(tracked, procs[..|procs| - 1], p);
      AdmittedFacts(tracked, procs[..|procs| - 1], p);
    }
  }

  lemma {:induction false} GuardCold(tracked: map<int, Track>, faults: seq<(int, nat)>, p: int)
    ensures GuardedAll(tracked, faults).Keys == tracked.Keys
    ensures p in tracked ==> GuardedAll(tracked, faults)[p].damonColdKb == tracked[p].damonColdKb
    decreases |faults|
  {
    if faults != [] { GuardCold(tracked, faults[..|faults| - 1], p); }
  }

  /** A process's ratio under DAMON is below a quarter exactly when more than three quarters are cold. */
  lemma ChilledRatio(p: Proc, coldKb: nat)
    ensures
      var ps := Chilled(Fresh(p), coldKb);
      var cold := if coldKb < p.anonKb then coldKb else p.anonKb;
      && ps == Fresh(p).(wsRatio := ps.wsRatio) && 0.0 <= ps.wsRatio <= 1.0
      && ps.wsRatio == (if p.anonKb == 0 then 1.0 else 1.0 - cold as real / p.anonKb as real)
      && (p.anonKb > 0 && ps.wsRatio < 0.25 <==> 4 * cold > 3 * p.anonKb)
  {
    var cold := if coldKb < p.anonKb then coldKb else p.anonKb;
    if p.anonKb > 0 {
      ShareNotNegative(cold, p.anonKb);
      ShareBelow(cold, p.anonKb, 20);
      AtLeastShare(cold, p.anonKb);
    }
  }

  lemma AtLeastShare(a: nat, b: nat)
    requires b > 0 && a <= b
    ensures a as real / b as real <= 1.0
    ensures a as real / b as real > 0.75 <==> 4 * a > 3 * b
  {
    var r := a as real / b as real;
    assert r * b as real == a as real;
    if r > 1.0 { RealStrict(1.0, r, b as real); }
    ProductReal(4, a);
    ProductReal(3, b);
    Quarters(r, a as real, b as real);
  }

  lemma Quarters(r: real, a: real, b: real)
    requires b > 0.0 && r * b == a
    ensures r > 0.75 <==> 4.0 * a > 3.0 * b
  {
    if r > 0.75 {
      RealStrict(0.75, r, b);
    } else {
      RealMono(r, 0.75, b);
    }
  }

  // ---------------------------------------------------------------- attempts

  /** The process may be tried: it scores enough and is large enough. */
  predicate Worthwhile(cfg: Config, ps: Stat) { ps.score >= cfg.minScore && ps.anonKb >= 1024 * cfg.minReclaimableMb }

  /** Every attempt is on one worthwhile process of the final snapshot, no process is tried twice, and the mode is that
      of its policy. */
  lemma AttemptMeans(s: State, x: Input, m: nat) returns (i: nat)
    requires Valid(s, x) && m < |Cycle(s, x).1.attempts|
    ensures MayAct(x)
    ensures
      var (t, r) := Cycle(s, x);
      && i < |t.snapshot| && Worthwhile(x.cfg, t.snapshot[i]) && r.attempts[m].pid == t.snapshot[i].pid
      && r.attempts[m].gain == x.gain(t.snapshot[i].pid, r.attempts[m].mode)
      && PolicyMode(x.cfg, t.snapshot[i].cgroup, r.attempts[m].mode)
      && forall k :: 0 <= k < |r.attempts| && k != m ==> r.attempts[k].pid != r.attempts[m].pid
  {
    AttemptsNeedStrain(s, x);
    ScoresFacts(s, x, 0);
    hide Base, ScoresOf, ScoredHere, Prepared, Scanned, MayAct;
    var c := ScoresOf(s, x);
    ActionsByScore(x.cfg, c.snapshot, x.order, x.gain, c.tracked);
    i := x.order[m];
    ModeIsPolicy(x.cfg, c.snapshot[i].cgroup);
    hide ModeFor, PolicyMode, Acted;
    OncePerAttempt(x.cfg, c.snapshot, x.order, Cycle(s, x).1.attempts, x.gain, m);
  }

  lemma OncePerAttempt(cfg: Config, snapshot: seq<Stat>, order: seq<nat>, attempts: seq<Attempt>, gain: Yield, m: nat)
    requires Ranked(cfg, snapshot, order) && OncePerPid(snapshot) && m < |attempts| <= |order|
    requires forall k :: 0 <= k < |attempts| ==> attempts[k] == AttemptOn(cfg, snapshot[order[k]], gain)
    ensures forall k :: 0 <= k < |attempts| && k != m ==> attempts[k].pid != attempts[m].pid
  {
    hide ModeFor;
    forall k | 0 <= k < |attempts| && k != m ensures attempts[k].pid != attempts[m].pid {
      assert order[k] != order[m];
    }
  }

  /** The mode of the policy with the longest matching prefix, the first of equals, or the default. */
  ghost predicate PolicyMode(cfg: Config, cgroup: string, mode: Mode) {
    && (forall i: nat :: IsBest(cfg.groups, cgroup, i) ==> (mode == ColdOnly <==> cfg.groups[i].mode == 1))
    && ((forall i :: 0 <= i < |cfg.groups| ==> !(cfg.groups[i].prefix <= cgroup)) ==>
          (mode == ColdOnly <==> cfg.defaultCold))
  }

  ghost predicate PolicyWeight(cfg: Config, cgroup: string, w: real) {
    && (forall i: nat :: IsBest(cfg.groups, cgroup, i) ==> w == cfg.groups[i].weight)
    && ((forall i :: 0 <= i < |cfg.groups| ==> !(cfg.groups[i].prefix <= cgroup)) ==> w == 1.0)
  }

  lemma ModeIsPolicy(cfg: Config, cgroup: string)
    ensures PolicyMode(cfg, cgroup, ModeFor(cfg, cgroup)) && PolicyWeight(cfg, cgroup, WeightFor(cfg, cgroup))
  {
    BestOfIsBest(cfg.groups, cgroup, |cfg.groups|);
    assert cfg.groups[..|cfg.groups|] == cfg.groups;
    var best := BestOf(cfg.groups, cgroup, |cfg.groups|);
    forall i: nat | IsBest(cfg.groups, cgroup, i) ensures best == Some(i) {
      assert Matches(cfg.groups[i], cgroup);
      BestUnique(cfg.groups, cgroup, i, best.value);
    }
    if best.Some? { assert Matches(cfg.groups[best.value], cgroup); }
  }

  /** A cycle that acts leaves a worthwhile process untried only when one of the caps is reached, and then tries none
      that scores less. */
  lemma LeftUntried(s: State, x: Input, i: nat)
    requires Valid(s, x) && MayAct(x) && i < |x.procs| && !Attempts(s, x, x.procs[i].pid)
    ensures
      var (t, r) := Cycle(s, x);
      && |t.snapshot| == |x.procs|
      && (Worthwhile(x.cfg, t.snapshot[i]) ==>
            && (Successes(r.attempts) == x.cfg.maxTargets || Sum(r.attempts) >= x.cfg.cap)
            && forall k, m :: 0 <= k < |x.procs| && 0 <= m < |r.attempts| && t.snapshot[k].pid == r.attempts[m].pid ==>
                 t.snapshot[k].score >= t.snapshot[i].score)
  {
    CrisisIff(x);
    PressureIff(x);
    ScoresFacts(s, x, 0);
    hide Base, ScoresOf, ScoredHere, Prepared, Scanned, MayAct, Sum, Successes, Acted, Ranked, Worthwhile;
    var c := ScoresOf(s, x);
    if Worthwhile(x.cfg, c.snapshot[i]) {
      ActedUntried(x.cfg, c.snapshot, x.order, x.gain, c.tracked, i);
    }
  }

  /** The same of run_actions on any snapshot. */
  lemma ActedUntried(cfg: Config, snapshot: seq<Stat>, order: seq<nat>, gain: Yield, tracked: map<int, Track>, i: nat)
    requires Ranked(cfg, snapshot, order) && OncePerPid(snapshot) && i < |snapshot| && Worthwhile(cfg, snapshot[i])
    ensures
      var r := Acted(cfg, InOrder(snapshot, order), gain, 0, Tally(tracked, [], 0, 0));
      (forall m :: 0 <= m < |r.attempts| ==> r.attempts[m].pid != snapshot[i].pid) ==>
        && (Successes(r.attempts) == cfg.maxTargets || Sum(r.attempts) >= cfg.cap)
        && forall k, m :: 0 <= k < |snapshot| && 0 <= m < |r.attempts| && snapshot[k].pid == r.attempts[m].pid ==>
             snapshot[k].score >= snapshot[i].score
  {
    ActionsByScore(cfg, snapshot, order, gain, tracked);
    hide Acted, Ranked, Sum, Successes, Worthwhile, ModeFor;
    var r := Acted(cfg, InOrder(snapshot, order), gain, 0, Tally(tracked, [], 0, 0));
    if forall m :: 0 <= m < |r.attempts| ==> r.attempts[m].pid != snapshot[i].pid {
      forall m | 0 <= m < |r.attempts| ensures order[m] != i {
        assert r.attempts[m] == AttemptOn(cfg, snapshot[order[m]], gain);
      }
      Untried(cfg, snapshot, order, r.attempts, gain, i);
    }
  }

  /** The caps hold: the successes stay within theirs, and neither was reached before the last attempt. */
  lemma CapsHold(s: State, x: Input)
    requires Valid(s, x)
    ensures
      var r := Cycle(s, x).1;
      && Successes(r.attempts) <= x.cfg.maxTargets
      && (r.attempts != [] ==>
            var before := r.attempts[..|r.attempts| - 1];
            Sum(before) < x.cfg.cap && Successes(before) < x.cfg.maxTargets)
  {
    ScoresFacts(s, x, 0);
    hide Base, ScoresOf, ScoredHere, Prepared, Scanned, Sum;
    var c := ScoresOf(s, x);
    if !Paused(x) && Acts(x) {
      ActionsByScore(x.cfg, c.snapshot, x.order, x.gain, c.tracked);
      ActedCaps(x.cfg, InOrder(c.snapshot, x.order), x.gain, c.tracked);
    }
    hide Acted;
  }

  lemma Untried(cfg: Config, snapshot: seq<Stat>, order: seq<nat>, attempts: seq<Attempt>, gain: Yield, i: nat)
    requires Ranked(cfg, snapshot, order) && OncePerPid(snapshot) && |attempts| <= |order|
    requires forall k :: 0 <= k < |attempts| ==> attempts[k] == AttemptOn(cfg, snapshot[order[k]], gain)
    requires i < |snapshot| && Worthwhile(cfg, snapshot[i]) && forall m :: 0 <= m < |attempts| ==> order[m] != i
    ensures |attempts| < |order|
    ensures forall k, m :: 0 <= k < |snapshot| && 0 <= m < |attempts| && snapshot[k].pid == attempts[m].pid ==>
              snapshot[k].score >= snapshot[i].score
  {
    hide ModeFor;
    assert Eligible(cfg, snapshot[i]);
    var j :| 0 <= j < |order| && order[j] == i;
    forall k, m | 0 <= k < |snapshot| && 0 <= m < |attempts| && snapshot[k].pid == attempts[m].pid
      ensures snapshot[k].score >= snapshot[i].score
    {
      assert k == order[m];
    }
  }

  /** Neither cap is reached before an attempt. */
  lemma ActedCaps(cfg: Config, cands: seq<Stat>, gain: Yield, tracked: map<int, Track>)
    ensures
      var r := Acted(cfg, cands, gain, 0, Tally(tracked, [], 0, 0));
      r.attempts != [] ==>
        var before := r.attempts[..|r.attempts| - 1];
        Sum(before) < cfg.cap && Successes(before) < cfg.maxTargets
  {
    ActedFair(cfg, cands, gain, 0, Tally(tracked, [], 0, 0));
    hide Acted, Sum, Successes;
  }
}
