/** The reclaim engine as an object: the loops of scan, score and act, each proved against EngineSpec. */
module Engine {
  import opened Arith
  import opened Options
  import opened EngineSpec

  /** The group loop shared by mode_for and weight_for. */
  method BestGroup(groups: seq<GroupPolicy>, cgroup: string) returns (best: Option<nat>)
    ensures best == BestOf(groups, cgroup, |groups|)
    ensures best.None? <==> forall j :: 0 <= j < |groups| ==> !Matches(groups[j], cgroup)
    ensures best.Some? ==> IsBest(groups, cgroup, best.value)
    ensures forall i: nat :: IsBest(groups, cgroup, i) ==> best == Some(i)
  {
    best := None;
    var i := 0;
    while i < |groups|
      invariant 0 <= i <= |groups|
      invariant best == BestOf(groups, cgroup, i)
    {
      var g := groups[i];
      if Matches(g, cgroup) {
        if best.None? || |g.prefix| > |groups[best.value].prefix| {
          best := Some(i);
        }
      }
      i := i + 1;
    }
    BestOfIsBest(groups, cgroup, |groups|);
    assert groups[..|groups|] == groups;
    forall i: nat | IsBest(groups, cgroup, i) ensures best == Some(i) {
      assert Matches(groups[i], cgroup);
      BestUnique(groups, cgroup, i, best.value);
    }
  }

  /** The score of one process. */
  method Weigh(anonKb: nat, ratio: real, swapKb: nat, weight: real) returns (score: real)
    ensures score == Score(anonKb, ratio, swapKb, weight)
  {
    var mb := anonKb as real / 1024.0;
    var hot := ratio * 4.0;
    if hot > 1.0 { hot := 1.0; }
    var swap := if swapKb > 0 then 1.3 else 1.0;
    score := mb * (1.0 - hot) * swap * weight;
  }

  /** The emergency and pressure tests of run_cycle. */
  method Gauge(cfg: Config, psi: Psi, mem: Mem) returns (crisis: bool, pressure: bool)
    ensures crisis == Crisis(psi, mem) && pressure == Pressure(cfg, psi, mem)
  {
    crisis := psi.ok && psi.full >= 0.25;
    var ratio := 1.0;
    if mem.total > 0 && mem.available > 0 {
      ratio := mem.available as real / mem.total as real;
      if ratio < 0.05 { crisis := true; }
    }
    pressure := psi.ok && psi.some >= cfg.psiThreshold;
    if mem.total > 0 && mem.available > 0 {
      if ratio < 0.10 {
        pressure := true;
      } else if ratio < 0.15 && psi.some >= cfg.psiLow {
        pressure := true;
      }
    }
  }

  class ReclaimEngine {
    var tracked: map<int, Track>
    var snapshot: seq<Stat>
    var damonOn: bool
    /** The pids whose soft-dirty bits were cleared at least once. */
    ghost var cleared: set<int>

    ghost function Value(): State
      reads this
    {
      State(tracked, snapshot, damonOn, cleared)
    }

    constructor ()
      ensures Value() == State(map[], [], false, {})
    {
      tracked, snapshot, damonOn, cleared := map[], [], false, {};
    }

    /** scan_processes. */
    method Scan(procs: seq<Proc>)
      modifies this
      ensures Value() == Scanned(old(Value()), procs)
    {
      snapshot := [];
      var i := 0;
      while i < |procs|
        invariant 0 <= i <= |procs|
        invariant snapshot == seq(i, k requires 0 <= k < i => Fresh(procs[k]))
        invariant tracked == Admitted(old(tracked), procs[..i])
        invariant damonOn == old(damonOn) && cleared == old(cleared)
      {
        var p := procs[i];
        assert procs[..i + 1][..i] == procs[..i];
        if p.pid !in tracked {
          tracked := tracked[p.pid := NEW_TRACK];
        }
        snapshot := snapshot + [Fresh(p)];
        i := i + 1;
      }
      assert procs[..|procs|] == procs;
    }

    /** The thrash guard of run_cycle. */
    method GuardThrash(faults: seq<(int, nat)>)
      modifies this`tracked
      ensures tracked == GuardedAll(old(tracked), faults)
    {
      var i := 0;
      while i < |faults|
        invariant 0 <= i <= |faults|
        invariant tracked == GuardedAll(old(tracked), faults[..i])
      {
        assert faults[..i + 1][..i] == faults[..i];
        var (pid, n) := faults[i];
        if pid in tracked {
          var tr := tracked[pid];
          if n > THRASH_FAULTS && tr.cooldown > 0 {
            tracked := tracked[pid := tr.(cooldown := Max(tr.cooldown, THRASH_COOLDOWN))];
          }
        }
        i := i + 1;
      }
      assert faults[..|faults|] == faults;
    }

    /** damon_sample, once set_targets has answered. */
    method DamonSample(answer: DamonAnswer)
      modifies this
      ensures Value() == DamonSampled(old(Value()), answer)
    {
      if answer.Some? {
        TrackCold(answer.value);
        var i := 0;
        ghost var was := snapshot;
        while i < |snapshot|
          invariant 0 <= i <= |snapshot| == |was|
          invariant tracked == DamonTracked(old(tracked), answer.value)
          invariant forall k :: 0 <= k < i ==>
                      snapshot[k] ==
                      if was[k].pid in tracked then Chilled(was[k], tracked[was[k].pid].damonColdKb) else was[k]
          invariant forall k :: i <= k < |was| ==> snapshot[k] == was[k]
          invariant damonOn == old(damonOn) && cleared == old(cleared)
        {
          var ps := snapshot[i];
          if ps.pid in tracked {
            if ps.anonKb > 0 {
              var cold := tracked[ps.pid].damonColdKb;
              var d := (if cold < ps.anonKb then cold else ps.anonKb) as real / ps.anonKb as real;
              if d > 0.0 && d <= 1.0 {
                snapshot := snapshot[i := ps.(wsRatio := MinReal(ps.wsRatio, 1.0 - d))];
              }
            }
          }
          i := i + 1;
        }
      }
    }

    /** The loop over the pids of the DAMON snapshot. */
    method TrackCold(answer: seq<(int, seq<DamonRegion>)>)
      modifies this`tracked
      ensures tracked == DamonTracked(old(tracked), answer)
    {
      var i := 0;
      while i < |answer|
        invariant 0 <= i <= |answer|
        invariant tracked == DamonTracked(old(tracked), answer[..i])
      {
        assert answer[..i + 1][..i] == answer[..i];
        var (pid, regs) := answer[i];
        if pid in tracked {
          var cold, age := SumRegions(regs);
          tracked := tracked[pid := tracked[pid].(damonColdKb := cold, damonAgeMax := age)];
        }
        i := i + 1;
      }
      assert answer[..|answer|] == answer;
    }

    /** The loop over one process's regions. */
    method SumRegions(regs: seq<DamonRegion>) returns (cold: nat, age: nat)
      ensures cold == ColdKb(regs) && age == AgeMax(regs)
    {
      cold, age := 0, 0;
      var i := 0;
      while i < |regs|
        invariant 0 <= i <= |regs|
        invariant cold == ColdKb(regs[..i]) && age == AgeMax(regs[..i])
      {
        assert regs[..i + 1][..i] == regs[..i];
        var r := regs[i];
        if r.accesses == 0 {
          var kb := Quotient(Sub64(r.end, r.start), 1024);
          cold := (cold + (if kb < 0xFFFF_FFFF then kb else 0xFFFF_FFFF)) % 0x1_0000_0000;
        }
        if r.age > age { age := r.age; }
        i := i + 1;
      }
      assert regs[..|regs|] == regs;
    }

    /** compute_scores. */
    method ComputeScores(cfg: Config, sample: int -> Sample, answer: DamonAnswer)
      modifies this
      ensures Value() == Computed(cfg, old(Value()), sample, answer)
    {
      if damonOn {
        DamonSample(answer);
      }
      ghost var begin := Value();
      var i := 0;
      while i < |snapshot|
        invariant 0 <= i <= |snapshot|
        invariant ScoredFrom(cfg, Value(), i, sample) == ScoredFrom(cfg, begin, 0, sample)
      {
        ghost var was := Value();
        ScoreOne(cfg, i, sample);
        assert ScoredFrom(cfg, was, i, sample) == ScoredFrom(cfg, ScoredAt(cfg, was, i, sample), i + 1, sample);
        i := i + 1;
      }
    }

    /** One turn of the scoring loop. */
    method ScoreOne(cfg: Config, i: nat, sample: int -> Sample)
      requires i < |snapshot|
      modifies this
      ensures Value() == ScoredAt(cfg, old(Value()), i, sample)
    {
      hide Score, WeightFor;
      var ps := snapshot[i];
      if ps.pid !in tracked { return; }
      var tr := tracked[ps.pid];
      if !damonOn && ps.anonKb > cfg.minReclaimableMb * 1024 / 2 {
        if tr.samples == 0 {
          cleared := cleared + {ps.pid};
        } else {
          var ws := sample(ps.pid);
          if ws.ok && ws.totalKb > 0 {
            tr := tr.(touchedKb := ws.touchedKb);
            ps := ps.(wsRatio := ws.touchedKb as real / ws.totalKb as real);
            ps := ps.(anonKb := if ps.anonKb < ws.totalKb then ws.totalKb else ps.anonKb);
          }
        }
        tr := tr.(samples := tr.samples + 1);
      } else if !damonOn {
        ps := ps.(wsRatio := 1.0);
      }
      var w := PolicyWeight(cfg, ps.cgroup);
      var score := Weigh(ps.anonKb, ps.wsRatio, ps.swapKb, w);
      ps := ps.(score := score);
      if tr.cooldown > 0 {
        tr := tr.(cooldown := tr.cooldown - 1);
        ps := ps.(score := 0.0);
      }
      tracked := tracked[ps.pid := tr];
      snapshot := snapshot[i := ps];
    }

    /** The candidates of run_actions, in snapshot order. */
    method Candidates(cfg: Config) returns (cands: seq<nat>)
      ensures forall k :: 0 <= k < |cands| ==> cands[k] < |snapshot| && Eligible(cfg, snapshot[cands[k]])
      ensures forall i :: 0 <= i < |snapshot| && Eligible(cfg, snapshot[i]) ==> i in cands
      ensures forall k, m :: 0 <= k < m < |cands| ==> cands[k] < cands[m]
    {
      cands := [];
      var i := 0;
      while i < |snapshot|
        invariant 0 <= i <= |snapshot|
        invariant forall k :: 0 <= k < |cands| ==> cands[k] < i && Eligible(cfg, snapshot[cands[k]])
        invariant forall j :: 0 <= j < i && Eligible(cfg, snapshot[j]) ==> j in cands
        invariant forall k, m :: 0 <= k < m < |cands| ==> cands[k] < cands[m]
      {
        var ps := snapshot[i];
        if !(ps.score < cfg.minScore) && !(ps.anonKb < cfg.minReclaimableMb * 1024) {
          cands := cands + [i];
        }
        i := i + 1;
      }
    }

    /** The sort by falling score. Callers know only that the result is sorted. */
    method SortByScore(cfg: Config, cands: seq<nat>) returns (order: seq<nat>)
      requires forall k :: 0 <= k < |cands| ==> cands[k] < |snapshot| && Eligible(cfg, snapshot[cands[k]])
      requires forall i :: 0 <= i < |snapshot| && Eligible(cfg, snapshot[i]) ==> i in cands
      requires forall k, m :: 0 <= k < m < |cands| ==> cands[k] < cands[m]
      ensures Ranked(cfg, snapshot, order)
    {
      order := [];
      var i := 0;
      while i < |cands|
        invariant 0 <= i <= |cands|
        invariant SortedSoFar(cands[..i], order)
      {
        var k := 0;
        while k < |order| && snapshot[order[k]].score >= snapshot[cands[i]].score
          invariant 0 <= k <= |order|
          invariant forall m :: 0 <= m < k ==> snapshot[order[m]].score >= snapshot[cands[i]].score
        {
          k := k + 1;
        }
        Inserted(cands, i, order, k);
        order := order[..k] + [cands[i]] + order[k..];
        i := i + 1;
      }
      assert cands[..|cands|] == cands;
    }

    /** `order` holds the given candidates, each once, by falling score. */
    ghost predicate SortedSoFar(cands: seq<nat>, order: seq<nat>)
      reads this
    {
      && (forall k :: 0 <= k < |order| ==> order[k] < |snapshot| && order[k] in cands)
      && (forall c :: c in cands ==> c in order)
      && (forall k, m :: 0 <= k < m < |order| ==> order[k] != order[m])
      && (forall k, m :: 0 <= k < m < |order| ==> snapshot[order[k]].score >= snapshot[order[m]].score)
    }

    lemma Inserted(cands: seq<nat>, i: nat, order: seq<nat>, k: nat)
      requires i < |cands| && (forall j :: 0 <= j < |cands| ==> cands[j] < |snapshot|)
      requires forall a, b :: 0 <= a < b < |cands| ==> cands[a] < cands[b]
      requires SortedSoFar(cands[..i], order) && k <= |order|
      requires forall m :: 0 <= m < k ==> snapshot[order[m]].score >= snapshot[cands[i]].score
      requires k < |order| ==> snapshot[order[k]].score < snapshot[cands[i]].score
      ensures SortedSoFar(cands[..i + 1], order[..k] + [cands[i]] + order[k..])
    {
      var c := cands[i];
      var next := order[..k] + [c] + order[k..];
      assert cands[..i + 1] == cands[..i] + [c];
      forall m | 0 <= m < |order| ensures order[m] != c {
        assert order[m] in cands[..i];
      }
      InsertedMembers(cands[..i], order, c, k);
      InsertedSorted(order, c, k);
    }

    lemma InsertedMembers(cands: seq<nat>, order: seq<nat>, c: nat, k: nat)
      requires k <= |order|
      requires (forall m :: 0 <= m < |order| ==> order[m] in cands) && (forall x :: x in cands ==> x in order)
      ensures
        var next := order[..k] + [c] + order[k..];
        && (forall m :: 0 <= m < |next| ==> next[m] in cands + [c])
        && (forall x :: x in cands + [c] ==> x in next)
    {
      var next := order[..k] + [c] + order[k..];
      forall x | x in cands + [c] ensures x in next {
        if x in order {
          var m :| 0 <= m < |order| && order[m] == x;
          assert next[if m < k then m else m + 1] == x;
        } else {
          assert next[k] == c;
        }
      }
      forall m | 0 <= m < |next| ensures next[m] in cands + [c] {
        assert next[m] == if m < k then order[m] else if m == k then c else order[m - 1];
      }
    }

    lemma InsertedSorted(order: seq<nat>, c: nat, k: nat)
      requires k <= |order| && c < |snapshot|
      requires forall m :: 0 <= m < |order| ==> order[m] < |snapshot| && order[m] != c
      requires forall a, b :: 0 <= a < b < |order| ==> order[a] != order[b]
      requires forall a, b :: 0 <= a < b < |order| ==> snapshot[order[a]].score >= snapshot[order[b]].score
      requires forall m :: 0 <= m < k ==> snapshot[order[m]].score >= snapshot[c].score
      requires k < |order| ==> snapshot[order[k]].score < snapshot[c].score
      ensures
        var next := order[..k] + [c] + order[k..];
        && (forall m :: 0 <= m < |next| ==> next[m] < |snapshot|)
        && (forall a, b :: 0 <= a < b < |next| ==> next[a] != next[b])
        && (forall a, b :: 0 <= a < b < |next| ==> snapshot[next[a]].score >= snapshot[next[b]].score)
    {
      var next := order[..k] + [c] + order[k..];
      forall m | 0 <= m < |next| ensures next[m] == if m < k then order[m] else if m == k then c else order[m - 1] {}
      forall m | k <= m < |order| ensures snapshot[order[m]].score <= snapshot[c].score {}
    }

    /** run_actions; `gain` says what each attempt yields. */
    method RunActions(cfg: Config, gain: Yield)
      returns (order: seq<nat>, attempts: seq<Attempt>, total: nat)
      modifies this`tracked
      ensures Ranked(cfg, snapshot, order)
      ensures
        var r := Acted(cfg, InOrder(snapshot, order), gain, 0, Tally(old(tracked), [], 0, 0));
        tracked == r.tracked && attempts == r.attempts && total == r.total
    {
      var cands := Candidates(cfg);
      order := SortByScore(cfg, cands);
      attempts, total := TryAll(cfg, InOrder(snapshot, order), gain);
    }

    /** The action loop. */
    method TryAll(cfg: Config, cands: seq<Stat>, gain: Yield) returns (attempts: seq<Attempt>, total: nat)
      modifies this`tracked
      ensures
        var r := Acted(cfg, cands, gain, 0, Tally(old(tracked), [], 0, 0));
        tracked == r.tracked && attempts == r.attempts && total == r.total
    {
      attempts, total := [], 0;
      var acted := 0;
      var k := 0;
      while k < |cands|
        invariant 0 <= k <= |cands|
        invariant Acted(cfg, cands, gain, k, Tally(tracked, attempts, total, acted)) ==
                  Acted(cfg, cands, gain, 0, Tally(old(tracked), [], 0, 0))
      {
        if acted >= cfg.maxTargets { break; }
        if total >= cfg.cap { break; }
        var pid := cands[k].pid;
        var mode := PolicyMode(cfg, cands[k].cgroup);
        var got := gain(pid, mode);
        attempts := attempts + [Attempt(pid, mode, got)];
        if got.Some? && got.value > 0 {
          total := total + got.value;
          acted := acted + 1;
          var tr := if pid in tracked then tracked[pid] else NEW_TRACK;
          tracked := tracked[pid := tr.(cooldown := ACTION_COOLDOWN)];
        }
        k := k + 1;
      }
    }

    /** mode_for. */
    method PolicyMode(cfg: Config, cgroup: string) returns (mode: Mode)
      ensures mode == ModeFor(cfg, cgroup)
    {
      var best := BestGroup(cfg.groups, cgroup);
      if best.Some? {
        mode := if cfg.groups[best.value].mode == 1 then ColdOnly else Pageout;
      } else {
        mode := if cfg.defaultCold then ColdOnly else Pageout;
      }
    }

    /** weight_for. */
    method PolicyWeight(cfg: Config, cgroup: string) returns (w: real)
      ensures w == WeightFor(cfg, cgroup)
    {
      w := 1.0;
      var best := BestGroup(cfg.groups, cgroup);
      if best.Some? { w := cfg.groups[best.value].weight; }
    }

    /** run_cycle and force_cycle; `order` is the sort's answer. */
    method RunCycle(x: Input) returns (order: seq<nat>, report: Report)
      requires DistinctPids(x.procs)
      modifies this
      ensures
        var y := x.(order := order);
        Valid(old(Value()), y) && (Value(), report) == Cycle(old(Value()), y)
    {
      order := [];
      Scan(x.procs);
      damonOn := damonOn || x.damonStarts;
      var pressure := true;
      if x.kind.Run? {
        var crisis;
        crisis, pressure := Gauge(x.cfg, x.psi, x.mem);
        if crisis { return order, Report(false, []); }
        GuardThrash(x.faults);
      }
      ComputeScores(x.cfg, x.sample, x.damonAnswer);
      if x.kind.Run? && !pressure && !x.cfg.dryRun { return order, Report(true, []); }
      var attempts, total;
      order, attempts, total := RunActions(x.cfg, x.gain);
      report := Report(true, attempts);
    }
  }
}
