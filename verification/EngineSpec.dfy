/** The reclaim engine as values: policies, scores, the action loop, and one cycle as a function of the
    state and of what the cycle observes. Scores and ratios are reals. */
module EngineSpec {
  import opened Arith
  import opened Options

  // ---------------------------------------------------------------- data

  datatype GroupPolicy = GroupPolicy(prefix: string, weight: real, mode: int)

  datatype Mode = Pageout | ColdOnly

  /** `cap` is the bound the action loop compares its total with. */
  datatype Config = Config(
    minScore: real, minReclaimableMb: nat, maxTargets: nat, cap: nat,
    psiThreshold: real, psiLow: real, dryRun: bool, defaultCold: bool, groups: seq<GroupPolicy>)

  /** What scan_processes reads of a process. */
  datatype Proc = Proc(pid: int, cgroup: string, anonKb: nat, swapKb: nat)

  datatype Stat = Stat(pid: int, cgroup: string, anonKb: nat, swapKb: nat, wsRatio: real, score: real)

  datatype Track = Track(samples: nat, cooldown: int, touchedKb: nat, damonColdKb: nat, damonAgeMax: nat)

  datatype Sample = Sample(ok: bool, totalKb: nat, touchedKb: nat)

  datatype Psi = Psi(ok: bool, some: real, full: real)

  datatype Mem = Mem(total: nat, available: nat)

  const NEW_TRACK := Track(0, 0, 0, 0, 0)
  const ACTION_COOLDOWN: int := 5
  const THRASH_COOLDOWN: int := 20
  const THRASH_FAULTS: nat := 20000

  /** The engine's fields; `cleared` records the pids whose soft-dirty bits it has tried to clear. */
  datatype State = State(tracked: map<int, Track>, snapshot: seq<Stat>, damonOn: bool, cleared: set<int>)

  /** An attempt on a process in the mode of its policy: None when the pidfd could not be opened, else the
      amount gained. */
  datatype Attempt = Attempt(pid: int, mode: Mode, gain: Option<nat>)

  function Max(a: int, b: int): int { if a < b then b else a }

  function MinReal(a: real, b: real): real { if a < b then a else b }

  // ---------------------------------------------------------------- policies

  predicate Matches(g: GroupPolicy, cgroup: string) { g.prefix <= cgroup }

  /** The policy in force: the longest matching prefix, the first of equals. */
  predicate IsBest(groups: seq<GroupPolicy>, cgroup: string, i: nat) {
    && i < |groups| && Matches(groups[i], cgroup)
    && forall j :: 0 <= j < |groups| && Matches(groups[j], cgroup) ==>
         |groups[j].prefix| < |groups[i].prefix| || (|groups[j].prefix| == |groups[i].prefix| && i <= j)
  }

  lemma BestUnique(groups: seq<GroupPolicy>, cgroup: string, i: nat, j: nat)
    requires IsBest(groups, cgroup, i) && IsBest(groups, cgroup, j)
    ensures i == j
  {}

  /** Matching prefixes of equal length are equal, so the order of the policies decides only between
      policies for the same prefix. */
  lemma EqualLengthSamePrefix(groups: seq<GroupPolicy>, cgroup: string, i: nat, j: nat)
    requires i < |groups| && j < |groups| && Matches(groups[i], cgroup) && Matches(groups[j], cgroup)
    requires |groups[i].prefix| == |groups[j].prefix|
    ensures groups[i].prefix == groups[j].prefix
  {
    assert groups[i].prefix == cgroup[..|groups[i].prefix|];
  }

  /** The choice of the source's loop over the first n policies. */
  function BestOf(groups: seq<GroupPolicy>, cgroup: string, n: nat): (best: Option<nat>)
    requires n <= |groups|
    ensures best.Some? ==> best.value < n
  {
    if n == 0 then None
    else
      var best := BestOf(groups, cgroup, n - 1);
      if Matches(groups[n - 1], cgroup) && (best.None? || |groups[n - 1].prefix| > |groups[best.value].prefix|)
      then Some(n - 1) else best
  }

  lemma {:induction false} BestOfIsBest(groups: seq<GroupPolicy>, cgroup: string, n: nat)
    requires n <= |groups|
    ensures
      match BestOf(groups, cgroup, n)
      case None => forall j :: 0 <= j < n ==> !Matches(groups[j], cgroup)
      case Some(i) => IsBest(groups[..n], cgroup, i)
  {
    if n > 0 {
      BestOfIsBest(groups, cgroup, n - 1);
    }
  }

  function Policy(cfg: Config, cgroup: string): Option<GroupPolicy> {
    match BestOf(cfg.groups, cgroup, |cfg.groups|)
    case None => None
    case Some(i) => Some(cfg.groups[i])
  }

  function WeightFor(cfg: Config, cgroup: string): real {
    match Policy(cfg, cgroup)
    case None => 1.0
    case Some(g) => g.weight
  }

  function ModeFor(cfg: Config, cgroup: string): Mode {
    match Policy(cfg, cgroup)
    case None => if cfg.defaultCold then ColdOnly else Pageout
    case Some(g) => if g.mode == 1 then ColdOnly else Pageout
  }

  // ---------------------------------------------------------------- scores

  function Score(anonKb: nat, ratio: real, swapKb: nat, weight: real): real {
    var mb := anonKb as real / 1024.0;
    var cold := 1.0 - MinReal(1.0, ratio * 4.0);
    var swap := if swapKb > 0 then 1.3 else 1.0;
    mb * cold * swap * weight
  }

  predicate Sampled(cfg: Config, ps: Stat, damonOn: bool) {
    !damonOn && ps.anonKb > cfg.minReclaimableMb * 1024 / 2
  }

  /** The soft-dirty sampler on one process: the first time it only clears the bits. */
  function Measured(cfg: Config, ps: Stat, tr: Track, ws: Sample, damonOn: bool): (Stat, Track) {
    if Sampled(cfg, ps, damonOn) then
      var again := tr.(samples := tr.samples + 1);
      if tr.samples > 0 && ws.ok && ws.totalKb > 0 then
        (ps.(wsRatio := ws.touchedKb as real / ws.totalKb as real,
             anonKb := if ps.anonKb < ws.totalKb then ws.totalKb else ps.anonKb),
         again.(touchedKb := ws.touchedKb))
      else (ps, again)
    else if !damonOn then (ps.(wsRatio := 1.0), tr)
    else (ps, tr)
  }

  /** compute_scores on one process. */
  function Scored(cfg: Config, ps: Stat, tr: Track, ws: Sample, damonOn: bool): (Stat, Track) {
    var (p, t) := Measured(cfg, ps, tr, ws, damonOn);
    var s := Score(p.anonKb, p.wsRatio, p.swapKb, WeightFor(cfg, p.cgroup));
    if t.cooldown > 0 then (p.(score := 0.0), t.(cooldown := t.cooldown - 1))
    else (p.(score := s), t)
  }

  /** compute_scores on the processes from index i on. */
  function ScoredFrom(cfg: Config, s: State, i: nat, sample: int -> Sample): State
    requires i <= |s.snapshot|
    decreases |s.snapshot| - i
  {
    if i == |s.snapshot| then s else ScoredFrom(cfg, ScoredAt(cfg, s, i, sample), i + 1, sample)
  }

  function ScoredAt(cfg: Config, s: State, i: nat, sample: int -> Sample): (t: State)
    requires i < |s.snapshot|
    ensures |t.snapshot| == |s.snapshot|
  {
    var ps := s.snapshot[i];
    if ps.pid !in s.tracked then s
    else
      var tr := s.tracked[ps.pid];
      var (p, t) := Scored(cfg, ps, tr, sample(ps.pid), s.damonOn);
      s.(snapshot := s.snapshot[i := p], tracked := s.tracked[ps.pid := t],
         cleared := if Sampled(cfg, ps, s.damonOn) && tr.samples == 0 then s.cleared + {ps.pid} else s.cleared)
  }

  // ---------------------------------------------------------------- DAMON

  const WORD32: nat := 0x1_0000_0000

  datatype DamonRegion = DamonRegion(start: nat, end: nat, accesses: nat, age: nat)

  /** Pids with their regions, as the DAMON snapshot lists them; None when set_targets fails. */
  type DamonAnswer = Option<seq<(int, seq<DamonRegion>)>>

  /** A region's size in kilobytes, cut off at 32 bits. */
  function RegionKb(r: DamonRegion): nat {
    var kb := Quotient(Sub64(r.end, r.start), 1024);
    if kb < WORD32 - 1 then kb else WORD32 - 1
  }

  /** The memory in regions without accesses, summed in a 32-bit counter. */
  function ColdKb(regs: seq<DamonRegion>): nat {
    if regs == [] then 0
    else
      var r := regs[|regs| - 1];
      var sum := ColdKb(regs[..|regs| - 1]);
      if r.accesses == 0 then (sum + RegionKb(r)) % WORD32 else sum
  }

  function AgeMax(regs: seq<DamonRegion>): nat {
    if regs == [] then 0
    else
      var r := regs[|regs| - 1];
      var rest := AgeMax(regs[..|regs| - 1]);
      if r.age > rest then r.age else rest
  }

  function Chilled(ps: Stat, coldKb: nat): Stat {
    if ps.anonKb == 0 then ps
    else
      var d := (if coldKb < ps.anonKb then coldKb else ps.anonKb) as real / ps.anonKb as real;
      if 0.0 < d <= 1.0 then ps.(wsRatio := MinReal(ps.wsRatio, 1.0 - d)) else ps
  }

  function DamonTracked(tracked: map<int, Track>, answer: seq<(int, seq<DamonRegion>)>): map<int, Track> {
    if answer == [] then tracked
    else
      var n := |answer| - 1;
      var t := DamonTracked(tracked, answer[..n]);
      var (pid, regs) := answer[n];
      if pid in t then t[pid := t[pid].(damonColdKb := ColdKb(regs), damonAgeMax := AgeMax(regs))] else t
  }

  function DamonSampled(s: State, answer: DamonAnswer): State {
    match answer
    case None => s
    case Some(regions) =>
      var tracked := DamonTracked(s.tracked, regions);
      s.(tracked := tracked,
         snapshot := seq(|s.snapshot|, i requires 0 <= i < |s.snapshot| =>
           var ps := s.snapshot[i];
           if ps.pid in tracked then Chilled(ps, tracked[ps.pid].damonColdKb) else ps))
  }

  function Computed(cfg: Config, s: State, sample: int -> Sample, answer: DamonAnswer): State {
    ScoredFrom(cfg, if s.damonOn then DamonSampled(s, answer) else s, 0, sample)
  }

  // ---------------------------------------------------------------- actions

  predicate Eligible(cfg: Config, ps: Stat) {
    !(ps.score < cfg.minScore) && !(ps.anonKb < cfg.minReclaimableMb * 1024)
  }

  /** `order` lists the eligible processes, each once, by falling score. Ties may stand either way. */
  ghost predicate Ranked(cfg: Config, snapshot: seq<Stat>, order: seq<nat>) {
    && (forall k :: 0 <= k < |order| ==> order[k] < |snapshot|)
    && (forall i :: 0 <= i < |snapshot| && Eligible(cfg, snapshot[i]) ==> i in order)
    && (forall k :: 0 <= k < |order| ==> Eligible(cfg, snapshot[order[k]]))
    && (forall k, m :: 0 <= k < m < |order| ==> order[k] != order[m])
    && (forall k, m :: 0 <= k < m < |order| ==> snapshot[order[k]].score >= snapshot[order[m]].score)
  }

  datatype Tally = Tally(tracked: map<int, Track>, attempts: seq<Attempt>, total: nat, acted: nat)

  predicate Stopped(cfg: Config, t: Tally) { t.acted >= cfg.maxTargets || t.total >= cfg.cap }

  /** What an attempt on a process yields depends on the process and on the mode. */
  type Yield = (int, Mode) -> Option<nat>

  function AttemptOn(cfg: Config, ps: Stat, gain: Yield): Attempt {
    var mode := ModeFor(cfg, ps.cgroup);
    Attempt(ps.pid, mode, gain(ps.pid, mode))
  }

  /** One turn of the action loop. */
  function Tried(t: Tally, a: Attempt): Tally {
    var attempts := t.attempts + [a];
    match a.gain
    case None => t.(attempts := attempts)
    case Some(g) =>
      if g == 0 then t.(attempts := attempts)
      else
        var tr := if a.pid in t.tracked then t.tracked[a.pid] else NEW_TRACK;
        Tally(t.tracked[a.pid := tr.(cooldown := ACTION_COOLDOWN)], attempts, t.total + g, t.acted + 1)
  }

  /** The action loop over the candidates from position k on. */
  function Acted(cfg: Config, cands: seq<Stat>, gain: Yield, k: nat, t: Tally): Tally
    requires k <= |cands|
    decreases |cands| - k
  {
    if k == |cands| || Stopped(cfg, t) then t
    else Acted(cfg, cands, gain, k + 1, Tried(t, AttemptOn(cfg, cands[k], gain)))
  }

  function InOrder(snapshot: seq<Stat>, order: seq<nat>): seq<Stat>
    requires forall k :: 0 <= k < |order| ==> order[k] < |snapshot|
  {
    seq(|order|, k requires 0 <= k < |order| => snapshot[order[k]])
  }

  // ---------------------------------------------------------------- cycles

  datatype Kind = Run | Force

  /** Everything a cycle observes: a scan, the pressure files, the fault counters, the samples, the
      tie-breaking of the sort and the outcome of each attempt. */
  datatype Input = Input(
    kind: Kind, cfg: Config, procs: seq<Proc>, damonStarts: bool, damonAnswer: DamonAnswer,
    psi: Psi, mem: Mem, faults: seq<(int, nat)>, sample: int -> Sample,
    order: seq<nat>, gain: Yield)

  /** What a cycle did: whether it scored, and the attempts it made in order. */
  datatype Report = Report(scored: bool, attempts: seq<Attempt>)

  function Fresh(p: Proc): Stat { Stat(p.pid, p.cgroup, p.anonKb, p.swapKb, 1.0, 0.0) }

  /** scan_processes: a fresh snapshot, and an entry for every pid seen. */
  function Scanned(s: State, procs: seq<Proc>): State {
    s.(snapshot := seq(|procs|, i requires 0 <= i < |procs| => Fresh(procs[i])), tracked := Admitted(s.tracked, procs))
  }

  function Admitted(tracked: map<int, Track>, procs: seq<Proc>): map<int, Track> {
    if procs == [] then tracked
    else
      var rest := Admitted(tracked, procs[..|procs| - 1]);
      var p := procs[|procs| - 1].pid;
      if p in rest then rest else rest[p := NEW_TRACK]
  }

  function AvailRatio(mem: Mem): real {
    if mem.total > 0 && mem.available > 0 then mem.available as real / mem.total as real else 1.0
  }

  predicate Crisis(psi: Psi, mem: Mem) {
    (psi.ok && psi.full >= 0.25) || (mem.total > 0 && mem.available > 0 && AvailRatio(mem) < 0.05)
  }

  predicate Pressure(cfg: Config, psi: Psi, mem: Mem) {
    || (psi.ok && psi.some >= cfg.psiThreshold)
    || (mem.total > 0 && mem.available > 0 &&
          (AvailRatio(mem) < 0.10 || (AvailRatio(mem) < 0.15 && psi.some >= cfg.psiLow)))
  }

  /** The thrash guard on one fault count. */
  function Guarded(tracked: map<int, Track>, pid: int, n: nat): map<int, Track> {
    if pid in tracked && n > THRASH_FAULTS && tracked[pid].cooldown > 0
    then tracked[pid := tracked[pid].(cooldown := Max(tracked[pid].cooldown, THRASH_COOLDOWN))]
    else tracked
  }

  function GuardedAll(tracked: map<int, Track>, faults: seq<(int, nat)>): map<int, Track> {
    if faults == [] then tracked
    else
      var n := |faults| - 1;
      Guarded(GuardedAll(tracked, faults[..n]), faults[n].0, faults[n].1)
  }

  /** A cycle up to the point where scores are computed. Faults are empty when the tracer is off. */
  function Prepared(s: State, x: Input): State {
    var t := Scanned(s, x.procs);
    var u := t.(damonOn := t.damonOn || x.damonStarts);
    if x.kind.Run? then u.(tracked := GuardedAll(u.tracked, x.faults)) else u
  }

  predicate Paused(x: Input) { x.kind.Run? && Crisis(x.psi, x.mem) }

  function ScoresOf(s: State, x: Input): State { Computed(x.cfg, Prepared(s, x), x.sample, x.damonAnswer) }

  predicate Acts(x: Input) { x.kind.Force? || Pressure(x.cfg, x.psi, x.mem) || x.cfg.dryRun }

  /** run_cycle and force_cycle. */
  ghost function Cycle(s: State, x: Input): (State, Report)
    requires Valid(s, x)
  {
    if Paused(x) then
      var t := Scanned(s, x.procs);
      (t.(damonOn := t.damonOn || x.damonStarts), Report(false, []))
    else
      var c := ScoresOf(s, x);
      if Acts(x) then
        var r := Acted(x.cfg, InOrder(c.snapshot, x.order), x.gain, 0, Tally(c.tracked, [], 0, 0));
        (c.(tracked := r.tracked), Report(true, r.attempts))
      else (c, Report(true, []))
  }

  ghost predicate DistinctPids(procs: seq<Proc>) {
    forall i, j :: 0 <= i < j < |procs| ==> procs[i].pid != procs[j].pid
  }

  /** A process is listed once, and the order is one that sorting by score can produce. */
  ghost predicate Valid(s: State, x: Input) {
    && DistinctPids(x.procs)
    && (!Paused(x) && Acts(x) ==> Ranked(x.cfg, ScoresOf(s, x).snapshot, x.order))
  }
}
