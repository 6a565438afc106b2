/** Properties of one cycle of the reclaim engine, and of any sequence of cycles. */
module EngineProofs {
  import opened Options
  import opened EngineSpec

  // ---------------------------------------------------------------- scores

  lemma ScoreBounds(anonKb: nat, ratio: real, swapKb: nat, weight: real)
    requires 0.0 <= ratio && 0.0 <= weight
    ensures 0.0 <= Score(anonKb, ratio, swapKb, weight) <= 1.3 * weight * (anonKb as real / 1024.0)
  {
    var mb := anonKb as real / 1024.0;
    var cold := 1.0 - MinReal(1.0, ratio * 4.0);
    var swap := if swapKb > 0 then 1.3 else 1.0;
    assert 0.0 <= cold <= 1.0;
    hide MinReal;
    Shrink(mb, cold);
    Scale(mb * cold, swap, mb, 1.3);
    Scale(mb * cold * swap, weight, mb * 1.3, weight);
    Regroup(mb, weight);
  }

  lemma Shrink(a: real, b: real)
    requires 0.0 <= a && 0.0 <= b <= 1.0
    ensures 0.0 <= a * b <= a
  {}

  lemma Scale(a: real, b: real, x: real, y: real)
    requires 0.0 <= a <= x && 0.0 <= b <= y
    ensures 0.0 <= a * b <= x * y
  {
    RealMono(a, x, b);
    RealMono(b, y, x);
    assert x * b == b * x && y * x == x * y;
  }

  lemma RealMono(a: real, b: real, m: real)
    requires a <= b && 0.0 <= m
    ensures a * m <= b * m
  {}

  lemma Regroup(mb: real, weight: real)
    ensures mb * 1.3 * weight == 1.3 * weight * mb
  {}

  /** Only a process with less than a quarter of its sampled memory touched can score above zero, whatever
      the weight. */
  lemma PositiveScoreIsCold(anonKb: nat, ratio: real, swapKb: nat, weight: real)
    requires Score(anonKb, ratio, swapKb, weight) > 0.0
    ensures ratio * 4.0 < 1.0
  {}

  lemma QuarterShare(touched: nat, total: nat)
    requires total > 0 && touched as real / total as real * 4.0 < 1.0
    ensures 4 * touched < total
  {
    var r := touched as real / total as real;
    assert r * total as real == touched as real;
    if 4 * touched >= total {
      assert 4.0 * touched as real >= total as real;
      assert (r * 4.0) * total as real == 4.0 * touched as real;
      RealStrict(r * 4.0, 1.0, total as real);
    }
  }

  lemma RealStrict(a: real, b: real, m: real)
    requires a < b && 0.0 < m
    ensures a * m < b * m
  {}

  lemma ScoredKeepsPid(cfg: Config, ps: Stat, tr: Track, ws: Sample, damonOn: bool)
    ensures Scored(cfg, ps, tr, ws, damonOn).0.pid == ps.pid
  {}

  // ---------------------------------------------------------------- compute_scores, process by process

  ghost predicate OncePerPid(snapshot: seq<Stat>) {
    forall i, j :: 0 <= i < j < |snapshot| ==> snapshot[i].pid != snapshot[j].pid
  }

  /** Between s and t every process from index i on was scored once, from its own entry; nothing else
      changed. */
  ghost predicate ScoredOnce(cfg: Config, s: State, t: State, i: nat, sample: int -> Sample) {
    && |t.snapshot| == |s.snapshot| && t.tracked.Keys == s.tracked.Keys && t.damonOn == s.damonOn
    && (forall k :: 0 <= k < |s.snapshot| ==> t.snapshot[k].pid == s.snapshot[k].pid)
    && (forall k :: 0 <= k < i && k < |s.snapshot| ==> t.snapshot[k] == s.snapshot[k])
    && (forall k :: i <= k < |s.snapshot| && s.snapshot[k].pid in s.tracked ==> ScoredHere(cfg, s, t, k, sample))
    && (forall p :: p in s.tracked && (forall k :: i <= k < |s.snapshot| ==> s.snapshot[k].pid != p) ==>
          t.tracked[p] == s.tracked[p])
    && s.cleared <= t.cleared
  }

  ghost predicate ScoredHere(cfg: Config, s: State, t: State, k: nat, sample: int -> Sample)
    requires k < |s.snapshot| && |t.snapshot| == |s.snapshot|
    requires s.snapshot[k].pid in s.tracked && t.tracked.Keys == s.tracked.Keys
  {
    var ps := s.snapshot[k];
    && (t.snapshot[k], t.tracked[ps.pid]) == Scored(cfg, ps, s.tracked[ps.pid], sample(ps.pid), s.damonOn)
    && (Sampled(cfg, ps, s.damonOn) && s.tracked[ps.pid].samples == 0 ==> ps.pid in t.cleared)
  }

  lemma {:induction false} ScoredFromOnce(cfg: Config, s: State, i: nat, sample: int -> Sample)
    requires i <= |s.snapshot| && OncePerPid(s.snapshot)
    ensures ScoredOnce(cfg, s, ScoredFrom(cfg, s, i, sample), i, sample)
    decreases |s.snapshot| - i
  {
    if i < |s.snapshot| {
      var u := ScoredAt(cfg, s, i, sample);
      ScoredAtOne(cfg, s, i, sample);
      ScoredFromOnce(cfg, u, i + 1, sample);
      Chain(cfg, s, u, ScoredFrom(cfg, u, i + 1, sample), i, sample);
    }
  }

  lemma ScoredAtOne(cfg: Config, s: State, i: nat, sample: int -> Sample)
    requires i < |s.snapshot| && OncePerPid(s.snapshot)
    ensures
      var u := ScoredAt(cfg, s, i, sample);
      && OncePerPid(u.snapshot) && u.tracked.Keys == s.tracked.Keys && u.damonOn == s.damonOn && s.cleared <= u.cleared
      && |u.snapshot| == |s.snapshot| && u.snapshot[i].pid == s.snapshot[i].pid
      && (forall k :: 0 <= k < |s.snapshot| && k != i ==> u.snapshot[k] == s.snapshot[k])
      && (s.snapshot[i].pid in s.tracked ==> ScoredHere(cfg, s, u, i, sample))
      && (forall p :: p in s.tracked && p != s.snapshot[i].pid ==> u.tracked[p] == s.tracked[p])
  {
    var ps := s.snapshot[i];
    if ps.pid in s.tracked { ScoredKeepsPid(cfg, ps, s.tracked[ps.pid], sample(ps.pid), s.damonOn); }
    hide Scored;
  }

  lemma Chain(cfg: Config, s: State, u: State, t: State, i: nat, sample: int -> Sample)
    requires i < |s.snapshot| && OncePerPid(s.snapshot) && u == ScoredAt(cfg, s, i, sample)
    requires ScoredOnce(cfg, u, t, i + 1, sample)
    ensures ScoredOnce(cfg, s, t, i, sample)
  {
    ScoredAtOne(cfg, s, i, sample);
    hide Scored, Sampled, ScoredAt;
    var me := s.snapshot[i].pid;
    forall k | i <= k < |s.snapshot| && s.snapshot[k].pid in s.tracked ensures ScoredHere(cfg, s, t, k, sample) {
      if k > i {
        assert ScoredHere(cfg, u, t, k, sample);
      } else {
        assert ScoredHere(cfg, s, u, i, sample);
      }
    }
    forall p | p in s.tracked && (forall k :: i <= k < |s.snapshot| ==> s.snapshot[k].pid != p)
      ensures t.tracked[p] == s.tracked[p]
    {
      assert s.snapshot[i].pid != p;
      forall k | i + 1 <= k < |u.snapshot| ensures u.snapshot[k].pid != p { assert s.snapshot[k].pid != p; }
    }
  }

  // ---------------------------------------------------------------- the scan and the thrash guard

  function Cool(tracked: map<int, Track>, p: int): int { if p in tracked then tracked[p].cooldown else 0 }

  function Samples(tracked: map<int, Track>, p: int): nat { if p in tracked then tracked[p].samples else 0 }

  lemma {:induction false} AdmittedFacts(tracked: map<int, Track>, procs: seq<Proc>, p: int)
    ensures Cool(Admitted(tracked, procs), p) == Cool(tracked, p)
    ensures Samples(Admitted(tracked, procs), p) == Samples(tracked, p)
    ensures p in Admitted(tracked, procs) <==> p in tracked || exists i :: 0 <= i < |procs| && procs[i].pid == p
    decreases |procs|
  {
    if procs != [] {
      AdmittedFacts(tracked, procs[..|procs| - 1], p);
    }
  }

  /** The fault counters report p above the threshold. */
  predicate Refaulted(faults: seq<(int, nat)>, p: int) {
    exists i :: 0 <= i < |faults| && faults[i].0 == p && faults[i].1 > THRASH_FAULTS
  }

  /** The guard never shortens a cooldown, never starts one, and never exceeds 20 cycles. */
  lemma {:induction false} GuardFacts(tracked: map<int, Track>, faults: seq<(int, nat)>, p: int)
    ensures GuardedAll(tracked, faults).Keys == tracked.Keys
    ensures Cool(GuardedAll(tracked, faults), p) >= Cool(tracked, p)
    ensures Cool(tracked, p) <= 0 ==> Cool(GuardedAll(tracked, faults), p) == Cool(tracked, p)
    ensures Cool(tracked, p) <= THRASH_COOLDOWN ==> Cool(GuardedAll(tracked, faults), p) <= THRASH_COOLDOWN
    ensures Samples(GuardedAll(tracked, faults), p) == Samples(tracked, p)
    ensures Cool(tracked, p) > 0 && Refaulted(faults, p) ==>
              Cool(GuardedAll(tracked, faults), p) >= THRASH_COOLDOWN
    decreases |faults|
  {
    if faults != [] {
      GuardFacts(tracked, faults[..|faults| - 1], p);
    }
  }

  // ---------------------------------------------------------------- the action loop

  function Sum(attempts: seq<Attempt>): nat {
    if attempts == [] then 0
    else
      var n := |attempts| - 1;
      Sum(attempts[..n]) + (if attempts[n].gain.Some? then attempts[n].gain.value else 0)
  }

  predicate Succeeded(a: Attempt) { a.gain.Some? && a.gain.value > 0 }

  function Successes(attempts: seq<Attempt>): nat {
    if attempts == [] then 0
    else
      var n := |attempts| - 1;
      Successes(attempts[..n]) + (if Succeeded(attempts[n]) then 1 else 0)
  }

  /** The attempts so far are those of the first k candidates, the totals are theirs, and neither cap had
      been reached before any of them. */
  ghost predicate Fair(cfg: Config, cands: seq<Stat>, gain: Yield, k: nat, t: Tally)
    requires k <= |cands|
  {
    && |t.attempts| == k
    && (forall m :: 0 <= m < k ==> t.attempts[m] == AttemptOn(cfg, cands[m], gain))
    && t.total == Sum(t.attempts) && t.acted == Successes(t.attempts)
    && (forall m :: 0 <= m < k ==> Sum(t.attempts[..m]) < cfg.cap && Successes(t.attempts[..m]) < cfg.maxTargets)
  }

  lemma TriedFair(cfg: Config, cands: seq<Stat>, gain: Yield, k: nat, t: Tally)
    requires k < |cands| && Fair(cfg, cands, gain, k, t) && !Stopped(cfg, t)
    ensures Fair(cfg, cands, gain, k + 1, Tried(t, AttemptOn(cfg, cands[k], gain)))
  {
    var u := Tried(t, AttemptOn(cfg, cands[k], gain));
    assert u.attempts[..k] == t.attempts;
    assert t.attempts[..k] == t.attempts;
    forall m | 0 <= m < k + 1 ensures Sum(u.attempts[..m]) < cfg.cap && Successes(u.attempts[..m]) < cfg.maxTargets {
      assert u.attempts[..m] == t.attempts[..m];
    }
  }

  lemma FairCount(cfg: Config, cands: seq<Stat>, gain: Yield, k: nat, t: Tally)
    requires k <= |cands| && Fair(cfg, cands, gain, k, t)
    ensures |t.attempts| == k
  {}

  /** The loop tries a prefix of the candidates and stops only at the end or at a cap. */
  lemma {:induction false} ActedFair(cfg: Config, cands: seq<Stat>, gain: Yield, k: nat, t: Tally)
    requires k <= |cands| && Fair(cfg, cands, gain, k, t)
    ensures
      var r := Acted(cfg, cands, gain, k, t);
      && k <= |r.attempts| <= |cands| && Fair(cfg, cands, gain, |r.attempts|, r)
      && (|r.attempts| == |cands| || Stopped(cfg, r))
    decreases |cands| - k
  {
    hide Fair, Tried, AttemptOn, Stopped;
    FairCount(cfg, cands, gain, k, t);
    if k < |cands| && !Stopped(cfg, t) {
      TriedFair(cfg, cands, gain, k, t);
      ActedFair(cfg, cands, gain, k + 1, Tried(t, AttemptOn(cfg, cands[k], gain)));
    }
  }

  lemma {:induction false} SuccessBound(cfg: Config, attempts: seq<Attempt>)
    requires forall m :: 0 <= m < |attempts| ==> Successes(attempts[..m]) < cfg.maxTargets
    ensures Successes(attempts) <= cfg.maxTargets
  {
    if attempts != [] {
      assert Successes(attempts[..|attempts| - 1]) < cfg.maxTargets;
    }
  }

  /** run_actions on any snapshot and any tie-breaking: it tries a prefix of the ranking; every eligible
      process it leaves out scores no higher than any it tried; at most max_targets succeed; the total is
      the sum of the gains, and was below the cap before the last attempt; it stops early only at a
      cap. */
  lemma ActionsByScore(cfg: Config, snapshot: seq<Stat>, order: seq<nat>, gain: Yield,
                       tracked: map<int, Track>)
    requires Ranked(cfg, snapshot, order) && OncePerPid(snapshot)
    ensures
      var r := Acted(cfg, InOrder(snapshot, order), gain, 0, Tally(tracked, [], 0, 0));
      var n := |r.attempts|;
      && n <= |order| && (forall m :: 0 <= m < n ==> r.attempts[m] == AttemptOn(cfg, snapshot[order[m]], gain))
      && (forall i, m :: 0 <= i < |snapshot| && Eligible(cfg, snapshot[i]) && i !in order[..n] && 0 <= m < n ==>
            snapshot[i].score <= snapshot[order[m]].score)
      && r.acted == Successes(r.attempts) <= cfg.maxTargets
      && r.total == Sum(r.attempts)
      && (n > 0 ==> Sum(r.attempts[..n - 1]) < cfg.cap)
      && (n < |order| ==> r.acted == cfg.maxTargets || r.total >= cfg.cap)
  {
    var cands := InOrder(snapshot, order);
    var start := Tally(tracked, [], 0, 0);
    ActedFair(cfg, cands, gain, 0, start);
    hide Acted, Sum, Successes, Ranked;
    var r := Acted(cfg, cands, gain, 0, start);
    SuccessBound(cfg, r.attempts);
    RankedPrefix(cfg, snapshot, order, |r.attempts|);
  }

  lemma RankedPrefix(cfg: Config, snapshot: seq<Stat>, order: seq<nat>, n: nat)
    requires Ranked(cfg, snapshot, order) && n <= |order|
    ensures forall i, m :: 0 <= i < |snapshot| && Eligible(cfg, snapshot[i]) && i !in order[..n] && 0 <= m < n ==>
              snapshot[i].score <= snapshot[order[m]].score
  {
    forall k | 0 <= k < n ensures order[k] in order[..n] { assert order[..n][k] == order[k]; }
    forall i, m | 0 <= i < |snapshot| && Eligible(cfg, snapshot[i]) && i !in order[..n] && 0 <= m < n
      ensures snapshot[i].score <= snapshot[order[m]].score
    {
      assert i in order;
      var k :| 0 <= k < |order| && order[k] == i;
    }
  }

  /** What the loop does to one process's entry: a success sets its cooldown to 5, anything else leaves
      it alone. */
  ghost predicate Reclaimed(attempts: seq<Attempt>, p: int) {
    exists m :: 0 <= m < |attempts| && attempts[m].pid == p && Succeeded(attempts[m])
  }

  lemma {:induction false} ActedTracks(cfg: Config, cands: seq<Stat>, gain: Yield, k: nat, t: Tally, p: int)
    requires k <= |cands|
    ensures
      var r := Acted(cfg, cands, gain, k, t);
      && t.attempts <= r.attempts
      && Samples(r.tracked, p) == Samples(t.tracked, p)
      && (Reclaimed(r.attempts[|t.attempts|..], p) ==> Cool(r.tracked, p) == ACTION_COOLDOWN)
      && (!Reclaimed(r.attempts[|t.attempts|..], p) ==> Cool(r.tracked, p) == Cool(t.tracked, p))
    decreases |cands| - k
  {
    if k < |cands| && !Stopped(cfg, t) {
      var u := Tried(t, AttemptOn(cfg, cands[k], gain));
      ActedTracks(cfg, cands, gain, k + 1, u, p);
      var r := Acted(cfg, cands, gain, k + 1, u);
      var n := |t.attempts|;
      var tail := r.attempts[n + 1..];
      assert r.attempts[n..] == [AttemptOn(cfg, cands[k], gain)] + tail;
      SplitReclaimed(AttemptOn(cfg, cands[k], gain), tail, p);
    }
  }

  lemma SplitReclaimed(a: Attempt, rest: seq<Attempt>, p: int)
    ensures Reclaimed([a] + rest, p) <==> (a.pid == p && Succeeded(a)) || Reclaimed(rest, p)
  {
    var all := [a] + rest;
    if a.pid == p && Succeeded(a) { assert all[0] == a; }
    if Reclaimed(rest, p) {
      var m :| 0 <= m < |rest| && rest[m].pid == p && Succeeded(rest[m]);
      assert all[m + 1] == rest[m];
    }
    if Reclaimed(all, p) {
      var m :| 0 <= m < |all| && all[m].pid == p && Succeeded(all[m]);
      if m > 0 { assert rest[m - 1] == all[m]; }
    }
  }

  // ---------------------------------------------------------------- one cycle, one process

  ghost predicate Seen(x: Input, p: int) { exists i :: 0 <= i < |x.procs| && x.procs[i].pid == p }

  /** The cycle scored p, at zero. */
  ghost predicate ScoredZero(s: State, x: Input, p: int)
    requires Valid(s, x)
  {
    var (t, r) := Cycle(s, x);
    r.scored && exists k :: 0 <= k < |t.snapshot| && t.snapshot[k].pid == p && t.snapshot[k].score == 0.0
  }

  /** The cycle reclaimed something from p. */
  ghost predicate Reclaims(s: State, x: Input, p: int)
    requires Valid(s, x)
  {
    Reclaimed(Cycle(s, x).1.attempts, p)
  }

  /** The cycle opened p, or tried to. */
  ghost predicate Attempts(s: State, x: Input, p: int)
    requires Valid(s, x)
  {
    exists m :: 0 <= m < |Cycle(s, x).1.attempts| && Cycle(s, x).1.attempts[m].pid == p
  }

  /** The fault counters caught p re-faulting during its cooldown. */
  ghost predicate Thrashed(s: State, x: Input, p: int) {
    x.kind.Run? && !Paused(x) && Cool(s.tracked, p) > 0 && Refaulted(x.faults, p)
  }

  function Unit(b: bool): int { if b then 1 else 0 }

  /** The entries before scoring: the scan adds new ones, the guard may lengthen a cooldown. */
  lemma PreparedFacts(s: State, x: Input, p: int)
    ensures
      var u := Prepared(s, x);
      && Cool(u.tracked, p) >= Cool(s.tracked, p)
      && (Cool(s.tracked, p) <= 0 ==> Cool(u.tracked, p) == Cool(s.tracked, p))
      && (Cool(s.tracked, p) <= THRASH_COOLDOWN ==> Cool(u.tracked, p) <= THRASH_COOLDOWN)
      && (Thrashed(s, x, p) ==> Cool(u.tracked, p) >= THRASH_COOLDOWN)
      && Samples(u.tracked, p) == Samples(s.tracked, p) && u.cleared == s.cleared
      && |u.snapshot| == |x.procs|
      && (forall i :: 0 <= i < |x.procs| ==> u.snapshot[i] == Fresh(x.procs[i]) && u.snapshot[i].pid in u.tracked)
      && (DistinctPids(x.procs) ==> OncePerPid(u.snapshot))
  {
    AdmittedFacts(s.tracked, x.procs, p);
    forall i | 0 <= i < |x.procs| ensures x.procs[i].pid in Admitted(s.tracked, x.procs) {
      AdmittedFacts(s.tracked, x.procs, x.procs[i].pid);
    }
    GuardFacts(Admitted(s.tracked, x.procs), x.faults, p);
  }

  lemma DamonFacts(s: State, answer: DamonAnswer, p: int)
    ensures
      var t := DamonSampled(s, answer);
      && Cool(t.tracked, p) == Cool(s.tracked, p) && Samples(t.tracked, p) == Samples(s.tracked, p)
      && t.tracked.Keys == s.tracked.Keys && t.cleared == s.cleared && t.damonOn == s.damonOn
      && |t.snapshot| == |s.snapshot| && (forall i :: 0 <= i < |s.snapshot| ==> t.snapshot[i].pid == s.snapshot[i].pid)
      && (answer.None? ==> t == s)
  {
    if answer.Some? { ColdFacts(s.tracked, answer.value, p); }
  }

  lemma {:induction false} ColdFacts(tracked: map<int, Track>, cold: seq<(int, seq<DamonRegion>)>, p: int)
    ensures
      var t := DamonTracked(tracked, cold);
      t.Keys == tracked.Keys && Cool(t, p) == Cool(tracked, p) && Samples(t, p) == Samples(tracked, p)
    decreases |cold|
  {
    if cold != [] { ColdFacts(tracked, cold[..|cold| - 1], p); }
  }

  /** The state on which each process is scored. */
  function Base(s: State, x: Input): State {
    var u := Prepared(s, x);
    if u.damonOn then DamonSampled(u, x.damonAnswer) else u
  }

  lemma BaseFacts(s: State, x: Input, p: int)
    requires DistinctPids(x.procs)
    ensures
      var b := Base(s, x);
      && Cool(b.tracked, p) >= Cool(s.tracked, p)
      && (Cool(s.tracked, p) <= 0 ==> Cool(b.tracked, p) == Cool(s.tracked, p))
      && (Cool(s.tracked, p) <= THRASH_COOLDOWN ==> Cool(b.tracked, p) <= THRASH_COOLDOWN)
      && (Thrashed(s, x, p) ==> Cool(b.tracked, p) >= THRASH_COOLDOWN)
      && Samples(b.tracked, p) == Samples(s.tracked, p) && b.cleared == s.cleared
      && |b.snapshot| == |x.procs| && OncePerPid(b.snapshot)
      && (forall i :: 0 <= i < |x.procs| ==> b.snapshot[i].pid == x.procs[i].pid && b.snapshot[i].pid in b.tracked)
      && (!b.damonOn || x.damonAnswer.None? ==> forall i :: 0 <= i < |x.procs| ==> b.snapshot[i] == Fresh(x.procs[i]))
      && ScoresOf(s, x) == ScoredFrom(x.cfg, b, 0, x.sample)
  {
    PreparedFacts(s, x, p);
    hide Prepared, Cool, Samples, DamonSampled, ScoredFrom;
    DamonFacts(Prepared(s, x), x.damonAnswer, p);
  }

  /** Every process seen is scored once from its entry in b; the others are left alone. */
  ghost predicate AllScored(x: Input, b: State, c: State) {
    && |b.snapshot| == |c.snapshot| == |x.procs| && OncePerPid(c.snapshot) && b.tracked.Keys == c.tracked.Keys
    && (forall i :: 0 <= i < |x.procs| ==> b.snapshot[i].pid == x.procs[i].pid && c.snapshot[i].pid == x.procs[i].pid)
    && (forall i :: 0 <= i < |x.procs| ==> b.snapshot[i].pid in b.tracked)
    && (forall i :: 0 <= i < |x.procs| ==> ScoredHere(x.cfg, b, c, i, x.sample))
  }

  lemma ScoresFacts(s: State, x: Input, p: int)
    requires DistinctPids(x.procs)
    ensures
      var b, c := Base(s, x), ScoresOf(s, x);
      && AllScored(x, b, c) && s.cleared <= c.cleared
      && (!Seen(x, p) ==> Cool(c.tracked, p) == Cool(b.tracked, p) && Samples(c.tracked, p) == Samples(b.tracked, p))
  {
    BaseFacts(s, x, p);
    hide Base, ScoresOf, ScoredHere, ScoredFrom, Samples, Cool, OncePerPid, Fresh;
    ScoredFromOnce(x.cfg, Base(s, x), 0, x.sample);
    OnceIsAll(x, Base(s, x), ScoresOf(s, x), p);
  }

  lemma OnceIsAll(x: Input, b: State, c: State, p: int)
    requires ScoredOnce(x.cfg, b, c, 0, x.sample) && |b.snapshot| == |x.procs| && OncePerPid(b.snapshot)
    requires forall i :: 0 <= i < |x.procs| ==> b.snapshot[i].pid == x.procs[i].pid && b.snapshot[i].pid in b.tracked
    ensures AllScored(x, b, c) && b.cleared <= c.cleared
    ensures !Seen(x, p) ==> Cool(c.tracked, p) == Cool(b.tracked, p) && Samples(c.tracked, p) == Samples(b.tracked, p)
  {
    hide ScoredHere;
    forall i, j | 0 <= i < j < |c.snapshot| ensures c.snapshot[i].pid != c.snapshot[j].pid {
      assert b.snapshot[i].pid != b.snapshot[j].pid;
    }
    if !Seen(x, p) {
      forall k | 0 <= k < |b.snapshot| ensures b.snapshot[k].pid != p { assert x.procs[k].pid != p; }
    }
  }

  /** Scoring takes one from a running cooldown, and the score is zero then. */
  lemma ScoredCool(s: State, x: Input, i: nat)
    requires DistinctPids(x.procs) && i < |x.procs|
    ensures
      var p := x.procs[i].pid;
      var before := Cool(Base(s, x).tracked, p);
      var c := ScoresOf(s, x);
      && |c.snapshot| == |x.procs| && c.snapshot[i].pid == p
      && (before > 0 ==> Cool(c.tracked, p) == before - 1 && c.snapshot[i].score == 0.0)
      && (before <= 0 ==> Cool(c.tracked, p) == before)
  {
    ScoresFacts(s, x, x.procs[i].pid);
    hide Base, ScoresOf;
    assert ScoredHere(x.cfg, Base(s, x), ScoresOf(s, x), i, x.sample);
  }

  /** Only processes with a positive score are tried. */
  lemma AttemptsScored(s: State, x: Input, p: int) returns (i: nat)
    requires Valid(s, x) && x.cfg.minScore > 0.0 && Attempts(s, x, p)
    ensures i < |x.procs| && x.procs[i].pid == p && !Paused(x)
    ensures |ScoresOf(s, x).snapshot| == |x.procs| && ScoresOf(s, x).snapshot[i].pid == p
    ensures ScoresOf(s, x).snapshot[i].score > 0.0
  {
    ScoresFacts(s, x, p);
    hide Base, ScoresOf, ScoredHere, Prepared, Scanned;
    var c := ScoresOf(s, x);
    ActionsByScore(x.cfg, c.snapshot, x.order, x.gain, c.tracked);
    var m :| 0 <= m < |Cycle(s, x).1.attempts| && Cycle(s, x).1.attempts[m].pid == p;
    i := x.order[m];
  }

  /** Whatever the configuration, one cycle keeps a cooldown between 0 and 20. */
  lemma CycleBounds(s: State, x: Input, p: int)
    requires Valid(s, x) && 0 <= Cool(s.tracked, p) <= THRASH_COOLDOWN
    ensures 0 <= Cool(Cycle(s, x).0.tracked, p) <= THRASH_COOLDOWN
  {
    if Paused(x) {
      AdmittedFacts(s.tracked, x.procs, p);
    } else {
      BaseFacts(s, x, p);
      ScoresFacts(s, x, p);
      ScoresDrain(s, x, p);
      hide Base, ScoresOf, Acted, AllScored, Ranked;
      var c := ScoresOf(s, x);
      if Acts(x) {
        ActedTracks(x.cfg, InOrder(c.snapshot, x.order), x.gain, 0, Tally(c.tracked, [], 0, 0), p);
      }
    }
  }

  /** What one cycle does to one process's cooldown. */
  lemma CycleCool(s: State, x: Input, p: int)
    requires Valid(s, x) && x.cfg.minScore > 0.0 && 0 <= Cool(s.tracked, p) <= THRASH_COOLDOWN
    ensures
      var after := Cool(Cycle(s, x).0.tracked, p);
      && after >= Cool(s.tracked, p) - Unit(ScoredZero(s, x, p))
      && (Reclaims(s, x, p) ==> Cool(s.tracked, p) == 0 && after == ACTION_COOLDOWN)
      && (Thrashed(s, x, p) ==> !Reclaims(s, x, p) && after >= THRASH_COOLDOWN - Unit(ScoredZero(s, x, p)))
  {
    if Paused(x) {
      AdmittedFacts(s.tracked, x.procs, p);
    } else {
      BaseFacts(s, x, p);
      ScoresFacts(s, x, p);
      ScoresDrain(s, x, p);
      if Attempts(s, x, p) { TriedWhenCool(s, x, p); }
      hide Base, ScoresOf, Acted, AllScored, Ranked;
      var c := ScoresOf(s, x);
      if Acts(x) {
        ActedTracks(x.cfg, InOrder(c.snapshot, x.order), x.gain, 0, Tally(c.tracked, [], 0, 0), p);
        var r := Acted(x.cfg, InOrder(c.snapshot, x.order), x.gain, 0, Tally(c.tracked, [], 0, 0));
        assert r.attempts[0..] == r.attempts;
      }
    }
  }

  /** The cooldown before and after scoring. */
  lemma ScoresDrain(s: State, x: Input, p: int)
    requires Valid(s, x) && !Paused(x)
    ensures
      var before, after := Cool(Base(s, x).tracked, p), Cool(ScoresOf(s, x).tracked, p);
      && (before > 0 ==> before - Unit(ScoredZero(s, x, p)) <= after <= before && after >= 0)
      && (before <= 0 ==> after == before)
  {
    ScoresFacts(s, x, p);
    hide Base, ScoresOf, ScoredHere, Acted, Ranked, AllScored;
    if Seen(x, p) {
      var i :| 0 <= i < |x.procs| && x.procs[i].pid == p;
      ScoredCool(s, x, i);
    }
  }

  lemma TriedWhenCool(s: State, x: Input, p: int)
    requires Valid(s, x) && x.cfg.minScore > 0.0 && Attempts(s, x, p)
    ensures Cool(Base(s, x).tracked, p) <= 0
  {
    hide Base, ScoresOf, Cycle, Attempts;
    var k := AttemptsScored(s, x, p);
    ScoredCool(s, x, k);
  }

  // ---------------------------------------------------------------- why a process was tried

  /** A sampled process counts its samples, and its first sample is an attempt to clear its bits. */
  ghost predicate Cleared(s: State) {
    forall p :: Samples(s.tracked, p) > 0 ==> p in s.cleared
  }

  lemma CycleClears(s: State, x: Input)
    requires Valid(s, x) && Cleared(s)
    ensures Cleared(Cycle(s, x).0)
  {
    forall p | Samples(Cycle(s, x).0.tracked, p) > 0 ensures p in Cycle(s, x).0.cleared {
      CycleSamples(s, x, p);
    }
  }

  lemma CycleSamples(s: State, x: Input, p: int)
    requires Valid(s, x)
    ensures
      var t := Cycle(s, x).0;
      && (Samples(s.tracked, p) == 0 && Samples(t.tracked, p) > 0 ==> p in t.cleared)
      && (Samples(s.tracked, p) > 0 && p in s.cleared ==> p in t.cleared)
  {
    if Paused(x) {
      AdmittedFacts(s.tracked, x.procs, p);
    } else {
      BaseFacts(s, x, p);
      ScoresFacts(s, x, p);
      ScoredSamples(s, x, p);
      hide Base, ScoresOf, Acted, AllScored, Ranked;
      var c := ScoresOf(s, x);
      if Acts(x) {
        ActedTracks(x.cfg, InOrder(c.snapshot, x.order), x.gain, 0, Tally(c.tracked, [], 0, 0), p);
      }
    }
  }

  lemma ScoredSamples(s: State, x: Input, p: int)
    requires DistinctPids(x.procs)
    ensures
      var c := ScoresOf(s, x);
      Samples(Base(s, x).tracked, p) == 0 && Samples(c.tracked, p) > 0 ==> p in c.cleared
  {
    ScoresFacts(s, x, p);
    hide Base, ScoresOf;
    if Seen(x, p) {
      var i :| 0 <= i < |x.procs| && x.procs[i].pid == p;
      assert ScoredHere(x.cfg, Base(s, x), ScoresOf(s, x), i, x.sample);
      hide Score;
    }
  }

  /** Without DAMON every attempt is on a process whose bits an earlier cycle tried to clear and whose
      sample in this cycle shows less than a quarter of its memory touched since. */
  lemma TriedIsCold(s: State, x: Input, p: int)
    requires Valid(s, x) && x.cfg.minScore > 0.0 && Cleared(s) && Attempts(s, x, p) && !Prepared(s, x).damonOn
    ensures p in s.cleared
    ensures x.sample(p).ok && 4 * x.sample(p).touchedKb < x.sample(p).totalKb
  {
    var i := AttemptsScored(s, x, p);
    BaseFacts(s, x, p);
    ScoresFacts(s, x, p);
    var b, c := Base(s, x), ScoresOf(s, x);
    assert ScoredHere(x.cfg, b, c, i, x.sample);
    hide Base, ScoresOf, Prepared, AllScored;
    ColdSample(x.cfg, b.snapshot[i], b.tracked[p], x.sample(p));
  }

  lemma ColdSample(cfg: Config, ps: Stat, tr: Track, ws: Sample)
    requires ps.wsRatio == 1.0 && Scored(cfg, ps, tr, ws, false).0.score > 0.0
    ensures tr.samples > 0 && ws.ok && 4 * ws.touchedKb < ws.totalKb
  {
    var (m, t) := Measured(cfg, ps, tr, ws, false);
    PositiveScoreIsCold(m.anonKb, m.wsRatio, m.swapKb, WeightFor(cfg, m.cgroup));
    hide Score, WeightFor;
    if tr.samples > 0 && ws.ok && ws.totalKb > 0 && Sampled(cfg, ps, false) {
      QuarterShare(ws.touchedKb, ws.totalKb);
    }
  }

  /** With DAMON on and set_targets refusing, no process is ever tried. */
  lemma DamonNeverTries(s: State, x: Input, p: int)
    requires Valid(s, x) && x.cfg.minScore > 0.0 && Prepared(s, x).damonOn && x.damonAnswer.None?
    ensures !Attempts(s, x, p) && !Reclaims(s, x, p)
  {
    if Attempts(s, x, p) {
      var i := AttemptsScored(s, x, p);
      UntouchedIsHot(s, x, i);
    }
  }

  lemma UntouchedIsHot(s: State, x: Input, i: nat)
    requires DistinctPids(x.procs) && i < |x.procs| && Prepared(s, x).damonOn && x.damonAnswer.None?
    ensures |ScoresOf(s, x).snapshot| == |x.procs| && ScoresOf(s, x).snapshot[i].score == 0.0
  {
    var p := x.procs[i].pid;
    BaseFacts(s, x, p);
    ScoresFacts(s, x, p);
    assert ScoredHere(x.cfg, Base(s, x), ScoresOf(s, x), i, x.sample);
    hide Base, ScoresOf, Prepared, AllScored, WeightFor;
    HotScore(x.procs[i].anonKb, x.procs[i].swapKb, WeightFor(x.cfg, x.procs[i].cgroup));
  }

  lemma HotScore(anonKb: nat, swapKb: nat, weight: real)
    ensures Score(anonKb, 1.0, swapKb, weight) == 0.0
  {}

  // ---------------------------------------------------------------- any sequence of cycles

  ghost predicate Trace(states: seq<State>, inputs: seq<Input>) {
    && |states| == |inputs| + 1 && states[0] == State(map[], [], false, {})
    && (forall k :: 0 <= k < |inputs| ==> Valid(states[k], inputs[k]))
    && (forall k :: 0 <= k < |inputs| ==> states[k + 1] == Cycle(states[k], inputs[k]).0)
  }

  /** Every cycle is configured with a positive least useful score. */
  ghost predicate Selective(inputs: seq<Input>) { forall k :: 0 <= k < |inputs| ==> inputs[k].cfg.minScore > 0.0 }

  /** Cooldowns stay within 0 and 20 in every run of the engine, whatever its configurations. */
  lemma {:induction false} CooldownBounds(states: seq<State>, inputs: seq<Input>, k: nat, p: int)
    requires Trace(states, inputs) && k <= |inputs|
    ensures 0 <= Cool(states[k].tracked, p) <= THRASH_COOLDOWN
  {
    hide Cycle, Valid, ScoredZero, Reclaims, Thrashed;
    if k > 0 {
      CooldownBounds(states, inputs, k - 1, p);
      CycleBounds(states[k - 1], inputs[k - 1], p);
    }
  }

  /** How many of the cycles i to j - 1 scored p at zero. */
  ghost function ZeroCount(states: seq<State>, inputs: seq<Input>, i: nat, j: nat, p: int): nat
    requires Trace(states, inputs) && i <= j <= |inputs|
    decreases j
  {
    if i == j then 0
    else ZeroCount(states, inputs, i, j - 1, p) + (if ScoredZero(states[j - 1], inputs[j - 1], p) then 1 else 0)
  }

  /** A cooldown is used up only by cycles that score the process at zero. */
  lemma {:induction false} CooldownDrains(states: seq<State>, inputs: seq<Input>, i: nat, j: nat, p: int)
    requires Trace(states, inputs) && Selective(inputs) && i <= j <= |inputs|
    ensures Cool(states[j].tracked, p) + ZeroCount(states, inputs, i, j, p) >= Cool(states[i].tracked, p)
    decreases j
  {
    hide Cycle, Valid, ScoredZero, Reclaims, Thrashed;
    if i < j {
      CooldownDrains(states, inputs, i, j - 1, p);
      CooldownBounds(states, inputs, j - 1, p);
      CycleCool(states[j - 1], inputs[j - 1], p);
    }
  }

  /** Between two cycles that reclaim from the same process lie at least five that scored it at zero,
      however run_cycle and force_cycle are mixed. */
  lemma ReclaimsSpaced(states: seq<State>, inputs: seq<Input>, i: nat, j: nat, p: int)
    requires Trace(states, inputs) && Selective(inputs) && i < j < |inputs|
    requires Reclaims(states[i], inputs[i], p) && Reclaims(states[j], inputs[j], p)
    ensures ZeroCount(states, inputs, i + 1, j, p) >= ACTION_COOLDOWN
  {
    hide Cycle, Valid, ScoredZero, Reclaims, Thrashed;
    CooldownBounds(states, inputs, i, p);
    CycleCool(states[i], inputs[i], p);
    CooldownBounds(states, inputs, j, p);
    CycleCool(states[j], inputs[j], p);
    CooldownDrains(states, inputs, i + 1, j, p);
  }

  /** After re-faulting during its cooldown a process is scored at zero by at least twenty cycles, the
      current one included, before anything is reclaimed from it again. */
  lemma ThrashHolds(states: seq<State>, inputs: seq<Input>, i: nat, j: nat, p: int)
    requires Trace(states, inputs) && Selective(inputs) && i <= j < |inputs|
    requires Thrashed(states[i], inputs[i], p) && Reclaims(states[j], inputs[j], p)
    ensures ZeroCount(states, inputs, i, j, p) >= THRASH_COOLDOWN
  {
    hide Cycle, Valid, ScoredZero, Reclaims, Thrashed;
    CooldownBounds(states, inputs, i, p);
    CycleCool(states[i], inputs[i], p);
    CooldownBounds(states, inputs, j, p);
    CycleCool(states[j], inputs[j], p);
    CooldownDrains(states, inputs, i + 1, j, p);
    ZeroFirst(states, inputs, i, j, p);
  }

  lemma {:induction false} ZeroFirst(states: seq<State>, inputs: seq<Input>, i: nat, j: nat, p: int)
    requires Trace(states, inputs) && i < j <= |inputs|
    ensures ZeroCount(states, inputs, i, j, p) ==
            ZeroCount(states, inputs, i + 1, j, p) + (if ScoredZero(states[i], inputs[i], p) then 1 else 0)
    decreases j
  {
    hide Cycle, Valid, ScoredZero;
    if i + 1 < j { ZeroFirst(states, inputs, i, j - 1, p); }
  }

  lemma {:induction false} TraceCleared(states: seq<State>, inputs: seq<Input>, k: nat)
    requires Trace(states, inputs) && k <= |inputs|
    ensures Cleared(states[k])
  {
    hide Cycle, Valid;
    if k > 0 {
      TraceCleared(states, inputs, k - 1);
      CycleClears(states[k - 1], inputs[k - 1]);
    }
  }

  /** Some cycle before k tried to clear the bits of every pid recorded as cleared. */
  lemma {:induction false} ClearedEarlier(states: seq<State>, inputs: seq<Input>, k: nat, p: int) returns (i: nat)
    requires Trace(states, inputs) && k <= |inputs| && p in states[k].cleared
    ensures i < k && p !in states[i].cleared && p in states[i + 1].cleared
  {
    hide Cycle, Valid;
    if p in states[k - 1].cleared { i := ClearedEarlier(states, inputs, k - 1, p); } else { i := k - 1; }
  }

  /** Every attempt is warranted: an earlier cycle tried to clear the process's soft-dirty bits, and less
      than a quarter of its memory was touched. Once DAMON is on no process is tried at all. */
  lemma AttemptsWarranted(states: seq<State>, inputs: seq<Input>, j: nat, p: int) returns (i: nat)
    requires Trace(states, inputs) && Selective(inputs) && j < |inputs| && Attempts(states[j], inputs[j], p)
    requires inputs[j].damonAnswer.None?
    ensures !Prepared(states[j], inputs[j]).damonOn
    ensures i < j && p !in states[i].cleared && p in states[i + 1].cleared
    ensures inputs[j].sample(p).ok && 4 * inputs[j].sample(p).touchedKb < inputs[j].sample(p).totalKb
  {
    hide Cycle, Valid, Attempts, Prepared, Cleared, Reclaims;
    if Prepared(states[j], inputs[j]).damonOn {
      DamonNeverTries(states[j], inputs[j], p);
    }
    TraceCleared(states, inputs, j);
    TriedIsCold(states[j], inputs[j], p);
    i := ClearedEarlier(states, inputs, j, p);
  }

  // ---------------------------------------------------------------- exactly when the spacing holds

  /** At least five zero scores lie between any two reclaims from one process. */
  ghost predicate Spaced(states: seq<State>, inputs: seq<Input>)
    requires Trace(states, inputs)
  {
    forall i: nat, j: nat, p: int ::
      i < j < |inputs| && Reclaims(states[i], inputs[i], p) && Reclaims(states[j], inputs[j], p) ==>
        ZeroCount(states, inputs, i + 1, j, p) >= ACTION_COOLDOWN
  }

  ghost predicate AllWith(inputs: seq<Input>, m: real) { forall k :: 0 <= k < |inputs| ==> inputs[k].cfg.minScore == m }

  /** The cooldown keeps reclaims apart, in every run whose least useful score is m, exactly when m is
      positive. */
  lemma SpacedIff(m: real)
    ensures
      (forall states, inputs :: Trace(states, inputs) && AllWith(inputs, m) ==> Spaced(states, inputs)) <==> m > 0.0
  {
    if m > 0.0 {
      forall states, inputs | Trace(states, inputs) && AllWith(inputs, m) ensures Spaced(states, inputs) {
        SpacedRun(states, inputs);
      }
    } else {
      var states, inputs := UnspacedRun(m, Force, []);
      assert Trace(states, inputs) && AllWith(inputs, m) && !Spaced(states, inputs);
    }
  }

  lemma SpacedRun(states: seq<State>, inputs: seq<Input>)
    requires Trace(states, inputs) && Selective(inputs)
    ensures Spaced(states, inputs)
  {
    hide Cycle, Valid, Reclaims, ZeroCount, Selective;
    forall i: nat, j: nat, p: int |
      i < j < |inputs| && Reclaims(states[i], inputs[i], p) && Reclaims(states[j], inputs[j], p)
      ensures ZeroCount(states, inputs, i + 1, j, p) >= ACTION_COOLDOWN
    {
      ReclaimsSpaced(states, inputs, i, j, p);
    }
  }

  /** A cycle under pressure that sees one process, with nothing to gain by its score. */
  function LoneInput(m: real, kind: Kind, damon: bool, faults: seq<(int, nat)>): Input {
    Input(kind, Config(m, 0, 1, 1024, 0.2, 0.1, false, false, []), [Proc(2, "", 0, 0)], damon, None,
          Psi(true, 0.2, 0.0), Mem(0, 0), faults, (p: int) => Sample(false, 0, 0), [0], (p: int, mode: Mode) => Some(1))
  }

  /** With a least useful score of zero or less such a cycle reclaims, whatever went before. */
  lemma LoneReclaims(s: State, m: real, kind: Kind, damon: bool, faults: seq<(int, nat)>)
    requires m <= 0.0
    ensures
      var x := LoneInput(m, kind, damon, faults);
      && Valid(s, x) && x.cfg.minScore == m && !Paused(x) && Reclaims(s, x, 2) && Attempts(s, x, 2)
      && Cool(Cycle(s, x).0.tracked, 2) == ACTION_COOLDOWN
  {
    var x := LoneInput(m, kind, damon, faults);
    LoneScores(s, m, kind, damon, faults);
    var c := ScoresOf(s, x);
    hide ScoresOf;
    assert InOrder(c.snapshot, x.order) == c.snapshot;
    LoneActed(x.cfg, c.snapshot[0], x.gain, c.tracked);
    hide Acted;
    var r := Acted(x.cfg, InOrder(c.snapshot, x.order), x.gain, 0, Tally(c.tracked, [], 0, 0));
    assert Succeeded(r.attempts[0]);
  }

  lemma LoneActed(cfg: Config, ps: Stat, gain: Yield, tracked: map<int, Track>)
    requires cfg.maxTargets > 0 && cfg.cap > 0
    ensures
      var t := Acted(cfg, [ps], gain, 0, Tally(tracked, [], 0, 0));
      && t.attempts == [AttemptOn(cfg, ps, gain)]
      && (Succeeded(AttemptOn(cfg, ps, gain)) ==> Cool(t.tracked, ps.pid) == ACTION_COOLDOWN)
  {
    var t0 := Tally(tracked, [], 0, 0);
    var t1 := Tried(t0, AttemptOn(cfg, ps, gain));
    assert Acted(cfg, [ps], gain, 1, t1) == t1;
  }

  lemma LoneScores(s: State, m: real, kind: Kind, damon: bool, faults: seq<(int, nat)>)
    ensures ScoresOf(s, LoneInput(m, kind, damon, faults)).snapshot == [Stat(2, "", 0, 0, 1.0, 0.0)]
  {
    var x := LoneInput(m, kind, damon, faults);
    BaseFacts(s, x, 2);
    ScoresFacts(s, x, 2);
    var b, c := Base(s, x), ScoresOf(s, x);
    assert b.snapshot[0] == Fresh(x.procs[0]);
    assert ScoredHere(x.cfg, b, c, 0, x.sample);
    ScoredFromOnce(x.cfg, b, 0, x.sample);
    hide Base, ScoresOf, WeightFor, ScoredFrom;
    HotScore(0, 0, WeightFor(x.cfg, ""));
    hide Score;
    assert c.snapshot[0] == Stat(2, "", 0, 0, 1.0, 0.0);
  }

  /** One such cycle from the start. */
  lemma LoneRun(m: real, damon: bool) returns (states: seq<State>, inputs: seq<Input>)
    requires m <= 0.0
    ensures Trace(states, inputs) && AllWith(inputs, m) && inputs == [LoneInput(m, Force, damon, [])]
    ensures Attempts(states[0], inputs[0], 2) && Reclaims(states[0], inputs[0], 2)
    ensures Cool(states[1].tracked, 2) == ACTION_COOLDOWN
  {
    var s0, x := State(map[], [], false, {}), LoneInput(m, Force, damon, []);
    LoneReclaims(s0, m, Force, damon, []);
    states, inputs := [s0, Cycle(s0, x).0], [x];
    hide Cycle, Valid, Reclaims, Attempts, LoneInput;
    assert Trace(states, inputs);
  }

  /** Two in a row, the second with the given fault counts. */
  lemma UnspacedRun(m: real, kind: Kind, faults: seq<(int, nat)>) returns (states: seq<State>, inputs: seq<Input>)
    requires m <= 0.0
    ensures Trace(states, inputs) && AllWith(inputs, m) && !Spaced(states, inputs)
    ensures |inputs| == 2 && inputs[1] == LoneInput(m, kind, false, faults)
    ensures Cool(states[1].tracked, 2) == ACTION_COOLDOWN && Reclaims(states[1], inputs[1], 2)
  {
    var first, begin := LoneRun(m, false);
    var x := LoneInput(m, kind, false, faults);
    LoneReclaims(first[1], m, kind, false, faults);
    states, inputs := first + [Cycle(first[1], x).0], begin + [x];
    hide Cycle, Valid, Reclaims, Attempts, LoneInput, ScoredZero;
    assert Trace(states, inputs);
    assert Reclaims(states[0], inputs[0], 2) && Reclaims(states[1], inputs[1], 2);
    assert ZeroCount(states, inputs, 0 + 1, 1, 2) == 0;
  }

  /** A process caught re-faulting is left alone for twenty zero scores, in every run whose least useful score is
      m, exactly when m is positive. */
  lemma ThrashHoldsIff(m: real)
    ensures
      (forall states, inputs :: Trace(states, inputs) && AllWith(inputs, m) ==> Spares(states, inputs)) <==> m > 0.0
  {
    hide Trace, Spares;
    if m > 0.0 {
      forall states, inputs | Trace(states, inputs) && AllWith(inputs, m) ensures Spares(states, inputs) {
        SparingRun(states, inputs);
      }
    } else {
      var states, inputs := ThrashedRun(m);
      assert Trace(states, inputs) && AllWith(inputs, m) && !Spares(states, inputs);
    }
  }

  ghost predicate Spares(states: seq<State>, inputs: seq<Input>)
    requires Trace(states, inputs)
  {
    forall i: nat, j: nat, p: int ::
      i <= j < |inputs| && Thrashed(states[i], inputs[i], p) && Reclaims(states[j], inputs[j], p) ==>
        ZeroCount(states, inputs, i, j, p) >= THRASH_COOLDOWN
  }

  lemma SparingRun(states: seq<State>, inputs: seq<Input>)
    requires Trace(states, inputs) && Selective(inputs)
    ensures Spares(states, inputs)
  {
    hide Cycle, Valid, Reclaims, Thrashed, ZeroCount, Selective;
    forall i: nat, j: nat, p: int |
      i <= j < |inputs| && Thrashed(states[i], inputs[i], p) && Reclaims(states[j], inputs[j], p)
      ensures ZeroCount(states, inputs, i, j, p) >= THRASH_COOLDOWN
    {
      ThrashHolds(states, inputs, i, j, p);
    }
  }

  /** Reclaimed from, caught re-faulting, and reclaimed from in the same cycle. */
  lemma ThrashedRun(m: real) returns (states: seq<State>, inputs: seq<Input>)
    requires m <= 0.0
    ensures Trace(states, inputs) && AllWith(inputs, m) && !Spares(states, inputs)
  {
    var faults := [(2, THRASH_FAULTS + 1)];
    states, inputs := UnspacedRun(m, Run, faults);
    LoneRefaults(states[1], m, faults);
    hide Cycle, Valid, Reclaims, LoneInput, Thrashed;
    assert Thrashed(states[1], inputs[1], 2) && Reclaims(states[1], inputs[1], 2);
    assert ZeroCount(states, inputs, 1, 1, 2) == 0;
  }

  lemma LoneRefaults(s: State, m: real, faults: seq<(int, nat)>)
    requires Cool(s.tracked, 2) > 0 && faults == [(2, THRASH_FAULTS + 1)]
    ensures Thrashed(s, LoneInput(m, Run, false, faults), 2)
  {
    assert faults[0].0 == 2;
  }

  /** Process p was tried in cycle j for good reason: DAMON was off, an earlier cycle had cleared its bits, and less
      than a quarter of it had been touched since. */
  ghost predicate Warranted(states: seq<State>, inputs: seq<Input>, j: nat, p: int)
    requires |states| == |inputs| + 1 && j < |inputs|
  {
    && !Prepared(states[j], inputs[j]).damonOn
    && (exists i :: 0 <= i < j && p !in states[i].cleared && p in states[i + 1].cleared)
    && inputs[j].sample(p).ok && 4 * inputs[j].sample(p).touchedKb < inputs[j].sample(p).totalKb
  }

  /** Every attempt is warranted, unless DAMON answers. */
  ghost predicate AllWarranted(states: seq<State>, inputs: seq<Input>)
    requires Trace(states, inputs)
  {
    forall j: nat, p: int ::
      j < |inputs| && inputs[j].damonAnswer.None? && Attempts(states[j], inputs[j], p) ==>
        Warranted(states, inputs, j, p)
  }

  /** That is so in every run whose least useful score is m exactly when m is positive. */
  lemma AttemptsWarrantedIff(m: real)
    ensures
      (forall states, inputs :: Trace(states, inputs) && AllWith(inputs, m) ==> AllWarranted(states, inputs)) <==>
      m > 0.0
  {
    if m > 0.0 {
      forall states, inputs | Trace(states, inputs) && AllWith(inputs, m) ensures AllWarranted(states, inputs) {
        WarrantedRun(states, inputs);
      }
    } else {
      var states, inputs := LoneRun(m, false);
      hide Attempts;
      assert !Warranted(states, inputs, 0, 2);
      assert Trace(states, inputs) && AllWith(inputs, m) && !AllWarranted(states, inputs);
    }
  }

  lemma WarrantedRun(states: seq<State>, inputs: seq<Input>)
    requires Trace(states, inputs) && Selective(inputs)
    ensures AllWarranted(states, inputs)
  {
    hide Cycle, Valid, Attempts, Prepared, Selective;
    forall j: nat, p: int | j < |inputs| && inputs[j].damonAnswer.None? && Attempts(states[j], inputs[j], p)
      ensures Warranted(states, inputs, j, p)
    {
      var i := AttemptsWarranted(states, inputs, j, p);
    }
  }

  /** No process is tried while DAMON is on and set_targets refuses. */
  ghost predicate DamonIdle(states: seq<State>, inputs: seq<Input>)
    requires Trace(states, inputs)
  {
    forall j: nat, p: int ::
      j < |inputs| && Prepared(states[j], inputs[j]).damonOn && inputs[j].damonAnswer.None? ==>
        !Attempts(states[j], inputs[j], p)
  }

  /** That, too, holds exactly for a positive least useful score. */
  lemma DamonNeverTriesIff(m: real)
    ensures
      (forall states, inputs :: Trace(states, inputs) && AllWith(inputs, m) ==> DamonIdle(states, inputs)) <==> m > 0.0
  {
    hide Attempts, Cycle, Valid;
    if m > 0.0 {
      forall states: seq<State>, inputs: seq<Input>, j: nat, p: int |
        Trace(states, inputs) && AllWith(inputs, m) && j < |inputs| &&
        Prepared(states[j], inputs[j]).damonOn && inputs[j].damonAnswer.None?
        ensures !Attempts(states[j], inputs[j], p)
      {
        DamonNeverTries(states[j], inputs[j], p);
      }
    } else {
      var states, inputs := LoneRun(m, true);
      assert Prepared(states[0], inputs[0]).damonOn;
      assert !DamonIdle(states, inputs);
    }
  }
}
