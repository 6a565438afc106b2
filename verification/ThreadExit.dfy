/** The end of a thread: undisturbed, its exit destructor gives back every block of its cache. */
module ThreadExit {
  import opened SizeClasses
  import opened Options
  import opened HeapSpec
  import opened Issuing
  import opened Protocol
  import opened ProtocolInv
  import opened ProtocolSteps
  import opened ProtocolHeapSteps
  import opened Guarantees
  import opened Progress

  lemma {:induction false} RunsThen(s: State, first: seq<Step>, v: State, rest: seq<Step>, u: State)
    requires Runs(s, first, v) && Runs(v, rest, u)
    ensures Runs(s, first + rest, u)
    decreases |first|
  {
    hide Sound, Guard, Orderly, Do;
    if first == [] {
      assert first + rest == rest;
    } else {
      RunsThen(Do(s, first[0]), first[1..], v, rest, u);
      assert (first + rest)[1..] == first[1..] + rest;
    }
  }

  /** No class lock is held. */
  ghost predicate NoneLocked(s: State) { |s.mu| == NUM_CLASSES && forall c :: 0 <= c < NUM_CLASSES ==> s.mu[c] == None }

  /** p is a block in a slot of the cache that the destructor has not passed. */
  ghost predicate Cached(th: Thread, p: Ptr) {
    p.Small? && exists c: nat, i: nat :: SlotLive(th, c, i) && th.cache.value[c][i] == p.b
  }

  /** Thread t is gone, the blocks of its cache are withdrawn, and nothing else has changed. */
  ghost predicate Gone(s: State, t: nat, u: State) {
    && t in s.threads && u.threads == s.threads - {t}
    && u.mu == s.mu && u.held == s.held && u.leaked == s.leaked && u.now == s.now && SameSettings(s, u)
    && forall p :: Issued(u.heap, p) <==> Issued(s.heap, p) && !Cached(s.threads[t], p)
  }

  /** Thread t stands in its destructor and may take every lock. */
  ghost predicate AtFlush(s: State, t: nat) {
    && Arises(s) && NoneLocked(s) && t in s.threads && s.threads[t].pc.Flushing?
    && s.threads[t].cache.Some? && |s.threads[t].cache.value| == NUM_CLASSES
  }

  /** One cached block: test, lock, give back, unlock. */
  lemma FlushOne(s: State, t: nat, c: nat, i: nat) returns (v: State)
    requires AtFlush(s, t) && s.threads[t].pc == Flushing(c, i) && HasSlot(s.threads[t], c, i)
    ensures Runs(s, [Flush(t), Lock(t), Give(t, s.now), Unlock(t)], v) && AtFlush(v, t)
    ensures v.threads == s.threads[t := s.threads[t].(pc := Flushing(c, i + 1))]
    ensures v.mu == s.mu && v.held == s.held && v.leaked == s.leaked && v.now == s.now && SameSettings(s, v)
    ensures
      var p := Small(s.threads[t].cache.value[c][i]);
      HeapStep(s.heap, v.heap, Some(p)) && !Issued(v.heap, p)
  {
    hide Arises, Sound, Runs, Consistent, Issued, DoFlush, GiveBlock, HeapStep;
    ArisesSound(s);
    ArisesConsistent(s);
    FlushNow(s, t);
    var s1 := SetPc(s, t, Waiting(c, FlushSlot(c, i)));
    ArisesNext(s, Flush(t));
    LockNow(s1, t, c, FlushSlot(c, i));
    var s2 := Entered(s1, t, c, FlushSlot(c, i));
    ArisesNext(s1, Lock(t));
    v := FlushGiven(s2, t, c, i);
    assert s.mu[c := Some(Worker(t))][c := None] == s.mu;
    RunsFirst(s1, Lock(t), [Give(t, s.now), Unlock(t)], v);
    assert [Lock(t)] + [Give(t, s.now), Unlock(t)] == [Lock(t), Give(t, s.now), Unlock(t)];
    RunsFirst(s, Flush(t), [Lock(t), Give(t, s.now), Unlock(t)], v);
    assert [Flush(t)] + [Lock(t), Give(t, s.now), Unlock(t)] == [Flush(t), Lock(t), Give(t, s.now), Unlock(t)];
  }

  /** The destructor's test finds the class. */
  lemma FlushNow(s: State, t: nat)
    requires AtFlush(s, t) && Sound(s)
    ensures
      var th := s.threads[t];
      var c, i := th.pc.c, th.pc.i;
      && Guard(s, Flush(t))
      && Do(s, Flush(t)) ==
         if c >= NUM_CLASSES then s.(threads := s.threads - {t})
         else if i >= |th.cache.value[c]| then SetPc(s, t, Flushing(c + 1, 0))
         else SetPc(s, t, Waiting(c, FlushSlot(c, i)))
  {
    hide Arises, Sound, Inv, DoFlush;
    var own := ReachableInv(s);
    FlushOutcome(s, own, t);
  }

  lemma FlushGiven(s: State, t: nat, c: nat, i: nat) returns (v: State)
    requires Arises(s) && Sound(s) && t in s.threads && s.threads[t].pc == Inside(c, FlushSlot(c, i))
    requires HasSlot(s.threads[t], c, i) && Consistent(s.heap) && c < |s.mu|
    ensures Runs(s, [Give(t, s.now), Unlock(t)], v) && Arises(v)
    ensures v.threads == s.threads[t := s.threads[t].(pc := Flushing(c, i + 1))] && v.mu == s.mu[c := None]
    ensures v.held == s.held && v.leaked == s.leaked && v.now == s.now && SameSettings(s, v)
    ensures
      var p := Small(s.threads[t].cache.value[c][i]);
      HeapStep(s.heap, v.heap, Some(p)) && !Issued(v.heap, p)
  {
    hide Arises, Sound, Runs, Consistent, Issued, GiveBlock, HeapStep;
    var b := s.threads[t].cache.value[c][i];
    GivenIssued(s, t);
    GiveStep(s.heap, b, s.now, s.now);
    var s1 := GaveState(s, t, b.base, GiveBlock(s.heap, b, s.now, s.now), s.now);
    ArisesNext(s, Give(t, s.now));
    UnlockNow(s1, t, c, FlushFrom(c, i + 1));
    v := DoUnlock(s1, t);
    ArisesNext(s1, Unlock(t));
    RunsLast(s1, Unlock(t));
    RunsFirst(s, Give(t, s.now), [Unlock(t)], v);
    assert [Give(t, s.now)] + [Unlock(t)] == [Give(t, s.now), Unlock(t)];
  }

  /** How much is left to do. */
  ghost function Left(th: Thread): (nat, nat) {
    if th.pc.Flushing? && th.pc.c < NUM_CLASSES && th.cache.Some? && th.pc.c < |th.cache.value| then
      (NUM_CLASSES - th.pc.c,
       if th.pc.i < |th.cache.value[th.pc.c]| then |th.cache.value[th.pc.c]| - th.pc.i else 0)
    else (0, 0)
  }

  lemma {:induction false} FlushAll(s: State, t: nat) returns (steps: seq<Step>, u: State)
    requires AtFlush(s, t)
    ensures Runs(s, steps, u) && Gone(s, t, u)
    decreases Left(s.threads[t]).0, Left(s.threads[t]).1
  {
    hide AtFlush, Runs, Sound, Guard, Do, Issued, HeapStep, Gone;
    var th := AtFlushThread(s, t);
    var c, i := th.pc.c, th.pc.i;
    if HasSlot(th, c, i) {
      var v := FlushOne(s, t, c, i);
      steps, u := FlushAll(v, t);
      RunsThen(s, [Flush(t), Lock(t), Give(t, s.now), Unlock(t)], v, steps, u);
      steps := [Flush(t), Lock(t), Give(t, s.now), Unlock(t)] + steps;
      OneFewer(s, t, c, i, v, u);
    } else {
      FlushSound(s, t);
      if c >= NUM_CLASSES {
        u := s.(threads := s.threads - {t});
        steps := [Flush(t)];
        RunsLast(s, Flush(t));
        NoneLeft(s, t);
      } else {
        var v := SetPc(s, t, Flushing(c + 1, 0));
        NextRow(s, t, v);
        steps, u := FlushAll(v, t);
        RunsFirst(s, Flush(t), steps, u);
        steps := [Flush(t)] + steps;
        SameLeft(s, t, v, u);
      }
    }
  }

  lemma AtFlushThread(s: State, t: nat) returns (th: Thread)
    requires AtFlush(s, t)
    ensures t in s.threads && th == s.threads[t] && th.pc.Flushing? && th.cache.Some? && |th.cache.value| == NUM_CLASSES
  {
    th := s.threads[t];
  }

  lemma FlushSound(s: State, t: nat)
    requires AtFlush(s, t)
    ensures t in s.threads && s.threads[t].pc.Flushing? && Sound(s) && Guard(s, Flush(t)) && Orderly(s, Flush(t))
    ensures s.threads[t].pc.c >= NUM_CLASSES ==> Do(s, Flush(t)) == s.(threads := s.threads - {t})
    ensures s.threads[t].pc.c < NUM_CLASSES && !HasSlot(s.threads[t], s.threads[t].pc.c, s.threads[t].pc.i) ==>
              Do(s, Flush(t)) == SetPc(s, t, Flushing(s.threads[t].pc.c + 1, 0))
  {
    hide Arises, Sound, Do;
    ArisesSound(s);
    FlushNow(s, t);
  }

  lemma NextRow(s: State, t: nat, v: State)
    requires AtFlush(s, t) && Sound(s) && Guard(s, Flush(t)) && Orderly(s, Flush(t)) && v == Do(s, Flush(t))
    requires exists pc: Pc :: pc.Flushing? && v == SetPc(s, t, pc)
    ensures AtFlush(v, t)
  {
    hide Arises, Sound, Guard, Orderly, Do;
    ArisesNext(s, Flush(t));
  }

  // ---------------------------------------------------------------- what has been withdrawn

  lemma OneFewer(s: State, t: nat, c: nat, i: nat, v: State, u: State)
    requires t in s.threads && s.threads[t].pc == Flushing(c, i) && HasSlot(s.threads[t], c, i)
    requires v.threads == s.threads[t := s.threads[t].(pc := Flushing(c, i + 1))] && Gone(v, t, u)
    requires v.mu == s.mu && v.held == s.held && v.leaked == s.leaked && v.now == s.now && SameSettings(s, v)
    requires
      var p := Small(s.threads[t].cache.value[c][i]);
      HeapStep(s.heap, v.heap, Some(p)) && !Issued(v.heap, p)
    ensures Gone(s, t, u)
  {
    hide Issued, SameKind;
    var b := s.threads[t].cache.value[c][i];
    forall p ensures Cached(s.threads[t], p) <==> p == Small(b) || Cached(v.threads[t], p) {
      CachedBut(s.threads[t], c, i, p);
    }
    assert u.threads == s.threads - {t};
  }

  lemma CachedBut(th: Thread, c: nat, i: nat, p: Ptr)
    requires th.pc == Flushing(c, i) && HasSlot(th, c, i)
    ensures Cached(th, p) <==> p == Small(th.cache.value[c][i]) || Cached(th.(pc := Flushing(c, i + 1)), p)
  {
    var th' := th.(pc := Flushing(c, i + 1));
    assert SlotLive(th, c, i);
    forall d: nat, j: nat ensures SlotLive(th, d, j) <==> (d == c && j == i) || SlotLive(th', d, j) {}
  }

  lemma NoneLeft(s: State, t: nat)
    requires t in s.threads && s.threads[t].pc.Flushing? && s.threads[t].pc.c >= NUM_CLASSES
    requires s.threads[t].cache.Some? && |s.threads[t].cache.value| == NUM_CLASSES
    ensures Gone(s, t, s.(threads := s.threads - {t}))
  {
    hide Issued;
  }

  lemma SameLeft(s: State, t: nat, v: State, u: State)
    requires t in s.threads && s.threads[t].pc.Flushing? && v == SetPc(s, t, Flushing(s.threads[t].pc.c + 1, 0))
    requires !HasSlot(s.threads[t], s.threads[t].pc.c, s.threads[t].pc.i) && Gone(v, t, u)
    ensures Gone(s, t, u)
  {
    hide Issued;
    forall d: nat, j: nat ensures SlotLive(s.threads[t], d, j) <==> SlotLive(v.threads[t], d, j) {}
    forall p ensures Cached(s.threads[t], p) <==> Cached(v.threads[t], p) {}
    assert u.threads == s.threads - {t};
  }

  // ---------------------------------------------------------------- the exit

  /** A thread that exits when no lock is held goes through to its end, and then every block of its cache is free in its
      bitmap again, nothing else is issued or withdrawn, and the locks are as before. */
  lemma ExitCompletes(s: State, t: nat) returns (steps: seq<Step>, u: State)
    requires Arises(s) && NoneLocked(s) && t in s.threads && s.threads[t].pc == Idle
    ensures Runs(s, [Exit(t)] + steps, u) && Gone(s, t, u)
  {
    hide Arises, Sound, Runs, Issued;
    ArisesSound(s);
    ArisesNext(s, Exit(t));
    var v := Do(s, Exit(t));
    if s.threads[t].cache.None? {
      steps, u := [], v;
      RunsLast(s, Exit(t));
      assert [Exit(t)] + [] == [Exit(t)];
    } else {
      CacheRows(s, t);
      steps, u := FlushAll(v, t);
      RunsFirst(s, Exit(t), steps, u);
      forall d: nat, j: nat ensures SlotLive(s.threads[t], d, j) <==> SlotLive(v.threads[t], d, j) {}
      assert u.threads == s.threads - {t};
    }
  }
}
