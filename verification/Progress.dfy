/** What a call does when nobody gets in between: from any reachable state the steps of a whole malloc or
    free can be taken one after the other, and leave what the call promises. */
module Progress {
  import opened Arith
  import opened SizeClasses
  import opened Options
  import Reserve
  import opened HeapSpec
  import opened Issuing
  import opened Ownership
  import opened Protocol
  import opened ProtocolInv
  import opened ProtocolSteps
  import opened ProtocolHeapSteps
  import opened Guarantees

  /** The given steps can be taken in turn from s, none upsets the reserve, and they lead to u. */
  ghost predicate Runs(s: State, steps: seq<Step>, u: State)
    decreases |steps|
  {
    if steps == [] then u == s
    else Sound(s) && Guard(s, steps[0]) && Orderly(s, steps[0]) && Runs(Do(s, steps[0]), steps[1..], u)
  }

  lemma ArisesNext(s: State, st: Step)
    requires Arises(s) && Sound(s) && Guard(s, st) && Orderly(s, st)
    ensures Arises(Do(s, st)) && Sound(Do(s, st))
  {
    hide Sound, Guard, Orderly, Do, Starts;
    var trace, steps :| Execution(trace, steps) && trace[|steps|] == s;
    var u := Do(s, st);
    assert Execution(trace + [u], steps + [st]);
    assert (trace + [u])[|steps + [st]|] == u;
    ArisesSound(u);
  }

  lemma {:induction false} RunsArise(s: State, steps: seq<Step>, u: State)
    requires Arises(s) && Runs(s, steps, u)
    ensures Arises(u)
    decreases |steps|
  {
    hide Sound, Guard, Orderly, Do, Arises;
    if steps != [] {
      ArisesNext(s, steps[0]);
      RunsArise(Do(s, steps[0]), steps[1..], u);
    }
  }

  /** One more step in front. */
  lemma RunsFirst(s: State, st: Step, rest: seq<Step>, u: State)
    requires Sound(s) && Guard(s, st) && Orderly(s, st) && Runs(Do(s, st), rest, u)
    ensures Runs(s, [st] + rest, u)
  {
    hide Sound, Guard, Orderly, Do;
    assert ([st] + rest)[1..] == rest;
  }

  /** A thread starts idle, with no cache or with 68 empty rows. */
  lemma SpawnCompletes(s: State, t: nat, caching: bool) returns (u: State)
    requires Arises(s) && t !in s.threads
    ensures Runs(s, [Spawn(t, caching)], u) && t in u.threads && u == s.(threads := s.threads[t := u.threads[t]])
    ensures u.threads[t].pc == Idle && (u.threads[t].cache.Some? <==> caching)
    ensures caching ==>
              |u.threads[t].cache.value| == 68 && forall c :: 0 <= c < 68 ==> u.threads[t].cache.value[c] == []
  {
    hide Arises, Sound;
    ArisesSound(s);
    u := Do(s, Spawn(t, caching));
    RunsLast(s, Spawn(t, caching));
  }

  // ---------------------------------------------------------------- no deadlock

  /** The thread a step belongs to, if it is one of the steps of a call. */
  function ThreadOf(st: Step): Option<nat> {
    match st
    case MallocSmall(t, _) => Some(t)
    case Lock(t) => Some(t)
    case Take(t, _) => Some(t)
    case Give(t, _) => Some(t)
    case Unlock(t) => Some(t)
    case Test(t) => Some(t)
    case Route(t) => Some(t)
    case Unmap(t) => Some(t)
    case Flush(t) => Some(t)
    case _ => None
  }

  /** Step st is the holder's own. */
  predicate ActsFor(st: Step, o: Holder) {
    match o
    case Worker(t) => ThreadOf(st) == Some(t)
    case Trimmer => st.TrimWake? || st.TrimLock? || st.TrimVisit? || st.TrimUnlock? || st.TrimDone?
  }

  /** Whoever holds a class lock can take a step. */
  lemma HolderMoves(s: State, c: nat) returns (st: Step)
    requires Arises(s) && c < NUM_CLASSES && c < |s.mu| && s.mu[c].Some?
    ensures Sound(s) && Guard(s, st) && ActsFor(st, s.mu[c].value)
  {
    hide Arises, Sound, Consistent, Owned, OwnsIssued, AllOk, TrimSound;
    var own := ReachableInv(s);
    assert HolderInside(s, c, s.mu[c].value);
    match s.mu[c].value
    case Worker(t) =>
      assert ThreadOk(s.threads[t]);
      st := InsideStep(s, t);
    case Trimmer => st := if s.trim.cur.Some? then TrimVisit else TrimUnlock;
  }

  lemma InsideStep(s: State, t: nat) returns (st: Step)
    requires t in s.threads && ThreadOk(s.threads[t]) && Holding(s.threads[t].pc).Some?
    ensures Guard(s, st) && ActsFor(st, Worker(t))
  {
    match s.threads[t].pc
    case Leaving(_, _) => st := Unlock(t);
    case Inside(_, Alloc(_)) => st := Step.Take(t, true);
    case Inside(_, _) => st := Give(t, s.now);
  }

  /** In every reachable state each thread can take a step of its own, or waits for a class lock whose holder
      can: locks alone never bring the system to a halt. */
  lemma NoDeadlock(s: State, t: nat) returns (o: Holder, st: Step)
    requires Arises(s) && t in s.threads
    ensures Sound(s) && Guard(s, st) && ActsFor(st, o)
    ensures o == Worker(t) ||
            (s.threads[t].pc.Waiting? && s.threads[t].pc.c < |s.mu| && s.mu[s.threads[t].pc.c] == Some(o))
  {
    hide Arises, Sound, Consistent, Owned, OwnsIssued, AllOk, TrimSound;
    var own := ReachableInv(s);
    assert ThreadOk(s.threads[t]);
    o := Worker(t);
    match s.threads[t].pc
    case Idle => st := MallocSmall(t, 1);
    case Testing(_) => st := Test(t);
    case Routed(_) => st := Route(t);
    case Unmapping(_) => st := Unmap(t);
    case Flushing(_, _) => st := Flush(t);
    case Waiting(c, _) =>
      if s.mu[c].Some? {
        o := s.mu[c].value;
        st := HolderMoves(s, c);
      } else {
        st := Lock(t);
      }
    case Inside(_, _) => st := InsideStep(s, t);
    case Leaving(_, _) => st := Unlock(t);
  }

  /** The trimmer, too, can always go on, or waits for a lock whose holder can. */
  lemma TrimmerNoDeadlock(s: State) returns (o: Holder, st: Step)
    requires Arises(s)
    ensures Sound(s) && Guard(s, st) && ActsFor(st, o)
    ensures o == Trimmer || (s.trim.AtClass? && s.trim.c < |s.mu| && s.mu[s.trim.c] == Some(o))
  {
    hide Arises, Sound, Consistent, Owned, OwnsIssued, AllOk;
    var own := ReachableInv(s);
    o := Trimmer;
    match s.trim
    case Asleep => st := TrimWake;
    case AtClass(_, c) =>
      if c == NUM_CLASSES {
        st := TrimDone;
      } else if s.mu[c].Some? {
        o := s.mu[c].value;
        st := HolderMoves(s, c);
      } else {
        st := TrimLock;
      }
    case Walking(_, _, cur) => st := if cur.Some? then TrimVisit else TrimUnlock;
  }

  // ---------------------------------------------------------------- malloc

  /** Thread t may take and leave the lock of class c. */
  ghost predicate LockFree(s: State, t: nat, c: nat) {
    t in s.threads && c < |s.mu| && s.mu[c] == None
  }

  /** The state in which t holds the lock of class c for the given job. */
  function Entered(s: State, t: nat, c: nat, job: Job): State
    requires t in s.threads && c < |s.mu|
  {
    SetPc(s, t, Inside(c, job)).(mu := s.mu[c := Some(Worker(t))])
  }

  lemma LockNow(s: State, t: nat, c: nat, job: Job)
    requires LockFree(s, t, c) && s.threads[t].pc == Waiting(c, job) && Sound(s)
    ensures Guard(s, Lock(t)) && Do(s, Lock(t)) == Entered(s, t, c, job)
  {
    hide Sound;
  }

  /** Class c (0-based) is the least whose blocks hold max(n, 1) bytes. */
  ghost predicate ServedBy(n: nat, c: nat) { n <= 2097152 && IsLeastClass(if n == 0 then 1 else n, c + 1) }

  /** malloc on a cache miss takes its class lock, a block and no more: four steps, the thread and the locks
      as before, and on success the new block is the client's. */
  lemma MallocCompletes(s: State, t: nat, n: nat, c: nat, mapped: bool) returns (u: State)
    requires Arises(s) && ServedBy(n, c) && LockFree(s, t, c) && s.threads[t].pc == Idle
    requires s.threads[t].cache.Some? ==> !HasSlot(s.threads[t], c, 0)
    requires HasClass(s.heap, c) ==> TakeFits(s.heap, c)
    ensures Runs(s, [MallocSmall(t, n), Lock(t), Step.Take(t, mapped), Unlock(t)], u)
    ensures HasClass(s.heap, c) && Obtained(s, u, if n == 0 then 1 else n, TakeBlock(s.heap, c, s.now, mapped))
  {
    hide Arises, Sound, Guard, Do, ServedBy, Runs, Consistent, TakeFits, TakeBlock, Obtained;
    var m := if n == 0 then 1 else n;
    ArisesSound(s);
    MissNow(s, t, n, c);
    HasItsClass(s, c);
    ArisesNext(s, MallocSmall(t, n));
    u := FromWaiting(SetPc(s, t, Waiting(c, Alloc(m))), t, m, c, mapped);
    RunsFirst(s, MallocSmall(t, n), [Lock(t), Step.Take(t, mapped), Unlock(t)], u);
    assert [MallocSmall(t, n)] + [Lock(t), Step.Take(t, mapped), Unlock(t)] ==
           [MallocSmall(t, n), Lock(t), Step.Take(t, mapped), Unlock(t)];
    ObtainedFrom(s, SetPc(s, t, Waiting(c, Alloc(m))), t, u, m, TakeBlock(s.heap, c, s.now, mapped));
  }

  /** What no step of a call touches. */
  predicate SameSettings(s: State, u: State) {
    u.trim == s.trim && u.runIdle == s.runIdle && u.dirtyIdle == s.dirtyIdle
  }

  /** The end of an undisturbed malloc: the heap after the take, and the answer with the client. */
  ghost predicate Obtained(s: State, u: State, n: nat, taken: (Heap, Option<Block>)) {
    && u.heap == taken.0 && u.threads == s.threads && u.mu == s.mu && u.leaked == s.leaked
    && u.now == s.now && SameSettings(s, u)
    && u.held == if taken.1.Some? then s.held[Small(taken.1.value) := n] else s.held
  }

  /** The same, seen from a state in which t is somewhere else in the call. */
  ghost predicate ObtainedBy(s: State, t: nat, u: State, n: nat, taken: (Heap, Option<Block>)) {
    && t in s.threads
    && u.heap == taken.0 && u.threads == s.threads[t := s.threads[t].(pc := Idle)] && u.leaked == s.leaked
    && u.now == s.now && SameSettings(s, u)
    && u.held == if taken.1.Some? then s.held[Small(taken.1.value) := n] else s.held
  }

  lemma ObtainedFrom(s: State, s1: State, t: nat, u: State, n: nat, taken: (Heap, Option<Block>))
    requires t in s.threads && s.threads[t].pc == Idle && t in s1.threads && s1 == SetPc(s, t, s1.threads[t].pc)
    requires ObtainedBy(s1, t, u, n, taken) && u.mu == s1.mu
    ensures Obtained(s, u, n, taken)
  {
    assert s.threads[t := s.threads[t].(pc := Idle)] == s.threads;
  }

  lemma FromWaiting(s: State, t: nat, n: nat, c: nat, mapped: bool) returns (u: State)
    requires Arises(s) && Sound(s) && LockFree(s, t, c) && s.threads[t].pc == Waiting(c, Alloc(n))
    requires HasClass(s.heap, c) && TakeFits(s.heap, c)
    ensures Runs(s, [Lock(t), Step.Take(t, mapped), Unlock(t)], u)
    ensures ObtainedBy(s, t, u, n, TakeBlock(s.heap, c, s.now, mapped)) && u.mu == s.mu
  {
    hide Arises, Sound, Guard, Do, Runs, Consistent, TakeFits, TakeBlock;
    LockNow(s, t, c, Alloc(n));
    ArisesNext(s, Lock(t));
    u := FromInside(Entered(s, t, c, Alloc(n)), t, n, c, mapped);
    RunsFirst(s, Lock(t), [Step.Take(t, mapped), Unlock(t)], u);
    assert [Lock(t)] + [Step.Take(t, mapped), Unlock(t)] == [Lock(t), Step.Take(t, mapped), Unlock(t)];
    assert s.mu[c := Some(Worker(t))][c := None] == s.mu;
  }

  lemma FromInside(s: State, t: nat, n: nat, c: nat, mapped: bool) returns (u: State)
    requires Arises(s) && Sound(s) && t in s.threads && s.threads[t].pc == Inside(c, Alloc(n))
    requires HasClass(s.heap, c) && TakeFits(s.heap, c) && c < |s.mu|
    ensures Runs(s, [Step.Take(t, mapped), Unlock(t)], u)
    ensures ObtainedBy(s, t, u, n, TakeBlock(s.heap, c, s.now, mapped)) && u.mu == s.mu[c := None]
  {
    hide Arises, Sound, Guard, Do, Runs, Consistent, TakeFits, TakeBlock;
    var (g, b) := TakeBlock(s.heap, c, s.now, mapped);
    var s3 := TookState(s, t, g, b);
    TakeNow(s, t, n, c, mapped);
    ArisesNext(s, Step.Take(t, mapped));
    UnlockNow(s3, t, c, Answer(n, b));
    u := DoUnlock(s3, t);
    RunsLast(s3, Unlock(t));
    RunsFirst(s, Step.Take(t, mapped), [Unlock(t)], u);
    assert [Step.Take(t, mapped)] + [Unlock(t)] == [Step.Take(t, mapped), Unlock(t)];
  }

  lemma TakeNow(s: State, t: nat, n: nat, c: nat, mapped: bool)
    requires Sound(s) && t in s.threads && s.threads[t].pc == Inside(c, Alloc(n))
    requires HasClass(s.heap, c) && TakeFits(s.heap, c)
    ensures Guard(s, Step.Take(t, mapped)) && Orderly(s, Step.Take(t, mapped))
    ensures
      var (g, b) := TakeBlock(s.heap, c, s.now, mapped);
      Do(s, Step.Take(t, mapped)) == TookState(s, t, g, b)
  {
    hide Sound, Consistent, TakeBlock, TakeFits, TookState;
  }

  lemma HasItsClass(s: State, c: nat)
    requires Arises(s) && c < NUM_CLASSES
    ensures HasClass(s.heap, c)
  {
    hide Arises, Consistent;
    ArisesConsistent(s);
  }

  lemma MissNow(s: State, t: nat, n: nat, c: nat)
    requires Sound(s) && t in s.threads && s.threads[t].pc == Idle && ServedBy(n, c)
    requires s.threads[t].cache.Some? ==> !HasSlot(s.threads[t], c, 0)
    ensures c < NUM_CLASSES && Guard(s, MallocSmall(t, n))
    ensures Do(s, MallocSmall(t, n)) == SetPc(s, t, Waiting(c, Alloc(if n == 0 then 1 else n)))
  {
    assert ThreadSound(s.heap, s.threads[t]);
    LeastClassUnique(Asked(n), ClassFor(Asked(n)), c + 1);
    hide Sound, ClassFor, IsLeastClass;
  }

  lemma UnlockNow(s: State, t: nat, c: nat, after: After)
    requires Sound(s) && t in s.threads && s.threads[t].pc == Leaving(c, after)
    ensures Guard(s, Unlock(t)) && c < |s.mu| && Do(s, Unlock(t)) == DoUnlock(s, t)
  {
    CanUnlockNow(s, t);
    hide Sound;
  }

  lemma RunsLast(s: State, st: Step)
    requires Sound(s) && Guard(s, st) && Orderly(s, st)
    ensures Runs(s, [st], Do(s, st))
  {
    hide Sound, Guard, Orderly, Do;
  }

  // ---------------------------------------------------------------- free

  /** The end of an undisturbed free that started in s. */
  ghost predicate Returned(s: State, t: nat, u: State, g: Heap, stamp: nat) {
    && t in s.threads && u.now == stamp && SameSettings(s, u)
    && u.heap == g && u.threads == s.threads[t := s.threads[t].(pc := Idle)]
    && u.leaked == s.leaked && u.held == s.held
  }

  /** The thread's cache has no room for another block of class c. */
  predicate NoSlot(th: Thread, c: nat) {
    th.cache.Some? ==> c < |th.cache.value| && |th.cache.value[c]| >= 16
  }

  /** free of a held block that its run's base address leads to, without a cache or with a full row in it: six
      steps, the thread and the locks as before, and the block is free in its run's bitmap again. */
  lemma FreeCompletes(s: State, t: nat, b: Block, c: nat, stamp: nat) returns (u: State)
    requires Arises(s) && t in s.threads && s.threads[t].pc == Idle && Small(b) in s.held && s.now <= stamp
    requires NoSlot(s.threads[t], c)
    requires Issued(s.heap, Small(b)) && Ownership.Reachable(s.heap.runs[b.base].elem, b.idx)
    requires s.heap.runs[b.base].cls == c + 1 && LockFree(s, t, c)
    ensures Runs(s, [Step.Free(t, Small(b)), Test(t), Route(t), Lock(t), Give(t, stamp), Unlock(t)], u)
    ensures u.threads == s.threads && u.mu == s.mu && u.leaked == s.leaked && u.held == s.held - {Small(b)}
    ensures u.now == stamp && SameSettings(s, u) && Consistent(s.heap) && u.heap == GiveBlock(s.heap, b, s.now, stamp)
    ensures !Issued(u.heap, Small(b)) && HeapStep(s.heap, u.heap, Some(Small(b)))
  {
    hide Arises, Sound, Do, Runs, Consistent, Issued, Ownership.Reachable, GiveBlock, HeapStep;
    ArisesSound(s);
    ArisesConsistent(s);
    var s1 := Freeing(s, t, Small(b));
    FreeNow(s, t, b);
    ArisesNext(s, Step.Free(t, Small(b)));
    u := FromTesting(s1, t, b, c, stamp);
    RunsFirst(s, Step.Free(t, Small(b)), [Test(t), Route(t), Lock(t), Give(t, stamp), Unlock(t)], u);
    assert [Step.Free(t, Small(b))] + [Test(t), Route(t), Lock(t), Give(t, stamp), Unlock(t)] ==
           [Step.Free(t, Small(b)), Test(t), Route(t), Lock(t), Give(t, stamp), Unlock(t)];
    assert s1.threads[t := s1.threads[t].(pc := Idle)] == s.threads;
    GiveStep(s.heap, b, s.now, stamp);
  }

  /** With room in the cache three steps do it: the block goes into its row, and nothing shared changes. */
  lemma FreeCaches(s: State, t: nat, b: Block, c: nat) returns (u: State)
    requires Arises(s) && t in s.threads && s.threads[t].pc == Idle && Small(b) in s.held
    requires Issued(s.heap, Small(b)) && Ownership.Reachable(s.heap.runs[b.base].elem, b.idx)
    requires s.heap.runs[b.base].cls == c + 1 && s.threads[t].cache.Some? && !NoSlot(s.threads[t], c)
    ensures Runs(s, [Step.Free(t, Small(b)), Test(t), Route(t)], u)
    ensures
      var slots := s.threads[t].cache.value;
      c < |slots| &&
      u == s.(held := s.held - {Small(b)}, threads := s.threads[t := Thread(Idle, Some(slots[c := slots[c] + [b]]))])
  {
    hide Arises, Sound, Runs, Consistent, Issued, Ownership.Reachable, DoTest;
    ArisesSound(s);
    CacheRows(s, t);
    var s1 := Freeing(s, t, Small(b));
    FreeNow(s, t, b);
    ArisesNext(s, Step.Free(t, Small(b)));
    TestOutcome(s1, t, Small(b));
    var s2 := SetPc(s1, t, Routed(b));
    ArisesNext(s1, Test(t));
    CanRouteNow(s2, t);
    u := DoRoute(s2, t);
    RunsLast(s2, Route(t));
    RunsFirst(s1, Test(t), [Route(t)], u);
    assert [Test(t)] + [Route(t)] == [Test(t), Route(t)];
    RunsFirst(s, Step.Free(t, Small(b)), [Test(t), Route(t)], u);
    assert [Step.Free(t, Small(b))] + [Test(t), Route(t)] == [Step.Free(t, Small(b)), Test(t), Route(t)];
  }

  lemma CacheRows(s: State, t: nat)
    requires Sound(s) && t in s.threads && s.threads[t].cache.Some?
    ensures |s.threads[t].cache.value| == NUM_CLASSES
  {
    hide Consistent, TrimSound;
    assert ThreadSound(s.heap, s.threads[t]);
  }

  /** malloc of a size whose row is not empty: one step, which pops the row's last block. */
  lemma MallocPops(s: State, t: nat, n: nat, c: nat) returns (u: State)
    requires Arises(s) && t in s.threads && s.threads[t].pc == Idle && ServedBy(n, c)
    requires HasSlot(s.threads[t], c, 0)
    ensures Runs(s, [MallocSmall(t, n)], u)
    ensures
      var slots := s.threads[t].cache.value;
      var b := slots[c][|slots[c]| - 1];
      u == s.(held := s.held[Small(b) := if n == 0 then 1 else n],
              threads := s.threads[t := Thread(Idle, Some(slots[c := slots[c][..|slots[c]| - 1]]))])
  {
    LeastClassUnique(Asked(n), ClassFor(Asked(n)), c + 1);
    hide Arises, Sound, Consistent, ClassFor, IsLeastClass;
    ArisesSound(s);
    CacheRows(s, t);
    u := Do(s, MallocSmall(t, n));
    RunsLast(s, MallocSmall(t, n));
  }

  lemma FreeNow(s: State, t: nat, b: Block)
    requires Sound(s) && t in s.threads && s.threads[t].pc == Idle && Small(b) in s.held
    ensures Guard(s, Step.Free(t, Small(b))) && Do(s, Step.Free(t, Small(b))) == Freeing(s, t, Small(b))
  {
    hide Sound;
  }

  lemma FromTesting(s: State, t: nat, b: Block, c: nat, stamp: nat) returns (u: State)
    requires Arises(s) && Sound(s) && s.now <= stamp
    requires t in s.threads && s.threads[t].pc == Testing(Small(b)) && NoSlot(s.threads[t], c)
    requires Consistent(s.heap) && Issued(s.heap, Small(b)) && Ownership.Reachable(s.heap.runs[b.base].elem, b.idx)
    requires s.heap.runs[b.base].cls == c + 1 && LockFree(s, t, c)
    ensures Runs(s, [Test(t), Route(t), Lock(t), Give(t, stamp), Unlock(t)], u)
    ensures Returned(s, t, u, GiveBlock(s.heap, b, s.now, stamp), stamp) && u.mu == s.mu
  {
    hide Arises, Sound, Runs, Consistent, Issued, Ownership.Reachable, GiveBlock, DoTest;
    TestOutcome(s, t, Small(b));
    var s1 := SetPc(s, t, Routed(b));
    ArisesNext(s, Test(t));
    u := FromRouted(s1, t, b, c, stamp);
    RunsFirst(s, Test(t), [Route(t), Lock(t), Give(t, stamp), Unlock(t)], u);
    assert [Test(t)] + [Route(t), Lock(t), Give(t, stamp), Unlock(t)] ==
           [Test(t), Route(t), Lock(t), Give(t, stamp), Unlock(t)];
  }

  lemma FromRouted(s: State, t: nat, b: Block, c: nat, stamp: nat) returns (u: State)
    requires Arises(s) && Sound(s) && t in s.threads && s.threads[t].pc == Routed(b) && s.now <= stamp
    requires NoSlot(s.threads[t], c)
    requires Consistent(s.heap) && Issued(s.heap, Small(b)) && s.heap.runs[b.base].cls == c + 1 && LockFree(s, t, c)
    ensures Runs(s, [Route(t), Lock(t), Give(t, stamp), Unlock(t)], u)
    ensures Returned(s, t, u, GiveBlock(s.heap, b, s.now, stamp), stamp) && u.mu == s.mu
  {
    hide Arises, Sound, Runs, Consistent, Issued, GiveBlock;
    CanRouteNow(s, t);
    var s1 := SetPc(s, t, Waiting(c, Release(b)));
    ArisesNext(s, Route(t));
    LockNow(s1, t, c, Release(b));
    var s2 := Entered(s1, t, c, Release(b));
    ArisesNext(s1, Lock(t));
    u := FromReleasing(s2, t, b, c, stamp);
    RunsFirst(s1, Lock(t), [Give(t, stamp), Unlock(t)], u);
    assert [Lock(t)] + [Give(t, stamp), Unlock(t)] == [Lock(t), Give(t, stamp), Unlock(t)];
    RunsFirst(s, Route(t), [Lock(t), Give(t, stamp), Unlock(t)], u);
    assert [Route(t)] + [Lock(t), Give(t, stamp), Unlock(t)] == [Route(t), Lock(t), Give(t, stamp), Unlock(t)];
    assert s.mu[c := Some(Worker(t))][c := None] == s.mu;
  }

  lemma FromReleasing(s: State, t: nat, b: Block, c: nat, stamp: nat) returns (u: State)
    requires Arises(s) && Sound(s) && t in s.threads && s.threads[t].pc == Inside(c, Release(b))
    requires Consistent(s.heap) && Issued(s.heap, Small(b)) && c < |s.mu| && s.now <= stamp
    ensures Runs(s, [Give(t, stamp), Unlock(t)], u)
    ensures Returned(s, t, u, GiveBlock(s.heap, b, s.now, stamp), stamp) && u.mu == s.mu[c := None]
  {
    hide Arises, Sound, Runs, Consistent, Issued, GiveBlock;
    var s1 := GaveState(s, t, b.base, GiveBlock(s.heap, b, s.now, stamp), stamp);
    ArisesNext(s, Give(t, stamp));
    UnlockNow(s1, t, c, Freed);
    u := DoUnlock(s1, t);
    RunsLast(s1, Unlock(t));
    RunsFirst(s, Give(t, stamp), [Unlock(t)], u);
    assert [Give(t, stamp)] + [Unlock(t)] == [Give(t, stamp), Unlock(t)];
  }

  // ---------------------------------------------------------------- large requests

  /** A large malloc is one step. It hands out the region at the next page boundary exactly when that can be mapped. */
  lemma LargeCompletes(s: State, t: nat, n: nat, mapped: bool) returns (u: State)
    requires Arises(s) && t in s.threads && s.threads[t].pc == Idle && 2097152 < n < WORD64
    requires LargeKept(s.heap, n, mapped)
    ensures Runs(s, [MallocLarge(t, n, mapped)], u)
    ensures u.threads == s.threads && u.mu == s.mu && u.leaked == s.leaked && u.now == s.now && SameSettings(s, u)
    ensures
      var base := Reserve.Place(s.heap.bump, 4096);
      if Reserve.Placed(s.heap.bump, s.heap.end, LargeMapBytes(n), 4096, mapped) then
        && u.held == s.held[Large(base) := n] && !Issued(s.heap, Large(base)) && Issued(u.heap, Large(base))
        && HeapStep(s.heap, u.heap, Some(Large(base)))
      else u.held == s.held && HeapStep(s.heap, u.heap, None)
  {
    hide Arises, Sound, Consistent, LargeMapBytes, Reserve.Placed, Reserve.Place, LargeKept, Issued, HeapStep;
    ArisesSound(s);
    ArisesConsistent(s);
    MapLargeStep(s.heap, n, mapped);
    u := Do(s, MallocLarge(t, n, mapped));
    RunsLast(s, MallocLarge(t, n, mapped));
  }

  /** free of a held large region: test and unmapping; the region is gone from the mappings. */
  lemma LargeFreeCompletes(s: State, t: nat, base: nat) returns (u: State)
    requires Arises(s) && t in s.threads && s.threads[t].pc == Idle && Large(base) in s.held
    ensures Runs(s, [Step.Free(t, Large(base)), Test(t), Unmap(t)], u)
    ensures u.threads == s.threads && u.mu == s.mu && u.leaked == s.leaked && u.held == s.held - {Large(base)}
    ensures base in s.heap.space && u.heap.space == s.heap.space - {base}
    ensures !Issued(u.heap, Large(base)) && HeapStep(s.heap, u.heap, Some(Large(base)))
  {
    hide Arises, Sound, Runs, Consistent, Issued, DoTest, HeapStep;
    ArisesSound(s);
    ArisesConsistent(s);
    HeldIsIssued(s, base);
    var s1 := Freeing(s, t, Large(base));
    ArisesNext(s, Step.Free(t, Large(base)));
    TestOutcome(s1, t, Large(base));
    var s2 := SetPc(s1, t, Unmapping(base));
    ArisesNext(s1, Test(t));
    UnmapLargeStep(s.heap, base);
    u := Do(s2, Unmap(t));
    RunsLast(s2, Unmap(t));
    RunsFirst(s1, Test(t), [Unmap(t)], u);
    assert [Test(t)] + [Unmap(t)] == [Test(t), Unmap(t)];
    RunsFirst(s, Step.Free(t, Large(base)), [Test(t), Unmap(t)], u);
    assert [Step.Free(t, Large(base))] + [Test(t), Unmap(t)] == [Step.Free(t, Large(base)), Test(t), Unmap(t)];
    assert u.threads == s.threads;
  }

  lemma HeldIsIssued(s: State, base: nat)
    requires Sound(s) && Consistent(s.heap) && Large(base) in s.held
    ensures Issued(s.heap, Large(base)) && base in s.heap.large && base in s.heap.space
  {
    hide ThreadSound, TrimSound;
    assert Issued(s.heap, Large(base));
    assert LargeOk(s.heap, base);
  }
}
