/** The steps that change the shared state keep the invariant too; so does any step, and any run. */
module ProtocolHeapSteps {
  import opened Arith
  import opened Seqs
  import opened SizeClasses
  import opened Options
  import opened Reserve
  import opened HeapSpec
  import opened HeapProofs
  import opened Issuing
  import opened Ownership
  import opened Protocol
  import opened ProtocolInv
  import opened ProtocolSteps

  lemma TrimFrame(h: Heap, g: Heap, trim: Trim)
    requires TrimSound(h, trim) && Shape(g)
    requires trim.Walking? && trim.c < NUM_CLASSES ==> Shape(h) && h.lists[trim.c] == g.lists[trim.c]
    requires trim.Walking? ==> h.runs.Keys <= g.runs.Keys
    ensures TrimSound(g, trim)
  {}

  // ---------------------------------------------------------------- large regions

  lemma MallocLargeKeeps(s: State, own: map<Ptr, Place>, n: nat, mapped: bool) returns (own': map<Ptr, Place>)
    requires Inv(s, own) && LARGE_MIN <= n < WORD64 && LargeKept(s.heap, n, mapped)
    ensures Inv(DoMallocLarge(s, n, mapped), own')
  {
    hide Issued, PtrOk, HeapStep, Moves, LocksOk, OwnsIssued, Owned, AllOk, ThreadsOk, RunOk, LargeOk, ListOk,
      LiveOk, SpaceOk, LargeKept, MapLarge, TrimSound, Consistent;
    var (g, base) := MapLarge(s.heap, n, mapped);
    MapLargeKeeps(s.heap, n, mapped);
    MapLargeStep(s.heap, n, mapped);
    ConsistentShape(s.heap);
    ConsistentShape(g);
    TrimFrame(s.heap, g, s.trim);
    own' := GrantKeeps(s, own, g, base, n);
  }

  lemma ConsistentShape(h: Heap)
    requires Consistent(h)
    ensures Shape(h)
  {}

  lemma GrantKeeps(s: State, own: map<Ptr, Place>, g: Heap, base: Option<nat>, n: nat) returns (own': map<Ptr, Place>)
    requires Inv(s, own) && MappedOne(s.heap, g, base, n) && Consistent(g) && n >= LARGE_MIN && TrimSound(g, s.trim)
    requires base.Some? ==> base.value in g.large && HasRoom(g.large[base.value])
    ensures
      var s' := s.(heap := g);
      Inv(if base.Some? then s'.(held := s.held[Large(base.value) := n]) else s', own')
  {
    hide Issued, PtrOk, HeapStep, Moves, OwnsIssued, Owned, AllOk, Consistent, TrimSound;
    var s' := s.(heap := g);
    assert 0 in s.threads ==> ThreadOk(s.threads[0]);
    if base.None? {
      own' := own;
      StayMoves(s, s');
      Move(s, own, s', 0, None, None);
    } else {
      var p := Large(base.value);
      s' := s'.(held := s.held[p := n]);
      own' := Rehome(own, Some(p), Some(Client));
      NotOwned(s, own, p);
      GrantMoves(s, own, s', p, n);
      GrantedOk(s', base.value, n);
      Move(s, own, s', 0, Some(p), Some(Client));
    }
  }

  lemma NotOwned(s: State, own: map<Ptr, Place>, p: Ptr)
    requires OwnsIssued(s.heap, own) && !Issued(s.heap, p)
    ensures p !in own
  {}

  lemma StayMoves(s: State, s': State)
    requires s'.threads == s.threads && s'.held == s.held && s'.leaked == s.leaked
    ensures Moves(s, s', 0, None, None)
  {}

  lemma GrantMoves(s: State, own: map<Ptr, Place>, s': State, p: Ptr, n: nat)
    requires Owned(s, own) && p !in own
    requires s'.threads == s.threads && s'.held == s.held[p := n] && s'.leaked == s.leaked
    ensures Moves(s, s', 0, Some(p), Some(Client))
  {
    forall q, pl | LocalTo(pl, 0)
      ensures InPlace(s', q, pl) <==> if q == p then pl == Client else InPlace(s, q, pl)
    {
      assert InPlace(s, q, pl) <==> q in own && own[q] == pl;
    }
  }

  lemma GrantedOk(s: State, base: nat, n: nat)
    requires Issued(s.heap, Large(base)) && s.heap.large[base].user == n && n >= LARGE_MIN
    requires Large(base) in s.held && s.held[Large(base)] == n && HasRoom(s.heap.large[base])
    ensures PtrOk(s, Large(base), Client)
  {}

  lemma UnmapKeeps(s: State, own: map<Ptr, Place>, t: nat, base: nat) returns (own': map<Ptr, Place>)
    requires Inv(s, own) && t in s.threads && s.threads[t].pc == Unmapping(base) && base in s.heap.large
    ensures Inv(SetPc(s.(heap := UnmapLarge(s.heap, base)), t, Idle), own')
  {
    hide Issued, PtrOk, HeapStep, Moves, OwnsIssued, Owned, AllOk, Consistent, TrimSound, UnmapLarge, LocksOk;
    var g := UnmapLarge(s.heap, base);
    var s' := SetPc(s.(heap := g), t, Idle);
    UnmapLargeKeeps(s.heap, base);
    UnmapLargeStep(s.heap, base);
    ConsistentShape(s.heap);
    ConsistentShape(g);
    TrimFrame(s.heap, g, s.trim);
    LocksFrame(s, s', t);
    CarryGone(s, own, s', t, Large(base));
    assert ThreadOk(s.threads[t]);
    own' := Rehome(own, Some(Large(base)), None);
    Move(s, own, s', t, Some(Large(base)), None);
  }

  /** A carried pointer ceases to be issued. */
  lemma CarryGone(s: State, own: map<Ptr, Place>, s': State, t: nat, p: Ptr)
    requires Owned(s, own) && t in s.threads && t in s'.threads && Carried(s.threads[t].pc) == Some(p)
    requires s'.threads == s.threads[t := Thread(s'.threads[t].pc, s.threads[t].cache)]
    requires Carried(s'.threads[t].pc) == None && SameSlots(s.threads[t], s'.threads[t].pc)
    requires s'.leaked == s.leaked && s'.held == s.held
    ensures Moves(s, s', t, Some(p), None) && p in own && own[p] == In(t, Carry)
  {
    assert InPlace(s, p, In(t, Carry));
    forall q, pl | LocalTo(pl, t) ensures InPlace(s', q, pl) <==> if q == p then false else InPlace(s, q, pl) {
      assert InPlace(s, q, pl) <==> q in own && own[q] == pl;
    }
  }

  // ---------------------------------------------------------------- malloc's critical section

  predicate CanTake(s: State, t: nat, n: nat) {
    t in s.threads && s.threads[t].pc.Inside? && s.threads[t].pc.job == Alloc(n)
  }

  lemma TookKeeps(s: State, own: map<Ptr, Place>, t: nat, n: nat, c: nat, g: Heap, b: Option<Block>)
    returns (own': map<Ptr, Place>)
    requires Inv(s, own) && CanTake(s, t, n) && c == s.threads[t].pc.c
    requires c < NUM_CLASSES && TookOne(s.heap, g, c, b) && Consistent(g)
    ensures Inv(TookState(s, t, g, b), own')
  {
    hide Issued, PtrOk, HeapStep, Moves, OwnsIssued, Owned, AllOk, Consistent, ClassFor, LocksOk;
    var s' := TookState(s, t, g, b);
    assert ThreadOk(s.threads[t]);
    LocksFrame(s, s', t);
    OtherClass(s, t);
    TrimFrame(s.heap, g, s.trim);
    if b.None? {
      own' := own;
      TookNothing(s, s', t);
      Move(s, own, s', t, None, None);
    } else {
      var p := Small(b.value);
      own' := Rehome(own, Some(p), Some(In(t, Carry)));
      NotOwned(s, own, p);
      CarryIn(s, own, s', t, p);
      TakenOk(s', t, b.value, n, c);
      Move(s, own, s', t, Some(p), Some(In(t, Carry)));
    }
  }

  /** The trimmer is never inside the class a thread is inside. */
  lemma OtherClass(s: State, t: nat)
    requires LocksOk(s) && t in s.threads && Holding(s.threads[t].pc).Some?
    ensures Holding(s.threads[t].pc).value < NUM_CLASSES
    ensures s.trim.Walking? ==> s.trim.c != Holding(s.threads[t].pc).value
  {}

  lemma TookNothing(s: State, s': State, t: nat)
    requires t in s.threads && s.threads[t].pc.Inside? && s.threads[t].pc.job.Alloc? && t in s'.threads
    requires s'.threads == s.threads[t := Thread(s'.threads[t].pc, s.threads[t].cache)]
    requires s'.threads[t].pc.Leaving? && s'.threads[t].pc.after.Answer? && s'.threads[t].pc.after.got == None
    requires s'.leaked == s.leaked && s'.held == s.held
    ensures Moves(s, s', t, None, None)
  {}

  /** A new pointer lands in a thread's register. */
  lemma CarryIn(s: State, own: map<Ptr, Place>, s': State, t: nat, p: Ptr)
    requires Owned(s, own) && p !in own && t in s.threads && t in s'.threads
    requires Carried(s.threads[t].pc) == None && Carried(s'.threads[t].pc) == Some(p)
    requires s'.threads == s.threads[t := Thread(s'.threads[t].pc, s.threads[t].cache)]
    requires SameSlots(s.threads[t], s'.threads[t].pc) && s'.leaked == s.leaked && s'.held == s.held
    ensures Moves(s, s', t, Some(p), Some(In(t, Carry)))
  {
    forall q, pl | LocalTo(pl, t)
      ensures InPlace(s', q, pl) <==> if q == p then pl == In(t, Carry) else InPlace(s, q, pl)
    {
      assert InPlace(s, q, pl) <==> q in own && own[q] == pl;
    }
  }

  lemma TakenOk(s: State, t: nat, b: Block, n: nat, c: nat)
    requires Issued(s.heap, Small(b)) && s.heap.runs[b.base].cls == c + 1 && AnswerOk(n, c + 1)
    requires t in s.threads && s.threads[t].pc == Leaving(c, Answer(n, Some(b)))
    ensures PtrOk(s, Small(b), In(t, Carry))
  {
    hide Reachable, ClassFor;
  }

  // ---------------------------------------------------------------- giving back

  lemma GaveKeeps(s: State, own: map<Ptr, Place>, g: Heap, t: nat, b: Block, stamp: nat)
    returns (own': map<Ptr, Place>)
    requires Inv(s, own) && t in s.threads && GivenBack(s.threads[t]) == Some(b)
    requires HeapStep(s.heap, g, Some(Small(b))) && !Issued(g, Small(b))
    requires g.lists == s.heap.lists && g.runs.Keys == s.heap.runs.Keys && Consistent(g)
    ensures Inv(GaveState(s, t, b.base, g, stamp), own')
  {
    hide Issued, PtrOk, HeapStep, Moves, OwnsIssued, Owned, AllOk, Consistent, LocksOk, TrimSound;
    var s' := GaveState(s, t, b.base, g, stamp);
    assert ThreadOk(s.threads[t]);
    LocksFrame(s, s', t);
    ConsistentShape(s.heap);
    ConsistentShape(s'.heap);
    TrimFrame(s.heap, s'.heap, s.trim);
    own' := Rehome(own, Some(Small(b)), None);
    GaveMoves(s, own, g, t, b, stamp);
    Move(s, own, s', t, Some(Small(b)), None);
  }

  lemma GaveMoves(s: State, own: map<Ptr, Place>, g: Heap, t: nat, b: Block, stamp: nat)
    requires Owned(s, own) && t in s.threads && GivenBack(s.threads[t]) == Some(b)
    ensures Moves(s, GaveState(s, t, b.base, g, stamp), t, Some(Small(b)), None)
    ensures Small(b) in own && LocalTo(own[Small(b)], t)
    ensures Carried(s.threads[t].pc) == None || Carried(s.threads[t].pc) == Some(Small(b))
  {
    hide Moves, Owned, InPlace;
    var s' := GaveState(s, t, b.base, g, stamp);
    match s.threads[t].pc.job
    case Release(_) => CarryGone(s, own, s', t, Small(b));
    case FlushSlot(c, i) => SlotGone(s, own, s', t, c, i);
  }

  lemma SlotGone(s: State, own: map<Ptr, Place>, s': State, t: nat, c: nat, i: nat)
    requires Owned(s, own) && t in s.threads && s.threads[t].pc.Inside? && s.threads[t].pc.job == FlushSlot(c, i)
    requires HasSlot(s.threads[t], c, i)
    requires s'.threads == s.threads[t := Thread(GivenPc(s.threads[t].pc), s.threads[t].cache)]
    requires s'.leaked == s.leaked && s'.held == s.held
    ensures
      var p := Small(s.threads[t].cache.value[c][i]);
      Moves(s, s', t, Some(p), None) && p in own && own[p] == In(t, Slot(c, i))
  {
    var p := Small(s.threads[t].cache.value[c][i]);
    assert InPlace(s, p, In(t, Slot(c, i)));
    forall q, pl | LocalTo(pl, t) ensures InPlace(s', q, pl) <==> if q == p then false else InPlace(s, q, pl) {
      assert InPlace(s, q, pl) <==> q in own && own[q] == pl;
      if pl.In? {
        assert Has(s'.threads[t], q, pl.at) <==> Has(s.threads[t], q, pl.at) && pl.at != Slot(c, i);
      }
    }
  }

  // ---------------------------------------------------------------- the trim walk

  lemma {:induction false} NextListed(list: seq<nat>, x: nat)
    requires Distinct(list)
    ensures NextOf(list, x).Some? ==> NextOf(list, x).value in list && NextOf(list, x).value != x
  {
    if list != [] && list[0] != x {
      assert Distinct(list[1..]) by {
        forall i, j | 0 <= i < j < |list[1..]| ensures list[1..][i] != list[1..][j] {
          assert list[i + 1] != list[j + 1];
        }
      }
      NextListed(list[1..], x);
    }
  }

  lemma VisitKeeps(s: State, own: map<Ptr, Place>, g: Heap, base: nat)
    requires Inv(s, own) && s.trim.Walking? && s.trim.cur == Some(base)
    requires base in s.heap.runs && g == PurgeRun(s.heap, base, s.trim.t, s.runIdle, s.dirtyIdle)
    requires Shape(s.heap) && s.trim.c < NUM_CLASSES
    ensures Inv(s.(heap := g, trim := Walking(s.trim.t, s.trim.c, NextOf(s.heap.lists[s.trim.c], base))), own)
  {
    hide Issued, PtrOk, HeapStep, Moves, OwnsIssued, Owned, AllOk, Consistent, PurgeRun, ThreadOk, TrimSound;
    var s' := s.(heap := g, trim := Walking(s.trim.t, s.trim.c, NextOf(s.heap.lists[s.trim.c], base)));
    PurgeKeeps(s.heap, base, s.trim.t, s.runIdle, s.dirtyIdle);
    PurgeStep(s.heap, base, s.trim.t, s.runIdle, s.dirtyIdle);
    NextSound(s.heap, base, s.trim, s.runIdle, s.dirtyIdle);
    StayMoves(s, s');
    assert 0 in s.threads ==> ThreadOk(s.threads[0]);
    Move(s, own, s', 0, None, None);
  }

  /** The successor read before the purge is still listed after it. */
  lemma NextSound(h: Heap, base: nat, trim: Trim, runIdle: nat, dirtyIdle: nat)
    requires Consistent(h) && trim.Walking? && TrimSound(h, trim) && trim.cur == Some(base)
    ensures
      var g := PurgeRun(h, base, trim.t, runIdle, dirtyIdle);
      TrimSound(g, Walking(trim.t, trim.c, NextOf(h.lists[trim.c], base)))
  {
    var g := PurgeRun(h, base, trim.t, runIdle, dirtyIdle);
    PurgeStep(h, base, trim.t, runIdle, dirtyIdle);
    ClassFacts(h, trim.c);
    NextListed(h.lists[trim.c], base);
    hide Consistent, ListOk, LiveOk, Sub64, HeapStep;
    PurgeLists(h, base, trim.t, runIdle, dirtyIdle);
  }

  lemma PurgeLists(h: Heap, base: nat, t: nat, runIdle: nat, dirtyIdle: nat)
    requires Consistent(h) && base in h.runs
    ensures
      var g := PurgeRun(h, base, t, runIdle, dirtyIdle);
      Shape(h) && Shape(g) &&
      forall c, x :: 0 <= c < NUM_CLASSES && x in h.lists[c] && x != base ==> x in g.lists[c]
  {
    var k, i := RunListed(h, base);
    RemoveIsRemoveAt(h.lists[k], i);
    hide Consistent, Sub64, RemoveAt, Remove;
    forall x | x in h.lists[k] && x != base ensures x in RemoveAt(h.lists[k], i) {
      RemoveAtMembers(h.lists[k], i, x);
    }
  }

  lemma WriteKeeps(s: State, own: map<Ptr, Place>, mem: nat -> bv8)
    requires Inv(s, own)
    ensures Inv(s.(heap := s.heap.(mem := mem)), own)
  {
    hide Issued, PtrOk, HeapStep, Moves, OwnsIssued, Owned, AllOk, Consistent, ThreadOk, TrimSound;
    var g := s.heap.(mem := mem);
    var s' := s.(heap := g);
    MemOnly(s.heap, mem);
    Still(s.heap, None);
    MemStep(s.heap, s.heap, g);
    StayMoves(s, s');
    ConsistentShape(g);
    ConsistentShape(s.heap);
    TrimFrame(s.heap, g, s.trim);
    assert 0 in s.threads ==> ThreadOk(s.threads[0]);
    Move(s, own, s', 0, None, None);
  }

  // ---------------------------------------------------------------- any step

  lemma TakeStepKeeps(s: State, own: map<Ptr, Place>, t: nat, mapped: bool) returns (own': map<Ptr, Place>)
    requires Inv(s, own) && Sound(s) && Guard(s, Step.Take(t, mapped)) && Orderly(s, Step.Take(t, mapped))
    ensures Inv(DoTake(s, t, mapped), own')
  {
    hide Consistent, Issued, PtrOk, HeapStep, Moves, LocksOk, OwnsIssued, Owned, AllOk, TrimSound, TakeBlock,
      TookOne, ClassFor, TakeFits;
    var pc := s.threads[t].pc;
    assert ThreadOk(s.threads[t]);
    TakeKeeps(s.heap, pc.c, s.now, mapped);
    TakeStep(s.heap, pc.c, s.now, mapped);
    var (g, b) := TakeBlock(s.heap, pc.c, s.now, mapped);
    own' := TookKeeps(s, own, t, pc.job.n, pc.c, g, b);
  }

  lemma GivenIssued(s: State, t: nat)
    requires Sound(s) && t in s.threads && GivenBack(s.threads[t]).Some?
    ensures Issued(s.heap, Small(GivenBack(s.threads[t]).value))
  {
    hide Consistent, Issued, TrimSound;
    assert ThreadSound(s.heap, s.threads[t]);
  }

  lemma GiveStepKeeps(s: State, own: map<Ptr, Place>, t: nat, stamp: nat) returns (own': map<Ptr, Place>)
    requires Inv(s, own) && Sound(s) && Guard(s, Give(t, stamp))
    ensures Inv(DoGive(s, t, stamp), own')
  {
    GivenIssued(s, t);
    hide Sound, Consistent, Issued, PtrOk, HeapStep, Moves, LocksOk, OwnsIssued, Owned, AllOk, TrimSound,
      GiveBlock, GaveState;
    var b := GivenBack(s.threads[t]).value;
    GiveKeeps(s.heap, b, s.now, stamp);
    GiveStep(s.heap, b, s.now, stamp);
    own' := GaveKeeps(s, own, GiveBlock(s.heap, b, s.now, stamp), t, b, stamp);
  }

  lemma MallocSmallKeeps(s: State, own: map<Ptr, Place>, t: nat, n: nat) returns (own': map<Ptr, Place>)
    requires Inv(s, own) && Sound(s) && t in s.threads && s.threads[t].pc == Idle && 1 <= n < LARGE_MIN
    ensures Inv(DoMallocSmall(s, t, n), own')
  {
    hide Consistent, Issued, PtrOk, LocksOk, OwnsIssued, Owned, AllOk, TrimSound, ThreadsOk, ClassFor;
    var c := ClassFor(n) - 1;
    var th := s.threads[t];
    assert ThreadSound(s.heap, th);
    if th.cache.Some? && th.cache.value[c] != [] {
      own' := MallocHitKeeps(s, own, t, c, n);
    } else {
      own' := own;
      MallocMissKeeps(s, own, t, n);
    }
  }

  lemma ExitStepKeeps(s: State, own: map<Ptr, Place>, t: nat)
    requires Inv(s, own) && Sound(s) && Guard(s, Exit(t))
    ensures Inv(Do(s, Exit(t)), own)
  {
    hide Consistent, Issued, PtrOk, LocksOk, OwnsIssued, Owned, AllOk, TrimSound, ThreadsOk;
    if s.threads[t].cache.None? {
      EndKeeps(s, own, t);
    } else {
      ExitKeeps(s, own, t);
    }
  }

  /** The steps of client threads on their own registers, caches and locks. */
  predicate ThreadStep(st: Step) {
    st.Spawn? || st.MallocSmall? || st.Lock? || st.Unlock? || st.Free? || st.Test? || st.Route? || st.Exit? || st.Flush?
  }

  lemma ThreadStepKeeps(s: State, own: map<Ptr, Place>, st: Step) returns (own': map<Ptr, Place>)
    requires Inv(s, own) && Sound(s) && Guard(s, st) && ThreadStep(st)
    ensures Inv(Do(s, st), own')
  {
    hide Consistent, Issued, PtrOk, LocksOk, OwnsIssued, Owned, AllOk, TrimSound, ThreadsOk, ThreadSound,
      DoSpawn, DoMallocSmall, DoLock, DoUnlock, DoTest, DoRoute, DoFlush;
    own' := own;
    match st {
      case Spawn(t, caching) => SpawnKeeps(s, own, t, caching);
      case MallocSmall(t, n) => own' := MallocSmallKeeps(s, own, t, Asked(n));
      case Lock(t) => LockKeeps(s, own, t);
      case Unlock(t) => CanUnlockNow(s, t); own' := UnlockKeeps(s, own, t);
      case Free(t, p) => own' := FreeKeeps(s, own, t, p);
      case Test(t) => own' := TestKeeps(s, own, t);
      case Route(t) => CanRouteNow(s, t); own' := RouteKeeps(s, own, t);
      case Exit(t) => ExitStepKeeps(s, own, t);
      case Flush(t) => FlushKeeps(s, own, t);
      case _ =>
    }
  }

  lemma CanUnlockNow(s: State, t: nat)
    requires Sound(s) && Guard(s, Unlock(t))
    ensures CanUnlock(s, t)
  {
    hide Consistent, TrimSound;
    assert ThreadSound(s.heap, s.threads[t]);
  }

  lemma CanRouteNow(s: State, t: nat)
    requires Sound(s) && Guard(s, Route(t))
    ensures CanRoute(s, t)
  {
    hide Consistent, TrimSound;
    assert ThreadSound(s.heap, s.threads[t]);
  }

  lemma SharedStepKeeps(s: State, own: map<Ptr, Place>, st: Step) returns (own': map<Ptr, Place>)
    requires Inv(s, own) && Sound(s) && Guard(s, st) && Orderly(s, st) && !ThreadStep(st)
    ensures Inv(Do(s, st), own')
  {
    hide Consistent, Issued, PtrOk, LocksOk, OwnsIssued, Owned, AllOk, ThreadsOk, ThreadSound,
      DoMallocLarge, DoTake, DoGive, LargeKept, TakeFits;
    own' := own;
    match st {
      case Tick(time) => TickKeeps(s, own, time);
      case MallocLarge(t, n, mapped) => own' := MallocLargeKeeps(s, own, n, mapped);
      case Take(t, mapped) => own' := TakeStepKeeps(s, own, t, mapped);
      case Give(t, stamp) => own' := GiveStepKeeps(s, own, t, stamp);
      case Unmap(t) => UnmapNow(s, t); own' := UnmapKeeps(s, own, t, s.threads[t].pc.base);
      case TrimWake => TrimIdleKeeps(s, own, AtClass(s.now, 0));
      case TrimLock => TrimLockKeeps(s, own);
      case TrimVisit =>
        var base := s.trim.cur.value;
        VisitKeeps(s, own, PurgeRun(s.heap, base, s.trim.t, s.runIdle, s.dirtyIdle), base);
      case TrimUnlock => TrimUnlockKeeps(s, own);
      case TrimDone => TrimIdleKeeps(s, own, Asleep);
      case Write(p, off, v) => WriteKeeps(s, own, Do(s, st).heap.mem);
      case _ =>
    }
  }

  lemma UnmapNow(s: State, t: nat)
    requires Sound(s) && Guard(s, Unmap(t))
    ensures s.threads[t].pc.base in s.heap.large
  {
    hide Consistent, TrimSound;
    assert ThreadSound(s.heap, s.threads[t]);
  }

  /** Every step of the system that leaves the reserve in order keeps the invariant. */
  lemma StepKeeps(s: State, own: map<Ptr, Place>, st: Step) returns (own': map<Ptr, Place>)
    requires Inv(s, own) && Sound(s) && Guard(s, st) && Orderly(s, st)
    ensures Inv(Do(s, st), own')
  {
    hide *;
    if ThreadStep(st) { own' := ThreadStepKeeps(s, own, st); } else { own' := SharedStepKeeps(s, own, st); }
  }

  // ---------------------------------------------------------------- any run of the system

  lemma InitialInv(s: State)
    requires Starts(s)
    ensures Inv(s, map[])
  {
    hide Consistent, IsBlock, EmptyHeap;
    var start: nat, size: nat, now: nat, runIdle: nat, dirtyIdle: nat :|
      now > 0 && start + size <= USER_TOP && s == Initial(start, size, now, runIdle, dirtyIdle);
    EmptyConsistent(start, size);
    NothingIssued(start, size);
    assert Owned(s, map[]) && LocksOk(s);
  }

  lemma NothingIssued(start: nat, size: nat)
    ensures OwnsIssued(EmptyHeap(start, size), map[])
  {}

  /** In every reachable state each issued pointer is in exactly one place. */
  lemma {:induction false} Reached(trace: seq<State>, steps: seq<Step>) returns (own: map<Ptr, Place>)
    requires Trace(trace, steps) && Starts(trace[0])
    ensures Inv(trace[|steps|], own) && Sound(trace[|steps|])
    decreases |steps|
  {
    hide Inv, Sound, Guard, Orderly, Do, Starts;
    if |steps| == 0 {
      InitialInv(trace[0]);
      own := map[];
    } else {
      var k := |steps| - 1;
      var before := Reached(trace[..k + 1], steps[..k]);
      own := StepKeeps(trace[k], before, steps[k]);
    }
    InvSound(trace[|steps|], own);
  }
}
