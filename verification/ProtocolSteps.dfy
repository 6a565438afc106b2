/** Every step of the system keeps the invariant. */
module ProtocolSteps {
  import opened SizeClasses
  import opened Options
  import opened HeapSpec
  import opened Issuing
  import opened Ownership
  import opened Protocol
  import opened ProtocolInv

  // ---------------------------------------------------------------- moving one pointer

  function Rehome(own: map<Ptr, Place>, moved: Option<Ptr>, dest: Option<Place>): map<Ptr, Place> {
    match (moved, dest)
    case (Some(p), Some(pl)) => own[p := pl]
    case (Some(p), None) => own - {p}
    case (None, _) => own
  }

  ghost predicate LocalTo(pl: Place, t: nat) { pl.In? ==> pl.t == t }

  /** Thread t changes, and of all pointers only `moved` changes its place, within reach of t. */
  ghost predicate Moves(s: State, s': State, t: nat, moved: Option<Ptr>, dest: Option<Place>) {
    && (forall u :: u != t ==> (u in s.threads <==> u in s'.threads))
    && (forall u :: u != t && u in s.threads ==> s.threads[u] == s'.threads[u])
    && (forall p, pl :: LocalTo(pl, t) ==>
          (InPlace(s', p, pl) <==> if Some(p) == moved then Some(pl) == dest else InPlace(s, p, pl)))
    && (forall p :: p in s.held && p in s'.held && Some(p) != moved ==> s'.held[p] == s.held[p])
    && (dest.Some? ==> LocalTo(dest.value, t))
  }

  lemma MoveOwned(s: State, own: map<Ptr, Place>, s': State, t: nat, moved: Option<Ptr>, dest: Option<Place>)
    requires Owned(s, own) && Moves(s, s', t, moved, dest)
    requires moved.Some? && moved.value in own ==> LocalTo(own[moved.value], t)
    ensures Owned(s', Rehome(own, moved, dest))
  {
    hide Has;
    var own' := Rehome(own, moved, dest);
    forall p, pl ensures InPlace(s', p, pl) <==> p in own' && own'[p] == pl {
      if !LocalTo(pl, t) {
        assert InPlace(s', p, pl) <==> InPlace(s, p, pl);
      }
    }
  }

  /** A moved pointer suits its new place, and so does one carried along when the program counter turns. */
  ghost predicate Accepted(s: State, s': State, t: nat, moved: Option<Ptr>, dest: Option<Place>) {
    && (moved.Some? && dest.Some? ==> PtrOk(s', moved.value, dest.value))
    && (t in s.threads && t in s'.threads && s.threads[t].pc != s'.threads[t].pc ==>
          var kept := Carried(s.threads[t].pc);
          kept == None || kept == moved || PtrOk(s', kept.value, In(t, Carry)))
  }

  lemma KindKept(s: State, s': State, p: Ptr, pl: Place)
    requires PtrOk(s, p, pl) && InPlace(s', p, pl)
    requires Issued(s'.heap, p) && SameKind(s.heap, s'.heap, p)
    requires pl.Client? ==> p in s.held && p in s'.held && s'.held[p] == s.held[p]
    requires pl.In? && pl.at.Carry? ==>
               pl.t in s.threads && pl.t in s'.threads && s'.threads[pl.t].pc == s.threads[pl.t].pc
    ensures PtrOk(s', p, pl)
  {
    hide FlightOk, Reachable, ClassFor, IsBlock;
  }

  lemma MoveAllOk(s: State, own: map<Ptr, Place>, s': State, t: nat, moved: Option<Ptr>, dest: Option<Place>)
    requires Owned(s, own) && AllOk(s, own)
    requires Owned(s', Rehome(own, moved, dest)) && Moves(s, s', t, moved, dest)
    requires HeapStep(s.heap, s'.heap, moved) && Accepted(s, s', t, moved, dest)
    ensures AllOk(s', Rehome(own, moved, dest))
  {
    hide FlightOk, SmallOk, Reachable, Issued, SameKind;
    var own' := Rehome(own, moved, dest);
    forall p | p in own' ensures PtrOk(s', p, own'[p]) {
      if Some(p) != moved {
        var pl := own[p];
        assert InPlace(s', p, pl) && InPlace(s, p, pl);
        assert PtrOk(s, p, pl);
        assert pl == In(t, Carry) ==> Has(s.threads[t], p, Carry);
        if pl == In(t, Carry) && s.threads[t].pc != s'.threads[t].pc {
        } else {
          KindKept(s, s', p, pl);
        }
      }
    }
  }

  lemma Move(s: State, own: map<Ptr, Place>, s': State, t: nat, moved: Option<Ptr>, dest: Option<Place>)
    requires Inv(s, own) && Moves(s, s', t, moved, dest)
    requires moved.Some? && moved.value in own ==> LocalTo(own[moved.value], t)
    requires HeapStep(s.heap, s'.heap, moved) && Accepted(s, s', t, moved, dest)
    requires moved.Some? ==> (Issued(s'.heap, moved.value) <==> dest.Some?)
    requires t in s'.threads ==> ThreadOk(s'.threads[t])
    requires Consistent(s'.heap) && LocksOk(s') && TrimSound(s'.heap, s'.trim)
    ensures Inv(s', Rehome(own, moved, dest))
  {
    hide Consistent, Issued, SameKind, LocksOk, TrimSound, ThreadOk, PtrOk;
    MoveOwned(s, own, s', t, moved, dest);
    MoveAllOk(s, own, s', t, moved, dest);
    var own' := Rehome(own, moved, dest);
    forall p ensures p in own' <==> Issued(s'.heap, p) {
      assert p in own <==> Issued(s.heap, p);
    }
    forall u | u in s'.threads ensures ThreadOk(s'.threads[u]) {
      if u != t { assert ThreadOk(s.threads[u]); }
    }
  }

  // ---------------------------------------------------------------- steps that leave the heap alone

  lemma LocksFrame(s: State, s': State, t: nat)
    requires LocksOk(s) && s'.trim == s.trim && s'.mu == s.mu
    requires forall u :: u != t ==> (u in s.threads <==> u in s'.threads)
    requires forall u :: u != t && u in s.threads ==> s.threads[u] == s'.threads[u]
    requires t in s'.threads ==>
               Holding(s'.threads[t].pc).None? ||
               (t in s.threads && Holding(s'.threads[t].pc) == Holding(s.threads[t].pc))
    requires t in s.threads && Holding(s.threads[t].pc).Some? ==>
               t in s'.threads && Holding(s'.threads[t].pc) == Holding(s.threads[t].pc)
    ensures LocksOk(s')
  {
    forall c | 0 <= c < NUM_CLASSES && s'.mu[c].Some? ensures HolderInside(s', c, s'.mu[c].value) {
      assert HolderInside(s, c, s.mu[c].value);
    }
    forall u | u in s'.threads && Holding(s'.threads[u].pc).Some?
      ensures Holding(s'.threads[u].pc).value < NUM_CLASSES && s'.mu[Holding(s'.threads[u].pc).value] == Some(Worker(u))
    {
      assert u in s.threads;
    }
  }

  lemma SpawnKeeps(s: State, own: map<Ptr, Place>, t: nat, caching: bool)
    requires Inv(s, own) && t !in s.threads
    ensures Inv(DoSpawn(s, t, caching), own)
  {
    hide Consistent, Issued, SameKind, TrimSound, PtrOk, HeapStep, LocksOk;
    var s' := DoSpawn(s, t, caching);
    Still(s.heap, None);
    LocksFrame(s, s', t);
    Move(s, own, s', t, None, None);
  }

  lemma TickKeeps(s: State, own: map<Ptr, Place>, time: nat)
    requires Inv(s, own)
    ensures Inv(s.(now := time), own)
  {
    hide Consistent, Issued, SameKind, TrimSound, PtrOk, HeapStep, LocksOk;
    var s' := s.(now := time);
    Still(s.heap, None);
    LocksFrame(s, s', 0);
    Move(s, own, s', 0, None, None);
  }

  /** Thread t only turns its program counter: same registers, same slots. */
  ghost predicate Turns(s: State, s': State, t: nat) {
    && t in s.threads && t in s'.threads
    && s'.threads == s.threads[t := Thread(s'.threads[t].pc, s.threads[t].cache)]
    && s'.heap == s.heap && s'.trim == s.trim && s'.held == s.held && s'.leaked == s.leaked
    && Carried(s'.threads[t].pc) == Carried(s.threads[t].pc)
    && SameSlots(s.threads[t], s'.threads[t].pc)
  }

  ghost predicate SameSlots(th: Thread, pc: Pc) {
    forall c, i :: HasSlot(th, c, i) ==> (Passed(Cursor(th.pc), c, i) <==> Passed(Cursor(pc), c, i))
  }

  lemma TurnMoves(s: State, s': State, t: nat)
    requires Turns(s, s', t)
    ensures Moves(s, s', t, None, None)
  {}

  lemma Turn(s: State, own: map<Ptr, Place>, s': State, t: nat)
    requires Inv(s, own) && Turns(s, s', t)
    requires ThreadOk(s'.threads[t]) && LocksOk(s')
    requires Carried(s.threads[t].pc).Some? ==> PtrOk(s', Carried(s.threads[t].pc).value, In(t, Carry))
    ensures Inv(s', own)
  {
    TurnMoves(s, s', t);
    hide Consistent, Issued, TrimSound, PtrOk, HeapStep, Moves, LocksOk, ThreadOk;
    Still(s.heap, None);
    Move(s, own, s', t, None, None);
  }

  lemma LockKeeps(s: State, own: map<Ptr, Place>, t: nat)
    requires Inv(s, own) && CanLock(s, t)
    ensures Inv(DoLock(s, t), own)
  {
    hide Consistent, Issued, TrimSound, Owned, OwnsIssued, AllOk, ClassFor, Reachable, LocksOk;
    var s' := DoLock(s, t);
    LockLocks(s, s', t, s.threads[t].pc.c);
    CarriedOk(s, own, t);
    assert ThreadOk(s.threads[t]);
    Turn(s, own, s', t);
  }

  predicate CanLock(s: State, t: nat) {
    t in s.threads && s.threads[t].pc.Waiting? && s.threads[t].pc.c < |s.mu| && s.mu[s.threads[t].pc.c] == None
  }

  lemma LockLocks(s: State, s': State, t: nat, c: nat)
    requires LocksOk(s) && t in s.threads && Holding(s.threads[t].pc) == None && c < |s.mu| && s.mu[c] == None
    requires t in s'.threads && s'.threads == s.threads[t := s'.threads[t]] && Holding(s'.threads[t].pc) == Some(c)
    requires s'.mu == s.mu[c := Some(Worker(t))] && s'.trim == s.trim
    ensures LocksOk(s')
  {
    forall d | 0 <= d < NUM_CLASSES && s'.mu[d].Some? ensures HolderInside(s', d, s'.mu[d].value) {
      if d != c { assert HolderInside(s, d, s.mu[d].value); }
    }
  }

  /** A carried pointer is issued and suits its thread. */
  lemma CarriedOk(s: State, own: map<Ptr, Place>, t: nat)
    requires Inv(s, own) && t in s.threads
    ensures Carried(s.threads[t].pc).Some? ==>
              Issued(s.heap, Carried(s.threads[t].pc).value) && PtrOk(s, Carried(s.threads[t].pc).value, In(t, Carry))
  {
    hide Consistent, Issued, TrimSound, PtrOk, LocksOk, ThreadOk;
    if Carried(s.threads[t].pc).Some? {
      assert InPlace(s, Carried(s.threads[t].pc).value, In(t, Carry));
      OwnedIssued(s, own, Carried(s.threads[t].pc).value, In(t, Carry));
    }
  }

  /** A slot that is still live holds an issued block of its class that free can find again. */
  lemma SlotOk(s: State, own: map<Ptr, Place>, t: nat, c: nat, i: nat)
    requires Inv(s, own) && t in s.threads && SlotLive(s.threads[t], c, i)
    ensures
      var p := Small(s.threads[t].cache.value[c][i]);
      p in own && own[p] == In(t, Slot(c, i)) && Issued(s.heap, p) && PtrOk(s, p, In(t, Slot(c, i)))
  {
    hide Consistent, Issued, TrimSound, PtrOk, LocksOk, ThreadOk;
    var p := Small(s.threads[t].cache.value[c][i]);
    assert InPlace(s, p, In(t, Slot(c, i)));
    OwnedIssued(s, own, p, In(t, Slot(c, i)));
  }

  lemma MallocMissKeeps(s: State, own: map<Ptr, Place>, t: nat, n: nat)
    requires Inv(s, own) && t in s.threads && s.threads[t].pc == Idle && 1 <= n < LARGE_MIN
    ensures Inv(SetPc(s, t, Waiting(ClassFor(n) - 1, Alloc(n))), own)
  {
    hide Consistent, Issued, TrimSound, Owned, OwnsIssued, AllOk, ClassFor, Reachable, LocksOk;
    var s' := SetPc(s, t, Waiting(ClassFor(n) - 1, Alloc(n)));
    LocksFrame(s, s', t);
    assert ThreadOk(s.threads[t]);
    Turn(s, own, s', t);
  }

  /** malloc's cache hit: the last block of the slot row goes to the client. */
  function Popped(s: State, t: nat, c: nat, n: nat): State
    requires t in s.threads && HasSlot(s.threads[t], c, 0)
  {
    var th := s.threads[t];
    var slot := th.cache.value[c];
    s.(threads := s.threads[t := th.(cache := Some(th.cache.value[c := slot[..|slot| - 1]]))],
       held := s.held[Small(slot[|slot| - 1]) := n])
  }

  lemma MallocHitKeeps(s: State, own: map<Ptr, Place>, t: nat, c: nat, n: nat) returns (own': map<Ptr, Place>)
    requires Inv(s, own) && t in s.threads && s.threads[t].pc == Idle && AnswerOk(n, c + 1)
    requires HasSlot(s.threads[t], c, 0)
    ensures Inv(Popped(s, t, c, n), own')
  {
    hide Consistent, Issued, TrimSound, PtrOk, HeapStep, Moves, LocksOk, Owned, OwnsIssued, AllOk, ClassFor;
    var th := s.threads[t];
    var slot := th.cache.value[c];
    var p := Small(slot[|slot| - 1]);
    var s' := Popped(s, t, c, n);
    own' := Rehome(own, Some(p), Some(Client));
    SlotOk(s, own, t, c, |slot| - 1);
    PopMoves(s, own, t, c, n);
    ClientOk(s, s', p.b, c, In(t, Slot(c, |slot| - 1)));
    LocksFrame(s, s', t);
    Still(s.heap, Some(p));
    assert ThreadOk(th);
    Move(s, own, s', t, Some(p), Some(Client));
  }

  lemma PopMoves(s: State, own: map<Ptr, Place>, t: nat, c: nat, n: nat)
    requires Owned(s, own) && t in s.threads && s.threads[t].pc == Idle && HasSlot(s.threads[t], c, 0)
    ensures
      var slot := s.threads[t].cache.value[c];
      Moves(s, Popped(s, t, c, n), t, Some(Small(slot[|slot| - 1])), Some(Client))
  {
    var th, s' := s.threads[t], Popped(s, t, c, n);
    var last := Slot(c, |th.cache.value[c]| - 1);
    var p := Small(th.cache.value[c][last.i]);
    assert InPlace(s, p, In(t, last));
    forall q, pl | LocalTo(pl, t)
      ensures InPlace(s', q, pl) <==> if q == p then pl == Client else InPlace(s, q, pl)
    {
      assert InPlace(s, q, pl) <==> q in own && own[q] == pl;
      if pl.In? {
        assert Has(s'.threads[t], q, pl.at) <==> Has(th, q, pl.at) && pl.at != last;
      }
    }
  }

  lemma ClientOk(s: State, s': State, b: Block, c: nat, at: Place)
    requires PtrOk(s, Small(b), at) && s'.heap == s.heap
    requires Small(b) in s'.held && AnswerOk(s'.held[Small(b)], c + 1)
    requires at.In? && (at.at.Slot? ==> at.at.c == c)
    requires at.at.Carry? ==> at.t in s.threads && s.threads[at.t].pc.Leaving? && s.threads[at.t].pc.after.Answer?
                              && s.threads[at.t].pc.after.n == s'.held[Small(b)]
    ensures PtrOk(s', Small(b), Client)
  {
    hide Reachable, ClassFor, IsBlock;
  }

  /** A carried pointer goes to the client or is dropped. */
  lemma CarryOut(s: State, own: map<Ptr, Place>, s': State, t: nat, p: Ptr, dest: Place)
    requires Owned(s, own) && t in s.threads && t in s'.threads && Carried(s.threads[t].pc) == Some(p)
    requires s'.threads == s.threads[t := Thread(s'.threads[t].pc, s.threads[t].cache)]
    requires Carried(s'.threads[t].pc) == None && SameSlots(s.threads[t], s'.threads[t].pc)
    requires
      || (dest.Client? && s'.held.Keys == s.held.Keys + {p} && s'.leaked == s.leaked)
      || (dest.Leaked? && p.Small? && s'.leaked == s.leaked + {p.b} && s'.held == s.held)
    requires forall q :: q in s.held && q in s'.held && q != p ==> s'.held[q] == s.held[q]
    ensures Moves(s, s', t, Some(p), Some(dest)) && p in own && own[p] == In(t, Carry)
  {
    assert InPlace(s, p, In(t, Carry));
    forall q, pl | LocalTo(pl, t)
      ensures InPlace(s', q, pl) <==> if q == p then pl == dest else InPlace(s, q, pl)
    {
      assert InPlace(s, q, pl) <==> q in own && own[q] == pl;
    }
  }

  predicate CanUnlock(s: State, t: nat) {
    t in s.threads && s.threads[t].pc.Leaving? && s.threads[t].pc.c < |s.mu|
  }

  lemma UnlockLocks(s: State, s': State, t: nat, c: nat)
    requires LocksOk(s) && t in s.threads && Holding(s.threads[t].pc) == Some(c) && c < |s.mu|
    requires t in s'.threads && s'.threads == s.threads[t := s'.threads[t]] && Holding(s'.threads[t].pc) == None
    requires s'.mu == s.mu[c := None] && s'.trim == s.trim
    ensures LocksOk(s')
  {
    forall u | u in s'.threads && Holding(s'.threads[u].pc).Some?
      ensures Holding(s'.threads[u].pc).value < NUM_CLASSES && s'.mu[Holding(s'.threads[u].pc).value] == Some(Worker(u))
    {
      assert u in s.threads && u != t;
    }
  }

  lemma UnlockKeeps(s: State, own: map<Ptr, Place>, t: nat) returns (own': map<Ptr, Place>)
    requires Inv(s, own) && CanUnlock(s, t)
    ensures Inv(DoUnlock(s, t), own')
  {
    hide Consistent, Issued, TrimSound, PtrOk, HeapStep, Moves, LocksOk, Owned, OwnsIssued, AllOk, ClassFor;
    var after := s.threads[t].pc.after;
    if after.Answer? && after.got.Some? {
      own' := AnswerKeeps(s, own, t, after.n, after.got.value);
    } else {
      own' := own;
      UnlockLocks(s, DoUnlock(s, t), t, s.threads[t].pc.c);
      assert ThreadOk(s.threads[t]);
      Turn(s, own, DoUnlock(s, t), t);
    }
  }

  lemma AnswerKeeps(s: State, own: map<Ptr, Place>, t: nat, n: nat, b: Block) returns (own': map<Ptr, Place>)
    requires Inv(s, own) && CanUnlock(s, t) && s.threads[t].pc.after == Answer(n, Some(b))
    ensures Inv(DoUnlock(s, t), own')
  {
    hide Consistent, Issued, TrimSound, PtrOk, HeapStep, Moves, LocksOk, Owned, OwnsIssued, AllOk, ClassFor;
    var s' := DoUnlock(s, t);
    var c := s.threads[t].pc.c;
    own' := Rehome(own, Some(Small(b)), Some(Client));
    UnlockLocks(s, s', t, c);
    CarriedOk(s, own, t);
    assert ThreadOk(s.threads[t]);
    CarryOut(s, own, s', t, Small(b), Client);
    ClientOk(s, s', b, c, In(t, Carry));
    Still(s.heap, Some(Small(b)));
    Move(s, own, s', t, Some(Small(b)), Some(Client));
  }

  function Freeing(s: State, t: nat, p: Ptr): State
    requires t in s.threads
  {
    SetPc(s.(held := s.held - {p}), t, Testing(p))
  }

  lemma FreeKeeps(s: State, own: map<Ptr, Place>, t: nat, p: Ptr) returns (own': map<Ptr, Place>)
    requires Inv(s, own) && t in s.threads && s.threads[t].pc == Idle && p in s.held
    ensures Inv(Freeing(s, t, p), own')
  {
    hide Consistent, Issued, TrimSound, PtrOk, HeapStep, Moves, LocksOk, Owned, OwnsIssued, AllOk, ClassFor;
    var s' := Freeing(s, t, p);
    own' := Rehome(own, Some(p), Some(In(t, Carry)));
    assert InPlace(s, p, Client);
    OwnedIssued(s, own, p, Client);
    FreeMoves(s, own, t, p);
    TestingOk(s, s', t, p);
    LocksFrame(s, s', t);
    assert ThreadOk(s.threads[t]);
    Still(s.heap, Some(p));
    Move(s, own, s', t, Some(p), Some(In(t, Carry)));
  }

  lemma TestingOk(s: State, s': State, t: nat, p: Ptr)
    requires PtrOk(s, p, Client) && s'.heap == s.heap && t in s'.threads && s'.threads[t].pc == Testing(p)
    ensures PtrOk(s', p, In(t, Carry))
  {
    hide Reachable, ClassFor, IsBlock;
  }

  lemma FreeMoves(s: State, own: map<Ptr, Place>, t: nat, p: Ptr)
    requires Owned(s, own) && t in s.threads && s.threads[t].pc == Idle && p in s.held
    ensures Moves(s, Freeing(s, t, p), t, Some(p), Some(In(t, Carry)))
  {
    var s' := Freeing(s, t, p);
    assert InPlace(s, p, Client);
    forall q, pl | LocalTo(pl, t)
      ensures InPlace(s', q, pl) <==> if q == p then pl == In(t, Carry) else InPlace(s, q, pl)
    {
      assert InPlace(s, q, pl) <==> q in own && own[q] == pl;
    }
  }

  /** run_give's index computation recovers the block from its address. */
  lemma BlockAtAddress(h: Heap, b: Block)
    requires Consistent(h) && Issued(h, Small(b)) && Reachable(h.runs[b.base].elem, b.idx)
    ensures RouteOf(h, Addr(h, Small(b))) == ToRun(b.base)
    ensures OursSmall(h, Addr(h, Small(b))) && BlockAt(h, b.base, Addr(h, Small(b))) == b
  {
    SmallRoute(h, b);
    hide Consistent, Reachable;
    SmallTest(h.runs[b.base].elem, b.idx);
  }

  function Dropped(s: State, t: nat, b: Block, pc: Pc): State
    requires t in s.threads
  {
    SetPc(s, t, pc).(leaked := s.leaked + {b})
  }

  /** The test sends every pointer back to where it came from, but for blocks past the 2 MiB mark. */
  lemma TestOutcome(s: State, t: nat, p: Ptr)
    requires Sound(s) && Guard(s, Test(t)) && s.threads[t].pc == Testing(p) && Issued(s.heap, p)
    ensures p.Large? ==> DoTest(s, t) == SetPc(s, t, Unmapping(p.base))
    ensures p.Small? ==>
      DoTest(s, t) == if Reachable(s.heap.runs[p.b.base].elem, p.b.idx) then SetPc(s, t, Routed(p.b))
                      else Dropped(s, t, p.b, Idle)
  {
    hide Consistent, Addr, RouteOf, Reachable, ThreadSound, TrimSound, BlockAt;
    match p
    case Large(base) => LargeRoute(s.heap, base);
    case Small(b) =>
      if Reachable(s.heap.runs[b.base].elem, b.idx) { BlockAtAddress(s.heap, b); } else { SmallRoute(s.heap, b); }
  }

  lemma TestKeeps(s: State, own: map<Ptr, Place>, t: nat) returns (own': map<Ptr, Place>)
    requires Inv(s, own) && Sound(s) && Guard(s, Test(t))
    ensures Inv(DoTest(s, t), own')
  {
    hide Consistent, Issued, TrimSound, PtrOk, Owned, OwnsIssued, AllOk, LocksOk, ThreadsOk, Sound, DoTest;
    var p := s.threads[t].pc.p;
    CarriedOk(s, own, t);
    TestOutcome(s, t, p);
    match p
    case Large(base) => own' := own; RoutedKeeps(s, own, t, p, Unmapping(base));
    case Small(b) =>
      IsABlock(s.heap, b);
      if Reachable(s.heap.runs[b.base].elem, b.idx) {
        own' := own;
        RoutedKeeps(s, own, t, p, Routed(b));
      } else {
        own' := LostKeeps(s, own, t, b);
      }
  }

  lemma IsABlock(h: Heap, b: Block)
    requires Issued(h, Small(b))
    ensures b.base in h.runs && ValidElem(h.runs[b.base].elem)
  {}

  lemma RoutedKeeps(s: State, own: map<Ptr, Place>, t: nat, p: Ptr, pc: Pc)
    requires Inv(s, own) && t in s.threads && s.threads[t].pc == Testing(p) && Issued(s.heap, p)
    requires match p
             case Large(base) => pc == Unmapping(base)
             case Small(b) => pc == Routed(b) && Reachable(s.heap.runs[b.base].elem, b.idx)
    ensures Inv(SetPc(s, t, pc), own)
  {
    hide Consistent, TrimSound, Owned, OwnsIssued, AllOk, LocksOk, Reachable;
    var s' := SetPc(s, t, pc);
    CarriedOk(s, own, t);
    LocksFrame(s, s', t);
    assert ThreadOk(s.threads[t]);
    Turn(s, own, s', t);
  }

  lemma LeakedOk(s: State, b: Block)
    requires Issued(s.heap, Small(b)) && !Reachable(s.heap.runs[b.base].elem, b.idx)
    ensures PtrOk(s, Small(b), Leaked)
  {
    hide Reachable;
  }

  lemma LostKeeps(s: State, own: map<Ptr, Place>, t: nat, b: Block) returns (own': map<Ptr, Place>)
    requires Inv(s, own) && t in s.threads && s.threads[t].pc == Testing(Small(b)) && Issued(s.heap, Small(b))
    requires !Reachable(s.heap.runs[b.base].elem, b.idx)
    ensures Inv(Dropped(s, t, b, Idle), own')
  {
    hide Consistent, Issued, TrimSound, PtrOk, HeapStep, Moves, LocksOk, Owned, OwnsIssued, AllOk, Reachable;
    var s' := Dropped(s, t, b, Idle);
    LeakedOk(s', b);
    own' := Rehome(own, Some(Small(b)), Some(Leaked));
    CarryOut(s, own, s', t, Small(b), Leaked);
    LocksFrame(s, s', t);
    assert ThreadOk(s.threads[t]);
    Still(s.heap, Some(Small(b)));
    Move(s, own, s', t, Some(Small(b)), Some(Leaked));
  }

  predicate CanRoute(s: State, t: nat) {
    && t in s.threads && s.threads[t].pc.Routed? && s.threads[t].pc.b.base in s.heap.runs
    && ValidClass(s.heap.runs[s.threads[t].pc.b.base].cls)
    && (s.threads[t].cache.Some? ==> |s.threads[t].cache.value| == NUM_CLASSES)
  }

  lemma RouteKeeps(s: State, own: map<Ptr, Place>, t: nat) returns (own': map<Ptr, Place>)
    requires Inv(s, own) && CanRoute(s, t)
    ensures Inv(DoRoute(s, t), own')
  {
    hide Inv, DoRoute;
    var th := s.threads[t];
    var c := s.heap.runs[th.pc.b.base].cls - 1;
    if th.cache.Some? && |th.cache.value[c]| < CACHE_SLOTS {
      own' := PushKeeps(s, own, t, c);
    } else {
      own' := own;
      QueueKeeps(s, own, t, c);
    }
  }

  /** No room in the cache: the thread goes for the lock. */
  lemma QueueKeeps(s: State, own: map<Ptr, Place>, t: nat, c: nat)
    requires Inv(s, own) && CanRoute(s, t) && c == s.heap.runs[s.threads[t].pc.b.base].cls - 1
    requires s.threads[t].cache.Some? ==> |s.threads[t].cache.value[c]| >= CACHE_SLOTS
    ensures Inv(DoRoute(s, t), own)
  {
    hide Consistent, Issued, TrimSound, PtrOk, HeapStep, Moves, LocksOk, Owned, OwnsIssued, AllOk, Reachable;
    CarriedOk(s, own, t);
    LocksFrame(s, DoRoute(s, t), t);
    assert ThreadOk(s.threads[t]);
    RoutedOk(s, DoRoute(s, t), t, s.threads[t].pc.b, In(t, Carry));
    Turn(s, own, DoRoute(s, t), t);
  }

  lemma PushKeeps(s: State, own: map<Ptr, Place>, t: nat, c: nat) returns (own': map<Ptr, Place>)
    requires Inv(s, own) && CanRoute(s, t) && c == s.heap.runs[s.threads[t].pc.b.base].cls - 1
    requires s.threads[t].cache.Some? && |s.threads[t].cache.value[c]| < CACHE_SLOTS
    ensures Inv(DoRoute(s, t), own')
  {
    hide Consistent, Issued, TrimSound, PtrOk, HeapStep, Moves, LocksOk, Owned, OwnsIssued, AllOk, Reachable;
    var th, s' := s.threads[t], DoRoute(s, t);
    var b := th.pc.b;
    var dest := In(t, Slot(c, |th.cache.value[c]|));
    own' := Rehome(own, Some(Small(b)), Some(dest));
    CarriedOk(s, own, t);
    LocksFrame(s, s', t);
    assert ThreadOk(th);
    PushMoves(s, own, t, c);
    RoutedOk(s, s', t, b, dest);
    Still(s.heap, Some(Small(b)));
    Move(s, own, s', t, Some(Small(b)), Some(dest));
  }

  lemma RoutedOk(s: State, s': State, t: nat, b: Block, dest: Place)
    requires t in s.threads && s.threads[t].pc == Routed(b) && PtrOk(s, Small(b), In(t, Carry))
    requires s'.heap == s.heap && t in s'.threads && s.heap.runs[b.base].cls > 0
    requires
      var c := s.heap.runs[b.base].cls - 1;
      dest.In? && dest.t == t && match dest.at
                                 case Slot(d, _) => d == c
                                 case Carry => s'.threads[t].pc == Waiting(c, Release(b))
    ensures PtrOk(s', Small(b), dest)
  {
    hide Reachable, IsBlock;
  }

  /** free's cache push. */
  lemma PushMoves(s: State, own: map<Ptr, Place>, t: nat, c: nat)
    requires Owned(s, own) && CanRoute(s, t) && c == s.heap.runs[s.threads[t].pc.b.base].cls - 1
    requires s.threads[t].cache.Some? && |s.threads[t].cache.value[c]| < CACHE_SLOTS
    ensures
      var p, dest := Small(s.threads[t].pc.b), In(t, Slot(c, |s.threads[t].cache.value[c]|));
      Moves(s, DoRoute(s, t), t, Some(p), Some(dest)) && p in own && own[p] == In(t, Carry)
  {
    var th, s' := s.threads[t], DoRoute(s, t);
    var p := Small(th.pc.b);
    var slot := Slot(c, |th.cache.value[c]|);
    assert InPlace(s, p, In(t, Carry));
    forall q, pl | LocalTo(pl, t)
      ensures InPlace(s', q, pl) <==> if q == p then pl == In(t, slot) else InPlace(s, q, pl)
    {
      assert InPlace(s, q, pl) <==> q in own && own[q] == pl;
      if pl.In? {
        assert Has(s'.threads[t], q, pl.at) <==>
               (Has(s.threads[t], q, pl.at) && pl.at != Carry) || (q == p && pl.at == slot);
      }
    }
  }

  /** A thread that owns nothing ends. */
  lemma EndKeeps(s: State, own: map<Ptr, Place>, t: nat)
    requires Inv(s, own) && t in s.threads && Carried(s.threads[t].pc) == None && Holding(s.threads[t].pc) == None
    requires forall c, i :: !SlotLive(s.threads[t], c, i)
    ensures Inv(s.(threads := s.threads - {t}), own)
  {
    var s' := s.(threads := s.threads - {t});
    EndMoves(s, t);
    hide Consistent, Issued, TrimSound, PtrOk, HeapStep, Moves, LocksOk, Owned, OwnsIssued, AllOk;
    LocksFrame(s, s', t);
    Still(s.heap, None);
    Move(s, own, s', t, None, None);
  }

  lemma EndMoves(s: State, t: nat)
    requires t in s.threads && Carried(s.threads[t].pc) == None
    requires forall c, i :: !SlotLive(s.threads[t], c, i)
    ensures Moves(s, s.(threads := s.threads - {t}), t, None, None)
  {}

  lemma ExitKeeps(s: State, own: map<Ptr, Place>, t: nat)
    requires Inv(s, own) && t in s.threads && s.threads[t].pc == Idle && s.threads[t].cache.Some?
    ensures Inv(SetPc(s, t, Flushing(0, 0)), own)
  {
    hide Consistent, Issued, TrimSound, PtrOk, HeapStep, Moves, LocksOk, Owned, OwnsIssued, AllOk;
    LocksFrame(s, SetPc(s, t, Flushing(0, 0)), t);
    assert ThreadOk(s.threads[t]);
    Turn(s, own, SetPc(s, t, Flushing(0, 0)), t);
  }

  /** A cached block is always found again: the destructor drops none. */
  lemma FlushOutcome(s: State, own: map<Ptr, Place>, t: nat)
    requires Inv(s, own) && Sound(s) && Guard(s, Flush(t))
    ensures
      var th := s.threads[t];
      var c, i := th.pc.c, th.pc.i;
      th.cache.Some? && |th.cache.value| == NUM_CLASSES &&
      DoFlush(s, t) ==
      if c >= NUM_CLASSES then s.(threads := s.threads - {t})
      else if i >= |th.cache.value[c]| then SetPc(s, t, Flushing(c + 1, 0))
      else SetPc(s, t, Waiting(c, FlushSlot(c, i)))
  {
    hide Consistent, Issued, TrimSound, PtrOk, LocksOk, Owned, OwnsIssued, AllOk, Addr, RouteOf, Reachable,
      ThreadsOk, BlockAt;
    var th := s.threads[t];
    assert ThreadSound(s.heap, th);
    var c, i := th.pc.c, th.pc.i;
    if HasSlot(th, c, i) {
      SlotOk(s, own, t, c, i);
      SlotFound(s, th.cache.value[c][i], t, c, i);
    }
  }

  lemma SlotFound(s: State, b: Block, t: nat, c: nat, i: nat)
    requires Consistent(s.heap) && PtrOk(s, Small(b), In(t, Slot(c, i)))
    ensures Issued(s.heap, Small(b)) && RouteOf(s.heap, Addr(s.heap, Small(b))) == ToRun(b.base)
    ensures ClassRead(s.heap, b.base) == c
  {
    hide Consistent, Addr, RouteOf, Reachable;
    SmallRoute(s.heap, b);
  }

  lemma FlushKeeps(s: State, own: map<Ptr, Place>, t: nat)
    requires Inv(s, own) && Sound(s) && Guard(s, Flush(t))
    ensures Inv(DoFlush(s, t), own)
  {
    FlushOutcome(s, own, t);
    FlushedKeeps(s, own, t);
  }

  lemma FlushedKeeps(s: State, own: map<Ptr, Place>, t: nat)
    requires Inv(s, own) && t in s.threads && s.threads[t].pc.Flushing?
    requires s.threads[t].cache.Some? && |s.threads[t].cache.value| == NUM_CLASSES
    ensures
      var th := s.threads[t];
      var c, i := th.pc.c, th.pc.i;
      if c >= NUM_CLASSES then Inv(s.(threads := s.threads - {t}), own)
      else if i >= |th.cache.value[c]| then Inv(SetPc(s, t, Flushing(c + 1, 0)), own)
      else Inv(SetPc(s, t, Waiting(c, FlushSlot(c, i))), own)
  {
    hide Consistent, Issued, TrimSound, PtrOk, HeapStep, Moves, LocksOk, Owned, OwnsIssued, AllOk;
    var th := s.threads[t];
    var c, i := th.pc.c, th.pc.i;
    assert ThreadOk(th);
    if c >= NUM_CLASSES {
      EndKeeps(s, own, t);
    } else {
      var pc := if i >= |th.cache.value[c]| then Flushing(c + 1, 0) else Waiting(c, FlushSlot(c, i));
      LocksFrame(s, SetPc(s, t, pc), t);
      Turn(s, own, SetPc(s, t, pc), t);
    }
  }

  // ---------------------------------------------------------------- the trimmer's own steps

  /** Only the trimmer and the locks change. */
  lemma TrimTurn(s: State, own: map<Ptr, Place>, mu: seq<Option<Holder>>, trim: Trim)
    requires Inv(s, own)
    requires LocksOk(s.(mu := mu, trim := trim)) && TrimSound(s.heap, trim)
    ensures Inv(s.(mu := mu, trim := trim), own)
  {
    hide Consistent, Issued, TrimSound, PtrOk, HeapStep, LocksOk, OwnsIssued;
    Still(s.heap, None);
    assert 0 in s.threads ==> ThreadOk(s.threads[0]);
    Move(s, own, s.(mu := mu, trim := trim), 0, None, None);
  }

  lemma TrimLockKeeps(s: State, own: map<Ptr, Place>)
    requires Inv(s, own) && s.trim.AtClass? && s.trim.c < |s.mu| && s.mu[s.trim.c] == None
    ensures Shape(s.heap)
    ensures Inv(s.(mu := s.mu[s.trim.c := Some(Trimmer)],
                   trim := Walking(s.trim.t, s.trim.c, FirstOf(s.heap.lists[s.trim.c]))), own)
  {
    FirstListed(s.heap, s.trim.c);
    hide Consistent, Issued, PtrOk, HeapStep, OwnsIssued, Owned, AllOk, ThreadsOk, FirstOf;
    TrimTurn(s, own, s.mu[s.trim.c := Some(Trimmer)], Walking(s.trim.t, s.trim.c, FirstOf(s.heap.lists[s.trim.c])));
  }

  lemma FirstListed(h: Heap, c: nat)
    requires Consistent(h) && c < NUM_CLASSES
    ensures Shape(h)
    ensures FirstOf(h.lists[c]).Some? ==> FirstOf(h.lists[c]).value in h.lists[c] && FirstOf(h.lists[c]).value in h.runs
  {
    ClassFacts(h, c);
  }

  lemma TrimUnlockKeeps(s: State, own: map<Ptr, Place>)
    requires Inv(s, own) && s.trim.Walking? && s.trim.c < |s.mu|
    ensures Inv(s.(mu := s.mu[s.trim.c := None], trim := AtClass(s.trim.t, s.trim.c + 1)), own)
  {
    hide Consistent, Issued, PtrOk, HeapStep, OwnsIssued, Owned, AllOk, ThreadsOk;
    TrimTurn(s, own, s.mu[s.trim.c := None], AtClass(s.trim.t, s.trim.c + 1));
  }

  lemma TrimIdleKeeps(s: State, own: map<Ptr, Place>, trim: Trim)
    requires Inv(s, own) && !s.trim.Walking? && (trim == Asleep || trim == AtClass(s.now, 0))
    ensures Inv(s.(trim := trim), own)
  {
    hide Consistent, Issued, PtrOk, HeapStep, OwnsIssued, Owned, AllOk, ThreadsOk;
    assert s.(trim := trim) == s.(mu := s.mu, trim := trim);
    TrimTurn(s, own, s.mu, trim);
  }
}
