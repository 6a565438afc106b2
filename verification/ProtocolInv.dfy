/** The invariant of the step system: every issued block and region is in exactly one place, the class
    locks are exclusive, and what each place holds is of the right kind. */
module ProtocolInv {
  import opened SizeClasses
  import opened Options
  import opened HeapSpec
  import opened Ownership
  import opened Protocol

  // ---------------------------------------------------------------- places

  /** Where a thread keeps a pointer: in a register, or in a slot of its cache. */
  datatype Local = Carry | Slot(c: nat, i: nat)

  datatype Place = Client | Leaked | In(t: nat, at: Local)

  function Carried(pc: Pc): Option<Ptr> {
    match pc
    case Testing(p) => Some(p)
    case Routed(b) => Some(Small(b))
    case Unmapping(base) => Some(Large(base))
    case Waiting(_, Release(b)) => Some(Small(b))
    case Inside(_, Release(b)) => Some(Small(b))
    case Leaving(_, Answer(_, Some(b))) => Some(Small(b))
    case _ => None
  }

  /** The exit destructor's position; slots before it have been given up. */
  function Cursor(pc: Pc): (nat, nat) {
    match pc
    case Flushing(c, i) => (c, i)
    case Waiting(_, FlushSlot(c, i)) => (c, i)
    case Inside(_, FlushSlot(c, i)) => (c, i)
    case Leaving(_, FlushFrom(c, i)) => (c, i)
    case _ => (0, 0)
  }

  predicate Passed(cursor: (nat, nat), c: nat, i: nat) { c < cursor.0 || (c == cursor.0 && i < cursor.1) }

  predicate SlotLive(th: Thread, c: nat, i: nat) { HasSlot(th, c, i) && !Passed(Cursor(th.pc), c, i) }

  predicate Has(th: Thread, p: Ptr, at: Local) {
    match at
    case Carry => Carried(th.pc) == Some(p)
    case Slot(c, i) => SlotLive(th, c, i) && p == Small(th.cache.value[c][i])
  }

  predicate InPlace(s: State, p: Ptr, pl: Place) {
    match pl
    case Client => p in s.held
    case Leaked => p.Small? && p.b in s.leaked
    case In(t, at) => t in s.threads && Has(s.threads[t], p, at)
  }

  // ---------------------------------------------------------------- the invariant

  /** `own` says where everything issued is: each pointer in its one place. */
  ghost predicate Owned(s: State, own: map<Ptr, Place>) {
    forall p, pl :: InPlace(s, p, pl) <==> p in own && own[p] == pl
  }

  ghost predicate OwnsIssued(h: Heap, own: map<Ptr, Place>) {
    forall p :: p in own <==> Issued(h, p)
  }

  ghost predicate AnswerOk(n: nat, cls: nat) { 1 <= n < LARGE_MIN && cls == ClassFor(n) }

  /** What is known of a small block carried by a thread. */
  ghost predicate FlightOk(pc: Pc, cls: nat, reach: bool) {
    match pc
    case Routed(_) => reach
    case Waiting(c, _) => cls == c + 1 && reach
    case Inside(c, _) => cls == c + 1 && reach
    case Leaving(_, Answer(n, _)) => AnswerOk(n, cls)
    case _ => true
  }

  ghost predicate SmallOk(s: State, b: Block, pl: Place, cls: nat, reach: bool) {
    match pl
    case Client => Small(b) in s.held && AnswerOk(s.held[Small(b)], cls)
    case Leaked => !reach
    case In(t, Slot(c, _)) => cls == c + 1 && reach
    case In(t, Carry) => t in s.threads && FlightOk(s.threads[t].pc, cls, reach)
  }

  ghost predicate PtrOk(s: State, p: Ptr, pl: Place) {
    && Issued(s.heap, p)
    && match p
       case Large(base) =>
         && HasRoom(s.heap.large[base])
         && (pl.Client? ==> p in s.held && s.held[p] == s.heap.large[base].user >= LARGE_MIN)
       case Small(b) => var r := s.heap.runs[b.base]; SmallOk(s, b, pl, r.cls, Reachable(r.elem, b.idx))
  }

  ghost predicate AllOk(s: State, own: map<Ptr, Place>) {
    forall p :: p in own ==> PtrOk(s, p, own[p])
  }

  ghost predicate JobOk(th: Thread, c: nat, job: Job) {
    match job
    case Alloc(n) => AnswerOk(n, c + 1)
    case Release(_) => true
    case FlushSlot(d, i) => d == c && HasSlot(th, d, i)
  }

  ghost predicate ThreadOk(th: Thread) {
    && (th.cache.Some? ==> |th.cache.value| == NUM_CLASSES)
    && (th.cache.Some? ==> forall c :: 0 <= c < NUM_CLASSES ==> |th.cache.value[c]| <= CACHE_SLOTS)
    && match th.pc
       case Waiting(c, job) => c < NUM_CLASSES && JobOk(th, c, job)
       case Inside(c, job) => c < NUM_CLASSES && JobOk(th, c, job)
       case Leaving(c, after) =>
         && c < NUM_CLASSES
         && (after.FlushFrom? ==> th.cache.Some?)
         && (after.Answer? ==> AnswerOk(after.n, c + 1))
       case Flushing(_, _) => th.cache.Some?
       case _ => true
  }

  function Holding(pc: Pc): Option<nat> {
    match pc
    case Inside(c, _) => Some(c)
    case Leaving(c, _) => Some(c)
    case _ => None
  }

  /** The holder recorded in the lock of class c is inside the class. */
  predicate HolderInside(s: State, c: nat, o: Holder) {
    match o
    case Worker(t) => t in s.threads && Holding(s.threads[t].pc) == Some(c)
    case Trimmer => s.trim.Walking? && s.trim.c == c
  }

  /** A class lock is held exactly by whoever is inside the class: at most one thread, or the trimmer. */
  ghost predicate LocksOk(s: State) {
    && |s.mu| == NUM_CLASSES
    && (forall t :: t in s.threads && Holding(s.threads[t].pc).Some? ==>
          var c := Holding(s.threads[t].pc).value; c < NUM_CLASSES && s.mu[c] == Some(Worker(t)))
    && (s.trim.Walking? ==> s.trim.c < NUM_CLASSES && s.mu[s.trim.c] == Some(Trimmer))
    && (forall c :: 0 <= c < NUM_CLASSES && s.mu[c].Some? ==> HolderInside(s, c, s.mu[c].value))
  }

  ghost predicate ThreadsOk(s: State) { forall t :: t in s.threads ==> ThreadOk(s.threads[t]) }

  ghost predicate Inv(s: State, own: map<Ptr, Place>) {
    && Consistent(s.heap) && OwnsIssued(s.heap, own)
    && Owned(s, own) && AllOk(s, own)
    && ThreadsOk(s) && LocksOk(s) && TrimSound(s.heap, s.trim)
  }

  // ---------------------------------------------------------------- the invariant makes every step safe

  lemma OwnedIssued(s: State, own: map<Ptr, Place>, p: Ptr, pl: Place)
    requires Inv(s, own) && InPlace(s, p, pl)
    ensures p in own && own[p] == pl && Issued(s.heap, p) && PtrOk(s, p, pl)
  {
    hide Consistent, Issued, PtrOk, ThreadsOk, LocksOk, TrimSound, InPlace;
  }

  lemma ThreadIsSound(s: State, own: map<Ptr, Place>, t: nat)
    requires Inv(s, own) && t in s.threads
    ensures ThreadSound(s.heap, s.threads[t])
  {
    hide Consistent, Owned, AllOk, OwnsIssued, TrimSound, LocksOk, Reachable, ClassFor, IsBlock;
    var th := s.threads[t];
    assert ThreadOk(th);
    match Carried(th.pc) {
      case Some(p) => assert InPlace(s, p, In(t, Carry)); OwnedIssued(s, own, p, In(t, Carry));
      case None =>
    }
    var (c, i) := Cursor(th.pc);
    if HasSlot(th, c, i) {
      var p := Small(th.cache.value[c][i]);
      assert InPlace(s, p, In(t, Slot(c, i)));
      OwnedIssued(s, own, p, In(t, Slot(c, i)));
    }
    match th.pc {
      case Routed(b) => ClassOfIssued(s.heap, b);
      case _ =>
    }
  }

  lemma ClassOfIssued(h: Heap, b: Block)
    requires Consistent(h) && Issued(h, Small(b))
    ensures ValidClass(h.runs[b.base].cls)
  {
    assert RunOk(h, b.base);
  }

  lemma InvSound(s: State, own: map<Ptr, Place>)
    requires Inv(s, own)
    ensures Sound(s)
  {
    hide Consistent, Issued, TrimSound, PtrOk, ThreadSound;
    forall p | p in s.held ensures Issued(s.heap, p) {
      assert InPlace(s, p, Client);
      OwnedIssued(s, own, p, Client);
    }
    forall t | t in s.threads ensures ThreadSound(s.heap, s.threads[t]) { ThreadIsSound(s, own, t); }
  }
}
