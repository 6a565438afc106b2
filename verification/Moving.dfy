/** realloc's move when other threads and the trimmer run beside it: a new block is obtained, the bytes are
    copied by single stores, the old block is freed. */
module Moving {
  import opened HeapSpec
  import opened Protocol
  import opened Guarantees
  import opened Integrity

  /** `value` is what the byte at offset `off` of p was at some moment from i to k. */
  ghost predicate ReadFrom(trace: seq<State>, i: nat, k: nat, p: Ptr, off: nat, value: bv8)
    requires i <= k < |trace| && forall m :: i <= m <= k ==> Issued(trace[m].heap, p)
  {
    exists m :: i <= m <= k && ByteAt(trace[m].heap, p, off) == value
  }

  /** Both pointers stay issued from i to j. */
  ghost predicate BothIssued(trace: seq<State>, i: nat, j: nat, p: Ptr, r: Ptr)
    requires j < |trace|
  {
    && p != r
    && (forall k :: i <= k <= j ==> Issued(trace[k].heap, p) && Issued(trace[k].heap, r))
  }

  /** Between i and j the byte at `off` of p is left alone and stored at the same offset of r, by stores that
      come any time after a read of it. */
  ghost predicate Copied(trace: seq<State>, steps: seq<Step>, i: nat, j: nat, p: Ptr, r: Ptr, off: nat)
    requires |trace| == |steps| + 1 && i <= j <= |steps| && BothIssued(trace, i, j, p, r)
  {
    && (forall k :: i <= k < j ==> !WritesTo(steps[k], p, off))
    && (forall k :: i <= k < j && WritesTo(steps[k], r, off) ==> ReadFrom(trace, i, k, p, off, steps[k].value))
    && (exists k :: i <= k < j && WritesTo(steps[k], r, off))
  }

  /** A store of the byte just read. */
  lemma StoreLands(trace: seq<State>, steps: seq<Step>, i: nat, j: nat, p: Ptr, r: Ptr, off: nat)
    requires Execution(trace, steps) && i < j <= |steps| && BothIssued(trace, i, j, p, r)
    requires forall k :: i <= k < j ==> !WritesTo(steps[k], p, off)
    requires WritesTo(steps[j - 1], r, off) && ReadFrom(trace, i, j - 1, p, off, steps[j - 1].value)
    requires Safe(trace[i].heap, p, off)
    ensures ByteAt(trace[j].heap, r, off) == ByteAt(trace[i].heap, p, off)
  {
    hide Issued, Sound, Starts, Safe;
    var m :| i <= m <= j - 1 && ByteAt(trace[m].heap, p, off) == steps[j - 1].value;
    BytesSurvive(trace, steps, i, m, p, off);
    var s, u := trace[j - 1], trace[j - 1 + 1];
    assert Guard(s, steps[j - 1]) && Sound(s) && u == Do(s, steps[j - 1]);
    Stored(s, r, off, steps[j - 1].value);
  }

  lemma Stored(s: State, r: Ptr, off: nat, value: bv8)
    requires Sound(s) && Guard(s, Write(r, off, value)) && Issued(s.heap, r)
    ensures Issued(Do(s, Write(r, off, value)).heap, r)
    ensures ByteAt(Do(s, Write(r, off, value)).heap, r, off) == value
  {
    hide Sound;
  }

  /** Whatever happens in between, the copy arrives. */
  lemma {:induction false} CopyArrives(
    trace: seq<State>, steps: seq<Step>, i: nat, j: nat, p: Ptr, r: Ptr, off: nat)
    requires Execution(trace, steps) && i <= j <= |steps| && BothIssued(trace, i, j, p, r)
    requires Copied(trace, steps, i, j, p, r, off)
    requires Safe(trace[i].heap, p, off) && Safe(trace[i].heap, r, off)
    ensures Safe(trace[j].heap, r, off) && ByteAt(trace[j].heap, r, off) == ByteAt(trace[i].heap, p, off)
    decreases j
  {
    hide Issued, Starts, Safe, ByteAt, Trace, ReadFrom, Bytes;
    SafeStays(trace, steps, i, j, r, off);
    var k := j - 1;
    if WritesTo(steps[k], r, off) {
      StoreLands(trace, steps, i, j, p, r, off);
    } else {
      CopyArrives(trace, steps, i, k, p, r, off);
      BytesSurvive(trace, steps, k, j, r, off);
    }
  }

  lemma HeldIssued(trace: seq<State>, steps: seq<Step>, k: nat, p: Ptr)
    requires Execution(trace, steps) && k <= |steps| && p in trace[k].held
    ensures Issued(trace[k].heap, p) && trace[k].held[p] <= Capacity(trace[k].heap, p)
  {
    hide Starts, Sound, Guard, Orderly, Do, Arises, Issued, Capacity;
    ArisesAt(trace, steps, k);
    HeldFits(trace[k], p);
  }

  /** The old block p is not given up before j, a client holds the new one, r, until l, and the first `len` bytes,
      which both have room for, are copied from p to r before j and left alone in r after it. */
  ghost predicate Moved(trace: seq<State>, steps: seq<Step>, i: nat, j: nat, l: nat, p: Ptr, r: Ptr, len: nat)
    requires |trace| == |steps| + 1 && i <= j <= l <= |steps|
  {
    && BothIssued(trace, i, j, p, r)
    && (forall k :: i <= k <= l ==> r in trace[k].held)
    && len <= Capacity(trace[i].heap, p) && len <= trace[i].held[r]
    && (forall off: nat :: off < len ==> Copied(trace, steps, i, j, p, r, off))
    && (forall k, off: nat :: j <= k < l && off < len ==> !WritesTo(steps[k], r, off))
  }

  /** realloc's promise in every interleaving: once the bytes have been copied, the new block has them and
      keeps them, although the old one may be freed, cached, handed out again or unmapped meanwhile. */
  lemma MoveKeepsBytes(trace: seq<State>, steps: seq<Step>, i: nat, j: nat, l: nat, p: Ptr, r: Ptr, len: nat, off: nat)
    requires Execution(trace, steps) && i <= j <= l <= |steps| && Moved(trace, steps, i, j, l, p, r, len)
    requires off < len
    requires !Exposed(trace[i].heap, p, Addr(trace[i].heap, p) + off)
    requires !Exposed(trace[i].heap, r, Addr(trace[i].heap, r) + off)
    ensures Issued(trace[l].heap, r) && ByteAt(trace[l].heap, r, off) == ByteAt(trace[i].heap, p, off)
  {
    hide Issued, Starts, ByteAt, Sound, Guard, Orderly, Do, Copied, Bytes, Exposed, Capacity;
    HeldIssued(trace, steps, i, r);
    CopyArrives(trace, steps, i, j, p, r, off);
    forall k | i <= k <= l ensures Issued(trace[k].heap, r) { HeldIssued(trace, steps, k, r); }
    BytesSurvive(trace, steps, j, l, r, off);
  }
}
