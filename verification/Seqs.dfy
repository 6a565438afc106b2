/** Sequence helpers shared by the list and the protocol. */
module Seqs {

  function RemoveAt<T>(s: seq<T>, i: nat): (r: seq<T>)
    requires i < |s|
    ensures |r| == |s| - 1
  {
    s[..i] + s[i + 1..]
  }

  ghost predicate Distinct<T>(s: seq<T>) {
    forall i, j :: 0 <= i < j < |s| ==> s[i] != s[j]
  }

  lemma RemoveAtIndex<T>(s: seq<T>, i: nat, k: nat)
    requires i < |s| && k < |s| - 1
    ensures RemoveAt(s, i)[k] == s[if k < i then k else k + 1]
  {}

  lemma RemoveAtDistinct<T>(s: seq<T>, i: nat)
    requires i < |s| && Distinct(s)
    ensures Distinct(RemoveAt(s, i)) && s[i] !in RemoveAt(s, i)
  {}

  lemma RemoveAtMembers<T>(s: seq<T>, i: nat, x: T)
    requires i < |s| && Distinct(s)
    ensures x in RemoveAt(s, i) <==> x in s && x != s[i]
  {
    if x in s && x != s[i] {
      var j :| 0 <= j < |s| && s[j] == x;
      assert RemoveAt(s, i)[if j < i then j else j - 1] == x;
    }
  }

  lemma SplitLast<T>(s: seq<T>, j: nat)
    requires j < |s|
    ensures s[..j + 1][..j] == s[..j] && s[..j + 1][j] == s[j]
  {}

  /** `s` without its first occurrence of `x`. */
  function Remove<T(==)>(s: seq<T>, x: T): seq<T> {
    if s == [] then [] else if s[0] == x then s[1..] else [s[0]] + Remove(s[1..], x)
  }

  lemma {:induction false} RemoveIsRemoveAt<T>(s: seq<T>, i: nat)
    requires Distinct(s) && i < |s|
    ensures Remove(s, s[i]) == RemoveAt(s, i)
  {
    if i > 0 {
      RemoveIsRemoveAt(s[1..], i - 1);
      assert s[1..][i - 1] == s[i];
      assert RemoveAt(s, i) == [s[0]] + RemoveAt(s[1..], i - 1);
    }
  }

  lemma {:induction false} RemoveMember<T>(s: seq<T>, x: T, y: T)
    requires y in s && y != x
    ensures y in Remove(s, x)
  {
    if s[0] != x && s[0] != y { RemoveMember(s[1..], x, y); }
  }
}
