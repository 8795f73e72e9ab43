/** Generic facts about sequences used to state ordering properties. */
module Sequences {

  /** `s` lists some of the elements of `t`, in the order in which they occur in `t`. */
  predicate IsSubsequence<T(==)>(s: seq<T>, t: seq<T>)
    decreases |t|
  {
    if |s| == 0 then true
    else if |t| == 0 then false
    else (s[0] == t[0] && IsSubsequence(s[1..], t[1..])) || IsSubsequence(s, t[1..])
  }

  /** No element occurs twice in `s`. */
  predicate NoDuplicates<T(==)>(s: seq<T>) {
    forall i, j :: 0 <= i < j < |s| ==> s[i] != s[j]
  }

  /** Applies `f` to every element of `s`, keeping the order. */
  function MapSeq<A, B>(f: A -> B, s: seq<A>): (r: seq<B>)
  {
    seq(|s|, i requires 0 <= i < |s| => f(s[i]))
  }

  lemma MapSeqCons<A, B>(f: A -> B, s: seq<A>)
    requires |s| > 0
    ensures MapSeq(f, s) == [f(s[0])] + MapSeq(f, s[1..])
  {
    assert forall i :: 1 <= i < |s| ==> s[1..][i - 1] == s[i];
  }

  /** Every element of a subsequence occurs in the sequence it is taken from. */
  lemma {:induction false} SubsequenceMembers<T>(s: seq<T>, t: seq<T>)
    requires IsSubsequence(s, t)
    ensures forall x :: x in s ==> x in t
    decreases |t|
  {
    if |s| > 0 {
      if s[0] == t[0] && IsSubsequence(s[1..], t[1..]) {
        SubsequenceMembers(s[1..], t[1..]);
        forall x | x in s ensures x in t {
          if x != s[0] {
            assert x in s[1..];
          }
        }
      } else {
        SubsequenceMembers(s, t[1..]);
      }
    }
  }

  /** A subsequence of a duplicate-free sequence is itself duplicate-free. */
  lemma {:induction false} SubsequenceOfDistinct<T>(s: seq<T>, t: seq<T>)
    requires IsSubsequence(s, t)
    requires NoDuplicates(t)
    ensures NoDuplicates(s)
    decreases |t|
  {
    if |s| > 0 {
      assert NoDuplicates(t[1..]);
      if s[0] == t[0] && IsSubsequence(s[1..], t[1..]) {
        SubsequenceOfDistinct(s[1..], t[1..]);
        SubsequenceMembers(s[1..], t[1..]);
        assert t[0] !in t[1..];
        forall i, j | 0 <= i < j < |s| ensures s[i] != s[j] {
          if i == 0 {
            assert s[j] == s[1..][j - 1];
          } else {
            assert s[i] == s[1..][i - 1] && s[j] == s[1..][j - 1];
          }
        }
      } else {
        SubsequenceOfDistinct(s, t[1..]);
      }
    }
  }
}
