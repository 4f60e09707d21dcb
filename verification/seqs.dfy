/** Order-preserving filtering of sequences, the model of `Array.prototype.filter`. */
module Seqs {

  /** The elements of `s` that satisfy `keep`, in their original order. */
  function Filter<T>(keep: T -> bool, s: seq<T>): (r: seq<T>)
    ensures |r| <= |s|
    ensures forall i :: 0 <= i < |r| ==> keep(r[i])
    ensures forall i :: 0 <= i < |r| ==> r[i] in s
    ensures forall i :: 0 <= i < |s| && keep(s[i]) ==> s[i] in r
  {
    if |s| == 0 then []
    else (if keep(s[0]) then [s[0]] else []) + Filter(keep, s[1..])
  }

  /** Filtering distributes over concatenation: it never reorders elements. */
  lemma {:induction false} FilterAppend<T>(keep: T -> bool, s: seq<T>, t: seq<T>)
    ensures Filter(keep, s + t) == Filter(keep, s) + Filter(keep, t)
  {
    if |s| == 0 {
      assert s + t == t;
    } else {
      assert (s + t)[1..] == s[1..] + t;
      FilterAppend(keep, s[1..], t);
    }
  }

  /** A sequence whose every element is kept comes back unchanged. */
  lemma {:induction false} FilterKeepsAll<T>(keep: T -> bool, s: seq<T>)
    requires forall i :: 0 <= i < |s| ==> keep(s[i])
    ensures Filter(keep, s) == s
  {
    if |s| > 0 {
      FilterKeepsAll(keep, s[1..]);
    }
  }

  /** Filtering twice with the same test is filtering once. */
  lemma FilterIdempotent<T>(keep: T -> bool, s: seq<T>)
    ensures Filter(keep, Filter(keep, s)) == Filter(keep, s)
  {
    FilterKeepsAll(keep, Filter(keep, s));
  }

  /** Two complementary filters split a sequence: together they keep every element once. */
  lemma {:induction false} FilterPartition<T>(keep: T -> bool, drop: T -> bool, s: seq<T>)
    requires forall i :: 0 <= i < |s| ==> drop(s[i]) == !keep(s[i])
    ensures |Filter(keep, s)| + |Filter(drop, s)| == |s|
  {
    if |s| > 0 {
      FilterPartition(keep, drop, s[1..]);
    }
  }

  /** A sequence none of whose elements is kept filters to nothing. */
  lemma {:induction false} FilterKeepsNone<T>(keep: T -> bool, s: seq<T>)
    requires forall i :: 0 <= i < |s| ==> !keep(s[i])
    ensures Filter(keep, s) == []
  {
    if |s| > 0 {
      FilterKeepsNone(keep, s[1..]);
    }
  }
}
