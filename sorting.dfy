/** The numeric ascending sort `xs.sort((a, b) => a - b)` used for drawn and
    predicted numbers, and facts about distinct sequences. */
module Sorting {

  predicate Ascending(s: seq<int>) {
    forall i, j :: 0 <= i < j < |s| ==> s[i] <= s[j]
  }

  predicate Distinct(s: seq<int>) {
    forall i, j :: 0 <= i < j < |s| ==> s[i] != s[j]
  }

  /** Inserts `x` into a sequence before the first element not smaller than it. */
  function Insert(x: int, s: seq<int>): (r: seq<int>)
    ensures multiset(r) == multiset(s) + multiset{x}
  {
    if s == [] || x <= s[0] then [x] + s
    else
      assert s == [s[0]] + s[1..];
      [s[0]] + Insert(x, s[1..])
  }

  /** Inserting into an ascending sequence keeps it ascending. */
  lemma {:induction false} InsertAscending(x: int, s: seq<int>)
    requires Ascending(s)
    ensures Ascending(Insert(x, s))
  {
    if s != [] && x > s[0] {
      var t := s[1..];
      InsertAscending(x, t);
      var rest := Insert(x, t);
      forall k | 0 <= k < |rest| ensures s[0] <= rest[k] {
        assert rest[k] in multiset(rest);
        assert rest[k] == x || rest[k] in multiset(t);
        if rest[k] != x {
          var m :| 0 <= m < |t| && t[m] == rest[k];
          assert t[m] == s[m + 1];
        }
      }
      assert Insert(x, s) == [s[0]] + rest;
    }
  }

  /** A comparison sort by numeric value: the result is ascending and a permutation of `s`. */
  function SortAscending(s: seq<int>): (r: seq<int>)
    ensures Ascending(r)
    ensures multiset(r) == multiset(s)
    ensures |r| == |s|
  {
    if s == [] then []
    else
      assert s == [s[0]] + s[1..];
      InsertAscending(s[0], SortAscending(s[1..]));
      Insert(s[0], SortAscending(s[1..]))
  }

  /** A sequence is duplicate-free exactly when no value occurs in it twice. */
  lemma {:induction false} DistinctIffSingleOccurrences(s: seq<int>)
    ensures Distinct(s) <==> forall v :: multiset(s)[v] <= 1
  {
    if s != [] {
      var t := s[1..];
      assert s == [s[0]] + t;
      DistinctIffSingleOccurrences(t);
      if Distinct(s) {
        assert Distinct(t) by {
          forall i, j | 0 <= i < j < |t| ensures t[i] != t[j] {
            assert t[i] == s[i + 1] && t[j] == s[j + 1];
          }
        }
        forall k | 0 <= k < |t| ensures t[k] != s[0] {
          assert t[k] == s[k + 1];
        }
        assert s[0] !in t;
      } else {
        var i, j :| 0 <= i < j < |s| && s[i] == s[j];
        if i == 0 {
          assert s[j] == t[j - 1];
          assert multiset(s)[s[0]] == multiset(t)[s[0]] + 1;
          assert multiset(t)[s[0]] >= 1;
        } else {
          assert t[i - 1] == t[j - 1];
          assert !Distinct(t);
          var v :| multiset(t)[v] > 1;
          assert multiset(s)[v] >= multiset(t)[v];
        }
      }
    }
  }

  /** Sorting a duplicate-free sequence gives a strictly ascending one with the same elements. */
  lemma SortKeepsDistinct(s: seq<int>)
    requires Distinct(s)
    ensures Distinct(SortAscending(s))
    ensures forall x :: x in SortAscending(s) <==> x in s
  {
    var r := SortAscending(s);
    DistinctIffSingleOccurrences(s);
    DistinctIffSingleOccurrences(r);
    forall x ensures x in r <==> x in s {
      assert x in r <==> x in multiset(r);
      assert x in s <==> x in multiset(s);
    }
  }
}
