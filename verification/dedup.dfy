/**
 * Order-preserving removal of duplicates from a list of strings
 * (`slice.Dedup`), used by the tag, stack-output and listener code.
 */
module Dedup {

  /** No element occurs twice. */
  predicate NoDuplicates(s: seq<string>)
  {
    forall i, j :: 0 <= i < j < |s| ==> s[i] != s[j]
  }

  /**
   * The reference definition: the distinct elements of `s`, each at the
   * place of its first occurrence. Built from the left, as the loop does.
   */
  function Distinct(s: seq<string>): seq<string>
    decreases |s|
  {
    if s == [] then []
    else
      var prefix := Distinct(s[..|s| - 1]);
      if s[|s| - 1] in prefix then prefix else prefix + [s[|s| - 1]]
  }

  /** Position of the first occurrence of `x` in `s`. */
  function FirstIndex(s: seq<string>, x: string): (k: nat)
    requires x in s
    ensures k < |s| && s[k] == x
    ensures forall i :: 0 <= i < k ==> s[i] != x
  {
    if s[0] == x then 0 else 1 + FirstIndex(s[1..], x)
  }

  /**
   * `slice.Dedup`: walks the list once, remembering the values seen so far
   * and appending each value the first time it is met.
   */
  method Dedup(list: seq<string>) returns (d: seq<string>)
    ensures d == Distinct(list)
    ensures NoDuplicates(d)
    ensures forall x :: x in d <==> x in list
    ensures |d| <= |list|
  {
    var allVals: set<string> := {};
    d := [];
    var i := 0;
    while i < |list|
      invariant 0 <= i <= |list|
      invariant d == Distinct(list[..i])
      invariant allVals == set x | x in d
    {
      assert list[..i + 1][..i] == list[..i];
      var item := list[i];
      if item !in allVals {
        allVals := allVals + {item};
        d := d + [item];
      }
      i := i + 1;
    }
    assert list[..i] == list;
    DistinctNoDuplicates(list);
    DistinctSameElements(list);
    DistinctShorter(list);
  }

  lemma {:induction false} DistinctNoDuplicates(s: seq<string>)
    ensures NoDuplicates(Distinct(s))
    decreases |s|
  {
    if s != [] {
      DistinctNoDuplicates(s[..|s| - 1]);
    }
  }

  lemma {:induction false} DistinctSameElements(s: seq<string>)
    ensures forall x :: x in Distinct(s) <==> x in s
    decreases |s|
  {
    if s != [] {
      DistinctSameElements(s[..|s| - 1]);
      assert s == s[..|s| - 1] + [s[|s| - 1]];
    }
  }

  lemma {:induction false} DistinctShorter(s: seq<string>)
    ensures |Distinct(s)| <= |s|
    decreases |s|
  {
    if s != [] {
      DistinctShorter(s[..|s| - 1]);
    }
  }

  /**
   * The elements of the result appear in the order of their first
   * occurrence in the input.
   */
  lemma {:induction false} DistinctFirstOccurrenceOrder(s: seq<string>, i: nat, j: nat)
    requires i < j < |Distinct(s)|
    ensures Distinct(s)[i] in s && Distinct(s)[j] in s
    ensures FirstIndex(s, Distinct(s)[i]) < FirstIndex(s, Distinct(s)[j])
    decreases |s|
  {
    DistinctSameElements(s);
    var p := s[..|s| - 1];
    var last := s[|s| - 1];
    DistinctSameElements(p);
    FirstIndexPrefix(s, Distinct(s)[i]);
    if j < |Distinct(p)| {
      assert Distinct(s)[i] == Distinct(p)[i] && Distinct(s)[j] == Distinct(p)[j];
      DistinctFirstOccurrenceOrder(p, i, j);
      FirstIndexPrefix(s, Distinct(s)[j]);
    } else {
      assert last !in p && Distinct(s)[j] == last;
      assert Distinct(s)[i] == Distinct(p)[i];
      FirstIndexLast(s);
    }
  }

  lemma FirstIndexPrefix(s: seq<string>, x: string)
    requires s != [] && x in s[..|s| - 1]
    ensures FirstIndex(s, x) == FirstIndex(s[..|s| - 1], x)
  {
    var k := FirstIndex(s[..|s| - 1], x);
    var m := FirstIndex(s, x);
    assert s[k] == x;
    assert m <= k;
    assert s[..|s| - 1][m] == x;
  }

  lemma FirstIndexLast(s: seq<string>)
    requires s != [] && s[|s| - 1] !in s[..|s| - 1]
    ensures FirstIndex(s, s[|s| - 1]) == |s| - 1
  {
  }

  /** A list without duplicates comes back unchanged. */
  lemma {:induction false} DistinctOfNoDuplicates(s: seq<string>)
    requires NoDuplicates(s)
    ensures Distinct(s) == s
    decreases |s|
  {
    if s != [] {
      var p := s[..|s| - 1];
      DistinctOfNoDuplicates(p);
      assert s[|s| - 1] !in p by {
        forall i | 0 <= i < |p| ensures p[i] != s[|s| - 1] {
          assert p[i] == s[i];
        }
      }
      assert s == p + [s[|s| - 1]];
    }
  }

  /** A deduplicated list has as many elements as it has distinct values. */
  lemma {:induction false} DistinctCardinality(s: seq<string>)
    ensures |set x | x in Distinct(s)| == |Distinct(s)|
  {
    DistinctNoDuplicates(s);
    NoDuplicatesCardinality(Distinct(s));
  }

  lemma {:induction false} NoDuplicatesCardinality(s: seq<string>)
    requires NoDuplicates(s)
    ensures |set x | x in s| == |s|
    decreases |s|
  {
    if s != [] {
      var p := s[..|s| - 1];
      NoDuplicatesCardinality(p);
      assert s[|s| - 1] !in p by {
        forall i | 0 <= i < |p| ensures p[i] != s[|s| - 1] {
          assert p[i] == s[i];
        }
      }
      assert s == p + [s[|s| - 1]];
      assert (set x | x in s) == (set x | x in p) + {s[|s| - 1]};
    }
  }

  /** Deduplicating twice is the same as deduplicating once. */
  lemma DistinctIdempotent(s: seq<string>)
    ensures Distinct(Distinct(s)) == Distinct(s)
  {
    DistinctNoDuplicates(s);
    DistinctOfNoDuplicates(Distinct(s));
  }

  /** A list holding `t` and nothing else deduplicates to `[t]`. */
  lemma {:induction false} DistinctOfConstant(s: seq<string>, t: string)
    requires t in s && forall x :: x in s ==> x == t
    ensures Distinct(s) == [t]
    decreases |s|
  {
    var p := s[..|s| - 1];
    assert s[|s| - 1] in s;
    if p != [] {
      assert p[0] == s[0] && s[0] in s;
      assert forall x :: x in p ==> x in s;
      DistinctOfConstant(p, t);
    }
  }
}
