/**
 * Reports that list the indices of a table whose entry is selected, in
 * table order: the shape of every decoder loop in the diagnostic programs.
 */
module Indices {

  /** Strictly increasing: each index is reported at most once, in ascending order. */
  ghost predicate Ascending(r: seq<nat>)
  {
    forall a, b :: 0 <= a < b < |r| ==> r[a] < r[b]
  }

  /**
   * `r` reports exactly the indices below `n` that satisfy `p`, each once
   * and in ascending order.
   */
  ghost predicate Enumerates(r: seq<nat>, n: nat, p: nat -> bool)
  {
    Ascending(r) &&
    (forall k :: 0 <= k < |r| ==> r[k] < n && p(r[k])) &&
    (forall x: nat :: x < n && p(x) ==> x in r)
  }

  /** Two reports with the same members are empty together. */
  lemma SameMembersEmpty(r1: seq<nat>, r2: seq<nat>)
    requires forall x :: x in r1 <==> x in r2
    ensures r1 == [] <==> r2 == []
  {
    if r1 != [] {
      assert r1[0] in r1;
    }
    if r2 != [] {
      assert r2[0] in r2;
    }
  }

  /** Two ascending reports with the same members are the same report. */
  lemma {:induction false} AscendingDetermined(r1: seq<nat>, r2: seq<nat>)
    requires Ascending(r1) && Ascending(r2)
    requires forall x :: x in r1 <==> x in r2
    ensures r1 == r2
    decreases |r1|
  {
    SameMembersEmpty(r1, r2);
    if r1 != [] {
      assert r1[0] in r1;
      assert r2[0] in r2;
      var i :| 0 <= i < |r2| && r2[i] == r1[0];
      var j :| 0 <= j < |r1| && r1[j] == r2[0];
      assert r1[0] == r2[0] by {
        assert r2[0] <= r2[i];
        assert r1[0] <= r1[j];
      }
      var t1, t2 := r1[1..], r2[1..];
      forall x | x in t1 ensures x in t2 {
        var k :| 0 <= k < |t1| && t1[k] == x;
        assert x == r1[k + 1] && x > r1[0];
        assert x in r1;
        var m :| 0 <= m < |r2| && r2[m] == x;
        assert m != 0;
        assert x == t2[m - 1];
      }
      forall x | x in t2 ensures x in t1 {
        var k :| 0 <= k < |t2| && t2[k] == x;
        assert x == r2[k + 1] && x > r2[0];
        assert x in r2;
        var m :| 0 <= m < |r1| && r1[m] == x;
        assert m != 0;
        assert x == t1[m - 1];
      }
      AscendingDetermined(t1, t2);
      assert r1 == [r1[0]] + t1 && r2 == [r2[0]] + t2;
    }
  }

  /** A report that enumerates a table selection is unique: the decoder's output is determined. */
  lemma EnumeratesUnique(r1: seq<nat>, r2: seq<nat>, n: nat, p: nat -> bool)
    requires Enumerates(r1, n, p) && Enumerates(r2, n, p)
    ensures r1 == r2
  {
    forall x | x in r1 ensures x in r2 {
      var k :| 0 <= k < |r1| && r1[k] == x;
    }
    forall x | x in r2 ensures x in r1 {
      var k :| 0 <= k < |r2| && r2[k] == x;
    }
    AscendingDetermined(r1, r2);
  }
}
