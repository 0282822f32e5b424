/** The three descending sorts of the optimizer (optimizer.ts:9-14, 16-21 and
    94) each reorder a list by a score with `(a, b) => b.score - a.score`. The
    array sort of JavaScript is stable, so the outcome is fixed: higher score
    first, and among equal scores the earlier position first. This module
    computes that order on positions `0 .. |scores| - 1` by insertion. */
module Ranking {

  /** Position `a` comes before position `b`: a strictly higher score, or an
      equal score and an earlier position. */
  predicate Before(scores: seq<real>, a: nat, b: nat)
    requires a < |scores| && b < |scores|
  {
    scores[a] > scores[b] || (scores[a] == scores[b] && a < b)
  }

  predicate InRange(scores: seq<real>, r: seq<nat>)
  {
    forall k :: 0 <= k < |r| ==> r[k] < |scores|
  }

  /** `r` lists positions of `scores` in strictly increasing `Before` order. */
  predicate Ranked(scores: seq<real>, r: seq<nat>)
  {
    InRange(scores, r) && forall k, l :: 0 <= k < l < |r| ==> Before(scores, r[k], r[l])
  }

  /** Puts `x` in front of the first entry it comes before. */
  function Insert(scores: seq<real>, x: nat, r: seq<nat>): (q: seq<nat>)
    requires x < |scores| && InRange(scores, r)
    ensures |q| == |r| + 1 && InRange(scores, q)
    ensures forall y :: y in q <==> y == x || y in r
    ensures Ranked(scores, r) && x !in r ==> Ranked(scores, q)
    decreases |r|
  {
    if r == [] then [x]
    else if Before(scores, x, r[0]) then [x] + r
    else
      var t := Insert(scores, x, r[1..]);
      assert forall y :: y in r[1..] ==> y in r;
      assert r == [r[0]] + r[1..];
      assert Ranked(scores, r) && x !in r ==>
        Ranked(scores, r[1..]) && forall j :: 0 <= j < |t| ==> Before(scores, r[0], t[j])
      by {
        if Ranked(scores, r) && x !in r {
          forall j | 0 <= j < |t| ensures Before(scores, r[0], t[j]) {
            assert t[j] in t;
            if t[j] != x {
              assert t[j] in r[1..];
              var i :| 0 <= i < |r[1..]| && r[1..][i] == t[j];
              assert r[i + 1] == t[j];
            }
          }
        }
      }
      [r[0]] + t
  }

  /** The ranking of the positions `0 .. m - 1`. */
  function RankPrefix(scores: seq<real>, m: nat): (r: seq<nat>)
    requires m <= |scores|
    ensures |r| == m && Ranked(scores, r)
    ensures forall i :: i in r <==> 0 <= i < m
  {
    if m == 0 then []
    else Insert(scores, m - 1, RankPrefix(scores, m - 1))
  }

  /** All positions of `scores`, highest score first, ties in position order:
      what a stable descending sort by score returns. */
  function Rank(scores: seq<real>): (r: seq<nat>)
    ensures |r| == |scores|
    ensures forall k :: 0 <= k < |r| ==> r[k] < |scores|
    ensures forall i :: 0 <= i < |scores| ==> i in r
    ensures forall k, l :: 0 <= k < l < |r| ==> scores[r[k]] >= scores[r[l]]
    ensures forall k, l :: 0 <= k < l < |r| && scores[r[k]] == scores[r[l]] ==> r[k] < r[l]
  {
    RankPrefix(scores, |scores|)
  }

  /** Each position appears exactly once in the ranking: it is a permutation. */
  lemma RankDistinct(scores: seq<real>, k: nat, l: nat)
    requires k < l < |scores|
    ensures Rank(scores)[k] != Rank(scores)[l]
  {
    var r := Rank(scores);
    assert Before(scores, r[k], r[l]);
  }
}
