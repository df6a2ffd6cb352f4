/** Elements picked out of a sequence, from left to right. */
module Positions {

  /** The positions lie between `from` and `to` and go up. */
  predicate Rising(at: seq<nat>, from: nat, to: nat) {
    && (forall k :: 0 <= k < |at| ==> from <= at[k] < to)
    && (forall k, l :: 0 <= k < l < |at| ==> at[k] < at[l])
  }

  /** `s` has the elements of `whole` at these positions, in order. */
  ghost predicate Picks<T>(whole: seq<T>, from: nat, s: seq<T>, at: seq<nat>) {
    && Rising(at, from, |whole|) && |s| == |at|
    && forall k :: 0 <= k < |at| ==> s[k] == whole[at[k]]
  }

  lemma {:induction false} PicksCons<T>(whole: seq<T>, i: nat, s: seq<T>, at: seq<nat>)
    requires i < |whole| && Picks(whole, i + 1, s, at)
    ensures Picks(whole, i, [whole[i]] + s, [i] + at) && Picks(whole, i, s, at)
    ensures i in [i] + at && i !in at
    ensures forall j: nat :: j > i ==> (j in [i] + at <==> j in at)
  {
    var r := [i] + at;
    forall k, l | 0 <= k < l < |r| ensures r[k] < r[l] {
      if k > 0 {
        assert at[k - 1] < at[l - 1];
      }
    }
  }

  lemma {:induction false} PicksSnoc<T>(whole: seq<T>, n: nat, s: seq<T>, at: seq<nat>)
    requires n < |whole| && Picks(whole, 0, s, at) && Rising(at, 0, n)
    ensures Picks(whole, 0, s + [whole[n]], at + [n]) && Rising(at + [n], 0, n + 1) && Rising(at, 0, n + 1)
    ensures n in at + [n] && n !in at
    ensures forall j: nat :: j < n ==> (j in at + [n] <==> j in at)
  {
  }

  /** One element more is looked at, and picked or not. */
  lemma {:induction false} PicksNext<T>(whole: seq<T>, n: nat, s: seq<T>, at: seq<nat>, picked: bool)
    returns (more: seq<nat>)
    requires n < |whole| && Picks(whole, 0, s, at) && Rising(at, 0, n)
    ensures more == if picked then at + [n] else at
    ensures Picks(whole, 0, if picked then s + [whole[n]] else s, more) && Rising(more, 0, n + 1)
    ensures forall j: nat :: j <= n ==> (j in more <==> if j == n then picked else j in at)
  {
    PicksSnoc(whole, n, s, at);
    more := if picked then at + [n] else at;
  }

  /** The last ones of them come behind all others. */
  lemma {:induction false} PicksSuffix<T>(whole: seq<T>, s: seq<T>, at: seq<nat>, k: nat)
    requires Picks(whole, 0, s, at) && k <= |at|
    ensures Picks(whole, 0, s[k..], at[k..])
    ensures forall i :: i in at[k..] ==> i in at
    ensures forall i, j :: i in at && i !in at[k..] && j in at[k..] ==> i < j
  {
    assert forall a :: k <= a < |at| ==> at[k..][a - k] == at[a];
    forall i, j | i in at && i !in at[k..] && j in at[k..] ensures i < j {
      var a :| 0 <= a < |at| && at[a] == i;
      var b :| 0 <= b < |at| - k && at[k..][b] == j;
    }
  }
}
