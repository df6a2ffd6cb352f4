/** When the inferred stages follow the lifecycle order, whatever stages are saved. */
module StageLimits {
  import opened Options
  import opened Stages
  import opened StageOrder

  /** A step that takes its stage neither from its label or type nor from its name or the step before it. */
  predicate IsPlain(steps: seq<Step>, builtin: bool, i: nat)
    requires i < |steps|
  {
    !Keeps(steps[i]) && !IsFixed(steps[i].kind) && !IsNamed(steps, builtin, i) && !(Parallel(steps[i]) && i > 0)
  }

  /** The stage a step brings with it: the saved one that its type allows, or its type's only one. */
  function OwnRank(st: Step): Option<nat> {
    if Keeps(st) then Some(Rank(st.stage.value))
    else if IsFixed(st.kind) then Some(Rank(FixedStage(st.kind)))
    else None
  }

  /** The stage a plain step is meant to have. */
  function Wanted(steps: seq<Step>, i: nat): nat
    requires i < |steps|
  {
    if FixedAfter(steps, i) == Some(Rank(Drafting)) then Rank(Intake) else Rank(Review)
  }

  /** How far step `i` alone takes the workflow. */
  ghost function Push(steps: seq<Step>, builtin: bool, i: nat): nat
    requires i < |steps|
  {
    var st := steps[i];
    if OwnRank(st).Some? then OwnRank(st).value
    else if !IsPlain(steps, builtin, i) then 0
    else if st.kind.Counterparty? then
      if Wanted(steps, i) == Rank(Review) || OnlyIntakeBefore(steps, builtin, i) then Rank(Review) else 0
    else if SignatureBefore(steps, i) then Rank(Active)
    else Wanted(steps, i)
  }

  /** How far the workflow may be when it comes to step `i`. */
  function Limit(steps: seq<Step>, builtin: bool, i: nat): Option<nat>
    requires i < |steps|
  {
    if OwnRank(steps[i]).Some? then OwnRank(steps[i])
    else if IsPlain(steps, builtin, i) && steps[i].kind.Counterparty? then Some(Rank(Review))
    else None
  }

  /** No step takes the workflow further than a later one allows. */
  ghost predicate WithinLimits(steps: seq<Step>, builtin: bool) {
    forall i, j :: 0 <= i < j < |steps| && Limit(steps, builtin, j).Some?
      ==> Push(steps, builtin, i) <= Limit(steps, builtin, j).value
  }

  /** The furthest push of the first `n` steps. */
  ghost function Furthest(steps: seq<Step>, builtin: bool, n: nat): nat
    requires n <= |steps|
  {
    if n == 0 then 0 else Max(Furthest(steps, builtin, n - 1), Push(steps, builtin, n - 1))
  }

  lemma {:induction false} FurthestWithin(steps: seq<Step>, builtin: bool, n: nat, j: nat)
    requires n <= j < |steps| && WithinLimits(steps, builtin) && Limit(steps, builtin, j).Some?
    ensures Furthest(steps, builtin, n) <= Limit(steps, builtin, j).value
  {
    if n > 0 {
      FurthestWithin(steps, builtin, n - 1, j);
    }
  }

  /** Behind the first `n` steps of a list within its limits, the last stage is the furthest push, and the floor
      differs from it only behind a signature. */
  ghost predicate Reached(steps: seq<Step>, builtin: bool, labels: seq<Stage>, n: nat)
    requires n <= |steps| == |labels|
  {
    var furthest := Furthest(steps, builtin, n);
    && (n > 0 ==> Rank(labels[n - 1]) == furthest)
    && Floor(steps, labels[..n]) == (if SignatureBefore(steps, n) then Max(furthest, Rank(Active)) else furthest)
    && (SignatureBefore(steps, n) ==> furthest >= Rank(InSignature))
  }

  lemma {:induction false} SignatureNext(steps: seq<Step>, n: nat)
    requires n < |steps|
    ensures SignatureBefore(steps, n + 1) <==> SignatureBefore(steps, n) || steps[n].kind.Signature?
  {
  }

  lemma {:induction false} LabelRank(steps: seq<Step>, builtin: bool, labels: seq<Stage>, n: nat)
    requires n < |steps| && Infers(steps, builtin, labels)
    ensures var st, floor, rank := steps[n], Floor(steps, labels[..n]), Rank(labels[n]);
            && (OwnRank(st).Some? ==> rank == OwnRank(st).value)
            && (OwnRank(st) == None && !IsPlain(steps, builtin, n) ==>
                  if IsNamed(steps, builtin, n) then rank == 0 else n > 0 && labels[n] == labels[n - 1])
            && (IsPlain(steps, builtin, n) && st.kind.Other? ==> rank == Max(floor, Wanted(steps, n)))
            && (IsPlain(steps, builtin, n) && st.kind.Counterparty? ==>
                  rank == if 1 <= Max(floor, Wanted(steps, n)) <= 2 then Max(floor, Wanted(steps, n)) else Rank(Review))
  {
    assert Rule(steps, builtin, labels, n);
    FloorIsZeroIff(steps, builtin, labels, n);
    FixedAfterRanks(steps, n);
    AllStages(labels[n]);
  }

  lemma {:induction false} ReachedNext(steps: seq<Step>, builtin: bool, labels: seq<Stage>, n: nat)
    requires n < |steps| && Infers(steps, builtin, labels) && WithinLimits(steps, builtin)
    requires Reached(steps, builtin, labels, n)
    ensures Reached(steps, builtin, labels, n + 1)
    ensures n > 0 ==> Rank(labels[n - 1]) <= Rank(labels[n])
  {
    LabelRank(steps, builtin, labels, n);
    FloorNext(steps, labels, n);
    FloorIsZeroIff(steps, builtin, labels, n);
    SignatureNext(steps, n);
    if Limit(steps, builtin, n).Some? {
      FurthestWithin(steps, builtin, n, n);
    }
  }

  lemma {:induction false} AllReached(steps: seq<Step>, builtin: bool, labels: seq<Stage>, n: nat)
    requires n <= |steps| && Infers(steps, builtin, labels) && WithinLimits(steps, builtin)
    ensures Reached(steps, builtin, labels, n)
    ensures forall k :: 0 < k < n ==> Rank(labels[k - 1]) <= Rank(labels[k])
  {
    if n == 0 {
      assert labels[..0] == [];
    } else {
      AllReached(steps, builtin, labels, n - 1);
      ReachedNext(steps, builtin, labels, n - 1);
    }
  }

  /** Every stage is at least its step's push, and at most its limit. */
  lemma {:induction false} LabelBetween(steps: seq<Step>, builtin: bool, labels: seq<Stage>, n: nat)
    requires n < |steps| && Infers(steps, builtin, labels)
    ensures Push(steps, builtin, n) <= Rank(labels[n])
    ensures Limit(steps, builtin, n).Some? ==> Rank(labels[n]) <= Limit(steps, builtin, n).value
  {
    LabelRank(steps, builtin, labels, n);
    FloorIsZeroIff(steps, builtin, labels, n);
    if SignatureBefore(steps, n) {
      var k :| 0 <= k < n && steps[k].kind.Signature?;
      FloorAtLeast(steps, labels, k, n);
    }
  }

  /** For every list of steps, whatever is saved: the inferred stages follow the lifecycle order exactly when no
      step takes the workflow further than a later one allows. */
  lemma {:induction false} MonotoneIffWithinLimits(steps: seq<Step>, builtin: bool)
    ensures Monotone(Inferred(steps, builtin)) <==> WithinLimits(steps, builtin)
  {
    var labels := Inferred(steps, builtin);
    InfersIffInferred(steps, builtin, labels);
    if WithinLimits(steps, builtin) {
      AllReached(steps, builtin, labels, |steps|);
    }
    if Monotone(labels) {
      forall i, j | 0 <= i < j < |steps| && Limit(steps, builtin, j).Some?
        ensures Push(steps, builtin, i) <= Limit(steps, builtin, j).value
      {
        LabelBetween(steps, builtin, labels, i);
        LabelBetween(steps, builtin, labels, j);
        RanksGrow(labels, i, j);
      }
    }
  }

  /** So the four clauses are what the limits come to when no step keeps a saved stage. */
  lemma {:induction false} ShapedIffWithinLimits(steps: seq<Step>, builtin: bool)
    requires NoneKept(steps)
    ensures LifecycleShaped(steps, builtin) <==> WithinLimits(steps, builtin)
  {
    MonotoneIffShaped(steps, builtin);
    MonotoneIffWithinLimits(steps, builtin);
  }

  /** A saved stage that is kept can be behind the steps before it: the list of two steps where it is. */
  lemma {:induction false} KeptStageFalls(name: string, details: string)
    ensures var steps := [Step(Other(name), Absent, false, None, details),
                          Step(Other(name), Known(Intake), false, None, details)];
            Inferred(steps, false) == [Review, Intake] && !WithinLimits(steps, false)
  {
    var steps := [Step(Other(name), Absent, false, None, details),
                  Step(Other(name), Known(Intake), false, None, details)];
    var labels := [Review, Intake];
    assert Infers(steps, false, labels) by {
      assert labels[..0] == [] && labels[..1] == [Review];
      assert Rule(steps, false, labels, 0) && Rule(steps, false, labels, 1);
    }
    InfersIffInferred(steps, false, labels);
    MonotoneIffWithinLimits(steps, false);
    assert Rank(labels[0]) > Rank(labels[1]);
  }
}
