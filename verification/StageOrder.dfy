/** When the inferred stages follow the lifecycle order: an exact condition on the steps. */
module StageOrder {
  import opened Options
  import opened Stages

  /** No step has a saved stage that its type allows. */
  predicate NoneKept(steps: seq<Step>) {
    forall i :: 0 <= i < |steps| ==> !Keeps(steps[i])
  }

  predicate Monotone(labels: seq<Stage>) {
    forall i :: 0 < i < |labels| ==> Rank(labels[i - 1]) <= Rank(labels[i])
  }

  // ---- the condition, clause by clause ----

  /** Drafts come before approvals, approvals before signatures. */
  ghost predicate FixedInOrder(steps: seq<Step>) {
    forall i, j :: 0 <= i < j < |steps| && IsFixed(steps[i].kind) && IsFixed(steps[j].kind)
      ==> Rank(FixedStage(steps[i].kind)) <= Rank(FixedStage(steps[j].kind))
  }

  ghost predicate DraftBefore(steps: seq<Step>, i: nat) {
    exists k :: 0 <= k < i && k < |steps| && steps[k].kind.Draft?
  }

  /** A counterparty step before the first draft must take its stage from its built-in name or
      from the step before it. */
  ghost predicate NoEarlyCounterparty(steps: seq<Step>, builtin: bool) {
    forall i, j :: 0 <= i < j < |steps| && steps[i].kind.Counterparty? && steps[j].kind.Draft?
                   && !DraftBefore(steps, i)
      ==> (builtin && steps[i].intakeName) || (Parallel(steps[i]) && i > 0)
  }

  predicate ApprovalOrLater(k: Kind) {
    k.Approval? || k.Signature?
  }

  /** A counterparty step behind an approval or a signature must run in parallel. */
  ghost predicate NoLateCounterparty(steps: seq<Step>) {
    forall i, j :: 0 <= i < j < |steps| && ApprovalOrLater(steps[i].kind) && steps[j].kind.Counterparty?
      ==> Parallel(steps[j])
  }

  /** Between two signatures, every step that is not a fixed one must run in parallel. */
  ghost predicate SignaturesTogether(steps: seq<Step>) {
    forall i, k, j :: 0 <= i < k < j < |steps| && steps[i].kind.Signature? && steps[j].kind.Signature?
      ==> IsFixed(steps[k].kind) || Parallel(steps[k])
  }

  ghost predicate LifecycleShaped(steps: seq<Step>, builtin: bool) {
    && FixedInOrder(steps) && NoEarlyCounterparty(steps, builtin)
    && NoLateCounterparty(steps) && SignaturesTogether(steps)
  }

  // ---- the floor, step by step ----

  ghost predicate LateBefore(steps: seq<Step>, i: nat) {
    exists k :: 0 <= k < i && k < |steps| && ApprovalOrLater(steps[k].kind)
  }

  ghost predicate SignatureBefore(steps: seq<Step>, i: nat) {
    exists k :: 0 <= k < i && k < |steps| && steps[k].kind.Signature?
  }

  ghost predicate DraftFrom(steps: seq<Step>, i: nat) {
    exists k :: i <= k < |steps| && steps[k].kind.Draft?
  }

  ghost predicate SignatureFrom(steps: seq<Step>, i: nat) {
    exists k :: i <= k < |steps| && steps[k].kind.Signature?
  }

  /** While a draft is still to come, the next fixed step is a draft. */
  lemma {:induction false} NextFixedIsDraft(steps: seq<Step>, i: nat)
    requires i < |steps| && FixedInOrder(steps) && DraftFrom(steps, i + 1)
    ensures FixedAfter(steps, i) == Some(Rank(Drafting))
    decreases |steps| - i
  {
    var j :| i + 1 <= j < |steps| && steps[j].kind.Draft?;
    if !IsFixed(steps[i + 1].kind) {
      assert j > i + 1;
      NextFixedIsDraft(steps, i + 1);
    }
  }

  /** What the floor is behind the first `i` steps of a lifecycle-shaped list. */
  ghost predicate FloorIs(steps: seq<Step>, labels: seq<Stage>, i: nat)
    requires i <= |steps| == |labels|
  {
    var floor := Floor(steps, labels[..i]);
    && (i > 0 ==> Rank(labels[i - 1]) <= floor)
    && (i > 0 && !SignatureBefore(steps, i) ==> Rank(labels[i - 1]) == floor)
    && (!LateBefore(steps, i) ==> floor <= 2)
    && (!LateBefore(steps, i) && DraftFrom(steps, i) ==> floor == if DraftBefore(steps, i) then 1 else 0)
    && (LateBefore(steps, i) && !SignatureBefore(steps, i) ==> floor == 3)
    && (SignatureBefore(steps, i) ==> floor == 5)
    && (SignatureBefore(steps, i) ==> 4 <= Rank(labels[i - 1]))
    && (SignatureBefore(steps, i) && SignatureFrom(steps, i) ==> Rank(labels[i - 1]) == 4)
  }

  /** Facts about the step `i` of a lifecycle-shaped list, in terms of what lies on its two sides. */
  lemma {:induction false} StepFacts(steps: seq<Step>, builtin: bool, i: nat)
    requires i < |steps| && LifecycleShaped(steps, builtin)
    ensures var st := steps[i];
            && (st.kind.Draft? ==> !LateBefore(steps, i))
            && (st.kind.Approval? ==> !SignatureBefore(steps, i))
            && (st.kind.Counterparty? && LateBefore(steps, i) ==> Parallel(st))
            && (LateBefore(steps, i) ==> !DraftFrom(steps, i))
            && (SignatureBefore(steps, i) ==> LateBefore(steps, i) && i > 0)
            && (st.kind.Counterparty? && !DraftBefore(steps, i) && DraftFrom(steps, i + 1)
                ==> (builtin && st.intakeName) || (Parallel(st) && i > 0))
            && (SignatureBefore(steps, i) && SignatureFrom(steps, i + 1) ==> IsFixed(st.kind) || Parallel(st))
            && (ApprovalOrLater(st.kind) ==> !DraftFrom(steps, i + 1))
            && (DraftFrom(steps, i) <==> st.kind.Draft? || DraftFrom(steps, i + 1))
            && (DraftBefore(steps, i + 1) <==> st.kind.Draft? || DraftBefore(steps, i))
            && (LateBefore(steps, i + 1) <==> ApprovalOrLater(st.kind) || LateBefore(steps, i))
            && (SignatureBefore(steps, i + 1) <==> st.kind.Signature? || SignatureBefore(steps, i))
            && (SignatureFrom(steps, i) <==> st.kind.Signature? || SignatureFrom(steps, i + 1))
  {
  }

  lemma {:induction false} FloorStepFixed(steps: seq<Step>, builtin: bool, labels: seq<Stage>, i: nat)
    requires i < |steps| && NoneKept(steps) && Infers(steps, builtin, labels) && LifecycleShaped(steps, builtin)
    requires FloorIs(steps, labels, i) && IsFixed(steps[i].kind)
    ensures FloorIs(steps, labels, i + 1)
    ensures i > 0 ==> Rank(labels[i - 1]) <= Rank(labels[i])
  {
    FixedRank(steps, builtin, labels, i);
    StepFacts(steps, builtin, i);
    FloorNext(steps, labels, i);
  }

  lemma {:induction false} FloorStepCounterparty(steps: seq<Step>, builtin: bool, labels: seq<Stage>, i: nat)
    requires i < |steps| && NoneKept(steps) && Infers(steps, builtin, labels) && LifecycleShaped(steps, builtin)
    requires FloorIs(steps, labels, i) && steps[i].kind.Counterparty?
    ensures FloorIs(steps, labels, i + 1)
    ensures i > 0 ==> Rank(labels[i - 1]) <= Rank(labels[i])
  {
    assert Rule(steps, builtin, labels, i);
    StepFacts(steps, builtin, i);
    FloorNext(steps, labels, i);
    if DraftFrom(steps, i + 1) {
      NextFixedIsDraft(steps, i);
    }
  }

  lemma {:induction false} FloorStepOther(steps: seq<Step>, builtin: bool, labels: seq<Stage>, i: nat)
    requires i < |steps| && NoneKept(steps) && Infers(steps, builtin, labels) && LifecycleShaped(steps, builtin)
    requires FloorIs(steps, labels, i) && steps[i].kind.Other?
    ensures FloorIs(steps, labels, i + 1)
    ensures i > 0 ==> Rank(labels[i - 1]) <= Rank(labels[i])
  {
    assert Rule(steps, builtin, labels, i);
    StepFacts(steps, builtin, i);
    FloorNext(steps, labels, i);
    if DraftFrom(steps, i + 1) {
      NextFixedIsDraft(steps, i);
    }
  }

  lemma {:induction false} FloorStep(steps: seq<Step>, builtin: bool, labels: seq<Stage>, i: nat)
    requires i < |steps| && NoneKept(steps) && Infers(steps, builtin, labels) && LifecycleShaped(steps, builtin)
    requires FloorIs(steps, labels, i)
    ensures FloorIs(steps, labels, i + 1)
    ensures i > 0 ==> Rank(labels[i - 1]) <= Rank(labels[i])
  {
    match steps[i].kind
    case Counterparty => FloorStepCounterparty(steps, builtin, labels, i);
    case Other(_) => FloorStepOther(steps, builtin, labels, i);
    case _ => FloorStepFixed(steps, builtin, labels, i);
  }

  lemma {:induction false} FloorReached(steps: seq<Step>, builtin: bool, labels: seq<Stage>, i: nat)
    requires i <= |steps| && NoneKept(steps) && Infers(steps, builtin, labels) && LifecycleShaped(steps, builtin)
    ensures FloorIs(steps, labels, i)
    ensures forall k :: 0 < k < i ==> Rank(labels[k - 1]) <= Rank(labels[k])
  {
    if i == 0 {
      assert labels[..0] == [];
    } else {
      FloorReached(steps, builtin, labels, i - 1);
      FloorStep(steps, builtin, labels, i - 1);
    }
  }

  // ---- the condition is necessary ----

  lemma {:induction false} RanksGrow(labels: seq<Stage>, i: nat, j: nat)
    requires Monotone(labels) && i <= j < |labels|
    ensures Rank(labels[i]) <= Rank(labels[j])
  {
    if i < j {
      RanksGrow(labels, i, j - 1);
    }
  }

  lemma {:induction false} FixedRank(steps: seq<Step>, builtin: bool, labels: seq<Stage>, i: nat)
    requires i < |steps| && NoneKept(steps) && Infers(steps, builtin, labels) && IsFixed(steps[i].kind)
    ensures labels[i] == FixedStage(steps[i].kind)
  {
    assert Rule(steps, builtin, labels, i);
  }

  /** The floor is at least the rank of every step behind it, and Active behind a signature. */
  lemma {:induction false} FloorAtLeast(steps: seq<Step>, labels: seq<Stage>, k: nat, i: nat)
    requires k < i <= |labels| <= |steps|
    ensures Rank(labels[k]) <= Floor(steps, labels[..i])
    ensures steps[k].kind.Signature? ==> 5 <= Floor(steps, labels[..i])
  {
    FloorNext(steps, labels, i - 1);
    if k < i - 1 {
      FloorAtLeast(steps, labels, k, i - 1);
    }
  }

  lemma {:induction false} MonotoneFixed(steps: seq<Step>, builtin: bool, labels: seq<Stage>)
    requires NoneKept(steps) && Infers(steps, builtin, labels) && Monotone(labels)
    ensures FixedInOrder(steps)
  {
    forall i, j | 0 <= i < j < |steps| && IsFixed(steps[i].kind) && IsFixed(steps[j].kind)
      ensures Rank(FixedStage(steps[i].kind)) <= Rank(FixedStage(steps[j].kind))
    {
      FixedRank(steps, builtin, labels, i);
      FixedRank(steps, builtin, labels, j);
      RanksGrow(labels, i, j);
    }
  }

  /** Ahead of the first draft nothing has raised the floor. */
  lemma {:induction false} FloorZeroBeforeDraft(steps: seq<Step>, builtin: bool, labels: seq<Stage>, i: nat, j: nat)
    requires i < j < |steps| && NoneKept(steps) && Infers(steps, builtin, labels) && Monotone(labels)
    requires steps[j].kind.Draft? && !DraftBefore(steps, i)
    ensures Floor(steps, labels[..i]) == 0
  {
    if i == 0 {
      assert labels[..0] == [];
    } else {
      FloorZeroBeforeDraft(steps, builtin, labels, i - 1, j);
      FloorNext(steps, labels, i - 1);
      MonotoneFixed(steps, builtin, labels);
      NextFixedIsDraft(steps, i - 1);
      FixedRank(steps, builtin, labels, j);
      RanksGrow(labels, i - 1, j);
      assert Rule(steps, builtin, labels, i - 1);
      if i > 1 {
        FloorAtLeast(steps, labels, i - 2, i - 1);
      }
    }
  }

  lemma {:induction false} MonotoneEarly(steps: seq<Step>, builtin: bool, labels: seq<Stage>)
    requires NoneKept(steps) && Infers(steps, builtin, labels) && Monotone(labels)
    ensures NoEarlyCounterparty(steps, builtin)
  {
    forall i, j | 0 <= i < j < |steps| && steps[i].kind.Counterparty? && steps[j].kind.Draft?
                  && !DraftBefore(steps, i)
      ensures (builtin && steps[i].intakeName) || (Parallel(steps[i]) && i > 0)
    {
      FloorZeroBeforeDraft(steps, builtin, labels, i, j);
      FixedRank(steps, builtin, labels, j);
      RanksGrow(labels, i, j);
      MonotoneFixed(steps, builtin, labels);
      NextFixedIsDraft(steps, i);
      assert Rule(steps, builtin, labels, i);
    }
  }

  lemma {:induction false} MonotoneLate(steps: seq<Step>, builtin: bool, labels: seq<Stage>)
    requires NoneKept(steps) && Infers(steps, builtin, labels) && Monotone(labels)
    ensures NoLateCounterparty(steps)
  {
    forall i, j | 0 <= i < j < |steps| && ApprovalOrLater(steps[i].kind) && steps[j].kind.Counterparty?
      ensures Parallel(steps[j])
    {
      FixedRank(steps, builtin, labels, i);
      RanksGrow(labels, i, j);
      FloorAtLeast(steps, labels, i, j);
      assert Rule(steps, builtin, labels, j);
    }
  }

  lemma {:induction false} MonotoneSignatures(steps: seq<Step>, builtin: bool, labels: seq<Stage>)
    requires NoneKept(steps) && Infers(steps, builtin, labels) && Monotone(labels)
    ensures SignaturesTogether(steps)
  {
    MonotoneLate(steps, builtin, labels);
    forall i, k, j | 0 <= i < k < j < |steps| && steps[i].kind.Signature? && steps[j].kind.Signature?
      ensures IsFixed(steps[k].kind) || Parallel(steps[k])
    {
      FixedRank(steps, builtin, labels, j);
      RanksGrow(labels, k, j);
      FloorAtLeast(steps, labels, i, k);
      assert Rule(steps, builtin, labels, k);
    }
  }

  /** When no step keeps a saved stage, the inferred stages follow the lifecycle order exactly when the steps
      are lifecycle-shaped, whatever the parallel flags and built-in names. */
  lemma {:induction false} MonotoneIffShaped(steps: seq<Step>, builtin: bool)
    requires NoneKept(steps)
    ensures Monotone(Inferred(steps, builtin)) <==> LifecycleShaped(steps, builtin)
  {
    var labels := Inferred(steps, builtin);
    InfersIffInferred(steps, builtin, labels);
    if LifecycleShaped(steps, builtin) {
      FloorReached(steps, builtin, labels, |steps|);
    }
    if Monotone(labels) {
      MonotoneFixed(steps, builtin, labels);
      MonotoneEarly(steps, builtin, labels);
      MonotoneLate(steps, builtin, labels);
      MonotoneSignatures(steps, builtin, labels);
    }
  }

  /** Ranks do fall: a step that is not parallel between two signatures is Active, the second signature is
      not. */
  lemma {:induction false} TwoSignaturesFall(name: string, details: string)
    ensures var signature, other := Step(Signature, Absent, false, None, details),
                                    Step(Other(name), Absent, false, None, details);
            var steps := [signature, other, signature];
            NoneKept(steps) && Inferred(steps, false) == [InSignature, Active, InSignature]
            && !Monotone(Inferred(steps, false))
  {
    var signature := Step(Signature, Absent, false, None, details);
    var other := Step(Other(name), Absent, false, None, details);
    var steps, labels := [signature, other, signature], [InSignature, Active, InSignature];
    assert Infers(steps, false, labels) by {
      assert labels[..0] == [] && labels[..1] == [InSignature] && labels[..2] == [InSignature, Active];
      FloorNext(steps, labels, 0);
      FloorNext(steps, labels, 1);
      assert Rule(steps, false, labels, 0) && Rule(steps, false, labels, 1) && Rule(steps, false, labels, 2);
    }
    assert Rank(labels[1]) > Rank(labels[2]);
    InfersIffInferred(steps, false, labels);
  }
}
