/** Lifecycle stages for workflow steps: filling in a stage on every step, in place. */
module Stages {
  import opened Options

  datatype Kind = Draft | Approval | Signature | Counterparty | Other(name: string)

  datatype Stage = Intake | Drafting | Review | InApproval | InSignature | Active | Closed

  /** A step's saved label: none, one of the seven, or anything else. */
  datatype Saved = Absent | Known(value: Stage) | Unusable(text: string)

  /** A step of a saved workflow. An absent `parallel` flag is not the same as a false one when steps
      are compared. `intakeName` says that the trimmed, lower-cased name is one of the built-in
      library's logging steps. `details` stands for the step's other entries. */
  datatype Step = Step(kind: Kind, stage: Saved, intakeName: bool, parallel: Option<bool>, details: string)

  predicate Parallel(st: Step) {
    st.parallel == Some(true)
  }

  function Rank(s: Stage): nat {
    match s
    case Intake => 0
    case Drafting => 1
    case Review => 2
    case InApproval => 3
    case InSignature => 4
    case Active => 5
    case Closed => 6
  }

  const STAGES: seq<Stage> := [Intake, Drafting, Review, InApproval, InSignature, Active, Closed]

  predicate IsFixed(k: Kind) {
    k.Draft? || k.Approval? || k.Signature?
  }

  function FixedStage(k: Kind): Stage
    requires IsFixed(k)
  {
    if k.Draft? then Drafting else if k.Approval? then InApproval else InSignature
  }

  function Allowed(k: Kind): seq<Stage> {
    if IsFixed(k) then [FixedStage(k)]
    else if k.Counterparty? then [Drafting, Review]
    else STAGES
  }

  predicate Keeps(st: Step) {
    st.stage.Known? && st.stage.value in Allowed(st.kind)
  }

  function Max(a: nat, b: nat): nat {
    if a < b then b else a
  }

  /** Rank of the fixed stage of the first draft, approval or signature step after index `i`. */
  function FixedAfter(steps: seq<Step>, i: nat): Option<nat>
    requires i < |steps|
    decreases |steps| - i
  {
    if i + 1 == |steps| then None
    else if IsFixed(steps[i + 1].kind) then Some(Rank(FixedStage(steps[i + 1].kind)))
    else FixedAfter(steps, i + 1)
  }

  /** The stage of step `i`, given the floor reached and the stage of the step before. */
  function Label(st: Step, builtin: bool, first: bool, floor: nat, before: Stage, cap: Option<nat>): Stage
    requires floor <= 6
  {
    if Keeps(st) then st.stage.value
    else if IsFixed(st.kind) then FixedStage(st.kind)
    else if builtin && st.intakeName && floor == 0 then Intake
    else if Parallel(st) && !first then before
    else
      var want := if cap.Some? && cap.value < Rank(Review) then Rank(Intake) else Rank(Review);
      var stage := STAGES[Max(floor, want)];
      if stage in Allowed(st.kind) then stage else Allowed(st.kind)[|Allowed(st.kind)| - 1]
  }

  /** The floor behind a step: at least its stage, and at least Active behind a signature. */
  function Raised(floor: nat, kind: Kind, stage: Stage): (r: nat)
    requires floor <= 6
    ensures floor <= r <= 6
  {
    var reached := Max(floor, Rank(stage));
    if kind.Signature? then Max(reached, Rank(Active)) else reached
  }

  /** The floor behind the first `|labels|` steps, which were given these stages. */
  function Floor(steps: seq<Step>, labels: seq<Stage>): (floor: nat)
    requires |labels| <= |steps|
    ensures floor <= 6
  {
    if labels == [] then 0
    else
      var n := |labels| - 1;
      Raised(Floor(steps, labels[..n]), steps[n].kind, labels[n])
  }

  /** Step `i` has the stage the forward pass gives it. */
  ghost predicate Rule(steps: seq<Step>, builtin: bool, labels: seq<Stage>, i: nat)
    requires i < |labels| <= |steps|
  {
    labels[i] == Label(steps[i], builtin, i == 0, Floor(steps, labels[..i]),
                       if i == 0 then Intake else labels[i - 1], FixedAfter(steps, i))
  }

  /** `labels` are the stages inferred for `steps`. */
  ghost predicate Infers(steps: seq<Step>, builtin: bool, labels: seq<Stage>) {
    |labels| == |steps| && forall i :: 0 <= i < |steps| ==> Rule(steps, builtin, labels, i)
  }

  /** The stages of the first `n` steps, computed from left to right. */
  function InferredUpTo(steps: seq<Step>, builtin: bool, n: nat): (labels: seq<Stage>)
    requires n <= |steps|
    ensures |labels| == n
  {
    if n == 0 then []
    else
      var i, before := n - 1, InferredUpTo(steps, builtin, n - 1);
      before + [Label(steps[i], builtin, i == 0, Floor(steps, before), if i == 0 then Intake else before[i - 1],
                      FixedAfter(steps, i))]
  }

  function Inferred(steps: seq<Step>, builtin: bool): (labels: seq<Stage>)
    ensures |labels| == |steps|
  {
    InferredUpTo(steps, builtin, |steps|)
  }

  lemma {:induction false} InferredInfers(steps: seq<Step>, builtin: bool, n: nat)
    requires n <= |steps|
    ensures forall i :: 0 <= i < n ==> Rule(steps, builtin, InferredUpTo(steps, builtin, n), i)
  {
    if n > 0 {
      var before, labels := InferredUpTo(steps, builtin, n - 1), InferredUpTo(steps, builtin, n);
      InferredInfers(steps, builtin, n - 1);
      RulesExtend(steps, builtin, before, labels[n - 1]);
    }
  }

  /** The rules have one solution. */
  lemma {:induction false} RulesHaveOneSolution(steps: seq<Step>, builtin: bool, labels: seq<Stage>, n: nat)
    requires Infers(steps, builtin, labels) && n <= |steps|
    ensures labels[..n] == InferredUpTo(steps, builtin, n)
  {
    if n > 0 {
      RulesHaveOneSolution(steps, builtin, labels, n - 1);
      assert Rule(steps, builtin, labels, n - 1);
      assert n > 1 ==> labels[..n - 1][n - 2] == labels[n - 2];
      assert labels[..n] == labels[..n - 1] + [labels[n - 1]];
    }
  }

  /** So the inferred stages are those, and only those, that satisfy the rules. */
  lemma {:induction false} InfersIffInferred(steps: seq<Step>, builtin: bool, labels: seq<Stage>)
    ensures Infers(steps, builtin, labels) <==> labels == Inferred(steps, builtin)
  {
    InferredInfers(steps, builtin, |steps|);
    if Infers(steps, builtin, labels) {
      RulesHaveOneSolution(steps, builtin, labels, |steps|);
      assert labels[..|steps|] == labels;
    }
  }

  function Labelled(steps: seq<Step>, labels: seq<Stage>): (r: seq<Step>)
    requires |labels| == |steps|
    ensures |r| == |steps|
  {
    seq(|steps|, i requires 0 <= i < |steps| => steps[i].(stage := Known(labels[i])))
  }

  method Infer(steps: array<Step>, builtin: bool)
    modifies steps
    ensures steps[..] == Labelled(old(steps[..]), Inferred(old(steps[..]), builtin))
  {
    ghost var given := steps[..];
    var n := steps.Length;
    var fixedAfter := FindFixedAfter(steps);
    var floor: nat := 0;
    ghost var labels: seq<Stage> := [];
    for i := 0 to n
      invariant |labels| == i && floor <= 6 && floor == Floor(given, labels)
      invariant forall k :: 0 <= k < n ==> fixedAfter[k] == FixedAfter(given, k)
      invariant forall k :: 0 <= k < i ==> Rule(given, builtin, labels, k)
      invariant forall k :: i <= k < n ==> steps[k] == given[k]
      invariant forall k :: 0 <= k < i ==> steps[k] == given[k].(stage := Known(labels[k]))
    {
      var st := steps[i];
      var before := if i > 0 then steps[i - 1].stage.value else Intake;
      var stage := Choose(st, builtin, i == 0, floor, before, fixedAfter[i]);
      steps[i] := st.(stage := Known(stage));
      floor := Max(floor, Rank(stage));
      if st.kind.Signature? {
        floor := Max(floor, Rank(Active));
      }
      RulesExtend(given, builtin, labels, stage);
      labels := labels + [stage];
    }
    InfersIffInferred(given, builtin, labels);
  }

  lemma {:induction false} RulesExtend(steps: seq<Step>, builtin: bool, labels: seq<Stage>, stage: Stage)
    requires |labels| < |steps| && forall k :: 0 <= k < |labels| ==> Rule(steps, builtin, labels, k)
    requires var i := |labels|;
             stage == Label(steps[i], builtin, i == 0, Floor(steps, labels),
                            if i == 0 then Intake else labels[i - 1], FixedAfter(steps, i))
    ensures var more := labels + [stage];
            && (forall k :: 0 <= k < |more| ==> Rule(steps, builtin, more, k))
            && Floor(steps, more) == Raised(Floor(steps, labels), steps[|labels|].kind, stage)
  {
    var more := labels + [stage];
    assert more[..|labels|] == labels;
    forall k | 0 <= k < |more| ensures Rule(steps, builtin, more, k) {
      if k < |labels| {
        assert Rule(steps, builtin, labels, k);
        assert more[..k] == labels[..k];
      }
    }
  }

  /** The branches of the forward pass. */
  method Choose(st: Step, builtin: bool, first: bool, floor: nat, before: Stage, cap: Option<nat>)
    returns (stage: Stage)
    requires floor <= 6
    ensures stage == Label(st, builtin, first, floor, before, cap)
  {
    if Keeps(st) {
      stage := st.stage.value;
    } else if IsFixed(st.kind) {
      stage := FixedStage(st.kind);
    } else if builtin && st.intakeName && floor == 0 {
      stage := Intake;
    } else if Parallel(st) && !first {
      stage := before;
    } else {
      var want := if cap.Some? && cap.value < Rank(Review) then Rank(Intake) else Rank(Review);
      stage := STAGES[Max(floor, want)];
      if stage !in Allowed(st.kind) {
        stage := Allowed(st.kind)[|Allowed(st.kind)| - 1];
      }
    }
  }

  /** The backward pass. */
  method FindFixedAfter(steps: array<Step>) returns (fixedAfter: array<Option<nat>>)
    ensures fresh(fixedAfter) && fixedAfter.Length == steps.Length
    ensures forall k :: 0 <= k < steps.Length ==> fixedAfter[k] == FixedAfter(steps[..], k)
  {
    var n := steps.Length;
    ghost var given := steps[..];
    fixedAfter := new Option<nat>[n](_ => None);
    var next: Option<nat> := None;
    var i := n;
    while i > 0
      invariant 0 <= i <= n
      invariant next == if i == n then None
                        else if IsFixed(given[i].kind) then Some(Rank(FixedStage(given[i].kind)))
                        else FixedAfter(given, i)
      invariant forall k :: i <= k < n ==> fixedAfter[k] == FixedAfter(given, k)
    {
      i := i - 1;
      fixedAfter[i] := next;
      if IsFixed(steps[i].kind) {
        next := Some(Rank(FixedStage(steps[i].kind)));
      }
    }
  }

  // ---- every input ----

  lemma {:induction false} FixedAfterSameKinds(a: seq<Step>, b: seq<Step>, i: nat)
    requires i < |a| == |b| && forall k :: 0 <= k < |a| ==> a[k].kind == b[k].kind
    ensures FixedAfter(a, i) == FixedAfter(b, i)
    decreases |a| - i
  {
    if i + 1 < |a| {
      FixedAfterSameKinds(a, b, i + 1);
    }
  }

  lemma {:induction false} LabelTwice(st: Step, builtin: bool, first: bool, floor: nat, before: Stage, cap: Option<nat>)
    requires floor <= 6
    ensures var stage := Label(st, builtin, first, floor, before, cap);
            Label(st.(stage := Known(stage)), builtin, first, floor, before, cap) == stage
  {
  }

  /** Inferring twice is inferring once, whatever stages were saved. */
  lemma {:induction false} InferIsIdempotent(steps: seq<Step>, builtin: bool)
    ensures var once := Labelled(steps, Inferred(steps, builtin));
            Labelled(once, Inferred(once, builtin)) == once
  {
    var labels := Inferred(steps, builtin);
    var once := Labelled(steps, labels);
    var again := Inferred(once, builtin);
    InfersIffInferred(steps, builtin, labels);
    InfersIffInferred(once, builtin, again);
    if steps != [] {
      SecondPassSameStage(steps, builtin, labels, again, |steps| - 1);
      assert again[..|steps|] == again && labels[..|steps|] == labels;
    }
  }

  lemma {:induction false} SecondPassSameStage(
      steps: seq<Step>, builtin: bool, labels: seq<Stage>, again: seq<Stage>, i: nat)
    requires i < |steps| && Infers(steps, builtin, labels) && Infers(Labelled(steps, labels), builtin, again)
    ensures again[..i + 1] == labels[..i + 1]
  {
    var relabelled := Labelled(steps, labels);
    if i > 0 {
      SecondPassSameStage(steps, builtin, labels, again, i - 1);
      assert again[i - 1] == again[..i][i - 1] && labels[i - 1] == labels[..i][i - 1];
    }
    assert again[..i] == labels[..i];
    assert again[i] == labels[i] by {
      var floor, cap := Floor(steps, labels[..i]), FixedAfter(steps, i);
      var before := if i == 0 then Intake else labels[i - 1];
      SameFloor(steps, relabelled, labels[..i]);
      FixedAfterSameKinds(steps, relabelled, i);
      LabelTwice(steps[i], builtin, i == 0, floor, before, cap);
      assert Rule(steps, builtin, labels, i) && Rule(relabelled, builtin, again, i);
      assert labels[i] == Label(steps[i], builtin, i == 0, floor, before, cap);
      assert again[i] == Label(relabelled[i], builtin, i == 0, floor, before, cap);
    }
    assert again[..i + 1] == again[..i] + [again[i]] && labels[..i + 1] == labels[..i] + [labels[i]];
  }

  lemma {:induction false} SameFloor(a: seq<Step>, b: seq<Step>, labels: seq<Stage>)
    requires |labels| <= |a| == |b| && forall k :: 0 <= k < |a| ==> a[k].kind == b[k].kind
    ensures Floor(a, labels) == Floor(b, labels)
  {
    if labels != [] {
      SameFloor(a, b, labels[..|labels| - 1]);
    }
  }

  // ---- stages that a step's type does not allow ----

  lemma {:induction false} FloorNext(steps: seq<Step>, labels: seq<Stage>, i: nat)
    requires i < |labels| <= |steps|
    ensures Floor(steps, labels[..i + 1]) == Raised(Floor(steps, labels[..i]), steps[i].kind, labels[i])
  {
    assert labels[..i + 1][..i] == labels[..i];
  }

  /** What puts step `k` into Intake while all steps before it are there. */
  predicate AtIntake(steps: seq<Step>, builtin: bool, k: nat)
    requires k < |steps|
  {
    var st := steps[k];
    if Keeps(st) then st.stage.value == Intake
    else
      && !IsFixed(st.kind)
      && ((builtin && st.intakeName) || (Parallel(st) && k > 0)
          || (st.kind.Other? && FixedAfter(steps, k) == Some(Rank(Drafting))))
  }

  predicate OnlyIntakeBefore(steps: seq<Step>, builtin: bool, i: nat)
    requires i <= |steps|
  {
    forall k :: 0 <= k < i ==> AtIntake(steps, builtin, k)
  }

  /** Step `i` takes Intake from its built-in name. */
  predicate IsNamed(steps: seq<Step>, builtin: bool, i: nat)
    requires i < |steps|
  {
    builtin && steps[i].intakeName && OnlyIntakeBefore(steps, builtin, i)
  }

  /** A step that does not raise the floor past Review. */
  predicate IsEarly(st: Step) {
    if Keeps(st) then Rank(st.stage.value) <= Rank(Review) else !st.kind.Approval? && !st.kind.Signature?
  }

  predicate OnlyEarlyBefore(steps: seq<Step>, i: nat)
    requires i <= |steps|
  {
    forall k :: 0 <= k < i ==> IsEarly(steps[k])
  }

  /** Step `i` copies the stage of the step before it. */
  predicate Copies(steps: seq<Step>, builtin: bool, i: nat)
    requires i < |steps|
  {
    !Keeps(steps[i]) && !IsFixed(steps[i].kind) && !IsNamed(steps, builtin, i) && Parallel(steps[i]) && i > 0
  }

  /** The step that step `i` has its stage from: the nearest one, from `i` back, that does not copy. */
  function Source(steps: seq<Step>, builtin: bool, i: nat): (j: nat)
    requires i < |steps|
    ensures j <= i && !Copies(steps, builtin, j)
  {
    if Copies(steps, builtin, i) then Source(steps, builtin, i - 1) else i
  }

  /** Step `j`, which does not copy, gets a stage other than Drafting and Review. */
  predicate Outside(steps: seq<Step>, builtin: bool, j: nat)
    requires j < |steps|
  {
    var st := steps[j];
    if Keeps(st) then st.stage.value !in [Drafting, Review]
    else if IsFixed(st.kind) then !st.kind.Draft?
    else
      || IsNamed(steps, builtin, j)
      || (st.kind.Other?
          && (!OnlyEarlyBefore(steps, j)
              || (OnlyIntakeBefore(steps, builtin, j) && FixedAfter(steps, j) == Some(Rank(Drafting)))))
  }

  lemma {:induction false} FixedAfterRanks(steps: seq<Step>, i: nat)
    requires i < |steps|
    ensures var cap := FixedAfter(steps, i);
            cap == None || cap.value in [Rank(Drafting), Rank(InApproval), Rank(InSignature)]
    decreases |steps| - i
  {
    if i + 1 < |steps| && !IsFixed(steps[i + 1].kind) {
      FixedAfterRanks(steps, i + 1);
    }
  }

  lemma {:induction false} IntakeWhileFloorIsZero(
      steps: seq<Step>, builtin: bool, k: nat, before: Stage, cap: Option<nat>)
    requires k < |steps| && cap == FixedAfter(steps, k) && (k > 0 ==> before == Intake)
    ensures Label(steps[k], builtin, k == 0, 0, before, cap) == Intake <==> AtIntake(steps, builtin, k)
  {
    FixedAfterRanks(steps, k);
  }

  lemma {:induction false} FloorIsZeroIff(steps: seq<Step>, builtin: bool, labels: seq<Stage>, i: nat)
    requires i <= |steps| && Infers(steps, builtin, labels)
    ensures Floor(steps, labels[..i]) == 0 <==> OnlyIntakeBefore(steps, builtin, i)
    ensures OnlyIntakeBefore(steps, builtin, i) && i > 0 ==> labels[i - 1] == Intake
  {
    if i > 0 {
      var k := i - 1;
      FloorIsZeroIff(steps, builtin, labels, k);
      assert Rule(steps, builtin, labels, k);
      FloorNext(steps, labels, k);
      assert OnlyIntakeBefore(steps, builtin, i)
         <==> OnlyIntakeBefore(steps, builtin, k) && AtIntake(steps, builtin, k);
      if OnlyIntakeBefore(steps, builtin, k) {
        IntakeWhileFloorIsZero(steps, builtin, k, if k == 0 then Intake else labels[k - 1], FixedAfter(steps, k));
        assert labels[k] == Intake ==> !IsFixed(steps[k].kind);
      }
    }
  }

  lemma {:induction false} EarlyWhileFloorIsLow(
      st: Step, builtin: bool, first: bool, floor: nat, before: Stage, cap: Option<nat>)
    requires floor <= Rank(Review) && (!first ==> Rank(before) <= Rank(Review))
    ensures Rank(Label(st, builtin, first, floor, before, cap)) <= Rank(Review) <==> IsEarly(st)
  {
  }

  lemma {:induction false} FloorIsLowIff(steps: seq<Step>, builtin: bool, labels: seq<Stage>, i: nat)
    requires i <= |steps| && Infers(steps, builtin, labels)
    ensures Floor(steps, labels[..i]) <= Rank(Review) <==> OnlyEarlyBefore(steps, i)
    ensures i > 0 && OnlyEarlyBefore(steps, i) ==> Rank(labels[i - 1]) <= Rank(Review)
  {
    if i > 0 {
      var k := i - 1;
      FloorIsLowIff(steps, builtin, labels, k);
      assert Rule(steps, builtin, labels, k);
      FloorNext(steps, labels, k);
      assert OnlyEarlyBefore(steps, i) <==> OnlyEarlyBefore(steps, k) && IsEarly(steps[k]);
      if OnlyEarlyBefore(steps, k) {
        EarlyWhileFloorIsLow(steps[k], builtin, k == 0, Floor(steps, labels[..k]),
                             if k == 0 then Intake else labels[k - 1], FixedAfter(steps, k));
        assert Rank(labels[k]) <= Rank(Review) ==> !steps[k].kind.Signature?;
      }
    }
  }

  lemma {:induction false} SameStageAsSource(steps: seq<Step>, builtin: bool, labels: seq<Stage>, i: nat)
    requires i < |steps| && Infers(steps, builtin, labels)
    ensures labels[i] == labels[Source(steps, builtin, i)]
  {
    if Copies(steps, builtin, i) {
      SameStageAsSource(steps, builtin, labels, i - 1);
      FloorIsZeroIff(steps, builtin, labels, i);
      assert Rule(steps, builtin, labels, i);
    }
  }

  lemma {:induction false} OutsideIff(steps: seq<Step>, builtin: bool, labels: seq<Stage>, j: nat)
    requires j < |steps| && Infers(steps, builtin, labels) && !Copies(steps, builtin, j)
    ensures labels[j] !in [Drafting, Review] <==> Outside(steps, builtin, j)
  {
    FloorIsZeroIff(steps, builtin, labels, j);
    FloorIsLowIff(steps, builtin, labels, j);
    FixedAfterRanks(steps, j);
    assert Rule(steps, builtin, labels, j);
  }

  /** A step ends in a stage its type does not allow exactly if it is a counterparty step, without a
      usable saved stage, that takes Intake from its built-in name, or copies and the step its stage
      comes from is outside Drafting and Review. */
  lemma {:induction false} StageNotAllowedIff(steps: seq<Step>, builtin: bool, i: nat)
    requires i < |steps|
    ensures Inferred(steps, builtin)[i] !in Allowed(steps[i].kind) <==>
            && steps[i].kind.Counterparty? && !Keeps(steps[i])
            && (IsNamed(steps, builtin, i)
                || (Copies(steps, builtin, i) && Outside(steps, builtin, Source(steps, builtin, i))))
  {
    var labels := Inferred(steps, builtin);
    InfersIffInferred(steps, builtin, labels);
    assert Rule(steps, builtin, labels, i);
    AllStages(labels[i]);
    FloorIsZeroIff(steps, builtin, labels, i);
    SameStageAsSource(steps, builtin, labels, i);
    OutsideIff(steps, builtin, labels, Source(steps, builtin, i));
  }

  /** Such steps: a counterparty step with a built-in intake name, and one that runs in parallel with an
      approval. */
  lemma {:induction false} CounterpartyOutside(details: string)
    ensures Inferred([Step(Counterparty, Absent, true, None, details)], true) == [Intake]
    ensures Inferred([Step(Approval, Absent, false, None, details),
                      Step(Counterparty, Absent, false, Some(true), details)], false) == [InApproval, InApproval]
  {
    var named := [Step(Counterparty, Absent, true, None, details)];
    assert Infers(named, true, [Intake]) by {
      assert [Intake][..0] == [];
    }
    InfersIffInferred(named, true, [Intake]);
    var copied := [Step(Approval, Absent, false, None, details),
                   Step(Counterparty, Absent, false, Some(true), details)];
    var labels := [InApproval, InApproval];
    assert Infers(copied, false, labels) by {
      assert labels[..0] == [] && labels[..1] == [InApproval];
      assert Rule(copied, false, labels, 0) && Rule(copied, false, labels, 1);
    }
    InfersIffInferred(copied, false, labels);
  }

  // ---- every stage, said in full ----

  /** `next` is the first draft, approval or signature behind step `i`, or the end. */
  ghost predicate FirstFixed(steps: seq<Step>, i: nat, next: nat) {
    && i < next <= |steps|
    && (forall j :: i < j < next ==> steps[j].kind.Other? || steps[j].kind.Counterparty?)
    && (next < |steps| ==> !steps[next].kind.Other? && !steps[next].kind.Counterparty?)
  }

  /** `floor` is the highest rank of the first `i` steps, where a signature counts as Active. */
  ghost predicate Highest(steps: seq<Step>, labels: seq<Stage>, i: nat, floor: nat)
    requires i <= |labels| <= |steps|
  {
    && (forall k :: 0 <= k < i ==> Rank(labels[k]) <= floor && (steps[k].kind.Signature? ==> Rank(Active) <= floor))
    && (floor > 0 ==> exists k :: 0 <= k < i && (Rank(labels[k]) == floor
                                                 || (steps[k].kind.Signature? && floor == Rank(Active))))
  }

  /** The saved stage is one that the step's type allows. */
  predicate UsablySaved(st: Step) {
    match st.kind
    case Draft => st.stage == Known(Drafting)
    case Approval => st.stage == Known(InApproval)
    case Signature => st.stage == Known(InSignature)
    case Counterparty => st.stage == Known(Drafting) || st.stage == Known(Review)
    case Other(_) => st.stage.Known?
  }

  lemma {:induction false} FirstFixedAfter(steps: seq<Step>, i: nat) returns (next: nat)
    requires i < |steps|
    ensures FirstFixed(steps, i, next)
    ensures FixedAfter(steps, i) == if next == |steps| then None else Some(Rank(FixedStage(steps[next].kind)))
    decreases |steps| - i
  {
    next := i + 1;
    if i + 1 < |steps| && !IsFixed(steps[i + 1].kind) {
      next := FirstFixedAfter(steps, i + 1);
    }
  }

  lemma {:induction false} FloorIsHighest(steps: seq<Step>, labels: seq<Stage>, i: nat)
    requires i <= |labels| <= |steps|
    ensures Highest(steps, labels, i, Floor(steps, labels[..i]))
  {
    if i > 0 {
      var floor := Floor(steps, labels[..i - 1]);
      FloorIsHighest(steps, labels, i - 1);
      FloorNext(steps, labels, i - 1);
    }
  }

  /** The stage of step `i`, in terms of the saved entries, the stages before it and the fixed step to come. */
  lemma {:induction false} StageMeans(steps: seq<Step>, builtin: bool, i: nat) returns (floor: nat, next: nat)
    requires i < |steps|
    ensures Highest(steps, Inferred(steps, builtin), i, floor) && FirstFixed(steps, i, next)
    ensures var labels, st := Inferred(steps, builtin), steps[i];
            var copies := st.parallel == Some(true) && i > 0;
            var draftToCome := next < |steps| && steps[next].kind.Draft?;
            if UsablySaved(st) then st.stage == Known(labels[i])
            else if st.kind.Draft? then labels[i] == Drafting
            else if st.kind.Approval? then labels[i] == InApproval
            else if st.kind.Signature? then labels[i] == InSignature
            else if builtin && st.intakeName && floor == 0 then labels[i] == Intake
            else if copies then labels[i] == labels[i - 1]
            else if st.kind.Counterparty? then labels[i] == if draftToCome && floor == 1 then Drafting else Review
            else if draftToCome || floor > 2 then Rank(labels[i]) == floor
            else labels[i] == Review
    ensures var labels, st := Inferred(steps, builtin), steps[i];
            Labelled(steps, labels)[i] == Step(st.kind, Known(labels[i]), st.intakeName, st.parallel, st.details)
  {
    var labels := Inferred(steps, builtin);
    InfersIffInferred(steps, builtin, labels);
    assert Rule(steps, builtin, labels, i);
    floor := Floor(steps, labels[..i]);
    FloorIsHighest(steps, labels, i);
    next := FirstFixedAfter(steps, i);
    StageFrom(steps[i], builtin, i == 0, floor, if i == 0 then Intake else labels[i - 1], FixedAfter(steps, i));
  }

  lemma {:induction false} StageFrom(
      st: Step, builtin: bool, first: bool, floor: nat, before: Stage, cap: Option<nat>)
    requires floor <= 6
    ensures var stage := Label(st, builtin, first, floor, before, cap);
            var draftToCome := cap.Some? && cap.value < 2;
            if UsablySaved(st) then st.stage == Known(stage)
            else if st.kind.Draft? then stage == Drafting
            else if st.kind.Approval? then stage == InApproval
            else if st.kind.Signature? then stage == InSignature
            else if builtin && st.intakeName && floor == 0 then stage == Intake
            else if st.parallel == Some(true) && !first then stage == before
            else if st.kind.Counterparty? then stage == if draftToCome && floor == 1 then Drafting else Review
            else if draftToCome || floor > 2 then Rank(stage) == floor
            else stage == Review
  {
    if st.stage.Known? {
      AllStages(st.stage.value);
    }
  }

  lemma {:induction false} AllStages(s: Stage)
    ensures s in STAGES && STAGES[Rank(s)] == s
  {
  }
}
