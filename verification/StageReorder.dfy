/** Moving late counterparty negotiations in front of the first approval, and what the upgrade of
    a saved workflow guarantees. */
module StageReorder {
  import opened Options
  import opened Text
  import opened Positions
  import opened Stages
  import opened StageOrder

  function FirstApproval(steps: seq<Step>): (i: nat)
    ensures i <= |steps|
  {
    if steps == [] || steps[0].kind.Approval? then 0 else 1 + FirstApproval(steps[1..])
  }

  function Counterparties(steps: seq<Step>): seq<Step> {
    if steps == [] then []
    else (if steps[0].kind.Counterparty? then [steps[0]] else []) + Counterparties(steps[1..])
  }

  /** The steps that are not equal, as values, to one of `gone`. */
  function Without(steps: seq<Step>, gone: seq<Step>): seq<Step> {
    if steps == [] then []
    else (if steps[0] in gone then [] else [steps[0]]) + Without(steps[1..], gone)
  }

  /** The counterparty steps behind the first approval. */
  function Late(steps: seq<Step>): seq<Step> {
    var first := FirstApproval(steps);
    if first == |steps| then [] else Counterparties(steps[first + 1..])
  }

  function Sequential(steps: seq<Step>): (r: seq<Step>)
    ensures |r| == |steps|
  {
    if steps == [] then [] else [steps[0].(parallel := None)] + Sequential(steps[1..])
  }

  function Reordered(steps: seq<Step>): seq<Step> {
    var late := Late(steps);
    if late == [] then steps
    else
      var rest := Without(steps, late);
      var at := FirstApproval(rest);
      rest[..at] + Sequential(late) + rest[at..]
  }

  method NegotiationBeforeApproval(steps: seq<Step>) returns (r: seq<Step>)
    ensures r == Reordered(steps)
  {
    var first := FindApproval(steps);
    if first == |steps| {
      return steps;
    }
    var late := CollectLate(steps, first);
    if late == [] {
      return steps;
    }
    var rest := DropValues(steps, late);
    var at := FindApproval(rest);
    var moved := PopParallel(late);
    r := rest[..at] + moved + rest[at..];
  }

  method CollectLate(steps: seq<Step>, first: nat) returns (late: seq<Step>)
    requires first < |steps|
    ensures late == Counterparties(steps[first + 1..])
  {
    ghost var behind := steps[first + 1..];
    late := [];
    for i := first + 1 to |steps|
      invariant late + Counterparties(steps[i..]) == Counterparties(behind)
    {
      assert steps[i..][1..] == steps[i + 1..];
      SumIsAssociative(late, [steps[i]], Counterparties(steps[i + 1..]));
      if steps[i].kind.Counterparty? {
        late := late + [steps[i]];
      }
    }
  }

  method PopParallel(late: seq<Step>) returns (moved: seq<Step>)
    ensures moved == Sequential(late)
  {
    moved := [];
    for k := 0 to |late|
      invariant moved + Sequential(late[k..]) == Sequential(late)
    {
      assert late[k..][1..] == late[k + 1..];
      SumIsAssociative(moved, [late[k].(parallel := None)], Sequential(late[k + 1..]));
      moved := moved + [late[k].(parallel := None)];
    }
  }

  method FindApproval(steps: seq<Step>) returns (i: nat)
    ensures i == FirstApproval(steps)
  {
    i := 0;
    while i < |steps| && !steps[i].kind.Approval?
      invariant i <= |steps| && FirstApproval(steps) == i + FirstApproval(steps[i..])
    {
      assert steps[i..][1..] == steps[i + 1..];
      i := i + 1;
    }
  }

  method DropValues(steps: seq<Step>, gone: seq<Step>) returns (rest: seq<Step>)
    ensures rest == Without(steps, gone)
  {
    rest := [];
    for i := 0 to |steps|
      invariant rest + Without(steps[i..], gone) == Without(steps, gone)
    {
      assert steps[i..][1..] == steps[i + 1..];
      SumIsAssociative(rest, [steps[i]], Without(steps[i + 1..], gone));
      if steps[i] !in gone {
        rest := rest + [steps[i]];
      }
    }
  }

  // ---- where everything ends up ----

  function NonCounterparties(steps: seq<Step>): seq<Step> {
    if steps == [] then []
    else (if steps[0].kind.Counterparty? then [] else [steps[0]]) + NonCounterparties(steps[1..])
  }

  predicate NoApproval(steps: seq<Step>) {
    forall i :: 0 <= i < |steps| ==> !steps[i].kind.Approval?
  }

  /** The reordered list, part by part: what stays ahead of the first approval, the moved steps, the
      approval, and the other steps behind it. */
  function Moved(ahead: seq<Step>, approval: Step, behind: seq<Step>): seq<Step> {
    var late := Counterparties(behind);
    Without(ahead, late) + Sequential(late) + ([approval] + NonCounterparties(behind))
  }

  lemma {:induction false} FirstApprovalSplits(ahead: seq<Step>, approval: Step, behind: seq<Step>)
    requires NoApproval(ahead) && approval.kind.Approval?
    ensures FirstApproval(ahead + ([approval] + behind)) == |ahead|
  {
    var all := ahead + ([approval] + behind);
    if ahead == [] {
      assert all[0] == approval;
    } else {
      assert all[1..] == ahead[1..] + ([approval] + behind) && all[0] == ahead[0];
      FirstApprovalSplits(ahead[1..], approval, behind);
    }
  }

  lemma {:induction false} FirstApprovalFacts(steps: seq<Step>)
    ensures NoApproval(steps[..FirstApproval(steps)])
    ensures FirstApproval(steps) < |steps| ==> steps[FirstApproval(steps)].kind.Approval?
  {
    if steps != [] && !steps[0].kind.Approval? {
      FirstApprovalFacts(steps[1..]);
      assert steps[..FirstApproval(steps)] == [steps[0]] + steps[1..][..FirstApproval(steps[1..])];
    }
  }

  /** Every list with an approval is such a list. */
  lemma {:induction false} CutAtApproval(steps: seq<Step>) returns (ahead: seq<Step>, approval: Step, behind: seq<Step>)
    requires FirstApproval(steps) < |steps|
    ensures steps == ahead + ([approval] + behind) && NoApproval(ahead) && approval.kind.Approval?
    ensures |ahead| == FirstApproval(steps)
  {
    FirstApprovalFacts(steps);
    var f := FirstApproval(steps);
    ahead, approval, behind := steps[..f], steps[f], steps[f + 1..];
  }

  lemma {:induction false} WithoutSplits(a: seq<Step>, b: seq<Step>, gone: seq<Step>)
    ensures Without(a + b, gone) == Without(a, gone) + Without(b, gone)
  {
    if a == [] {
      assert a + b == b;
    } else {
      assert (a + b)[1..] == a[1..] + b && (a + b)[0] == a[0];
      WithoutSplits(a[1..], b, gone);
      SumIsAssociative(if a[0] in gone then [] else [a[0]], Without(a[1..], gone), Without(b, gone));
    }
  }

  lemma {:induction false} CounterpartyMembers(steps: seq<Step>)
    ensures forall s :: s in Counterparties(steps) <==> s in steps && s.kind.Counterparty?
  {
    if steps != [] {
      CounterpartyMembers(steps[1..]);
    }
  }

  lemma {:induction false} NonCounterpartyMembers(steps: seq<Step>)
    ensures forall s :: s in NonCounterparties(steps) <==> s in steps && !s.kind.Counterparty?
  {
    if steps != [] {
      NonCounterpartyMembers(steps[1..]);
    }
  }

  lemma {:induction false} WithoutMembers(steps: seq<Step>, gone: seq<Step>)
    ensures forall s :: s in Without(steps, gone) <==> s in steps && s !in gone
  {
    if steps != [] {
      WithoutMembers(steps[1..], gone);
    }
  }

  lemma {:induction false} WithoutCounterparties(steps: seq<Step>, gone: seq<Step>)
    requires forall s :: s in steps ==> (s in gone <==> s.kind.Counterparty?)
    ensures Without(steps, gone) == NonCounterparties(steps)
  {
    if steps != [] {
      assert steps[0] in steps;
      WithoutCounterparties(steps[1..], gone);
    }
  }

  lemma {:induction false} NoCounterparties(steps: seq<Step>)
    requires forall s :: s in steps ==> !s.kind.Counterparty?
    ensures NonCounterparties(steps) == steps && Counterparties(steps) == []
  {
    if steps != [] {
      assert steps[0] in steps;
      NoCounterparties(steps[1..]);
    }
  }

  lemma {:induction false} WithoutNothing(steps: seq<Step>, gone: seq<Step>)
    requires forall s :: s in steps ==> s !in gone
    ensures Without(steps, gone) == steps
  {
    if steps != [] {
      assert steps[0] in steps;
      WithoutNothing(steps[1..], gone);
    }
  }

  lemma {:induction false} LateParts(ahead: seq<Step>, approval: Step, behind: seq<Step>)
    requires NoApproval(ahead) && approval.kind.Approval?
    ensures Late(ahead + ([approval] + behind)) == Counterparties(behind)
  {
    var all := ahead + ([approval] + behind);
    FirstApprovalSplits(ahead, approval, behind);
    assert all[|ahead| + 1..] == behind;
  }

  lemma {:induction false} RestParts(ahead: seq<Step>, approval: Step, behind: seq<Step>)
    requires approval.kind.Approval?
    ensures var late := Counterparties(behind);
            Without(ahead + ([approval] + behind), late)
            == Without(ahead, late) + ([approval] + NonCounterparties(behind))
  {
    var late := Counterparties(behind);
    CounterpartyMembers(behind);
    WithoutSplits(ahead, [approval] + behind, late);
    assert ([approval] + behind)[1..] == behind;
    WithoutCounterparties(behind, late);
  }

  lemma {:induction false} WithoutNoApproval(steps: seq<Step>, gone: seq<Step>)
    requires NoApproval(steps)
    ensures NoApproval(Without(steps, gone))
  {
    WithoutMembers(steps, gone);
    forall i | 0 <= i < |Without(steps, gone)| ensures !Without(steps, gone)[i].kind.Approval? {
      assert Without(steps, gone)[i] in steps;
    }
  }

  lemma {:induction false} ReorderedParts(ahead: seq<Step>, approval: Step, behind: seq<Step>)
    requires NoApproval(ahead) && approval.kind.Approval?
    ensures Reordered(ahead + ([approval] + behind)) == Moved(ahead, approval, behind)
  {
    var late, others := Counterparties(behind), NonCounterparties(behind);
    LateParts(ahead, approval, behind);
    if late == [] {
      WithoutNothing(ahead, late);
      CounterpartyMembers(behind);
      forall s | s in behind ensures !s.kind.Counterparty? {
        assert s !in late;
      }
      NoCounterparties(behind);
      assert ahead + [] == ahead;
    } else {
      var kept := Without(ahead, late);
      RestParts(ahead, approval, behind);
      WithoutNoApproval(ahead, late);
      FirstApprovalSplits(kept, approval, others);
      var rest := kept + ([approval] + others);
      assert rest[..|kept|] == kept && rest[|kept|..] == [approval] + others;
    }
  }

  lemma {:induction false} SequentialKinds(steps: seq<Step>)
    ensures forall i :: 0 <= i < |steps| ==> Sequential(steps)[i] == steps[i].(parallel := None)
  {
    if steps != [] {
      SequentialKinds(steps[1..]);
    }
  }

  /** The moved steps are counterparty steps that no longer run in parallel. */
  lemma {:induction false} MovedKinds(behind: seq<Step>)
    ensures forall s :: s in Sequential(Counterparties(behind)) ==> s.kind.Counterparty? && s.parallel == None
    ensures NoneKept(behind) ==> forall s :: s in Sequential(Counterparties(behind)) ==> !Keeps(s)
  {
    var late := Counterparties(behind);
    SequentialKinds(late);
    CounterpartyMembers(behind);
    forall s | s in Sequential(late)
      ensures s.kind.Counterparty? && s.parallel == None && (NoneKept(behind) ==> !Keeps(s))
    {
      var i :| 0 <= i < |late| && Sequential(late)[i] == s;
      assert late[i] in late;
    }
  }

  /** No counterparty step is left behind the first approval. */
  lemma {:induction false} NoCounterpartyBehindApproval(steps: seq<Step>)
    ensures Late(Reordered(steps)) == []
  {
    if FirstApproval(steps) < |steps| {
      var ahead, approval, behind := CutAtApproval(steps);
      var late, others := Counterparties(behind), NonCounterparties(behind);
      var front := Without(ahead, late) + Sequential(late);
      ReorderedParts(ahead, approval, behind);
      WithoutNoApproval(ahead, late);
      MovedKinds(behind);
      forall i | 0 <= i < |front| ensures !front[i].kind.Approval? {
        assert i >= |Without(ahead, late)| ==> front[i] in Sequential(late);
      }
      LateParts(front, approval, others);
      NonCounterpartyMembers(behind);
      NoCounterparties(others);
    }
  }

  lemma {:induction false} ReorderIsIdempotent(steps: seq<Step>)
    ensures Reordered(Reordered(steps)) == Reordered(steps)
  {
    NoCounterpartyBehindApproval(steps);
  }

  lemma {:induction false} PartitionIsPermutation(steps: seq<Step>)
    ensures multiset(Counterparties(steps)) + multiset(NonCounterparties(steps)) == multiset(steps)
    ensures |Counterparties(steps)| + |NonCounterparties(steps)| == |steps|
  {
    if steps != [] {
      PartitionIsPermutation(steps[1..]);
      assert steps == [steps[0]] + steps[1..];
    }
  }

  lemma {:induction false} WithoutLength(steps: seq<Step>, gone: seq<Step>)
    ensures |Without(steps, gone)| <= |steps|
    ensures |Without(steps, gone)| == |steps| ==> forall s :: s in steps ==> s !in gone
  {
    if steps != [] {
      WithoutLength(steps[1..], gone);
    }
  }

  /** No step is lost exactly when none of the steps ahead of the first approval equals, as a
      value, a counterparty step behind it: removal is by value. */
  lemma {:induction false} NothingLostIff(ahead: seq<Step>, approval: Step, behind: seq<Step>)
    requires NoApproval(ahead) && approval.kind.Approval?
    ensures var steps := ahead + ([approval] + behind);
            |Reordered(steps)| == |steps| <==> forall s :: s in ahead ==> s !in Counterparties(behind)
  {
    ReorderedParts(ahead, approval, behind);
    PartitionIsPermutation(behind);
    WithoutLength(ahead, Counterparties(behind));
    if forall s :: s in ahead ==> s !in Counterparties(behind) {
      WithoutNothing(ahead, Counterparties(behind));
    }
  }

  /** Two equal negotiations around an approval come out as one. */
  lemma {:induction false} EqualStepsMerge(negotiation: Step, approval: Step)
    requires negotiation.kind.Counterparty? && approval.kind.Approval?
    ensures Reordered([negotiation, approval, negotiation]) == [negotiation.(parallel := None), approval]
  {
    var ahead, behind := [negotiation], [negotiation];
    assert behind[1..] == [] && ahead[1..] == [];
    assert behind == [negotiation] + behind[1..];
    assert Counterparties(behind) == [negotiation] + Counterparties([]);
    assert NonCounterparties(behind) == [] + NonCounterparties([]);
    assert Without(ahead, behind) == [] + Without([], behind);
    assert Sequential(behind) == [negotiation.(parallel := None)] + Sequential([]);
    assert [negotiation, approval, negotiation] == ahead + ([approval] + behind);
    ReorderedParts(ahead, approval, behind);
  }

  /** In that case, for pairwise unequal steps in particular, the result is a permutation apart from
      the dropped parallel flags: the unmoved steps and the moved steps each keep their order. */
  lemma {:induction false} ReorderIsPermutation(ahead: seq<Step>, approval: Step, behind: seq<Step>)
    requires NoApproval(ahead) && approval.kind.Approval?
    requires forall s :: s in ahead ==> s !in Counterparties(behind)
    ensures Reordered(ahead + ([approval] + behind))
         == ahead + Sequential(Counterparties(behind)) + ([approval] + NonCounterparties(behind))
    ensures multiset(ahead + Counterparties(behind) + ([approval] + NonCounterparties(behind)))
         == multiset(ahead + ([approval] + behind))
  {
    ReorderedParts(ahead, approval, behind);
    WithoutNothing(ahead, Counterparties(behind));
    PartitionIsPermutation(behind);
  }

  // ---- the result, position by position ----

  lemma {:induction false} CounterpartiesAt(steps: seq<Step>, i: nat) returns (at: seq<nat>)
    requires i <= |steps|
    ensures Picks(steps, i, Counterparties(steps[i..]), at)
    ensures forall j :: i <= j < |steps| ==> (j in at <==> steps[j].kind.Counterparty?)
    decreases |steps| - i
  {
    at := [];
    if i < |steps| {
      var rest := CounterpartiesAt(steps, i + 1);
      PicksCons(steps, i, Counterparties(steps[i + 1..]), rest);
      assert steps[i..][1..] == steps[i + 1..];
      at := if steps[i].kind.Counterparty? then [i] + rest else rest;
    }
  }

  lemma {:induction false} NonCounterpartiesAt(steps: seq<Step>, i: nat) returns (at: seq<nat>)
    requires i <= |steps|
    ensures Picks(steps, i, NonCounterparties(steps[i..]), at)
    ensures forall j :: i <= j < |steps| ==> (j in at <==> !steps[j].kind.Counterparty?)
    decreases |steps| - i
  {
    at := [];
    if i < |steps| {
      var rest := NonCounterpartiesAt(steps, i + 1);
      PicksCons(steps, i, NonCounterparties(steps[i + 1..]), rest);
      assert steps[i..][1..] == steps[i + 1..];
      at := if !steps[i].kind.Counterparty? then [i] + rest else rest;
    }
  }

  lemma {:induction false} WithoutAt(steps: seq<Step>, i: nat, gone: seq<Step>) returns (at: seq<nat>)
    requires i <= |steps|
    ensures Picks(steps, i, Without(steps[i..], gone), at)
    ensures forall j :: i <= j < |steps| ==> (j in at <==> steps[j] !in gone)
    decreases |steps| - i
  {
    at := [];
    if i < |steps| {
      var rest := WithoutAt(steps, i + 1, gone);
      PicksCons(steps, i, Without(steps[i + 1..], gone), rest);
      assert steps[i..][1..] == steps[i + 1..];
      at := if steps[i] !in gone then [i] + rest else rest;
    }
  }

  /** Step `i` is moved: a counterparty step behind the first approval, at `first`. */
  predicate IsLate(steps: seq<Step>, first: nat, i: nat) {
    first < i < |steps| && steps[i].kind.Counterparty?
  }

  /** Step `i` stays ahead: it is before the first approval and equals no step that is moved. */
  ghost predicate StaysAhead(steps: seq<Step>, first: nat, i: nat)
    requires i < |steps|
  {
    i < first && forall j :: 0 <= j < |steps| && steps[j] == steps[i] ==> !IsLate(steps, first, j)
  }

  /** With a first approval, at `first`, the result is: the steps that stay ahead, in their order; the counterparty
      steps behind it, in their order, without their parallel flags; and the approval and all others, in theirs. */
  lemma {:induction false} ReorderedInOrder(steps: seq<Step>, first: nat)
    returns (front: seq<nat>, moved: seq<nat>, back: seq<nat>)
    requires first < |steps| && steps[first].kind.Approval? && forall i :: 0 <= i < first ==> !steps[i].kind.Approval?
    ensures Rising(front, 0, first) && Rising(moved, first + 1, |steps|) && Rising(back, first, |steps|)
    ensures forall i :: 0 <= i < first ==> (i in front <==> StaysAhead(steps, first, i))
    ensures forall i :: first < i < |steps| ==> (i in moved <==> steps[i].kind.Counterparty?)
    ensures forall i :: first <= i < |steps| ==> (i in back <==> !steps[i].kind.Counterparty?)
    ensures Placed(steps, Reordered(steps), front, moved, back)
  {
    var ahead, approval, behind := steps[..first], steps[first], steps[first + 1..];
    assert steps == ahead + ([approval] + behind);
    ReorderedParts(ahead, approval, behind);
    front := FrontAt(steps, first);
    moved := MovedAt(steps, first);
    back := BackAt(steps, first);
    PartsPlaced(Without(ahead, Counterparties(behind)), Counterparties(behind),
                [approval] + NonCounterparties(behind), steps, front, moved, back);
  }

  lemma {:induction false} FrontAt(steps: seq<Step>, first: nat) returns (at: seq<nat>)
    requires first < |steps|
    ensures Rising(at, 0, first) && Picks(steps, 0, Without(steps[..first], Counterparties(steps[first + 1..])), at)
    ensures forall i :: 0 <= i < first ==> (i in at <==> StaysAhead(steps, first, i))
  {
    at := WithoutAt(steps[..first], 0, Counterparties(steps[first + 1..]));
    assert steps[..first][0..] == steps[..first];
    forall i | 0 <= i < first ensures i in at <==> StaysAhead(steps, first, i) {
      assert steps[..first][i] == steps[i];
      LateIff(steps, first, i);
    }
  }

  lemma {:induction false} MovedAt(steps: seq<Step>, first: nat) returns (at: seq<nat>)
    requires first < |steps|
    ensures Rising(at, first + 1, |steps|) && Picks(steps, 0, Counterparties(steps[first + 1..]), at)
    ensures forall i :: first < i < |steps| ==> (i in at <==> steps[i].kind.Counterparty?)
  {
    at := CounterpartiesAt(steps, first + 1);
  }

  lemma {:induction false} BackAt(steps: seq<Step>, first: nat) returns (at: seq<nat>)
    requires first < |steps| && !steps[first].kind.Counterparty?
    ensures Rising(at, first, |steps|) && Picks(steps, 0, [steps[first]] + NonCounterparties(steps[first + 1..]), at)
    ensures forall i :: first <= i < |steps| ==> (i in at <==> !steps[i].kind.Counterparty?)
  {
    var others := NonCounterpartiesAt(steps, first + 1);
    PicksCons(steps, first, NonCounterparties(steps[first + 1..]), others);
    at := [first] + others;
  }

  /** `r` has the steps at these positions, part by part. */
  ghost predicate Placed(steps: seq<Step>, r: seq<Step>, front: seq<nat>, moved: seq<nat>, back: seq<nat>)
    requires Rising(front, 0, |steps|) && Rising(moved, 0, |steps|) && Rising(back, 0, |steps|)
  {
    var f, m := |front|, |moved|;
    && |r| == f + m + |back|
    && (forall k :: 0 <= k < f ==> r[k] == steps[front[k]])
    && (forall k :: 0 <= k < m ==> r[f + k] == steps[moved[k]].(parallel := None))
    && (forall k :: 0 <= k < |back| ==> r[f + m + k] == steps[back[k]])
  }

  lemma {:induction false} PartsPlaced(a: seq<Step>, b: seq<Step>, c: seq<Step>, steps: seq<Step>, front: seq<nat>,
      moved: seq<nat>, back: seq<nat>)
    requires Picks(steps, 0, a, front) && Picks(steps, 0, b, moved) && Picks(steps, 0, c, back)
    ensures Placed(steps, a + Sequential(b) + c, front, moved, back)
  {
    SequentialKinds(b);
  }

  lemma {:induction false} LateIff(steps: seq<Step>, first: nat, i: nat)
    requires i < first < |steps|
    ensures steps[i] in Counterparties(steps[first + 1..]) <==> !StaysAhead(steps, first, i)
  {
    var behind := steps[first + 1..];
    CounterpartyMembers(behind);
    if steps[i] in Counterparties(behind) {
      var k :| 0 <= k < |behind| && behind[k] == steps[i];
      assert steps[first + 1 + k] == steps[i] && IsLate(steps, first, first + 1 + k);
    }
    if !StaysAhead(steps, first, i) {
      var j :| 0 <= j < |steps| && steps[j] == steps[i] && IsLate(steps, first, j);
      assert behind[j - first - 1] == steps[i];
    }
  }

  // ---- the upgrade of a saved workflow ----

  /** What the steps must not do, pair by pair, whatever their flags and names. */
  predicate PairOrdered(a: Step, b: Step) {
    && (IsFixed(a.kind) && IsFixed(b.kind) ==> Rank(FixedStage(a.kind)) <= Rank(FixedStage(b.kind)))
    && !(a.kind.Counterparty? && b.kind.Draft?)
    && !(a.kind.Signature? && b.kind.Signature?)
  }

  ghost predicate PairsOrdered(steps: seq<Step>) {
    forall i, j :: 0 <= i < j < |steps| ==> PairOrdered(steps[i], steps[j])
  }

  lemma {:induction false} PairsOrderedCons(first: Step, rest: seq<Step>)
    requires PairsOrdered(rest) && forall s :: s in rest ==> PairOrdered(first, s)
    ensures PairsOrdered([first] + rest)
  {
  }

  lemma {:induction false} WithoutStaysOrdered(steps: seq<Step>, gone: seq<Step>)
    requires PairsOrdered(steps)
    ensures PairsOrdered(Without(steps, gone))
  {
    if steps != [] {
      WithoutStaysOrdered(steps[1..], gone);
      WithoutMembers(steps[1..], gone);
      if steps[0] !in gone {
        PairsOrderedCons(steps[0], Without(steps[1..], gone));
      }
    }
  }

  lemma {:induction false} NonCounterpartiesStayOrdered(steps: seq<Step>)
    requires PairsOrdered(steps)
    ensures PairsOrdered(NonCounterparties(steps))
  {
    if steps != [] {
      NonCounterpartiesStayOrdered(steps[1..]);
      NonCounterpartyMembers(steps[1..]);
      if !steps[0].kind.Counterparty? {
        PairsOrderedCons(steps[0], NonCounterparties(steps[1..]));
      }
    }
  }

  lemma {:induction false} PairsAroundApproval(ahead: seq<Step>, approval: Step, behind: seq<Step>)
    requires PairsOrdered(ahead + ([approval] + behind)) && NoApproval(ahead) && approval.kind.Approval?
    ensures PairsOrdered(ahead) && PairsOrdered(behind)
    ensures forall s :: s in ahead ==> !ApprovalOrLater(s.kind)
    ensures forall s :: s in behind ==> !s.kind.Draft?
  {
    var all, n := ahead + ([approval] + behind), |ahead|;
    forall i, j | 0 <= i < j < n ensures PairOrdered(ahead[i], ahead[j]) {
      assert PairOrdered(all[i], all[j]);
    }
    forall i, j | 0 <= i < j < |behind| ensures PairOrdered(behind[i], behind[j]) {
      assert PairOrdered(all[n + 1 + i], all[n + 1 + j]);
    }
    forall i | 0 <= i < n ensures !ApprovalOrLater(ahead[i].kind) {
      assert PairOrdered(all[i], all[n]);
    }
    forall i | 0 <= i < |behind| ensures !behind[i].kind.Draft? {
      assert PairOrdered(all[n], all[n + 1 + i]);
    }
  }

  lemma {:induction false} ReorderedIsShaped(steps: seq<Step>, builtin: bool)
    requires PairsOrdered(steps)
    requires FirstApproval(steps) == |steps| ==> NoLateCounterparty(steps)
    ensures LifecycleShaped(Reordered(steps), builtin)
  {
    if FirstApproval(steps) < |steps| {
      var ahead, approval, behind := CutAtApproval(steps);
      var late := Counterparties(behind);
      ReorderedParts(ahead, approval, behind);
      PairsAroundApproval(ahead, approval, behind);
      WithoutStaysOrdered(ahead, late);
      WithoutMembers(ahead, late);
      NonCounterpartiesStayOrdered(behind);
      NonCounterpartyMembers(behind);
      MovedKinds(behind);
      PartsAreShaped(Without(ahead, late), Sequential(late), approval, NonCounterparties(behind), builtin);
    } else {
      PairsAreShaped(steps, builtin);
    }
  }

  lemma {:induction false} PairsAreShaped(steps: seq<Step>, builtin: bool)
    requires PairsOrdered(steps) && NoLateCounterparty(steps)
    ensures LifecycleShaped(steps, builtin)
  {
  }

  /** The class of a position in a list made of the four parts. */
  lemma {:induction false} PartOf(ahead: seq<Step>, moved: seq<Step>, approval: Step, behind: seq<Step>, i: nat)
    requires i < |ahead| + |moved| + 1 + |behind|
    ensures var st, m := (ahead + moved + ([approval] + behind))[i], |ahead| + |moved|;
            && (i < |ahead| ==> st == ahead[i] && st in ahead)
            && (|ahead| <= i < m ==> st in moved)
            && (i == m ==> st == approval)
            && (i > m ==> st == behind[i - m - 1] && st in behind)
  {
  }

  lemma {:induction false} PartsAreShaped(ahead: seq<Step>, moved: seq<Step>, approval: Step, behind: seq<Step>,
      builtin: bool)
    requires PairsOrdered(ahead) && PairsOrdered(behind) && approval.kind.Approval?
    requires forall s :: s in ahead ==> !ApprovalOrLater(s.kind)
    requires forall s :: s in moved ==> s.kind.Counterparty?
    requires forall s :: s in behind ==> !s.kind.Draft? && !s.kind.Counterparty?
    ensures LifecycleShaped(ahead + moved + ([approval] + behind), builtin)
  {
    var all := ahead + moved + ([approval] + behind);
    var m := |ahead| + |moved|;
    forall i, j | 0 <= i < j < |all|
      ensures IsFixed(all[i].kind) && IsFixed(all[j].kind)
              ==> Rank(FixedStage(all[i].kind)) <= Rank(FixedStage(all[j].kind))
      ensures all[i].kind.Counterparty? ==> !all[j].kind.Draft?
      ensures ApprovalOrLater(all[i].kind) ==> !all[j].kind.Counterparty?
      ensures all[i].kind.Signature? ==> !all[j].kind.Signature?
    {
      PartOf(ahead, moved, approval, behind, i);
      PartOf(ahead, moved, approval, behind, j);
      if j < |ahead| {
        assert PairOrdered(ahead[i], ahead[j]);
      } else if i > m {
        assert PairOrdered(behind[i - m - 1], behind[j - m - 1]);
      }
    }
  }

  lemma {:induction false} ReorderedNoneKept(steps: seq<Step>)
    requires NoneKept(steps)
    ensures NoneKept(Reordered(steps))
  {
    if FirstApproval(steps) < |steps| {
      var ahead, approval, behind := CutAtApproval(steps);
      var late := Counterparties(behind);
      var n := |ahead|;
      ReorderedParts(ahead, approval, behind);
      forall i | 0 <= i < |behind| ensures !Keeps(behind[i]) {
        assert behind[i] == steps[n + 1 + i];
      }
      assert forall i :: 0 <= i < n ==> ahead[i] == steps[i];
      assert approval == steps[n];
      WithoutMembers(ahead, late);
      NonCounterpartyMembers(behind);
      MovedKinds(behind);
      var r := Reordered(steps);
      forall i | 0 <= i < |r| ensures !Keeps(r[i]) {
        PartOf(Without(ahead, late), Sequential(late), approval, NonCounterparties(behind), i);
      }
    }
  }

  /** Reordering and then inferring follows the lifecycle order: for every workflow that keeps no
      saved stage and whose fixed steps are drafts, then approvals, then at most one signature, with no
      counterparty step ahead of a draft, and, when there is no approval to move them in front of,
      none behind the signature that does not run in parallel. */
  lemma {:induction false} UpgradeFollowsLifecycle(steps: seq<Step>, builtin: bool)
    requires NoneKept(steps) && PairsOrdered(steps)
    requires FirstApproval(steps) == |steps| ==> NoLateCounterparty(steps)
    ensures Monotone(Inferred(Reordered(steps), builtin))
  {
    ReorderedNoneKept(steps);
    ReorderedIsShaped(steps, builtin);
    MonotoneIffShaped(Reordered(steps), builtin);
  }

  /** One row of the upgrade: saved workflows are reordered first, runs are only labelled. */
  method Upgrade(steps: seq<Step>, isWorkflow: bool, builtin: bool) returns (r: seq<Step>)
    ensures var given := if isWorkflow then Reordered(steps) else steps;
            r == Labelled(given, Inferred(given, isWorkflow && builtin))
  {
    var given := steps;
    if isWorkflow {
      given := NegotiationBeforeApproval(steps);
    }
    var row := new Step[|given|](i requires 0 <= i < |given| => given[i]);
    assert row[..] == given;
    Infer(row, isWorkflow && builtin);
    r := row[..];
  }
}
