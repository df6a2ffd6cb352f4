/** The messages sent to the model over one assistant turn: the replayed history, the tool rounds,
    and any number of pauses for a confirmation and resumptions after it. */
module Transcript {
  import opened Options
  import opened History

  datatype Outcome = Returned | Failed | NeedsConfirmation

  /** A tool use the model asks for; `outcome` is what executing it will do. */
  datatype ToolUse = ToolUse(id: string, outcome: Outcome)

  datatype Message =
    | Said(turn: Turn)                     // replayed text, or the user's new prompt
    | ToolRequest(uses: seq<ToolUse>)      // the model's tool uses
    | ToolResults(results: seq<Result>)    // the results sent back, as a user message

  datatype Result = Result(id: string, isError: bool)

  /** How a run of rounds ends. A pause keeps the messages and the use that waits. */
  datatype End = Answered | Paused(messages: seq<Message>, pending: string) | TooManyRounds

  function Speaker(m: Message): Role {
    match m
    case Said(turn) => turn.role
    case ToolRequest(_) => Assistant
    case ToolResults(_) => User
  }

  function UseIds(uses: seq<ToolUse>): seq<string> {
    seq(|uses|, i requires 0 <= i < |uses| => uses[i].id)
  }

  function ResultIds(results: seq<Result>): seq<string> {
    seq(|results|, i requires 0 <= i < |results| => results[i].id)
  }

  /** Starts with the user and strictly alternates. */
  predicate Alternates(messages: seq<Message>) {
    && messages != [] && Speaker(messages[0]) == User
    && (forall i :: 0 <= i < |messages| ==> Speaker(messages[i]) != Hidden)
    && (forall i :: 0 < i < |messages| ==> Speaker(messages[i]) != Speaker(messages[i - 1]))
  }

  /** What the provider accepts: it also ends with the user. */
  predicate Sendable(messages: seq<Message>) {
    Alternates(messages) && Speaker(messages[|messages| - 1]) == User
  }

  /** The answer to the tool request at index `i`: every use once and in order, or, when the round
      paused there, the one use that waited. */
  predicate AnswersRequest(messages: seq<Message>, pauses: set<nat>, i: nat)
    requires i + 1 < |messages|
  {
    messages[i].ToolRequest? ==>
      && messages[i + 1].ToolResults?
      && (i !in pauses ==> ResultIds(messages[i + 1].results) == UseIds(messages[i].uses))
      && (i in pauses ==> |messages[i + 1].results| == 1
                          && messages[i + 1].results[0].id in UseIds(messages[i].uses))
  }

  ghost predicate AllAnswered(messages: seq<Message>, pauses: set<nat>) {
    forall i :: 0 <= i < |messages| - 1 ==> AnswersRequest(messages, pauses, i)
  }

  /** A transcript the model may be called with. */
  ghost predicate Proper(messages: seq<Message>, pauses: set<nat>) {
    Sendable(messages) && AllAnswered(messages, pauses) && forall i :: i in pauses ==> i < |messages| - 1
  }

  /** A saved pause: the last message asks for tools, and the waiting use is one of them. */
  ghost predicate ProperPause(end: End, pauses: set<nat>) {
    end.Paused? ==>
      var n := |end.messages| - 1;
      && n >= 0 && Alternates(end.messages) && AllAnswered(end.messages, pauses)
      && end.messages[n].ToolRequest? && end.pending in UseIds(end.messages[n].uses)
      && forall i :: i in pauses ==> i < n
  }

  lemma {:induction false} ProperAfterRound(messages: seq<Message>, pauses: set<nat>, request: Message,
      results: Message)
    requires Proper(messages, pauses) && request.ToolRequest? && results.ToolResults?
    requires ResultIds(results.results) == UseIds(request.uses)
    ensures Proper(messages + [request, results], pauses)
  {
    var longer := messages + [request, results];
    forall i | 0 <= i < |longer| - 1 ensures AnswersRequest(longer, pauses, i) {
      assert i < |messages| - 1 ==> AnswersRequest(messages, pauses, i);
    }
  }

  lemma {:induction false} ProperPauseHere(messages: seq<Message>, pauses: set<nat>, request: Message, pending: string)
    requires Proper(messages, pauses) && request.ToolRequest? && pending in UseIds(request.uses)
    ensures ProperPause(Paused(messages + [request], pending), pauses)
  {
    var longer := messages + [request];
    forall i | 0 <= i < |longer| - 1 ensures AnswersRequest(longer, pauses, i) {
      assert i < |messages| - 1 ==> AnswersRequest(messages, pauses, i);
    }
  }

  lemma {:induction false} ProperAfterResume(end: End, pauses: set<nat>, result: Result)
    requires end.Paused? && ProperPause(end, pauses) && result.id == end.pending
    ensures Proper(end.messages + [ToolResults([result])], pauses + {|end.messages| - 1})
  {
    var n := |end.messages| - 1;
    var longer, more := end.messages + [ToolResults([result])], pauses + {n};
    forall i | 0 <= i < |longer| - 1 ensures AnswersRequest(longer, more, i) {
      assert i < n ==> AnswersRequest(end.messages, pauses, i);
    }
  }

  // ---- the loops ----

  function Answers(uses: seq<ToolUse>): seq<Result> {
    seq(|uses|, i requires 0 <= i < |uses| => Result(uses[i].id, uses[i].outcome == Failed))
  }

  /** The answer to a use has its id, and is an error exactly when the use failed. */
  lemma {:induction false} AnswerOf(uses: seq<ToolUse>, k: nat)
    requires k < |uses|
    ensures |Answers(uses)| == |uses| && Answers(uses)[k].id == uses[k].id
    ensures Answers(uses)[k].isError <==> uses[k].outcome.Failed?
  {
  }

  /** `pending` is the first use that needs a confirmation. */
  ghost predicate FirstPause(uses: seq<ToolUse>, pending: string) {
    exists k :: 0 <= k < |uses| && uses[k].id == pending && uses[k].outcome == NeedsConfirmation
                && forall i :: 0 <= i < k ==> uses[i].outcome != NeedsConfirmation
  }

  predicate NoPause(uses: seq<ToolUse>) {
    forall i :: 0 <= i < |uses| ==> uses[i].outcome != NeedsConfirmation
  }

  /** The tool loop of one response: a result for each use in order, up to the first one that
      needs a confirmation. */
  method RunTools(uses: seq<ToolUse>) returns (results: seq<Result>, pending: Option<string>)
    ensures pending == None ==> NoPause(uses) && results == Answers(uses)
    ensures pending == None ==> |results| == |uses| && forall u :: u in uses ==> !u.outcome.NeedsConfirmation?
    ensures pending == None ==> forall k :: 0 <= k < |uses| ==>
              results[k].id == uses[k].id && (results[k].isError <==> uses[k].outcome.Failed?)
    ensures pending.Some? ==> FirstPause(uses, pending.value)
    ensures pending.Some? ==> exists k :: 0 <= k < |uses| && uses[k].id == pending.value
                                && uses[k].outcome.NeedsConfirmation?
                                && forall i :: 0 <= i < k ==> !uses[i].outcome.NeedsConfirmation?
  {
    results := [];
    for k := 0 to |uses|
      invariant results == Answers(uses[..k]) && NoPause(uses[..k])
    {
      assert forall i :: 0 <= i < k ==> uses[..k][i] == uses[i];
      if uses[k].outcome == NeedsConfirmation {
        return results, Some(uses[k].id);
      }
      results := results + [Result(uses[k].id, uses[k].outcome == Failed)];
    }
    assert uses[..|uses|] == uses;
    pending := None;
  }

  type Model = seq<Message> -> seq<ToolUse>

  /** A later transcript of the same run: the model's request and its results more. */
  predicate GrowsByRound(model: Model, earlier: seq<Message>, later: seq<Message>) {
    && model(earlier) != [] && NoPause(model(earlier))
    && later == earlier + [ToolRequest(model(earlier)), ToolResults(Answers(model(earlier)))]
  }

  /** How the rounds end after their last call. */
  ghost predicate EndsAfter(model: Model, last: seq<Message>, end: End) {
    match end
    case Answered => model(last) == []
    case Paused(messages, pending) => messages == last + [ToolRequest(model(last))] && FirstPause(model(last), pending)
    case TooManyRounds => model(last) != [] && NoPause(model(last))
  }

  /** The rounds of one run: call the model, stop when it asks for nothing, else run the tools and
      send their results back. `sent` lists the transcript of every call. */
  method Rounds(messages0: seq<Message>, model: Model, maxIterations: nat, ghost pauses: set<nat>)
    returns (end: End, sent: seq<seq<Message>>)
    requires Proper(messages0, pauses)
    ensures forall t :: t in sent ==> Proper(t, pauses)
    ensures ProperPause(end, pauses)
    ensures |sent| <= maxIterations && (end.TooManyRounds? ==> |sent| == maxIterations)
    ensures sent == [] ==> end.TooManyRounds?
    ensures maxIterations > 0 ==> sent != [] && sent[0] == messages0 && EndsAfter(model, sent[|sent| - 1], end)
    ensures forall k :: 0 < k < |sent| ==> GrowsByRound(model, sent[k - 1], sent[k])
  {
    var messages := messages0;
    sent := [];
    for iteration := 0 to maxIterations
      invariant Proper(messages, pauses)
      invariant forall t :: t in sent ==> Proper(t, pauses)
      invariant |sent| == iteration
      invariant if iteration == 0 then messages == messages0
                else sent[0] == messages0 && GrowsByRound(model, sent[iteration - 1], messages)
      invariant forall k :: 0 < k < |sent| ==> GrowsByRound(model, sent[k - 1], sent[k])
    {
      sent := sent + [messages];
      var uses := model(messages);
      if uses == [] {
        return Answered, sent;
      }
      var results, pending := RunTools(uses);
      if pending.Some? {
        PauseIsProper(messages, pauses, uses, pending.value);
        return Paused(messages + [ToolRequest(uses)], pending.value), sent;
      }
      RoundIsProper(messages, pauses, uses);
      messages := messages + [ToolRequest(uses), ToolResults(results)];
    }
    end := TooManyRounds;
  }

  lemma {:induction false} RoundIsProper(messages: seq<Message>, pauses: set<nat>, uses: seq<ToolUse>)
    requires Proper(messages, pauses)
    ensures Proper(messages + [ToolRequest(uses), ToolResults(Answers(uses))], pauses)
  {
    ProperAfterRound(messages, pauses, ToolRequest(uses), ToolResults(Answers(uses)));
  }

  lemma {:induction false} PauseIsProper(messages: seq<Message>, pauses: set<nat>, uses: seq<ToolUse>, pending: string)
    requires Proper(messages, pauses) && FirstPause(uses, pending)
    ensures ProperPause(Paused(messages + [ToolRequest(uses)], pending), pauses)
  {
    var k :| 0 <= k < |uses| && uses[k].id == pending;
    assert UseIds(uses)[k] == pending;
    ProperPauseHere(messages, pauses, ToolRequest(uses), pending);
  }

  function Replay(turns: seq<Turn>): seq<Message> {
    seq(|turns|, i requires 0 <= i < |turns| => Said(turns[i]))
  }

  method StreamAssistantRun(rows: seq<Row>, exclude: nat, maxMessages: nat, maxChars: nat, prompt: string,
                            model: Model, maxIterations: nat)
    returns (end: End, sent: seq<seq<Message>>, history: seq<Turn>)
    ensures IsWindow(Candidates(rows, exclude, maxMessages), history, maxMessages, maxChars)
    ensures sent != [] ==>
              && sent[0] == Replay(history) + [Said(Turn(User, prompt))]
              && EndsAfter(model, sent[|sent| - 1], end)
    ensures forall k :: 0 < k < |sent| ==> GrowsByRound(model, sent[k - 1], sent[k])
    ensures sent == [] ==> end.TooManyRounds?
    ensures forall t :: t in sent ==> Proper(t, {})
    ensures ProperPause(end, {})
  {
    history := LoadSessionHistory(rows, exclude, maxMessages, maxChars);
    ReplayIsProper(history, prompt);
    end, sent := Rounds(Replay(history) + [Said(Turn(User, prompt))], model, maxIterations, {});
  }

  lemma {:induction false} ReplayIsProper(history: seq<Turn>, prompt: string)
    requires Replayable(history)
    ensures Proper(Replay(history) + [Said(Turn(User, prompt))], {})
  {
  }

  /** Resuming from a saved pause: the result of the confirmed tool, then more rounds. */
  method ResumeAssistantRun(saved: End, model: Model, maxIterations: nat,
                            ghost pauses: set<nat>)
    returns (end: End, sent: seq<seq<Message>>, ghost more: set<nat>)
    requires saved.Paused? && ProperPause(saved, pauses)
    ensures more == pauses + {|saved.messages| - 1}
    ensures sent != [] ==>
              && sent[0] == saved.messages + [ToolResults([Result(saved.pending, false)])]
              && EndsAfter(model, sent[|sent| - 1], end)
    ensures forall k :: 0 < k < |sent| ==> GrowsByRound(model, sent[k - 1], sent[k])
    ensures sent == [] ==> end.TooManyRounds?
    ensures forall t :: t in sent ==> Proper(t, more)
    ensures ProperPause(end, more)
  {
    var result := Result(saved.pending, false);
    ProperAfterResume(saved, pauses, result);
    more := pauses + {|saved.messages| - 1};
    end, sent := Rounds(saved.messages + [ToolResults([result])], model, maxIterations, more);
  }

  /** The next call of a turn: another round of the same run, or the first call after the confirmation
      that the round was waiting for. */
  ghost predicate Continues(model: Model, earlier: seq<Message>, paused: set<nat>, later: seq<Message>,
      more: set<nat>) {
    || (more == paused && GrowsByRound(model, earlier, later))
    || (more == paused + {|earlier|} && exists pending ::
          FirstPause(model(earlier), pending) && later == Confirmed(model, earlier, pending))
  }

  function Confirmed(model: Model, earlier: seq<Message>, pending: string): seq<Message> {
    earlier + [ToolRequest(model(earlier)), ToolResults([Result(pending, false)])]
  }

  /** The calls of a turn, with the rounds of each that were paused. */
  ghost predicate IsTurn(model: Model, calls: seq<seq<Message>>, paused: seq<set<nat>>, confirmations: nat) {
    && |paused| == |calls|
    && (forall k :: 0 <= k < |calls| ==> Proper(calls[k], paused[k]) && |paused[k]| <= confirmations)
    && (calls != [] ==> paused[0] == {})
    && (forall k :: 0 < k < |calls| ==> Continues(model, calls[k - 1], paused[k - 1], calls[k], paused[k]))
  }

  /** The calls of one run go behind those of the turn so far. */
  lemma {:induction false} TurnGoesOn(model: Model, calls: seq<seq<Message>>, paused: seq<set<nat>>,
      sent: seq<seq<Message>>, more: set<nat>, confirmations: nat)
    requires IsTurn(model, calls, paused, confirmations) && |more| <= confirmations
    requires forall t :: t in sent ==> Proper(t, more)
    requires forall k :: 0 < k < |sent| ==> GrowsByRound(model, sent[k - 1], sent[k])
    requires sent != [] ==>
               if calls == [] then more == {}
               else Continues(model, calls[|calls| - 1], paused[|calls| - 1], sent[0], more)
    ensures IsTurn(model, calls + sent, paused + seq(|sent|, _ => more), confirmations)
  {
    var n, longer, sets := |calls|, calls + sent, paused + seq(|sent|, _ => more);
    forall k | 0 < k < |longer| ensures Continues(model, longer[k - 1], sets[k - 1], longer[k], sets[k]) {
      if k > n {
        assert GrowsByRound(model, sent[k - 1 - n], sent[k - n]);
      }
    }
  }

  /** Where a turn stands: its calls so far, and, when it is paused, the pause that the last one led to. */
  ghost predicate Stands(model: Model, calls: seq<seq<Message>>, paused: seq<set<nat>>, end: End, pauses: set<nat>) {
    && ProperPause(end, pauses) && IsTurn(model, calls, paused, |pauses|)
    && (end.Paused? ==>
          calls != [] && EndsAfter(model, calls[|calls| - 1], end) && paused[|calls| - 1] == pauses)
  }

  /** One more resumption of a turn. */
  method ResumeTurn(saved: End, model: Model, maxIterations: nat, calls: seq<seq<Message>>,
                    ghost paused: seq<set<nat>>, ghost pauses: set<nat>)
    returns (end: End, longer: seq<seq<Message>>, ghost sets: seq<set<nat>>, ghost more: set<nat>)
    requires saved.Paused? && Stands(model, calls, paused, saved, pauses)
    ensures Stands(model, longer, sets, end, more)
    ensures |more| == |pauses| + 1 && calls <= longer
  {
    var sent;
    ghost var last := calls[|calls| - 1];
    end, sent, more := ResumeAssistantRun(saved, model, maxIterations, pauses);
    if sent != [] {
      assert sent[0] == Confirmed(model, last, saved.pending);
      assert Continues(model, last, pauses, sent[0], more);
    }
    TurnGoesOn(model, calls, paused, sent, more, |more|);
    longer, sets := calls + sent, paused + seq(|sent|, _ => more);
  }

  /** A whole turn: the first run and then one resumption for each confirmation the user gives. Every
      call, first or resumed, is proper, with at most one paused round for each confirmation; and it goes on
      from the call before it. */
  method AssistantTurn(rows: seq<Row>, exclude: nat, maxMessages: nat, maxChars: nat, prompt: string,
                       model: Model, maxIterations: nat, confirmations: nat)
    returns (calls: seq<seq<Message>>, history: seq<Turn>, ghost paused: seq<set<nat>>)
    ensures IsTurn(model, calls, paused, confirmations)
    ensures IsWindow(Candidates(rows, exclude, maxMessages), history, maxMessages, maxChars)
    ensures calls != [] ==> calls[0] == Replay(history) + [Said(Turn(User, prompt))]
  {
    var end;
    ghost var pauses: set<nat> := {};
    end, calls, history := StreamAssistantRun(rows, exclude, maxMessages, maxChars, prompt, model, maxIterations);
    paused := seq(|calls|, _ => {});
    var left := confirmations;
    while left > 0 && end.Paused?
      invariant |pauses| + left == confirmations && Stands(model, calls, paused, end, pauses)
      invariant calls != [] ==> calls[0] == Replay(history) + [Said(Turn(User, prompt))]
    {
      end, calls, paused, pauses := ResumeTurn(end, model, maxIterations, calls, paused, pauses);
      left := left - 1;
    }
  }
}
