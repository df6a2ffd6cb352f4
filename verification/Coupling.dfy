/** When the coupling of confirmations, calls and runs is kept over an interleaving, and what becomes of
    confirmed calls and waiting runs when it is not. */
module Coupling {
  import opened Options
  import opened Confirmations
  import opened Interleavings

  // ---- the coupling of the three state machines ----

  /** Whoever read the run as waiting for a pending confirmation is still right while it is pending. */
  predicate TaskCoupled(db: Db, task: Task) {
    task.Mark? && task.waiting == Some(true) && task.id in db.confs && db.confs[task.id].status == Pending
    ==> db.confs[task.id].run in db.runs && db.runs[db.confs[task.id].run].status == Waiting
  }

  ghost predicate CoupledWorld(w: World) {
    Invariant(w.db) && TasksFit(w) && forall t :: t in w.tasks ==> TaskCoupled(w.db, w.tasks[t])
  }

  lemma {:induction false} StartIsCoupled()
    ensures CoupledWorld(START)
  {
    EmptyIsCoupled();
  }

  /** The worker has committed a confirmation, still pending, and has not yet let its run wait. */
  predicate AsksPending(db: Db, run: nat) {
    IsAsking(db, run) && db.runs[run].worker.confirmation in db.confs
    && db.confs[db.runs[run].worker.confirmation].status == Pending
  }

  /** The request names the confirmation the run waits for, or none, and it has been confirmed. */
  predicate ClaimIsDue(db: Db, run: nat, named: Option<nat>) {
    run in db.runs && db.runs[run].waitsFor.Some?
    && (named.Some? ==> named == db.runs[run].waitsFor)
    && db.runs[run].waitsFor.value in db.confs && db.confs[db.runs[run].waitsFor.value].status == Confirmed
  }

  /** A confirmation is written while it is pending, and against it only with the run read as waiting; or a
      sweep, which comes late, expires again what has expired and leaves the run alone. */
  predicate WriteIsOrderly(db: Db, task: Task) {
    match task
    case Mark(id, outcome, _, _, waiting) =>
      id in db.confs
      && (if db.confs[id].status == Pending then outcome == Confirmed || waiting == Some(true)
          else db.confs[id].status == Expired && waiting == Some(false))
    case Visit(_, _) => false
  }

  /** The steps that keep the coupling. */
  ghost predicate Orderly(w: World, s: Step) {
    match s
    case AskStep(run, prior, _, _) => Working(w.db, run) ==> !(prior.Some? && CanReuse(w.db, run, prior.value))
    case FinishStep(run, how) => IsOver(how) ==> !AsksPending(w.db, run)
    case DieStep(run) => !AsksPending(w.db, run)
    case ClaimStep(run, named) =>
      run in w.db.runs && w.db.runs[run].status == Waiting ==> ClaimIsDue(w.db, run, named)
    case WriteStep(t) => Ready(w, t) ==> WriteIsOrderly(w.db, w.tasks[t])
    case _ => true
  }

  /** A run changes its record: its pending confirmations, its closing and its own clauses have to fit. */
  lemma {:induction false} RunKeepsIff(db: Db, run: nat, changed: Run)
    requires Invariant(db) && RunFits(db, run, changed)
    requires Answered(db, run) ==> changed.status == Cancelled && changed.worker == Nobody
    ensures var after := db.(runs := db.runs[run := changed]);
            Invariant(after) <==>
              && RunCoupled(after, run)
              && (forall c :: c in db.confs && db.confs[c].run == run && db.confs[c].status == Pending ==>
                    (changed.status == Waiting && changed.waitsFor == Some(c)) || changed.worker == Asking(c))
  {
    var after := db.(runs := db.runs[run := changed]);
    RunSoundIff(db, run, changed);
    forall c | c in db.confs
      ensures Joined(db, c) && Joined(after, c) && ConfirmationCoupled(db, c)
      ensures db.confs[c].status == Pending && db.confs[c].run == run ==>
                (IsAwaited(after, c) <==>
                   (changed.status == Waiting && changed.waitsFor == Some(c)) || changed.worker == Asking(c))
      ensures db.confs[c].status != Pending || db.confs[c].run != run ==> ConfirmationCoupled(after, c)
    {
    }
    forall r | r in after.runs && r != run ensures RunCoupled(after, r) {
      assert RunCoupled(db, r);
    }
  }

  /** In a coupled state an answered run has no worker and does not wait, so its record stays as it is. */
  lemma {:induction false} AnsweredIsDone(db: Db, run: nat)
    requires Invariant(db) && Answered(db, run)
    ensures run in db.runs && db.runs[run].status == Cancelled && db.runs[run].worker == Nobody
    ensures forall c :: c in db.confs && db.confs[c].run == run ==> db.confs[c].status != Pending
  {
    AnsweredIsCancelled(db, run);
    assert RunCoupled(db, run);
    forall c | c in db.confs && db.confs[c].run == run ensures db.confs[c].status != Pending {
      assert ConfirmationCoupled(db, c);
    }
  }

  /** A run has at most one pending confirmation, the one it awaits. */
  lemma {:induction false} PendingIsAwaited(db: Db, run: nat)
    requires Invariant(db) && run in db.runs
    ensures forall c :: c in db.confs && db.confs[c].run == run && db.confs[c].status == Pending ==>
              (db.runs[run].status == Waiting && db.runs[run].waitsFor == Some(c)) || db.runs[run].worker == Asking(c)
  {
    forall c | c in db.confs && db.confs[c].run == run && db.confs[c].status == Pending
      ensures (db.runs[run].status == Waiting && db.runs[run].waitsFor == Some(c)) || db.runs[run].worker == Asking(c)
    {
      assert ConfirmationCoupled(db, c);
    }
  }

  lemma {:induction false} RunStepKeepsIff(w: World, s: Step)
    requires Invariant(w.db) && IsRunStep(s)
    ensures Invariant(Moved(w.db, s)) <==> Orderly(w, s)
  {
    var db, after := w.db, Moved(w.db, s);
    if after != db {
      RunStepChanges(db, s);
      var run, changed := s.run, after.runs[s.run];
      if Answered(db, run) {
        AnsweredIsDone(db, run);
        assert false;
      }
      PendingIsAwaited(db, run);
      assert RunCoupled(db, run);
      RunKeepsIff(db, run, changed);
    }
  }

  lemma {:induction false} StartKeeps(db: Db, org: nat, session: nat)
    requires Invariant(db)
    ensures Invariant(StartRun(db, org, session))
  {
    var after := StartRun(db, org, session);
    StartIsBasic(db, org, session);
    if Answered(db, db.next) {
      AnsweredIsCancelled(db, db.next);
    }
    forall c | c in after.confs ensures ConfirmationCoupled(after, c) {
      assert Joined(db, c) && ConfirmationCoupled(db, c);
    }
    forall r | r in after.runs ensures RunCoupled(after, r) {
      assert r in db.runs ==> RunCoupled(db, r);
    }
  }

  /** Asking keeps the coupling exactly when the worker does not get an earlier confirmation back: a coupled
      run at work has no pending confirmation of its own, so that one is another run's. */
  lemma {:induction false} AskKeepsIff(db: Db, run: nat, prior: Option<nat>, requester: nat, now: int)
    requires Invariant(db) && Working(db, run)
    ensures Invariant(Ask(db, run, prior, requester, now)) <==> !(prior.Some? && CanReuse(db, run, prior.value))
    ensures prior.Some? && CanReuse(db, run, prior.value) ==> db.confs[prior.value].run != run
  {
    PendingIsAwaited(db, run);
    if prior.Some? && CanReuse(db, run, prior.value) {
      assert ConfirmationCoupled(db, prior.value);
      assert !RunCoupled(Ask(db, run, prior, requester, now), run);
    } else {
      AskAnewKeeps(db, run, requester, now);
    }
  }

  lemma {:induction false} AskAnewKeeps(db: Db, run: nat, requester: nat, now: int)
    requires Invariant(db) && Working(db, run)
    ensures Invariant(AskAnew(db, run, requester, now))
  {
    var after := AskAnew(db, run, requester, now);
    AskIsSound(db, run, None, requester, now);
    PendingIsAwaited(db, run);
    forall c | c in after.confs ensures ConfirmationCoupled(after, c) {
      assert c in db.confs ==> Joined(db, c) && ConfirmationCoupled(db, c);
    }
    AskedRuns(db, run, requester, now);
  }

  lemma {:induction false} AskedRuns(db: Db, run: nat, requester: nat, now: int)
    requires Invariant(db) && Working(db, run)
    ensures forall r :: r in AskAnew(db, run, requester, now).runs ==> RunCoupled(AskAnew(db, run, requester, now), r)
  {
    var after := AskAnew(db, run, requester, now);
    forall r | r in after.runs ensures RunCoupled(after, r) {
      assert RunCoupled(db, r);
    }
  }

  /** Carrying out keeps it, whether the action works or not. */
  lemma {:induction false} CarryOutKeeps(db: Db, run: nat, outcome: Outcome)
    requires Invariant(db)
    ensures Invariant(CarryOut(db, run, outcome))
  {
    if IsResuming(db, run) {
      var id := db.runs[run].task.value;
      assert RunCoupled(db, run) && Joined(db, id);
      PendingIsAwaited(db, run);
      if outcome == Worked {
        RunKeepsIff(db, run, db.runs[run].(task := None));
        CalledKeeps(db.(runs := db.runs[run := db.runs[run].(task := None)]), id, CallSucceeded,
                    db.executed + [db.confs[id].call]);
      } else {
        LeavingKeeps(db, run);
        if outcome == BrokeMidway {
          CalledKeeps(Leave(db, run, RunFailed), id, CallRunning, db.executed);
        }
      }
    }
  }

  lemma {:induction false} LeavingKeeps(db: Db, run: nat)
    requires Invariant(db) && IsResuming(db, run)
    ensures Invariant(Leave(db, run, RunFailed))
  {
    assert RunCoupled(db, run);
    PendingIsAwaited(db, run);
    RunKeepsIff(db, run, Leave(db, run, RunFailed).runs[run]);
  }

  /** A confirmed call that no run waits for any more moves on. */
  lemma {:induction false} CalledKeeps(db: Db, id: nat, status: CallStatus, executed: seq<nat>)
    requires Invariant(db) && id in db.confs && db.confs[id].status == Confirmed
    requires status in {CallRunning, CallSucceeded}
    requires db.confs[id].call in db.calls && db.calls[db.confs[id].call].status == CallConfirmed
    requires executed == if status == CallSucceeded then db.executed + [db.confs[id].call] else db.executed
    requires db.confs[id].run in db.runs
    requires var r := db.runs[db.confs[id].run]; r.status != Waiting && !r.worker.Asking? && r.task == None
    ensures Invariant(SetCall(db, db.confs[id].call, status).(executed := executed))
  {
    var after := SetCall(db, db.confs[id].call, status).(executed := executed);
    CallIsSound(db, id, status, executed);
    OwnCalls(db, id);
    forall c | c in after.confs ensures ConfirmationCoupled(after, c) {
      assert ConfirmationCoupled(db, c);
    }
    forall r | r in after.runs ensures RunCoupled(after, r) {
      assert RunCoupled(db, r);
    }
  }

  // ---- the writes ----

  /** A pending confirmation is confirmed. */
  lemma {:induction false} ConfirmKeeps(db: Db, id: nat)
    requires Invariant(db) && id in db.confs && db.confs[id].status == Pending
    ensures Invariant(Confirm(db, id)) && DecisionsStand(db, Confirm(db, id))
  {
    var after := Confirm(db, id);
    MarkIsSound(db, Mark(id, Confirmed, true, Some(true), Some(true)));
    assert after == Marked(db, id, Confirmed, Some(true));
    MarkedChanges(db, id, Confirmed, Some(true));
    ConfirmedConfirmations(db, id);
    ConfirmedRuns(db, id);
  }

  lemma {:induction false} ConfirmedConfirmations(db: Db, id: nat)
    requires Invariant(db) && id in db.confs && db.confs[id].status == Pending
    ensures var after := Confirm(db, id);
            forall c :: c in after.confs ==> Joined(after, c) ==> ConfirmationCoupled(after, c)
  {
    var after := Confirm(db, id);
    forall c | c in after.confs && Joined(after, c) ensures ConfirmationCoupled(after, c) {
      assert ConfirmationCoupled(db, c);
    }
  }

  lemma {:induction false} ConfirmedRuns(db: Db, id: nat)
    requires Invariant(db) && id in db.confs && db.confs[id].status == Pending
    ensures forall r :: r in Confirm(db, id).runs ==> RunCoupled(Confirm(db, id), r)
  {
    var after := Confirm(db, id);
    assert Joined(db, id) && after == Marked(db, id, Confirmed, Some(true));
    MarkedChanges(db, id, Confirmed, Some(true));
    OwnCalls(db, id);
    forall r | r in after.runs ensures RunCoupled(after, r) {
      assert RunCoupled(db, r);
    }
  }

  /** Decided against, a pending confirmation takes its waiting run with it. */
  lemma {:induction false} EndedTogether(db: Db, id: nat, outcome: Status)
    requires Invariant(db) && id in db.confs && db.confs[id].status == Pending && DecidedAgainst(outcome)
    requires db.confs[id].run in db.runs && db.runs[db.confs[id].run].status == Waiting
    ensures Invariant(Ended(db, id, outcome)) && DecisionsStand(db, Ended(db, id, outcome))
  {
    var task := Mark(id, outcome, true, Some(true), Some(true));
    if Answered(db, db.confs[id].run) {
      AnsweredIsDone(db, db.confs[id].run);
      assert false;
    }
    WriteSoundIff(db, task);
    assert Ended(db, id, outcome) == Written(db, task);
    EndedConfirmations(db, id, outcome);
    EndedRuns(db, id, outcome);
  }

  function Ended(db: Db, id: nat, outcome: Status): Db
    requires id in db.confs && db.confs[id].run in db.runs
  {
    Answer(Marked(db, id, outcome, Some(true)), Reply(db.confs[id].run, id, outcome))
  }

  lemma {:induction false} EndedChanges(db: Db, id: nat, outcome: Status)
    requires Invariant(db) && id in db.confs && DecidedAgainst(outcome)
    requires db.confs[id].run in db.runs && db.runs[db.confs[id].run].status == Waiting
    ensures var after, run := Ended(db, id, outcome), db.confs[id].run;
            && after.confs == db.confs[id := db.confs[id].(status := outcome)]
            && (forall k :: k in db.calls && k != db.confs[id].call ==>
                  k in after.calls && after.calls[k] == db.calls[k])
            && after.runs == db.runs[run := db.runs[run].(status := Cancelled, task := None)]
            && after.replies == db.replies + [Reply(run, id, outcome)] && Answered(after, run)
  {
    assert Joined(db, id);
    MarkedChanges(db, id, outcome, Some(true));
    var after := Ended(db, id, outcome);
    assert after.replies[|db.replies|].run == db.confs[id].run;
  }

  lemma {:induction false} EndedConfirmations(db: Db, id: nat, outcome: Status)
    requires Invariant(db) && id in db.confs && db.confs[id].status == Pending && DecidedAgainst(outcome)
    requires db.confs[id].run in db.runs && db.runs[db.confs[id].run].status == Waiting
    ensures var after := Ended(db, id, outcome);
            forall c :: c in after.confs ==> Joined(after, c) ==> ConfirmationCoupled(after, c)
  {
    var after := Ended(db, id, outcome);
    EndedChanges(db, id, outcome);
    PendingIsAwaited(db, db.confs[id].run);
    assert ConfirmationCoupled(db, id);
    forall c | c in after.confs && Joined(after, c) ensures ConfirmationCoupled(after, c) {
      assert Joined(db, c) && ConfirmationCoupled(db, c);
      StillAnswered(db, after, db.confs[c].run);
    }
  }

  lemma {:induction false} EndedRuns(db: Db, id: nat, outcome: Status)
    requires Invariant(db) && id in db.confs && db.confs[id].status == Pending && DecidedAgainst(outcome)
    requires db.confs[id].run in db.runs && db.runs[db.confs[id].run].status == Waiting
    ensures var after := Ended(db, id, outcome); forall r :: r in after.runs ==> RunCoupled(after, r)
  {
    var after := Ended(db, id, outcome);
    EndedChanges(db, id, outcome);
    OwnCalls(db, id);
    forall r | r in after.runs ensures RunCoupled(after, r) {
      assert RunCoupled(db, r);
      assert r != db.confs[id].run ==> (Answered(after, r) <==> Answered(db, r)) by {
        StillAnswered(db, after, r);
      }
    }
  }

  lemma {:induction false} StillAnswered(db: Db, after: Db, run: nat)
    requires db.replies <= after.replies
    ensures Answered(db, run) ==> Answered(after, run)
  {
    if Answered(db, run) {
      var i :| 0 <= i < |db.replies| && db.replies[i].run == run;
      assert after.replies[i].run == run;
    }
  }

  /** Rejecting a pending confirmation whose run waits, or expiring it, closes its turn with one message; it
      keeps the coupling exactly then. */
  lemma {:induction false} AgainstKeepsIff(db: Db, id: nat, outcome: Status, waiting: bool)
    requires Invariant(db) && id in db.confs && db.confs[id].status == Pending && DecidedAgainst(outcome)
    requires waiting ==> db.confs[id].run in db.runs && db.runs[db.confs[id].run].status == Waiting
    ensures Invariant(Written(db, Mark(id, outcome, true, Some(true), Some(waiting)))) <==> waiting
  {
    var after := Written(db, Mark(id, outcome, true, Some(true), Some(waiting)));
    var run := db.confs[id].run;
    assert Joined(db, id) && ConfirmationCoupled(db, id);
    MarkedChanges(db, id, outcome, Some(true));
    if waiting {
      EndedTogether(db, id, outcome);
    } else {
      if Answered(db, run) {
        AnsweredIsDone(db, run);
        assert false;
      }
      assert !Answered(after, run);
      assert Joined(after, id) ==> !ConfirmationCoupled(after, id);
    }
  }

  /** Rejecting keeps the coupling exactly when the run waits, and then closes its turn with one message. */
  lemma {:induction false} RejectKeepsIff(db: Db, id: nat)
    requires Invariant(db) && id in db.confs && db.confs[id].status == Pending
    ensures Invariant(Reject(db, id)) <==> StillWaiting(db, db.confs[id])
    ensures StillWaiting(db, db.confs[id]) ==>
              DecisionsStand(db, Reject(db, id)) && ClosedBy(db, Reject(db, id), id, Rejected)
  {
    var waiting := StillWaiting(db, db.confs[id]);
    assert Joined(db, id);
    AgainstKeepsIff(db, id, Rejected, waiting);
    assert Reject(db, id) == Written(db, Mark(id, Rejected, true, Some(true), Some(waiting)));
    if waiting {
      EndedTogether(db, id, Rejected);
    }
  }

  /** And so does expiring. */
  lemma {:induction false} ExpireKeepsIff(db: Db, id: nat)
    requires Invariant(db) && id in db.confs && db.confs[id].status == Pending
    ensures Invariant(Expire(db, id)) <==> StillWaiting(db, db.confs[id])
    ensures StillWaiting(db, db.confs[id]) ==>
              DecisionsStand(db, Expire(db, id)) && ClosedBy(db, Expire(db, id), id, Expired)
  {
    var waiting := StillWaiting(db, db.confs[id]);
    assert Joined(db, id);
    AgainstKeepsIff(db, id, Expired, waiting);
    assert Expire(db, id) == Written(db, Mark(id, Expired, true, Some(true), Some(waiting)));
    if waiting {
      EndedTogether(db, id, Expired);
    }
  }

  /** The confirmation is decided against, its run cancelled, and there is one message more. */
  predicate ClosedBy(db: Db, after: Db, id: nat, outcome: Status) {
    && id in db.confs && id in after.confs && after.confs[id].status == outcome
    && db.confs[id].run in after.runs && after.runs[db.confs[id].run].status == Cancelled
    && after.replies == db.replies + [Reply(db.confs[id].run, id, outcome)]
  }

  /** The write of a transaction that has read what it needs. */
  predicate HasRead(task: Task) {
    if task.Mark? then task.asked.Some? && task.waiting.Some? else task.reply.Some?
  }

  lemma {:induction false} MarkKeepsIff(db: Db, task: Task)
    requires Invariant(db) && task.Mark? && TaskFits(db, task) && TaskCoupled(db, task) && HasRead(task)
    ensures Invariant(Written(db, task)) && DecisionsStand(db, Written(db, task)) <==> WriteIsOrderly(db, task)
  {
    var Mark(id, outcome, locked, asked, waiting) := task;
    assert Joined(db, id);
    WriteSoundIff(db, task);
    if db.confs[id].status == Pending {
      assert asked == Some(true) by {
        assert !asked.value ==> asked == Some(false);
      }
      MarkedChanges(db, id, outcome, asked);
      if outcome == Confirmed {
        ConfirmKeeps(db, id);
        assert Written(db, task) == Confirm(db, id);
      } else {
        assert Written(db, task) == Written(db, Mark(id, outcome, true, Some(true), Some(waiting.value)));
        AgainstKeepsIff(db, id, outcome, waiting.value);
      }
    } else if db.confs[id].status == Expired {
      assert ConfirmationCoupled(db, id);
      if waiting.value {
        assert waiting == Some(true) && Closes(task) && !WriteIsTimely(db, task);
      } else {
        assert waiting == Some(false) && !Closes(task);
        ExpiredTwice(db, id, asked);
      }
    }
  }

  lemma {:induction false} ExpiredTwice(db: Db, id: nat, asked: Option<bool>)
    requires CallsMatch(db) && id in db.confs && db.confs[id].status == Expired
    ensures Marked(db, id, Expired, asked) == db
  {
    var call := db.confs[id].call;
    assert Matches(db.confs[id].status, db.calls[call].status);
    assert db.confs[id := db.confs[id].(status := Expired)] == db.confs;
    assert db.calls[call := db.calls[call].(status := CallFailed)] == db.calls;
  }

  lemma {:induction false} WriteKeepsIff(db: Db, task: Task)
    requires Invariant(db) && TaskFits(db, task) && TaskCoupled(db, task) && HasRead(task)
    ensures Invariant(Written(db, task)) && DecisionsStand(db, Written(db, task)) <==> WriteIsOrderly(db, task)
  {
    if task.Mark? {
      MarkKeepsIff(db, task);
    } else {
      WriteSoundIff(db, task);
      assert ConfirmationCoupled(db, task.reply.value.confirmation);
    }
  }

  /** A waiting run without a worker is moved on by a claim only. */
  lemma {:induction false} WaitsOn(db: Db, s: Step, run: nat)
    requires run in db.runs && run < db.next && db.runs[run].status == Waiting && db.runs[run].worker == Nobody
    requires !(s.ClaimStep? && s.run == run)
    ensures run in Moved(db, s).runs && Moved(db, s).runs[run] == db.runs[run]
  {
  }

  lemma {:induction false} MovedTaskCoupled(w: World, s: Step, task: Task)
    requires Invariant(w.db) && TaskFits(w.db, task) && TaskCoupled(w.db, task) && !s.WriteStep? && Orderly(w, s)
    ensures TaskCoupled(Moved(w.db, s), task)
  {
    MovedSameConfs(w.db, s);
    if task.Mark? && task.waiting == Some(true) && w.db.confs[task.id].status == Pending {
      assert Joined(w.db, task.id) && ConfirmationCoupled(w.db, task.id);
      WaitsOn(w.db, s, w.db.confs[task.id].run);
    }
  }

  lemma {:induction false} WrittenTaskCoupled(db: Db, task: Task, other: Task)
    requires Invariant(db) && TaskFits(db, task) && TaskFits(db, other) && HasRead(task)
    requires TaskCoupled(db, task) && TaskCoupled(db, other) && WriteIsOrderly(db, task)
    ensures TaskCoupled(Written(db, task), other)
  {
    assert Joined(db, task.id);
    MarkedChanges(db, task.id, task.outcome, task.asked);
    assert Written(db, task).confs == db.confs[task.id := db.confs[task.id].(status := task.outcome)];
    if other.Mark? && other.waiting == Some(true) && other.id != task.id && db.confs[other.id].status == Pending {
      assert Joined(db, other.id);
      PendingIsAwaited(db, db.confs[other.id].run);
      assert Closes(task) ==> db.confs[task.id].run != db.confs[other.id].run;
    }
  }

  lemma {:induction false} TasksCoupled(w: World, s: Step)
    requires CoupledWorld(w) && Orderly(w, s)
    ensures forall t :: t in Apply(w, s).tasks ==> TaskCoupled(Apply(w, s).db, Apply(w, s).tasks[t])
  {
    forall t | t in Apply(w, s).tasks ensures TaskCoupled(Apply(w, s).db, Apply(w, s).tasks[t]) {
      if t in w.tasks {
        assert TaskFits(w.db, w.tasks[t]) && TaskCoupled(w.db, w.tasks[t]);
      }
      if s.WriteStep? {
        if Ready(w, s.t) {
          assert TaskFits(w.db, w.tasks[s.t]) && TaskCoupled(w.db, w.tasks[s.t]);
          WrittenTaskCoupled(w.db, w.tasks[s.t], w.tasks[t]);
        }
      } else if IsTaskStep(s) {
        ReadTaskCoupled(w, s, t);
      } else {
        MovedTaskCoupled(w, s, w.tasks[t]);
      }
    }
  }

  lemma {:induction false} ReadTaskCoupled(w: World, s: Step, t: nat)
    requires IsTaskStep(s) && t in Apply(w, s).tasks && (t in w.tasks ==> TaskCoupled(w.db, w.tasks[t]))
    ensures TaskCoupled(Apply(w, s).db, Apply(w, s).tasks[t])
  {
  }

  lemma {:induction false} MovedKeepsIff(w: World, s: Step)
    requires Invariant(w.db) && !s.WriteStep?
    ensures Invariant(Moved(w.db, s)) <==> Orderly(w, s)
  {
    if IsRunStep(s) {
      RunStepKeepsIff(w, s);
    } else if s.StartStep? {
      StartKeeps(w.db, s.org, s.session);
    } else if s.AskStep? {
      if Working(w.db, s.run) {
        AskKeepsIff(w.db, s.run, s.prior, s.requester, s.now);
      }
    } else if s.CarryOutStep? {
      CarryOutKeeps(w.db, s.run, s.outcome);
    }
  }

  lemma {:induction false} WriteStepKeepsIff(w: World, t: nat)
    requires CoupledWorld(w) && Ready(w, t)
    ensures var after := Written(w.db, w.tasks[t]);
            Invariant(after) && DecisionsStand(w.db, after) <==> WriteIsOrderly(w.db, w.tasks[t])
  {
    assert TaskFits(w.db, w.tasks[t]) && TaskCoupled(w.db, w.tasks[t]);
    WriteKeepsIff(w.db, w.tasks[t]);
  }

  lemma {:induction false} MoveStepKeepsIff(w: World, s: Step)
    requires CoupledWorld(w) && !s.WriteStep?
    ensures Invariant(Moved(w.db, s)) && DecisionsStand(w.db, Moved(w.db, s)) <==> Orderly(w, s)
  {
    MovedKeepsIff(w, s);
    MovedSameConfs(w.db, s);
  }

  /** Of all steps from a coupled state, exactly the orderly ones keep it coupled and take back no decision. */
  lemma {:induction false} StepKeepsIff(w: World, s: Step)
    requires CoupledWorld(w)
    ensures CoupledWorld(Apply(w, s)) && DecisionsStand(w.db, Apply(w, s).db) <==> Orderly(w, s)
  {
    assert BasicWorld(w);
    StepIsBasic(w, s);
    AppliedDb(w, s);
    if s.WriteStep? {
      if Ready(w, s.t) {
        WriteStepKeepsIff(w, s.t);
      }
    } else {
      MoveStepKeepsIff(w, s);
    }
    if Orderly(w, s) {
      TasksCoupled(w, s);
    }
  }

  /** Coupled in every state that the steps go through, and no decision taken back on the way. */
  ghost predicate CoupledAlong(w: World, steps: seq<Step>)
    decreases |steps|
  {
    && CoupledWorld(w)
    && (steps != [] ==>
          DecisionsStand(w.db, Apply(w, steps[0]).db) && CoupledAlong(Apply(w, steps[0]), steps[1..]))
  }

  ghost predicate AllOrderly(w: World, steps: seq<Step>)
    decreases |steps|
  {
    steps != [] ==> Orderly(w, steps[0]) && AllOrderly(Apply(w, steps[0]), steps[1..])
  }

  lemma {:induction false} AlwaysCoupledIff(w: World, steps: seq<Step>)
    requires CoupledWorld(w)
    ensures CoupledAlong(w, steps) <==> AllOrderly(w, steps)
    decreases |steps|
  {
    if steps != [] {
      StepKeepsIff(w, steps[0]);
      if Orderly(w, steps[0]) {
        AlwaysCoupledIff(Apply(w, steps[0]), steps[1..]);
      }
    }
  }

  // ---- confirmed calls that nobody carries out ----

  predicate CallIsConfirmed(db: Db, c: nat) {
    c in db.confs && db.confs[c].status == Confirmed
    && db.confs[c].call in db.calls && db.calls[db.confs[c].call].status == CallConfirmed
  }

  /** The confirmation's run still waits for it, or is about to wait for it or to carry it out. */
  predicate IsHeld(db: Db, c: nat) {
    IsAwaited(db, c) || (c in db.confs && db.confs[c].run in db.runs && db.runs[db.confs[c].run].task == Some(c))
  }

  /** The action was approved, and its run has gone on or ended without carrying it out. */
  predicate LeftBehind(db: Db, c: nat) {
    CallIsConfirmed(db, c) && !IsHeld(db, c)
  }

  /** The run is ended or claimed for another confirmation, or its worker ends it or is lost. */
  predicate LetsGo(run: Run, s: Step, c: nat)
    requires IsRunStep(s)
  {
    match s
    case EndStep(n, how) => run.task == Some(c) && run.worker == Nobody && run.status == Running && IsOver(how)
    case FinishStep(n, how) => run.worker != Nobody && run.status != Waiting && IsOver(how)
    case DieStep(n) => run.worker != Nobody && run.status != Waiting
    case ClaimStep(n, named) => run.status == Waiting && named.Some? && named != Some(c)
    case _ => false
  }

  /** So, or the action fails outright, or a sweep's late write about an earlier confirmation of the run cancels
      it before a worker is there. */
  ghost predicate Abandons(w: World, s: Step, c: nat)
    requires c in w.db.confs && w.db.confs[c].run in w.db.runs
  {
    var r := w.db.confs[c].run;
    var run := w.db.runs[r];
    if IsRunStep(s) then s.run == r && LetsGo(run, s, c)
    else
      match s
      case CarryOutStep(n, outcome) => n == r && run.worker == AtWork && run.task == Some(c) && outcome == Broke
      case WriteStep(t) => Ready(w, t) && run.worker == Nobody && IsLateClosing(w.db, w.tasks[t], r, c)
      case _ => false
  }

  predicate IsLateClosing(db: Db, task: Task, run: nat, c: nat) {
    task.Mark? && !task.locked && task.id != c && task.id in db.confs && db.confs[task.id].run == run && Closes(task)
  }

  /** Of all steps from a coupled state, exactly these leave a confirmed call behind. */
  lemma {:induction false} LeftBehindIff(w: World, s: Step, c: nat)
    requires CoupledWorld(w) && CallIsConfirmed(w.db, c) && IsHeld(w.db, c) && w.db.confs[c].run in w.db.runs
    ensures LeftBehind(Apply(w, s).db, c) <==> Abandons(w, s, c)
  {
    AppliedDb(w, s);
    if s.WriteStep? {
      if Ready(w, s.t) {
        LeftByTaskIff(w, s.t, c);
      }
    } else if IsRunStep(s) {
      LeftByRunStepIff(w, s, c);
    } else {
      LeftByCarryingOutIff(w, s, c);
    }
  }

  lemma {:induction false} LeftByTaskIff(w: World, t: nat, c: nat)
    requires CoupledWorld(w) && CallIsConfirmed(w.db, c) && IsHeld(w.db, c) && Ready(w, t)
    requires w.db.confs[c].run in w.db.runs
    ensures LeftBehind(Written(w.db, w.tasks[t]), c) <==>
              w.db.runs[w.db.confs[c].run].worker == Nobody && IsLateClosing(w.db, w.tasks[t], w.db.confs[c].run, c)
  {
    assert TaskFits(w.db, w.tasks[t]) && HasRead(w.tasks[t]);
    LeftByWriteIff(w.db, w.tasks[t], c);
  }

  /** The run waits for the confirmation, its worker is about to let it wait, or has it to carry out. */
  predicate HoldsFor(run: Run, c: nat) {
    || (run.status == Waiting && run.waitsFor == Some(c) && run.worker == Nobody && run.task == None)
    || (run.status != Waiting && run.worker == Asking(c) && run.task == None)
    || (run.status != Waiting && run.task == Some(c)
        && (run.worker == AtWork || (run.worker == Nobody && run.status == Running)))
  }

  /** How such a run stops holding the confirmation. */
  lemma {:induction false} HoldsNoMoreIff(db: Db, s: Step, c: nat)
    requires IsRunStep(s) && s.run in db.runs && HoldsFor(db.runs[s.run], c)
    ensures s.run in Moved(db, s).runs
    ensures var run := Moved(db, s).runs[s.run];
            (run.status == Waiting && run.waitsFor == Some(c)) || run.worker == Asking(c) || run.task == Some(c)
            <==> !LetsGo(db.runs[s.run], s, c)
  {
  }

  lemma {:induction false} OtherRunsStay(db: Db, s: Step)
    requires IsRunStep(s)
    ensures Moved(db, s).confs == db.confs && Moved(db, s).calls == db.calls
    ensures Moved(db, s).runs.Keys == db.runs.Keys
    ensures forall r :: r in db.runs && r != s.run ==> Moved(db, s).runs[r] == db.runs[r]
  {
  }

  /** What a coupled state says of the run that holds a confirmed call. */
  lemma {:induction false} HeldFacts(db: Db, c: nat)
    requires Invariant(db) && CallIsConfirmed(db, c) && IsHeld(db, c)
    ensures var r := db.confs[c].run;
            && Joined(db, c) && RunCoupled(db, r) && !Answered(db, r)
            && (db.runs[r].status == Waiting ==> db.runs[r].waitsFor == Some(c) && db.runs[r].task == None)
            && (db.runs[r].worker.Asking? ==> db.runs[r].worker == Asking(c) && db.runs[r].task == None)
            && (db.runs[r].status != Waiting && !db.runs[r].worker.Asking? ==> db.runs[r].task == Some(c))
            && HoldsFor(db.runs[r], c)
    ensures forall d :: d in db.confs && db.confs[d].run == db.confs[c].run ==> db.confs[d].status == Confirmed
  {
    var r := db.confs[c].run;
    assert Joined(db, c) && RunCoupled(db, r);
    if Answered(db, r) {
      AnsweredIsDone(db, r);
      assert false;
    }
    forall d | d in db.confs && db.confs[d].run == r ensures db.confs[d].status == Confirmed {
      assert ConfirmationCoupled(db, d);
    }
  }

  lemma {:induction false} LeftByRunStepIff(w: World, s: Step, c: nat)
    requires CoupledWorld(w) && CallIsConfirmed(w.db, c) && IsHeld(w.db, c) && IsRunStep(s)
    requires w.db.confs[c].run in w.db.runs
    ensures LeftBehind(Moved(w.db, s), c) <==> Abandons(w, s, c)
  {
    HeldFacts(w.db, c);
    OtherRunsStay(w.db, s);
    if s.run == w.db.confs[c].run {
      HoldsNoMoreIff(w.db, s, c);
    }
  }

  lemma {:induction false} LeftByCarryingOutIff(w: World, s: Step, c: nat)
    requires CoupledWorld(w) && CallIsConfirmed(w.db, c) && IsHeld(w.db, c) && !s.WriteStep? && !IsRunStep(s)
    requires w.db.confs[c].run in w.db.runs
    ensures LeftBehind(Moved(w.db, s), c) <==> Abandons(w, s, c)
  {
    HeldFacts(w.db, c);
    if s.AskStep? {
      HeldThroughAsk(w.db, s.run, s.prior, s.requester, s.now, c);
    } else if s.CarryOutStep? && IsResuming(w.db, s.run) {
      if s.run == w.db.confs[c].run {
        assert w.db.runs[s.run].task == Some(c);
      } else {
        HeldThroughOthers(w.db, s.run, s.outcome, c);
      }
    }
  }

  lemma {:induction false} HeldThroughAsk(db: Db, run: nat, prior: Option<nat>, requester: nat, now: int, c: nat)
    requires Invariant(db) && CallIsConfirmed(db, c) && IsHeld(db, c)
    ensures !LeftBehind(Ask(db, run, prior, requester, now), c)
  {
    HeldFacts(db, c);
  }

  /** Another run's action is another call. */
  lemma {:induction false} HeldThroughOthers(db: Db, run: nat, outcome: Outcome, c: nat)
    requires Invariant(db) && CallIsConfirmed(db, c) && IsHeld(db, c) && run != db.confs[c].run && IsResuming(db, run)
    ensures !LeftBehind(CarryOut(db, run, outcome), c)
  {
    HeldFacts(db, c);
    OwnCalls(db, c);
    assert RunCoupled(db, run);
    assert db.runs[run].task.value != c;
  }

  lemma {:induction false} LeftByWriteIff(db: Db, task: Task, c: nat)
    requires Invariant(db) && CallIsConfirmed(db, c) && IsHeld(db, c) && TaskFits(db, task) && HasRead(task)
    ensures LeftBehind(Written(db, task), c) <==>
              db.confs[c].run in db.runs && db.runs[db.confs[c].run].worker == Nobody
              && IsLateClosing(db, task, db.confs[c].run, c)
  {
    HeldFacts(db, c);
    if task.Mark? {
      OtherWritten(db, task, c);
    } else {
      assert ConfirmationCoupled(db, task.reply.value.confirmation);
    }
  }

  /** What a write about one confirmation does to another one, and to its run. */
  lemma {:induction false} OtherWritten(db: Db, task: Task, c: nat)
    requires Linked(db) && task.Mark? && TaskFits(db, task) && CallIsConfirmed(db, c) && db.confs[c].run in db.runs
    ensures var after, r := Written(db, task), db.confs[c].run;
            && c in after.confs && after.confs[c].run == r && r in after.runs
            && (task.id == c ==> after.confs[c].status == task.outcome)
            && (task.id != c ==> CallIsConfirmed(after, c))
            && after.runs[r]
               == if Closes(task) && db.confs[task.id].run == r
                  then SetRun(db, r, Cancelled).runs[r] else db.runs[r]
  {
    assert Joined(db, task.id);
    MarkedChanges(db, task.id, task.outcome, task.asked);
    OwnCalls(db, c);
  }

  /** There is no other way in: a call that a step makes confirmed is held by its run. */
  lemma {:induction false} ConfirmedIsHeld(w: World, s: Step, c: nat)
    requires CoupledWorld(w) && !CallIsConfirmed(w.db, c)
    ensures CallIsConfirmed(Apply(w, s).db, c) ==> IsHeld(Apply(w, s).db, c)
  {
    AppliedDb(w, s);
    if s.WriteStep? {
      if Ready(w, s.t) {
        assert TaskFits(w.db, w.tasks[s.t]);
        WriteConfirmsHeld(w.db, w.tasks[s.t], c);
      }
    } else {
      MoveConfirmsNone(w.db, s, c);
    }
  }

  lemma {:induction false} WriteConfirmsHeld(db: Db, task: Task, c: nat)
    requires Invariant(db) && !CallIsConfirmed(db, c) && TaskFits(db, task) && HasRead(task)
    ensures CallIsConfirmed(Written(db, task), c) ==> IsHeld(Written(db, task), c)
  {
    if task.Mark? {
      assert Joined(db, task.id) && ConfirmationCoupled(db, task.id);
      if task.outcome == Confirmed {
        assert Written(db, task) == Marked(db, task.id, Confirmed, task.asked);
        MarkedChanges(db, task.id, Confirmed, task.asked);
        OwnCalls(db, task.id);
      } else {
        AgainstConfirmsNone(db, task, c);
      }
    }
  }

  lemma {:induction false} AgainstConfirmsNone(db: Db, task: Task, c: nat)
    requires Linked(db) && !CallIsConfirmed(db, c) && task.Mark? && TaskFits(db, task) && task.outcome != Confirmed
    ensures !CallIsConfirmed(Written(db, task), c)
  {
    assert Joined(db, task.id);
    MarkedChanges(db, task.id, task.outcome, task.asked);
    OwnCalls(db, task.id);
  }

  lemma {:induction false} MoveConfirmsNone(db: Db, s: Step, c: nat)
    requires Basic(db) && !CallIsConfirmed(db, c)
    ensures !CallIsConfirmed(Moved(db, s), c)
  {
    assert c in db.confs ==> Joined(db, c);
    if s.CarryOutStep? {
      CarryingOutConfirmsNone(db, s.run, s.outcome, c);
    } else if s.AskStep? {
      AskingConfirmsNone(db, s.run, s.prior, s.requester, s.now, c);
    } else if IsRunStep(s) {
      OtherRunsStay(db, s);
    }
  }

  lemma {:induction false} CarryingOutConfirmsNone(db: Db, run: nat, outcome: Outcome, c: nat)
    requires !CallIsConfirmed(db, c)
    ensures !CallIsConfirmed(CarryOut(db, run, outcome), c)
  {
  }

  lemma {:induction false} AskingConfirmsNone(db: Db, run: nat, prior: Option<nat>, requester: nat, now: int, c: nat)
    requires !CallIsConfirmed(db, c) && forall i :: i in db.confs ==> i < db.next
    requires c in db.confs ==> db.confs[c].call in db.calls
    ensures !CallIsConfirmed(Ask(db, run, prior, requester, now), c)
  {
  }

  // ---- the run that waits for another run's confirmation ----

  /** A waiting run none of whose own confirmations is pending or decided against. */
  ghost predicate Stranded(db: Db, r: nat) {
    && r in db.runs && db.runs[r].status == Waiting
    && forall c :: c in db.confs && db.confs[c].run == r ==> db.confs[c].status == Confirmed
  }

  /** A worker that gets another run's confirmation back strands its own. */
  lemma {:induction false} ReuseStrands(db: Db, run: nat, id: nat, requester: nat, now: int)
    requires Invariant(db) && Working(db, run) && CanReuse(db, run, id)
    ensures Stranded(Settle(Ask(db, run, Some(id), requester, now), run), run)
  {
    assert RunCoupled(db, run);
    forall c | c in db.confs && db.confs[c].run == run ensures db.confs[c].status == Confirmed {
      assert ConfirmationCoupled(db, c);
    }
  }

  /** It is claimed, or a sweep writes late over a confirmed confirmation of its own. */
  ghost predicate Rouses(w: World, s: Step, r: nat) {
    match s
    case ClaimStep(run, _) => run == r
    case WriteStep(t) =>
      Ready(w, t) && w.tasks[t].Mark? && !w.tasks[t].locked
      && w.tasks[t].id in w.db.confs && w.db.confs[w.tasks[t].id].run == r
    case _ => false
  }

  /** Under any interleaving, exactly these get a stranded run going: no decision, no expiry and no closing
      ever does, whatever becomes of the confirmation it waits for. */
  lemma {:induction false} StrandedUntilRoused(w: World, s: Step, r: nat)
    requires BasicWorld(w) && Stranded(w.db, r)
    ensures var after := Apply(w, s).db;
            Stranded(after, r) && after.runs[r] == w.db.runs[r] <==> !Rouses(w, s, r)
  {
    AppliedDb(w, s);
    if s.WriteStep? {
      if Ready(w, s.t) {
        assert TaskFits(w.db, w.tasks[s.t]);
        StrandedThroughWrite(w.db, w.tasks[s.t], r);
      }
    } else if IsRunStep(s) {
      StrandedThroughRunStep(w.db, s, r);
    } else {
      StrandedThroughMove(w.db, s, r);
    }
  }

  lemma {:induction false} StrandedThroughRunStep(db: Db, s: Step, r: nat)
    requires Basic(db) && Stranded(db, r) && IsRunStep(s)
    ensures Stranded(Moved(db, s), r) && Moved(db, s).runs[r] == db.runs[r] <==> !(s.ClaimStep? && s.run == r)
  {
    assert db.runs[r].worker == Nobody && db.runs[r].waitsFor.Some? && r < db.next;
    NoNewConfirmation(db, s);
    if !(s.ClaimStep? && s.run == r) {
      WaitsOn(db, s, r);
    }
  }

  lemma {:induction false} StrandedThroughMove(db: Db, s: Step, r: nat)
    requires Basic(db) && Stranded(db, r) && !IsRunStep(s)
    ensures Stranded(Moved(db, s), r) && Moved(db, s).runs[r] == db.runs[r]
  {
    assert db.runs[r].worker == Nobody && r < db.next;
    WaitsOn(db, s, r);
    if s.AskStep? {
      AskedByWorker(db, s.run, s.prior, s.requester, s.now);
    } else {
      NoNewConfirmation(db, s);
    }
  }

  /** A new confirmation is its worker's own. */
  lemma {:induction false} AskedByWorker(db: Db, run: nat, prior: Option<nat>, requester: nat, now: int)
    requires forall i :: i in db.confs ==> i < db.next
    ensures var after := Ask(db, run, prior, requester, now);
            forall c :: c in after.confs ==>
              if c in db.confs then after.confs[c] == db.confs[c]
              else HasWorker(db, run) && after.confs[c].run == run
  {
  }

  lemma {:induction false} StrandedThroughWrite(db: Db, task: Task, r: nat)
    requires Basic(db) && Stranded(db, r) && TaskFits(db, task) && HasRead(task)
    ensures var after := Written(db, task);
            Stranded(after, r) && after.runs[r] == db.runs[r]
            <==> !(task.Mark? && !task.locked && db.confs[task.id].run == r)
  {
    if task.Mark? {
      assert Joined(db, task.id);
      MarkedChanges(db, task.id, task.outcome, task.asked);
      assert Written(db, task).confs[task.id].status == task.outcome;
    }
  }

  ghost predicate NeverRoused(w: World, steps: seq<Step>, r: nat)
    decreases |steps|
  {
    steps != [] ==> !Rouses(w, steps[0], r) && NeverRoused(Apply(w, steps[0]), steps[1..], r)
  }

  lemma {:induction false} StrandedForGood(w: World, steps: seq<Step>, r: nat)
    requires BasicWorld(w) && Stranded(w.db, r) && NeverRoused(w, steps, r)
    ensures Stranded(RunAll(w, steps).db, r) && RunAll(w, steps).db.runs[r] == w.db.runs[r]
    decreases |steps|
  {
    if steps != [] {
      StepIsBasic(w, steps[0]);
      StrandedUntilRoused(w, steps[0], r);
      StrandedForGood(Apply(w, steps[0]), steps[1..], r);
    }
  }

  /** A run that has never had a confirmation of its own. */
  ghost predicate OwnsNone(db: Db, r: nat) {
    forall c :: c in db.confs ==> db.confs[c].run != r
  }

  predicate NeverClaimed(steps: seq<Step>, r: nat) {
    forall i :: 0 <= i < |steps| ==> !(steps[i].ClaimStep? && steps[i].run == r)
  }

  /** For such a run only a claim will do. */
  lemma {:induction false} StrandedUnlessClaimed(w: World, steps: seq<Step>, r: nat)
    requires BasicWorld(w) && Stranded(w.db, r) && OwnsNone(w.db, r) && NeverClaimed(steps, r)
    ensures NeverRoused(w, steps, r)
    decreases |steps|
  {
    if steps != [] {
      var after := Apply(w, steps[0]);
      StepIsBasic(w, steps[0]);
      StrandedUntilRoused(w, steps[0], r);
      OwnsNoneStill(w, steps[0], r);
      assert NeverClaimed(steps[1..], r);
      StrandedUnlessClaimed(after, steps[1..], r);
    }
  }

  lemma {:induction false} OwnsNoneStill(w: World, s: Step, r: nat)
    requires BasicWorld(w) && Stranded(w.db, r) && OwnsNone(w.db, r)
    ensures OwnsNone(Apply(w, s).db, r)
  {
    AppliedDb(w, s);
    if s.WriteStep? {
      if Ready(w, s.t) {
        SameOwners(w.db, w.tasks[s.t]);
      }
    } else {
      assert !HasWorker(w.db, r);
      MoveOwnsNone(w.db, s, r);
    }
  }

  lemma {:induction false} MoveOwnsNone(db: Db, s: Step, r: nat)
    requires (forall i :: i in db.confs ==> i < db.next) && OwnsNone(db, r) && !HasWorker(db, r)
    ensures OwnsNone(Moved(db, s), r)
  {
    if s.AskStep? {
      AskedByWorker(db, s.run, s.prior, s.requester, s.now);
    } else {
      NoNewConfirmation(db, s);
    }
  }

  lemma {:induction false} SameOwners(db: Db, task: Task)
    ensures Written(db, task).confs.Keys == db.confs.Keys
    ensures forall c :: c in db.confs ==> Written(db, task).confs[c].run == db.confs[c].run
  {
  }

  lemma {:induction false} NoNewConfirmation(db: Db, s: Step)
    requires !s.AskStep?
    ensures Moved(db, s).confs == db.confs
  {
  }
}
