/** Confirmations, calls and runs under any interleaving of the transactions that decide, expire, pause,
    resume and end them. A transaction is atomic only where it holds a row lock or updates a row on a
    condition; whatever it reads without a lock can have changed before it writes. */
module Interleavings {
  import opened Options
  import opened Confirmations

  /** A transaction that has read and not yet written. `Mark`: a sweep found the confirmation overdue, or,
      with its row locked, a request is about to decide it; then it reads the call and the run. `Visit`: a
      sweep found the run waiting; then it reads the run's newest confirmation. */
  datatype Task =
    | Mark(id: nat, outcome: Status, locked: bool, asked: Option<bool>, waiting: Option<bool>)
    | Visit(run: nat, reply: Option<Reply>)

  /** The committed state, and the transactions under way. */
  datatype World = World(db: Db, tasks: map<nat, Task>)

  const START := World(EMPTY, map[])

  datatype Step =
    | StartStep(org: nat, session: nat)
    | WorkStep(run: nat)
    | AskStep(run: nat, prior: Option<nat>, requester: nat, now: int)
    | SettleStep(run: nat)
    | FinishStep(run: nat, how: RunStatus)
    | DieStep(run: nat)
    | EndStep(run: nat, how: RunStatus)
    | ClaimStep(run: nat, named: Option<nat>)
    | CarryOutStep(run: nat, outcome: Outcome)
    | DecideStep(t: nat, id: nat, user: User, now: int, approve: bool)  // the lookup, which locks the row
    | FindStep(t: nat, id: nat, now: int)                               // a row of the sweep's first query
    | ListStep(t: nat, run: nat)                                        // a row of its second one
    | CallStep(t: nat)                                                  // the call is read
    | RunStep(t: nat)                                                   // the run is read
    | NewestStep(t: nat, id: nat)                                       // the newest confirmation is read
    | WriteStep(t: nat)                                                 // all is written and committed
    | DropStep(t: nat)                                                  // all is rolled back

  /** A request holds the row. Other requests wait for it, and so does the sweep's write. */
  predicate Locked(w: World, id: nat) {
    exists t :: t in w.tasks && IsLock(w.tasks[t], id)
  }

  predicate IsLock(task: Task, id: nat) {
    task.Mark? && task.locked && task.id == id
  }

  predicate Ready(w: World, t: nat) {
    && t in w.tasks
    && match w.tasks[t]
       case Mark(id, _, locked, asked, waiting) => asked.Some? && waiting.Some? && (locked || !Locked(w, id))
       case Visit(_, reply) => reply.Some?
  }

  // ---- the steps ----

  /** What is committed at once. */
  function Moved(db: Db, s: Step): Db {
    match s
    case StartStep(org, session) => StartRun(db, org, session)
    case WorkStep(run) => Work(db, run)
    case AskStep(run, prior, requester, now) => Ask(db, run, prior, requester, now)
    case SettleStep(run) => Settle(db, run)
    case FinishStep(run, how) => Finish(db, run, how)
    case DieStep(run) => Die(db, run)
    case EndStep(run, how) => EndRun(db, run, how)
    case ClaimStep(run, named) => Claim(db, run, named)
    case CarryOutStep(run, outcome) => CarryOut(db, run, outcome)
    case _ => db
  }

  predicate IsTaskStep(s: Step) {
    s.DecideStep? || s.FindStep? || s.ListStep? || s.CallStep? || s.RunStep? || s.NewestStep?
  }

  /** What a lookup or a read makes of the transaction `s.t`. */
  ghost function Read(w: World, s: Step): Option<Task>
    requires IsTaskStep(s)
  {
    var db, tasks := w.db, w.tasks;
    match s
    case DecideStep(t, id, user, now, approve) =>
      if t in tasks || Locked(w, id) then None else Lookup(db, id, user, now, approve)
    case FindStep(t, id, now) =>
      if t !in tasks && id in db.confs && db.confs[id].status == Pending && Overdue(db.confs[id], now)
      then Some(Mark(id, Expired, false, None, None)) else None
    case ListStep(t, run) =>
      if t !in tasks && run in db.runs && db.runs[run].status == Waiting then Some(Visit(run, None)) else None
    case CallStep(t) =>
      if t in tasks && tasks[t].Mark? && tasks[t].asked == None
      then Some(tasks[t].(asked := Some(CallAsked(db, tasks[t].id)))) else None
    case RunStep(t) =>
      if t in tasks && tasks[t].Mark? && tasks[t].waiting == None && tasks[t].id in db.confs
      then Some(tasks[t].(waiting := Some(StillWaiting(db, db.confs[tasks[t].id])))) else None
    case NewestStep(t, id) =>
      if t in tasks && tasks[t].Visit? && id in db.confs && db.confs[id].run == tasks[t].run && IsLatest(db, id)
         && DecidedAgainst(db.confs[id].status)
      then Some(Visit(tasks[t].run, Some(Reply(tasks[t].run, id, db.confs[id].status)))) else None
  }

  /** A request that is accepted, or comes too late, goes on to write. */
  function Lookup(db: Db, id: nat, user: User, now: int, approve: bool): Option<Task> {
    match Check(db, id, user, now)
    case Accepted => Some(Mark(id, if approve then Confirmed else Rejected, true, None, None))
    case TooLate => Some(Mark(id, Expired, true, None, None))
    case _ => None
  }

  predicate CallAsked(db: Db, id: nat) {
    id in db.confs && db.confs[id].call in db.calls && db.calls[db.confs[id].call].status == ConfirmationRequired
  }

  predicate Closes(task: Task) {
    task.Visit? || (task.outcome != Confirmed && task.waiting == Some(true))
  }

  /** What a transaction writes depends on what it has read, whatever is there by then. */
  function Written(db: Db, task: Task): Db {
    match task
    case Mark(id, outcome, _, asked, _) =>
      if id !in db.confs then db
      else
        var marked := Marked(db, id, outcome, asked);
        if Closes(task) && db.confs[id].run in db.runs then Answer(marked, Reply(db.confs[id].run, id, outcome))
        else marked
    case Visit(run, reply) =>
      if reply.Some? && reply.value.run in db.runs then Answer(db, reply.value) else db
  }

  /** The confirmation and its call, as a transaction marks them. */
  function Marked(db: Db, id: nat, outcome: Status, asked: Option<bool>): Db
    requires id in db.confs
  {
    MarkCall(SetStatus(db, id, outcome), db.confs[id].call, outcome, asked)
  }

  function MarkCall(db: Db, call: nat, outcome: Status, asked: Option<bool>): Db {
    match outcome
    case Confirmed => SetCall(db, call, CallConfirmed)
    case Rejected => SetCall(db, call, CallRejected)
    case _ => if asked == Some(true) then SetCall(db, call, CallFailed) else db
  }

  ghost function Apply(w: World, s: Step): World {
    if s.WriteStep? then (if Ready(w, s.t) then World(Written(w.db, w.tasks[s.t]), w.tasks - {s.t}) else w)
    else if s.DropStep? then w.(tasks := w.tasks - {s.t})
    else if IsTaskStep(s) then
      var task := Read(w, s);
      if task.Some? then w.(tasks := w.tasks[s.t := task.value]) else w
    else w.(db := Moved(w.db, s))
  }

  ghost function RunAll(w: World, steps: seq<Step>): World
    decreases |steps|
  {
    if steps == [] then w else RunAll(Apply(w, steps[0]), steps[1..])
  }

  /** What a step does to the committed state. */
  lemma {:induction false} AppliedDb(w: World, s: Step)
    ensures Apply(w, s).db ==
            if !s.WriteStep? then Moved(w.db, s)
            else if Ready(w, s.t) then Written(w.db, w.tasks[s.t]) else w.db
  {
  }

  // ---- what no interleaving breaks ----

  /** What stays true of a transaction's reads: nothing goes back to pending, and a locked row stays as it
      was read. */
  predicate TaskFits(db: Db, task: Task) {
    match task
    case Mark(id, outcome, locked, asked, _) =>
      && id in db.confs && outcome != Pending
      && (if locked then db.confs[id].status == Pending else outcome == Expired)
      && (asked == Some(false) ==> db.confs[id].status != Pending)
    case Visit(run, reply) =>
      && run in db.runs
      && (reply.Some? ==>
            var Reply(r, id, _) := reply.value;
            r == run && id in db.confs && db.confs[id].run == run && DecidedAgainst(db.confs[id].status))
  }

  ghost predicate TasksFit(w: World) {
    && (forall t :: t in w.tasks ==> TaskFits(w.db, w.tasks[t]))
    && (forall t, u, id :: t in w.tasks && u in w.tasks && IsLock(w.tasks[t], id) && IsLock(w.tasks[u], id) ==> t == u)
  }

  ghost predicate BasicWorld(w: World) {
    Basic(w.db) && TasksFit(w)
  }

  /** Confirmations stay, and once decided they change at most into expired ones. */
  ghost predicate AtWorstExpired(before: Db, after: Db) {
    forall c :: c in before.confs ==>
      && c in after.confs
      && (before.confs[c].status != Pending ==>
            after.confs[c] == before.confs[c] || after.confs[c] == before.confs[c].(status := Expired))
  }

  /** Nothing happens to the confirmations that are there. */
  ghost predicate SameConfs(before: Db, after: Db) {
    && (forall c :: c in before.confs ==> c in after.confs && after.confs[c] == before.confs[c])
    && before.runs.Keys <= after.runs.Keys
  }

  lemma {:induction false} TasksStay(w: World, after: Db)
    requires TasksFit(w) && SameConfs(w.db, after)
    ensures TasksFit(w.(db := after))
  {
    forall t | t in w.tasks ensures TaskFits(after, w.tasks[t]) {
      assert TaskFits(w.db, w.tasks[t]);
    }
  }

  /** A changed run record of the same organisation; it waits, or is about to, for some confirmation. */
  predicate RunFits(db: Db, run: nat, changed: Run) {
    && run in db.runs && changed.org == db.runs[run].org
    && (changed.status == Waiting ==>
          changed.waitsFor.Some? && changed.waitsFor.value in db.confs && changed.worker == Nobody)
    && (changed.worker.Asking? ==> changed.worker.confirmation in db.confs)
  }

  lemma {:induction false} RunIsBasic(db: Db, run: nat, changed: Run)
    requires Basic(db) && RunFits(db, run, changed)
    ensures Basic(db.(runs := db.runs[run := changed]))
  {
    forall c | c in db.confs ensures Joined(db.(runs := db.runs[run := changed]), c) {
      assert Joined(db, c);
    }
  }

  lemma {:induction false} StartIsBasic(db: Db, org: nat, session: nat)
    requires Basic(db)
    ensures Basic(StartRun(db, org, session))
  {
    forall c | c in db.confs ensures Joined(StartRun(db, org, session), c) {
      assert Joined(db, c);
    }
  }

  lemma {:induction false} AskIsBasic(db: Db, run: nat, prior: Option<nat>, requester: nat, now: int)
    requires Basic(db)
    ensures Basic(Ask(db, run, prior, requester, now))
  {
    if Working(db, run) {
      if prior.Some? && CanReuse(db, run, prior.value) {
        RunIsBasic(db, run, db.runs[run].(worker := Asking(prior.value)));
      } else {
        AskAnewIsBasic(db, run, requester, now);
      }
    }
  }

  lemma {:induction false} AskAnewIsBasic(db: Db, run: nat, requester: nat, now: int)
    requires Basic(db) && Working(db, run)
    ensures Basic(AskAnew(db, run, requester, now))
  {
    var after := AskAnew(db, run, requester, now);
    forall c | c in after.confs ensures Joined(after, c) {
      assert c in db.confs ==> Joined(db, c);
    }
  }

  /** A confirmed call that is carried out, once. */
  lemma {:induction false} CallIsBasic(db: Db, id: nat, status: CallStatus)
    requires Basic(db) && id in db.confs && db.confs[id].status == Confirmed && status in {CallRunning, CallSucceeded}
    requires db.confs[id].call in db.calls && db.calls[db.confs[id].call].status == CallConfirmed
    ensures var after := SetCall(db, db.confs[id].call, status);
            && Basic(after)
            && (status == CallSucceeded ==> Basic(after.(executed := db.executed + [db.confs[id].call])))
  {
    var after := SetCall(db, db.confs[id].call, status);
    assert Joined(db, id);
    forall c | c in db.confs ensures Joined(after, c) && (c != id ==> db.confs[c].call != db.confs[id].call) {
      assert Joined(db, c);
    }
    forall i | 0 <= i < |db.executed| ensures IsSpent(after, db.executed[i]) && db.executed[i] != db.confs[id].call {
      assert IsSpent(db, db.executed[i]);
    }
  }

  lemma {:induction false} CarryOutIsBasic(db: Db, run: nat, outcome: Outcome)
    requires Basic(db)
    ensures Basic(CarryOut(db, run, outcome))
  {
    if run in db.runs && db.runs[run].worker == AtWork && db.runs[run].task.Some? {
      var id := db.runs[run].task.value;
      var gone := db.runs[run].(status := RunFailed, task := None, worker := Nobody);
      RunIsBasic(db, run, gone);
      RunIsBasic(db, run, db.runs[run].(task := None));
      if CanCarryOut(db, db.runs[run].org, id) && outcome != Broke {
        if outcome == Worked {
          CallIsBasic(db.(runs := db.runs[run := db.runs[run].(task := None)]), id, CallSucceeded);
        } else {
          CallIsBasic(Leave(db, run, RunFailed), id, CallRunning);
        }
      }
    }
  }

  /** A step that changes one run's own record. */
  predicate IsRunStep(s: Step) {
    s.WorkStep? || s.SettleStep? || s.FinishStep? || s.DieStep? || s.EndStep? || s.ClaimStep?
  }

  lemma {:induction false} RunStepChanges(db: Db, s: Step)
    requires Basic(db) && IsRunStep(s) && Moved(db, s) != db
    ensures var after := Moved(db, s);
            s.run in db.runs && s.run in after.runs && RunFits(db, s.run, after.runs[s.run])
            && after == db.(runs := db.runs[s.run := after.runs[s.run]])
  {
  }

  lemma {:induction false} MovedIsBasic(db: Db, s: Step)
    requires Basic(db)
    ensures Basic(Moved(db, s))
  {
    if IsRunStep(s) {
      if Moved(db, s) != db {
        RunStepChanges(db, s);
        RunIsBasic(db, s.run, Moved(db, s).runs[s.run]);
      }
    } else if s.StartStep? {
      StartIsBasic(db, s.org, s.session);
    } else if s.AskStep? {
      AskIsBasic(db, s.run, s.prior, s.requester, s.now);
    } else if s.CarryOutStep? {
      CarryOutIsBasic(db, s.run, s.outcome);
    }
  }

  lemma {:induction false} MovedSameConfs(db: Db, s: Step)
    requires Linked(db)
    ensures SameConfs(db, Moved(db, s))
  {
  }

  lemma {:induction false} ReadFits(w: World, s: Step)
    requires BasicWorld(w) && IsTaskStep(s) && Read(w, s).Some?
    ensures TasksFit(w.(tasks := w.tasks[s.t := Read(w, s).value]))
  {
    assert s.t in w.tasks ==> TaskFits(w.db, w.tasks[s.t]);
    var task := Read(w, s).value;
    assert TaskFits(w.db, task);
    assert s.DecideStep? ==> !Locked(w, s.id);
    assert s.t in w.tasks ==> forall id :: IsLock(task, id) ==> IsLock(w.tasks[s.t], id);
  }

  lemma {:induction false} MarkedChanges(db: Db, id: nat, outcome: Status, asked: Option<bool>)
    requires id in db.confs && db.confs[id].call in db.calls && outcome != Pending
    ensures var after, call := Marked(db, id, outcome, asked), db.confs[id].call;
            && after.confs == db.confs[id := db.confs[id].(status := outcome)]
            && call in after.calls && after.calls[call].confirmation == db.calls[call].confirmation
            && after.calls == db.calls[call := after.calls[call]]
            && after.runs == db.runs && after.replies == db.replies && after.executed == db.executed
            && after.next == db.next
            && (after.calls[call].status == CallConfirmed ==>
                  outcome == Confirmed || after.calls[call] == db.calls[call])
            && (outcome == Expired ==> after.calls[call].status == CallFailed || after.calls[call] == db.calls[call])
            && (outcome != Expired || asked == Some(true) ==> Matches(outcome, after.calls[call].status))
  {
  }

  lemma {:induction false} OwnCalls(db: Db, id: nat)
    requires Linked(db) && id in db.confs
    ensures forall c :: c in db.confs && c != id ==> db.confs[c].call != db.confs[id].call
  {
    forall c | c in db.confs && c != id ensures db.confs[c].call != db.confs[id].call {
      assert Joined(db, c) && Joined(db, id);
    }
  }

  lemma {:induction false} MarkedIsLinked(db: Db, id: nat, outcome: Status, asked: Option<bool>)
    requires Linked(db) && id in db.confs && outcome != Pending
    ensures Linked(Marked(db, id, outcome, asked))
  {
    var after := Marked(db, id, outcome, asked);
    assert Joined(db, id);
    MarkedChanges(db, id, outcome, asked);
    forall c | c in db.confs ensures Joined(after, c) {
      assert Joined(db, c);
    }
  }

  lemma {:induction false} MarkIsBasic(db: Db, id: nat, outcome: Status, asked: Option<bool>)
    requires Basic(db) && id in db.confs && outcome != Pending
    requires outcome == Expired || db.confs[id].status == Pending
    ensures Basic(Marked(db, id, outcome, asked)) && AtWorstExpired(db, Marked(db, id, outcome, asked))
  {
    var after := Marked(db, id, outcome, asked);
    assert Joined(db, id);
    MarkedIsLinked(db, id, outcome, asked);
    MarkedChanges(db, id, outcome, asked);
    OwnCalls(db, id);
    forall i | 0 <= i < |db.executed| ensures IsSpent(after, db.executed[i]) {
      assert IsSpent(db, db.executed[i]);
    }
  }

  lemma {:induction false} AnswerIsBasic(db: Db, reply: Reply)
    requires Basic(db) && reply.run in db.runs
    ensures Basic(Answer(db, reply)) && SameConfs(db, Answer(db, reply))
  {
    var r := db.runs[reply.run];
    RunIsBasic(db, reply.run, r.(status := Cancelled, task := if r.worker == Nobody then None else r.task));
  }

  lemma {:induction false} WrittenIsBasic(db: Db, task: Task)
    requires Basic(db) && TaskFits(db, task)
    ensures Basic(Written(db, task)) && AtWorstExpired(db, Written(db, task))
  {
    match task
    case Mark(id, outcome, locked, asked, waiting) =>
      MarkIsBasic(db, id, outcome, asked);
      assert Joined(db, id);
      if Closes(task) {
        AnswerIsBasic(Marked(db, id, outcome, asked), Reply(db.confs[id].run, id, outcome));
      }
    case Visit(run, reply) =>
      if reply.Some? {
        AnswerIsBasic(db, reply.value);
      }
  }

  /** A write leaves fit what another transaction has read, unless that one holds the row. */
  lemma {:induction false} OthersFit(db: Db, task: Task, other: Task)
    requires Basic(db) && TaskFits(db, task) && TaskFits(db, other)
    requires task.Mark? ==> !IsLock(other, task.id)
    ensures TaskFits(Written(db, task), other)
  {
    WrittenConfs(db, task);
  }

  lemma {:induction false} WrittenConfs(db: Db, task: Task)
    ensures Written(db, task).confs ==
            if task.Mark? && task.id in db.confs then db.confs[task.id := db.confs[task.id].(status := task.outcome)]
            else db.confs
    ensures Written(db, task).runs.Keys == db.runs.Keys
  {
  }

  lemma {:induction false} WriteFits(w: World, t: nat)
    requires BasicWorld(w) && Ready(w, t)
    ensures TasksFit(World(Written(w.db, w.tasks[t]), w.tasks - {t}))
  {
    assert TaskFits(w.db, w.tasks[t]);
    forall u | u in w.tasks && u != t ensures TaskFits(Written(w.db, w.tasks[t]), w.tasks[u]) {
      assert TaskFits(w.db, w.tasks[u]);
      if w.tasks[t].Mark? && IsLock(w.tasks[u], w.tasks[t].id) {
        assert Locked(w, w.tasks[t].id);
        assert false;
      }
      OthersFit(w.db, w.tasks[t], w.tasks[u]);
    }
  }

  /** Whatever the order of the reads and writes: the records stay linked, no confirmed call is carried out
      twice, and a decision changes at most into an expiry. */
  lemma {:induction false} StepIsBasic(w: World, s: Step)
    requires BasicWorld(w)
    ensures BasicWorld(Apply(w, s)) && AtWorstExpired(w.db, Apply(w, s).db)
  {
    if s.WriteStep? {
      if Ready(w, s.t) {
        assert TaskFits(w.db, w.tasks[s.t]);
        WrittenIsBasic(w.db, w.tasks[s.t]);
        WriteFits(w, s.t);
      }
    } else if IsTaskStep(s) {
      if Read(w, s).Some? {
        ReadFits(w, s);
      }
    } else if !s.DropStep? {
      MovedIsBasic(w.db, s);
      MovedSameConfs(w.db, s);
      TasksStay(w, Moved(w.db, s));
    }
  }

  lemma {:induction false} AlwaysBasic(w: World, steps: seq<Step>)
    requires BasicWorld(w)
    ensures BasicWorld(RunAll(w, steps)) && AtWorstExpired(w.db, RunAll(w, steps).db)
    decreases |steps|
  {
    if steps != [] {
      StepIsBasic(w, steps[0]);
      AlwaysBasic(Apply(w, steps[0]), steps[1..]);
    }
  }

  // ---- decisions and closings that are written over ----

  ghost predicate SoundWorld(w: World) {
    Sound(w.db) && TasksFit(w)
  }

  /** What a transaction found is still so, or already as it will write it; and no one else has closed the
      turn that it closes. */
  predicate WriteIsTimely(db: Db, task: Task) {
    match task
    case Mark(id, _, _, _, _) =>
      && id in db.confs && (db.confs[id].status == Pending || db.confs[id].status == Expired)
      && (Closes(task) ==> !Answered(db, db.confs[id].run))
    case Visit(run, _) => !Answered(db, run)
  }

  /** No write over a decision, and none over a closed turn. */
  ghost predicate Timely(w: World, s: Step) {
    match s
    case SettleStep(run) => IsAsking(w.db, run) ==> !Answered(w.db, run)
    case FinishStep(run, how) =>
      HasWorker(w.db, run) && IsOver(how) ==> how == Cancelled || !Answered(w.db, run)
    case CarryOutStep(run, outcome) =>
      IsResuming(w.db, run) && Answered(w.db, run) ==>
        outcome == Worked && CanCarryOut(w.db, w.db.runs[run].org, w.db.runs[run].task.value)
    case WriteStep(t) => Ready(w, t) ==> WriteIsTimely(w.db, w.tasks[t])
    case _ => true
  }

  predicate HasWorker(db: Db, run: nat) {
    run in db.runs && db.runs[run].worker != Nobody
  }

  /** The run's worker has a confirmed action to carry out. */
  predicate IsResuming(db: Db, run: nat) {
    run in db.runs && db.runs[run].worker == AtWork && db.runs[run].task.Some?
  }

  lemma {:induction false} AnsweredIsCancelled(db: Db, run: nat)
    requires ClosedOnce(db) && Answered(db, run)
    ensures run in db.runs && db.runs[run].status == Cancelled
  {
  }

  lemma {:induction false} RunSoundIff(db: Db, run: nat, changed: Run)
    requires Sound(db) && RunFits(db, run, changed)
    ensures Sound(db.(runs := db.runs[run := changed])) <==> (Answered(db, run) ==> changed.status == Cancelled)
  {
    RunIsBasic(db, run, changed);
    var after := db.(runs := db.runs[run := changed]);
    if Answered(db, run) && changed.status != Cancelled {
      var i :| 0 <= i < |db.replies| && db.replies[i].run == run;
      assert after.replies[i].run == run;
      assert !ClosedOnce(after);
    }
  }

  lemma {:induction false} AskIsSound(db: Db, run: nat, prior: Option<nat>, requester: nat, now: int)
    requires Sound(db)
    ensures Sound(Ask(db, run, prior, requester, now))
  {
    AskIsBasic(db, run, prior, requester, now);
    if Answered(db, db.next) {
      AnsweredIsCancelled(db, db.next);
    }
  }

  lemma {:induction false} CallIsSound(db: Db, id: nat, status: CallStatus, executed: seq<nat>)
    requires Sound(db) && id in db.confs && db.confs[id].status == Confirmed && status in {CallRunning, CallSucceeded}
    requires db.confs[id].call in db.calls && db.calls[db.confs[id].call].status == CallConfirmed
    requires executed == if status == CallSucceeded then db.executed + [db.confs[id].call] else db.executed
    ensures Sound(SetCall(db, db.confs[id].call, status).(executed := executed))
  {
    CallIsBasic(db, id, status);
    OwnCalls(db, id);
  }

  lemma {:induction false} CarryOutSoundIff(db: Db, run: nat, outcome: Outcome)
    requires Sound(db) && IsResuming(db, run)
    ensures Sound(CarryOut(db, run, outcome)) <==>
              (Answered(db, run) ==> outcome == Worked && CanCarryOut(db, db.runs[run].org, db.runs[run].task.value))
  {
    var id := db.runs[run].task.value;
    var left, kept := Leave(db, run, RunFailed), db.runs[run].(task := None);
    RunSoundIff(db, run, left.runs[run]);
    if Answered(db, run) {
      AnsweredIsCancelled(db, run);
    }
    if CanCarryOut(db, db.runs[run].org, id) {
      if outcome == Worked {
        RunSoundIff(db, run, kept);
        CallIsSound(db.(runs := db.runs[run := kept]), id, CallSucceeded, db.executed + [db.confs[id].call]);
      } else if outcome == BrokeMidway {
        if Answered(db, run) {
          var i :| 0 <= i < |db.replies| && db.replies[i].run == run;
          assert CarryOut(db, run, outcome).replies[i].run == run;
          assert !ClosedOnce(CarryOut(db, run, outcome));
        } else {
          CallIsSound(left, id, CallRunning, db.executed);
        }
      }
    }
  }

  lemma {:induction false} RunStepSoundIff(w: World, s: Step)
    requires Sound(w.db) && IsRunStep(s)
    ensures Sound(Moved(w.db, s)) <==> Timely(w, s)
  {
    if Moved(w.db, s) != w.db {
      RunStepChanges(w.db, s);
      RunSoundIff(w.db, s.run, Moved(w.db, s).runs[s.run]);
    }
    if Answered(w.db, s.run) {
      AnsweredIsCancelled(w.db, s.run);
    }
  }

  lemma {:induction false} MovedSoundIff(w: World, s: Step)
    requires Sound(w.db) && !s.WriteStep?
    ensures Sound(Moved(w.db, s)) <==> Timely(w, s)
  {
    if IsRunStep(s) {
      RunStepSoundIff(w, s);
    } else if s.StartStep? {
      StartIsBasic(w.db, s.org, s.session);
      assert Sound(StartRun(w.db, s.org, s.session));
    } else if s.AskStep? {
      AskIsSound(w.db, s.run, s.prior, s.requester, s.now);
    } else if s.CarryOutStep? {
      if IsResuming(w.db, s.run) {
        CarryOutSoundIff(w.db, s.run, s.outcome);
      }
    }
  }

  lemma {:induction false} AnswerSoundIff(db: Db, reply: Reply)
    requires Sound(db) && reply.run in db.runs
    ensures Sound(Answer(db, reply)) <==> !Answered(db, reply.run)
  {
    AnswerIsBasic(db, reply);
    var after := Answer(db, reply);
    if Answered(db, reply.run) {
      var i :| 0 <= i < |db.replies| && db.replies[i].run == reply.run;
      assert after.replies[i].run == after.replies[|db.replies|].run;
      assert !ClosedOnce(after);
    }
  }

  lemma {:induction false} MarkMatches(db: Db, task: Task)
    requires CallsMatch(db) && task.Mark? && TaskFits(db, task) && task.asked.Some?
    requires db.confs[task.id].status == Pending || db.confs[task.id].status == Expired
    ensures db.confs[task.id].call in Marked(db, task.id, task.outcome, task.asked).calls
    ensures Matches(task.outcome, Marked(db, task.id, task.outcome, task.asked).calls[db.confs[task.id].call].status)
  {
    MarkedChanges(db, task.id, task.outcome, task.asked);
    assert Matches(db.confs[task.id].status, db.calls[db.confs[task.id].call].status);
    if !task.asked.value {
      assert task.asked == Some(false);
      assert db.confs[task.id].status == Expired && task.outcome == Expired;
    }
  }

  lemma {:induction false} MarkIsSound(db: Db, task: Task)
    requires Sound(db) && task.Mark? && TaskFits(db, task) && task.asked.Some?
    requires db.confs[task.id].status == Pending || db.confs[task.id].status == Expired
    ensures var after := Marked(db, task.id, task.outcome, task.asked);
            Sound(after) && DecisionsStand(db, after)
  {
    MarkIsBasic(db, task.id, task.outcome, task.asked);
    MarkMatches(db, task);
    MarkedChanges(db, task.id, task.outcome, task.asked);
    OwnCalls(db, task.id);
  }

  lemma {:induction false} WriteSoundIff(db: Db, task: Task)
    requires Sound(db) && TaskFits(db, task)
    requires if task.Mark? then task.asked.Some? && task.waiting.Some? else task.reply.Some?
    ensures Sound(Written(db, task)) && DecisionsStand(db, Written(db, task)) <==> WriteIsTimely(db, task)
  {
    match task
    case Mark(id, outcome, locked, asked, waiting) =>
      assert Joined(db, id);
      MarkedChanges(db, id, outcome, asked);
      var marked := Marked(db, id, outcome, asked);
      assert Written(db, task).confs == marked.confs;
      if db.confs[id].status == Pending || db.confs[id].status == Expired {
        MarkIsSound(db, task);
        if Closes(task) {
          AnswerSoundIff(marked, Reply(db.confs[id].run, id, outcome));
          assert Answered(marked, db.confs[id].run) <==> Answered(db, db.confs[id].run);
        }
      } else {
        assert Written(db, task).confs[id].status == Expired;
      }
    case Visit(run, reply) => AnswerSoundIff(db, reply.value);
  }

  lemma {:induction false} WriteStepSoundIff(w: World, t: nat)
    requires SoundWorld(w) && Ready(w, t)
    ensures var after := Written(w.db, w.tasks[t]);
            Sound(after) && DecisionsStand(w.db, after) <==> WriteIsTimely(w.db, w.tasks[t])
  {
    assert TaskFits(w.db, w.tasks[t]);
    WriteSoundIff(w.db, w.tasks[t]);
  }

  /** Of all steps from a sound state, exactly the timely ones keep it sound and let every decision stand. */
  lemma {:induction false} StepIsSoundIff(w: World, s: Step)
    requires SoundWorld(w)
    ensures SoundWorld(Apply(w, s)) && DecisionsStand(w.db, Apply(w, s).db) <==> Timely(w, s)
  {
    assert BasicWorld(w);
    StepIsBasic(w, s);
    AppliedDb(w, s);
    if s.WriteStep? {
      if Ready(w, s.t) {
        WriteStepSoundIff(w, s.t);
      }
    } else {
      MovedSoundIff(w, s);
      MovedSameConfs(w.db, s);
    }
  }

  /** Sound in every state that the steps go through, and no decision taken back on the way. */
  ghost predicate SoundAlong(w: World, steps: seq<Step>)
    decreases |steps|
  {
    && SoundWorld(w)
    && (steps != [] ==>
          DecisionsStand(w.db, Apply(w, steps[0]).db) && SoundAlong(Apply(w, steps[0]), steps[1..]))
  }

  ghost predicate AllTimely(w: World, steps: seq<Step>)
    decreases |steps|
  {
    steps != [] ==> Timely(w, steps[0]) && AllTimely(Apply(w, steps[0]), steps[1..])
  }

  lemma {:induction false} AlwaysSoundIff(w: World, steps: seq<Step>)
    requires SoundWorld(w)
    ensures SoundAlong(w, steps) <==> AllTimely(w, steps)
    decreases |steps|
  {
    if steps != [] {
      StepIsSoundIff(w, steps[0]);
      if Timely(w, steps[0]) {
        AlwaysSoundIff(Apply(w, steps[0]), steps[1..]);
      }
    }
  }
}
