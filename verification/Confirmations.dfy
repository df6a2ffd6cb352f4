/** Confirmations of the assistant's actions: three coupled state machines (confirmation, tool
    call, run) and the changes that transactions make to them. `Interleavings` is about the order of
    their reads and writes. */
module Confirmations {
  import opened Options

  datatype Status = Pending | Confirmed | Rejected | Expired

  datatype CallStatus = ConfirmationRequired | CallConfirmed | CallRunning | CallRejected | CallSucceeded | CallFailed

  datatype RunStatus = Running | Waiting | Succeeded | RunFailed | Interrupted | Cancelled

  /** Confirmations are numbered in the order they were created. */
  datatype Confirmation = Confirmation(
    org: nat, run: nat, call: nat, requester: nat, status: Status, expiresAt: Option<int>)

  datatype ToolCall = ToolCall(status: CallStatus, confirmation: nat)

  /** The worker that answers in a run: none, one at work, or one that has committed the confirmation it
      is about to wait for. It writes its run's status without looking at it again. */
  datatype Worker = Nobody | AtWork | Asking(confirmation: nat)

  /** `waitsFor` is the confirmation in the run's saved provider state; `task` is the confirmation of a
      resumption that is queued for the run, or that its worker has taken up. */
  datatype Run = Run(
    org: nat, session: nat, status: RunStatus, waitsFor: Option<nat>, task: Option<nat>, worker: Worker)

  /** The closing message of a turn whose action will not run. */
  datatype Reply = Reply(run: nat, confirmation: nat, outcome: Status)

  /** `executed` lists the confirmed calls that were carried out, in order. */
  datatype Db = Db(confs: map<nat, Confirmation>, calls: map<nat, ToolCall>, runs: map<nat, Run>,
                   replies: seq<Reply>, executed: seq<nat>, next: nat)

  /** How long a decision may take, in seconds. */
  const CONFIRMATION_SECONDS := 30 * 60

  const EMPTY := Db(map[], map[], map[], [], [], 0)

  datatype User = User(id: nat, org: nat, admin: bool)

  datatype Decision = NotFound | Forbidden | AlreadyDecided | TooLate | Accepted

  predicate Overdue(c: Confirmation, now: int) {
    c.expiresAt.Some? && c.expiresAt.value < now
  }

  /** What the lookup before a decision answers. */
  function Check(db: Db, id: nat, user: User, now: int): Decision {
    if id !in db.confs || db.confs[id].org != user.org then NotFound
    else if db.confs[id].requester != user.id && !user.admin then Forbidden
    else if db.confs[id].status != Pending then AlreadyDecided
    else if Overdue(db.confs[id], now) then TooLate
    else Accepted
  }

  /** Who may decide what: every answer with its exact condition. */
  lemma {:induction false} CheckMeans(db: Db, id: nat, user: User, now: int)
    ensures Check(db, id, user, now) == NotFound <==> !(id in db.confs && db.confs[id].org == user.org)
    ensures Check(db, id, user, now) == Forbidden <==>
              id in db.confs && db.confs[id].org == user.org && db.confs[id].requester != user.id && !user.admin
    ensures Check(db, id, user, now) == AlreadyDecided <==>
              && id in db.confs && db.confs[id].org == user.org && (db.confs[id].requester == user.id || user.admin)
              && db.confs[id].status != Pending
    ensures Check(db, id, user, now) == TooLate <==>
              && id in db.confs && db.confs[id].org == user.org && (db.confs[id].requester == user.id || user.admin)
              && db.confs[id].status == Pending
              && db.confs[id].expiresAt.Some? && db.confs[id].expiresAt.value < now
    ensures Check(db, id, user, now) == Accepted <==>
              && id in db.confs && db.confs[id].org == user.org && (db.confs[id].requester == user.id || user.admin)
              && db.confs[id].status == Pending
              && (db.confs[id].expiresAt.Some? ==> now <= db.confs[id].expiresAt.value)
  {
  }

  // ---- the changes ----

  function SetStatus(db: Db, id: nat, status: Status): Db
    requires id in db.confs
  {
    db.(confs := db.confs[id := db.confs[id].(status := status)])
  }

  function SetCall(db: Db, call: nat, status: CallStatus): Db {
    if call in db.calls then db.(calls := db.calls[call := db.calls[call].(status := status)]) else db
  }

  /** A new status from outside. A queued resumption goes with it; a worker keeps the one it has. */
  function SetRun(db: Db, run: nat, status: RunStatus): Db
    requires run in db.runs
  {
    var r := db.runs[run];
    db.(runs := db.runs[run := r.(status := status, task := if r.worker == Nobody then None else r.task)])
  }

  /** A worker's last write. */
  function Leave(db: Db, run: nat, status: RunStatus): Db
    requires run in db.runs
  {
    db.(runs := db.runs[run := db.runs[run].(status := status, task := None, worker := Nobody)])
  }

  predicate StillWaiting(db: Db, c: Confirmation) {
    c.run in db.runs && db.runs[c.run].org == c.org && db.runs[c.run].status == Waiting
  }

  /** End the turn behind a confirmation that will not run; nothing happens unless the run is still
      waiting. */
  function CloseTurn(db: Db, id: nat, outcome: Status): Db
    requires id in db.confs
  {
    var c := db.confs[id];
    if StillWaiting(db, c) then Answer(db, Reply(c.run, id, outcome)) else db
  }

  /** The closing message, and the cancelled run. */
  function Answer(db: Db, reply: Reply): Db
    requires reply.run in db.runs
  {
    SetRun(db, reply.run, Cancelled).(replies := db.replies + [reply])
  }

  function Expire(db: Db, id: nat): Db
    requires id in db.confs
  {
    var marked := SetStatus(db, id, Expired);
    var call := db.confs[id].call;
    var failed := if call in db.calls && db.calls[call].status == ConfirmationRequired
                  then SetCall(marked, call, CallFailed) else marked;
    CloseTurn(failed, id, Expired)
  }

  function Confirm(db: Db, id: nat): Db
    requires id in db.confs
  {
    SetCall(SetStatus(db, id, Confirmed), db.confs[id].call, CallConfirmed)
  }

  function Reject(db: Db, id: nat): Db
    requires id in db.confs
  {
    CloseTurn(SetCall(SetStatus(db, id, Rejected), db.confs[id].call, CallRejected), id, Rejected)
  }

  function Decide(db: Db, id: nat, user: User, now: int, approve: bool): Db {
    match Check(db, id, user, now)
    case Accepted => if approve then Confirm(db, id) else Reject(db, id)
    case TooLate => Expire(db, id)
    case _ => db
  }

  /** What a request changes: nothing unless it comes from the requester or an admin of the organisation while
      the confirmation is pending; then the decision or, past the deadline, the expiry, the call's status with it,
      and, for a decision against it, the run that still waits and one message. */
  lemma {:induction false} DecideMeans(db: Db, id: nat, user: User, now: int, approve: bool)
    requires id in db.confs ==> Joined(db, id)
    requires id in db.confs && db.confs[id].status == Pending ==>
               db.calls[db.confs[id].call].status == ConfirmationRequired
    ensures var after := Decide(db, id, user, now, approve);
            if id !in db.confs || db.confs[id].org != user.org || (db.confs[id].requester != user.id && !user.admin)
               || db.confs[id].status != Pending
            then after == db
            else
              var conf, call, run := db.confs[id], db.calls[db.confs[id].call], db.runs[db.confs[id].run];
              var late := conf.expiresAt.Some? && conf.expiresAt.value < now;
              var outcome := if late then Expired else if approve then Confirmed else Rejected;
              var closes := outcome != Confirmed && run.status == Waiting;
              && after.confs == db.confs[id := conf.(status := outcome)]
              && after.calls == db.calls[conf.call := call.(status :=
                   if late then CallFailed else if approve then CallConfirmed else CallRejected)]
              && after.runs.Keys == db.runs.Keys
              && (forall r :: r in db.runs && (r != conf.run || !closes) ==> after.runs[r] == db.runs[r])
              && (closes ==> after.runs[conf.run].status == Cancelled)
              && after.replies == db.replies + (if closes then [Reply(conf.run, id, outcome)] else [])
              && after.executed == db.executed && after.next == db.next
  {
  }

  function StartRun(db: Db, org: nat, session: nat): Db {
    db.(runs := db.runs[db.next := Run(org, session, Running, None, None, Nobody)], next := db.next + 1)
  }

  /** A worker takes up a run, if it is still running. */
  function Work(db: Db, run: nat): Db {
    if run in db.runs && db.runs[run].status == Running && db.runs[run].worker == Nobody
    then db.(runs := db.runs[run := db.runs[run].(worker := AtWork)]) else db
  }

  predicate IsOver(how: RunStatus) {
    how != Waiting && how != Running
  }

  /** The run has a worker, and nothing to resume. */
  predicate Working(db: Db, run: nat) {
    run in db.runs && db.runs[run].worker == AtWork && db.runs[run].task == None
  }

  /** A repeated call gets back the pending confirmation of an earlier one in the same chat. */
  predicate CanReuse(db: Db, run: nat, id: nat) {
    && id in db.confs && db.confs[id].status == Pending
    && db.confs[id].call in db.calls && db.calls[db.confs[id].call].status == ConfirmationRequired
    && db.confs[id].run in db.runs && run in db.runs
    && db.runs[db.confs[id].run].org == db.runs[run].org
    && db.runs[db.confs[id].run].session == db.runs[run].session
  }

  /** A worker asks for an action that needs a confirmation: it gets that of an earlier, identical call
      `prior` that is still pending, otherwise it commits a new one. */
  function Ask(db: Db, run: nat, prior: Option<nat>, requester: nat, now: int): Db {
    if !Working(db, run) then db
    else if prior.Some? && CanReuse(db, run, prior.value) then
      db.(runs := db.runs[run := db.runs[run].(worker := Asking(prior.value))])
    else AskAnew(db, run, requester, now)
  }

  function AskAnew(db: Db, run: nat, requester: nat, now: int): Db
    requires run in db.runs
  {
    var id := db.next;
    var conf := Confirmation(db.runs[run].org, run, id, requester, Pending, Some(now + CONFIRMATION_SECONDS));
    db.(confs := db.confs[id := conf],
        calls := db.calls[id := ToolCall(ConfirmationRequired, id)],
        runs := db.runs[run := db.runs[run].(worker := Asking(id))],
        next := id + 1)
  }

  predicate IsAsking(db: Db, run: nat) {
    run in db.runs && db.runs[run].worker.Asking?
  }

  /** It then lets its run wait, in a second transaction, and is done. */
  function Settle(db: Db, run: nat): Db {
    if !IsAsking(db, run) then db
    else
      var r := db.runs[run];
      db.(runs := db.runs[run := r.(status := Waiting, waitsFor := Some(r.worker.confirmation), worker := Nobody)])
  }

  /** A worker ends its run: with the answer, an error, a Stop, or at a shutdown. */
  function Finish(db: Db, run: nat, how: RunStatus): Db {
    if run in db.runs && db.runs[run].worker != Nobody && IsOver(how) then Leave(db, run, how) else db
  }

  /** A worker is lost with what it was doing. */
  function Die(db: Db, run: nat): Db {
    if run in db.runs && db.runs[run].worker != Nobody then Leave(db, run, db.runs[run].status) else db
  }

  /** A running run is ended from outside: it could not be queued, or a Stop or the periodic check found no
      worker. */
  function EndRun(db: Db, run: nat, how: RunStatus): Db {
    if run in db.runs && db.runs[run].status == Running && IsOver(how) then SetRun(db, run, how) else db
  }

  /** The first half of resuming, committed alone: of several requests one moves the waiting run on.
      `named` is the confirmation in the request, if any. */
  function Claim(db: Db, run: nat, named: Option<nat>): Db {
    if run !in db.runs || db.runs[run].status != Waiting then db
    else
      var id := if named.Some? then named else db.runs[run].waitsFor;
      if id == None then SetRun(db, run, RunFailed)
      else db.(runs := db.runs[run := db.runs[run].(status := Running, task := id)])
  }

  /** A confirmed confirmation of the run's own organisation, not yet carried out. */
  predicate CanCarryOut(db: Db, org: nat, id: nat) {
    && id in db.confs && db.confs[id].org == org && db.confs[id].status == Confirmed
    && db.confs[id].call in db.calls && db.calls[db.confs[id].call].status == CallConfirmed
  }

  /** What becomes of the action: it works, it fails and everything is rolled back, or it fails after
      committing part of its work. */
  datatype Outcome = Worked | Broke | BrokeMidway

  /** The second half: the worker carries out the confirmed call. When that fails, the rollback puts the
      call back to what was last committed, and the run fails. */
  function CarryOut(db: Db, run: nat, outcome: Outcome): Db {
    if run !in db.runs || db.runs[run].worker != AtWork || db.runs[run].task == None then db
    else
      var id := db.runs[run].task.value;
      if !CanCarryOut(db, db.runs[run].org, id) then Leave(db, run, RunFailed)
      else
        var call := db.confs[id].call;
        match outcome
        case Worked =>
          SetCall(db.(runs := db.runs[run := db.runs[run].(task := None)]), call, CallSucceeded)
          .(executed := db.executed + [call])
        case Broke => Leave(db, run, RunFailed)
        case BrokeMidway => SetCall(Leave(db, run, RunFailed), call, CallRunning)
  }

  // ---- what every state keeps, whatever the steps ----

  /** The records belong together: a confirmation has a call of its own and a run of its own org. */
  ghost predicate Linked(db: Db) {
    && (forall c :: c in db.confs ==> Joined(db, c))
    && (forall i :: i in db.confs || i in db.calls || i in db.runs ==> i < db.next)
  }

  ghost predicate Joined(db: Db, c: nat)
    requires c in db.confs
  {
    var conf := db.confs[c];
    && conf.call in db.calls && db.calls[conf.call].confirmation == c
    && conf.run in db.runs && db.runs[conf.run].org == conf.org
  }

  predicate Matches(status: Status, call: CallStatus) {
    match status
    case Pending => call == ConfirmationRequired
    case Confirmed => call == CallConfirmed || call == CallRunning || call == CallSucceeded
    case Rejected => call == CallRejected
    case Expired => call == CallFailed
  }

  ghost predicate CallsMatch(db: Db) {
    forall c :: c in db.confs ==>
      db.confs[c].call in db.calls && Matches(db.confs[c].status, db.calls[db.confs[c].call].status)
  }

  /** A run gets at most one closing message, and is cancelled from then on. */
  ghost predicate ClosedOnce(db: Db) {
    && (forall i :: 0 <= i < |db.replies| ==>
          db.replies[i].run in db.runs && db.runs[db.replies[i].run].status == Cancelled)
    && (forall i, j :: 0 <= i < j < |db.replies| ==> db.replies[i].run != db.replies[j].run)
  }

  predicate Answered(db: Db, run: nat) {
    exists i :: 0 <= i < |db.replies| && db.replies[i].run == run
  }

  /** No call was carried out twice, or can be: one that was carried out is decided and not confirmed. */
  ghost predicate ExecutedOnce(db: Db) {
    && (forall i :: 0 <= i < |db.executed| ==> IsSpent(db, db.executed[i]))
    && (forall i, j :: 0 <= i < j < |db.executed| ==> db.executed[i] != db.executed[j])
  }

  predicate IsSpent(db: Db, call: nat) {
    && call in db.calls && db.calls[call].status in {CallSucceeded, CallFailed}
    && db.calls[call].confirmation in db.confs && db.confs[db.calls[call].confirmation].status != Pending
  }

  /** A waiting run waits for some confirmation and has no worker; a worker that asks has one to wait for; and
      a pending confirmation waits for its call. */
  ghost predicate WaitsForSome(db: Db) {
    && (forall r :: r in db.runs && db.runs[r].status == Waiting ==>
          db.runs[r].waitsFor.Some? && db.runs[r].waitsFor.value in db.confs && db.runs[r].worker == Nobody)
    && (forall r :: r in db.runs && db.runs[r].worker.Asking? ==> db.runs[r].worker.confirmation in db.confs)
    && (forall c :: c in db.confs && db.confs[c].status == Pending ==>
          db.confs[c].call in db.calls && db.calls[db.confs[c].call].status == ConfirmationRequired)
  }

  /** What no interleaving of the transactions can break. */
  ghost predicate Basic(db: Db) {
    Linked(db) && ExecutedOnce(db) && WaitsForSome(db)
  }

  /** What holds besides as long as no transaction writes over a decision or a closing it has not seen. */
  ghost predicate Sound(db: Db) {
    Basic(db) && CallsMatch(db) && ClosedOnce(db)
  }

  /** No decision is ever taken back: a confirmation leaves pending at most once. */
  ghost predicate DecisionsStand(before: Db, after: Db) {
    forall c :: c in before.confs ==>
      c in after.confs && (before.confs[c].status != Pending ==> after.confs[c] == before.confs[c])
  }

  predicate DecidedAgainst(s: Status) {
    s == Rejected || s == Expired
  }

  predicate IsLatest(db: Db, c: nat)
    requires c in db.confs
  {
    forall d :: d in db.confs && db.confs[d].run == db.confs[c].run ==> d <= c
  }

  // ---- the coupling of the three state machines ----

  /** Its own run waits for the confirmation, or is about to. */
  predicate IsAwaited(db: Db, c: nat) {
    && c in db.confs && db.confs[c].run in db.runs
    && var run := db.runs[db.confs[c].run];
       (run.status == Waiting && run.waitsFor == Some(c)) || run.worker == Asking(c)
  }

  /** A pending confirmation is awaited by its run; one decided against has ended its run, with a message. */
  ghost predicate ConfirmationCoupled(db: Db, c: nat)
    requires c in db.confs && Joined(db, c)
  {
    && (db.confs[c].status == Pending ==> IsAwaited(db, c))
    && (DecidedAgainst(db.confs[c].status) ==>
          db.runs[db.confs[c].run].status == Cancelled && Answered(db, db.confs[c].run))
  }

  /** Still to be decided, or decided for and not yet carried out. */
  predicate Open(db: Db, c: nat)
    requires c in db.confs
  {
    var conf := db.confs[c];
    conf.status == Pending || (conf.call in db.calls && db.calls[conf.call].status == CallConfirmed)
  }

  predicate OpenOf(db: Db, c: nat, run: nat) {
    c in db.confs && db.confs[c].run == run && Open(db, c)
  }

  /** What a run waits for, or is about to wait for or to carry out, is an open confirmation of its own; and
      an answered run has no worker. */
  ghost predicate RunCoupled(db: Db, r: nat)
    requires r in db.runs
  {
    var run := db.runs[r];
    && (run.status == Waiting ==> run.waitsFor.Some? && OpenOf(db, run.waitsFor.value, r))
    && (run.worker.Asking? ==> OpenOf(db, run.worker.confirmation, r) && run.task == None)
    && (run.task.Some? ==>
          && run.task == run.waitsFor && OpenOf(db, run.task.value, r)
          && db.confs[run.task.value].status == Confirmed
          && (run.worker == AtWork || (run.worker == Nobody && run.status == Running)))
    && (Answered(db, r) ==> run.worker == Nobody)
  }

  ghost predicate Invariant(db: Db) {
    && Sound(db)
    && (forall c :: c in db.confs ==> ConfirmationCoupled(db, c))
    && (forall r :: r in db.runs ==> RunCoupled(db, r))
  }

  lemma {:induction false} EmptyIsCoupled()
    ensures Invariant(EMPTY)
  {
  }

  /** What the invariant says in the plain terms of the three state machines. */
  lemma {:induction false} InvariantMeans(db: Db, c: nat, d: nat)
    requires Invariant(db) && c in db.confs && d in db.confs
    ensures var call, run := db.calls[db.confs[c].call].status, db.runs[db.confs[c].run];
            match db.confs[c].status
            case Pending => call == ConfirmationRequired && (run.status == Waiting || run.worker == Asking(c))
            case Confirmed => call == CallConfirmed || call == CallRunning || call == CallSucceeded
            case Rejected => call == CallRejected && run.status == Cancelled && run.worker == Nobody
            case Expired => call == CallFailed && run.status == Cancelled && run.worker == Nobody
    ensures db.confs[c].status == Pending && db.confs[d].status == Pending && db.confs[c].run == db.confs[d].run
            ==> c == d
  {
    assert ConfirmationCoupled(db, c) && ConfirmationCoupled(db, d);
    assert RunCoupled(db, db.confs[c].run);
  }

  /** In a coupled state no run waits behind a decision against it, so the sweep has none to close. */
  lemma {:induction false} NothingStuck(db: Db, id: nat)
    requires Invariant(db) && id in db.confs && DecidedAgainst(db.confs[id].status)
    ensures CloseTurn(db, id, db.confs[id].status) == db
  {
    assert ConfirmationCoupled(db, id);
  }

  // ---- the card that is shown again ----

  function WaitingRuns(db: Db, session: nat, org: nat): set<nat> {
    set r | r in db.runs && db.runs[r].session == session && db.runs[r].org == org && db.runs[r].status == Waiting
  }

  function PendingOf(db: Db, run: nat): set<nat> {
    set c | c in db.confs && db.confs[c].run == run && db.confs[c].status == Pending
  }

  /** The newest waiting run of a session. */
  predicate IsLatestWaiting(db: Db, session: nat, org: nat, r: nat) {
    && r in WaitingRuns(db, session, org)
    && (forall q :: q in WaitingRuns(db, session, org) ==> q <= r)
  }

  /** The query: the newest pending confirmation of that run, unless it is overdue. */
  ghost predicate IsOffered(db: Db, session: nat, org: nat, now: int, c: nat) {
    && c in db.confs && !Overdue(db.confs[c], now)
    && IsLatestWaiting(db, session, org, db.confs[c].run)
    && c in PendingOf(db, db.confs[c].run)
    && (forall d :: d in PendingOf(db, db.confs[c].run) ==> d <= c)
  }

  /** In any state: offered is what its requester's decision would be accepted for, of the session's newest
      waiting run, and of that run's pending confirmations the newest. */
  lemma {:induction false} OfferedIff(db: Db, session: nat, org: nat, now: int, c: nat)
    requires c in db.confs && Linked(db)
    ensures IsOffered(db, session, org, now, c) <==>
              && IsLatestWaiting(db, session, org, db.confs[c].run)
              && Check(db, c, User(db.confs[c].requester, db.confs[c].org, false), now) == Accepted
              && forall d :: d in PendingOf(db, db.confs[c].run) ==> d <= c
  {
  }

  /** In a coupled state a run has one pending confirmation at most: the card is offered exactly when its
      requester's decision would be accepted, for the session's newest waiting run. */
  lemma {:induction false} OfferedIffAccepted(db: Db, session: nat, org: nat, now: int, c: nat)
    requires Invariant(db) && c in db.confs
    ensures IsOffered(db, session, org, now, c) <==>
              && IsLatestWaiting(db, session, org, db.confs[c].run)
              && Check(db, c, User(db.confs[c].requester, db.confs[c].org, false), now) == Accepted
  {
    OfferedIff(db, session, org, now, c);
    forall d | d in PendingOf(db, db.confs[c].run) && db.confs[c].status == Pending ensures d == c {
      InvariantMeans(db, c, d);
    }
  }
}
