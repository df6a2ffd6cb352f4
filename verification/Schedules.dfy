/** Orders of reads and writes: undisturbed transactions do what they are meant to, and the schedules in
    which they do not, one by one. */
module Schedules {
  import opened Options
  import opened Confirmations
  import opened Interleavings
  import opened Coupling
  import ConfirmationDesk

  // ---- undisturbed ----

  lemma {:induction false} RunOfFour(w: World, a: Step, b: Step, c: Step, d: Step)
    ensures RunAll(w, [a, b, c, d]) == Apply(Apply(Apply(Apply(w, a), b), c), d)
  {
    RunOfThree(Apply(w, a), b, c, d);
    assert [a, b, c, d][1..] == [b, c, d];
  }

  lemma {:induction false} RunOfThree(w: World, a: Step, b: Step, c: Step)
    ensures RunAll(w, [a, b, c]) == Apply(Apply(Apply(w, a), b), c)
  {
    assert [a, b, c][1..] == [b, c] && [b, c][1..] == [c] && [c][1..] == [];
    assert RunAll(Apply(w, a), [b, c]) == RunAll(Apply(Apply(w, a), b), [c]);
    assert RunAll(Apply(Apply(w, a), b), [c]) == RunAll(Apply(Apply(Apply(w, a), b), c), []);
  }

  lemma {:induction false} RunOfOne(w: World, s: Step)
    ensures RunAll(w, [s]) == Apply(w, s)
  {
    assert [s][1..] == [] && RunAll(Apply(w, s), []) == Apply(w, s);
  }

  lemma {:induction false} RunSplits(w: World, a: seq<Step>, b: seq<Step>)
    ensures RunAll(w, a + b) == RunAll(RunAll(w, a), b)
    decreases |a|
  {
    if a == [] {
      assert a + b == b;
    } else {
      assert (a + b)[1..] == a[1..] + b;
      RunSplits(Apply(w, a[0]), a[1..], b);
    }
  }

  lemma {:induction false} Then(w: World, a: seq<Step>, between: World, b: seq<Step>, after: World)
    requires RunAll(w, a) == between && RunAll(between, b) == after
    ensures RunAll(w, a + b) == after
  {
    RunSplits(w, a, b);
  }

  /** A request alone decides, or expires what comes too late. */
  lemma {:induction false} UndisturbedDecision(w: World, t: nat, id: nat, user: User, now: int, approve: bool)
    requires Linked(w.db) && t !in w.tasks && !Locked(w, id)
    ensures RunAll(w, [DecideStep(t, id, user, now, approve), CallStep(t), RunStep(t), WriteStep(t)])
         == w.(db := Decide(w.db, id, user, now, approve))
  {
    RunOfFour(w, DecideStep(t, id, user, now, approve), CallStep(t), RunStep(t), WriteStep(t));
    var task := Lookup(w.db, id, user, now, approve);
    if task.Some? {
      ReadAndWritten(w, t, task.value);
      WrittenIsDecided(w.db, id, user, now, approve);
    }
  }

  lemma {:induction false} WrittenIsDecided(db: Db, id: nat, user: User, now: int, approve: bool)
    requires Linked(db) && Lookup(db, id, user, now, approve).Some?
    ensures var task := Lookup(db, id, user, now, approve).value;
            var read := task.(asked := Some(CallAsked(db, id)), waiting := Some(StillWaiting(db, db.confs[id])));
            Written(db, read) == Decide(db, id, user, now, approve)
  {
    assert Joined(db, id);
  }

  /** What the reads and the write make of a transaction that nothing comes between. */
  lemma {:induction false} ReadAndWritten(w: World, t: nat, task: Task)
    requires t !in w.tasks && task.Mark? && task.asked == None && task.waiting == None && task.id in w.db.confs
    requires !Locked(w, task.id)
    ensures var read := task.(asked := Some(CallAsked(w.db, task.id)),
                              waiting := Some(StillWaiting(w.db, w.db.confs[task.id])));
            var begun := w.(tasks := w.tasks[t := task]);
            Apply(Apply(Apply(begun, CallStep(t)), RunStep(t)), WriteStep(t)) == w.(db := Written(w.db, read))
  {
    var begun := w.(tasks := w.tasks[t := task]);
    var asked := task.(asked := Some(CallAsked(w.db, task.id)));
    var read := asked.(waiting := Some(StillWaiting(w.db, w.db.confs[task.id])));
    assert Apply(begun, CallStep(t)) == w.(tasks := w.tasks[t := asked]) by {
      assert w.tasks[t := task][t := asked] == w.tasks[t := asked];
    }
    var reading := w.(tasks := w.tasks[t := asked]);
    assert Apply(reading, RunStep(t)) == w.(tasks := w.tasks[t := read]) by {
      assert w.tasks[t := asked][t := read] == w.tasks[t := read];
    }
    var ready := w.(tasks := w.tasks[t := read]);
    assert Ready(ready, t) by {
      assert !read.locked ==> !IsLock(read, read.id);
      assert forall u :: u in ready.tasks && u != t ==> u in w.tasks && ready.tasks[u] == w.tasks[u];
      assert forall u :: u in w.tasks ==> !IsLock(w.tasks[u], read.id);
    }
    assert w.tasks[t := read] - {t} == w.tasks;
  }

  /** A sweep alone expires what is overdue. */
  lemma {:induction false} UndisturbedExpiry(w: World, t: nat, id: nat, now: int)
    requires Linked(w.db) && t !in w.tasks && !Locked(w, id)
    requires id in w.db.confs && w.db.confs[id].status == Pending && Overdue(w.db.confs[id], now)
    ensures RunAll(w, [FindStep(t, id, now), CallStep(t), RunStep(t), WriteStep(t)]) == w.(db := Expire(w.db, id))
  {
    RunOfFour(w, FindStep(t, id, now), CallStep(t), RunStep(t), WriteStep(t));
    ReadAndWritten(w, t, Mark(id, Expired, false, None, None));
    assert Joined(w.db, id);
  }

  /** And closes a waiting run whose newest confirmation is decided against. */
  lemma {:induction false} UndisturbedClosing(w: World, t: nat, id: nat)
    requires Linked(w.db) && t !in w.tasks && id in w.db.confs && IsLatest(w.db, id)
    requires DecidedAgainst(w.db.confs[id].status) && StillWaiting(w.db, w.db.confs[id])
    ensures RunAll(w, [ListStep(t, w.db.confs[id].run), NewestStep(t, id), WriteStep(t)])
         == w.(db := CloseTurn(w.db, id, w.db.confs[id].status))
  {
    var run := w.db.confs[id].run;
    RunOfThree(w, ListStep(t, run), NewestStep(t, id), WriteStep(t));
    var visit := Visit(run, Some(Reply(run, id, w.db.confs[id].status)));
    var listed := w.(tasks := w.tasks[t := Visit(run, None)]);
    assert Apply(w, ListStep(t, run)) == listed;
    assert Apply(listed, NewestStep(t, id)) == w.(tasks := w.tasks[t := visit]) by {
      assert w.tasks[t := Visit(run, None)][t := visit] == w.tasks[t := visit];
    }
    assert w.tasks[t := visit] - {t} == w.tasks;
  }

  // ---- one run ----

  const REQUESTER := User(7, 1, false)

  /** The state of one run that waits for its confirmed action, or for its pending one. */
  function Asked(confirmed: bool): Db {
    var conf := Confirmation(1, 0, 1, 7, if confirmed then Confirmed else Pending, Some(CONFIRMATION_SECONDS));
    Db(map[1 := conf], map[1 := ToolCall(if confirmed then CallConfirmed else ConfirmationRequired, 1)],
       map[0 := Run(1, 5, Waiting, Some(1), None, Nobody)], [], [], 2)
  }

  /** Nothing else is under way. */
  function Quiet(db: Db): World {
    World(db, map[])
  }

  /** A run at work, and one whose worker has committed its confirmation. */
  function Begun(asking: bool): Db {
    if asking then Asked(false).(runs := map[0 := Run(1, 5, Running, None, None, Asking(1))])
    else Db(map[], map[], map[0 := Run(1, 5, Running, None, None, AtWork)], [], [], 1)
  }

  const ASK := [StartStep(1, 5), WorkStep(0), AskStep(0, None, 7, 0)]

  lemma {:induction false} BegunIsReached()
    ensures RunAll(START, ASK) == Quiet(Begun(true))
  {
    RunOfThree(START, StartStep(1, 5), WorkStep(0), AskStep(0, None, 7, 0));
    assert Apply(Apply(START, StartStep(1, 5)), WorkStep(0)) == Quiet(Begun(false));
    assert Apply(Quiet(Begun(false)), AskStep(0, None, 7, 0)) == Quiet(Begun(true));
  }

  /** It is reached from the empty one. */
  lemma {:induction false} AskedIsReached()
    ensures RunAll(START, ASK + [SettleStep(0)]) == Quiet(Asked(false))
  {
    BegunIsReached();
    RunSplits(START, ASK, [SettleStep(0)]);
    RunOfOne(Quiet(Begun(true)), SettleStep(0));
    assert Apply(Quiet(Begun(true)), SettleStep(0)) == Quiet(Asked(false));
  }

  lemma {:induction false} ConfirmedIsReached()
    ensures RunAll(Quiet(Asked(false)), [DecideStep(9, 1, REQUESTER, 60, true), CallStep(9), RunStep(9), WriteStep(9)])
         == Quiet(Asked(true))
  {
    assert Joined(Asked(false), 1);
    UndisturbedDecision(Quiet(Asked(false)), 9, 1, REQUESTER, 60, true);
  }

  lemma {:induction false} AskedIsCoupled(confirmed: bool)
    ensures CoupledWorld(Quiet(Asked(confirmed)))
  {
    assert Joined(Asked(confirmed), 1);
  }

  // ---- a sweep that comes too late ----

  /** A sweep has found the confirmation overdue, or is further. */
  function Swept(confirmed: bool, asked: Option<bool>, waiting: Option<bool>): World {
    World(Asked(confirmed), map[8 := Mark(1, Expired, false, asked, waiting)])
  }

  lemma {:induction false} SweptIsReached()
    ensures RunAll(Quiet(Asked(false)), [FindStep(8, 1, 1801), CallStep(8), RunStep(8)])
         == Swept(false, Some(true), Some(true))
  {
    RunOfThree(Quiet(Asked(false)), FindStep(8, 1, 1801), CallStep(8), RunStep(8));
    assert Apply(Quiet(Asked(false)), FindStep(8, 1, 1801)) == Swept(false, None, None);
    assert Apply(Swept(false, None, None), CallStep(8)) == Swept(false, Some(true), None);
    assert Apply(Swept(false, Some(true), None), RunStep(8)) == Swept(false, Some(true), Some(true));
  }

  /** And a request holds its row. */
  function Held(sweep: Task, outcome: Status, asked: Option<bool>, waiting: Option<bool>): World {
    World(Asked(false), map[8 := sweep, 9 := Mark(1, outcome, true, asked, waiting)])
  }

  /** The request reads and writes while another transaction, `sweep`, is under way. */
  lemma {:induction false} HeldWrites(sweep: Task, outcome: Status)
    requires outcome != Pending && !IsLock(sweep, 1)
    ensures RunAll(Held(sweep, outcome, None, None), [CallStep(9), RunStep(9), WriteStep(9)])
         == World(Written(Asked(false), Mark(1, outcome, true, Some(true), Some(true))), map[8 := sweep])
  {
    var task := Mark(1, outcome, true, Some(true), Some(true));
    RunOfThree(Held(sweep, outcome, None, None), CallStep(9), RunStep(9), WriteStep(9));
    HeldReads(sweep, outcome);
    assert map[8 := sweep, 9 := task] - {9} == map[8 := sweep];
  }

  lemma {:induction false} HeldReads(sweep: Task, outcome: Status)
    ensures Apply(Held(sweep, outcome, None, None), CallStep(9)) == Held(sweep, outcome, Some(true), None)
    ensures Apply(Held(sweep, outcome, Some(true), None), RunStep(9)) == Held(sweep, outcome, Some(true), Some(true))
  {
  }

  /** The request's lookup is just in time; the sweep's query comes just after the deadline, before the
      request's write; all that the sweep does besides comes after it. */
  const OVERTAKEN := [DecideStep(9, 1, REQUESTER, 1800, true), FindStep(8, 1, 1801)]
  const DECIDED := [CallStep(9), RunStep(9), WriteStep(9)]
  const TAKEN_BACK := [CallStep(8), RunStep(8), WriteStep(8)]

  /** A confirmed decision is taken back: the confirmation is expired, its call still confirmed, and its run
      cancelled with a message. */
  function TakenBack(): Db {
    Asked(true).(confs := map[1 := Asked(true).confs[1].(status := Expired)],
                 runs := map[0 := Run(1, 5, Cancelled, Some(1), None, Nobody)], replies := [Reply(0, 1, Expired)])
  }

  lemma {:induction false} FoundWhileHeld()
    ensures RunAll(Quiet(Asked(false)), OVERTAKEN) == Held(Mark(1, Expired, false, None, None), Confirmed, None, None)
  {
    var locked := World(Asked(false), map[9 := Mark(1, Confirmed, true, None, None)]);
    RunOfOne(Quiet(Asked(false)), OVERTAKEN[0]);
    assert Apply(Quiet(Asked(false)), OVERTAKEN[0]) == locked;
    RunOfOne(locked, OVERTAKEN[1]);
    assert OVERTAKEN == [OVERTAKEN[0]] + [OVERTAKEN[1]];
    RunSplits(Quiet(Asked(false)), [OVERTAKEN[0]], [OVERTAKEN[1]]);
  }

  lemma {:induction false} ConfirmedOnce()
    ensures Written(Asked(false), Mark(1, Confirmed, true, Some(true), Some(true))) == Asked(true)
  {
  }

  lemma {:induction false} ConfirmedAfterQuery()
    ensures RunAll(Quiet(Asked(false)), OVERTAKEN + DECIDED) == Swept(true, None, None)
  {
    var sweep := Mark(1, Expired, false, None, None);
    FoundWhileHeld();
    HeldWrites(sweep, Confirmed);
    ConfirmedOnce();
    Then(Quiet(Asked(false)), OVERTAKEN, Held(sweep, Confirmed, None, None), DECIDED, Swept(true, None, None));
  }

  lemma {:induction false} SweepGoesOn()
    ensures RunAll(Swept(true, None, None), TAKEN_BACK) == Quiet(TakenBack())
    ensures !Timely(Swept(true, Some(false), Some(true)), WriteStep(8))
  {
    RunOfThree(Swept(true, None, None), CallStep(8), RunStep(8), WriteStep(8));
    assert Apply(Swept(true, None, None), CallStep(8)) == Swept(true, Some(false), None);
    assert Apply(Swept(true, Some(false), None), RunStep(8)) == Swept(true, Some(false), Some(true));
    assert Ready(Swept(true, Some(false), Some(true)), 8);
    assert Written(Asked(true), Mark(1, Expired, false, Some(false), Some(true))) == TakenBack();
  }

  lemma {:induction false} SweepTakesBack()
    ensures RunAll(START, ASK + [SettleStep(0)] + (OVERTAKEN + DECIDED)).db == Asked(true)
    ensures RunAll(START, ASK + [SettleStep(0)] + (OVERTAKEN + DECIDED) + TAKEN_BACK) == Quiet(TakenBack())
    ensures !DecisionsStand(Asked(true), TakenBack()) && !CallsMatch(TakenBack())
  {
    var first, second := ASK + [SettleStep(0)], OVERTAKEN + DECIDED;
    AskedIsReached();
    ConfirmedAfterQuery();
    SweepGoesOn();
    Then(START, first, Quiet(Asked(false)), second, Swept(true, None, None));
    Then(START, first + second, Swept(true, None, None), TAKEN_BACK, Quiet(TakenBack()));
    TakenBackIsUnsound();
  }

  lemma {:induction false} TakenBackIsUnsound()
    ensures !DecisionsStand(Asked(true), TakenBack()) && !CallsMatch(TakenBack())
  {
    assert 1 in TakenBack().confs;
  }

  /** The state after the `outcome` of one transaction, and after a second closing on top of it. */
  function Closed(outcome: Status, call: CallStatus, messages: seq<Reply>): Db {
    Asked(false).(confs := map[1 := Asked(false).confs[1].(status := outcome)], calls := map[1 := ToolCall(call, 1)],
                  runs := map[0 := Run(1, 5, Cancelled, Some(1), None, Nobody)], replies := messages)
  }

  /** A request's lookup, its reads and its write, while `sweep` is under way. */
  lemma {:induction false} HeldFromStart(sweep: Task, now: int, approve: bool, outcome: Status)
    requires !IsLock(sweep, 1)
    requires Lookup(Asked(false), 1, REQUESTER, now, approve) == Some(Mark(1, outcome, true, None, None))
    ensures RunAll(World(Asked(false), map[8 := sweep]), [DecideStep(9, 1, REQUESTER, now, approve)] + DECIDED)
         == World(Written(Asked(false), Mark(1, outcome, true, Some(true), Some(true))), map[8 := sweep])
  {
    var w, first := World(Asked(false), map[8 := sweep]), DecideStep(9, 1, REQUESTER, now, approve);
    RunOfOne(w, first);
    assert Apply(w, first) == Held(sweep, outcome, None, None);
    HeldWrites(sweep, outcome);
    Then(w, [first], Held(sweep, outcome, None, None), DECIDED, RunAll(Held(sweep, outcome, None, None), DECIDED));
  }

  const TWICE := [Reply(0, 1, Expired), Reply(0, 1, Expired)]

  /** The request has closed the turn; the sweep still has its write to do. */
  function ClosedOnceSoFar(): World {
    World(Closed(Expired, CallFailed, TWICE[..1]), map[8 := Mark(1, Expired, false, Some(true), Some(true))])
  }

  lemma {:induction false} SweepClosesAgain()
    ensures RunAll(ClosedOnceSoFar(), [WriteStep(8)]) == Quiet(Closed(Expired, CallFailed, TWICE))
  {
    var once := ClosedOnceSoFar();
    RunOfOne(once, WriteStep(8));
    assert Ready(once, 8);
    assert TWICE[..1] + [TWICE[1]] == TWICE;
  }

  lemma {:induction false} LateRequest()
    ensures RunAll(Swept(false, Some(true), Some(true)), [DecideStep(9, 1, REQUESTER, 1801, true)] + DECIDED)
         == ClosedOnceSoFar()
  {
    HeldFromStart(Mark(1, Expired, false, Some(true), Some(true)), 1801, true, Expired);
    DecidedOnce(Expired, CallFailed);
    assert TWICE[..1] == [Reply(0, 1, Expired)];
  }

  lemma {:induction false} DecidedOnce(outcome: Status, call: CallStatus)
    requires (outcome == Expired && call == CallFailed) || (outcome == Rejected && call == CallRejected)
    ensures Written(Asked(false), Mark(1, outcome, true, Some(true), Some(true)))
         == Closed(outcome, call, [Reply(0, 1, outcome)])
  {
  }

  /** A request that comes too late and a sweep both read the run as waiting: the chat gets two messages. */
  lemma {:induction false} TwoMessages()
    ensures RunAll(Swept(false, Some(true), Some(true)),
                   [DecideStep(9, 1, REQUESTER, 1801, true)] + DECIDED + [WriteStep(8)])
         == Quiet(Closed(Expired, CallFailed, TWICE))
    ensures !ClosedOnce(Closed(Expired, CallFailed, TWICE))
  {
    LateRequest();
    SweepClosesAgain();
    RunSplits(Swept(false, Some(true), Some(true)),
              [DecideStep(9, 1, REQUESTER, 1801, true)] + DECIDED, [WriteStep(8)]);
    TwiceIsNotOnce(Closed(Expired, CallFailed, TWICE));
  }

  lemma {:induction false} RejectedWhileListed()
    ensures RunAll(World(Asked(false), map[8 := Visit(0, None)]), [DecideStep(9, 1, REQUESTER, 60, false)] + DECIDED)
         == World(Closed(Rejected, CallRejected, [Reply(0, 1, Rejected)]), map[8 := Visit(0, None)])
  {
    HeldFromStart(Visit(0, None), 60, false, Rejected);
    DecidedOnce(Rejected, CallRejected);
  }

  /** So do a rejection and the sweep's second loop, when it has listed the run as waiting before and reads the
      confirmation after it. */
  lemma {:induction false} TwoMessagesByVisit()
    ensures RunAll(World(Asked(false), map[8 := Visit(0, None)]),
                   [DecideStep(9, 1, REQUESTER, 60, false)] + DECIDED + [NewestStep(8, 1), WriteStep(8)])
         == Quiet(Closed(Rejected, CallRejected, [Reply(0, 1, Rejected), Reply(0, 1, Rejected)]))
    ensures !ClosedOnce(Closed(Rejected, CallRejected, [Reply(0, 1, Rejected), Reply(0, 1, Rejected)]))
  {
    RejectedWhileListed();
    RunSplits(World(Asked(false), map[8 := Visit(0, None)]),
              [DecideStep(9, 1, REQUESTER, 60, false)] + DECIDED, [NewestStep(8, 1), WriteStep(8)]);
    VisitWrites(Closed(Rejected, CallRejected, [Reply(0, 1, Rejected)]), Reply(0, 1, Rejected));
    TwiceIsNotOnce(Closed(Rejected, CallRejected, [Reply(0, 1, Rejected), Reply(0, 1, Rejected)]));
  }

  lemma {:induction false} TwiceIsNotOnce(db: Db)
    requires |db.replies| == 2 && db.replies[0].run == db.replies[1].run
    ensures !ClosedOnce(db)
  {
  }

  lemma {:induction false} ListedWhileAsked()
    ensures Apply(Quiet(Asked(false)), ListStep(8, 0)) == World(Asked(false), map[8 := Visit(0, None)])
  {
  }

  lemma {:induction false} VisitWrites(db: Db, reply: Reply)
    requires reply == Reply(0, 1, Rejected) && db == Closed(Rejected, CallRejected, [reply])
    ensures RunAll(World(db, map[8 := Visit(0, None)]), [NewestStep(8, 1), WriteStep(8)])
         == Quiet(Closed(Rejected, CallRejected, [reply, reply]))
  {
    var w := World(db, map[8 := Visit(0, None)]);
    var seen := World(db, map[8 := Visit(0, Some(reply))]);
    RunSplits(w, [NewestStep(8, 1)], [WriteStep(8)]);
    RunOfOne(w, NewestStep(8, 1));
    assert Apply(w, NewestStep(8, 1)) == seen;
    RunOfOne(seen, WriteStep(8));
    assert Ready(seen, 8);
  }

  // ---- between a worker's two commits ----

  /** A worker that is lost there: the confirmation is pending behind a run that never waits for it. */
  lemma {:induction false} LostWhileAsking()
    ensures RunAll(START, ASK + [DieStep(0)])
         == Quiet(Begun(true).(runs := map[0 := Run(1, 5, Running, None, None, Nobody)]))
    ensures !Orderly(Quiet(Begun(true)), DieStep(0))
  {
    BegunIsReached();
    RunSplits(START, ASK, [DieStep(0)]);
    RunOfOne(Quiet(Begun(true)), DieStep(0));
  }

  /** The chat's run waits behind a decision against it. */
  function StuckRun(): Db {
    Db(map[1 := Confirmation(1, 0, 1, 7, Rejected, Some(CONFIRMATION_SECONDS))], map[1 := ToolCall(CallRejected, 1)],
       map[0 := Run(1, 5, Waiting, Some(1), None, Nobody)], [], [], 2)
  }

  /** A rejection there finds no waiting run to close; then the run waits, and only a sweep will end it. */
  lemma {:induction false} RejectedWhileAsking()
    ensures RunAll(START, ASK + REJECT + [SettleStep(0)]) == Quiet(StuckRun())
  {
    BegunIsReached();
    RejectedThere();
    RunSplits(START, ASK + REJECT, [SettleStep(0)]);
    RunSplits(START, ASK, REJECT);
  }

  lemma {:induction false} RejectedThere()
    ensures RunAll(RunAll(Quiet(Begun(true)), REJECT), [SettleStep(0)]) == Quiet(StuckRun())
  {
    var rejected := Quiet(Reject(Begun(true), 1));
    assert Joined(Begun(true), 1);
    UndisturbedDecision(Quiet(Begun(true)), 9, 1, REQUESTER, 60, false);
    assert RunAll(Quiet(Begun(true)), REJECT) == rejected;
    RunOfOne(rejected, SettleStep(0));
    SettledThere();
  }

  lemma {:induction false} SettledThere()
    ensures Apply(Quiet(Reject(Begun(true), 1)), SettleStep(0)) == Quiet(StuckRun())
  {
  }

  const REJECT := [DecideStep(9, 1, REQUESTER, 60, false), CallStep(9), RunStep(9), WriteStep(9)]

  /** That run, and another chat's that waits for its pending confirmation. */
  function Starving(): Db {
    var db := StuckRun();
    db.(confs := db.confs[3 := Confirmation(1, 2, 3, 8, Pending, Some(90 + CONFIRMATION_SECONDS))],
        calls := db.calls[3 := ToolCall(ConfirmationRequired, 3)],
        runs := db.runs[2 := Run(1, 6, Waiting, Some(3), None, Nobody)], next := 4)
  }

  lemma {:induction false} StarvingIsReached()
    ensures RunAll(Quiet(StuckRun()), [StartStep(1, 6), WorkStep(2), AskStep(2, None, 8, 90), SettleStep(2)])
         == Quiet(Starving())
  {
    RunOfFour(Quiet(StuckRun()), StartStep(1, 6), WorkStep(2), AskStep(2, None, 8, 90), SettleStep(2));
    var working := Quiet(StuckRun().(runs := StuckRun().runs[2 := Run(1, 6, Running, None, None, AtWork)], next := 3));
    assert Apply(Apply(Quiet(StuckRun()), StartStep(1, 6)), WorkStep(2)) == working;
    SecondAsks();
  }

  lemma {:induction false} SecondAsks()
    ensures var working := StuckRun().(runs := StuckRun().runs[2 := Run(1, 6, Running, None, None, AtWork)], next := 3);
            Apply(Apply(Quiet(working), AskStep(2, None, 8, 90)), SettleStep(2)) == Quiet(Starving())
  {
  }

  /** With room for one row in the sweep's second query, the healthy run can take it every time. */
  lemma {:induction false} HealthyStarvesStuck()
    ensures ConfirmationDesk.Stuck(Starving(), 0)
    ensures exists seen ::
              ConfirmationDesk.IsPick(Starving(), 1, seen) && ConfirmationDesk.StuckIn(Starving(), seen) == {}
  {
    var db := Starving();
    assert 1 in ConfirmationDesk.OfRun(db, 0) && IsLatest(db, 1);
    assert !ConfirmationDesk.Stuck(db, 2);
    var healthy := ConfirmationDesk.WaitingSet(db) - ConfirmationDesk.StuckIn(db, ConfirmationDesk.WaitingSet(db));
    assert healthy == {2};
    ConfirmationDesk.StarvedIff(db, 0, 1);
  }

  // ---- resuming ----

  /** The user approves, the action fails: the call is confirmed for good behind a failed run. */
  lemma {:induction false} FailedActionLeavesCall()
    ensures var after := Asked(true).(runs := map[0 := Run(1, 5, RunFailed, Some(1), None, Nobody)]);
            RunAll(Quiet(Asked(true)), [ClaimStep(0, None), WorkStep(0), CarryOutStep(0, Broke)]) == Quiet(after)
            && LeftBehind(after, 1) && after.executed == []
  {
    Resumed(true, Broke);
  }

  /** A resumption requested before the decision: the confirmation is pending behind a run that has failed. */
  lemma {:induction false} EarlyClaimUncouples()
    ensures var after := Asked(false).(runs := map[0 := Run(1, 5, RunFailed, Some(1), None, Nobody)]);
            RunAll(Quiet(Asked(false)), [ClaimStep(0, None), WorkStep(0), CarryOutStep(0, Worked)]) == Quiet(after)
            && 1 in after.confs && after.confs[1].status == Pending && !Invariant(after)
  {
    var after := Asked(false).(runs := map[0 := Run(1, 5, RunFailed, Some(1), None, Nobody)]);
    Resumed(false, Worked);
    assert 1 in after.confs && (Joined(after, 1) ==> !ConfirmationCoupled(after, 1));
  }

  lemma {:induction false} Resumed(confirmed: bool, outcome: Outcome)
    requires confirmed ==> outcome == Broke
    ensures RunAll(Quiet(Asked(confirmed)), [ClaimStep(0, None), WorkStep(0), CarryOutStep(0, outcome)])
         == Quiet(Asked(confirmed).(runs := map[0 := Run(1, 5, RunFailed, Some(1), None, Nobody)]))
  {
    var w := Quiet(Asked(confirmed));
    RunOfThree(w, ClaimStep(0, None), WorkStep(0), CarryOutStep(0, outcome));
    var working := Quiet(Asked(confirmed).(runs := map[0 := Run(1, 5, Running, Some(1), Some(1), AtWork)]));
    assert Apply(Apply(w, ClaimStep(0, None)), WorkStep(0)) == working;
  }

  // ---- two runs, one confirmation ----

  /** The same question asked again while the card is open. */
  function AskedTwice(): Db {
    WithSecond(Run(1, 5, Waiting, Some(1), None, Nobody))
  }

  function WithSecond(second: Run): Db {
    var db := Asked(false);
    db.(runs := db.runs[2 := second], next := 3)
  }

  lemma {:induction false} AskedTwiceIsReached()
    ensures RunAll(Quiet(Asked(false)), [StartStep(1, 5), WorkStep(2), AskStep(2, Some(1), 7, 60), SettleStep(2)])
         == Quiet(AskedTwice())
  {
    RunOfFour(Quiet(Asked(false)), StartStep(1, 5), WorkStep(2), AskStep(2, Some(1), 7, 60), SettleStep(2));
    var started := Quiet(WithSecond(Run(1, 5, Running, None, None, Nobody)));
    var working := Quiet(WithSecond(Run(1, 5, Running, None, None, AtWork)));
    var asking := Quiet(WithSecond(Run(1, 5, Running, None, None, Asking(1))));
    assert Apply(Quiet(Asked(false)), StartStep(1, 5)) == started;
    assert Apply(started, WorkStep(2)) == working;
    SecondReuses();
  }

  lemma {:induction false} SecondReuses()
    ensures Apply(Quiet(WithSecond(Run(1, 5, Running, None, None, AtWork))), AskStep(2, Some(1), 7, 60))
         == Quiet(WithSecond(Run(1, 5, Running, None, None, Asking(1))))
    ensures Apply(Quiet(WithSecond(Run(1, 5, Running, None, None, Asking(1)))), SettleStep(2)) == Quiet(AskedTwice())
  {
  }

  /** The decision would be accepted, and no card is offered for the session, whose newest waiting run has no
      confirmation of its own. */
  lemma {:induction false} ReuseHidesCard()
    ensures !Invariant(AskedTwice()) && Check(AskedTwice(), 1, REQUESTER, 60) == Accepted
    ensures forall c :: !IsOffered(AskedTwice(), 5, 1, 60, c)
  {
    var db := AskedTwice();
    assert 2 in db.runs && !RunCoupled(db, 2);
    assert 2 in WaitingRuns(db, 5, 1);
  }

  /** Rejecting it ends the first run only. From there on no decision, expiry, sweep or other run's step ever
      moves the second. */
  lemma {:induction false} SecondRunStuck(steps: seq<Step>)
    requires NeverClaimed(steps, 2)
    ensures Stranded(RunAll(RunAll(Quiet(AskedTwice()), REJECT), steps).db, 2)
  {
    SecondStranded();
    StrandedUnlessClaimed(RunAll(Quiet(AskedTwice()), REJECT), steps, 2);
    StrandedForGood(RunAll(Quiet(AskedTwice()), REJECT), steps, 2);
  }

  lemma {:induction false} SecondStranded()
    ensures var rejected := RunAll(Quiet(AskedTwice()), REJECT);
            BasicWorld(rejected) && Stranded(rejected.db, 2) && OwnsNone(rejected.db, 2)
  {
    AskedTwiceIsBasic();
    AlwaysBasic(Quiet(AskedTwice()), REJECT);
    RejectedTwice();
  }

  lemma {:induction false} RejectedTwice()
    ensures RunAll(Quiet(AskedTwice()), REJECT).db == Reject(AskedTwice(), 1)
  {
    assert Joined(AskedTwice(), 1);
    UndisturbedDecision(Quiet(AskedTwice()), 9, 1, REQUESTER, 60, false);
  }

  lemma {:induction false} AskedTwiceIsBasic()
    ensures BasicWorld(Quiet(AskedTwice()))
  {
    AskedIsCoupled(false);
    AskedTwiceIsReached();
    AlwaysBasic(Quiet(Asked(false)), [StartStep(1, 5), WorkStep(2), AskStep(2, Some(1), 7, 60), SettleStep(2)]);
  }
}
