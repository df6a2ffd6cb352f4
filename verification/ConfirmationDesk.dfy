/** The requests that decide a confirmation, the periodic sweep and the restored card, over a
    database session with an explicit commit and a rollback when a request ends in an error. A session is
    alone with the database here; `Schedules` ties it to the steps of `Interleavings`. */
module ConfirmationDesk {
  import opened Options
  import opened Confirmations
  import opened Coupling

  function OverdueSet(db: Db, now: int): set<nat> {
    set c | c in db.confs && db.confs[c].status == Pending && Overdue(db.confs[c], now)
  }

  function WaitingSet(db: Db): set<nat> {
    set r | r in db.runs && db.runs[r].status == Waiting
  }

  function OfRun(db: Db, run: nat): set<nat> {
    set c | c in db.confs && db.confs[c].run == run
  }

  /** A waiting run whose latest confirmation was decided against. */
  ghost predicate Stuck(db: Db, run: nat) {
    && run in db.runs && db.runs[run].status == Waiting
    && exists c :: c in OfRun(db, run) && IsLatest(db, c) && DecidedAgainst(db.confs[c].status)
  }

  /** Nothing is left for a sweep to do. */
  ghost predicate Settled(db: Db, now: int) {
    OverdueSet(db, now) == {} && NoneStuck(db)
  }

  ghost predicate NoneStuck(db: Db) {
    forall r :: r in db.runs ==> !Stuck(db, r)
  }

  /** All that a sweep may change: overdue pending confirmations expire, and waiting runs of which
      some confirmation is decided against are cancelled, each change of a run with one message. */
  ghost predicate OnlySwept(before: Db, after: Db, now: int) {
    && after.confs.Keys == before.confs.Keys && after.runs.Keys == before.runs.Keys
    && before.replies <= after.replies
    && (forall c :: c in before.confs ==>
          || after.confs[c] == before.confs[c]
          || (c in OverdueSet(before, now) && after.confs[c] == before.confs[c].(status := Expired)))
    && (forall r :: r in before.runs ==> after.runs[r] == before.runs[r] || Closed(before, after, r))
  }

  /** Coupled, and no worker is between its two commits. */
  ghost predicate Calm(db: Db) {
    Invariant(db) && forall c :: c in db.confs && db.confs[c].status == Pending ==> StillWaiting(db, db.confs[c])
  }

  ghost predicate Closed(before: Db, after: Db, r: nat)
    requires r in before.runs && r in after.runs
  {
    && before.runs[r].status == Waiting && after.runs[r] == SetRun(before, r, Cancelled).runs[r]
    && exists c :: c in after.confs && after.confs[c].run == r && DecidedAgainst(after.confs[c].status)
  }

  method Newest(ids: set<nat>) returns (newest: Option<nat>)
    ensures newest == None <==> ids == {}
    ensures newest.Some? ==> newest.value in ids
    ensures newest.Some? ==> forall i :: i in ids ==> i <= newest.value
  {
    newest := None;
    var left := ids;
    while left != {}
      invariant left <= ids
      invariant newest == None <==> left == ids
      invariant newest.Some? ==> newest.value in ids
      invariant newest.Some? ==> forall i :: i in ids && i !in left ==> i <= newest.value
      decreases left
    {
      var i :| i in left;
      if newest == None || newest.value < i {
        newest := Some(i);
      }
      left := left - {i};
    }
  }

  class Desk {
    var db: Db         // what this session sees
    var committed: Db  // what survives a rollback

    constructor ()
      ensures db == committed == EMPTY
    {
      db, committed := EMPTY, EMPTY;
    }

    method Commit()
      modifies this
      ensures db == committed == old(db)
    {
      committed := db;
    }

    method Rollback()
      modifies this
      ensures db == committed == old(committed)
    {
      db := committed;
    }

    method CloseTurnFor(id: nat, outcome: Status) returns (closed: bool)
      requires id in db.confs
      modifies this
      ensures db == CloseTurn(old(db), id, outcome) && committed == old(committed)
      ensures closed == StillWaiting(old(db), old(db).confs[id])
    {
      var c := db.confs[id];
      if c.run !in db.runs || db.runs[c.run].org != c.org || db.runs[c.run].status != Waiting {
        return false;
      }
      db := db.(replies := db.replies + [Reply(c.run, id, outcome)]);
      var run := db.runs[c.run];
      var task := if run.worker == Nobody then None else run.task;
      db := db.(runs := db.runs[c.run := run.(status := Cancelled, task := task)]);
      return true;
    }

    method ExpireConfirmation(id: nat)
      requires id in db.confs
      modifies this
      ensures db == Expire(old(db), id) && committed == old(committed)
    {
      db := db.(confs := db.confs[id := db.confs[id].(status := Expired)]);
      var call := db.confs[id].call;
      if call in db.calls && db.calls[call].status == ConfirmationRequired {
        db := db.(calls := db.calls[call := db.calls[call].(status := CallFailed)]);
      }
      var closed := CloseTurnFor(id, Expired);
    }

    /** The lookup under a row lock. An overdue confirmation is expired and committed before the
        error is answered, because the error rolls the session back. */
    method GetPending(id: nat, user: User, now: int) returns (d: Decision)
      modifies this
      ensures d == Check(old(db), id, user, now)
      ensures if d == TooLate then db == committed == Expire(old(db), id)
              else db == old(db) && committed == old(committed)
    {
      if id !in db.confs || db.confs[id].org != user.org {
        return NotFound;
      }
      var c := db.confs[id];
      if c.requester != user.id && !user.admin {
        return Forbidden;
      }
      if c.status != Pending {
        return AlreadyDecided;
      }
      if Overdue(c, now) {
        ExpireConfirmation(id);
        Commit();
        return TooLate;
      }
      return Accepted;
    }

    method SetCallStatus(id: nat, status: CallStatus)
      requires id in db.confs
      modifies this
      ensures db == SetCall(old(db), old(db).confs[id].call, status) && committed == old(committed)
    {
      var call := db.confs[id].call;
      if call in db.calls {
        db := db.(calls := db.calls[call := db.calls[call].(status := status)]);
      }
    }

    /** A request to approve or reject. Whatever it answers, the committed state is the decided one. */
    method DecideRequest(id: nat, user: User, now: int, approve: bool) returns (d: Decision)
      requires db == committed
      modifies this
      ensures d == Check(old(db), id, user, now)
      ensures db == committed == Decide(old(db), id, user, now, approve)
      ensures d == NotFound <==> !(id in old(db).confs && old(db).confs[id].org == user.org)
      ensures d == Forbidden <==>
                && id in old(db).confs && old(db).confs[id].org == user.org
                && old(db).confs[id].requester != user.id && !user.admin
      ensures d == AlreadyDecided <==>
                && id in old(db).confs && old(db).confs[id].org == user.org
                && (old(db).confs[id].requester == user.id || user.admin) && old(db).confs[id].status != Pending
      ensures d == TooLate <==>
                && id in old(db).confs && old(db).confs[id].org == user.org
                && (old(db).confs[id].requester == user.id || user.admin) && old(db).confs[id].status == Pending
                && old(db).confs[id].expiresAt.Some? && old(db).confs[id].expiresAt.value < now
      ensures committed != old(committed) ==>
                && id in old(db).confs && old(db).confs[id].org == user.org
                && (old(db).confs[id].requester == user.id || user.admin) && old(db).confs[id].status == Pending
    {
      CheckMeans(db, id, user, now);
      d := GetPending(id, user, now);
      if d != Accepted {
        Rollback();
        return;
      }
      db := db.(confs := db.confs[id := db.confs[id].(status := if approve then Confirmed else Rejected)]);
      SetCallStatus(id, if approve then CallConfirmed else CallRejected);
      if !approve {
        var closed := CloseTurnFor(id, Rejected);
      }
      Commit();
    }

    /** A request answered "expired" has left the expiry and the cancelled run committed, with the
        closing message, although the request itself was rolled back. */
    method LateRequest(id: nat, user: User, now: int, approve: bool) returns (d: Decision)
      requires db == committed && Calm(db)
      modifies this
      ensures Invariant(committed) && DecisionsStand(old(committed), committed)
      ensures d == TooLate ==> ClosedBy(old(committed), committed, id, Expired)
    {
      DecideKeeps(db, id, user, now, approve);
      ghost var before := db;
      d := DecideRequest(id, user, now, approve);
      if d == TooLate {
        ExpireKeepsIff(before, id);
      }
    }

    // ---- resuming ----

    /** The request to resume: of several, one moves the waiting run on, in a transaction of its own. */
    method ClaimRun(run: nat, named: Option<nat>) returns (moved: bool)
      requires db == committed && (run in db.runs && db.runs[run].status == Waiting ==> db.runs[run].waitsFor.Some?)
      modifies this
      ensures moved <==> run in old(db).runs && old(db).runs[run].status == Waiting
      ensures db == committed == Claim(old(db), run, named)
    {
      moved := run in db.runs && db.runs[run].status == Waiting;
      if moved {
        var id := if named.Some? then named else db.runs[run].waitsFor;
        db := db.(runs := db.runs[run := db.runs[run].(status := Running, task := id)]);
      }
      Commit();
    }

    /** An error answers with a rollback, and only then marks the run. */
    method FailRun(run: nat)
      requires run in committed.runs
      modifies this
      ensures db == committed == Leave(old(committed), run, RunFailed)
    {
      Rollback();
      db := db.(runs := db.runs[run := db.runs[run].(status := RunFailed, task := None, worker := Nobody)]);
      Commit();
    }

    /** The worker's half. The call is running while the tool works; a tool that commits part of its work
        commits that, too. What the session marked before the failure is lost. */
    method CarryOutRun(run: nat, outcome: Outcome)
      requires db == committed
      modifies this
      ensures db == committed == CarryOut(old(db), run, outcome)
    {
      if run !in db.runs || db.runs[run].worker != AtWork || db.runs[run].task == None {
        return;
      }
      var id := db.runs[run].task.value;
      if !CanCarryOut(db, db.runs[run].org, id) {
        FailRun(run);
        return;
      }
      var call := db.confs[id].call;
      SetCallStatus(id, CallRunning);
      if outcome == BrokeMidway {
        Commit();
      }
      if outcome != Worked {
        SetCallStatus(id, CallFailed);
        FailRun(run);
        return;
      }
      SetCallStatus(id, CallSucceeded);
      db := db.(runs := db.runs[run := db.runs[run].(task := None)], executed := db.executed + [call]);
      Commit();
    }

    // ---- the sweep ----

    /** The first query of the sweep, at most `limit` rows in any order. */
    method ExpireOverdue(now: int, limit: nat) returns (expired: nat)
      requires Linked(db)
      modifies this
      ensures Linked(db) && committed == old(committed)
      ensures Calm(old(db)) ==> Calm(db)
      ensures DecisionsStand(old(db), db) && OnlySwept(old(db), db, now)
      ensures expired == Min(limit, |OverdueSet(old(db), now)|)
      ensures |OverdueSet(db, now)| == |OverdueSet(old(db), now)| - expired
      ensures OverdueSet(old(db), now) == {} ==> db == old(db) && expired == 0
      ensures WaitingSet(db) <= WaitingSet(old(db))
    {
      var todo := OverdueSet(db, now);
      expired := 0;
      ghost var before := db;
      NothingExpired(db, now);
      while todo != {} && expired < limit
        invariant committed == old(committed) && expired <= limit && Expiring(before, db, now, todo, expired)
        invariant Calm(before) ==> Calm(db)
        decreases todo
      {
        var id :| id in todo;
        ExpireNext(id, before, now, todo, expired);
        todo := todo - {id};
        expired := expired + 1;
      }
      ExpiringDone(before, db, now, todo, expired, limit);
    }

    method ExpireNext(id: nat, ghost before: Db, ghost now: int, ghost todo: set<nat>, ghost expired: nat)
      requires Expiring(before, db, now, todo, expired) && id in todo
      modifies this
      ensures committed == old(committed) && Expiring(before, db, now, todo - {id}, expired + 1)
      ensures Calm(old(db)) ==> Calm(db)
    {
      ExpiringNext(before, db, now, todo, expired, id);
      if Calm(db) {
        ExpireKeepsCalm(db, id);
      }
      ExpireConfirmation(id);
    }

    /** The second query: `limit` waiting runs, or all when there are no more, whichever the database
        picks; of those `seen`, the ones whose newest confirmation was decided against are closed. */
    method CloseStuckRuns(now: int, limit: nat) returns (closed: nat, ghost seen: set<nat>)
      requires Linked(db)
      modifies this
      ensures committed == old(committed)
      ensures IsPick(old(db), limit, seen) && Closing(old(db), db, now, seen)
      ensures Calm(old(db)) ==> Calm(db)
      ensures closed == |StuckIn(old(db), seen)|
      ensures closed == 0 ==> db == old(db)
    {
      closed, seen := 0, {};
      var todo, looked := WaitingSet(db), 0;
      ghost var before := db;
      NothingSeen(db, now);
      while todo != {} && looked < limit
        invariant committed == old(committed) && looked <= limit
        invariant Looking(before, db, now, todo, seen, looked, closed)
        invariant Calm(before) ==> Calm(db)
        decreases todo
      {
        var run :| run in todo;
        closed := CloseNext(run, before, now, todo, seen, looked, closed);
        todo, seen, looked := todo - {run}, seen + {run}, looked + 1;
      }
      PickDone(before, limit, seen);
    }

    method CloseNext(run: nat, ghost before: Db, ghost now: int, ghost todo: set<nat>, ghost seen: set<nat>,
        ghost looked: nat, closed: nat)
      returns (count: nat)
      requires Looking(before, db, now, todo, seen, looked, closed) && run in todo
      modifies this
      ensures committed == old(committed)
      ensures Looking(before, db, now, todo - {run}, seen + {run}, looked + 1, count)
      ensures Calm(old(db)) ==> Calm(db)
    {
      var ok := CloseIfStuck(run);
      LookingNext(before, old(db), db, now, todo, seen, looked, closed, run, ok);
      count := if ok then closed + 1 else closed;
    }

    method CloseIfStuck(run: nat) returns (closed: bool)
      requires Linked(db) && run in db.runs && db.runs[run].status == Waiting
      modifies this
      ensures Linked(db) && db.confs == old(db).confs && committed == old(committed)
      ensures Calm(old(db)) ==> Calm(db)
      ensures db.runs.Keys == old(db).runs.Keys && !Stuck(db, run)
      ensures forall r :: r in db.runs && r != run
                ==> db.runs[r] == old(db).runs[r] && (Stuck(db, r) <==> Stuck(old(db), r))
      ensures closed <==> Stuck(old(db), run)
      ensures !closed ==> db == old(db)
      ensures closed ==> Closed(old(db), db, run) && old(db).replies <= db.replies
    {
      var newest := Newest(OfRun(db, run));
      if newest.Some? && DecidedAgainst(db.confs[newest.value].status) {
        CloseOne(db, run, newest.value);
        closed := CloseTurnFor(newest.value, db.confs[newest.value].status);
      } else {
        NotStuckNow(db, run, newest);
        closed := false;
      }
    }

    /** When each query fits in `limit`, a sweep leaves nothing to do; run again at the same time, it
        changes nothing. */
    method SweepConfirmations(now: int, limit: nat) returns (expired: nat, closed: nat)
      requires Linked(db) && db == committed
      modifies this
      ensures Linked(db) && db == committed && DecisionsStand(old(db), db) && OnlySwept(old(db), db, now)
      ensures Calm(old(db)) ==> Calm(db)
      ensures |OverdueSet(old(db), now)| <= limit && |WaitingSet(old(db))| <= limit ==> Settled(db, now)
      ensures Settled(old(db), now) ==> db == old(db) && expired == 0 && closed == 0
      ensures expired == Min(limit, |OverdueSet(old(db), now)|)
    {
      expired := ExpireOverdue(now, limit);
      SubsetSize(WaitingSet(db), WaitingSet(old(db)));
      ghost var between := db;
      ghost var seen;
      closed, seen := CloseStuckRuns(now, limit);
      SweptTwice(old(db), between, db, now);
      SeenAll(between, limit, seen);
      Commit();
    }

    // ---- the restored card ----

    method PendingConfirmationForSession(session: nat, org: nat, now: int) returns (card: Option<nat>)
      ensures card.Some? ==> IsOffered(db, session, org, now, card.value)
      ensures card == None ==> forall c :: !IsOffered(db, session, org, now, c)
    {
      var run := Newest(WaitingRuns(db, session, org));
      if run == None {
        return None;
      }
      var conf := Newest(PendingOf(db, run.value));
      if conf == None || Overdue(db.confs[conf.value], now) {
        return None;
      }
      return conf;
    }
  }

  lemma {:induction false} DecideKeeps(db: Db, id: nat, user: User, now: int, approve: bool)
    requires Calm(db)
    ensures Invariant(Decide(db, id, user, now, approve)) && DecisionsStand(db, Decide(db, id, user, now, approve))
  {
    match Check(db, id, user, now)
    case Accepted =>
      if approve {
        ConfirmKeeps(db, id);
      } else {
        RejectKeepsIff(db, id);
      }
    case TooLate => ExpireKeepsIff(db, id);
    case _ =>
  }

  lemma {:induction false} ExpireKeepsCalm(db: Db, id: nat)
    requires Calm(db) && id in db.confs && db.confs[id].status == Pending
    ensures Calm(Expire(db, id))
  {
    var after := Expire(db, id);
    ExpireKeepsIff(db, id);
    ExpireChanges(db, id);
    forall c | c in after.confs && after.confs[c].status == Pending ensures StillWaiting(after, after.confs[c]) {
      InvariantMeans(db, c, id);
      assert Joined(db, c);
    }
  }

  function Min(a: nat, b: nat): nat {
    if a < b then a else b
  }

  /** What the second query may return. */
  ghost predicate IsPick(db: Db, limit: nat, seen: set<nat>) {
    seen <= WaitingSet(db) && |seen| == Min(limit, |WaitingSet(db)|)
  }

  ghost function StuckIn(db: Db, runs: set<nat>): set<nat> {
    set r | r in runs && Stuck(db, r)
  }

  /** The second loop: `seen` has been looked at, `todo` is left. */
  ghost predicate Looking(before: Db, db: Db, now: int, todo: set<nat>, seen: set<nat>, looked: nat, closed: nat) {
    && Closing(before, db, now, seen)
    && todo == WaitingSet(before) - seen && seen <= WaitingSet(before) && |seen| == looked
    && closed == |StuckIn(before, seen)| && (closed == 0 ==> db == before)
  }

  /** The first loop: `expired` are done, `todo` is what is overdue now. */
  ghost predicate Expiring(before: Db, db: Db, now: int, todo: set<nat>, expired: nat) {
    && Linked(db) && DecisionsStand(before, db) && OnlySwept(before, db, now)
    && todo == OverdueSet(db, now) && |todo| + expired == |OverdueSet(before, now)|
    && WaitingSet(db) <= WaitingSet(before)
    && (expired == 0 ==> db == before)
  }

  lemma {:induction false} NothingExpired(db: Db, now: int)
    requires Linked(db)
    ensures Expiring(db, db, now, OverdueSet(db, now), 0)
  {
  }

  lemma {:induction false} ExpiringNext(before: Db, db: Db, now: int, todo: set<nat>, expired: nat, id: nat)
    requires Expiring(before, db, now, todo, expired) && id in todo
    ensures Expiring(before, Expire(db, id), now, todo - {id}, expired + 1)
  {
    ExpireOne(db, id, now);
    ExpireOnlySweeps(before, db, id, now);
    DecisionsStandTwice(before, db, Expire(db, id));
    ExpiringStep(before, db, Expire(db, id), now, todo, expired, id);
  }

  lemma {:induction false} DecisionsStandTwice(a: Db, b: Db, c: Db)
    requires DecisionsStand(a, b) && DecisionsStand(b, c)
    ensures DecisionsStand(a, c)
  {
  }

  lemma {:induction false} ExpiringStep(before: Db, db: Db, after: Db, now: int, todo: set<nat>, expired: nat, id: nat)
    requires Expiring(before, db, now, todo, expired) && id in todo
    requires Linked(after) && DecisionsStand(before, after) && OnlySwept(before, after, now)
    requires OverdueSet(after, now) == OverdueSet(db, now) - {id} && WaitingSet(after) <= WaitingSet(db)
    ensures Expiring(before, after, now, todo - {id}, expired + 1)
  {
  }

  lemma {:induction false} ExpiringDone(before: Db, db: Db, now: int, todo: set<nat>, expired: nat, limit: nat)
    requires Expiring(before, db, now, todo, expired) && expired <= limit && (todo == {} || expired == limit)
    ensures Linked(db) && DecisionsStand(before, db) && OnlySwept(before, db, now)
    ensures WaitingSet(db) <= WaitingSet(before)
    ensures expired == Min(limit, |OverdueSet(before, now)|)
    ensures |OverdueSet(db, now)| == |OverdueSet(before, now)| - expired
    ensures OverdueSet(before, now) == {} ==> db == before && expired == 0
  {
  }

  lemma {:induction false} NothingSeen(db: Db, now: int)
    requires Linked(db)
    ensures Closing(db, db, now, {}) && StuckIn(db, {}) == {}
  {
  }

  lemma {:induction false} PickDone(db: Db, limit: nat, seen: set<nat>)
    requires seen <= WaitingSet(db) && |seen| <= limit && (WaitingSet(db) - seen == {} || |seen| == limit)
    ensures IsPick(db, limit, seen)
  {
    SubsetSize(seen, WaitingSet(db));
    if WaitingSet(db) - seen == {} {
      forall r | r in WaitingSet(db) ensures r in seen {
        assert r !in WaitingSet(db) - seen;
      }
      SubsetSize(WaitingSet(db), seen);
    }
  }

  lemma {:induction false} OneMoreSeen(db: Db, seen: set<nat>, run: nat)
    requires run !in seen
    ensures |StuckIn(db, seen + {run})| == |StuckIn(db, seen)| + (if Stuck(db, run) then 1 else 0)
  {
    OneStuckMore(db, seen, run);
  }

  /** A query that fits has seen every waiting run. */
  lemma {:induction false} SeenAll(db: Db, limit: nat, seen: set<nat>)
    requires IsPick(db, limit, seen)
    ensures |WaitingSet(db)| <= limit ==> seen == WaitingSet(db)
    ensures NoneStuck(db) ==> StuckIn(db, seen) == {}
  {
    if |WaitingSet(db)| <= limit {
      assert WaitingSet(db) == seen + (WaitingSet(db) - seen);
      assert WaitingSet(db) - seen == {} by {
        assert |WaitingSet(db)| == |seen| + |WaitingSet(db) - seen|;
      }
    }
  }

  /** Some set of `n` of the elements, avoiding `out` when enough others are left. */
  lemma {:induction false} PickOf(s: set<nat>, n: nat) returns (pick: set<nat>)
    requires n <= |s|
    ensures pick <= s && |pick| == n
  {
    pick := {};
    while |pick| < n
      invariant pick <= s && |pick| <= n
      decreases n - |pick|
    {
      assert |s| == |pick| + |s - pick| by {
        assert s == pick + (s - pick);
      }
      var x :| x in s - pick;
      pick := pick + {x};
    }
  }

  /** When the query does not fit, healthy waiting runs can starve the stuck ones: a sweep can close none of
      them exactly when there are at least `limit` healthy ones; and can miss a given one exactly when there
      are more than `limit` waiting runs in all. */
  lemma {:induction false} StarvedIff(db: Db, r: nat, limit: nat)
    requires Stuck(db, r)
    ensures (exists seen :: IsPick(db, limit, seen) && StuckIn(db, seen) == {})
       <==> limit <= |WaitingSet(db) - StuckIn(db, WaitingSet(db))|
    ensures (exists seen :: IsPick(db, limit, seen) && r !in seen) <==> limit < |WaitingSet(db)|
  {
    var all := WaitingSet(db);
    var healthy := all - StuckIn(db, all);
    assert r in all && r in StuckIn(db, all);
    SubsetSize(healthy, all - {r});
    if limit <= |healthy| {
      var seen := PickOf(healthy, limit);
      assert IsPick(db, limit, seen) && StuckIn(db, seen) == {};
    }
    if limit < |all| {
      var seen := PickOf(all - {r}, limit);
      assert IsPick(db, limit, seen) && r !in seen;
    }
    forall seen | IsPick(db, limit, seen)
      ensures StuckIn(db, seen) == {} ==> limit <= |healthy|
      ensures r !in seen ==> limit < |all|
    {
      if StuckIn(db, seen) == {} {
        forall x | x in seen ensures x in healthy {
          assert x in StuckIn(db, all) ==> x in StuckIn(db, seen);
        }
        SubsetSize(seen, healthy);
      }
      if r !in seen {
        SubsetSize(seen, all - {r});
      }
    }
  }

  /** How far closing has got: of the runs in `seen` none is stuck, and all others are as they were. */
  ghost predicate Closing(before: Db, db: Db, now: int, seen: set<nat>) {
    && Linked(db) && db.confs == before.confs && db.runs.Keys == before.runs.Keys
    && OnlySwept(before, db, now)
    && WaitingSet(db) == WaitingSet(before) - StuckIn(before, seen)
    && (forall r :: r in db.runs && r !in StuckIn(before, seen) ==> db.runs[r] == before.runs[r])
    && (forall r :: r in db.runs ==> (Stuck(db, r) <==> Stuck(before, r) && r !in seen))
  }

  lemma {:induction false} LookingNext(before: Db, db: Db, after: Db, now: int, todo: set<nat>, seen: set<nat>,
      looked: nat, closed: nat, run: nat, ok: bool)
    requires Looking(before, db, now, todo, seen, looked, closed) && run in todo
    requires Linked(after) && after.confs == db.confs && after.runs.Keys == db.runs.Keys && !Stuck(after, run)
    requires forall r :: r in db.runs && r != run ==> after.runs[r] == db.runs[r] && (Stuck(after, r) <==> Stuck(db, r))
    requires if ok then Closed(db, after, run) && db.replies <= after.replies else after == db
    requires ok <==> Stuck(db, run)
    ensures Looking(before, after, now, todo - {run}, seen + {run}, looked + 1, if ok then closed + 1 else closed)
  {
    ClosingNext(before, db, after, now, seen, run, ok);
    OneMoreSeen(before, seen, run);
    NextToSee(before, todo, seen, run);
  }

  lemma {:induction false} NextToSee(before: Db, todo: set<nat>, seen: set<nat>, run: nat)
    requires todo == WaitingSet(before) - seen && seen <= WaitingSet(before) && run in todo
    ensures todo - {run} == WaitingSet(before) - (seen + {run}) && seen + {run} <= WaitingSet(before)
    ensures run !in seen && |seen + {run}| == |seen| + 1
  {
  }

  lemma {:induction false} ClosingNext(before: Db, db: Db, after: Db, now: int, seen: set<nat>, run: nat, closed: bool)
    requires Closing(before, db, now, seen) && run in WaitingSet(before) && run !in seen
    requires after.confs == db.confs && after.runs.Keys == db.runs.Keys && !Stuck(after, run)
    requires forall r :: r in db.runs && r != run ==> after.runs[r] == db.runs[r] && (Stuck(after, r) <==> Stuck(db, r))
    requires if closed then Closed(db, after, run) && db.replies <= after.replies else after == db
    requires closed <==> Stuck(db, run)
    requires Linked(after)
    ensures Closing(before, after, now, seen + {run}) && (closed <==> Stuck(before, run))
  {
    OneClosed(db, after, run, closed, now);
    SweptTwice(before, db, after, now);
    WaitingLess(db, after, run, closed);
    OneStuckMore(before, seen, run);
  }

  lemma {:induction false} OneStuckMore(db: Db, seen: set<nat>, run: nat)
    ensures StuckIn(db, seen + {run}) == StuckIn(db, seen) + (if Stuck(db, run) then {run} else {})
  {
  }

  lemma {:induction false} WaitingLess(db: Db, after: Db, run: nat, closed: bool)
    requires after.runs.Keys == db.runs.Keys && run in db.runs && (closed ==> Closed(db, after, run))
    requires forall r :: r in db.runs && (r != run || !closed) ==> after.runs[r] == db.runs[r]
    ensures WaitingSet(after) == WaitingSet(db) - (if closed then {run} else {})
  {
  }

  lemma {:induction false} OneClosed(db: Db, after: Db, run: nat, closed: bool, now: int)
    requires run in db.runs && after.confs == db.confs && after.runs.Keys == db.runs.Keys
    requires forall r :: r in db.runs && r != run ==> after.runs[r] == db.runs[r]
    requires if closed then Closed(db, after, run) && db.replies <= after.replies else after == db
    ensures OnlySwept(db, after, now)
  {
  }

  lemma {:induction false} SubsetSize(a: set<nat>, b: set<nat>)
    requires a <= b
    ensures |a| <= |b|
  {
    assert a + (b - a) == b;
  }

  lemma {:induction false} ExpireOne(db: Db, id: nat, now: int)
    requires Linked(db) && id in OverdueSet(db, now)
    ensures var after := Expire(db, id);
            && Linked(after) && DecisionsStand(db, after)
            && OverdueSet(after, now) == OverdueSet(db, now) - {id}
            && WaitingSet(after) <= WaitingSet(db)
  {
    ExpireChanges(db, id);
    ExpireStaysLinked(db, id);
  }

  lemma {:induction false} ExpireChanges(db: Db, id: nat)
    requires id in db.confs
    ensures var after := Expire(db, id);
            && after.confs == db.confs[id := db.confs[id].(status := Expired)]
            && after.runs.Keys == db.runs.Keys
            && (forall r :: r in db.runs ==>
                  after.runs[r] == db.runs[r] || after.runs[r] == SetRun(db, r, Cancelled).runs[r])
  {
  }

  lemma {:induction false} ExpireStaysLinked(db: Db, id: nat)
    requires Linked(db) && id in db.confs
    ensures Linked(Expire(db, id))
  {
  }

  lemma {:induction false} ExpireOnlySweeps(before: Db, db: Db, id: nat, now: int)
    requires OnlySwept(before, db, now) && id in OverdueSet(db, now)
    ensures OnlySwept(before, Expire(db, id), now)
  {
    var after := Expire(db, id);
    ExpireChanges(db, id);
    assert db.confs[id] == before.confs[id];
    forall r | r in before.runs ensures after.runs[r] == before.runs[r] || Closed(before, after, r) {
      if Closed(before, db, r) {
        var c :| c in db.confs && db.confs[c].run == r && DecidedAgainst(db.confs[c].status);
        assert after.confs[c] == db.confs[c];
      } else if after.runs[r] != db.runs[r] {
        assert r == db.confs[id].run && DecidedAgainst(after.confs[id].status);
      }
    }
  }

  lemma {:induction false} SweptTwice(before: Db, between: Db, after: Db, now: int)
    requires OnlySwept(before, between, now) && OnlySwept(between, after, now) && after.confs == between.confs
    ensures OnlySwept(before, after, now)
  {
  }

  lemma {:induction false} SameStuck(db: Db, after: Db, r: nat)
    requires r in db.runs && r in after.runs && after.confs == db.confs && after.runs[r] == db.runs[r]
    ensures Stuck(after, r) <==> Stuck(db, r)
  {
  }

  lemma {:induction false} CloseOne(db: Db, run: nat, id: nat)
    requires Linked(db) && run in db.runs && db.runs[run].status == Waiting && id in OfRun(db, run)
    requires DecidedAgainst(db.confs[id].status) && forall c :: c in OfRun(db, run) ==> c <= id
    ensures var after := CloseTurn(db, id, db.confs[id].status);
            && Linked(after) && after.confs == db.confs && !Stuck(after, run) && after.runs.Keys == db.runs.Keys
            && (forall r :: r in db.runs && r != run ==>
                  after.runs[r] == db.runs[r] && (Stuck(after, r) <==> Stuck(db, r)))
            && (Calm(db) ==> Calm(after))
    ensures Stuck(db, run) && StillWaiting(db, db.confs[id])
  {
    var after := CloseTurn(db, id, db.confs[id].status);
    assert Joined(db, id);
    assert forall c :: c in after.confs ==> Joined(db, c);
    forall r | r in db.runs && r != run ensures Stuck(after, r) <==> Stuck(db, r) {
      SameStuck(db, after, r);
    }
    assert IsLatest(db, id) by {
      forall d | d in db.confs && db.confs[d].run == db.confs[id].run ensures d <= id {
        assert d in OfRun(db, run);
      }
    }
    if Calm(db) {
      NothingStuck(db, id);
    }
  }

  lemma {:induction false} NotStuckNow(db: Db, run: nat, newest: Option<nat>)
    requires newest == None <==> OfRun(db, run) == {}
    requires newest.Some? ==> newest.value in OfRun(db, run) && forall c :: c in OfRun(db, run) ==> c <= newest.value
    requires newest.Some? ==> !DecidedAgainst(db.confs[newest.value].status)
    ensures !Stuck(db, run)
  {
  }
}
