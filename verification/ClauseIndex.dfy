/** The clause index: each finished extraction of a contract's current version replaces its live rows. */
module ClauseIndex {
  import opened Options
  import opened Positions

  /** A clause to store. Its offsets are missing when its text could not be located. */
  datatype Found = Found(
    clauseType: string, heading: Option<string>, text: string, start: Option<nat>, end: Option<nat>, confidence: real)

  datatype Clause = Clause(org: string, contract: string, version: string, snapshot: string, found: Found,
                           createdBy: Option<string>, updatedBy: Option<string>, isStale: bool)

  /** What an extraction was started for; the version and snapshot may be missing. */
  datatype Context = Context(org: string, contract: string, version: Option<string>, snapshot: Option<string>)

  datatype Reply = Skipped | Swapped | Kept(existing: nat)

  /** The clause rows, and each contract's current authoritative version. */
  datatype Db = Db(rows: seq<Clause>, current: map<string, Option<string>>)

  predicate IsLive(c: Clause, org: string, contract: string) {
    c.org == org && c.contract == contract && !c.isStale
  }

  /** A contract's live rows, in the order they were added. */
  function Live(rows: seq<Clause>, org: string, contract: string): (live: seq<Clause>)
    ensures |live| <= |rows|
  {
    if rows == [] then []
    else
      var n := |rows| - 1;
      Live(rows[..n], org, contract) + (if IsLive(rows[n], org, contract) then [rows[n]] else [])
  }

  function Retire(c: Clause, org: string, contract: string, user: Option<string>): Clause {
    if IsLive(c, org, contract) then c.(isStale := true, updatedBy := user) else c
  }

  function Retired(rows: seq<Clause>, org: string, contract: string, user: Option<string>): (s: seq<Clause>)
    ensures |s| == |rows|
  {
    if rows == [] then []
    else Retired(rows[..|rows| - 1], org, contract, user) + [Retire(rows[|rows| - 1], org, contract, user)]
  }

  type Canonical = string -> string

  function NewRow(canonical: Canonical, ctx: Context, f: Found, user: Option<string>): Clause
    requires ctx.version.Some? && ctx.snapshot.Some?
  {
    Clause(ctx.org, ctx.contract, ctx.version.value, ctx.snapshot.value, f.(clauseType := canonical(f.clauseType)),
           user, user, false)
  }

  function NewRows(canonical: Canonical, ctx: Context, found: seq<Found>, user: Option<string>): (s: seq<Clause>)
    requires ctx.version.Some? && ctx.snapshot.Some?
    ensures |s| == |found|
  {
    if found == [] then []
    else NewRows(canonical, ctx, found[..|found| - 1], user) + [NewRow(canonical, ctx, found[|found| - 1], user)]
  }

  /** The contract's row is there and its current version is the extraction's. */
  predicate IsCurrent(db: Db, ctx: Context) {
    && ctx.version.Some? && ctx.snapshot.Some?
    && ctx.contract in db.current && db.current[ctx.contract] == ctx.version
  }

  /** The guarded swap. */
  function Replace(canonical: Canonical, db: Db, ctx: Context, found: seq<Found>, user: Option<string>): (Reply, Db) {
    if !IsCurrent(db, ctx) then (Skipped, db)
    else if found == [] then
      var existing := |Live(db.rows, ctx.org, ctx.contract)|;
      (if existing > 0 then Kept(existing) else Skipped, db)
    else
      (Swapped, db.(rows := Retired(db.rows, ctx.org, ctx.contract, user) + NewRows(canonical, ctx, found, user)))
  }

  /** Where a contract's live rows are. */
  function Places(rows: seq<Clause>, org: string, contract: string): (s: seq<nat>)
    ensures |s| == |Live(rows, org, contract)|
  {
    if rows == [] then []
    else
      var n := |rows| - 1;
      Places(rows[..n], org, contract) + (if IsLive(rows[n], org, contract) then [n] else [])
  }

  lemma {:induction false} PlacesNext(rows: seq<Clause>, org: string, contract: string, n: nat)
    requires n < |rows|
    ensures var front, own := Live(rows[..n], org, contract), IsLive(rows[n], org, contract);
            Live(rows[..n + 1], org, contract) == if own then front + [rows[n]] else front
    ensures var front, own := Places(rows[..n], org, contract), IsLive(rows[n], org, contract);
            Places(rows[..n + 1], org, contract) == if own then front + [n] else front
  {
    assert rows[..n + 1][..n] == rows[..n];
  }

  lemma {:induction false} PlacesAt(rows: seq<Clause>, org: string, contract: string, n: nat) returns (at: seq<nat>)
    requires n <= |rows|
    ensures at == Places(rows[..n], org, contract)
    ensures Picks(rows, 0, Live(rows[..n], org, contract), at) && Rising(at, 0, n)
    ensures forall i {:trigger i in at} :: 0 <= i < n ==> (i in at <==> IsLive(rows[i], org, contract))
  {
    at := [];
    if n > 0 {
      var k, own := n - 1, IsLive(rows[n - 1], org, contract);
      var earlier := PlacesAt(rows, org, contract, k);
      var front := Live(rows[..k], org, contract);
      at := PicksNext(rows, k, front, earlier, own);
      assert Live(rows[..n], org, contract) == (if own then front + [rows[k]] else front)
          && Places(rows[..n], org, contract) == at by {
        PlacesNext(rows, org, contract, k);
      }
      forall i | 0 <= i < n ensures i in at <==> IsLive(rows[i], org, contract) {
        assert i < k ==> (i in at <==> i in earlier);
      }
    }
  }

  /** They are exactly those, in order. */
  lemma {:induction false} LiveAt(rows: seq<Clause>, org: string, contract: string) returns (at: seq<nat>)
    ensures at == Places(rows, org, contract) && Picks(rows, 0, Live(rows, org, contract), at)
    ensures forall i {:trigger i in at} :: 0 <= i < |rows| ==>
              (i in at <==> rows[i].org == org && rows[i].contract == contract && !rows[i].isStale)
  {
    at := PlacesAt(rows, org, contract, |rows|);
    assert rows[..|rows|] == rows;
  }

  lemma {:induction false} ToRetire(rows: seq<Clause>, org: string, contract: string)
    ensures var s := Places(rows, org, contract);
            && (forall k :: 0 <= k < |s| ==> s[k] < |rows| && IsLive(rows[s[k]], org, contract))
            && (forall k, l :: 0 <= k < l < |s| ==> s[k] < s[l])
            && (forall i :: 0 <= i < |rows| && IsLive(rows[i], org, contract) ==> i in s)
  {
    var at := LiveAt(rows, org, contract);
    forall k | 0 <= k < |at| ensures at[k] < |rows| && IsLive(rows[at[k]], org, contract) {
      assert at[k] in at;
    }
  }

  lemma {:induction false} RetiredAt(rows: seq<Clause>, org: string, contract: string, user: Option<string>)
    ensures var s := Retired(rows, org, contract, user);
            forall i :: 0 <= i < |rows| ==> s[i] == Retire(rows[i], org, contract, user)
  {
    if rows != [] {
      RetiredAt(rows[..|rows| - 1], org, contract, user);
    }
  }

  /** The tables, with the swap as the transaction that holds the contract's lock performs it. */
  class Index {
    var rows: seq<Clause>
    var current: map<string, Option<string>>

    constructor ()
      ensures Tables() == Db([], map[])
    {
      rows, current := [], map[];
    }

    function Tables(): Db
      reads this
    {
      Db(rows, current)
    }

    /** A new current version. */
    method Promote(contract: string, version: Option<string>)
      modifies this`current
      ensures Tables() == Promoted(old(Tables()), contract, version)
    {
      current := current[contract := version];
    }

    /** A failure (`Kept`) leaves the rows as they were; any other reply commits. */
    method ReplaceClauses(canonical: Canonical, ctx: Context, found: seq<Found>, user: Option<string>)
      returns (r: Reply)
      modifies this`rows
      ensures (r, Tables()) == Replace(canonical, old(Tables()), ctx, found, user)
    {
      if ctx.version == None || ctx.snapshot == None {
        return Skipped;
      }
      var version := if ctx.contract in current then current[ctx.contract] else None;
      if version != ctx.version {
        return Skipped;
      }
      var existing := Places(rows, ctx.org, ctx.contract);
      if found == [] {
        return if existing != [] then Kept(|existing|) else Skipped;
      }
      MarkStale(existing, ctx.org, ctx.contract, user);
      AddRows(canonical, ctx, found, user);
      r := Swapped;
    }

    /** The loop that marks the existing rows. */
    method MarkStale(existing: seq<nat>, org: string, contract: string, user: Option<string>)
      requires existing == Places(rows, org, contract)
      modifies this`rows
      ensures rows == Retired(old(rows), org, contract, user)
    {
      ToRetire(rows, org, contract);
      for k := 0 to |existing|
        invariant |rows| == |old(rows)|
        invariant forall l :: 0 <= l < k ==> rows[existing[l]] == Retire(old(rows)[existing[l]], org, contract, user)
        invariant forall i :: 0 <= i < |rows| && i !in existing[..k] ==> rows[i] == old(rows)[i]
      {
        rows := rows[existing[k] := rows[existing[k]].(isStale := true, updatedBy := user)];
      }
      assert existing[..|existing|] == existing;
      RetiredAt(old(rows), org, contract, user);
    }

    /** The loop that adds the new ones. */
    method AddRows(canonical: Canonical, ctx: Context, found: seq<Found>, user: Option<string>)
      requires ctx.version.Some? && ctx.snapshot.Some?
      modifies this`rows
      ensures rows == old(rows) + NewRows(canonical, ctx, found, user)
    {
      for k := 0 to |found|
        invariant rows == old(rows) + NewRows(canonical, ctx, found[..k], user)
      {
        assert found[..k + 1][..k] == found[..k];
        rows := rows + [NewRow(canonical, ctx, found[k], user)];
      }
      assert found[..|found|] == found;
    }
  }

  function Promoted(db: Db, contract: string, version: Option<string>): Db {
    db.(current := db.current[contract := version])
  }

  /** A version becomes current, or an extraction finishes; in any order, any number of times. */
  datatype Event =
    | Promote(contract: string, version: Option<string>)
    | Finish(ctx: Context, found: seq<Found>, user: Option<string>)

  function Do(canonical: Canonical, db: Db, e: Event): Db {
    match e
    case Promote(contract, version) => Promoted(db, contract, version)
    case Finish(ctx, found, user) => Replace(canonical, db, ctx, found, user).1
  }

  function Run(canonical: Canonical, events: seq<Event>): Db {
    if events == [] then Db([], map[])
    else Do(canonical, Run(canonical, events[..|events| - 1]), events[|events| - 1])
  }

  /** The version most recently made current. */
  function LastPromoted(events: seq<Event>, contract: string): Option<string> {
    if events == [] then None
    else
      var e := events[|events| - 1];
      if e.Promote? && e.contract == contract then e.version else LastPromoted(events[..|events| - 1], contract)
  }

  /** Event `k` is an extraction of the contract that finished, with clauses, while its version was
      current. */
  predicate IsAccepted(events: seq<Event>, k: nat, org: string, contract: string)
    requires k < |events|
  {
    && events[k].Finish? && events[k].found != []
    && events[k].ctx.org == org && events[k].ctx.contract == contract
    && events[k].ctx.version.Some? && events[k].ctx.snapshot.Some?
    && LastPromoted(events[..k], contract) == events[k].ctx.version
  }

  /** The last accepted extraction, if any. */
  predicate IsLastAccepted(events: seq<Event>, k: nat, org: string, contract: string) {
    && k < |events| && IsAccepted(events, k, org, contract)
    && forall j :: k < j < |events| ==> !IsAccepted(events, j, org, contract)
  }

  lemma {:induction false} CurrentIsLastPromoted(canonical: Canonical, events: seq<Event>, contract: string)
    ensures var current := Run(canonical, events).current;
            (if contract in current then current[contract] else None) == LastPromoted(events, contract)
  {
    if events != [] {
      CurrentIsLastPromoted(canonical, events[..|events| - 1], contract);
    }
  }

  lemma {:induction false} LiveAppend(a: seq<Clause>, b: seq<Clause>, org: string, contract: string)
    ensures Live(a + b, org, contract) == Live(a, org, contract) + Live(b, org, contract)
  {
    if b == [] {
      assert a + b == a;
    } else {
      var n := |b| - 1;
      assert (a + b)[..|a| + n] == a + b[..n];
      LiveAppend(a, b[..n], org, contract);
    }
  }

  lemma {:induction false} LiveOfRetired(rows: seq<Clause>, ctx: Context, user: Option<string>, org: string,
      contract: string)
    ensures Live(Retired(rows, ctx.org, ctx.contract, user), org, contract)
         == if org == ctx.org && contract == ctx.contract then [] else Live(rows, org, contract)
  {
    if rows != [] {
      LiveOfRetired(rows[..|rows| - 1], ctx, user, org, contract);
    }
  }

  lemma {:induction false} LiveOfNew(canonical: Canonical, ctx: Context, found: seq<Found>, user: Option<string>,
      org: string, contract: string)
    requires ctx.version.Some? && ctx.snapshot.Some?
    ensures var s := NewRows(canonical, ctx, found, user);
            Live(s, org, contract) == if org == ctx.org && contract == ctx.contract then s else []
  {
    if found != [] {
      LiveOfNew(canonical, ctx, found[..|found| - 1], user, org, contract);
    }
  }

  /** What one finished extraction does to any contract's live rows. */
  lemma {:induction false} LiveAfterReplace(canonical: Canonical, db: Db, ctx: Context, found: seq<Found>,
      user: Option<string>, org: string, contract: string)
    ensures Live(Replace(canonical, db, ctx, found, user).1.rows, org, contract)
         == if IsCurrent(db, ctx) && found != [] && org == ctx.org && contract == ctx.contract
            then NewRows(canonical, ctx, found, user) else Live(db.rows, org, contract)
  {
    if IsCurrent(db, ctx) && found != [] {
      LiveAppend(Retired(db.rows, ctx.org, ctx.contract, user), NewRows(canonical, ctx, found, user), org, contract);
      LiveOfRetired(db.rows, ctx, user, org, contract);
      LiveOfNew(canonical, ctx, found, user, org, contract);
    }
  }

  lemma {:induction false} AcceptedInPrefix(events: seq<Event>, n: nat, k: nat, org: string, contract: string)
    requires k < n <= |events|
    ensures IsAccepted(events[..n], k, org, contract) <==> IsAccepted(events, k, org, contract)
  {
    assert events[..n][..k] == events[..k];
  }

  lemma {:induction false} AcceptedSoFar(events: seq<Event>, org: string, contract: string)
    requires events != []
    ensures var n := |events| - 1;
            forall j :: 0 <= j < n ==> IsAccepted(events[..n], j, org, contract) == IsAccepted(events, j, org, contract)
  {
    var n := |events| - 1;
    forall j | 0 <= j < n ensures IsAccepted(events[..n], j, org, contract) == IsAccepted(events, j, org, contract) {
      AcceptedInPrefix(events, n, j, org, contract);
    }
  }

  lemma {:induction false} AcceptedIffCurrent(canonical: Canonical, events: seq<Event>, org: string, contract: string)
    requires events != []
    ensures var n := |events| - 1;
            var e := events[n];
            IsAccepted(events, n, org, contract) <==>
            (e.Finish? && e.found != [] && e.ctx.org == org && e.ctx.contract == contract
             && IsCurrent(Run(canonical, events[..n]), e.ctx))
  {
    CurrentIsLastPromoted(canonical, events[..|events| - 1], contract);
  }

  /** Over any run, a contract's live rows are exactly those of the last extraction that finished, not
      empty, while its version was current. */
  lemma {:induction false} LiveIsLastAccepted(canonical: Canonical, events: seq<Event>, org: string, contract: string)
    returns (k: Option<nat>)
    ensures k.None? ==> Live(Run(canonical, events).rows, org, contract) == []
                        && forall j :: 0 <= j < |events| ==> !IsAccepted(events, j, org, contract)
    ensures k.Some? ==> IsLastAccepted(events, k.value, org, contract)
                        && var e := events[k.value];
                        Live(Run(canonical, events).rows, org, contract) == NewRows(canonical, e.ctx, e.found, e.user)
  {
    if events == [] {
      return None;
    }
    var n := |events| - 1;
    k := LiveIsLastAccepted(canonical, events[..n], org, contract);
    LiveStep(canonical, events, org, contract);
    if k.Some? {
      assert events[..n][k.value] == events[k.value];
    }
    AcceptedSoFar(events, org, contract);
    if IsAccepted(events, n, org, contract) {
      k := Some(n);
    }
  }

  lemma {:induction false} LiveStep(canonical: Canonical, events: seq<Event>, org: string, contract: string)
    requires events != []
    ensures var n := |events| - 1;
            var e := events[n];
            Live(Run(canonical, events).rows, org, contract) ==
            if IsAccepted(events, n, org, contract) then NewRows(canonical, e.ctx, e.found, e.user)
            else Live(Run(canonical, events[..n]).rows, org, contract)
  {
    var n := |events| - 1;
    var e := events[n];
    AcceptedIffCurrent(canonical, events, org, contract);
    if e.Finish? {
      LiveAfterReplace(canonical, Run(canonical, events[..n]), e.ctx, e.found, e.user, org, contract);
    }
  }

  lemma {:induction false} NewRowsAt(canonical: Canonical, ctx: Context, found: seq<Found>, user: Option<string>,
      i: nat)
    requires ctx.version.Some? && ctx.snapshot.Some? && i < |found|
    ensures NewRows(canonical, ctx, found, user)[i] == NewRow(canonical, ctx, found[i], user)
  {
    if i < |found| - 1 {
      NewRowsAt(canonical, ctx, found[..|found| - 1], user, i);
    }
  }

  /** The reply: an extraction is accepted exactly when it is of the version that is current, and an empty one that
      would take live clauses away is a failure that says how many are kept. */
  lemma {:induction false} ReplyMeans(canonical: Canonical, db: Db, ctx: Context, found: seq<Found>,
      user: Option<string>) returns (live: seq<nat>)
    ensures Rising(live, 0, |db.rows|)
    ensures forall i {:trigger i in live} :: 0 <= i < |db.rows| ==>
              (i in live <==>
               db.rows[i].org == ctx.org && db.rows[i].contract == ctx.contract && !db.rows[i].isStale)
    ensures var (r, after) := Replace(canonical, db, ctx, found, user);
            var accepted := ctx.version.Some? && ctx.snapshot.Some? && ctx.contract in db.current
                            && db.current[ctx.contract] == ctx.version;
            && r == (if !accepted then Skipped else if found != [] then Swapped
                     else if live == [] then Skipped else Kept(|live|))
            && after.current == db.current && (r != Swapped ==> after.rows == db.rows)
  {
    live := LiveAt(db.rows, ctx.org, ctx.contract);
  }

  /** What a swap leaves in each place: the old rows, live ones retired by the user, and a row for each clause. */
  lemma {:induction false} SwapMeans(canonical: Canonical, db: Db, ctx: Context, found: seq<Found>,
      user: Option<string>, i: nat)
    requires Replace(canonical, db, ctx, found, user).0 == Swapped
    ensures |Replace(canonical, db, ctx, found, user).1.rows| == |db.rows| + |found|
    ensures i < |db.rows| ==>
              var row := db.rows[i];
              Replace(canonical, db, ctx, found, user).1.rows[i] ==
                if row.org == ctx.org && row.contract == ctx.contract && !row.isStale
                then row.(isStale := true, updatedBy := user) else row
    ensures i < |found| ==>
              Replace(canonical, db, ctx, found, user).1.rows[|db.rows| + i] ==
                Clause(ctx.org, ctx.contract, ctx.version.value, ctx.snapshot.value,
                       found[i].(clauseType := canonical(found[i].clauseType)), user, user, false)
  {
    RetiredAt(db.rows, ctx.org, ctx.contract, user);
    if i < |found| {
      NewRowsAt(canonical, ctx, found, user, i);
    }
  }

  /** So a contract's live rows are of one version, which was current when it was extracted, and say
      what that extraction found, in its order, under canonical types. */
  lemma {:induction false} LiveRowsOfOneVersion(canonical: Canonical, events: seq<Event>, org: string,
      contract: string, k: nat)
    requires IsLastAccepted(events, k, org, contract)
    ensures var live, found := Live(Run(canonical, events).rows, org, contract), events[k].found;
            && |live| == |found|
            && forall i :: 0 <= i < |live| ==>
                 && Some(live[i].version) == LastPromoted(events[..k], contract)
                 && live[i].found == found[i].(clauseType := canonical(found[i].clauseType))
  {
    var last := LiveIsLastAccepted(canonical, events, org, contract);
    assert last == Some(k);
    var e := events[k];
    forall i | 0 <= i < |e.found|
      ensures NewRows(canonical, e.ctx, e.found, e.user)[i] == NewRow(canonical, e.ctx, e.found[i], e.user)
    {
      NewRowsAt(canonical, e.ctx, e.found, e.user, i);
    }
  }

  /** A late extraction of a version that is no longer current changes nothing, rows and all. */
  lemma {:induction false} LateExtractionChangesNothing(canonical: Canonical, events: seq<Event>, e: Event)
    requires e.Finish? && LastPromoted(events, e.ctx.contract) != e.ctx.version
    ensures Run(canonical, events + [e]) == Run(canonical, events)
  {
    CurrentIsLastPromoted(canonical, events, e.ctx.contract);
    assert (events + [e])[..|events|] == events;
  }

  /** Rows are only added; of an old row only the stale flag, one way, and the updating user change. */
  predicate Grown(before: seq<Clause>, after: seq<Clause>) {
    && |before| <= |after|
    && forall i :: 0 <= i < |before| ==> Aged(before[i], after[i])
  }

  predicate Aged(before: Clause, after: Clause) {
    && after == before.(isStale := after.isStale, updatedBy := after.updatedBy)
    && (before.isStale ==> after == before)
  }

  lemma {:induction false} StepGrows(canonical: Canonical, db: Db, e: Event)
    ensures Grown(db.rows, Do(canonical, db, e).rows)
  {
    if e.Finish? {
      RetiredAt(db.rows, e.ctx.org, e.ctx.contract, e.user);
    }
  }

  lemma {:induction false} RunNext(canonical: Canonical, events: seq<Event>, more: seq<Event>)
    requires more != []
    ensures var n := |more| - 1;
            Run(canonical, events + more) == Do(canonical, Run(canonical, events + more[..n]), more[n])
  {
    var n, all := |more| - 1, events + more;
    assert all[..|all| - 1] == events + more[..n] && all[|all| - 1] == more[n];
  }

  /** No row is ever lost, rewritten or revived. */
  lemma {:induction false} RunsOnlyGrow(canonical: Canonical, events: seq<Event>, more: seq<Event>)
    ensures Grown(Run(canonical, events).rows, Run(canonical, events + more).rows)
  {
    if more == [] {
      assert events + more == events;
    } else {
      var n := |more| - 1;
      var e, db := more[n], Run(canonical, events + more[..n]);
      RunNext(canonical, events, more);
      RunsOnlyGrow(canonical, events, more[..n]);
      StepGrows(canonical, db, e);
      GrownTwice(Run(canonical, events).rows, db.rows, Do(canonical, db, e).rows);
    }
  }

  lemma {:induction false} StepKeepsLive(canonical: Canonical, db: Db, e: Event, org: string, contract: string)
    requires Live(db.rows, org, contract) != []
    ensures Live(Do(canonical, db, e).rows, org, contract) != []
  {
    if e.Finish? {
      LiveAfterReplace(canonical, db, e.ctx, e.found, e.user, org, contract);
    }
  }

  /** Once a contract has live clauses it always has some. */
  lemma {:induction false} LiveStaysLive(canonical: Canonical, events: seq<Event>, more: seq<Event>, org: string,
                                         contract: string)
    requires Live(Run(canonical, events).rows, org, contract) != []
    ensures Live(Run(canonical, events + more).rows, org, contract) != []
  {
    if more == [] {
      assert events + more == events;
    } else {
      var n := |more| - 1;
      var e, db := more[n], Run(canonical, events + more[..n]);
      RunNext(canonical, events, more);
      LiveStaysLive(canonical, events, more[..n], org, contract);
      StepKeepsLive(canonical, db, e, org, contract);
    }
  }

  lemma {:induction false} GrownTwice(a: seq<Clause>, b: seq<Clause>, c: seq<Clause>)
    requires Grown(a, b) && Grown(b, c)
    ensures Grown(a, c)
  {
  }
}
