/** The audit log's hash chain: the backfill over existing rows, appending, and checking the chain. */
module AuditChain {
  import opened Options

  /** What a row's hash covers besides the previous row's hash. Identifiers stand for their rank in
      the column's collation, JSON columns for their canonical text. */
  datatype Entry = Entry(
    id: nat, createdAt: int, orgId: Option<string>, actorUserId: Option<string>, action: string,
    resourceType: string, resourceId: Option<string>, requestId: Option<string>, ipAddress: Option<string>,
    userAgent: Option<string>, before: Option<string>, after: Option<string>, metadata: Option<string>)

  datatype Row = Row(entry: Entry, prevHash: Option<string>, rowHash: Option<string>)

  type Hash = (Entry, Option<string>) -> string

  ghost predicate Injective(hash: Hash) {
    forall a, b, p, q :: hash(a, p) == hash(b, q) ==> a == b && p == q
  }

  /** `ORDER BY created_at ASC, id ASC`. */
  predicate Precedes(a: Entry, b: Entry) {
    a.createdAt < b.createdAt || (a.createdAt == b.createdAt && a.id < b.id)
  }

  function Insert(log: seq<Row>, r: Row): (s: seq<Row>)
    ensures |s| == |log| + 1
  {
    if log == [] || Precedes(log[|log| - 1].entry, r.entry) then log + [r]
    else Insert(log[..|log| - 1], r) + [log[|log| - 1]]
  }

  /** The table's rows as the query lists them. */
  function Ordered(rows: seq<Row>): (log: seq<Row>)
    ensures |log| == |rows|
  {
    if rows == [] then [] else Insert(Ordered(rows[..|rows| - 1]), rows[|rows| - 1])
  }

  predicate Sorted(log: seq<Row>) {
    forall i, j :: 0 <= i < j < |log| ==> Precedes(log[i].entry, log[j].entry)
  }

  /** The primary key. */
  predicate DistinctIds(rows: seq<Row>) {
    forall i, j :: 0 <= i < j < |rows| ==> rows[i].entry.id != rows[j].entry.id
  }

  lemma {:induction false} InsertSorts(log: seq<Row>, r: Row)
    requires Sorted(log) && DistinctIds(log) && forall i :: 0 <= i < |log| ==> log[i].entry.id != r.entry.id
    ensures Sorted(Insert(log, r)) && DistinctIds(Insert(log, r))
    ensures multiset(Insert(log, r)) == multiset(log) + multiset{r}
  {
    if log != [] && !Precedes(log[|log| - 1].entry, r.entry) {
      var n := |log| - 1;
      var front, s, last := log[..n], Insert(log[..n], r), log[n];
      InsertSorts(front, r);
      assert log == front + [last];
      forall i | 0 <= i <= n ensures Precedes(s[i].entry, last.entry) && s[i].entry.id != last.entry.id {
        assert s[i] in multiset(s);
        assert s[i] in front || s[i] == r;
      }
      AppendLast(s, last);
    } else {
      SortedBeforeLast(log, r);
      AppendLast(log, r);
    }
  }

  lemma {:induction false} AppendLast(s: seq<Row>, last: Row)
    requires Sorted(s) && DistinctIds(s)
    requires forall i :: 0 <= i < |s| ==> Precedes(s[i].entry, last.entry) && s[i].entry.id != last.entry.id
    ensures Sorted(s + [last]) && DistinctIds(s + [last])
  {
  }

  lemma {:induction false} SortedBeforeLast(log: seq<Row>, r: Row)
    requires Sorted(log) && (log == [] || Precedes(log[|log| - 1].entry, r.entry))
    ensures forall i :: 0 <= i < |log| ==> Precedes(log[i].entry, r.entry)
  {
  }

  /** The listing is sorted and has the table's rows, each once. */
  lemma {:induction false} OrderedSorts(rows: seq<Row>)
    requires DistinctIds(rows)
    ensures Sorted(Ordered(rows)) && DistinctIds(Ordered(rows)) && multiset(Ordered(rows)) == multiset(rows)
  {
    if rows != [] {
      var n := |rows| - 1;
      OrderedSorts(rows[..n]);
      assert rows == rows[..n] + [rows[n]];
      forall i | 0 <= i < n ensures Ordered(rows[..n])[i].entry.id != rows[n].entry.id {
        assert Ordered(rows[..n])[i] in multiset(rows[..n]);
      }
      InsertSorts(Ordered(rows[..n]), rows[n]);
    }
  }

  /** The older row is listed first, and of two of the same time the one with the smaller identifier. */
  lemma {:induction false} OlderFirst(rows: seq<Row>, i: nat, j: nat)
    requires DistinctIds(rows) && i < j < |rows|
    ensures var a, b := Ordered(rows)[i].entry, Ordered(rows)[j].entry;
            a.createdAt < b.createdAt || (a.createdAt == b.createdAt && a.id < b.id)
  {
    OrderedSorts(rows);
  }

  /** The hash that row `i` of a chain has to carry over. */
  function Before(log: seq<Row>, i: nat): Option<string>
    requires i <= |log|
  {
    if i == 0 then None else log[i - 1].rowHash
  }

  predicate Links(hash: Hash, log: seq<Row>, i: nat)
    requires i < |log|
  {
    log[i].prevHash == Before(log, i) && log[i].rowHash == Some(hash(log[i].entry, log[i].prevHash))
  }

  /** Every row's hash commits to its fields and to its predecessor's hash. */
  predicate ValidChain(hash: Hash, log: seq<Row>) {
    forall i :: 0 <= i < |log| ==> Links(hash, log, i)
  }

  /** The rows of `log` chained anew. */
  function Chained(hash: Hash, log: seq<Row>): (chain: seq<Row>)
    ensures |chain| == |log|
  {
    if log == [] then []
    else
      var n := |log| - 1;
      var chain := Chained(hash, log[..n]);
      chain + [Linked(hash, log[n], Before(chain, n))]
  }

  function Linked(hash: Hash, r: Row, previous: Option<string>): Row {
    r.(prevHash := previous, rowHash := Some(hash(r.entry, previous)))
  }

  lemma {:induction false} ChainedIsValid(hash: Hash, log: seq<Row>)
    ensures ValidChain(hash, Chained(hash, log))
    ensures forall i :: 0 <= i < |log| ==> Chained(hash, log)[i].entry == log[i].entry
  {
    if log != [] {
      var n := |log| - 1;
      ChainedIsValid(hash, log[..n]);
      ValidExtension(hash, Chained(hash, log[..n]), Chained(hash, log)[n]);
    }
  }

  lemma {:induction false} ValidExtension(hash: Hash, log: seq<Row>, r: Row)
    ensures ValidChain(hash, log + [r]) <==>
            ValidChain(hash, log) && r.prevHash == Before(log, |log|) && r.rowHash == Some(hash(r.entry, r.prevHash))
  {
    forall i | 0 <= i < |log| ensures Links(hash, log + [r], i) == Links(hash, log, i) {
      assert Before(log + [r], i) == Before(log, i);
    }
    assert Before(log + [r], |log|) == Before(log, |log|);
    assert Links(hash, log + [r], |log|) <==>
           r.prevHash == Before(log, |log|) && r.rowHash == Some(hash(r.entry, r.prevHash));
    if ValidChain(hash, log + [r]) {
      forall i | 0 <= i < |log| ensures Links(hash, log, i) {
        assert Links(hash, log + [r], i);
      }
    }
  }

  /** The last hash fixes the whole log: its length and every row. */
  lemma {:induction false} SameLastHashSameLog(hash: Hash, a: seq<Row>, b: seq<Row>)
    requires Injective(hash) && ValidChain(hash, a) && ValidChain(hash, b)
    requires Before(a, |a|) == Before(b, |b|)
    ensures a == b
  {
    if a != [] {
      assert Links(hash, a, |a| - 1);
    }
    if b != [] {
      assert Links(hash, b, |b| - 1);
    }
    if a != [] && b != [] {
      var m, n := |a| - 1, |b| - 1;
      assert a == a[..m] + [a[m]] && b == b[..n] + [b[n]];
      ValidExtension(hash, a[..m], a[m]);
      ValidExtension(hash, b[..n], b[n]);
      SameLastHashSameLog(hash, a[..m], b[..n]);
    }
  }

  predicate DistinctHashes(rows: seq<Row>) {
    forall i, j :: 0 <= i < j < |rows| ==> rows[i].rowHash != rows[j].rowHash
  }

  /** Row hashes are distinct, so the unique index can always be built. */
  lemma {:induction false} RowHashesDistinct(hash: Hash, rows: seq<Row>)
    requires Injective(hash) && DistinctIds(rows)
    requires forall i :: 0 <= i < |rows| ==> rows[i].rowHash == Some(hash(rows[i].entry, rows[i].prevHash))
    ensures DistinctHashes(rows)
  {
  }

  /** Chaining anew changes nothing exactly when the chain is valid. */
  lemma {:induction false} ChainedSameIffValid(hash: Hash, log: seq<Row>)
    ensures Chained(hash, log) == log <==> ValidChain(hash, log)
  {
    if log != [] {
      var n := |log| - 1;
      assert log == log[..n] + [log[n]];
      ChainedSameIffValid(hash, log[..n]);
      ValidExtension(hash, log[..n], log[n]);
      if Chained(hash, log) == log {
        assert Chained(hash, log[..n]) == Chained(hash, log)[..n];
      }
    }
  }

  /** The row an append adds: linked to the last row listed. */
  function NextRow(hash: Hash, rows: seq<Row>, e: Entry): Row {
    Linked(hash, Row(e, None, None), Before(Ordered(rows), |rows|))
  }

  predicate ComesLast(rows: seq<Row>, e: Entry) {
    rows == [] || Precedes(Ordered(rows)[|rows| - 1].entry, e)
  }

  predicate HasId(rows: seq<Row>, id: nat) {
    exists i :: 0 <= i < |rows| && rows[i].entry.id == id
  }

  predicate SelfHashed(hash: Hash, rows: seq<Row>) {
    forall i :: 0 <= i < |rows| ==> rows[i].rowHash == Some(hash(rows[i].entry, rows[i].prevHash))
  }

  /** An append keeps the chain valid exactly when its row is listed last; a row that is not breaks
      it, and no append ever repairs a broken chain. */
  lemma {:induction false} AppendKeepsIff(hash: Hash, rows: seq<Row>, e: Entry)
    requires Injective(hash) && DistinctIds(rows) && SelfHashed(hash, rows) && !HasId(rows, e.id)
    ensures ValidChain(hash, Ordered(rows + [NextRow(hash, rows, e)])) <==>
            ValidChain(hash, Ordered(rows)) && ComesLast(rows, e)
  {
    var r, log := NextRow(hash, rows, e), Ordered(rows);
    assert (rows + [r])[..|rows|] == rows;
    if ComesLast(rows, e) {
      ValidExtension(hash, log, r);
    } else {
      OrderedSorts(rows);
      OrderedSorts(rows + [r]);
      NotLastBreaks(hash, log, Ordered(rows + [r]), r);
    }
  }

  /** In a valid chain, the row that carries over another's hash comes right after it. */
  lemma {:induction false} LinkedRowFollows(hash: Hash, s: seq<Row>, k: nat, n: nat)
    requires Injective(hash) && ValidChain(hash, s) && DistinctIds(s)
    requires k < |s| && n < |s| && s[k].prevHash == s[n].rowHash
    ensures k == n + 1
  {
    assert Links(hash, s, k) && Links(hash, s, n);
    assert k > 0 ==> Links(hash, s, k - 1);
    assert k > 0 && s[k - 1].entry == s[n].entry;
  }

  lemma {:induction false} NotLastBreaks(hash: Hash, log: seq<Row>, s: seq<Row>, r: Row)
    requires Injective(hash) && log != [] && s == Insert(log, r) && DistinctIds(s) && r in multiset(s)
    requires !Precedes(log[|log| - 1].entry, r.entry) && r.prevHash == log[|log| - 1].rowHash
    ensures !ValidChain(hash, s)
  {
    var n := |log|;
    assert s[n] == log[n - 1];
    var k :| 0 <= k <= n && s[k] == r;
    if ValidChain(hash, s) {
      LinkedRowFollows(hash, s, k, n);
      assert false;
    }
  }

  function AppendAll(hash: Hash, rows: seq<Row>, entries: seq<Entry>): (s: seq<Row>)
    ensures |s| == |rows| + |entries|
  {
    if entries == [] then rows
    else
      var n := |entries| - 1;
      var s := AppendAll(hash, rows, entries[..n]);
      s + [NextRow(hash, s, entries[n])]
  }

  /** Each entry comes after everything listed when it is appended. */
  predicate InOrder(hash: Hash, rows: seq<Row>, entries: seq<Entry>) {
    entries == []
    || (InOrder(hash, rows, entries[..|entries| - 1])
        && ComesLast(AppendAll(hash, rows, entries[..|entries| - 1]), entries[|entries| - 1]))
  }

  /** Each append finds its identifier unused, as the primary key demands. */
  predicate Fresh(hash: Hash, rows: seq<Row>, entries: seq<Entry>) {
    entries == []
    || (Fresh(hash, rows, entries[..|entries| - 1])
        && !HasId(AppendAll(hash, rows, entries[..|entries| - 1]), entries[|entries| - 1].id))
  }

  lemma {:induction false} AppendedRow(hash: Hash, rows: seq<Row>, e: Entry)
    requires DistinctIds(rows) && SelfHashed(hash, rows) && !HasId(rows, e.id)
    ensures DistinctIds(rows + [NextRow(hash, rows, e)]) && SelfHashed(hash, rows + [NextRow(hash, rows, e)])
  {
  }

  lemma {:induction false} AppendedRows(hash: Hash, rows: seq<Row>, entries: seq<Entry>)
    requires DistinctIds(rows) && SelfHashed(hash, rows) && Fresh(hash, rows, entries)
    ensures DistinctIds(AppendAll(hash, rows, entries)) && SelfHashed(hash, AppendAll(hash, rows, entries))
  {
    if entries != [] {
      var n := |entries| - 1;
      AppendedRows(hash, rows, entries[..n]);
      AppendedRow(hash, AppendAll(hash, rows, entries[..n]), entries[n]);
    }
  }

  /** Over any run of appends the chain stays valid exactly when every one of them was in order. */
  lemma {:induction false} RunValidIff(hash: Hash, rows: seq<Row>, entries: seq<Entry>)
    requires Injective(hash) && DistinctIds(rows) && SelfHashed(hash, rows) && Fresh(hash, rows, entries)
    requires ValidChain(hash, Ordered(rows))
    ensures ValidChain(hash, Ordered(AppendAll(hash, rows, entries))) <==> InOrder(hash, rows, entries)
  {
    if entries != [] {
      var n := |entries| - 1;
      RunValidIff(hash, rows, entries[..n]);
      AppendedRows(hash, rows, entries[..n]);
      AppendKeepsIff(hash, AppendAll(hash, rows, entries[..n]), entries[n]);
    }
  }

  /** An append keeps the chain valid exactly when its entry is later than every row, or as late and with a
      larger identifier; so an ordinary append does, and one whose clock is behind some row's breaks it. */
  lemma {:induction false} AppendInTimeIff(hash: Hash, rows: seq<Row>, e: Entry)
    requires Injective(hash) && DistinctIds(rows) && SelfHashed(hash, rows) && !HasId(rows, e.id)
    ensures ValidChain(hash, Ordered(rows + [NextRow(hash, rows, e)])) <==>
              && ValidChain(hash, Ordered(rows))
              && forall r :: r in rows ==>
                   r.entry.createdAt < e.createdAt || (r.entry.createdAt == e.createdAt && r.entry.id < e.id)
  {
    AppendKeepsIff(hash, rows, e);
    ComesLastIff(rows, e);
  }

  lemma {:induction false} ComesLastIff(rows: seq<Row>, e: Entry)
    requires DistinctIds(rows)
    ensures ComesLast(rows, e) <==>
            forall r :: r in rows ==>
              r.entry.createdAt < e.createdAt || (r.entry.createdAt == e.createdAt && r.entry.id < e.id)
  {
    var log := Ordered(rows);
    OrderedSorts(rows);
    forall r ensures r in rows <==> r in log {
      assert r in rows <==> r in multiset(rows);
      assert r in log <==> r in multiset(log);
    }
    if ComesLast(rows, e) && rows != [] {
      SortedBeforeLast(log, Row(e, None, None));
      forall r | r in rows ensures Precedes(r.entry, e) {
        var i :| 0 <= i < |log| && log[i] == r;
      }
    }
    if rows != [] {
      assert log[|rows| - 1] in rows;
    }
  }

  /** Two appends with the same clock reading break the chain when the second identifier is smaller. */
  lemma {:induction false} ClockTieBreaksChain(hash: Hash, e: Entry)
    requires Injective(hash) && e.id > 0
    ensures var first := NextRow(hash, [], e);
            !ValidChain(hash, Ordered([first] + [NextRow(hash, [first], e.(id := e.id - 1))]))
  {
    var first := NextRow(hash, [], e);
    AppendKeepsIff(hash, [first], e.(id := e.id - 1));
    assert [first][..0] == [] && Ordered([first]) == [first];
  }

  function Stamp(r: Row, id: nat, prevHash: Option<string>, rowHash: string): Row {
    if r.entry.id == id then r.(prevHash := prevHash, rowHash := Some(rowHash)) else r
  }

  /** `UPDATE … SET prev_hash, row_hash WHERE id`. */
  function Stamped(rows: seq<Row>, id: nat, prevHash: Option<string>, rowHash: string): (s: seq<Row>)
    ensures |s| == |rows|
  {
    if rows == [] then []
    else
      var n := |rows| - 1;
      Stamped(rows[..n], id, prevHash, rowHash) + [Stamp(rows[n], id, prevHash, rowHash)]
  }

  lemma {:induction false} StampedAt(rows: seq<Row>, id: nat, prevHash: Option<string>, rowHash: string, i: nat)
    requires i < |rows|
    ensures Stamped(rows, id, prevHash, rowHash)[i] == Stamp(rows[i], id, prevHash, rowHash)
  {
    if i < |rows| - 1 {
      StampedAt(rows[..|rows| - 1], id, prevHash, rowHash, i);
    }
  }

  lemma {:induction false} InsertStamped(log: seq<Row>, r: Row, id: nat, prevHash: Option<string>, rowHash: string)
    ensures Insert(Stamped(log, id, prevHash, rowHash), Stamp(r, id, prevHash, rowHash))
         == Stamped(Insert(log, r), id, prevHash, rowHash)
  {
    if log != [] && !Precedes(log[|log| - 1].entry, r.entry) {
      var n := |log| - 1;
      InsertStamped(log[..n], r, id, prevHash, rowHash);
      var s := Stamped(log, id, prevHash, rowHash);
      assert s[..n] == Stamped(log[..n], id, prevHash, rowHash);
      assert Insert(log, r)[..n + 1] == Insert(log[..n], r);
    } else {
      assert (log + [r])[..|log|] == log;
    }
  }

  /** The listing depends on the entries alone, so hashing rows does not reorder it. */
  lemma {:induction false} OrderedStamped(rows: seq<Row>, id: nat, prevHash: Option<string>, rowHash: string)
    ensures Ordered(Stamped(rows, id, prevHash, rowHash)) == Stamped(Ordered(rows), id, prevHash, rowHash)
  {
    if rows != [] {
      var n := |rows| - 1;
      OrderedStamped(rows[..n], id, prevHash, rowHash);
      InsertStamped(Ordered(rows[..n]), rows[n], id, prevHash, rowHash);
      assert Stamped(rows, id, prevHash, rowHash)[..n] == Stamped(rows[..n], id, prevHash, rowHash);
    }
  }

  /** Among distinct identifiers the update reaches one row. */
  lemma {:induction false} StampOne(log: seq<Row>, k: nat, prevHash: Option<string>, rowHash: string)
    requires k < |log| && DistinctIds(log)
    ensures Stamped(log, log[k].entry.id, prevHash, rowHash)
         == log[k := log[k].(prevHash := prevHash, rowHash := Some(rowHash))]
  {
    var id := log[k].entry.id;
    forall i | 0 <= i < |log|
      ensures Stamped(log, id, prevHash, rowHash)[i]
           == log[k := log[k].(prevHash := prevHash, rowHash := Some(rowHash))][i]
    {
      StampedAt(log, id, prevHash, rowHash, i);
    }
  }

  /** The listing with its first `k` rows chained. */
  function PartlyChained(hash: Hash, log: seq<Row>, k: nat): (s: seq<Row>)
    requires k <= |log|
    ensures |s| == |log|
  {
    Chained(hash, log[..k]) + log[k..]
  }

  /** The hash that the first `k` chained rows end in. */
  function HashAt(hash: Hash, log: seq<Row>, k: nat): Option<string>
    requires k <= |log|
  {
    Before(Chained(hash, log[..k]), k)
  }

  lemma {:induction false} ChainEnds(hash: Hash, log: seq<Row>)
    ensures PartlyChained(hash, log, 0) == log && HashAt(hash, log, 0) == None
    ensures PartlyChained(hash, log, |log|) == Chained(hash, log)
  {
    assert log[..0] == [] && log[0..] == log && log[..|log|] == log && log[|log|..] == [];
  }

  lemma {:induction false} ChainedNext(hash: Hash, log: seq<Row>, k: nat)
    requires k < |log|
    ensures var previous := HashAt(hash, log, k);
            PartlyChained(hash, log, k)[k := Linked(hash, log[k], previous)] == PartlyChained(hash, log, k + 1)
  {
    assert log[..k + 1][..k] == log[..k];
  }

  lemma {:induction false} SameIds(hash: Hash, log: seq<Row>, k: nat)
    requires k <= |log| && DistinctIds(log)
    ensures DistinctIds(PartlyChained(hash, log, k))
  {
    ChainedIsValid(hash, log[..k]);
    assert forall i :: 0 <= i < |log| ==> PartlyChained(hash, log, k)[i].entry == log[i].entry;
  }

  /** What the rows say, without their hashes. */
  function Entries(rows: seq<Row>): (s: seq<Entry>)
    ensures |s| == |rows|
  {
    if rows == [] then [] else Entries(rows[..|rows| - 1]) + [rows[|rows| - 1].entry]
  }

  lemma {:induction false} EntriesAt(rows: seq<Row>)
    ensures forall i :: 0 <= i < |rows| ==> Entries(rows)[i] == rows[i].entry
  {
    if rows != [] {
      EntriesAt(rows[..|rows| - 1]);
    }
  }

  lemma {:induction false} StampedSameEntries(rows: seq<Row>, id: nat, prevHash: Option<string>, rowHash: string)
    ensures Entries(Stamped(rows, id, prevHash, rowHash)) == Entries(rows)
  {
    if rows != [] {
      StampedSameEntries(rows[..|rows| - 1], id, prevHash, rowHash);
    }
  }

  lemma {:induction false} SameEntriesSameIds(a: seq<Row>, b: seq<Row>)
    requires DistinctIds(a) && Entries(a) == Entries(b)
    ensures DistinctIds(b)
  {
    EntriesAt(a);
    EntriesAt(b);
    assert forall i :: 0 <= i < |b| ==> b[i].entry.id == a[i].entry.id;
  }

  lemma {:induction false} ListedIsSelfHashed(hash: Hash, rows: seq<Row>)
    requires multiset(Ordered(rows)) == multiset(rows) && ValidChain(hash, Ordered(rows))
    ensures SelfHashed(hash, rows)
  {
    forall i | 0 <= i < |rows| ensures rows[i].rowHash == Some(hash(rows[i].entry, rows[i].prevHash)) {
      assert rows[i] in multiset(rows);
      var k :| 0 <= k < |rows| && Ordered(rows)[k] == rows[i];
      assert Links(hash, Ordered(rows), k);
    }
  }

  /** After a backfill every row has its hash and no two the same. */
  lemma {:induction false} BackfilledRows(hash: Hash, before: seq<Row>, after: seq<Row>)
    requires DistinctIds(before) && Entries(before) == Entries(after)
    requires Ordered(after) == Chained(hash, Ordered(before))
    ensures SelfHashed(hash, after)
    ensures Injective(hash) ==> DistinctHashes(after)
  {
    SameEntriesSameIds(before, after);
    OrderedSorts(after);
    ChainedIsValid(hash, Ordered(before));
    ListedIsSelfHashed(hash, after);
    if Injective(hash) {
      RowHashesDistinct(hash, after);
    }
  }

  // ---- changes behind the chain's back ----

  /** Sorting has one result. */
  lemma {:induction false} SortedIsUnique(a: seq<Row>, b: seq<Row>)
    requires Sorted(a) && Sorted(b) && multiset(a) == multiset(b)
    ensures a == b
  {
    assert |multiset(a)| == |multiset(b)|;
    if a != [] {
      var n := |a| - 1;
      LastIsGreatest(a, b);
      WithoutLast(a);
      WithoutLast(b);
      SortedIsUnique(a[..n], b[..n]);
    }
  }

  lemma {:induction false} WithoutLast(s: seq<Row>)
    requires s != [] && Sorted(s)
    ensures var n := |s| - 1;
            s == s[..n] + [s[n]] && multiset(s[..n]) == multiset(s) - multiset{s[n]} && Sorted(s[..n])
  {
    assert s == s[..|s| - 1] + [s[|s| - 1]];
  }

  lemma {:induction false} LastIsGreatest(a: seq<Row>, b: seq<Row>)
    requires Sorted(a) && Sorted(b) && multiset(a) == multiset(b) && |a| == |b| > 0
    ensures a[|a| - 1] == b[|b| - 1]
  {
    var x, y := a[|a| - 1], b[|b| - 1];
    assert x in multiset(b) && y in multiset(a);
    var i, j :| 0 <= i < |a| && 0 <= j < |b| && a[i] == y && b[j] == x;
    assert i < |a| - 1 ==> Precedes(y.entry, x.entry);
    assert j < |b| - 1 ==> Precedes(x.entry, y.entry);
  }

  function Removed(rows: seq<Row>, i: nat): seq<Row>
    requires i < |rows|
  {
    rows[..i] + rows[i + 1..]
  }

  lemma {:induction false} RemovedRows(rows: seq<Row>, i: nat)
    requires i < |rows|
    ensures multiset(Removed(rows, i)) == multiset(rows) - multiset{rows[i]}
    ensures forall j :: 0 <= j < |rows| - 1 ==> Removed(rows, i)[j] == rows[if j < i then j else j + 1]
  {
    assert rows == rows[..i] + [rows[i]] + rows[i + 1..];
  }

  lemma {:induction false} RemovedStaysSorted(rows: seq<Row>, i: nat)
    requires i < |rows|
    ensures Sorted(rows) ==> Sorted(Removed(rows, i))
    ensures DistinctIds(rows) ==> DistinctIds(Removed(rows, i))
  {
    RemovedRows(rows, i);
  }

  /** Removing a row of the table removes it from the listing. */
  lemma {:induction false} OrderedRemoved(rows: seq<Row>, i: nat, k: nat)
    requires DistinctIds(rows) && i < |rows| && k < |rows| && Ordered(rows)[k] == rows[i]
    ensures Ordered(Removed(rows, i)) == Removed(Ordered(rows), k)
  {
    OrderedSorts(rows);
    RemovedRows(rows, i);
    RemovedRows(Ordered(rows), k);
    RemovedStaysSorted(rows, i);
    RemovedStaysSorted(Ordered(rows), k);
    OrderedSorts(Removed(rows, i));
    SortedIsUnique(Ordered(Removed(rows, i)), Removed(Ordered(rows), k));
  }

  /** Of a valid chain only the row listed last can be removed unnoticed. */
  lemma {:induction false} RemovalKeepsIff(hash: Hash, rows: seq<Row>, i: nat, k: nat)
    requires Injective(hash) && DistinctIds(rows) && ValidChain(hash, Ordered(rows))
    requires i < |rows| && k < |rows| && Ordered(rows)[k] == rows[i]
    ensures ValidChain(hash, Ordered(Performed(hash, rows, false, Remove(i)))) <==> k == |rows| - 1
  {
    OrderedRemoved(rows, i, k);
    OrderedSorts(rows);
    var log := Ordered(rows);
    if k == |log| - 1 {
      assert log == log[..k] + [log[k]] && Removed(log, k) == log[..k];
      ValidExtension(hash, log[..k], log[k]);
    } else if ValidChain(hash, Removed(log, k)) {
      GapIsNoticed(hash, log, k);
      assert false;
    }
  }

  lemma {:induction false} GapIsNoticed(hash: Hash, log: seq<Row>, k: nat)
    requires Injective(hash) && DistinctIds(log) && ValidChain(hash, log) && k + 1 < |log|
    ensures !ValidChain(hash, Removed(log, k))
  {
    var rest := Removed(log, k);
    assert rest[k] == log[k + 1] && (k > 0 ==> rest[k - 1] == log[k - 1]);
    assert Links(hash, log, k) && Links(hash, log, k + 1);
    assert k > 0 ==> Links(hash, log, k - 1);
    assert !Links(hash, rest, k);
  }

  /** Of a valid chain no row's hashes can be changed unnoticed. */
  lemma {:induction false} RehashKeepsIff(hash: Hash, rows: seq<Row>, k: nat, prevHash: Option<string>,
      rowHash: string)
    requires DistinctIds(rows) && ValidChain(hash, Ordered(rows)) && k < |rows|
    ensures var r := Ordered(rows)[k];
            ValidChain(hash, Ordered(Performed(hash, rows, false, Rehash(r.entry.id, prevHash, rowHash))))
            <==> r.prevHash == prevHash && r.rowHash == Some(rowHash)
  {
    var log := Ordered(rows);
    var r := log[k];
    OrderedSorts(rows);
    OrderedStamped(rows, r.entry.id, prevHash, rowHash);
    StampOne(log, k, prevHash, rowHash);
    StampIsNoticed(hash, log, k, prevHash, rowHash);
  }

  lemma {:induction false} StampIsNoticed(hash: Hash, log: seq<Row>, k: nat, prevHash: Option<string>,
      rowHash: string)
    requires ValidChain(hash, log) && k < |log|
    ensures var r := log[k];
            ValidChain(hash, log[k := r.(prevHash := prevHash, rowHash := Some(rowHash))])
            <==> r.prevHash == prevHash && r.rowHash == Some(rowHash)
  {
    var r := log[k];
    var after := log[k := r.(prevHash := prevHash, rowHash := Some(rowHash))];
    assert Links(hash, log, k) && Before(after, k) == Before(log, k);
    if r.prevHash == prevHash && r.rowHash == Some(rowHash) {
      assert after == log;
    } else {
      assert !Links(hash, after, k);
    }
  }

  /** What anyone may run on the table. */
  datatype Operation =
    | Rehash(id: nat, prevHash: Option<string>, rowHash: string)
    | Remove(i: nat)
    | Append(e: Entry)

  function Performed(hash: Hash, rows: seq<Row>, guarded: bool, op: Operation): seq<Row> {
    match op
    case Rehash(id, prevHash, rowHash) => if guarded then rows else Stamped(rows, id, prevHash, rowHash)
    case Remove(i) => if guarded || i >= |rows| then rows else Removed(rows, i)
    case Append(e) => if HasId(rows, e.id) then rows else rows + [NextRow(hash, rows, e)]
  }

  function AllPerformed(hash: Hash, rows: seq<Row>, guarded: bool, ops: seq<Operation>): seq<Row> {
    if ops == [] then rows
    else
      var n := |ops| - 1;
      Performed(hash, AllPerformed(hash, rows, guarded, ops[..n]), guarded, ops[n])
  }

  /** The entries of the appends that find their identifier unused. */
  function Accepted(hash: Hash, rows: seq<Row>, ops: seq<Operation>): seq<Entry> {
    if ops == [] then []
    else
      var n := |ops| - 1;
      var before := Accepted(hash, rows, ops[..n]);
      if ops[n].Append? && !HasId(AppendAll(hash, rows, before), ops[n].e.id) then before + [ops[n].e] else before
  }

  lemma {:induction false} AppendAllNext(hash: Hash, rows: seq<Row>, entries: seq<Entry>, e: Entry)
    ensures var s := AppendAll(hash, rows, entries);
            && AppendAll(hash, rows, entries + [e]) == s + [NextRow(hash, s, e)]
            && (Fresh(hash, rows, entries + [e]) <==> Fresh(hash, rows, entries) && !HasId(s, e.id))
  {
    assert (entries + [e])[..|entries|] == entries;
  }

  /** Whatever is run on the guarded table, it comes out as after its accepted appends alone. */
  lemma {:induction false} GuardedOnlyGrows(hash: Hash, rows: seq<Row>, ops: seq<Operation>)
    ensures AllPerformed(hash, rows, true, ops) == AppendAll(hash, rows, Accepted(hash, rows, ops))
    ensures Fresh(hash, rows, Accepted(hash, rows, ops))
    ensures rows <= AllPerformed(hash, rows, true, ops)
  {
    if ops != [] {
      var n := |ops| - 1;
      var before, entries := Accepted(hash, rows, ops[..n]), Accepted(hash, rows, ops);
      GuardedOnlyGrows(hash, rows, ops[..n]);
      if entries != before {
        AppendAllNext(hash, rows, before, ops[n].e);
        assert entries == before + [ops[n].e];
      } else {
        assert AllPerformed(hash, rows, true, ops) == AllPerformed(hash, rows, true, ops[..n]);
      }
    }
  }

  /** So over any run on a guarded table, attempted updates and deletions included, its chain stays valid
      exactly when the accepted appends were in order. */
  lemma {:induction false} GuardedValidIff(hash: Hash, rows: seq<Row>, ops: seq<Operation>)
    requires Injective(hash) && DistinctIds(rows) && SelfHashed(hash, rows) && ValidChain(hash, Ordered(rows))
    ensures ValidChain(hash, Ordered(AllPerformed(hash, rows, true, ops)))
       <==> InOrder(hash, rows, Accepted(hash, rows, ops))
  {
    GuardedOnlyGrows(hash, rows, ops);
    RunValidIff(hash, rows, Accepted(hash, rows, ops));
  }

  /** The table; `guarded` says whether its no-update and no-delete triggers are in place. */
  class AuditLog {
    const hash: Hash
    var rows: seq<Row>
    var guarded: bool

    constructor (hash: Hash, rows: seq<Row>, guarded: bool)
      ensures this.hash == hash && this.rows == rows && this.guarded == guarded
    {
      this.hash, this.rows, this.guarded := hash, rows, guarded;
    }

    /** The update of one row's hashes, which the triggers refuse. */
    method SetHashes(id: nat, prevHash: Option<string>, rowHash: string) returns (ok: bool)
      modifies this`rows
      ensures ok == !guarded
      ensures rows == if ok then Stamped(old(rows), id, prevHash, rowHash) else old(rows)
    {
      if guarded {
        return false;
      }
      for i := 0 to |rows|
        invariant |rows| == |old(rows)|
        invariant rows[..i] == Stamped(old(rows)[..i], id, prevHash, rowHash)
        invariant forall j :: i <= j < |rows| ==> rows[j] == old(rows)[j]
      {
        assert old(rows)[..i + 1][..i] == old(rows)[..i];
        if rows[i].entry.id == id {
          rows := rows[i := rows[i].(prevHash := prevHash, rowHash := Some(rowHash))];
        }
      }
      assert rows[..|rows|] == rows && old(rows)[..|rows|] == old(rows);
      ok := true;
    }

    /** Deleting a row, which the triggers refuse. */
    method Delete(i: nat) returns (ok: bool)
      requires i < |rows|
      modifies this`rows
      ensures ok == !guarded
      ensures rows == if ok then Removed(old(rows), i) else old(rows)
    {
      if !guarded {
        rows := rows[..i] + rows[i + 1..];
      }
      ok := !guarded;
    }

    /** The backfill has linked the first `k` rows of the listing, and changed no entry. */
    ghost predicate LinkedUpTo(log: seq<Row>, entries: seq<Entry>, k: nat, previous: Option<string>)
      reads this
    {
      && k <= |log| && Ordered(rows) == PartlyChained(hash, log, k) && previous == HashAt(hash, log, k)
      && Entries(rows) == entries
    }

    /** One step of the backfill: link row `k` of the listing to the one before it. */
    method Link(ghost log: seq<Row>, ghost entries: seq<Entry>, ghost k: nat, r: Row, previous: Option<string>)
      returns (rowHash: string)
      requires !guarded && k < |log| && DistinctIds(log) && r == log[k] && LinkedUpTo(log, entries, k, previous)
      modifies this`rows
      ensures LinkedUpTo(log, entries, k + 1, Some(rowHash))
    {
      rowHash := hash(r.entry, previous);
      ghost var was := PartlyChained(hash, log, k);
      SameIds(hash, log, k);
      StampOne(was, k, previous, rowHash);
      OrderedStamped(rows, r.entry.id, previous, rowHash);
      StampedSameEntries(rows, r.entry.id, previous, rowHash);
      var ok := SetHashes(r.entry.id, previous, rowHash);
      ChainedNext(hash, log, k);
      assert log[..k + 1][..k] == log[..k];
    }

    /** The backfill. In offline mode it changes nothing and fails when a row has no hash. */
    method BackfillHashChain(offline: bool) returns (ok: bool)
      requires DistinctIds(rows) && !guarded
      modifies this`rows
      ensures offline ==> rows == old(rows) && (ok <==> forall i :: 0 <= i < |rows| ==> rows[i].rowHash.Some?)
      ensures Entries(rows) == Entries(old(rows))
      ensures !offline ==> ok && Ordered(rows) == Chained(hash, Ordered(old(rows)))
    {
      if offline {
        return forall i :: 0 <= i < |rows| ==> rows[i].rowHash.Some?;
      }
      OrderedSorts(rows);
      ghost var log := Ordered(rows);
      ChainEnds(hash, log);
      var last := LinkAll(Ordered(rows), Entries(rows));
      ok := true;
    }

    /** The backfill's loop over the listing, carrying the previous hash. */
    method LinkAll(log: seq<Row>, ghost entries: seq<Entry>) returns (previous: Option<string>)
      requires !guarded && DistinctIds(log) && LinkedUpTo(log, entries, 0, None)
      modifies this`rows
      ensures LinkedUpTo(log, entries, |log|, previous)
    {
      previous := None;
      for k := 0 to |log|
        invariant LinkedUpTo(log, entries, k, previous)
      {
        var rowHash := Link(log, entries, k, log[k], previous);
        previous := Some(rowHash);
      }
    }

    /** The migration: drop the triggers, backfill, demand a hash on every row, build the unique
        index, and put the triggers back. */
    method Upgrade(offline: bool) returns (ok: bool)
      requires DistinctIds(rows)
      modifies this
      ensures ok ==> guarded && forall i :: 0 <= i < |rows| ==> rows[i].rowHash.Some?
      ensures Entries(rows) == Entries(old(rows))
      ensures !offline ==> Ordered(rows) == Chained(hash, Ordered(old(rows))) && ValidChain(hash, Ordered(rows))
      ensures !offline && Injective(hash) ==> ok
    {
      guarded := false;
      ok := BackfillHashChain(offline);
      if !ok {
        return;
      }
      if !offline {
        BackfilledRows(hash, old(rows), rows);
        ChainedIsValid(hash, Ordered(old(rows)));
      }
      if !DistinctHashes(rows) {
        return false;
      }
      guarded := true;
    }
  }

  /** Append under the chain's lock; the primary key refuses a used identifier. */
  method WriteAuditLog(log: AuditLog, e: Entry) returns (ok: bool)
    modifies log`rows
    ensures ok <==> !HasId(old(log.rows), e.id)
    ensures log.rows == if ok then old(log.rows) + [NextRow(log.hash, old(log.rows), e)] else old(log.rows)
  {
    var listed := Ordered(log.rows);
    var previous := if listed == [] then None else listed[|listed| - 1].rowHash;
    var row := Row(e, previous, Some(log.hash(e, previous)));
    if HasId(log.rows, e.id) {
      return false;
    }
    log.rows := log.rows + [row];
    ok := true;
  }

  /** Any run of operations on the table. */
  method RunAll(log: AuditLog, ops: seq<Operation>)
    modifies log`rows
    ensures log.rows == AllPerformed(log.hash, old(log.rows), log.guarded, ops)
  {
    for k := 0 to |ops|
      invariant log.rows == AllPerformed(log.hash, old(log.rows), log.guarded, ops[..k])
    {
      assert ops[..k + 1][..k] == ops[..k];
      var ok: bool;
      match ops[k]
      case Rehash(id, prevHash, rowHash) =>
        ok := log.SetHashes(id, prevHash, rowHash);
      case Remove(i) =>
        if i < |log.rows| {
          ok := log.Delete(i);
        }
      case Append(e) =>
        ok := WriteAuditLog(log, e);
    }
    assert ops[..|ops|] == ops;
  }

  /** The check walks the listing and stops at the first row that does not fit. */
  method VerifyAuditHashChain(hash: Hash, rows: seq<Row>) returns (ok: bool)
    ensures ok <==> ValidChain(hash, Ordered(rows))
  {
    var log := Ordered(rows);
    var previous: Option<string> := None;
    for i := 0 to |log|
      invariant previous == Before(log, i)
      invariant forall j :: 0 <= j < i ==> Links(hash, log, j)
    {
      if log[i].prevHash != previous || log[i].rowHash != Some(hash(log[i].entry, log[i].prevHash)) {
        assert !Links(hash, log, i);
        return false;
      }
      previous := log[i].rowHash;
    }
    ok := true;
  }
}
