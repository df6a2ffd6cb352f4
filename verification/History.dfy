/** The window of earlier turns that is replayed to the model, bounded by a number of turns and a
    number of characters. */
module History {
  import opened Text
  import opened Positions

  datatype Role = User | Assistant | Hidden

  /** A stored message of the session; `content` is `""` when the column is empty. */
  datatype Row = Row(id: nat, role: Role, content: string)

  datatype Turn = Turn(role: Role, content: string)

  /** The rows the query may return, oldest first: both speakers' messages but the excluded one. */
  function Visible(rows: seq<Row>, exclude: nat): seq<Row> {
    if rows == [] then []
    else
      var last := rows[|rows| - 1];
      Visible(rows[..|rows| - 1], exclude) + (if last.role != Hidden && last.id != exclude then [last] else [])
  }

  /** The most recent `limit` rows, oldest first. */
  function Latest(rows: seq<Row>, limit: nat): seq<Row> {
    if |rows| <= limit then rows else rows[|rows| - limit..]
  }

  // ---- merging: what the turns are made of ----

  /** A run of messages of one speaker. */
  datatype Run = Run(role: Role, parts: seq<string>)

  /** The rows that have text, trimmed. */
  function Spoken(rows: seq<Row>): seq<Turn> {
    if rows == [] then []
    else
      var last := rows[|rows| - 1];
      var text := Strip(IsPySpace, last.content);
      Spoken(rows[..|rows| - 1]) + (if text == "" then [] else [Turn(last.role, text)])
  }

  /** One more message behind `before`: it joins the last run or starts a new one. */
  function Extend(before: seq<Run>, last: Turn): seq<Run> {
    var n := |before|;
    if n > 0 && before[n - 1].role == last.role then
      before[..n - 1] + [Run(last.role, before[n - 1].parts + [last.content])]
    else before + [Run(last.role, [last.content])]
  }

  /** `said` cut into maximal runs of one speaker. */
  function Runs(said: seq<Turn>): seq<Run> {
    if said == [] then []
    else Extend(Runs(said[..|said| - 1]), said[|said| - 1])
  }

  function RenderedRun(r: Run): Turn {
    Turn(r.role, Join(r.parts, "\n\n"))
  }

  function Rendered(runs: seq<Run>): (turns: seq<Turn>)
    ensures |turns| == |runs|
  {
    if runs == [] then [] else Rendered(runs[..|runs| - 1]) + [RenderedRun(runs[|runs| - 1])]
  }

  lemma {:induction false} RenderedAt(runs: seq<Run>, i: nat)
    requires i < |runs|
    ensures Rendered(runs)[i] == RenderedRun(runs[i])
  {
    if i < |runs| - 1 {
      RenderedAt(runs[..|runs| - 1], i);
    }
  }

  function Unrolled(r: Run): seq<Turn> {
    seq(|r.parts|, i requires 0 <= i < |r.parts| => Turn(r.role, r.parts[i]))
  }

  function Flattened(runs: seq<Run>): seq<Turn> {
    if runs == [] then []
    else Flattened(runs[..|runs| - 1]) + Unrolled(runs[|runs| - 1])
  }

  predicate Alternating(turns: seq<Turn>) {
    && (forall i :: 0 <= i < |turns| ==> turns[i].role != Hidden)
    && (forall i :: 0 < i < |turns| ==> turns[i].role != turns[i - 1].role)
  }

  /** Cutting into runs loses nothing and keeps the order. */
  lemma {:induction false} RunsKeepEverything(said: seq<Turn>)
    ensures Flattened(Runs(said)) == said
  {
    if said != [] {
      var n := |said| - 1;
      var front, last := said[..n], said[n];
      assert said == front + [last];
      RunsKeepEverything(front);
      assert Runs(said) == Extend(Runs(front), last);
      ExtendFlattened(Runs(front), last);
    }
  }

  lemma {:induction false} ExtendFlattened(before: seq<Run>, last: Turn)
    ensures Flattened(Extend(before, last)) == Flattened(before) + [last]
  {
    if before != [] && before[|before| - 1].role == last.role {
      var run, front := before[|before| - 1], before[..|before| - 1];
      var more := Run(last.role, run.parts + [last.content]);
      assert Unrolled(more) == Unrolled(run) + [last];
      FlattenedAppend(front, more);
      SumIsAssociative(Flattened(front), Unrolled(run), [last]);
    } else {
      assert Unrolled(Run(last.role, [last.content])) == [last];
      FlattenedAppend(before, Run(last.role, [last.content]));
    }
  }

  lemma {:induction false} FlattenedAppend(runs: seq<Run>, r: Run)
    ensures Flattened(runs + [r]) == Flattened(runs) + Unrolled(r)
  {
  }

  /** No two runs of one speaker are side by side, and every run says something. */
  ghost predicate Maximal(runs: seq<Run>) {
    && (forall i :: 0 <= i < |runs| ==> runs[i].role != Hidden && runs[i].parts != [] && runs[i].parts[0] != "")
    && (forall i, j :: 0 <= i && j == i + 1 && j < |runs| ==> runs[i].role != runs[j].role)
  }

  lemma {:induction false} ExtendMaximal(before: seq<Run>, last: Turn)
    requires Maximal(before) && last.role != Hidden && last.content != ""
    ensures Maximal(Extend(before, last))
  {
  }

  lemma {:induction false} RunsMaximal(said: seq<Turn>)
    requires forall t :: t in said ==> t.role != Hidden && t.content != ""
    ensures Maximal(Runs(said))
  {
    if said != [] {
      RunsMaximal(said[..|said| - 1]);
      ExtendMaximal(Runs(said[..|said| - 1]), said[|said| - 1]);
    }
  }

  lemma {:induction false} RenderedAlternates(said: seq<Turn>)
    requires forall t :: t in said ==> t.role != Hidden && t.content != ""
    ensures Alternating(Rendered(Runs(said)))
    ensures forall t :: t in Rendered(Runs(said)) ==> t.content != ""
  {
    var runs := Runs(said);
    RunsMaximal(said);
    forall i | 0 <= i < |runs| ensures Rendered(runs)[i].role == runs[i].role && Rendered(runs)[i].content != "" {
      RenderedAt(runs, i);
      JoinSays(runs[i].parts);
    }
  }

  lemma {:induction false} JoinSays(parts: seq<string>)
    requires parts != [] && parts[0] != ""
    ensures Join(parts, "\n\n") != ""
  {
  }

  lemma {:induction false} SpokenSays(rows: seq<Row>)
    requires forall r :: r in rows ==> r.role != Hidden
    ensures forall t :: t in Spoken(rows) ==> t.role != Hidden && t.content != ""
  {
    if rows != [] {
      SpokenSays(rows[..|rows| - 1]);
      assert rows[|rows| - 1] in rows;
    }
  }

  // ---- the window ----

  function Chars(turns: seq<Turn>): nat {
    if turns == [] then 0 else |turns[0].content| + Chars(turns[1..])
  }

  /** The suffix of `turns` from `k` on may be replayed. */
  predicate Fits(turns: seq<Turn>, k: nat, maxMessages: nat, maxChars: nat)
    requires k <= |turns|
  {
    && (k < |turns| ==> turns[k].role == User)
    && |turns| - k <= maxMessages
    && Chars(turns[k..]) <= maxChars
  }

  /** `kept` is the longest suffix of `turns` that may be replayed. */
  ghost predicate IsWindow(turns: seq<Turn>, kept: seq<Turn>, maxMessages: nat, maxChars: nat) {
    exists k :: 0 <= k <= |turns| && kept == turns[k..] && Fits(turns, k, maxMessages, maxChars)
                && forall j :: 0 <= j < k ==> !Fits(turns, j, maxMessages, maxChars)
  }

  /** The merged turns with the leading assistant turn and the trailing user turn dropped. */
  function Trim(turns: seq<Turn>): seq<Turn> {
    if turns != [] && turns[0].role != User then Trim(turns[1..])
    else if turns != [] && turns[|turns| - 1].role != Assistant then Trim(turns[..|turns| - 1])
    else turns
  }

  function Candidates(rows: seq<Row>, exclude: nat, maxMessages: nat): seq<Turn> {
    Trim(Rendered(Runs(Spoken(Latest(Visible(rows, exclude), 4 * maxMessages)))))
  }

  predicate Replayable(turns: seq<Turn>) {
    && Alternating(turns)
    && (turns != [] ==> turns[0].role == User && turns[|turns| - 1].role == Assistant)
  }

  lemma {:induction false} TrimIsReplayable(turns: seq<Turn>)
    requires Alternating(turns)
    ensures Replayable(Trim(turns))
  {
    if turns != [] && turns[0].role != User {
      TrimIsReplayable(turns[1..]);
    } else if turns != [] && turns[|turns| - 1].role != Assistant {
      TrimIsReplayable(turns[..|turns| - 1]);
    }
  }

  // ---- what is replayed, said of the session's rows ----

  /** A row that the query may return: of either speaker, and not the excluded one. */
  predicate IsAsked(r: Row, exclude: nat) {
    (r.role == User || r.role == Assistant) && r.id != exclude
  }

  /** Of the first `n` rows. */
  lemma {:induction false} VisibleAt(rows: seq<Row>, exclude: nat, n: nat) returns (at: seq<nat>)
    requires n <= |rows|
    ensures Picks(rows, 0, Visible(rows[..n], exclude), at) && Rising(at, 0, n)
    ensures forall i {:trigger i in at} :: 0 <= i < n ==>
              (i in at <==> (rows[i].role == User || rows[i].role == Assistant) && rows[i].id != exclude)
  {
    at := [];
    if n > 0 {
      var earlier := VisibleAt(rows, exclude, n - 1);
      var asked, front := IsAsked(rows[n - 1], exclude), Visible(rows[..n - 1], exclude);
      assert Visible(rows[..n], exclude) == if asked then front + [rows[n - 1]] else front by {
        assert rows[..n][..n - 1] == rows[..n - 1];
      }
      at := PicksNext(rows, n - 1, front, earlier, asked);
    }
  }

  /** The rows merged are the latest of the session's that are a speaker's and not the excluded one: in their
      order, no more than the limit, and one is left out only when the limit is reached by later ones. */
  lemma {:induction false} LatestAt(rows: seq<Row>, exclude: nat, limit: nat) returns (at: seq<nat>)
    ensures Picks(rows, 0, Latest(Visible(rows, exclude), limit), at) && |at| <= limit
    ensures forall i :: i in at ==> (rows[i].role == User || rows[i].role == Assistant) && rows[i].id != exclude
    ensures forall i {:trigger i in at} ::
              (0 <= i < |rows| && i !in at && (rows[i].role == User || rows[i].role == Assistant)
               && rows[i].id != exclude)
              ==> (|at| == limit && forall j :: j in at ==> i < j)
  {
    var all := VisibleAt(rows, exclude, |rows|);
    assert rows[..|rows|] == rows;
    var k := if |all| <= limit then 0 else |all| - limit;
    at := all[k..];
    PicksSuffix(rows, Visible(rows, exclude), all, k);
    assert Visible(rows, exclude)[k..] == Latest(Visible(rows, exclude), limit);
  }

  function Contents(said: seq<Turn>): (r: seq<string>)
    ensures |r| == |said|
  {
    seq(|said|, i requires 0 <= i < |said| => said[i].content)
  }

  /** Strictly increasing marks from 0 to `n`, the ends of consecutive stretches. */
  predicate Cuts(cuts: seq<nat>, n: nat) {
    && |cuts| > 0 && cuts[0] == 0 && cuts[|cuts| - 1] == n
    && forall k, l :: 0 <= k < l < |cuts| ==> cuts[k] < cuts[l]
  }

  /** `turns` are the stretches of `said` between the marks, each of one speaker and joined by a blank line, the
      next one of the other speaker. */
  ghost predicate JoinedAt(said: seq<Turn>, turns: seq<Turn>, cuts: seq<nat>) {
    && Cuts(cuts, |said|) && |turns| == |cuts| - 1
    && (forall k :: 0 <= k < |turns| ==>
          && turns[k].content == Join(Contents(said[cuts[k]..cuts[k + 1]]), "\n\n")
          && forall i :: cuts[k] <= i < cuts[k + 1] ==> said[i].role == turns[k].role)
    && forall k, l :: 0 <= k && l == k + 1 && l < |turns| ==> turns[k].role != turns[l].role
  }

  lemma {:induction false} CutsGrow(cuts: seq<nat>, n: nat)
    requires Cuts(cuts, n)
    ensures Cuts(cuts + [n + 1], n + 1)
    ensures |cuts| > 1 ==> Cuts(cuts[..|cuts| - 1] + [n + 1], n + 1)
  {
  }

  lemma {:induction false} ContentsSnoc(said: seq<Turn>, from: nat)
    requires from < |said|
    ensures var n := |said| - 1; Contents(said[from..]) == Contents(said[..n][from..]) + [said[n].content]
  {
  }

  /** All turns but the last ones are what they were. */
  lemma {:induction false} EarlierJoined(said: seq<Turn>, turns: seq<Turn>, cuts: seq<nat>, k: nat)
    requires said != [] && JoinedAt(said[..|said| - 1], turns, cuts) && k < |turns|
    ensures cuts[k] < cuts[k + 1] <= |said| - 1
    ensures turns[k].content == Join(Contents(said[cuts[k]..cuts[k + 1]]), "\n\n")
    ensures forall i :: cuts[k] <= i < cuts[k + 1] ==> said[i].role == turns[k].role
  {
    var n := |said| - 1;
    assert k + 1 < |cuts| - 1 ==> cuts[k + 1] < cuts[|cuts| - 1];
    assert said[..n][cuts[k]..cuts[k + 1]] == said[cuts[k]..cuts[k + 1]];
    assert forall i :: cuts[k] <= i < cuts[k + 1] ==> said[..n][i] == said[i];
  }

  /** A message of the last turn's speaker goes into it, behind a blank line. */
  lemma {:induction false} JoinedIntoLast(said: seq<Turn>, turns: seq<Turn>, cuts: seq<nat>)
    requires said != [] && JoinedAt(said[..|said| - 1], turns, cuts)
    requires turns != [] && turns[|turns| - 1].role == said[|said| - 1].role
    ensures JoinedAt(said, Joined(turns, said[|said| - 1]), cuts[..|turns|] + [|said|])
  {
    var n, m := |said| - 1, |turns|;
    var more, joined := cuts[..m] + [n + 1], Joined(turns, said[n]);
    CutsGrow(cuts, n);
    LastJoined(said, turns, cuts);
    forall k | 0 <= k < m
      ensures joined[k].content == Join(Contents(said[more[k]..more[k + 1]]), "\n\n")
      ensures forall i :: more[k] <= i < more[k + 1] ==> said[i].role == joined[k].role
    {
      EarlierJoined(said, turns, cuts, k);
    }
  }

  lemma {:induction false} LastJoined(said: seq<Turn>, turns: seq<Turn>, cuts: seq<nat>)
    requires said != [] && JoinedAt(said[..|said| - 1], turns, cuts)
    requires turns != [] && turns[|turns| - 1].role == said[|said| - 1].role
    ensures var m, last := |turns|, said[|said| - 1];
            cuts[m - 1] < |said|
            && turns[m - 1].content + "\n\n" + last.content == Join(Contents(said[cuts[m - 1]..]), "\n\n")
            && said[cuts[m - 1]..] == said[cuts[m - 1]..|said|]
  {
    var n, m := |said| - 1, |turns|;
    var from := cuts[m - 1];
    EarlierJoined(said, turns, cuts, m - 1);
    assert said[..n][from..] == said[from..n];
    ContentsSnoc(said, from);
    JoinAppend(Contents(said[from..n]), said[n].content, "\n\n");
  }

  /** A message of the other speaker is a turn of its own. */
  lemma {:induction false} JoinedBehind(said: seq<Turn>, turns: seq<Turn>, cuts: seq<nat>)
    requires said != [] && JoinedAt(said[..|said| - 1], turns, cuts)
    requires turns == [] || turns[|turns| - 1].role != said[|said| - 1].role
    ensures JoinedAt(said, Joined(turns, said[|said| - 1]), cuts + [|said|])
  {
    var n, m := |said| - 1, |turns|;
    var more, joined := cuts + [n + 1], Joined(turns, said[n]);
    CutsGrow(cuts, n);
    forall k | 0 <= k < |joined|
      ensures joined[k].content == Join(Contents(said[more[k]..more[k + 1]]), "\n\n")
      ensures forall i :: more[k] <= i < more[k + 1] ==> said[i].role == joined[k].role
    {
      if k < m {
        EarlierJoined(said, turns, cuts, k);
      } else {
        assert more[k] == n && more[k + 1] == n + 1 && Contents(said[n..n + 1]) == [said[n].content];
      }
    }
    forall k, l | 0 <= k && l == k + 1 && l < |joined| ensures joined[k].role != joined[l].role {
      assert l < m ==> turns[k].role != turns[l].role;
    }
  }

  lemma {:induction false} MergedNext(said: seq<Turn>)
    requires said != []
    ensures Rendered(Runs(said)) == Joined(Rendered(Runs(said[..|said| - 1])), said[|said| - 1])
  {
    var front, last := said[..|said| - 1], said[|said| - 1];
    assert front + [last] == said;
    MergeStep(front, last);
  }

  /** The merge loses nothing and keeps the order: its turns are what was said, joined speaker by speaker. */
  lemma {:induction false} MergedAt(said: seq<Turn>) returns (cuts: seq<nat>)
    ensures JoinedAt(said, Rendered(Runs(said)), cuts)
  {
    if said == [] {
      cuts := [0];
    } else {
      var n := |said| - 1;
      var before := MergedAt(said[..n]);
      MergedNext(said);
      var turns := Rendered(Runs(said[..n]));
      if turns != [] && turns[|turns| - 1].role == said[n].role {
        JoinedIntoLast(said, turns, before);
        cuts := before[..|turns|] + [n + 1];
      } else {
        JoinedBehind(said, turns, before);
        cuts := before + [n + 1];
      }
    }
  }

  /** Row by row: what one row says, and that rows side by side say it one after the other. */
  lemma {:induction false} SpokenSum(a: seq<Row>, b: seq<Row>)
    ensures Spoken(a + b) == Spoken(a) + Spoken(b)
  {
    if b == [] {
      assert a + b == a;
    } else {
      var front, last := b[..|b| - 1], b[|b| - 1];
      assert Spoken(a + b) == Spoken(a + front) + Spoken([last]) by {
        assert a + b == (a + front) + [last];
        SpokenSnoc(a + front, last);
      }
      assert Spoken(b) == Spoken(front) + Spoken([last]) by {
        assert b == front + [last];
        SpokenSnoc(front, last);
      }
      SpokenSum(a, front);
      SumIsAssociative(Spoken(a), Spoken(front), Spoken([last]));
    }
  }

  lemma {:induction false} SpokenOne(r: Row)
    ensures Spoken([r]) ==
            if Strip(IsPySpace, r.content) == "" then [] else [Turn(r.role, Strip(IsPySpace, r.content))]
  {
    assert [r][..0] == [] && Spoken([]) == [];
  }

  lemma {:induction false} SpokenSnoc(rows: seq<Row>, r: Row)
    ensures Spoken(rows + [r]) == Spoken(rows) + Spoken([r])
  {
    assert (rows + [r])[..|rows|] == rows;
    SpokenOne(r);
  }

  /** A stretch of turns that the user begins and the assistant ends. */
  predicate IsExchange(turns: seq<Turn>, a: nat, b: nat) {
    a < b <= |turns| && turns[a].role == User && turns[b - 1].role == Assistant
  }

  /** Trimming leaves the longest such stretch, which has all others in it, or nothing when there is none. */
  lemma {:induction false} TrimIsLongest(turns: seq<Turn>) returns (a: nat, b: nat)
    requires forall i :: 0 <= i < |turns| ==> turns[i].role != Hidden
    ensures a <= b <= |turns| && Trim(turns) == turns[a..b] && (a < b ==> IsExchange(turns, a, b))
    ensures forall c: nat, d: nat :: IsExchange(turns, c, d) ==> a <= c && d <= b
  {
    if turns != [] && turns[0].role != User {
      var c, d := TrimIsLongest(turns[1..]);
      a, b := c + 1, d + 1;
      assert turns[1..][c..d] == turns[a..b];
      forall e: nat, f: nat | IsExchange(turns, e, f) ensures a <= e && f <= b {
        assert e > 0 && IsExchange(turns[1..], e - 1, f - 1);
      }
    } else if turns != [] && turns[|turns| - 1].role != Assistant {
      var n := |turns| - 1;
      a, b := TrimIsLongest(turns[..n]);
      assert turns[..n][a..b] == turns[a..b];
      forall e: nat, f: nat | IsExchange(turns, e, f) ensures a <= e && f <= b {
        assert f <= n && IsExchange(turns[..n], e, f);
      }
    } else {
      a, b := 0, |turns|;
      assert turns[0..|turns|] == turns;
    }
  }

  predicate EndsWith(s: string, end: string) {
    s == end || (s != "" && EndsWith(s[1..], end))
  }

  lemma {:induction false} SumEndsWith(front: string, end: string)
    ensures EndsWith(front + end, end)
  {
    if front == "" {
      assert front + end == end;
    } else {
      assert (front + end)[1..] == front[1..] + end;
      SumEndsWith(front[1..], end);
    }
  }

  /** What was said last is at the end of the last turn. */
  lemma {:induction false} LastMerged(said: seq<Turn>)
    requires said != []
    ensures var turns, last := Rendered(Runs(said)), said[|said| - 1];
            turns != [] && turns[|turns| - 1].role == last.role && EndsWith(turns[|turns| - 1].content, last.content)
  {
    MergedNext(said);
    var before, last := Rendered(Runs(said[..|said| - 1])), said[|said| - 1];
    JoinedEnds(before, last);
  }

  lemma {:induction false} JoinedEnds(turns: seq<Turn>, last: Turn)
    ensures var joined := Joined(turns, last);
            && joined != [] && joined[|joined| - 1].role == last.role
            && EndsWith(joined[|joined| - 1].content, last.content)
  {
    var n := |turns|;
    if n > 0 && turns[n - 1].role == last.role {
      SumEndsWith(turns[n - 1].content + "\n\n", last.content);
    }
  }

  /** The last row that is a speaker's and not the excluded one. */
  predicate IsLastAsked(rows: seq<Row>, exclude: nat, i: nat) {
    && i < |rows| && (rows[i].role == User || rows[i].role == Assistant) && rows[i].id != exclude
    && forall j :: i < j < |rows| ==> (rows[j].role != User && rows[j].role != Assistant) || rows[j].id == exclude
  }

  /** The latest message is never left out: when it is the assistant's and anything is replayed at all, the replayed
      history ends in its text. */
  lemma {:induction false} LatestIsReplayed(rows: seq<Row>, exclude: nat, maxMessages: nat, maxChars: nat,
      kept: seq<Turn>, i: nat)
    requires maxMessages > 0 && IsWindow(Candidates(rows, exclude, maxMessages), kept, maxMessages, maxChars)
    requires kept != [] && IsLastAsked(rows, exclude, i)
    requires rows[i].role == Assistant && Strip(IsPySpace, rows[i].content) != ""
    ensures kept[|kept| - 1].role == Assistant
    ensures EndsWith(kept[|kept| - 1].content, Strip(IsPySpace, rows[i].content))
  {
    CandidatesEnd(rows, exclude, maxMessages, i);
    WindowKeepsEnd(Candidates(rows, exclude, maxMessages), kept, maxMessages, maxChars);
  }

  lemma {:induction false} CandidatesEnd(rows: seq<Row>, exclude: nat, maxMessages: nat, i: nat)
    requires maxMessages > 0 && IsLastAsked(rows, exclude, i) && rows[i].role == Assistant
    requires Strip(IsPySpace, rows[i].content) != ""
    ensures EndsIn(Candidates(rows, exclude, maxMessages), Strip(IsPySpace, rows[i].content))
  {
    RecentEnd(rows, exclude, 4 * maxMessages, i);
    RecentKeepsEnd(rows, exclude, 4 * maxMessages);
  }

  /** Its last turn is the assistant's and ends in the text. */
  predicate EndsIn(turns: seq<Turn>, text: string) {
    turns != [] ==> turns[|turns| - 1].role == Assistant && EndsWith(turns[|turns| - 1].content, text)
  }

  lemma {:induction false} WindowKeepsEnd(turns: seq<Turn>, kept: seq<Turn>, maxMessages: nat, maxChars: nat)
    requires IsWindow(turns, kept, maxMessages, maxChars) && kept != []
    ensures turns != [] && kept[|kept| - 1] == turns[|turns| - 1]
  {
  }

  lemma {:induction false} RecentEnd(rows: seq<Row>, exclude: nat, limit: nat, i: nat)
    requires limit > 0 && IsLastAsked(rows, exclude, i)
    ensures var recent := Latest(Visible(rows, exclude), limit); recent != [] && recent[|recent| - 1] == rows[i]
  {
    assert rows[..|rows|] == rows;
    LastVisible(rows, exclude, i, |rows|);
  }

  lemma {:induction false} RecentKeepsEnd(rows: seq<Row>, exclude: nat, limit: nat)
    requires var recent := Latest(Visible(rows, exclude), limit);
             && recent != [] && recent[|recent| - 1].role == Assistant
             && Strip(IsPySpace, recent[|recent| - 1].content) != ""
    ensures var recent := Latest(Visible(rows, exclude), limit);
            EndsIn(Trim(Rendered(Runs(Spoken(recent)))), Strip(IsPySpace, recent[|recent| - 1].content))
  {
    VisibleIsSpoken(rows, exclude);
    RowsKeepEnd(Latest(Visible(rows, exclude), limit));
  }

  lemma {:induction false} RowsKeepEnd(rows: seq<Row>)
    requires rows != [] && rows[|rows| - 1].role == Assistant && Strip(IsPySpace, rows[|rows| - 1].content) != ""
    requires forall r :: r in rows ==> r.role != Hidden
    ensures EndsIn(Trim(Rendered(Runs(Spoken(rows)))), Strip(IsPySpace, rows[|rows| - 1].content))
  {
    var said := Spoken(rows);
    assert said != [] && said[|said| - 1] == Turn(Assistant, Strip(IsPySpace, rows[|rows| - 1].content));
    assert forall t :: t in said ==> t.role != Hidden && t.content != "" by {
      SpokenSays(rows);
    }
    TrimKeepsEnd(said);
  }

  /** Trimming keeps the end of what the assistant said last. */
  lemma {:induction false} TrimKeepsEnd(said: seq<Turn>)
    requires said != [] && said[|said| - 1].role == Assistant
    requires forall t :: t in said ==> t.role != Hidden && t.content != ""
    ensures EndsIn(Trim(Rendered(Runs(said))), said[|said| - 1].content)
  {
    LastMerged(said);
    RenderedAlternates(said);
    TrimKeepsLast(Rendered(Runs(said)));
  }

  lemma {:induction false} TrimKeepsLast(turns: seq<Turn>)
    requires turns != [] && turns[|turns| - 1].role == Assistant && Alternating(turns)
    ensures Trim(turns) != [] ==> Trim(turns)[|Trim(turns)| - 1] == turns[|turns| - 1]
  {
    var a, b := TrimIsLongest(turns);
    if a < b {
      assert IsExchange(turns, a, |turns|);
    }
  }

  lemma {:induction false} VisibleIsSpoken(rows: seq<Row>, exclude: nat)
    ensures forall r :: r in Visible(rows, exclude) ==> r.role != Hidden
  {
    if rows != [] {
      VisibleIsSpoken(rows[..|rows| - 1], exclude);
    }
  }

  lemma {:induction false} LastVisible(rows: seq<Row>, exclude: nat, i: nat, n: nat)
    requires i < n <= |rows| && IsLastAsked(rows, exclude, i)
    ensures var s := Visible(rows[..n], exclude); s != [] && s[|s| - 1] == rows[i]
  {
    assert rows[..n][..n - 1] == rows[..n - 1];
    if i < n - 1 {
      LastVisible(rows, exclude, i, n - 1);
    }
  }

  method LoadSessionHistory(rows: seq<Row>, exclude: nat, maxMessages: nat, maxChars: nat) returns (kept: seq<Turn>)
    ensures IsWindow(Candidates(rows, exclude, maxMessages), kept, maxMessages, maxChars)
    ensures Replayable(kept)
  {
    var visible := Select(rows, exclude);
    var recent := Latest(visible, 4 * maxMessages);
    var turns := Merge(recent);
    SpokenSays(recent);
    RenderedAlternates(Spoken(recent));
    turns := TrimEnds(turns);
    kept := Window(turns, maxMessages, maxChars);
  }

  /** The query. */
  method Select(rows: seq<Row>, exclude: nat) returns (visible: seq<Row>)
    ensures visible == Visible(rows, exclude)
    ensures forall r :: r in visible ==> r.role != Hidden
  {
    visible := [];
    for i := 0 to |rows|
      invariant visible == Visible(rows[..i], exclude)
      invariant forall r :: r in visible ==> r.role != Hidden
    {
      assert rows[..i + 1][..i] == rows[..i];
      if rows[i].role != Hidden && rows[i].id != exclude {
        visible := visible + [rows[i]];
      }
    }
    assert rows[..|rows|] == rows;
  }

  /** One turn more: behind the last one when it is another speaker's, otherwise as a part of it. */
  function Joined(turns: seq<Turn>, more: Turn): seq<Turn> {
    var n := |turns|;
    if n > 0 && turns[n - 1].role == more.role
    then turns[n - 1 := Turn(more.role, turns[n - 1].content + "\n\n" + more.content)]
    else turns + [more]
  }

  /** The merge loop. */
  method Merge(rows: seq<Row>) returns (turns: seq<Turn>)
    ensures turns == Rendered(Runs(Spoken(rows)))
  {
    turns := [];
    for i := 0 to |rows|
      invariant turns == Rendered(Runs(Spoken(rows[..i])))
    {
      var content := Strip(IsPySpace, rows[i].content);
      SpokenNext(rows, i);
      if content != "" {
        MergeStep(Spoken(rows[..i]), Turn(rows[i].role, content));
        var n := |turns|;
        if n > 0 && turns[n - 1].role == rows[i].role {
          turns := turns[n - 1 := Turn(rows[i].role, turns[n - 1].content + "\n\n" + content)];
        } else {
          turns := turns + [Turn(rows[i].role, content)];
        }
      }
    }
    assert rows[..|rows|] == rows;
  }

  lemma {:induction false} SpokenNext(rows: seq<Row>, i: nat)
    requires i < |rows|
    ensures var content := Strip(IsPySpace, rows[i].content);
            Spoken(rows[..i + 1]) == if content == "" then Spoken(rows[..i])
                                     else Spoken(rows[..i]) + [Turn(rows[i].role, content)]
  {
    assert rows[..i + 1][..i] == rows[..i];
  }

  lemma {:induction false} MergeStep(said: seq<Turn>, last: Turn)
    ensures Rendered(Runs(said + [last])) == Joined(Rendered(Runs(said)), last)
  {
    var runs := Runs(said);
    assert (said + [last])[..|said|] == said;
    assert Runs(said + [last]) == Extend(runs, last);
    RunsNotEmpty(said);
    if runs != [] && runs[|runs| - 1].role == last.role {
      MergeIntoLast(runs, last);
    } else {
      RenderedSnoc(runs, Run(last.role, [last.content]));
      if runs != [] {
        RenderedAt(runs, |runs| - 1);
      }
    }
  }

  lemma {:induction false} MergeIntoLast(runs: seq<Run>, last: Turn)
    requires runs != [] && runs[|runs| - 1].role == last.role && runs[|runs| - 1].parts != []
    ensures Rendered(Extend(runs, last)) == Joined(Rendered(runs), last)
  {
    var n := |runs| - 1;
    var run := Run(last.role, runs[n].parts + [last.content]);
    JoinAppend(runs[n].parts, last.content, "\n\n");
    RenderedSnoc(runs[..n], run);
    var front, was := Rendered(runs[..n]), RenderedRun(runs[n]);
    assert Rendered(runs) == front + [was];
    assert (front + [was])[n := RenderedRun(run)] == front + [RenderedRun(run)];
  }

  lemma {:induction false} RenderedSnoc(runs: seq<Run>, r: Run)
    ensures Rendered(runs + [r]) == Rendered(runs) + [RenderedRun(r)]
  {
    assert (runs + [r])[..|runs|] == runs;
  }

  lemma {:induction false} RunsNotEmpty(said: seq<Turn>)
    ensures forall i :: 0 <= i < |Runs(said)| ==> Runs(said)[i].parts != []
  {
    if said != [] {
      RunsNotEmpty(said[..|said| - 1]);
    }
  }

  method TrimEnds(turns0: seq<Turn>) returns (turns: seq<Turn>)
    requires Alternating(turns0)
    ensures turns == Trim(turns0) && Replayable(turns)
  {
    turns := turns0;
    TrimIsReplayable(turns0);
    while turns != [] && turns[0].role != User
      invariant Trim(turns) == Trim(turns0)
      decreases |turns|
    {
      turns := turns[1..];
    }
    while turns != [] && turns[|turns| - 1].role != Assistant
      invariant turns != [] ==> turns[0].role == User
      invariant Trim(turns) == Trim(turns0)
      decreases |turns|
    {
      turns := turns[..|turns| - 1];
    }
  }

  lemma {:induction false} CharsFrom(turns: seq<Turn>, i: nat, j: nat)
    requires i <= j <= |turns|
    ensures Chars(turns[i..]) >= Chars(turns[j..])
    decreases j - i
  {
    if i < j {
      assert turns[i..][1..] == turns[i + 1..];
      CharsFrom(turns, i + 1, j);
    }
  }

  /** The character budget: the longest suffix from `start` on that fits, or the last turn alone. */
  method Budget(turns: seq<Turn>, start: nat, maxChars: nat) returns (kept: seq<Turn>, ghost j: nat)
    requires start <= |turns|
    ensures start <= j <= |turns| && kept == turns[j..]
    ensures |kept| > 1 ==> Chars(kept) <= maxChars
    ensures forall i :: start <= i < j ==> Chars(turns[i..]) > maxChars || j == |turns|
    ensures start < |turns| ==> j < |turns|
  {
    var total, at := 0, |turns|;
    kept := [];
    while at > start
      invariant start <= at <= |turns|
      invariant kept == turns[at..] && total == Chars(kept)
      invariant |kept| > 1 ==> total <= maxChars
    {
      CharsPrepend(turns, at - 1);
      total := total + |turns[at - 1].content|;
      if kept != [] && total > maxChars {
        break;
      }
      kept := [turns[at - 1]] + kept;
      at := at - 1;
    }
    j := at;
    forall i | start <= i < j ensures Chars(turns[i..]) > maxChars || j == |turns| {
      if j < |turns| {
        CharsFrom(turns, i, j - 1);
        CharsPrepend(turns, j - 1);
      }
    }
  }

  lemma {:induction false} CharsPrepend(turns: seq<Turn>, i: nat)
    requires i < |turns|
    ensures turns[i..] == [turns[i]] + turns[i + 1..]
    ensures Chars(turns[i..]) == |turns[i].content| + Chars(turns[i + 1..])
  {
  }

  /** The two budgets and the last trim, on turns that start with the user and end with the
      assistant. Keeping at least one turn never lets an over-long turn through: that turn is the
      assistant's, and the last loop removes it. */
  method Window(turns: seq<Turn>, maxMessages: nat, maxChars: nat) returns (kept: seq<Turn>)
    requires Replayable(turns) && (maxMessages == 0 ==> turns == [])
    ensures IsWindow(turns, kept, maxMessages, maxChars)
    ensures Replayable(kept)
  {
    var n := |turns|;
    var start := if n > maxMessages then n - maxMessages else 0;
    ghost var j;
    kept, j := Budget(turns, start, maxChars);
    ghost var k := j;
    while kept != [] && kept[0].role != User
      invariant j <= k <= n && kept == turns[k..]
      invariant forall i :: j <= i < k ==> turns[i].role != User
      decreases |kept|
    {
      kept := kept[1..];
      k := k + 1;
    }
    WindowFits(turns, start, j, k, maxMessages, maxChars);
  }

  lemma {:induction false} WindowFits(turns: seq<Turn>, start: nat, j: nat, k: nat, maxMessages: nat, maxChars: nat)
    requires Replayable(turns) && start <= j <= k <= |turns|
    requires start == if |turns| > maxMessages then |turns| - maxMessages else 0
    requires |turns| - j > 1 ==> Chars(turns[j..]) <= maxChars
    requires forall i :: start <= i < j ==> Chars(turns[i..]) > maxChars || j == |turns|
    requires start < |turns| ==> j < |turns|
    requires forall i :: j <= i < k ==> turns[i].role != User
    requires k < |turns| ==> turns[k].role == User
    ensures IsWindow(turns, turns[k..], maxMessages, maxChars)
    ensures Replayable(turns[k..])
  {
    CharsFrom(turns, j, k);
    assert Fits(turns, k, maxMessages, maxChars);
    forall i | 0 <= i < k ensures !Fits(turns, i, maxMessages, maxChars) {
      assert i < start ==> |turns| - i > maxMessages;
      assert start <= i < j ==> Chars(turns[i..]) > maxChars;
      assert j <= i ==> turns[i].role != User;
    }
  }
}
