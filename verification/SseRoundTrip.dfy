/** Printing a list of messages as a server does and reading it back, whatever the cut. */
module SseRoundTrip {
  import opened Text
  import opened Positions
  import opened SseFramer

  /** A line on the wire: the event's name, a line of its data, or anything else, such as an `id` or a comment. */
  datatype Line = EventLine(name: string) | DataLine(value: string) | OtherLine(text: string)

  /** A block of lines in any order, with either line end. */
  datatype Message = Message(lines: seq<Line>, crlf: bool)

  predicate Printable(value: string) {
    '\n' !in value && Trimmed(IsJsSpace, value)
  }

  predicate IsPrintable(line: Line) {
    match line
    case EventLine(name) => Printable(name)
    case DataLine(value) => Printable(value)
    case OtherLine(text) => Solid(text) && !("event:" <= text) && !("data:" <= text)
  }

  ghost predicate WellFormed(m: Message) {
    m.lines != [] && forall i :: 0 <= i < |m.lines| ==> IsPrintable(m.lines[i])
  }

  function Eol(m: Message): string {
    if m.crlf then "\r\n" else "\n"
  }

  function PrintLine(line: Line): string {
    match line
    case EventLine(name) => "event: " + name
    case DataLine(value) => "data: " + value
    case OtherLine(text) => text
  }

  function PrintLines(lines: seq<Line>): (r: seq<string>)
    ensures |r| == |lines|
  {
    if lines == [] then [] else [PrintLine(lines[0])] + PrintLines(lines[1..])
  }

  function Print(m: Message): string {
    Join(PrintLines(m.lines), Eol(m)) + Eol(m) + Eol(m)
  }

  function PrintAll(ms: seq<Message>): string {
    if ms == [] then "" else Print(ms[0]) + PrintAll(ms[1..])
  }

  /** The data of the data lines, in order. */
  function Values(lines: seq<Line>): seq<string> {
    if lines == [] then []
    else (if lines[0].DataLine? then [lines[0].value] else []) + Values(lines[1..])
  }

  /** The name in the last event line, or `name` when there is none. */
  function NameIn(lines: seq<Line>, name: string): string {
    if lines == [] then name
    else NameIn(lines[1..], if lines[0].EventLine? then lines[0].name else name)
  }

  /** What a message means: an event, unless it has no data. */
  function Meant(m: Message): seq<Event> {
    if Values(m.lines) == [] then [] else [Event(NameIn(m.lines, "message"), Join(Values(m.lines), "\n"))]
  }

  function Sent(ms: seq<Message>): seq<Event> {
    if ms == [] then [] else Meant(ms[0]) + Sent(ms[1..])
  }

  // ---- lines that cannot be mistaken for, or swallow, a line end ----

  predicate Solid(line: string) {
    line != "" && '\n' !in line && line[|line| - 1] != '\r'
  }

  predicate IsEol(eol: string) {
    eol == "\n" || eol == "\r\n"
  }

  lemma {:induction false} SolidStart(line: string, x: string)
    requires Solid(line)
    ensures LineEnd(line + x) == 0 && Separator(line + x) == 0
  {
  }

  lemma {:induction false} BeforeTwice(a: string, b: string, blocks: Blocks)
    ensures Before(a, Before(b, blocks)) == Before(a + b, blocks)
  {
    if blocks.done == [] {
      assert a + (b + blocks.tail) == a + b + blocks.tail;
    } else {
      assert a + (b + blocks.done[0]) == a + b + blocks.done[0];
    }
  }

  lemma {:induction false} SplitBehindLine(line: string, x: string)
    requires Solid(line)
    ensures SplitBlocks(line + x) == Before(line, SplitBlocks(x))
  {
    SolidStart(line, x);
    if |line| == 1 {
      assert (line + x)[1..] == x && [line[0]] == line;
    } else {
      assert (line + x)[1..] == line[1..] + x && [line[0]] + line[1..] == line;
      SplitBehindLine(line[1..], x);
      BeforeTwice([line[0]], line[1..], SplitBlocks(x));
    }
  }

  lemma {:induction false} LinesBehindLine(line: string, x: string)
    requires Solid(line)
    ensures Lines(line + x) == [line + Lines(x)[0]] + Lines(x)[1..]
  {
    SolidStart(line, x);
    if |line| == 1 {
      assert (line + x)[1..] == x && [line[0]] == line;
    } else {
      assert (line + x)[1..] == line[1..] + x && [line[0]] + line[1..] == line;
      LinesBehindLine(line[1..], x);
      assert [line[0]] + (line[1..] + Lines(x)[0]) == line + Lines(x)[0];
    }
  }

  lemma {:induction false} SplitBehindEol(eol: string, x: string)
    requires IsEol(eol) && LineEnd(x) == 0
    ensures SplitBlocks(eol + x) == Before(eol, SplitBlocks(x))
  {
    assert (eol + x)[|eol|..] == x;
    assert ("\n" + x)[1..] == x;
    if eol == "\r\n" {
      assert (eol + x)[1..] == "\n" + x;
      assert ("\r" + "\n") == eol;
      BeforeTwice("\r", "\n", SplitBlocks(x));
    }
  }

  lemma {:induction false} SplitAtBlankLine(eol: string, x: string)
    requires IsEol(eol)
    ensures SplitBlocks(eol + eol + x) == Blocks([""] + SplitBlocks(x).done, SplitBlocks(x).tail)
  {
    var s := eol + eol + x;
    assert LineEnd(s) == |eol|;
    assert s[|eol|..] == eol + x && LineEnd(eol + x) == |eol|;
    assert s[Separator(s)..] == x;
  }

  lemma {:induction false} SplitBehindTerminatedLine(line: string, eol: string, x: string)
    requires Solid(line) && IsEol(eol) && LineEnd(x) == 0
    ensures SplitBlocks(line + eol + x) == Before(line + eol, SplitBlocks(x))
  {
    assert line + eol + x == line + (eol + x);
    SplitBehindLine(line, eol + x);
    SplitBehindEol(eol, x);
    BeforeTwice(line, eol, SplitBlocks(x));
  }

  /** A block of solid lines is split off whole. */
  lemma {:induction false} SplitBlock(lines: seq<string>, eol: string, x: string)
    requires lines != [] && IsEol(eol) && forall l :: l in lines ==> Solid(l)
    ensures SplitBlocks(Join(lines, eol) + (eol + eol + x))
         == Blocks([Join(lines, eol)] + SplitBlocks(x).done, SplitBlocks(x).tail)
  {
    var line := lines[0];
    var behind := eol + eol + x;
    if |lines| == 1 {
      SplitBehindLine(line, behind);
      SplitAtBlankLine(eol, x);
      assert line + "" == line;
    } else {
      var rest := Join(lines[1..], eol);
      SplitBlock(lines[1..], eol, x);
      JoinStartsSolid(lines[1..], eol, behind);
      SplitBehindTerminatedLine(line, eol, rest + behind);
      assert line + eol + (rest + behind) == line + eol + rest + behind;
    }
  }

  lemma {:induction false} JoinStartsSolid(lines: seq<string>, eol: string, x: string)
    requires lines != [] && Solid(lines[0])
    ensures LineEnd(Join(lines, eol) + x) == 0
  {
  }

  /** Splitting a block into lines undoes joining them. */
  lemma {:induction false} LinesOfJoin(lines: seq<string>, eol: string)
    requires lines != [] && IsEol(eol) && forall l :: l in lines ==> Solid(l)
    ensures Lines(Join(lines, eol)) == lines
  {
    var line := lines[0];
    if |lines| == 1 {
      assert line + "" == line;
      LinesBehindLine(line, "");
    } else {
      var rest := Join(lines[1..], eol);
      LinesOfJoin(lines[1..], eol);
      LinesBehindTerminatedLine(line, eol, rest);
      assert [line] + lines[1..] == lines;
    }
  }

  lemma {:induction false} LinesBehindTerminatedLine(line: string, eol: string, x: string)
    requires Solid(line) && IsEol(eol)
    ensures Lines(line + eol + x) == [line] + Lines(x)
  {
    assert line + eol + x == line + (eol + x);
    LinesBehindLine(line, eol + x);
    assert LineEnd(eol + x) == |eol| && (eol + x)[|eol|..] == x;
    assert Lines(eol + x) == [""] + Lines(x);
    assert line + "" == line;
  }

  // ---- the fields come back ----

  lemma {:induction false} StripSpaced(value: string)
    requires Trimmed(IsJsSpace, value)
    ensures Strip(IsJsSpace, " " + value) == value
  {
  }

  lemma {:induction false} SolidField(field: string, value: string)
    requires field == "event: " || field == "data: "
    requires Printable(value)
    ensures Solid(field + value)
  {
  }

  lemma {:induction false} ReadPrintedLine(f: Fields, line: Line)
    requires IsPrintable(line)
    ensures Solid(PrintLine(line))
    ensures ReadLine(f, PrintLine(line)) ==
            match line
            case EventLine(name) => Fields(name, f.data)
            case DataLine(value) => Fields(f.name, f.data + [value])
            case OtherLine(_) => f
  {
    match line
    case EventLine(name) =>
      SolidField("event: ", name);
      StripSpaced(name);
      assert PrintLine(line)[6..] == " " + name;
    case DataLine(value) =>
      SolidField("data: ", value);
      StripSpaced(value);
      assert PrintLine(line)[5..] == " " + value && PrintLine(line)[0] == 'd';
    case OtherLine(_) =>
  }

  lemma {:induction false} ReadPrintedLines(f: Fields, lines: seq<Line>)
    requires forall i :: 0 <= i < |lines| ==> IsPrintable(lines[i])
    ensures ReadLines(f, PrintLines(lines)) == Fields(NameIn(lines, f.name), f.data + Values(lines))
    decreases |lines|
  {
    if lines == [] {
      assert f.data + [] == f.data;
    } else {
      var line, rest := lines[0], lines[1..];
      var next := ReadLine(f, PrintLine(line));
      ReadPrintedLine(f, line);
      assert PrintLines(lines) == [PrintLine(line)] + PrintLines(rest);
      assert ReadLines(f, PrintLines(lines)) == ReadLines(next, PrintLines(rest));
      assert next.data + Values(rest) == f.data + Values(lines) by {
        var own := if line.DataLine? then [line.value] else [];
        assert next.data == f.data + own && Values(lines) == own + Values(rest);
        SumIsAssociative(f.data, own, Values(rest));
      }
      ReadPrintedLines(next, rest);
    }
  }

  lemma {:induction false} PrintsSolid(lines: seq<Line>)
    requires forall i :: 0 <= i < |lines| ==> IsPrintable(lines[i])
    ensures forall l :: l in PrintLines(lines) ==> Solid(l)
  {
    if lines != [] {
      ReadPrintedLine(FRESH, lines[0]);
      PrintsSolid(lines[1..]);
    }
  }

  /** Printing well-formed messages and reading the stream gives them back, however the stream is
      cut and whatever unfinished text follows. */
  lemma {:induction false} ReadingUndoesPrinting(ms: seq<Message>, unfinished: string)
    requires forall m :: m in ms ==> WellFormed(m)
    requires SplitBlocks(unfinished).done == []
    ensures EmittedAll(SplitBlocks(PrintAll(ms) + unfinished).done) == Sent(ms)
  {
    if ms == [] {
      assert "" + unfinished == unfinished;
    } else {
      ReadingUndoesPrinting(ms[1..], unfinished);
      var first, later := Print(ms[0]), PrintAll(ms[1..]);
      ReadOneMessage(ms[0], later + unfinished);
      SumIsAssociative(first, later, unfinished);
    }
  }

  lemma {:induction false} ReadOneMessage(m: Message, x: string)
    requires WellFormed(m)
    ensures EmittedAll(SplitBlocks(Print(m) + x).done) == Meant(m) + EmittedAll(SplitBlocks(x).done)
  {
    var lines, eol := PrintLines(m.lines), Eol(m);
    var body := Join(lines, eol);
    ReadPrintedLines(FRESH, m.lines);
    PrintsSolid(m.lines);
    assert [] + Values(m.lines) == Values(m.lines);
    LinesOfJoin(lines, eol);
    assert Emitted(body) == Meant(m);
    SplitBlock(lines, eol, x);
    assert body + eol + eol + x == body + (eol + eol + x);
    assert ([body] + SplitBlocks(x).done)[1..] == SplitBlocks(x).done;
  }

  /** The read loop itself, over any cut of a printed stream. */
  method ReadPrinted(ms: seq<Message>, unfinished: string, pieces: seq<string>) returns (events: seq<Event>)
    requires forall m :: m in ms ==> WellFormed(m)
    requires SplitBlocks(unfinished).done == [] && Concat(pieces) == PrintAll(ms) + unfinished
    ensures events == Sent(ms)
  {
    events := ApiStreamPost(pieces);
    ReadingUndoesPrinting(ms, unfinished);
  }

  // ---- any block, line by line ----

  /** `data` are those there were and, behind them, the trimmed values of the lines from `i` on that start with
      `data:`, in their order; `at` are these lines. */
  ghost predicate DataPicked(had: seq<string>, lines: seq<string>, i: nat, data: seq<string>, at: seq<nat>) {
    && Rising(at, i, |lines|)
    && (forall j {:trigger j in at} :: i <= j < |lines| ==> (j in at <==> "data:" <= lines[j]))
    && |data| == |had| + |at| && data[..|had|] == had
    && forall k :: 0 <= k < |at| ==>
         |lines[at[k]]| >= 5 && data[|had| + k] == Strip(IsJsSpace, lines[at[k]][5..])
  }

  lemma {:induction false} DataAt(f: Fields, lines: seq<string>, i: nat) returns (at: seq<nat>)
    requires i <= |lines|
    ensures DataPicked(f.data, lines, i, ReadLines(f, lines[i..]).data, at)
    decreases |lines| - i
  {
    at := [];
    if i < |lines| {
      var next := ReadLine(f, lines[i]);
      at := DataAt(next, lines, i + 1);
      assert lines[i..][1..] == lines[i + 1..];
      if "data:" <= lines[i] {
        assert lines[i][0] == 'd';
        at := DataAhead(f.data, lines, i, ReadLines(f, lines[i..]).data, at);
      }
    }
  }

  lemma {:induction false} DataAhead(had: seq<string>, lines: seq<string>, i: nat, data: seq<string>, at: seq<nat>)
    returns (more: seq<nat>)
    requires i < |lines| && "data:" <= lines[i]
    requires DataPicked(had + [Strip(IsJsSpace, lines[i][5..])], lines, i + 1, data, at)
    ensures DataPicked(had, lines, i, data, more)
  {
    more := [i] + at;
    var own := Strip(IsJsSpace, lines[i][5..]);
    assert data[..|had|] == (had + [own])[..|had|] == had;
    assert data[|had|] == (had + [own])[|had|] == own;
    PicksCons(lines, i, seq(|at|, k requires 0 <= k < |at| => lines[at[k]]), at);
    forall k | 0 <= k < |more|
      ensures |lines[more[k]]| >= 5 && data[|had| + k] == Strip(IsJsSpace, lines[more[k]][5..])
    {
      if k > 0 {
        assert more[k] == at[k - 1];
        assert data[|had| + 1 + (k - 1)] == Strip(IsJsSpace, lines[at[k - 1]][5..]);
      }
    }
  }

  /** `name` is that of the last line from `i` on that starts with `event:`, or the one there was. */
  ghost predicate NamedBy(had: string, lines: seq<string>, i: nat, name: string, last: nat) {
    && (forall j :: i <= j < |lines| && (last == |lines| || j > last) ==> !("event:" <= lines[j]))
    && if last >= |lines| then name == had
       else "event:" <= lines[last] && name == Strip(IsJsSpace, lines[last][6..])
  }

  lemma {:induction false} NameAt(f: Fields, lines: seq<string>, i: nat) returns (last: nat)
    requires i <= |lines|
    ensures i <= last <= |lines| && NamedBy(f.name, lines, i, ReadLines(f, lines[i..]).name, last)
    decreases |lines| - i
  {
    last := |lines|;
    if i < |lines| {
      assert lines[i..][1..] == lines[i + 1..];
      last := NameAt(ReadLine(f, lines[i]), lines, i + 1);
      if last == |lines| && "event:" <= lines[i] {
        last := i;
      }
    }
  }

  /** A block of solid lines, whatever they are: it emits an event exactly when some line starts with `data:`; the
      event's data are what these lines say, in order, and its name is that of the last line that starts with
      `event:`, or "message". */
  lemma {:induction false} BlockMeans(lines: seq<string>, eol: string)
    returns (data: seq<string>, at: seq<nat>, name: string, last: nat)
    requires lines != [] && IsEol(eol) && forall l :: l in lines ==> Solid(l)
    ensures DataPicked([], lines, 0, data, at)
    ensures last <= |lines| && NamedBy("message", lines, 0, name, last)
    ensures Emitted(Join(lines, eol)) == if at == [] then [] else [Event(name, Join(data, "\n"))]
  {
    LinesOfJoin(lines, eol);
    assert lines[0..] == lines;
    at := DataAt(FRESH, lines, 0);
    last := NameAt(FRESH, lines, 0);
    data, name := ReadLines(FRESH, lines).data, ReadLines(FRESH, lines).name;
  }

  /** As the server sends it: an event with an identifier. */
  lemma {:induction false} ServerEvent()
    ensures Emitted(Join(["id: 7", "event: done", "data: {}"], "\n")) == [Event("done", "{}")]
  {
    ReadServerLines(["id: 7", "event: done", "data: {}"]);
    LinesOfJoin(["id: 7", "event: done", "data: {}"], "\n");
  }

  /** A block emits an event exactly when some line starts with `data:`; comments and identifiers, such as the
      server's keep-alive, emit nothing. */
  lemma {:induction false} EmitsIff(lines: seq<string>, eol: string)
    requires lines != [] && IsEol(eol) && forall l :: l in lines ==> Solid(l)
    ensures Emitted(Join(lines, eol)) != [] <==> exists l :: l in lines && "data:" <= l
  {
    var data, at, name, last := BlockMeans(lines, eol);
    assert at != [] ==> at[0] in at && lines[at[0]] in lines;
    forall l | l in lines && "data:" <= l ensures at != [] {
      var j :| 0 <= j < |lines| && lines[j] == l;
      assert j in at;
    }
  }

  lemma {:induction false} ReadServerLines(lines: seq<string>)
    requires lines == ["id: 7", "event: done", "data: {}"]
    ensures forall l :: l in lines ==> Solid(l)
    ensures ReadLines(FRESH, lines) == Fields("done", ["{}"]) && Join(["{}"], "\n") == "{}"
  {
    ReadPrintedLine(FRESH, OtherLine("id: 7"));
    ReadEventLine();
    ReadDataLine();
    ReadThree(FRESH, lines);
  }

  lemma {:induction false} ReadEventLine()
    ensures Solid("event: done") && ReadLine(FRESH, "event: done") == Fields("done", [])
  {
    ReadPrintedLine(FRESH, EventLine("done"));
    assert "event: " + "done" == "event: done";
  }

  lemma {:induction false} ReadDataLine()
    ensures Solid("data: {}") && ReadLine(Fields("done", []), "data: {}") == Fields("done", ["{}"])
  {
    ReadPrintedLine(Fields("done", []), DataLine("{}"));
    assert "data: " + "{}" == "data: {}";
    assert [] + ["{}"] == ["{}"];
  }

  lemma {:induction false} ReadThree(f: Fields, lines: seq<string>)
    requires |lines| == 3
    ensures ReadLines(f, lines) == ReadLine(ReadLine(ReadLine(f, lines[0]), lines[1]), lines[2])
  {
    var one := ReadLine(f, lines[0]);
    var two := ReadLine(one, lines[1]);
    assert ReadLines(one, lines[1..]) == ReadLines(two, lines[2..]) by {
      assert lines[1..][0] == lines[1] && lines[1..][1..] == lines[2..];
    }
    assert ReadLines(two, lines[2..]) == ReadLine(two, lines[2]) by {
      assert lines[2..][0] == lines[2] && lines[2..][1..] == [];
    }
  }
}
