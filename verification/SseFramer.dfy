/** The Word add-in's reader of a server-sent event stream: it buffers what has arrived, splits
    off every block that ends in a blank line and keeps the unfinished tail. It pieces the
    `event` and `data` fields of sections 9.2.5 and 9.2.6 of the WHATWG HTML Living Standard. */
module SseFramer {
  import opened Text

  /** What the caller's `onEvent` receives. `data` is the text handed to the JSON parser. */
  datatype Event = Event(name: string, data: string)

  /** Complete blocks, and the text behind the last blank line. */
  datatype Blocks = Blocks(done: seq<string>, tail: string)

  /** Length of the line end (`\r?\n`) at the start of `s`, or 0. */
  function LineEnd(s: string): (n: nat)
    ensures n <= |s|
  {
    if s != "" && s[0] == '\n' then 1
    else if |s| > 1 && s[0] == '\r' && s[1] == '\n' then 2
    else 0
  }

  /** Length of the blank-line separator (`\r?\n\r?\n`) at the start of `s`, or 0. */
  function Separator(s: string): (n: nat)
    ensures n <= |s|
  {
    var first := LineEnd(s);
    var second := LineEnd(s[first..]);
    if first > 0 && second > 0 then first + second else 0
  }

  /** `text` belongs to the first block, or to the tail when no block is complete. */
  function Before(text: string, b: Blocks): Blocks {
    if b.done == [] then Blocks([], text + b.tail)
    else Blocks([text + b.done[0]] + b.done[1..], b.tail)
  }

  /** Splitting at every blank line, leftmost first. */
  function SplitBlocks(s: string): Blocks {
    if s == "" then Blocks([], "")
    else
      var n := Separator(s);
      if n > 0 then
        var rest := SplitBlocks(s[n..]);
        Blocks([""] + rest.done, rest.tail)
      else Before([s[0]], SplitBlocks(s[1..]))
  }

  /** Splitting at every line end (`\r?\n`). */
  function Lines(s: string): (lines: seq<string>)
    ensures lines != []
  {
    if s == "" then [""]
    else if LineEnd(s) > 0 then [""] + Lines(s[LineEnd(s)..])
    else
      var rest := Lines(s[1..]);
      [[s[0]] + rest[0]] + rest[1..]
  }

  /** The fields of a block after some of its lines: the event name and the data lines. */
  datatype Fields = Fields(name: string, data: seq<string>)

  function ReadLine(f: Fields, line: string): Fields {
    if "event:" <= line then f.(name := Strip(IsJsSpace, line[6..]))
    else if "data:" <= line then f.(data := f.data + [Strip(IsJsSpace, line[5..])])
    else f
  }

  function ReadLines(f: Fields, lines: seq<string>): Fields
    decreases |lines|
  {
    if lines == [] then f else ReadLines(ReadLine(f, lines[0]), lines[1..])
  }

  const FRESH := Fields("message", [])

  /** A block without data lines emits nothing. */
  function Emitted(block: string): seq<Event> {
    var f := ReadLines(FRESH, Lines(block));
    if f.data == [] then [] else [Event(f.name, Join(f.data, "\n"))]
  }

  function EmittedAll(blocks: seq<string>): seq<Event> {
    if blocks == [] then [] else Emitted(blocks[0]) + EmittedAll(blocks[1..])
  }

  function Concat(pieces: seq<string>): string {
    if pieces == [] then "" else pieces[0] + Concat(pieces[1..])
  }

  // ---- the read loop ----

  method ApiStreamPost(pieces: seq<string>) returns (events: seq<Event>)
    ensures events == EmittedAll(SplitBlocks(Concat(pieces)).done)
  {
    events := [];
    var buffer := "";
    ghost var seen := "";
    for r := 0 to |pieces|
      invariant buffer == SplitBlocks(seen).tail
      invariant events == EmittedAll(SplitBlocks(seen).done)
      invariant seen == Concat(pieces[..r])
    {
      SplitAfterRead(seen, pieces[r]);
      buffer := buffer + pieces[r];
      var chunks := SplitBlocks(buffer);
      buffer := chunks.tail;
      var more := EmitBlocks(chunks.done);
      EmittedAllAppend(SplitBlocks(seen).done, chunks.done);
      events := events + more;
      ConcatAppend(pieces, r);
      seen := seen + pieces[r];
    }
    assert pieces[..|pieces|] == pieces;
  }

  lemma {:induction false} ConcatAppend(pieces: seq<string>, r: nat)
    requires r < |pieces|
    ensures Concat(pieces[..r + 1]) == Concat(pieces[..r]) + pieces[r]
  {
    if r == 0 {
      assert pieces[..1] == [pieces[0]] && pieces[..0] == [];
      assert Concat([pieces[0]]) == pieces[0] + Concat([]);
    } else {
      assert pieces[..r + 1][1..] == pieces[1..][..r] && pieces[..r][1..] == pieces[1..][..r - 1];
      ConcatAppend(pieces[1..], r - 1);
    }
  }

  /** The loop over the complete blocks of one read. */
  method EmitBlocks(chunks: seq<string>) returns (events: seq<Event>)
    ensures events == EmittedAll(chunks)
  {
    events := [];
    for c := 0 to |chunks|
      invariant events == EmittedAll(chunks[..c])
    {
      var fields := ReadBlock(chunks[c]);
      EmittedAllNext(chunks, c);
      if fields.data != [] {
        events := events + [Event(fields.name, Join(fields.data, "\n"))];
      }
    }
    assert chunks[..|chunks|] == chunks;
  }

  lemma {:induction false} EmittedAllNext(chunks: seq<string>, c: nat)
    requires c < |chunks|
    ensures EmittedAll(chunks[..c + 1]) == EmittedAll(chunks[..c]) + Emitted(chunks[c])
  {
    var next := [chunks[c]];
    assert chunks[..c + 1] == chunks[..c] + next;
    assert EmittedAll(next) == Emitted(chunks[c]) + EmittedAll([]);
    EmittedAllAppend(chunks[..c], next);
  }

  /** The line loop of one block. */
  method ReadBlock(chunk: string) returns (f: Fields)
    ensures f == ReadLines(FRESH, Lines(chunk))
  {
    var lines := Lines(chunk);
    var eventName, dataLines := "message", [];
    for i := 0 to |lines|
      invariant ReadLines(Fields(eventName, dataLines), lines[i..]) == ReadLines(FRESH, lines)
    {
      var line := lines[i];
      if "event:" <= line {
        eventName := Strip(IsJsSpace, line[6..]);
      } else if "data:" <= line {
        dataLines := dataLines + [Strip(IsJsSpace, line[5..])];
      }
      assert lines[i..][1..] == lines[i + 1..];
    }
    f := Fields(eventName, dataLines);
  }

  lemma {:induction false} EmittedAllAppend(a: seq<string>, b: seq<string>)
    ensures EmittedAll(a + b) == EmittedAll(a) + EmittedAll(b)
  {
    if a == [] {
      assert a + b == b;
    } else {
      HeadOfSum(a, b);
      EmittedAllAppend(a[1..], b);
      SumIsAssociative(Emitted(a[0]), EmittedAll(a[1..]), EmittedAll(b));
    }
  }

  // ---- splitting does not depend on how the text is cut ----

  /** Text without a complete block is all tail. */
  lemma {:induction false} NoBlocksAllTail(s: string)
    ensures SplitBlocks(s).done == [] ==> SplitBlocks(s).tail == s
  {
    if s != "" && Separator(s) == 0 {
      NoBlocksAllTail(s[1..]);
    }
  }

  lemma {:induction false} NoNewlineNoBlock(s: string)
    requires '\n' !in s
    ensures SplitBlocks(s) == Blocks([], s)
  {
    if s != "" {
      NoNewlineNoBlock(s[1..]);
    }
  }

  lemma {:induction false} LineEndExtends(a: string, b: string)
    ensures LineEnd(a) > 0 ==> LineEnd(a + b) == LineEnd(a)
    ensures LineEnd(a) == 0 && LineEnd(a + b) > 0 ==> '\n' !in a && |a| <= 1
  {
  }

  lemma {:induction false} SeparatorExtends(a: string, b: string)
    requires Separator(a) > 0
    ensures Separator(a + b) == Separator(a)
  {
  }

  /** A separator that is only complete once more text arrives has kept everything buffered. */
  lemma {:induction false} UnfinishedSeparator(a: string, b: string)
    requires a != "" && Separator(a) == 0 && Separator(a + b) > 0
    ensures SplitBlocks(a) == Blocks([], a)
  {
    var n := LineEnd(a);
    LineEndExtends(a, b);
    if n == 0 {
      NoNewlineNoBlock(a);
    } else {
      assert (a + b)[n..] == a[n..] + b;
      LineEndExtends(a[n..], b);
      NoNewlineNoBlock(a[n..]);
      if n == 2 {
        assert a[1..][1..] == a[2..];
        assert LineEnd(a[1..]) == 1 && Separator(a[1..]) == 0;
        assert SplitBlocks(a[1..]) == Blocks([], a[1..]);
      }
    }
  }

  /** What the read loop makes of `b` when it holds the blocks `first`. */
  function AfterRead(first: Blocks, b: string): Blocks {
    var second := SplitBlocks(first.tail + b);
    Blocks(first.done + second.done, second.tail)
  }

  lemma {:induction false} BeforeAfterRead(text: string, first: Blocks, b: string)
    requires first.done != []
    ensures AfterRead(Before(text, first), b) == Before(text, AfterRead(first, b))
  {
    HeadOfSum(first.done, SplitBlocks(first.tail + b).done);
    SumIsAssociative([text + first.done[0]], first.done[1..], SplitBlocks(first.tail + b).done);
  }

  lemma {:induction false} HeadOfSum(a: seq<string>, b: seq<string>)
    requires a != []
    ensures a + b != [] && (a + b)[0] == a[0] && (a + b)[1..] == a[1..] + b
  {
  }

  /** Splitting `a`, then splitting what it left in the buffer with `b` behind it, is
      splitting `a + b`. */
  lemma {:induction false} SplitAfterRead(a: string, b: string)
    ensures SplitBlocks(a + b) == AfterRead(SplitBlocks(a), b)
  {
    if a == "" {
      assert a + b == b;
    } else if Separator(a) > 0 {
      var n := Separator(a);
      SeparatorExtends(a, b);
      assert (a + b)[n..] == a[n..] + b;
      SplitAfterRead(a[n..], b);
      var rest := SplitBlocks(a[n..]);
      SumIsAssociative([""], rest.done, SplitBlocks(rest.tail + b).done);
    } else if Separator(a + b) > 0 {
      UnfinishedSeparator(a, b);
    } else if SplitBlocks(a[1..]).done == [] {
      NoBlocksAllTail(a);
      NoBlocksAllTail(a[1..]);
    } else {
      assert (a + b)[1..] == a[1..] + b;
      SplitAfterRead(a[1..], b);
      BeforeAfterRead([a[0]], SplitBlocks(a[1..]), b);
    }
  }
}
