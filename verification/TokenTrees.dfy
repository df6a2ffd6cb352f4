/** Scanning undoes printing: for every well-formed nested token tree, the scanner run over the
    printed text gives each character the mark that its place in the tree calls for. */
module TokenTrees {
  import opened Lexer

  /** A list of tokens. Template literals hold token lists in their `${...}` holes. */
  datatype Tokens =
    | Done
    | Plain(c: char, rest: Tokens)
    | Braces(body: Tokens, rest: Tokens)
    | Parens(body: Tokens, rest: Tokens)
    | Quoted(double: bool, literal: Literal, rest: Tokens)
    | LineNote(note: string, rest: Tokens)
    | BlockNote(note: string, rest: Tokens)
    | Templated(parts: Parts, rest: Tokens)

  datatype Literal = Closed | Raw(c: char, more: Literal) | Escaped(c: char, more: Literal)

  datatype Parts =
    | End
    | RawPart(c: char, more: Parts)
    | EscapedPart(c: char, more: Parts)
    | Hole(body: Tokens, more: Parts)

  function Quote(double: bool): char {
    if double then '"' else '\''
  }

  // ---- well-formed trees ----

  predicate NoClose(note: string) {
    forall i :: 0 <= i < |note| - 1 ==> !(note[i] == '*' && note[i + 1] == '/')
  }

  /** The text of a block comment: it does not contain its own terminator and does not start
      with a slash (see `BlockStaysOpenIff`). */
  predicate BlockText(note: string) {
    NoClose(note) && (note == "" || note[0] != '/')
  }

  predicate WellFormed(t: Tokens) {
    match t
    case Done => true
    case Plain(c, rest) =>
      && c !in {'"', '\'', '`', '{', '}', '(', ')'}
      && (c == '/' && Print(rest) != "" ==> Print(rest)[0] !in {'/', '*'})
      && WellFormed(rest)
    case Braces(body, rest) => WellFormed(body) && WellFormed(rest)
    case Parens(body, rest) => WellFormed(body) && WellFormed(rest)
    case Quoted(double, literal, rest) => WellFormedLiteral(literal, Quote(double)) && WellFormed(rest)
    case LineNote(note, rest) => '\n' !in note && WellFormed(rest)
    case BlockNote(note, rest) => BlockText(note) && WellFormed(rest)
    case Templated(parts, rest) => WellFormedParts(parts) && WellFormed(rest)
  }

  predicate WellFormedLiteral(l: Literal, quote: char) {
    match l
    case Closed => true
    case Raw(c, more) => c != quote && c != '\\' && WellFormedLiteral(more, quote)
    case Escaped(_, more) => WellFormedLiteral(more, quote)
  }

  predicate WellFormedParts(p: Parts) {
    match p
    case End => true
    case RawPart(c, more) =>
      && c != '`' && c != '\\' && !(c == '$' && more.RawPart? && more.c == '{')
      && WellFormedParts(more)
    case EscapedPart(_, more) => WellFormedParts(more)
    case Hole(body, more) => WellFormed(body) && WellFormedParts(more)
  }

  // ---- printing, and the marks a tree calls for ----

  function Print(t: Tokens): string {
    match t
    case Done => ""
    case Plain(c, rest) => [c] + Print(rest)
    case Braces(body, rest) => "{" + Print(body) + "}" + Print(rest)
    case Parens(body, rest) => "(" + Print(body) + ")" + Print(rest)
    case Quoted(double, literal, rest) => [Quote(double)] + PrintLiteral(literal, Quote(double)) + Print(rest)
    case LineNote(note, rest) => "//" + note + "\n" + Print(rest)
    case BlockNote(note, rest) => "/*" + note + "*/" + Print(rest)
    case Templated(parts, rest) => "`" + PrintParts(parts) + Print(rest)
  }

  function PrintLiteral(l: Literal, quote: char): string {
    match l
    case Closed => [quote]
    case Raw(c, more) => [c] + PrintLiteral(more, quote)
    case Escaped(c, more) => ['\\', c] + PrintLiteral(more, quote)
  }

  function PrintParts(p: Parts): string {
    match p
    case End => "`"
    case RawPart(c, more) => [c] + PrintParts(more)
    case EscapedPart(c, more) => ['\\', c] + PrintParts(more)
    case Hole(body, more) => "${" + Print(body) + "}" + PrintParts(more)
  }

  /** The same mark, not code, for every character of `text`. */
  function Silent(text: string, d: int, p: int): (r: seq<Mark>)
    ensures |r| == |text|
  {
    if text == "" then [] else [Mark(d, p, false)] + Silent(text[1..], d, p)
  }

  function Marks(t: Tokens, d: int, p: int): seq<Mark> {
    match t
    case Done => []
    case Plain(_, rest) => [Mark(d, p, true)] + Marks(rest, d, p)
    case Braces(body, rest) =>
      [Mark(d + 1, p, true)] + Marks(body, d + 1, p) + [Mark(d, p, true)] + Marks(rest, d, p)
    case Parens(body, rest) =>
      [Mark(d, p + 1, true)] + Marks(body, d, p + 1) + [Mark(d, p, true)] + Marks(rest, d, p)
    case Quoted(double, literal, rest) =>
      [Mark(d, p, false)] + Silent(PrintLiteral(literal, Quote(double)), d, p) + Marks(rest, d, p)
    case LineNote(note, rest) => Silent("//" + note + "\n", d, p) + Marks(rest, d, p)
    case BlockNote(note, rest) => Silent("/*" + note + "*/", d, p) + Marks(rest, d, p)
    case Templated(parts, rest) => [Mark(d, p, false)] + PartMarks(parts, d, p) + Marks(rest, d, p)
  }

  function PartMarks(parts: Parts, d: int, p: int): seq<Mark> {
    match parts
    case End => [Mark(d, p, false)]
    case RawPart(_, more) => [Mark(d, p, false)] + PartMarks(more, d, p)
    case EscapedPart(_, more) => [Mark(d, p, false), Mark(d, p, false)] + PartMarks(more, d, p)
    case Hole(body, more) =>
      [Mark(d + 1, p, true), Mark(d + 1, p, true)] + Marks(body, d + 1, p) + [Mark(d, p, true)]
      + PartMarks(more, d, p)
  }

  // ---- running the scanner over a piece of text, with more text to follow ----

  /** Scanning `text` with `after` behind it emits `marks` and goes on from `end`. */
  ghost predicate Runs(s: State, text: string, marks: seq<Mark>, end: State, after: string) {
    Lex(s, text + after) == Scan(marks + Lex(end, after).marks, Lex(end, after).end)
  }

  lemma {:induction false} RunsNothing(s: State, after: string)
    ensures Runs(s, "", [], s, after)
  {
    assert "" + after == after;
  }

  lemma {:induction false} RunsTurn(s: State, text: string, marks: seq<Mark>, end: State, after: string)
    requires text != "" && |text| == |marks| && Turn(s, text + after) == Scan(marks, end)
    ensures Runs(s, text, marks, end, after)
  {
  }

  lemma {:induction false} RunsThen(s: State, a: string, m: seq<Mark>, mid: State, b: string, n: seq<Mark>,
      end: State, after: string)
    requires Runs(s, a, m, mid, b + after) && Runs(mid, b, n, end, after)
    ensures Runs(s, a + b, m + n, end, after)
  {
    assert a + b + after == a + (b + after);
    assert m + n + Lex(end, after).marks == m + (n + Lex(end, after).marks);
  }

  /** One turn, then the rest. */
  lemma {:induction false} RunsTurnThen(s: State, a: string, m: seq<Mark>, mid: State, b: string, n: seq<Mark>,
      end: State, after: string)
    requires a != "" && |a| == |m| && Turn(s, a + (b + after)) == Scan(m, mid)
    requires Runs(mid, b, n, end, after)
    ensures Runs(s, a + b, m + n, end, after)
  {
    RunsTurn(s, a, m, mid, b + after);
    RunsThen(s, a, m, mid, b, n, end, after);
  }

  lemma {:induction false} LiteralRuns(l: Literal, s: State, quote: char, after: string)
    requires (s.mode == DoubleQuoted && quote == '"') || (s.mode == SingleQuoted && quote == '\'')
    requires WellFormedLiteral(l, quote)
    ensures var text := PrintLiteral(l, quote);
            Runs(s, text, Silent(text, s.depth, s.paren), s.(mode := Code), after)
  {
    var m := Mark(s.depth, s.paren, false);
    match l
    case Closed =>
      assert Silent([quote], s.depth, s.paren) == [m];
      RunsTurn(s, [quote], [m], s.(mode := Code), after);
    case Raw(c, more) =>
      LiteralRuns(more, s, quote, after);
      var rest := PrintLiteral(more, quote);
      assert ([c] + rest)[1..] == rest;
      RunsTurnThen(s, [c], [m], s, rest, Silent(rest, s.depth, s.paren), s.(mode := Code), after);
    case Escaped(c, more) =>
      LiteralRuns(more, s, quote, after);
      var rest := PrintLiteral(more, quote);
      SilentSplits(['\\', c], rest, s.depth, s.paren);
      assert Silent(['\\', c], s.depth, s.paren) == [m, m];
      RunsTurnThen(s, ['\\', c], [m, m], s, rest, Silent(rest, s.depth, s.paren), s.(mode := Code), after);
  }

  lemma {:induction false} SilentSplits(a: string, b: string, d: int, p: int)
    ensures Silent(a + b, d, p) == Silent(a, d, p) + Silent(b, d, p)
  {
    if a == "" {
      assert a + b == b;
    } else {
      assert (a + b)[1..] == a[1..] + b;
      SilentSplits(a[1..], b, d, p);
    }
  }

  lemma {:induction false} LineRuns(note: string, s: State, after: string)
    requires s.mode == LineComment && '\n' !in note
    ensures Runs(s, note + "\n", Silent(note + "\n", s.depth, s.paren), s.(mode := Code), after)
  {
    var m := Mark(s.depth, s.paren, false);
    if note == "" {
      assert note + "\n" == "\n" && Silent("\n", s.depth, s.paren) == [m];
      RunsTurn(s, "\n", [m], s.(mode := Code), after);
    } else {
      var rest := note[1..] + "\n";
      LineRuns(note[1..], s, after);
      assert note + "\n" == [note[0]] + rest && ([note[0]] + rest)[1..] == rest;
      RunsTurnThen(s, [note[0]], [m], s, rest, Silent(rest, s.depth, s.paren), s.(mode := Code), after);
    }
  }

  lemma {:induction false} BlockRuns(note: string, s: State, after: string)
    requires s.mode == BlockComment && NoClose(note)
    ensures Runs(s, note + "*/", Silent(note + "*/", s.depth, s.paren), s.(mode := Code), after)
  {
    var m := Mark(s.depth, s.paren, false);
    if note == "" {
      assert note + "*/" == "*/" && "*/"[1..] == "/" && Silent("*/", s.depth, s.paren) == [m, m];
      RunsTurn(s, "*/", [m, m], s.(mode := Code), after);
    } else {
      var rest := note[1..] + "*/";
      BlockRuns(note[1..], s, after);
      assert note + "*/" == [note[0]] + rest && ([note[0]] + rest)[1..] == rest;
      RunsTurnThen(s, [note[0]], [m], s, rest, Silent(rest, s.depth, s.paren), s.(mode := Code), after);
    }
  }

  /** An opening turn, a body, a closing turn and the rest. */
  lemma {:induction false} RunsEnclosed(s: State, open: string, m: seq<Mark>, inside: State, body: string,
      bodyMarks: seq<Mark>,
                     close: string, n: seq<Mark>, rest: string, restMarks: seq<Mark>, end: State, after: string)
    requires open != "" && |open| == |m| && close != "" && |close| == |n|
    requires Turn(s, open + (body + (close + rest) + after)) == Scan(m, inside)
    requires Runs(inside, body, bodyMarks, inside, close + rest + after)
    requires Turn(inside, close + (rest + after)) == Scan(n, s)
    requires Runs(s, rest, restMarks, end, after)
    ensures Runs(s, open + body + close + rest, m + bodyMarks + n + restMarks, end, after)
  {
    RunsTurnThen(inside, close, n, s, rest, restMarks, end, after);
    RunsThen(inside, body, bodyMarks, inside, close + rest, n + restMarks, end, after);
    RunsTurnThen(s, open, m, inside, body + (close + rest), bodyMarks + (n + restMarks), end, after);
    assert open + body + close + rest == open + (body + (close + rest));
    assert m + bodyMarks + n + restMarks == m + (bodyMarks + (n + restMarks));
  }

  /** An opening turn, a body that ends in `back`, and the rest. */
  lemma {:induction false} RunsOpened(s: State, open: string, m: seq<Mark>, inside: State, body: string,
      bodyMarks: seq<Mark>,
                   back: State, rest: string, restMarks: seq<Mark>, end: State, after: string)
    requires open != "" && |open| == |m|
    requires Turn(s, open + (body + rest + after)) == Scan(m, inside)
    requires Runs(inside, body, bodyMarks, back, rest + after)
    requires Runs(back, rest, restMarks, end, after)
    ensures Runs(s, open + body + rest, m + bodyMarks + restMarks, end, after)
  {
    RunsThen(inside, body, bodyMarks, back, rest, restMarks, end, after);
    RunsTurnThen(s, open, m, inside, body + rest, bodyMarks + restMarks, end, after);
    assert open + body + rest == open + (body + rest);
    assert m + bodyMarks + restMarks == m + (bodyMarks + restMarks);
  }

  lemma {:induction false} BracketTurns(s: State, x: string)
    requires s.mode == Code && WellNested(s)
    ensures Turn(s, "{" + x) == Scan([Mark(s.depth + 1, s.paren, true)], s.(depth := s.depth + 1))
    ensures Turn(s.(depth := s.depth + 1), "}" + x) == Scan([Mark(s.depth, s.paren, true)], s)
    ensures Turn(s, "(" + x) == Scan([Mark(s.depth, s.paren + 1, true)], s.(paren := s.paren + 1))
    ensures Turn(s.(paren := s.paren + 1), ")" + x) == Scan([Mark(s.depth, s.paren, true)], s)
  {
  }

  lemma {:induction false} HoleTurns(s: State, x: string)
    requires s.mode == Template
    ensures var inside := State(s.depth + 1, s.paren, Code, s.holes + [s.depth]);
            && Turn(s, "${" + x) == Scan([Mark(s.depth + 1, s.paren, true), Mark(s.depth + 1, s.paren, true)], inside)
            && Turn(inside, "}" + x) == Scan([Mark(s.depth, s.paren, true)], s)
  {
  }

  /** The text behind a token list cannot turn a trailing `/` into a comment. */
  predicate Safe(after: string) {
    after == "" || after[0] !in {'/', '*'}
  }

  lemma {:induction false} TokensRun(t: Tokens, s: State, after: string)
    requires s.mode == Code && WellNested(s) && WellFormed(t) && Safe(after)
    ensures Runs(s, Print(t), Marks(t, s.depth, s.paren), s, after)
    decreases t
  {
    var d, p := s.depth, s.paren;
    match t
    case Done => RunsNothing(s, after);
    case Plain(c, rest) =>
      TokensRun(rest, s, after);
      PlainRuns(c, rest, s, after);
    case Braces(body, rest) =>
      TokensRun(rest, s, after);
      TokensRun(body, s.(depth := d + 1), "}" + Print(rest) + after);
      BracesRun(body, rest, s, after);
    case Parens(body, rest) =>
      TokensRun(rest, s, after);
      TokensRun(body, s.(paren := p + 1), ")" + Print(rest) + after);
      ParensRun(body, rest, s, after);
    case Quoted(double, literal, rest) =>
      TokensRun(rest, s, after);
      QuotedRuns(double, literal, rest, s, after);
    case LineNote(note, rest) =>
      TokensRun(rest, s, after);
      LineNoteRuns(note, rest, s, after);
    case BlockNote(note, rest) =>
      TokensRun(rest, s, after);
      BlockNoteRuns(note, rest, s, after);
    case Templated(parts, rest) =>
      TokensRun(rest, s, after);
      PartsRun(parts, s.(mode := Template), Print(rest) + after);
      TemplateRuns(parts, rest, s, after);
  }

  lemma {:induction false} PlainRuns(c: char, rest: Tokens, s: State, after: string)
    requires s.mode == Code && WellFormed(Plain(c, rest)) && Safe(after)
    requires Runs(s, Print(rest), Marks(rest, s.depth, s.paren), s, after)
    ensures Runs(s, Print(Plain(c, rest)), Marks(Plain(c, rest), s.depth, s.paren), s, after)
  {
    var m := Mark(s.depth, s.paren, true);
    RunsTurnThen(s, [c], [m], s, Print(rest), Marks(rest, s.depth, s.paren), s, after);
  }

  lemma {:induction false} BracesRun(body: Tokens, rest: Tokens, s: State, after: string)
    requires s.mode == Code && WellNested(s)
    requires var inside := s.(depth := s.depth + 1);
             Runs(inside, Print(body), Marks(body, inside.depth, s.paren), inside, "}" + Print(rest) + after)
    requires Runs(s, Print(rest), Marks(rest, s.depth, s.paren), s, after)
    ensures Runs(s, Print(Braces(body, rest)), Marks(Braces(body, rest), s.depth, s.paren), s, after)
  {
    var d, p := s.depth, s.paren;
    assert Runs(s, "{" + Print(body) + "}" + Print(rest), [Mark(d + 1, p, true)] + Marks(body, d + 1, p)
                + [Mark(d, p, true)] + Marks(rest, d, p), s, after) by {
      BraceTextRuns(s, Print(body), Marks(body, d + 1, p), Print(rest), Marks(rest, d, p), after);
    }
    BracketsPrint(body, rest, d, p);
  }

  lemma {:induction false} ParensRun(body: Tokens, rest: Tokens, s: State, after: string)
    requires s.mode == Code && WellNested(s)
    requires var inside := s.(paren := s.paren + 1);
             Runs(inside, Print(body), Marks(body, s.depth, inside.paren), inside, ")" + Print(rest) + after)
    requires Runs(s, Print(rest), Marks(rest, s.depth, s.paren), s, after)
    ensures Runs(s, Print(Parens(body, rest)), Marks(Parens(body, rest), s.depth, s.paren), s, after)
  {
    var d, p := s.depth, s.paren;
    assert Runs(s, "(" + Print(body) + ")" + Print(rest), [Mark(d, p + 1, true)] + Marks(body, d, p + 1)
                + [Mark(d, p, true)] + Marks(rest, d, p), s, after) by {
      ParenTextRuns(s, Print(body), Marks(body, d, p + 1), Print(rest), Marks(rest, d, p), after);
    }
    BracketsPrint(body, rest, d, p);
  }

  lemma {:induction false} BracketsPrint(body: Tokens, rest: Tokens, d: int, p: int)
    ensures Print(Braces(body, rest)) == "{" + Print(body) + "}" + Print(rest)
    ensures Marks(Braces(body, rest), d, p) == [Mark(d + 1, p, true)] + Marks(body, d + 1, p)
                                               + [Mark(d, p, true)] + Marks(rest, d, p)
    ensures Print(Parens(body, rest)) == "(" + Print(body) + ")" + Print(rest)
    ensures Marks(Parens(body, rest), d, p) == [Mark(d, p + 1, true)] + Marks(body, d, p + 1)
                                               + [Mark(d, p, true)] + Marks(rest, d, p)
  {
  }

  lemma {:induction false} BraceTextRuns(s: State, body: string, bodyMarks: seq<Mark>, rest: string,
      restMarks: seq<Mark>, after: string)
    requires s.mode == Code && WellNested(s)
    requires var inside := s.(depth := s.depth + 1); Runs(inside, body, bodyMarks, inside, "}" + rest + after)
    requires Runs(s, rest, restMarks, s, after)
    ensures Runs(s, "{" + body + "}" + rest, [Mark(s.depth + 1, s.paren, true)] + bodyMarks
                    + [Mark(s.depth, s.paren, true)] + restMarks, s, after)
  {
    BracketTurns(s, body + ("}" + rest) + after);
    BracketTurns(s, rest + after);
    RunsEnclosed(s, "{", [Mark(s.depth + 1, s.paren, true)], s.(depth := s.depth + 1), body, bodyMarks,
                 "}", [Mark(s.depth, s.paren, true)], rest, restMarks, s, after);
  }

  lemma {:induction false} ParenTextRuns(s: State, body: string, bodyMarks: seq<Mark>, rest: string,
      restMarks: seq<Mark>, after: string)
    requires s.mode == Code && WellNested(s)
    requires var inside := s.(paren := s.paren + 1); Runs(inside, body, bodyMarks, inside, ")" + rest + after)
    requires Runs(s, rest, restMarks, s, after)
    ensures Runs(s, "(" + body + ")" + rest, [Mark(s.depth, s.paren + 1, true)] + bodyMarks
                    + [Mark(s.depth, s.paren, true)] + restMarks, s, after)
  {
    BracketTurns(s, body + (")" + rest) + after);
    BracketTurns(s, rest + after);
    RunsEnclosed(s, "(", [Mark(s.depth, s.paren + 1, true)], s.(paren := s.paren + 1), body, bodyMarks,
                 ")", [Mark(s.depth, s.paren, true)], rest, restMarks, s, after);
  }

  lemma {:induction false} TemplateRuns(parts: Parts, rest: Tokens, s: State, after: string)
    requires s.mode == Code
    requires Runs(s.(mode := Template), PrintParts(parts), PartMarks(parts, s.depth, s.paren), s, Print(rest) + after)
    requires Runs(s, Print(rest), Marks(rest, s.depth, s.paren), s, after)
    ensures Runs(s, Print(Templated(parts, rest)), Marks(Templated(parts, rest), s.depth, s.paren), s, after)
  {
    var d, p := s.depth, s.paren;
    var inside := s.(mode := Template);
    RunsOpened(s, "`", [Mark(d, p, false)], inside, PrintParts(parts), PartMarks(parts, d, p),
               s, Print(rest), Marks(rest, d, p), s, after);
  }

  lemma {:induction false} QuotedRuns(double: bool, literal: Literal, rest: Tokens, s: State, after: string)
    requires s.mode == Code && WellFormedLiteral(literal, Quote(double))
    requires Runs(s, Print(rest), Marks(rest, s.depth, s.paren), s, after)
    ensures var t := Quoted(double, literal, rest);
            Runs(s, Print(t), Marks(t, s.depth, s.paren), s, after)
  {
    var quote, mode := Quote(double), if double then DoubleQuoted else SingleQuoted;
    LiteralRuns(literal, s.(mode := mode), quote, Print(rest) + after);
    StringRuns(s, quote, mode, PrintLiteral(literal, quote), Print(rest), Marks(rest, s.depth, s.paren), after);
  }

  /** A string, and the rest. */
  lemma {:induction false} StringRuns(s: State, quote: char, mode: Mode, text: string, rest: string,
      restMarks: seq<Mark>, after: string)
    requires s.mode == Code && ((quote == '"' && mode == DoubleQuoted) || (quote == '\'' && mode == SingleQuoted))
    requires Runs(s.(mode := mode), text, Silent(text, s.depth, s.paren), s, rest + after)
    requires Runs(s, rest, restMarks, s, after)
    ensures Runs(s, [quote] + text + rest, [Mark(s.depth, s.paren, false)] + Silent(text, s.depth, s.paren) + restMarks,
                 s, after)
  {
    RunsOpened(s, [quote], [Mark(s.depth, s.paren, false)], s.(mode := mode), text, Silent(text, s.depth, s.paren),
               s, rest, restMarks, s, after);
  }

  lemma {:induction false} LineNoteRuns(note: string, rest: Tokens, s: State, after: string)
    requires s.mode == Code && '\n' !in note
    requires Runs(s, Print(rest), Marks(rest, s.depth, s.paren), s, after)
    ensures Runs(s, Print(LineNote(note, rest)), Marks(LineNote(note, rest), s.depth, s.paren), s, after)
  {
    var text := "/" + note + "\n";
    assert Print(LineNote(note, rest)) == "/" + (text + Print(rest)) && "//" + note + "\n" == "/" + text;
    LineRuns("/" + note, s.(mode := LineComment), Print(rest) + after);
    NoteRuns(s, s.(mode := LineComment), text, rest, after);
  }

  lemma {:induction false} BlockNoteRuns(note: string, rest: Tokens, s: State, after: string)
    requires s.mode == Code && BlockText(note)
    requires Runs(s, Print(rest), Marks(rest, s.depth, s.paren), s, after)
    ensures Runs(s, Print(BlockNote(note, rest)), Marks(BlockNote(note, rest), s.depth, s.paren), s, after)
  {
    var text := "*" + note + "*/";
    assert Print(BlockNote(note, rest)) == "/" + (text + Print(rest)) && "/*" + note + "*/" == "/" + text;
    BlockRuns("*" + note, s.(mode := BlockComment), Print(rest) + after);
    NoteRuns(s, s.(mode := BlockComment), text, rest, after);
  }

  /** The slash that opens a comment, the comment's text, and the rest. */
  lemma {:induction false} NoteRuns(s: State, inside: State, text: string, rest: Tokens, after: string)
    requires text != "" && Turn(s, "/" + (text + Print(rest) + after)) == Scan([Mark(s.depth, s.paren, false)], inside)
    requires Runs(inside, text, Silent(text, s.depth, s.paren), s, Print(rest) + after)
    requires Runs(s, Print(rest), Marks(rest, s.depth, s.paren), s, after)
    ensures var marks := Silent("/" + text, s.depth, s.paren) + Marks(rest, s.depth, s.paren);
            Runs(s, "/" + (text + Print(rest)), marks, s, after)
  {
    var d, p := s.depth, s.paren;
    RunsThen(inside, text, Silent(text, d, p), s, Print(rest), Marks(rest, d, p), s, after);
    var behind := Silent(text, d, p) + Marks(rest, d, p);
    RunsTurnThen(s, "/", [Mark(d, p, false)], inside, text + Print(rest), behind, s, after);
    assert ("/" + text)[1..] == text;
    assert Silent("/" + text, d, p) + Marks(rest, d, p)
        == [Mark(d, p, false)] + (Silent(text, d, p) + Marks(rest, d, p));
  }

  lemma {:induction false} PartsRun(parts: Parts, s: State, after: string)
    requires s.mode == Template && WellNested(s) && WellFormedParts(parts)
    ensures Runs(s, PrintParts(parts), PartMarks(parts, s.depth, s.paren), s.(mode := Code), after)
    decreases parts
  {
    var d, p := s.depth, s.paren;
    match parts
    case End => RunsTurn(s, "`", [Mark(d, p, false)], s.(mode := Code), after);
    case RawPart(c, more) =>
      PartsRun(more, s, after);
      RawPartRuns(c, more, s, after);
    case EscapedPart(c, more) =>
      PartsRun(more, s, after);
      EscapedPartRuns(c, more, s, after);
    case Hole(body, more) =>
      var inside := State(d + 1, p, Code, s.holes + [d]);
      PartsRun(more, s, after);
      TokensRun(body, inside, "}" + PrintParts(more) + after);
      HoleRuns(body, more, s, after);
  }

  lemma {:induction false} RawPartRuns(c: char, more: Parts, s: State, after: string)
    requires s.mode == Template && WellFormedParts(RawPart(c, more))
    requires Runs(s, PrintParts(more), PartMarks(more, s.depth, s.paren), s.(mode := Code), after)
    ensures var parts := RawPart(c, more);
            Runs(s, PrintParts(parts), PartMarks(parts, s.depth, s.paren), s.(mode := Code), after)
  {
    RunsTurnThen(s, [c], [Mark(s.depth, s.paren, false)], s, PrintParts(more), PartMarks(more, s.depth, s.paren),
                 s.(mode := Code), after);
  }

  lemma {:induction false} EscapedPartRuns(c: char, more: Parts, s: State, after: string)
    requires s.mode == Template
    requires Runs(s, PrintParts(more), PartMarks(more, s.depth, s.paren), s.(mode := Code), after)
    ensures var parts := EscapedPart(c, more);
            Runs(s, PrintParts(parts), PartMarks(parts, s.depth, s.paren), s.(mode := Code), after)
  {
    var m := Mark(s.depth, s.paren, false);
    RunsTurnThen(s, ['\\', c], [m, m], s, PrintParts(more), PartMarks(more, s.depth, s.paren),
                 s.(mode := Code), after);
  }

  lemma {:induction false} HoleRuns(body: Tokens, more: Parts, s: State, after: string)
    requires s.mode == Template && WellNested(s)
    requires var inside := State(s.depth + 1, s.paren, Code, s.holes + [s.depth]);
             Runs(inside, Print(body), Marks(body, s.depth + 1, s.paren), inside, "}" + PrintParts(more) + after)
    requires Runs(s, PrintParts(more), PartMarks(more, s.depth, s.paren), s.(mode := Code), after)
    ensures var parts := Hole(body, more);
            Runs(s, PrintParts(parts), PartMarks(parts, s.depth, s.paren), s.(mode := Code), after)
  {
    var d, p := s.depth, s.paren;
    var end := s.(mode := Code);
    var inside := State(d + 1, p, Code, s.holes + [d]);
    var open := [Mark(d + 1, p, true), Mark(d + 1, p, true)];
    HoleTurns(s, Print(body) + ("}" + PrintParts(more)) + after);
    HoleTurns(s, PrintParts(more) + after);
    RunsEnclosed(s, "${", open, inside, Print(body), Marks(body, d + 1, p),
                 "}", [Mark(d, p, true)], PrintParts(more), PartMarks(more, d, p), end, after);
  }

  /** Scanning the printed tree gives exactly the tree's marks and ends back in code, at depth
      zero, with no hole open. */
  lemma {:induction false} LexUndoesPrint(t: Tokens)
    requires WellFormed(t)
    ensures Lex(START, Print(t)) == Scan(Marks(t, 0, 0), START)
  {
    TokensRun(t, START, "");
    assert Print(t) + "" == Print(t);
    assert Marks(t, 0, 0) + Lex(START, "").marks == Marks(t, 0, 0);
  }

  // ---- pieces that are never closed ----

  /** What opens a comment, a string or a template literal. */
  predicate Opens(open: string, mode: Mode) {
    match mode
    case Code => false
    case LineComment => open == "//"
    case BlockComment => open == "/*"
    case DoubleQuoted => open == "\""
    case SingleQuoted => open == "'"
    case Template => open == "`"
  }

  predicate NoHole(text: string) {
    forall i :: 0 <= i < |text| - 1 ==> !(text[i] == '$' && text[i + 1] == '{')
  }

  predicate NeverCloses(text: string, mode: Mode) {
    match mode
    case Code => false
    case LineComment => '\n' !in text
    case BlockComment => BlockText(text)
    case DoubleQuoted => '"' !in text
    case SingleQuoted => '\'' !in text
    case Template => '`' !in text && NoHole(text)
  }

  /** From any place in code, a piece that is opened and never closed is no code, up to the text's last character. */
  lemma {:induction false} UnclosedIsSilent(s: State, open: string, mode: Mode, text: string)
    requires s.mode == Code && Opens(open, mode) && NeverCloses(text, mode)
    ensures Lex(s, open + text) == Scan(Silent(open + text, s.depth, s.paren), s.(mode := mode))
  {
    var inside, rest := s.(mode := mode), open[1..] + text;
    assert (open + text)[1..] == rest;
    assert Turn(s, open + text) == Scan([Mark(s.depth, s.paren, false)], inside);
    StaysSilent(rest, inside);
  }

  /** Inside it. */
  lemma {:induction false} StaysSilent(text: string, s: State)
    requires match s.mode
             case Code => false
             case LineComment => '\n' !in text
             case BlockComment => NoClose(text)
             case DoubleQuoted => '"' !in text
             case SingleQuoted => '\'' !in text
             case Template => '`' !in text && NoHole(text)
    ensures Lex(s, text) == Scan(Silent(text, s.depth, s.paren), s)
    decreases |text|
  {
    if text != "" {
      var m, n := Mark(s.depth, s.paren, false), |Turn(s, text).marks|;
      assert Turn(s, text) == Scan(if n == 2 then [m, m] else [m], s);
      assert Silent(text, s.depth, s.paren) == Turn(s, text).marks + Silent(text[n..], s.depth, s.paren) by {
        assert text[..n] + text[n..] == text;
        SilentSplits(text[..n], text[n..], s.depth, s.paren);
        SilentFew(text[..n], m);
      }
      StaysSilent(text[n..], s);
    }
  }

  lemma {:induction false} SilentFew(text: string, m: Mark)
    requires 1 <= |text| <= 2 && !m.code
    ensures Silent(text, m.depth, m.paren) == if |text| == 2 then [m, m] else [m]
  {
    assert |text| == 2 ==> text[1..][1..] == "";
  }

  // ---- the one comment text the scanner gets wrong ----

  /** Scanning a comment's opening and any beginning of its text leaves the comment open,
      exactly when the text does not start with a slash: the scanner closes on the three
      characters slash, star, slash. */
  lemma {:induction false} BlockStaysOpenIff(note: string)
    requires NoClose(note)
    ensures (forall j :: 0 <= j <= |note| ==> Lex(START, "/*" + note[..j]).end.mode == BlockComment)
       <==> BlockText(note)
  {
    if note != "" && note[0] == '/' {
      assert "/*" + note[..1] == "/*/";
      SlashStarSlash();
      assert Lex(START, "/*" + note[..1]).end.mode == Code;
    } else {
      forall j | 0 <= j <= |note| ensures Lex(START, "/*" + note[..j]).end.mode == BlockComment {
        var inside := START.(mode := BlockComment);
        assert ("/*" + note[..j])[1..] == "*" + note[..j];
        assert Turn(START, "/*" + note[..j]) == Scan([Mark(0, 0, false)], inside);
        assert NoClose("*" + note[..j]);
        StaysSilent("*" + note[..j], inside);
      }
    }
  }

  lemma {:induction false} SlashStarSlash()
    ensures Lex(START, "/*/").end == START
  {
    var inside := START.(mode := BlockComment);
    assert "/*/"[1..] == "*/" && "*/"[2..] == "";
    assert Turn(START, "/*/").end == inside && |Turn(START, "/*/").marks| == 1;
    assert Turn(inside, "*/").end == START && |Turn(inside, "*/").marks| == 2;
  }
}
