/** The depth-aware TypeScript scanner: one left-to-right pass that marks every character
    with its brace depth, its paren depth and whether it is code, and the search for the
    closing brace that relies on those marks.

    `Turn` is one turn of the scanner's loop, `Lex` the whole run as a function; the method
    `ComputeDepthAndCodeMask` is the loop over arrays and is proved equal to `Lex`. */
module Lexer {

  datatype Mode = Code | LineComment | BlockComment | DoubleQuoted | SingleQuoted | Template

  /** `holes` holds the brace depths at which a `${` was opened, innermost last. */
  datatype State = State(depth: int, paren: int, mode: Mode, holes: seq<int>)

  datatype Mark = Mark(depth: int, paren: int, code: bool)

  datatype Scan = Scan(marks: seq<Mark>, end: State)

  const START := State(0, 0, Code, [])

  function Emit(s: State, code: bool, count: nat): Scan {
    var m := Mark(s.depth, s.paren, code);
    Scan(if count == 2 then [m, m] else [m], s)
  }

  predicate NextIs(text: string, c: char) {
    |text| > 1 && text[1] == c
  }

  /** One turn: one character, or two for an escape, the end of a block comment and `${`. */
  function Turn(s: State, text: string): (r: Scan)
    requires text != ""
    ensures 1 <= |r.marks| <= 2 && |r.marks| <= |text|
  {
    var c := text[0];
    match s.mode
    case Code =>
      if c == '/' && NextIs(text, '/') then Emit(s.(mode := LineComment), false, 1)
      else if c == '/' && NextIs(text, '*') then Emit(s.(mode := BlockComment), false, 1)
      else if c == '"' then Emit(s.(mode := DoubleQuoted), false, 1)
      else if c == '\'' then Emit(s.(mode := SingleQuoted), false, 1)
      else if c == '`' then Emit(s.(mode := Template), false, 1)
      else if c == '{' then Emit(s.(depth := s.depth + 1), true, 1)
      else if c == '}' then
        if s.holes != [] && s.holes[|s.holes| - 1] == s.depth - 1 then
          Emit(s.(depth := s.depth - 1, mode := Template, holes := s.holes[..|s.holes| - 1]), true, 1)
        else
          Emit(s.(depth := s.depth - 1), true, 1)
      else if c == '(' then Emit(s.(paren := s.paren + 1), true, 1)
      else if c == ')' then Emit(s.(paren := s.paren - 1), true, 1)
      else Emit(s, true, 1)
    case LineComment =>
      Emit(if c == '\n' then s.(mode := Code) else s, false, 1)
    case BlockComment =>
      if c == '*' && NextIs(text, '/') then Emit(s.(mode := Code), false, 2) else Emit(s, false, 1)
    case DoubleQuoted => QuotedTurn(s, text, '"')
    case SingleQuoted => QuotedTurn(s, text, '\'')
    case Template =>
      if c == '\\' && |text| > 1 then Emit(s, false, 2)
      else if c == '`' then Emit(s.(mode := Code), false, 1)
      else if c == '$' && NextIs(text, '{') then
        Emit(State(s.depth + 1, s.paren, Code, s.holes + [s.depth]), true, 2)
      else Emit(s, false, 1)
  }

  function QuotedTurn(s: State, text: string, quote: char): (r: Scan)
    requires text != ""
    ensures 1 <= |r.marks| <= 2 && |r.marks| <= |text|
  {
    if text[0] == '\\' && |text| > 1 then Emit(s, false, 2)
    else Emit(if text[0] == quote then s.(mode := Code) else s, false, 1)
  }

  function Lex(s: State, text: string): (r: Scan)
    ensures |r.marks| == |text|
    decreases |text|
  {
    if text == "" then Scan([], s)
    else
      var t := Turn(s, text);
      var r := Lex(t.end, text[|t.marks|..]);
      Scan(t.marks + r.marks, r.end)
  }

  // ---- the loop over arrays ----

  /** The branches of the loop: the next values of the scanner's variables, whether the
      characters read are code, and how many of them there are. */
  method ReadTurn(text: string, i: nat, s: State) returns (next: State, code: bool, count: nat)
    requires i < |text|
    ensures 1 <= count <= 2 && i + count <= |text|
    ensures Emit(next, code, count) == Turn(s, text[i..])
  {
    var State(depth, paren, mode, holes) := s;
    code, count := false, 1;
    var c := text[i];
    var more := i + 1 < |text|;
    if mode == Code {
      if c == '/' && more && text[i + 1] == '/' {
        mode := LineComment;
      } else if c == '/' && more && text[i + 1] == '*' {
        mode := BlockComment;
      } else if c == '"' {
        mode := DoubleQuoted;
      } else if c == '\'' {
        mode := SingleQuoted;
      } else if c == '`' {
        mode := Template;
      } else {
        code := true;
        if c == '{' {
          depth := depth + 1;
        } else if c == '}' {
          if holes != [] && holes[|holes| - 1] == depth - 1 {
            holes, mode := holes[..|holes| - 1], Template;
          }
          depth := depth - 1;
        } else if c == '(' {
          paren := paren + 1;
        } else if c == ')' {
          paren := paren - 1;
        }
      }
    } else if mode == LineComment {
      if c == '\n' {
        mode := Code;
      }
    } else if mode == BlockComment {
      if c == '*' && more && text[i + 1] == '/' {
        mode, count := Code, 2;
      }
    } else if mode == DoubleQuoted || mode == SingleQuoted {
      var quote := if mode == DoubleQuoted then '"' else '\'';
      if c == '\\' && more {
        count := 2;
      } else if c == quote {
        mode := Code;
      }
    } else {
      if c == '\\' && more {
        count := 2;
      } else if c == '`' {
        mode := Code;
      } else if c == '$' && more && text[i + 1] == '{' {
        holes, depth, mode, code, count := holes + [depth], depth + 1, Code, true, 2;
      }
    }
    next := State(depth, paren, mode, holes);
  }

  /** The three lists agree with `marks` on every index below `n`. */
  ghost predicate Agree(depthAt: array<int>, parenAt: array<int>, inCode: array<bool>, marks: seq<Mark>, n: nat)
    requires depthAt.Length == parenAt.Length == inCode.Length == |marks| && n <= |marks|
    reads depthAt, parenAt, inCode
  {
    forall k :: 0 <= k < n ==>
      depthAt[k] == marks[k].depth && parenAt[k] == marks[k].paren && inCode[k] == marks[k].code
  }

  /** `marks` from index `i` on are the marks of scanning the rest of `text` from `s`. */
  ghost predicate Ahead(s: State, text: string, i: nat, marks: seq<Mark>)
    requires i <= |text| == |marks|
  {
    marks[i..] == Lex(s, text[i..]).marks
  }

  /** A turn, tied to the marks of the whole text. */
  method NextMarks(text: string, i: nat, s: State, ghost marks: seq<Mark>)
    returns (next: State, code: bool, count: nat)
    requires i < |text| == |marks| && Ahead(s, text, i, marks)
    ensures 1 <= count <= 2 && i + count <= |text| && Ahead(next, text, i + count, marks)
    ensures forall k :: i <= k < i + count ==> marks[k] == Mark(next.depth, next.paren, code)
  {
    next, code, count := ReadTurn(text, i, s);
    LexAdvances(s, text, i, marks, next, code, count);
  }

  /** Write the marks of one turn: the same entry for each of its characters. */
  method Write(depthAt: array<int>, parenAt: array<int>, inCode: array<bool>, i: nat, count: nat,
               m: Mark, ghost marks: seq<Mark>)
    requires i + count <= depthAt.Length == parenAt.Length == inCode.Length == |marks| && depthAt != parenAt
    requires Agree(depthAt, parenAt, inCode, marks, i)
    requires forall k :: i <= k < i + count ==> marks[k] == m
    modifies depthAt, parenAt, inCode
    ensures Agree(depthAt, parenAt, inCode, marks, i + count)
  {
    for k := i to i + count
      invariant Agree(depthAt, parenAt, inCode, marks, k)
    {
      depthAt[k], parenAt[k], inCode[k] := m.depth, m.paren, m.code;
    }
  }

  method ScanTurn(text: string, i: nat, s: State, depthAt: array<int>, parenAt: array<int>, inCode: array<bool>,
                  ghost marks: seq<Mark>)
    returns (next: State, j: nat)
    requires i < |text| == depthAt.Length == parenAt.Length == inCode.Length == |marks| && depthAt != parenAt
    requires Ahead(s, text, i, marks) && Agree(depthAt, parenAt, inCode, marks, i)
    modifies depthAt, parenAt, inCode
    ensures i < j <= |text|
    ensures Ahead(next, text, j, marks) && Agree(depthAt, parenAt, inCode, marks, j)
  {
    var code, count;
    next, code, count := NextMarks(text, i, s, marks);
    Write(depthAt, parenAt, inCode, i, count, Mark(next.depth, next.paren, code), marks);
    j := i + count;
  }

  method ComputeDepthAndCodeMask(text: string)
    returns (depthAt: array<int>, parenAt: array<int>, inCode: array<bool>)
    ensures fresh(depthAt) && fresh(parenAt) && fresh(inCode)
    ensures depthAt.Length == parenAt.Length == inCode.Length == |text|
    ensures Agree(depthAt, parenAt, inCode, Lex(START, text).marks, |text|)
  {
    depthAt, parenAt, inCode := new int[|text|], new int[|text|], new bool[|text|];
    var s := START;
    var i := 0;
    ghost var marks := Lex(s, text).marks;
    assert text[0..] == text && marks[0..] == marks;
    while i < |text|
      invariant 0 <= i <= |text|
      invariant Ahead(s, text, i, marks) && Agree(depthAt, parenAt, inCode, marks, i)
    {
      s, i := ScanTurn(text, i, s, depthAt, parenAt, inCode, marks);
    }
  }

  lemma {:induction false} LexAdvances(s: State, text: string, i: nat, marks: seq<Mark>, next: State, code: bool,
      count: nat)
    requires i < |text| == |marks| && marks[i..] == Lex(s, text[i..]).marks
    requires 1 <= count <= 2 && i + count <= |text|
    requires Emit(next, code, count) == Turn(s, text[i..])
    ensures forall k :: i <= k < i + count ==> marks[k] == Mark(next.depth, next.paren, code)
    ensures marks[i + count..] == Lex(next, text[i + count..]).marks
  {
    assert text[i..][count..] == text[i + count..];
    assert marks[i..][count..] == marks[i + count..];
    assert marks[i..][0] == marks[i];
    assert count == 2 ==> marks[i..][1] == marks[i + 1];
  }

  // ---- what every text keeps ----

  /** The open holes are at strictly increasing depths, all below the current depth. */
  predicate WellNested(s: State) {
    && (forall a, b :: 0 <= a < b < |s.holes| ==> s.holes[a] < s.holes[b])
    && (s.holes != [] ==> s.holes[|s.holes| - 1] < s.depth)
  }

  lemma {:induction false} TurnKeepsNesting(s: State, text: string)
    requires text != "" && WellNested(s)
    ensures WellNested(Turn(s, text).end)
  {
  }

  lemma {:induction false} LexKeepsNesting(s: State, text: string)
    requires WellNested(s)
    ensures WellNested(Lex(s, text).end)
    decreases |text|
  {
    if text != "" {
      var t := Turn(s, text);
      TurnKeepsNesting(s, text);
      LexKeepsNesting(t.end, text[|t.marks|..]);
    }
  }
}
