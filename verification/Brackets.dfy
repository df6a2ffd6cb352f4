/** What the depth marks mean on any text, well formed or not, and why the search for a
    closing brace finds the true partner of an opening one. */
module Brackets {
  import opened Lexer

  /** +1 for a code `{`, -1 for a code `}`, 0 for every other character. */
  function Weight(c: char, code: bool): int {
    if code && c == '{' then 1 else if code && c == '}' then -1 else 0
  }

  /** Code `{` minus code `}` among the first `k` characters. */
  function Balance(text: string, marks: seq<Mark>, k: nat): int
    requires k <= |text| == |marks|
  {
    if k == 0 then 0 else Balance(text, marks, k - 1) + Weight(text[k - 1], marks[k - 1].code)
  }

  function DepthBefore(d: int, marks: seq<Mark>, k: nat): int
    requires k <= |marks|
  {
    if k == 0 then d else marks[k - 1].depth
  }

  /** Index `k` is the `$` of a `${` that opened a template hole: it already has the depth of
      the brace after it. */
  predicate OpensHole(d: int, text: string, marks: seq<Mark>, k: nat)
    requires k < |text| == |marks|
  {
    && k + 1 < |text| && text[k] == '$' && text[k + 1] == '{'
    && marks[k].code && marks[k + 1].code
    && marks[k].depth == marks[k + 1].depth == DepthBefore(d, marks, k) + 1
  }

  /** How the depth moves at one character. */
  predicate Moves(d: int, text: string, marks: seq<Mark>, k: nat)
    requires k < |text| == |marks|
  {
    || marks[k].depth == DepthBefore(d, marks, k) + Weight(text[k], marks[k].code)
    || OpensHole(d, text, marks, k)
    || (k > 0 && OpensHole(d, text, marks, k - 1))
  }

  lemma {:induction false} TurnMoves(s: State, text: string, k: nat)
    requires text != "" && k < |Turn(s, text).marks|
    ensures var t := Turn(s, text).marks;
            Moves(s.depth, text[..|t|], t, k)
  {
  }

  lemma {:induction false} LexMoves(s: State, text: string, k: nat)
    requires k < |text|
    ensures Moves(s.depth, text, Lex(s, text).marks, k)
    decreases |text|
  {
    var t := Turn(s, text);
    var n := |t.marks|;
    LexSplits(s, text);
    if k < n {
      TurnMoves(s, text, k);
      MovesInPrefix(s.depth, text, Lex(s, text).marks, n, k);
    } else {
      LexMoves(t.end, text[n..], k - n);
      MovesShift(s.depth, t.end.depth, text, Lex(s, text).marks, n, k - n);
    }
  }

  lemma {:induction false} LexSplits(s: State, text: string)
    requires text != ""
    ensures var t, marks := Turn(s, text), Lex(s, text).marks;
            && marks[..|t.marks|] == t.marks
            && marks[|t.marks|..] == Lex(t.end, text[|t.marks|..]).marks
            && marks[|t.marks| - 1].depth == t.end.depth
  {
  }

  lemma {:induction false} MovesInPrefix(d: int, text: string, marks: seq<Mark>, n: nat, k: nat)
    requires k < n <= |text| == |marks|
    requires Moves(d, text[..n], marks[..n], k)
    ensures Moves(d, text, marks, k)
  {
  }

  lemma {:induction false} MovesShift(d: int, e: int, text: string, marks: seq<Mark>, n: nat, k: nat)
    requires 1 <= n && n + k < |text| == |marks| && marks[n - 1].depth == e
    requires Moves(e, text[n..], marks[n..], k)
    ensures Moves(d, text, marks, n + k)
  {
  }

  ghost predicate WellMarked(d: int, text: string, marks: seq<Mark>)
    requires |text| == |marks|
  {
    forall k :: 0 <= k < |text| ==> Moves(d, text, marks, k)
  }

  lemma {:induction false} LexIsWellMarked(s: State, text: string)
    ensures WellMarked(s.depth, text, Lex(s, text).marks)
  {
    forall k | 0 <= k < |text| ensures Moves(s.depth, text, Lex(s, text).marks, k) {
      LexMoves(s, text, k);
    }
  }

  /** On any text (see `LexIsWellMarked`): the depth of a character is the brace balance up to
      and including it, except on the `$` of `${`, where it is one more. */
  lemma {:induction false} DepthIsBalance(d: int, text: string, marks: seq<Mark>, k: nat)
    requires k < |text| == |marks| && WellMarked(d, text, marks)
    ensures marks[k].depth == d + Balance(text, marks, k + 1) + (if OpensHole(d, text, marks, k) then 1 else 0)
  {
    assert Moves(d, text, marks, k);
    if k > 0 {
      DepthIsBalance(d, text, marks, k - 1);
    }
  }

  /** On any text: neighbouring depths differ by at most one, and only a code `}` lowers it. */
  lemma {:induction false} NeighbouringDepths(d: int, text: string, marks: seq<Mark>, k: nat)
    requires k < |text| == |marks| && WellMarked(d, text, marks)
    ensures DepthBefore(d, marks, k) - 1 <= marks[k].depth <= DepthBefore(d, marks, k) + 1
    ensures marks[k].depth < DepthBefore(d, marks, k) ==> text[k] == '}' && marks[k].code
  {
    assert Moves(d, text, marks, k);
  }

  // ---- the search ----

  /** A code `}` one level below the brace at `open`. */
  predicate Candidate(depthAt: seq<int>, inCode: seq<bool>, text: string, open: nat, j: nat)
    requires open < |text| == |depthAt| == |inCode| && j < |text|
  {
    inCode[j] && text[j] == '}' && depthAt[j] == depthAt[open] - 1
  }

  method FindMatchingClose(depthAt: seq<int>, inCode: seq<bool>, text: string, open: nat) returns (close: nat)
    requires open < |text| == |depthAt| == |inCode|
    ensures open < close <= |text|
    ensures close < |text| ==> Candidate(depthAt, inCode, text, open, close)
    ensures forall k :: open < k < close ==> !Candidate(depthAt, inCode, text, open, k)
  {
    var target := depthAt[open] - 1;
    for j := open + 1 to |text|
      invariant forall k :: open < k < j ==> !Candidate(depthAt, inCode, text, open, k)
    {
      if inCode[j] && text[j] == '}' && depthAt[j] == target {
        return j;
      }
    }
    return |text|;
  }

  /** `close` is the partner of the brace at `open` by counting alone: the balance after the
      opening brace never falls below its value there until `close`, where it does; or it never
      does and `close` is the end of the text. */
  ghost predicate IsPartner(text: string, marks: seq<Mark>, open: nat, close: nat)
    requires open < close <= |text| == |marks|
  {
    && (forall k :: open < k <= close ==> Balance(text, marks, k) >= Balance(text, marks, open + 1))
    && (close < |text| ==> Balance(text, marks, close + 1) == Balance(text, marks, open + 1) - 1)
  }

  lemma {:induction false} PartnerIsUnique(text: string, marks: seq<Mark>, open: nat, j: nat, k: nat)
    requires open < j <= |text| == |marks| && open < k <= |text|
    requires IsPartner(text, marks, open, j) && IsPartner(text, marks, open, k)
    ensures j == k
  {
  }

  /** Nothing strictly between `open` and `close` is a code `}` just below the opening depth. */
  ghost predicate NoneBetween(text: string, marks: seq<Mark>, open: nat, close: nat)
    requires open < close <= |text| == |marks|
  {
    forall j :: open < j < close ==> !(marks[j].code && text[j] == '}' && marks[j].depth == marks[open].depth - 1)
  }

  lemma {:induction false} DepthStaysUp(text: string, marks: seq<Mark>, open: nat, close: nat, k: nat)
    requires open <= k < close <= |text| == |marks| && WellMarked(0, text, marks)
    requires NoneBetween(text, marks, open, close)
    ensures marks[k].depth >= marks[open].depth
  {
    if k > open {
      DepthStaysUp(text, marks, open, close, k - 1);
      NeighbouringDepths(0, text, marks, k);
    }
  }

  lemma {:induction false} BalanceStaysUp(text: string, marks: seq<Mark>, open: nat, close: nat, k: nat)
    requires open <= k < close <= |text| == |marks| && WellMarked(0, text, marks)
    requires NoneBetween(text, marks, open, close) && text[open] == '{'
    ensures Balance(text, marks, k + 1) >= Balance(text, marks, open + 1)
  {
    DepthIsBalance(0, text, marks, open);
    DepthIsBalance(0, text, marks, k);
    DepthStaysUp(text, marks, open, close, k);
    if OpensHole(0, text, marks, k) {
      DepthStaysUp(text, marks, open, close, k - 1);
      DepthIsBalance(0, text, marks, k - 1);
    }
  }

  lemma {:induction false} FoundIsPartner(text: string, marks: seq<Mark>, open: nat, close: nat)
    requires open < close <= |text| == |marks| && WellMarked(0, text, marks)
    requires text[open] == '{' && NoneBetween(text, marks, open, close)
    requires close < |text| ==>
               marks[close].code && text[close] == '}' && marks[close].depth == marks[open].depth - 1
    ensures IsPartner(text, marks, open, close)
  {
    forall k | open < k <= close ensures Balance(text, marks, k) >= Balance(text, marks, open + 1) {
      BalanceStaysUp(text, marks, open, close, k - 1);
    }
    DepthIsBalance(0, text, marks, open);
    if close < |text| {
      DepthIsBalance(0, text, marks, close);
    }
  }

  /** On any text, from a code `{`, the search over the scanner's marks returns the partner. */
  lemma {:induction false} MatchingCloseIsPartner(text: string, marks: seq<Mark>, open: nat, close: nat)
    requires open < close <= |text| == |marks| && marks == Lex(START, text).marks
    requires text[open] == '{' && marks[open].code
    requires NoneBetween(text, marks, open, close)
    requires close < |text| ==>
               marks[close].code && text[close] == '}' && marks[close].depth == marks[open].depth - 1
    ensures IsPartner(text, marks, open, close)
  {
    LexIsWellMarked(START, text);
    FoundIsPartner(text, marks, open, close);
  }

  /** The two passes together: the brace has one partner, and this is it. */
  method MatchingBrace(text: string, open: nat) returns (close: nat)
    requires open < |text|
    requires text[open] == '{' && Lex(START, text).marks[open].code
    ensures open < close <= |text|
    ensures forall other | open < other <= |text| ::
              IsPartner(text, Lex(START, text).marks, open, other) <==> other == close
  {
    var depthAt, parenAt, inCode := ComputeDepthAndCodeMask(text);
    close := FindMatchingClose(depthAt[..], inCode[..], text, open);
    ghost var marks := Lex(START, text).marks;
    forall k | open < k < close
      ensures !(marks[k].code && text[k] == '}' && marks[k].depth == marks[open].depth - 1)
    {
      assert !Candidate(depthAt[..], inCode[..], text, open, k);
    }
    MatchingCloseIsPartner(text, marks, open, close);
    forall other | open < other <= |text| && IsPartner(text, marks, open, other) ensures other == close {
      PartnerIsUnique(text, marks, open, other, close);
    }
  }
}
