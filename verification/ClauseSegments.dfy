/** Clause segments on top of the document reader's elements: which stretch of text each numbered
    clause covers, and the clause rows stored from the model's labels. */
module ClauseSegments {
  import opened Options
  import opened Positions
  import opened Text

  datatype Kind = Clause | Heading | PageArtifact | Other

  /** An element of the reader, in document order; a missing text is an empty one. */
  datatype Element = Element(
    kind: Kind, level: Option<nat>, number: Option<string>, text: string, charStart: Option<nat>, charEnd: Option<nat>)

  datatype Segment = Segment(
    id: string, level: nat, number: Option<string>, heading: string, start: nat, end: nat, excerpt: string)

  const MAX_SEGMENTS := 250
  const EXCERPT_CHARS := 300
  const HEADING_CHARS := 140

  // ---- the heading and the excerpt ----

  /** Where Python's `str.splitlines` ends a line. */
  predicate EndsLine(c: char) {
    '\U{A}' <= c <= '\U{D}' || '\U{1C}' <= c <= '\U{1E}' || c == '\U{85}' || c == '\U{2028}' || c == '\U{2029}'
  }

  function UpToLineEnd(s: string): string {
    if s == "" || EndsLine(s[0]) then "" else [s[0]] + UpToLineEnd(s[1..])
  }

  function Take(s: string, n: nat): string {
    if |s| <= n then s else s[..n]
  }

  function FirstLine(text: string): string {
    Take(UpToLineEnd(Strip(IsPySpace, text)), HEADING_CHARS)
  }

  /** Python's `text.split()`; `word` is the word being read. */
  function Words(text: string, word: string): seq<string> {
    if text == "" then (if word == "" then [] else [word])
    else if IsPySpace(text[0]) then (if word == "" then [] else [word]) + Words(text[1..], "")
    else Words(text[1..], word + [text[0]])
  }

  function Excerpt(text: string, start: nat, end: nat): string {
    Take(Join(Words(Slice(text, start, end), ""), " "), EXCERPT_CHARS)
  }

  predicate OneLine(s: string) {
    forall k :: 0 <= k < |s| ==> !EndsLine(s[k])
  }

  lemma {:induction false} UpToLineEndIsOneLine(s: string)
    ensures OneLine(UpToLineEnd(s))
  {
    if s != "" && !EndsLine(s[0]) {
      UpToLineEndIsOneLine(s[1..]);
    }
  }

  /** A heading is one line of at most 140 characters, and it is empty only for a blank text. */
  lemma {:induction false} HeadingIsLine(text: string)
    ensures OneLine(FirstLine(text)) && |FirstLine(text)| <= HEADING_CHARS
    ensures FirstLine(text) == "" <==> Strip(IsPySpace, text) == ""
  {
    UpToLineEndIsOneLine(Strip(IsPySpace, text));
  }

  lemma {:induction false} UpToLineEndIsFirst(s: string)
    ensures var line := UpToLineEnd(s); line <= s && (line == s || EndsLine(s[|line|]))
  {
    if s != "" && !EndsLine(s[0]) {
      UpToLineEndIsFirst(s[1..]);
    }
  }

  /** It is the characters from the first that is no white space: 140 of them, or fewer when a line or the text but
      for white space ends there. */
  lemma {:induction false} HeadingMeans(text: string) returns (i: nat, n: nat)
    ensures i + n <= |text| && FirstLine(text) == text[i..i + n]
    ensures forall k :: 0 <= k < i ==> IsPySpace(text[k])
    ensures n > 0 ==> !IsPySpace(text[i])
    ensures n < 140 && i + n < |text| && !EndsLine(text[i + n])
            ==> forall k :: i + n <= k < |text| ==> IsPySpace(text[k])
  {
    var j;
    i, j := StripMeans(IsPySpace, text);
    n := |FirstLine(text)|;
    FirstOf(text[i..j]);
    assert text[i..j][..n] == text[i..i + n];
    if n < 140 && i + n < j {
      assert text[i..j][n] == text[i + n];
    }
  }

  lemma {:induction false} FirstOf(stripped: string)
    ensures var line := Take(UpToLineEnd(stripped), HEADING_CHARS);
            line <= stripped && (|line| == HEADING_CHARS || line == stripped || EndsLine(stripped[|line|]))
  {
    UpToLineEndIsFirst(stripped);
  }

  predicate Solid(s: string) {
    s != "" && forall k :: 0 <= k < |s| ==> !IsPySpace(s[k])
  }

  /** White space is single spaces, none of them first. */
  predicate Tight(s: string) {
    forall k :: 0 <= k < |s| && IsPySpace(s[k]) ==> s[k] == ' ' && k > 0 && !IsPySpace(s[k - 1])
  }

  lemma {:induction false} WordsAreSolid(text: string, word: string)
    requires word == "" || Solid(word)
    ensures forall w :: w in Words(text, word) ==> Solid(w)
  {
    if text != "" {
      WordsAreSolid(text[1..], if IsPySpace(text[0]) then "" else word + [text[0]]);
    }
  }

  lemma {:induction false} WordsApartFrom(a: string, word: string, c: char, b: string)
    requires IsPySpace(c)
    ensures Words(a + [c] + b, word) == Words(a, word) + Words(b, "")
  {
    var s := a + [c] + b;
    if a == "" {
      assert s[1..] == b;
    } else {
      assert s[0] == a[0] && s[1..] == a[1..] + [c] + b;
      if IsPySpace(a[0]) {
        WordsApartFrom(a[1..], "", c, b);
        SumIsAssociative(if word == "" then [] else [word], Words(a[1..], ""), Words(b, ""));
      } else {
        WordsApartFrom(a[1..], word + [a[0]], c, b);
      }
    }
  }

  lemma {:induction false} WordGrows(s: string, word: string)
    requires s == "" || Solid(s)
    ensures Words(s, word) == if word + s == "" then [] else [word + s]
  {
    if s == "" {
      assert word + s == word;
    } else {
      WordGrows(s[1..], word + [s[0]]);
      assert word + [s[0]] + s[1..] == word + s;
    }
  }

  /** White space separates words, and what has none is one word. */
  lemma {:induction false} WordsMean(a: string, c: char, b: string)
    ensures IsPySpace(c) ==> Words(a + [c] + b, "") == Words(a, "") + Words(b, "")
    ensures Solid(a) ==> Words(a, "") == [a]
    ensures Words("", "") == []
  {
    if IsPySpace(c) {
      WordsApartFrom(a, "", c, b);
    }
    if Solid(a) {
      WordGrows(a, "");
      assert "" + a == a;
    }
  }

  lemma {:induction false} JoinIsTight(words: seq<string>)
    requires forall w :: w in words ==> Solid(w)
    ensures Tight(Join(words, " ")) && (words != [] ==> Join(words, " ") != "" && !IsPySpace(Join(words, " ")[0]))
  {
    if |words| > 1 {
      JoinIsTight(words[1..]);
      assert words[0] in words;
      TightSum(words[0], Join(words[1..], " "));
    } else if |words| == 1 {
      assert words[0] in words;
    }
  }

  lemma {:induction false} TightSum(word: string, rest: string)
    requires Solid(word) && Tight(rest) && rest != "" && !IsPySpace(rest[0])
    ensures Tight(word + " " + rest) && !IsPySpace((word + " " + rest)[0])
  {
    var s, n := word + " " + rest, |word|;
    forall k | 0 <= k < |s| && IsPySpace(s[k]) ensures s[k] == ' ' && k > 0 && !IsPySpace(s[k - 1]) {
      if k > n {
        assert s[k] == rest[k - n - 1] && (k > n + 1 ==> s[k - 1] == rest[k - n - 2]);
      }
    }
  }

  /** An excerpt is at most 300 characters of words separated by single spaces. */
  lemma {:induction false} ExcerptIsTight(text: string, start: nat, end: nat)
    ensures Tight(Excerpt(text, start, end)) && |Excerpt(text, start, end)| <= EXCERPT_CHARS
  {
    var words := Words(Slice(text, start, end), "");
    WordsAreSolid(Slice(text, start, end), "");
    JoinIsTight(words);
  }

  // ---- the segments ----

  predicate IsSegmentKind(e: Element) {
    e.kind == Clause || e.kind == Heading
  }

  /** A missing level, and level zero, count as one. */
  function Level(e: Element): (level: nat)
    ensures level >= 1
  {
    if e.level.Some? && e.level.value != 0 then e.level.value else 1
  }

  predicate InBody(e: Element) {
    e.kind != PageArtifact && e.charStart.Some?
  }

  function Body(elements: seq<Element>): (body: seq<Element>)
    ensures forall i :: 0 <= i < |body| ==> InBody(body[i])
  {
    if elements == [] then []
    else (if InBody(elements[0]) then [elements[0]] else []) + Body(elements[1..])
  }

  function Start(e: Element): nat {
    if e.charStart.Some? then e.charStart.value else 0
  }

  /** Where an element's own text ends: a missing or zero end offset does not move the end. */
  function EndOr(e: Element, fallback: nat): nat {
    if e.charEnd.Some? && e.charEnd.value != 0 then e.charEnd.value else fallback
  }

  function Max(a: nat, b: nat): nat {
    if a < b then b else a
  }

  /** The index that closes the segment opened at `i`: the next clause or heading at its level or
      above, or the end of the body. */
  function Stop(body: seq<Element>, i: nat, j: nat): (stop: nat)
    requires i < j <= |body|
    ensures j <= stop <= |body|
    decreases |body| - j
  {
    if j == |body| || (IsSegmentKind(body[j]) && Level(body[j]) <= Level(body[i])) then j
    else Stop(body, i, j + 1)
  }

  /** The largest end among the elements from `i` up to `stop`. */
  function SpanEnd(body: seq<Element>, i: nat, stop: nat): nat
    requires i < stop <= |body|
  {
    if stop == i + 1 then EndOr(body[i], Start(body[i]))
    else
      var before := SpanEnd(body, i, stop - 1);
      Max(before, EndOr(body[stop - 1], before))
  }

  /** Where the segment opened at `i` ends. */
  function EndOf(body: seq<Element>, i: nat): nat
    requires i < |body|
  {
    SpanEnd(body, i, Stop(body, i, i + 1))
  }

  /** The segment opened at `i`, the `n`th one offered. */
  function SegmentAt(body: seq<Element>, i: nat, n: nat, text: string): Segment
    requires i < |body|
  {
    var start, end := Start(body[i]), EndOf(body, i);
    Segment("S" + Decimal(n), Level(body[i]), body[i].number, FirstLine(body[i].text), start, end,
            Excerpt(text, start, end))
  }

  ghost predicate IsSegmentAt(segment: Segment, body: seq<Element>, i: nat, n: nat, text: string) {
    i < |body| && segment == SegmentAt(body, i, n, text)
  }

  /** The indices of the clauses and headings up to `depth`, in order. */
  function Candidates(body: seq<Element>, depth: nat, n: nat): (r: seq<nat>)
    requires n <= |body|
    ensures forall k :: 0 <= k < |r| ==> r[k] < n
  {
    if n == 0 then []
    else
      var before := Candidates(body, depth, n - 1);
      if IsSegmentKind(body[n - 1]) && Level(body[n - 1]) <= depth then before + [n - 1] else before
  }

  /** They are exactly those, each once and in order. */
  lemma {:induction false} CandidateFacts(body: seq<Element>, depth: nat, n: nat)
    requires n <= |body|
    ensures var r := Candidates(body, depth, n);
            && (forall k, m :: 0 <= k < m < |r| ==> r[k] < r[m])
            && (forall i: nat :: i in r <==> i < n && IsSegmentKind(body[i]) && Level(body[i]) <= depth)
  {
    if n > 0 {
      CandidateFacts(body, depth, n - 1);
    }
  }

  /** Levels one and two, or level one alone when those are too many. */
  function Offered(body: seq<Element>): (r: seq<nat>)
    ensures forall k :: 0 <= k < |r| ==> r[k] < |body|
  {
    var both := Candidates(body, 2, |body|);
    if |both| > MAX_SEGMENTS then Candidates(body, 1, |body|) else both
  }

  method SegmentsFromElements(elements: seq<Element>, text: string) returns (out: seq<Segment>)
    ensures var body := Body(elements);
            var offered := Offered(body);
            |out| == |offered| && forall k :: 0 <= k < |out| ==> IsSegmentAt(out[k], body, offered[k], k + 1, text)
  {
    var body := Body(elements);
    var cands := FindCandidates(body, 2);
    if |cands| > MAX_SEGMENTS {
      cands := FindCandidates(body, 1);
    }
    out := MakeSegments(body, cands, text);
  }

  method MakeSegments(body: seq<Element>, cands: seq<nat>, text: string) returns (out: seq<Segment>)
    requires forall k :: 0 <= k < |cands| ==> cands[k] < |body|
    ensures |out| == |cands| && forall k :: 0 <= k < |out| ==> IsSegmentAt(out[k], body, cands[k], k + 1, text)
  {
    out := [];
    for n := 0 to |cands|
      invariant |out| == n
      invariant forall k :: 0 <= k < n ==> IsSegmentAt(out[k], body, cands[k], k + 1, text)
    {
      var segment := MakeSegment(body, cands[n], n + 1, text);
      out := out + [segment];
    }
  }

  method MakeSegment(body: seq<Element>, i: nat, n: nat, text: string) returns (segment: Segment)
    requires i < |body|
    ensures IsSegmentAt(segment, body, i, n, text)
  {
    var start := Start(body[i]);
    var end := FindEnd(body, i);
    segment := Segment("S" + Decimal(n), Level(body[i]), body[i].number, FirstLine(body[i].text), start, end,
                       Excerpt(text, start, end));
  }

  /** The inner loop: raise the end until a clause or heading at this level or above. */
  method FindEnd(body: seq<Element>, i: nat) returns (end: nat)
    requires i < |body|
    ensures end == SpanEnd(body, i, Stop(body, i, i + 1))
  {
    end := EndOr(body[i], Start(body[i]));
    var j := i + 1;
    while j < |body| && !(IsSegmentKind(body[j]) && Level(body[j]) <= Level(body[i]))
      invariant i < j <= |body| && Stop(body, i, j) == Stop(body, i, i + 1)
      invariant end == SpanEnd(body, i, j)
    {
      end := Max(end, EndOr(body[j], end));
      j := j + 1;
    }
  }

  method FindCandidates(body: seq<Element>, depth: nat) returns (cands: seq<nat>)
    ensures cands == Candidates(body, depth, |body|)
  {
    cands := [];
    for i := 0 to |body|
      invariant cands == Candidates(body, depth, i)
    {
      if IsSegmentKind(body[i]) && Level(body[i]) <= depth {
        cands := cands + [i];
      }
    }
  }

  // ---- the segments in the reader's terms ----

  /** The body is the elements that are no page furniture and have a start, in order. */
  lemma {:induction false} BodyAt(elements: seq<Element>, i: nat) returns (at: seq<nat>)
    requires i <= |elements|
    ensures Picks(elements, i, Body(elements[i..]), at)
    ensures forall j {:trigger j in at} :: i <= j < |elements| ==>
              (j in at <==> !elements[j].kind.PageArtifact? && elements[j].charStart != None)
    decreases |elements| - i
  {
    at := [];
    if i < |elements| {
      at := BodyAt(elements, i + 1);
      assert elements[i..][1..] == elements[i + 1..];
      PicksCons(elements, i, Body(elements[i + 1..]), at);
      if InBody(elements[i]) {
        at := [i] + at;
      }
    }
  }

  /** Offered are all clauses and headings of level one or two, or those of level one alone when more than 250 of
      them would be; a missing level and level zero count as one. */
  lemma {:induction false} OfferedMeans(body: seq<Element>) returns (both: seq<nat>)
    ensures Rising(both, 0, |body|) && Rising(Offered(body), 0, |body|)
    ensures forall i: nat :: i in both <==>
              && i < |body| && (body[i].kind == Clause || body[i].kind == Heading)
              && (body[i].level == None || body[i].level.value <= 2)
    ensures |both| <= 250 ==> Offered(body) == both
    ensures |both| > 250 ==> forall i: nat :: i in Offered(body) <==>
              && i < |body| && (body[i].kind == Clause || body[i].kind == Heading)
              && (body[i].level == None || body[i].level.value <= 1)
  {
    both := Candidates(body, 2, |body|);
    CandidateFacts(body, 2, |body|);
    CandidateFacts(body, 1, |body|);
  }

  /** What a segment covers, in any body: the elements behind its own up to `stop`, the first clause or heading of
      its level or above; it ends at the largest end among them, or at its own start when that is larger for want
      of an end of its own. */
  lemma {:induction false} SegmentMeans(body: seq<Element>, i: nat, n: nat, text: string) returns (stop: nat)
    requires i < |body| && body[i].charStart.Some?
    ensures i < stop <= |body|
    ensures forall j :: i < j < stop ==> !IsSegmentKind(body[j]) || Level(body[j]) > Level(body[i])
    ensures stop < |body| ==> IsSegmentKind(body[stop]) && Level(body[stop]) <= Level(body[i])
    ensures var s := SegmentAt(body, i, n, text);
            && s.id == "S" + Decimal(n) && s.number == body[i].number && s.level == Level(body[i])
            && s.heading == FirstLine(body[i].text) && s.start == body[i].charStart.value
            && s.excerpt == Excerpt(text, s.start, s.end) && IsLargestEnd(body, i, stop, s.end)
  {
    stop := Stop(body, i, i + 1);
    StopFacts(body, i, i + 1);
    LargestEnd(body, i, stop);
  }

  /** `end` is the largest end offset from element `i` up to `stop`; missing and zero ones do not count, and the
      first element's start stands in for its own. */
  ghost predicate IsLargestEnd(body: seq<Element>, i: nat, stop: nat, end: nat)
    requires i < stop <= |body|
  {
    && (forall k :: i <= k < stop && body[k].charEnd.Some? ==> body[k].charEnd.value <= end)
    && (HasEnd(body[i]) || Start(body[i]) <= end)
    && ((!HasEnd(body[i]) && end == Start(body[i])) || exists k :: i <= k < stop && body[k].charEnd == Some(end))
  }

  lemma {:induction false} LargestEnd(body: seq<Element>, i: nat, stop: nat)
    requires i < stop <= |body|
    ensures IsLargestEnd(body, i, stop, SpanEnd(body, i, stop))
  {
    var end := SpanEnd(body, i, stop);
    if stop == i + 1 {
      assert HasEnd(body[i]) ==> body[i].charEnd == Some(end);
    } else {
      LargestEnd(body, i, stop - 1);
      assert HasEnd(body[stop - 1]) && end != SpanEnd(body, i, stop - 1) ==> body[stop - 1].charEnd == Some(end);
    }
  }

  // ---- the segments form a laminar family ----

  /** The elements follow each other in the text without overlapping. */
  ghost predicate InTextOrder(body: seq<Element>) {
    && (forall i :: 0 <= i < |body| ==> Start(body[i]) <= EndOr(body[i], Start(body[i])))
    && (forall i, j :: 0 <= i < j < |body| ==> EndOr(body[i], Start(body[i])) <= Start(body[j]))
  }

  lemma {:induction false} StopFacts(body: seq<Element>, i: nat, j: nat)
    requires i < j <= |body|
    ensures var stop := Stop(body, i, j);
            && (forall k :: j <= k < stop ==> !(IsSegmentKind(body[k]) && Level(body[k]) <= Level(body[i])))
            && (stop < |body| ==> IsSegmentKind(body[stop]) && Level(body[stop]) <= Level(body[i]))
    decreases |body| - j
  {
    if j < |body| && !(IsSegmentKind(body[j]) && Level(body[j]) <= Level(body[i])) {
      StopFacts(body, i, j + 1);
    }
  }

  predicate HasEnd(e: Element) {
    e.charEnd.Some? && e.charEnd.value != 0
  }

  /** The end of a span is at least the end of its first element and of each one that has an end,
      and in text order it is at most where the next element starts. */
  lemma {:induction false} SpanEndFacts(body: seq<Element>, i: nat, stop: nat)
    requires i < stop <= |body| && InTextOrder(body)
    ensures forall k :: i <= k < stop && (k == i || HasEnd(body[k]))
              ==> EndOr(body[k], Start(body[k])) <= SpanEnd(body, i, stop)
    ensures forall k :: stop <= k < |body| ==> SpanEnd(body, i, stop) <= Start(body[k])
  {
    if stop > i + 1 {
      SpanEndFacts(body, i, stop - 1);
    }
  }

  /** Some element attains the end of a span: one that has an end, or the first one's start. */
  lemma {:induction false} SpanEndReached(body: seq<Element>, i: nat, stop: nat)
    requires i < stop <= |body| && InTextOrder(body)
    ensures SpanEnd(body, i, stop) == Start(body[i])
            || exists k :: i <= k < stop && HasEnd(body[k]) && SpanEnd(body, i, stop) == EndOr(body[k], Start(body[k]))
  {
    if stop == i + 1 {
      assert SpanEnd(body, i, stop) == EndOr(body[i], Start(body[i]));
    } else {
      SpanEndReached(body, i, stop - 1);
    }
  }

  /** Some element of the segment opened at `i` has an end at or behind the start of the element at `m`. */
  ghost predicate Reaches(body: seq<Element>, i: nat, m: nat)
    requires m < |body| && i < |body|
  {
    exists k :: i <= k < Stop(body, i, i + 1) && HasEnd(body[k]) && Start(body[m]) <= body[k].charEnd.value
  }

  /** Of two segments, the later one opened at `j` starts inside the earlier one, at a strictly
      deeper level, if it opens before that one is closed; otherwise it lies behind it. Opened inside, it ends
      inside exactly if it starts where the earlier one does or some element of that one reaches its start;
      if not, it is an empty stretch behind it. */
  lemma {:induction false} SegmentsAreLaminar(body: seq<Element>, i: nat, j: nat, m: nat, n: nat, text: string)
    requires i < j < |body| && InTextOrder(body) && IsSegmentKind(body[j])
    ensures var a, b := SegmentAt(body, i, m, text), SegmentAt(body, j, n, text);
            && (j >= Stop(body, i, i + 1) ==> a.end <= b.start)
            && (j < Stop(body, i, i + 1) ==>
                  && a.level < b.level && a.start <= b.start
                  && (b.end <= a.end <==> b.start == a.start || Reaches(body, i, j))
                  && (b.end > a.end ==> a.end < b.start == b.end && !HasEnd(body[j])))
  {
    StopFacts(body, i, i + 1);
    SpanEndFacts(body, i, Stop(body, i, i + 1));
    if j < Stop(body, i, i + 1) {
      InnerStop(body, i, j);
      InnerEnd(body, i, j);
      InnerEndsInsideIff(body, i, j);
    }
  }

  lemma {:induction false} InnerEndsInsideIff(body: seq<Element>, i: nat, j: nat)
    requires i < j < |body| && j < Stop(body, i, i + 1) && InTextOrder(body)
    requires Stop(body, j, j + 1) <= Stop(body, i, i + 1)
    ensures EndOf(body, j) <= EndOf(body, i) <==> Start(body[j]) == Start(body[i]) || Reaches(body, i, j)
  {
    SpanEndFacts(body, i, Stop(body, i, i + 1));
    SpanEndFacts(body, j, Stop(body, j, j + 1));
    SpanEndReached(body, i, Stop(body, i, i + 1));
    InnerEnd(body, i, j);
    assert Start(body[i]) <= Start(body[j]) <= EndOf(body, j);
  }

  /** A clause without an end offset behind the end of the section it is opened in. */
  lemma {:induction false} EmptyStretch(start: nat)
    requires start > 3
    ensures var body := [Element(Heading, Some(1), None, "", Some(0), Some(3)),
                         Element(Clause, Some(2), None, "", Some(start), None)];
            && InTextOrder(body) && Stop(body, 0, 1) == 2
            && EndOf(body, 0) == 3 && EndOf(body, 1) == Start(body[1]) == start
  {
    var body := [Element(Heading, Some(1), None, "", Some(0), Some(3)),
                 Element(Clause, Some(2), None, "", Some(start), None)];
    assert Stop(body, 0, 1) == Stop(body, 0, 2) == 2 && Stop(body, 1, 2) == 2;
    assert SpanEnd(body, 0, 1) == 3 && SpanEnd(body, 0, 2) == 3 && SpanEnd(body, 1, 2) == start;
  }

  /** A segment opened inside another is closed no later. */
  lemma {:induction false} InnerStop(body: seq<Element>, i: nat, j: nat)
    requires i < j < |body| && j < Stop(body, i, i + 1) && IsSegmentKind(body[j])
    ensures Level(body[i]) < Level(body[j]) && Stop(body, j, j + 1) <= Stop(body, i, i + 1)
  {
    StopFacts(body, i, i + 1);
    StopFacts(body, j, j + 1);
  }

  lemma {:induction false} InnerEnd(body: seq<Element>, i: nat, j: nat)
    requires i < j < |body| && j < Stop(body, i, i + 1) && InTextOrder(body)
    requires Stop(body, j, j + 1) <= Stop(body, i, i + 1)
    ensures EndOf(body, j) <= EndOf(body, i)
            || (EndOf(body, i) < Start(body[j]) == EndOf(body, j) && !HasEnd(body[j]))
  {
    var outer, inner := Stop(body, i, i + 1), Stop(body, j, j + 1);
    SpanEndFacts(body, i, outer);
    SpanEndReached(body, j, inner);
    if EndOf(body, j) != Start(body[j]) {
      var k :| j <= k < inner && HasEnd(body[k]) && EndOf(body, j) == EndOr(body[k], Start(body[k]));
    }
  }

  predicate IsSection(body: seq<Element>, i: nat)
    requires i < |body|
  {
    IsSegmentKind(body[i]) && Level(body[i]) == 1
  }

  /** The last level-one clause or heading at or before `m`. */
  function Section(body: seq<Element>, m: nat): Option<nat>
    requires m < |body|
  {
    if IsSection(body, m) then Some(m)
    else if m == 0 then None
    else Section(body, m - 1)
  }

  lemma {:induction false} SectionFacts(body: seq<Element>, m: nat)
    requires m < |body|
    ensures var s := Section(body, m);
            && (s.Some? ==> s.value <= m && IsSection(body, s.value))
            && (forall k :: (if s.Some? then s.value else -1) < k <= m ==> !IsSection(body, k))
  {
    if !IsSection(body, m) && m > 0 {
      SectionFacts(body, m - 1);
    }
  }

  /** Whether or not level two is dropped, the level-one sections are offered, each once. */
  lemma {:induction false} SectionsAreOffered(body: seq<Element>, i: nat)
    requires i < |body| && IsSection(body, i)
    ensures i in Offered(body)
    ensures forall k, m :: 0 <= k < m < |Offered(body)| ==> Offered(body)[k] < Offered(body)[m]
  {
    CandidateFacts(body, 2, |body|);
    CandidateFacts(body, 1, |body|);
  }

  /** The element at `m` lies in the span of the segment opened at `i`. */
  predicate LiesIn(body: seq<Element>, m: nat, i: nat)
    requires m < |body| && i < |body|
  {
    Start(body[i]) <= Start(body[m]) && EndOr(body[m], Start(body[m])) <= EndOf(body, i)
  }

  /** The two stretches of text have no character in common. */
  predicate Apart(body: seq<Element>, m: nat, i: nat)
    requires m < |body| && i < |body|
  {
    EndOf(body, i) <= Start(body[m]) || EndOr(body[m], Start(body[m])) <= Start(body[i])
  }

  /** Every element from the first section on belongs to one level-one section, which is offered, and is
      apart from every other one. One with an end always lies in its own section. In general it does exactly
      if it starts where the section does or some element of the section reaches its start. */
  lemma {:induction false} ElementInOneSection(body: seq<Element>, m: nat, f: nat)
    requires f <= m < |body| && InTextOrder(body) && IsSection(body, f)
    ensures var s := Section(body, m);
            && s.Some? && s.value < |body| && IsSection(body, s.value) && s.value in Offered(body)
            && (HasEnd(body[m]) ==> LiesIn(body, m, s.value))
            && (LiesIn(body, m, s.value) <==> Start(body[m]) == Start(body[s.value]) || Reaches(body, s.value, m))
            && forall i :: 0 <= i < |body| && i != s.value && IsSection(body, i) ==> Apart(body, m, i)
  {
    SectionFacts(body, m);
    var s := Section(body, m).value;
    SectionsAreOffered(body, s);
    OwnSection(body, m, s);
    forall i | 0 <= i < |body| && i != s && IsSection(body, i) ensures Apart(body, m, i) {
      OtherSectionApart(body, m, s, i);
    }
  }

  lemma {:induction false} OwnSection(body: seq<Element>, m: nat, s: nat)
    requires s <= m < |body| && InTextOrder(body) && IsSection(body, s)
    requires forall k :: s < k <= m ==> !IsSection(body, k)
    ensures HasEnd(body[m]) ==> LiesIn(body, m, s)
    ensures LiesIn(body, m, s) <==> Start(body[m]) == Start(body[s]) || Reaches(body, s, m)
  {
    StopFacts(body, s, s + 1);
    var stop := Stop(body, s, s + 1);
    assert m < stop by {
      if stop <= m {
        assert IsSection(body, stop);
      }
    }
    SpanEndFacts(body, s, stop);
    SpanEndReached(body, s, stop);
    assert Start(body[s]) <= Start(body[m]);
  }

  /** An element without an end that lies outside its section: a paragraph behind the section's last end. */
  lemma {:induction false} EndlessOutside(start: nat)
    requires start > 0
    ensures var body := [Element(Heading, None, None, "", Some(0), None),
                         Element(Other, None, None, "", Some(start), None)];
            InTextOrder(body) && Section(body, 1) == Some(0) && !LiesIn(body, 1, 0)
  {
    var body := [Element(Heading, None, None, "", Some(0), None),
                 Element(Other, None, None, "", Some(start), None)];
    assert Stop(body, 0, 1) == Stop(body, 0, 2) == 2;
    assert SpanEnd(body, 0, 1) == 0 && SpanEnd(body, 0, 2) == 0;
  }

  lemma {:induction false} OtherSectionApart(body: seq<Element>, m: nat, s: nat, i: nat)
    requires s <= m < |body| && InTextOrder(body) && i < |body| && i != s && IsSection(body, i) && IsSection(body, s)
    requires forall k :: s < k <= m ==> !IsSection(body, k)
    ensures Apart(body, m, i)
  {
    if i < s {
      StopFacts(body, i, i + 1);
      SpanEndFacts(body, i, Stop(body, i, i + 1));
    } else {
      assert i > m;
    }
  }

  // ---- the stored rows ----

  datatype LabelOf = LabelOf(segmentId: string, clauseType: string, confidence: real)

  datatype Row = Row(clauseType: string, heading: string, text: string, start: nat, end: nat, confidence: real)

  /** The row of a label that names the segment `s`. */
  function RowOf(lab: LabelOf, s: Segment, text: string): Row {
    Row(lab.clauseType, s.heading, Slice(text, s.start, s.end), s.start, s.end, lab.confidence)
  }

  /** Python's `text[start:end]`. */
  function Slice(text: string, start: nat, end: nat): string {
    var to := if end < |text| then end else |text|;
    if start < to then text[start..to] else ""
  }

  /** A stored text is the segment's characters, from its start to its end or the end of the text. */
  lemma {:induction false} RowText(lab: LabelOf, s: Segment, text: string)
    ensures var row := RowOf(lab, s, text);
            && row.start == s.start && row.end == s.end && row.heading == s.heading
            && row.clauseType == lab.clauseType && row.confidence == lab.confidence
            && (s.start < s.end <= |text| ==> |row.text| == s.end - s.start)
            && (s.start < |text| < s.end ==> |row.text| == |text| - s.start)
            && (s.end <= s.start || |text| <= s.start ==> row.text == "")
            && (forall k :: 0 <= k < |row.text| ==> row.text[k] == text[s.start + k])
  {
  }

  /** The position of the segment a label names. */
  function Named(segments: seq<Segment>, id: string): Option<nat> {
    if segments == [] then None
    else if segments[|segments| - 1].id == Strip(IsPySpace, id) then Some(|segments| - 1)
    else Named(segments[..|segments| - 1], id)
  }

  /** The position of the first label that names segment `seg`. */
  function FirstMention(segments: seq<Segment>, labels: seq<LabelOf>, seg: nat): Option<nat> {
    if labels == [] then None
    else
      var n := |labels| - 1;
      var before := FirstMention(segments, labels[..n], seg);
      if before == None && Named(segments, labels[n].segmentId) == Some(seg) then Some(n) else before
  }

  /** A segment to store, and the label it takes its type from. */
  datatype Choice = Choice(seg: nat, from: nat)

  /** The first mention of every segment, in the order of the labels. */
  function Chosen(segments: seq<Segment>, labels: seq<LabelOf>): seq<Choice> {
    if labels == [] then []
    else
      var n := |labels| - 1;
      var before := Chosen(segments, labels[..n]);
      var seg := Named(segments, labels[n].segmentId);
      if seg.Some? && FirstMention(segments, labels[..n], seg.value) == None then before + [Choice(seg.value, n)]
      else before
  }

  lemma {:induction false} NamedFacts(segments: seq<Segment>, id: string)
    ensures var seg := Named(segments, id);
            && (seg.Some? ==> seg.value < |segments| && segments[seg.value].id == Strip(IsPySpace, id))
            && (seg == None ==> forall s :: s in segments ==> s.id != Strip(IsPySpace, id))
  {
    if segments != [] {
      NamedFacts(segments[..|segments| - 1], id);
    }
  }

  /** A segment of the list and the first label that names it. */
  predicate IsChoice(segments: seq<Segment>, labels: seq<LabelOf>, c: Choice) {
    c.seg < |segments| && c.from < |labels| && FirstMention(segments, labels, c.seg) == Some(c.from)
  }

  /** A segment is chosen at most once, exactly when a label names it, and from the first such label;
      unknown ids choose nothing. */
  lemma {:induction false} ChosenFacts(segments: seq<Segment>, labels: seq<LabelOf>)
    ensures var chosen := Chosen(segments, labels);
            && (forall r :: 0 <= r < |chosen| ==> IsChoice(segments, labels, chosen[r]))
            && (forall r, q :: 0 <= r < q < |chosen| ==>
                  chosen[r].from < chosen[q].from && chosen[r].seg != chosen[q].seg)
            && (forall seg: nat :: FirstMention(segments, labels, seg).Some? ==>
                  exists r :: 0 <= r < |chosen| && chosen[r].seg == seg)
  {
    if labels != [] {
      var n := |labels| - 1;
      var before, after := Chosen(segments, labels[..n]), Chosen(segments, labels);
      ChosenFacts(segments, labels[..n]);
      NamedFacts(segments, labels[n].segmentId);
      assert forall c :: IsChoice(segments, labels[..n], c) ==> IsChoice(segments, labels, c);
      assert forall r :: 0 <= r < |before| ==> after[r] == before[r] && IsChoice(segments, labels[..n], before[r]);
    }
    forall seg: nat | FirstMention(segments, labels, seg).Some?
      ensures exists r :: 0 <= r < |Chosen(segments, labels)| && Chosen(segments, labels)[r].seg == seg
    {
      var r := MentionIsChosen(segments, labels, seg);
    }
  }

  lemma {:induction false} MentionIsChosen(segments: seq<Segment>, labels: seq<LabelOf>, seg: nat) returns (r: nat)
    requires FirstMention(segments, labels, seg).Some?
    ensures r < |Chosen(segments, labels)| && Chosen(segments, labels)[r].seg == seg
  {
    var n := |labels| - 1;
    if FirstMention(segments, labels[..n], seg) == None {
      r := |Chosen(segments, labels[..n])|;
    } else {
      r := MentionIsChosen(segments, labels[..n], seg);
    }
  }

  /** The rows: each takes the exact text of its segment's own offsets. */
  method ClauseRows(segments: seq<Segment>, labels: seq<LabelOf>, text: string) returns (rows: seq<Row>)
    ensures var chosen := Chosen(segments, labels);
            |rows| == |chosen| && forall r :: 0 <= r < |rows| ==>
              && chosen[r].seg < |segments| && chosen[r].from < |labels|
              && rows[r] == RowOf(labels[chosen[r].from], segments[chosen[r].seg], text)
  {
    rows := [];
    var seen: set<nat> := {};
    for k := 0 to |labels|
      invariant var chosen := Chosen(segments, labels[..k]);
                |rows| == |chosen| && forall r :: 0 <= r < |rows| ==>
                  && chosen[r].seg < |segments| && chosen[r].from < |labels|
                  && rows[r] == RowOf(labels[chosen[r].from], segments[chosen[r].seg], text)
      invariant forall seg: nat :: seg in seen <==> FirstMention(segments, labels[..k], seg).Some?
    {
      assert labels[..k + 1][..k] == labels[..k];
      var seg := Named(segments, labels[k].segmentId);
      NamedFacts(segments, labels[k].segmentId);
      if seg.Some? && seg.value !in seen {
        var s := segments[seg.value];
        seen := seen + {seg.value};
        rows := rows + [Row(labels[k].clauseType, s.heading, Slice(text, s.start, s.end), s.start, s.end,
                            labels[k].confidence)];
      }
    }
    assert labels[..|labels|] == labels;
  }

  /** The ids of the offered segments are all different, so a label's id means one segment. */
  lemma {:induction false} SegmentIdsDiffer(body: seq<Element>, i: nat, j: nat, m: nat, n: nat, text: string)
    requires i < |body| && j < |body| && SegmentAt(body, i, m, text).id == SegmentAt(body, j, n, text).id
    ensures m == n
  {
    DecimalInjective("S", m, n);
  }
}
