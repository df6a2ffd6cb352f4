/** Base64 as section 4 of RFC 4648 defines it, and the pre-flight's test for it. */
module Base64 {
  import opened Options

  type Byte = n: nat | n < 256

  /** The character for each six-bit value, by the ranges of the standard alphabet. */
  function Letter(v: nat): (c: char)
    requires v < 64
    ensures IsLetter(c) && ValueOf(c) == v
  {
    if v < 26 then 'A' + v as char
    else if v < 52 then 'a' + (v - 26) as char
    else if v < 62 then '0' + (v - 52) as char
    else if v == 62 then '+'
    else '/'
  }

  predicate IsLetter(c: char) {
    'A' <= c <= 'Z' || 'a' <= c <= 'z' || '0' <= c <= '9' || c == '+' || c == '/'
  }

  function ValueOf(c: char): (v: nat)
    requires IsLetter(c)
    ensures v < 64
  {
    if 'A' <= c <= 'Z' then (c - 'A') as nat
    else if 'a' <= c <= 'z' then (c - 'a') as nat + 26
    else if '0' <= c <= '9' then (c - '0') as nat + 52
    else if c == '+' then 62
    else 63
  }

  type Sextet = n: nat | n < 64

  datatype Bits = Bits(w: Sextet, x: Sextet, y: Sextet, z: Sextet)

  /** One to three bytes cut into four six-bit values, with zero bits where there is no byte. */
  function Cut(b: seq<Byte>): Bits
    requires 1 <= |b| <= 3
  {
    var y, z: Byte := if |b| > 1 then b[1] else 0, if |b| > 2 then b[2] else 0;
    Bits(b[0] / 4, b[0] % 4 * 16 + y / 16, y % 16 * 4 + z / 64, z % 64)
  }

  /** The first `n` of the three bytes that four six-bit values hold. */
  function Glue(q: Bits, n: nat): (b: seq<Byte>)
    requires 1 <= n <= 3
    ensures |b| == n
  {
    var first, second, third := q.w * 4 + q.x / 16, q.x % 16 * 16 + q.y / 4, q.y % 4 * 64 + q.z;
    if n == 1 then [first] else if n == 2 then [first, second] else [first, second, third]
  }

  /** The four characters for `n` bytes: padding stands where no bit of a byte is left. */
  function Spell(q: Bits, n: nat): (g: string)
    ensures |g| == 4
  {
    [Letter(q.w), Letter(q.x), if n > 1 then Letter(q.y) else '=', if n > 2 then Letter(q.z) else '=']
  }

  function EncodeGroup(b: seq<Byte>): (g: string)
    requires 1 <= |b| <= 3
    ensures |g| == 4
  {
    Spell(Cut(b), |b|)
  }

  function Encode(b: seq<Byte>): string {
    if b == [] then ""
    else if |b| <= 3 then EncodeGroup(b)
    else EncodeGroup(b[..3]) + Encode(b[3..])
  }

  /** How many bytes a group of four characters holds, 0 when it is malformed; only the last group
      may be padded. */
  function BytesIn(g: string, last: bool): (n: nat)
    requires |g| == 4
    ensures n <= 3 && (!last ==> n == 0 || n == 3)
  {
    if !IsLetter(g[0]) || !IsLetter(g[1]) then 0
    else if g[2] == '=' && g[3] == '=' && last then 1
    else if !IsLetter(g[2]) then 0
    else if g[3] == '=' && last then 2
    else if IsLetter(g[3]) then 3
    else 0
  }

  function Read(g: string): Bits
    requires |g| == 4 && IsLetter(g[0]) && IsLetter(g[1])
  {
    Bits(ValueOf(g[0]), ValueOf(g[1]),
         if IsLetter(g[2]) then ValueOf(g[2]) else 0, if IsLetter(g[3]) then ValueOf(g[3]) else 0)
  }

  /** The bytes of one group; the bits a padded group does not use are dropped. */
  function DecodeGroup(g: string, last: bool): Option<seq<Byte>>
    requires |g| == 4
  {
    var n := BytesIn(g, last);
    if n == 0 then None else Some(Glue(Read(g), n))
  }

  /** Whole groups of four; only the last may be padded. */
  function Decode(s: string): Option<seq<Byte>> {
    if s == "" then Some([])
    else if |s| < 4 then None
    else
      var first, rest := DecodeGroup(s[..4], |s| == 4), Decode(s[4..]);
      if first.None? || rest.None? then None else Some(first.value + rest.value)
  }

  /** Letters followed by exactly `pads` equals signs. */
  predicate LettersThenPads(s: string, pads: nat) {
    && pads <= |s|
    && (forall i :: 0 <= i < |s| - pads ==> IsLetter(s[i]))
    && (forall i :: |s| - pads <= i < |s| ==> s[i] == '=')
  }

  predicate LettersAndPads(s: string) {
    LettersThenPads(s, 0) || LettersThenPads(s, 1) || LettersThenPads(s, 2)
  }

  /** The pattern `^[A-Za-z0-9+/]*={0,2}$`, whose `$` also matches before a final line feed. */
  predicate PatternMatches(s: string) {
    LettersAndPads(s) || (s != "" && s[|s| - 1] == '\n' && LettersAndPads(s[..|s| - 1]))
  }

  /** The check: pattern, length, then the decoder itself. */
  predicate StrictB64(s: string) {
    PatternMatches(s) && |s| % 4 == 0 && Decode(s).Some?
  }

  lemma {:induction false} LettersDecode(s: string, pads: nat)
    requires pads <= 2 && LettersThenPads(s, pads) && |s| % 4 == 0
    ensures Decode(s).Some?
  {
    if |s| >= 4 {
      assert s[..4][0] == s[0] && s[..4][1] == s[1] && s[..4][2] == s[2] && s[..4][3] == s[3];
      if |s| > 4 {
        LettersDecode(s[4..], pads);
      }
    }
  }

  lemma {:induction false} GroupIsLetters(g: string, last: bool)
    requires |g| == 4 && BytesIn(g, last) > 0
    ensures LettersThenPads(g, 3 - BytesIn(g, last))
  {
  }

  lemma {:induction false} PadsComeLast(s: string, pads: nat)
    requires |s| > 4 && BytesIn(s[..4], false) > 0 && LettersThenPads(s[4..], pads)
    ensures LettersThenPads(s, pads)
  {
    GroupIsLetters(s[..4], false);
    assert forall i :: 0 <= i < 4 ==> s[i] == s[..4][i];
    assert forall i :: 4 <= i < |s| ==> s[i] == s[4..][i - 4];
  }

  lemma {:induction false} DecodesByGroups(s: string)
    requires Decode(s).Some? && s != ""
    ensures |s| >= 4 && Decode(s[4..]).Some?
    ensures var n := BytesIn(s[..4], |s| == 4);
            n > 0 && (|s| > 4 ==> n == 3) && |Decode(s).value| == n + |Decode(s[4..]).value|
  {
  }

  lemma {:induction false} OneGroupMore(length: nat, size: nat)
    requires length % 4 == 0 && 4 * size == 3 * length
    ensures (length + 4) % 4 == 0 && 4 * (3 + size) == 3 * (length + 4)
  {
  }

  lemma {:induction false} DecodableIsLetters(s: string) returns (pads: nat)
    requires Decode(s).Some?
    ensures pads <= 2 && LettersThenPads(s, pads) && |s| % 4 == 0
    ensures 4 * (|Decode(s).value| + pads) == 3 * |s|
  {
    if s == "" {
      pads := 0;
    } else {
      DecodesByGroups(s);
      if |s| == 4 {
        assert s[..4] == s && s[4..] == "";
        GroupIsLetters(s, true);
        pads := 3 - BytesIn(s, true);
      } else {
        pads := DecodableIsLetters(s[4..]);
        PadsComeLast(s, pads);
        OneGroupMore(|s| - 4, |Decode(s[4..]).value| + pads);
      }
    }
  }

  /** The check accepts exactly the decodable strings. */
  lemma {:induction false} StrictIffDecodable(s: string)
    ensures StrictB64(s) <==> Decode(s).Some?
  {
    if Decode(s).Some? {
      var pads := DecodableIsLetters(s);
    }
  }

  /** Once pattern and length have passed, the decoder fails on nothing but the line feed that the
      pattern's `$` let through. */
  lemma {:induction false} DecodeFailsOnlyOnLineFeed(s: string)
    requires PatternMatches(s) && |s| % 4 == 0
    ensures Decode(s).None? <==> s != "" && s[|s| - 1] == '\n'
    ensures forall i :: 0 <= i < |s| - 1 ==> IsLetter(s[i]) || s[i] == '='
  {
    if Decode(s).Some? {
      var pads := DecodableIsLetters(s);
    } else if LettersThenPads(s, 0) {
      LettersDecode(s, 0);
    } else if LettersThenPads(s, 1) {
      LettersDecode(s, 1);
    } else if LettersThenPads(s, 2) {
      LettersDecode(s, 2);
    }
  }

  /** Such a string exists, so the decoder's own refusal is needed. */
  lemma {:induction false} LineFeedPassesPattern()
    ensures PatternMatches("AAA\n") && |"AAA\n"| % 4 == 0 && !StrictB64("AAA\n")
  {
    assert LettersThenPads("AAA\n"[..3], 0);
    DecodeFailsOnlyOnLineFeed("AAA\n");
  }

  lemma {:induction false} LetterOfValue(c: char)
    requires IsLetter(c)
    ensures Letter(ValueOf(c)) == c
  {
  }

  lemma {:induction false} GlueUndoesCut(b: seq<Byte>)
    requires 1 <= |b| <= 3
    ensures Glue(Cut(b), |b|) == b
  {
    var x, y: Byte, z: Byte := b[0], if |b| > 1 then b[1] else 0, if |b| > 2 then b[2] else 0;
    assert (x % 4 * 16 + y / 16) / 16 == x % 4 && (x % 4 * 16 + y / 16) % 16 == y / 16;
    assert (y % 16 * 4 + z / 64) / 4 == y % 16 && (y % 16 * 4 + z / 64) % 4 == z / 64;
  }

  /** `q` without the bits that `n` bytes do not use. */
  function Cleared(q: Bits, n: nat): Bits {
    if n == 1 then Bits(q.w, q.x / 16 * 16, 0, 0)
    else if n == 2 then Bits(q.w, q.x, q.y / 4 * 4, 0)
    else q
  }

  lemma {:induction false} CutUndoesGlue(q: Bits, n: nat)
    requires 1 <= n <= 3
    ensures Cut(Glue(q, n)) == Cleared(q, n)
  {
    var a, b, c := q.w * 4 + q.x / 16, q.x % 16 * 16 + q.y / 4, q.y % 4 * 64 + q.z;
    assert a / 4 == q.w && a % 4 == q.x / 16;
    assert b / 16 == q.x % 16 && b % 16 == q.y / 4;
    assert c / 64 == q.y % 4 && c % 64 == q.z;
  }

  lemma {:induction false} ReadUndoesSpell(q: Bits, n: nat, last: bool)
    requires 1 <= n <= 3 && (last || n == 3)
    ensures BytesIn(Spell(q, n), last) == n
    ensures Cleared(q, n) == q ==> Read(Spell(q, n)) == q
  {
  }

  lemma {:induction false} SpellUndoesRead(g: string, last: bool)
    requires |g| == 4 && BytesIn(g, last) > 0
    ensures Spell(Read(g), BytesIn(g, last)) == g
  {
    LetterOfValue(g[0]);
    LetterOfValue(g[1]);
    if IsLetter(g[2]) {
      LetterOfValue(g[2]);
    }
    if IsLetter(g[3]) {
      LetterOfValue(g[3]);
    }
  }

  lemma {:induction false} GroupDecodes(b: seq<Byte>, last: bool)
    requires |b| == 3 || (last && 1 <= |b| <= 3)
    ensures DecodeGroup(EncodeGroup(b), last) == Some(b)
  {
    GlueUndoesCut(b);
    CutUndoesGlue(Cut(b), |b|);
    ReadUndoesSpell(Cut(b), |b|, last);
  }

  lemma {:induction false} DecodeUndoesEncode(b: seq<Byte>)
    ensures Decode(Encode(b)) == Some(b)
  {
    if |b| > 3 {
      DecodeUndoesEncode(b[3..]);
      GroupDecodes(b[..3], false);
      var e := Encode(b);
      assert e[..4] == EncodeGroup(b[..3]) && e[4..] == Encode(b[3..]);
      assert b == b[..3] + b[3..];
    } else if b != [] {
      GroupDecodes(b, true);
      var e := Encode(b);
      assert e[..4] == e && b + [] == b;
    }
  }

  /** The bits that a padded last group leaves unused are zero; a decoder may accept them set, by
      section 3.5 of RFC 4648. */
  predicate Canonical(s: string) {
    var n := |s|;
    n < 4 || s[n - 1] != '='
    || (if s[n - 2] == '=' then IsLetter(s[n - 3]) && ValueOf(s[n - 3]) % 16 == 0
        else IsLetter(s[n - 2]) && ValueOf(s[n - 2]) % 4 == 0)
  }

  lemma {:induction false} GroupIsCanonicalIff(g: string, last: bool)
    requires |g| == 4 && BytesIn(g, last) > 0
    ensures Cleared(Read(g), BytesIn(g, last)) == Read(g) <==> Canonical(g)
  {
  }

  lemma {:induction false} GroupEncodes(g: string, last: bool)
    requires |g| == 4 && BytesIn(g, last) > 0
    ensures EncodeGroup(DecodeGroup(g, last).value) == g <==> Canonical(g)
  {
    var q, n := Read(g), BytesIn(g, last);
    CutUndoesGlue(q, n);
    SpellUndoesRead(g, last);
    GroupIsCanonicalIff(g, last);
    assert Cleared(Cleared(q, n), n) == Cleared(q, n);
    ReadUndoesSpell(Cleared(q, n), n, last);
  }

  /** Padding is looked for in the last group alone. */
  lemma {:induction false} CanonicalByLastGroup(s: string)
    requires |s| >= 8
    ensures Canonical(s) <==> Canonical(s[4..])
  {
  }

  /** A group that is not the last is encoded back as it was, before the rest. */
  lemma {:induction false} FirstGroupFirst(s: string)
    requires |s| > 4 && Decode(s).Some?
    ensures |s| >= 8
    ensures Encode(Decode(s).value) == s[..4] + Encode(Decode(s[4..]).value)
  {
    var b := DecodeGroup(s[..4], false).value;
    var rest := Decode(s[4..]).value;
    GroupEncodes(s[..4], false);
    assert Canonical(s[..4]) && |b| == 3;
    var pads := DecodableIsLetters(s[4..]);
    assert rest != [];
    assert (b + rest)[..3] == b && (b + rest)[3..] == rest;
  }

  lemma {:induction false} OneGroup(s: string)
    requires |s| == 4 && Decode(s).Some?
    ensures Encode(Decode(s).value) == s <==> Canonical(s)
  {
    GroupEncodes(s, true);
    assert s[..4] == s;
    var first := DecodeGroup(s, true).value;
    assert first + [] == first;
  }

  lemma {:induction false} CancelPrefix(g: string, e: string, t: string)
    ensures g + e == g + t <==> e == t
  {
    assert (g + e)[|g|..] == e && (g + t)[|g|..] == t;
  }

  /** A decodable value is what its bytes encode to exactly when those bits are zero. */
  lemma {:induction false} EncodeUndoesDecodeIff(s: string)
    requires Decode(s).Some?
    ensures Encode(Decode(s).value) == s <==> Canonical(s)
  {
    if |s| > 4 {
      FirstGroupFirst(s);
      CanonicalByLastGroup(s);
      EncodeUndoesDecodeIff(s[4..]);
      CancelPrefix(s[..4], Encode(Decode(s[4..]).value), s[4..]);
      assert s == s[..4] + s[4..];
    } else if s != "" {
      OneGroup(s);
    }
  }
}
