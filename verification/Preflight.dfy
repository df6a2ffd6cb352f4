/** The checks made on attachments before anything is sent upstream. */
module Preflight {
  import opened Options
  import opened Text
  import opened Base64

  const MIB := 1024 * 1024
  const MAX_FILES := 5
  const MAX_FILE_BYTES := 25 * MIB
  const MAX_TOTAL_BYTES := 40 * MIB

  datatype Attachment = Attachment(filename: string, content: string)

  datatype Checked = Checked(filename: string, size: nat, content: string)

  /** The refusals, with the numbers and names their messages are made from. */
  datatype Refusal =
    | TooMany(count: nat, extra: nat)
    | Reference(filename: string)
    | NotBase64(filename: string)
    | Empty(filename: string)
    | FileTooLarge(filename: string, size: nat, excess: nat)
    | TotalTooLarge(size: nat, excess: nat)

  datatype Outcome = Passed(files: seq<Checked>) | Refused(why: Refusal)

  /** `s` without its white space. */
  function Squeezed(s: string): (r: string)
    ensures |r| <= |s|
  {
    if s == "" then ""
    else if IsPySpace(s[0]) then Squeezed(s[1..])
    else [s[0]] + Squeezed(s[1..])
  }

  predicate IsAlpha(c: char) {
    'A' <= c <= 'Z' || 'a' <= c <= 'z'
  }

  predicate IsSchemeChar(c: char) {
    IsAlpha(c) || '0' <= c <= '9' || c == '+' || c == '.' || c == '-'
  }

  predicate SchemeEndsAt(s: string, k: nat) {
    && 1 <= k <= |s| - 3 && IsAlpha(s[0]) && (forall i :: 1 <= i < k ==> IsSchemeChar(s[i]))
    && s[k] == ':' && s[k + 1] == '/' && s[k + 2] == '/'
  }

  /** A URL scheme and `://` at the start. */
  predicate LooksLikeUrl(s: string) {
    exists k :: 0 <= k < |s| && SchemeEndsAt(s, k)
  }

  predicate LooksLikeDrive(s: string) {
    |s| >= 3 && IsAlpha(s[0]) && s[1] == ':' && (s[2] == '\\' || s[2] == '/')
  }

  predicate LooksLikeReference(s: string) {
    || LooksLikeUrl(s) || LooksLikeDrive(s)
    || (s != "" && (s[0] == '~' || s[0] == '\\'))
    || (s != "" && s[0] == '/' && !StrictB64(s))
  }

  /** No decodable value is taken for a URL or a path, also not one that starts with a slash. */
  lemma {:induction false} DecodableIsNoReference(s: string)
    requires Decode(s).Some?
    ensures !LooksLikeReference(s)
  {
    StrictIffDecodable(s);
    var pads := DecodableIsLetters(s);
    forall i | 0 <= i < |s| ensures s[i] != ':' && s[i] != '~' && s[i] != '\\' {
      if i < |s| - pads {
        assert IsLetter(s[i]);
      }
    }
  }

  predicate IsScheme(t: string) {
    t != "" && IsAlpha(t[0]) && forall c :: c in t ==> IsAlpha(c) || c in "0123456789+.-"
  }

  /** A value is taken for a URL or a path exactly when it does not decode and starts with a tilde, a slash, a
      backslash, a drive, or a scheme and `://`. */
  lemma {:induction false} ReferenceIff(s: string)
    ensures LooksLikeReference(s) <==>
              && Decode(s) == None && s != ""
              && (s[0] in "~/\\" || (|s| > 2 && IsAlpha(s[0]) && (":\\" <= s[1..] || ":/" <= s[1..]))
                  || exists k: nat :: k <= |s| && IsScheme(s[..k]) && "://" <= s[k..])
  {
    StrictIffDecodable(s);
    UrlIff(s);
    if Decode(s).Some? {
      DecodableIsNoReference(s);
    }
  }

  lemma {:induction false} UrlIff(s: string)
    ensures LooksLikeUrl(s) <==> exists k: nat :: k <= |s| && IsScheme(s[..k]) && "://" <= s[k..]
  {
    if LooksLikeUrl(s) {
      var k :| 0 <= k < |s| && SchemeEndsAt(s, k);
      assert s[..k][0] == s[0] && s[k..][0] == s[k] && s[k..][1] == s[k + 1] && s[k..][2] == s[k + 2];
      assert IsScheme(s[..k]) && "://" <= s[k..];
    }
    if k: nat :| k <= |s| && IsScheme(s[..k]) && "://" <= s[k..] {
      assert s[..k][0] == s[0] && s[k..][0] == s[k] && s[k..][1] == s[k + 1] && s[k..][2] == s[k + 2];
      forall i | 1 <= i < k ensures IsSchemeChar(s[i]) {
        assert s[i] in s[..k];
      }
      assert SchemeEndsAt(s, k);
    }
  }

  function Value(items: seq<Attachment>, i: nat): string
    requires i < |items|
  {
    Squeezed(items[i].content)
  }

  /** What item `i` decodes to, nothing when it does not decode. */
  function Bytes(items: seq<Attachment>, i: nat): seq<Byte>
    requires i < |items|
  {
    var bytes := Decode(Value(items, i));
    if bytes.Some? then bytes.value else []
  }

  function Size(items: seq<Attachment>, i: nat): nat
    requires i < |items|
  {
    |Bytes(items, i)|
  }

  function Total(items: seq<Attachment>): nat {
    if items == [] then 0
    else Total(items[..|items| - 1]) + Size(items, |items| - 1)
  }

  lemma {:induction false} TotalNext(items: seq<Attachment>, k: nat)
    requires k < |items|
    ensures Total(items[..k + 1]) == Total(items[..k]) + Size(items, k)
  {
    assert items[..k + 1][..k] == items[..k];
  }

  /** An item's name, its decoded size and its value without white space. */
  function CheckedItem(items: seq<Attachment>, i: nat): Checked
    requires i < |items|
  {
    Checked(items[i].filename, Size(items, i), Value(items, i))
  }

  predicate CheckedUpTo(items: seq<Attachment>, files: seq<Checked>, k: nat)
    requires k <= |files| <= |items|
  {
    k == 0 || (CheckedUpTo(items, files, k - 1) && files[k - 1] == CheckedItem(items, k - 1))
  }

  /** One entry per item, in order: see `CheckedAt`. */
  predicate IsChecked(items: seq<Attachment>, files: seq<Checked>) {
    |files| == |items| && CheckedUpTo(items, files, |files|)
  }

  lemma {:induction false} CheckedAt(items: seq<Attachment>, files: seq<Checked>, k: nat, i: nat)
    requires i < k <= |files| <= |items| && CheckedUpTo(items, files, k)
    ensures files[i] == CheckedItem(items, i)
  {
    if i < k - 1 {
      CheckedAt(items, files, k - 1, i);
    }
  }

  lemma {:induction false} CheckedStays(items: seq<Attachment>, files: seq<Checked>, more: seq<Checked>, k: nat)
    requires k <= |files| <= |more| <= |items| && files <= more && CheckedUpTo(items, files, k)
    ensures CheckedUpTo(items, more, k)
  {
    if k > 0 {
      CheckedStays(items, files, more, k - 1);
    }
  }

  predicate Sendable(items: seq<Attachment>, i: nat)
    requires i < |items|
  {
    Decode(Value(items, i)).Some? && 0 < Size(items, i) <= MAX_FILE_BYTES
  }

  /** Few enough, every one decodable and not empty, and none of them nor their sum too large. */
  predicate Acceptable(items: seq<Attachment>) {
    && |items| <= MAX_FILES
    && (forall i :: 0 <= i < |items| ==> Sendable(items, i))
    && Total(items) <= MAX_TOTAL_BYTES
  }

  /** The checks, in the order in which they are made; the first and the last are about the list. */
  predicate Trips(items: seq<Attachment>, stage: nat, i: nat)
    requires i < |items|
  {
    match stage
    case 0 => |items| > MAX_FILES
    case 1 => LooksLikeReference(Value(items, i))
    case 2 => Size(items, i) == 0
    case 3 => Size(items, i) > MAX_FILE_BYTES
    case 4 => Total(items) > MAX_TOTAL_BYTES
    case _ => false
  }

  function Reason(items: seq<Attachment>, stage: nat, i: nat): Refusal
    requires i < |items| && Trips(items, stage, i)
  {
    match stage
    case 0 => TooMany(|items|, |items| - MAX_FILES)
    case 1 => Reference(items[i].filename)
    case 2 => if Decode(Value(items, i)).None? then NotBase64(items[i].filename) else Empty(items[i].filename)
    case 3 => FileTooLarge(items[i].filename, Size(items, i), Size(items, i) - MAX_FILE_BYTES)
    case _ => TotalTooLarge(Total(items), Total(items) - MAX_TOTAL_BYTES)
  }

  /** No check before `stage`, and none of `stage` on the items before `i`, refuses the list: see
      `PassedMeans`. */
  predicate PassedUpTo(items: seq<Attachment>, stage: nat, i: nat)
    requires i <= |items|
    decreases stage, i
  {
    if i > 0 then !Trips(items, stage, i - 1) && PassedUpTo(items, stage, i - 1)
    else stage > 0 ==> PassedUpTo(items, stage - 1, |items|)
  }

  lemma {:induction false} PassedMeans(items: seq<Attachment>, stage: nat, i: nat, t: nat, j: nat)
    requires i <= |items| && PassedUpTo(items, stage, i)
    requires j < |items| && (t < stage || (t == stage && j < i))
    ensures !Trips(items, t, j)
    decreases stage, i
  {
    if i > 0 {
      if t < stage || j < i - 1 {
        PassedMeans(items, stage, i - 1, t, j);
      }
    } else {
      PassedMeans(items, stage - 1, |items|, t, j);
    }
  }

  ghost predicate FirstFailure(items: seq<Attachment>, why: Refusal) {
    exists stage: nat, i: nat :: i < |items| && Trips(items, stage, i) && PassedUpTo(items, stage, i)
                                 && why == Reason(items, stage, i)
  }

  /** Stopping at a check that trips, with all before it passed, is right. */
  lemma {:induction false} Refusing(items: seq<Attachment>, stage: nat, i: nat)
    requires i < |items| && Trips(items, stage, i) && PassedUpTo(items, stage, i)
    ensures FirstFailure(items, Reason(items, stage, i)) && !Acceptable(items)
  {
    if Acceptable(items) {
      assert Sendable(items, i);
      DecodableIsNoReference(Value(items, i));
    }
  }

  lemma {:induction false} CountPassed(items: seq<Attachment>, i: nat)
    requires i <= |items| <= MAX_FILES
    ensures PassedUpTo(items, 0, i)
  {
    if i > 0 {
      CountPassed(items, i - 1);
    }
  }

  lemma {:induction false} Passing(items: seq<Attachment>)
    requires items == [] || PassedUpTo(items, 4, 1)
    ensures Acceptable(items)
  {
    if items != [] {
      PassedMeans(items, 4, 1, 0, 0);
      PassedMeans(items, 4, 1, 4, 0);
      forall i | 0 <= i < |items| ensures Sendable(items, i) {
        PassedMeans(items, 4, 1, 2, i);
        PassedMeans(items, 4, 1, 3, i);
      }
    }
  }

  /** Count, references, base64 and emptiness, size of each file, total size; the first to fail ends it. */
  method PreflightAttachments(items: seq<Attachment>) returns (r: Outcome)
    ensures r.Passed? <==> Acceptable(items)
    ensures r.Passed? ==> IsChecked(items, r.files)
    ensures r.Refused? ==> FirstFailure(items, r.why)
  {
    if |items| > MAX_FILES {
      Refusing(items, 0, 0);
      return Refused(TooMany(|items|, |items| - MAX_FILES));
    }
    CountPassed(items, |items|);
    var cleaned: seq<(string, string)> := [];
    for k := 0 to |items|
      invariant PassedUpTo(items, 1, k)
      invariant |cleaned| == k
      invariant forall j :: 0 <= j < k ==> cleaned[j] == (items[j].filename, Value(items, j))
    {
      var value := Squeezed(items[k].content);
      if LooksLikeReference(value) {
        Refusing(items, 1, k);
        return Refused(Reference(items[k].filename));
      }
      cleaned := cleaned + [(items[k].filename, value)];
    }
    var checked, refused := DecodeAll(items, cleaned);
    if refused.Some? {
      return Refused(refused.value);
    }
    refused := LimitFiles(items, checked);
    if refused.Some? {
      return Refused(refused.value);
    }
    refused := LimitTotal(items, checked);
    if refused.Some? {
      return Refused(refused.value);
    }
    r := Passed(checked);
  }

  /** One value: its size, or why it is refused. */
  method DecodeOne(name: string, value: string) returns (size: nat, refused: Option<Refusal>)
    ensures refused == if Decode(value).None? then Some(NotBase64(name))
                       else if Decode(value).value == [] then Some(Empty(name)) else None
    ensures size == if Decode(value).Some? then |Decode(value).value| else 0
  {
    StrictIffDecodable(value);
    if !StrictB64(value) {
      return 0, Some(NotBase64(name));
    }
    size := |Decode(value).value|;
    refused := if size == 0 then Some(Empty(name)) else None;
  }

  lemma {:induction false} DecodeStage(items: seq<Attachment>, k: nat)
    requires k < |items| && PassedUpTo(items, 2, k)
    ensures var bytes := Decode(Value(items, k));
            && Size(items, k) == (if bytes.Some? then |bytes.value| else 0)
            && (if Size(items, k) > 0 then PassedUpTo(items, 2, k + 1)
                else FirstFailure(items, if bytes.None? then NotBase64(items[k].filename) else Empty(items[k].filename))
                     && !Acceptable(items))
  {
    if Size(items, k) == 0 {
      Refusing(items, 2, k);
    }
  }

  /** The loop that decodes: not base64, or nothing in it, refuses. */
  method DecodeAll(items: seq<Attachment>, cleaned: seq<(string, string)>)
    returns (checked: seq<Checked>, refused: Option<Refusal>)
    requires PassedUpTo(items, 2, 0) && |cleaned| == |items|
    requires forall j :: 0 <= j < |items| ==> cleaned[j] == (items[j].filename, Value(items, j))
    ensures refused.None? ==> PassedUpTo(items, 2, |items|) && IsChecked(items, checked)
    ensures refused.Some? ==> FirstFailure(items, refused.value) && !Acceptable(items)
  {
    checked := [];
    for k := 0 to |cleaned|
      invariant PassedUpTo(items, 2, k)
      invariant |checked| == k && CheckedUpTo(items, checked, k)
    {
      var (name, value) := cleaned[k];
      var size, why := DecodeOne(name, value);
      DecodeStage(items, k);
      if why.Some? {
        return checked, why;
      }
      ghost var before := checked;
      checked := checked + [Checked(name, size, value)];
      CheckedStays(items, before, checked, k);
    }
    refused := None;
  }

  /** The loop over each file's size. */
  method LimitFiles(items: seq<Attachment>, checked: seq<Checked>) returns (refused: Option<Refusal>)
    requires PassedUpTo(items, 2, |items|) && IsChecked(items, checked)
    ensures refused.None? ==> PassedUpTo(items, 3, |items|)
    ensures refused.Some? ==> FirstFailure(items, refused.value) && !Acceptable(items)
  {
    for k := 0 to |checked|
      invariant PassedUpTo(items, 3, k)
    {
      CheckedAt(items, checked, |checked|, k);
      var size := checked[k].size;
      if size > MAX_FILE_BYTES {
        Refusing(items, 3, k);
        return Some(FileTooLarge(checked[k].filename, size, size - MAX_FILE_BYTES));
      }
    }
    refused := None;
  }

  /** The sum over all files. */
  method LimitTotal(items: seq<Attachment>, checked: seq<Checked>) returns (refused: Option<Refusal>)
    requires PassedUpTo(items, 3, |items|) && IsChecked(items, checked)
    ensures refused.None? ==> Acceptable(items)
    ensures refused.Some? ==> FirstFailure(items, refused.value) && !Acceptable(items)
  {
    var total := SumSizes(items, checked);
    if total > MAX_TOTAL_BYTES {
      Refusing(items, 4, 0);
      return Some(TotalTooLarge(total, total - MAX_TOTAL_BYTES));
    }
    Passing(items);
    refused := None;
  }

  method SumSizes(items: seq<Attachment>, checked: seq<Checked>) returns (total: nat)
    requires IsChecked(items, checked)
    ensures total == Total(items)
  {
    total := 0;
    for k := 0 to |checked|
      invariant total == Total(items[..k])
    {
      CheckedAt(items, checked, |checked|, k);
      TotalNext(items, k);
      total := total + checked[k].size;
    }
    assert items[..|items|] == items;
  }

  /** White space inserted around and between the characters of `s`. */
  function Spread(s: string, gaps: seq<string>): string
    requires |gaps| == |s| + 1
  {
    if s == "" then gaps[0] else gaps[0] + [s[0]] + Spread(s[1..], gaps[1..])
  }

  lemma {:induction false} SqueezeGap(gap: string, s: string)
    requires forall i :: 0 <= i < |gap| ==> IsPySpace(gap[i])
    ensures Squeezed(gap + s) == Squeezed(s)
  {
    if gap == "" {
      assert gap + s == s;
    } else {
      assert (gap + s)[1..] == gap[1..] + s;
      SqueezeGap(gap[1..], s);
    }
  }

  lemma {:induction false} SqueezeUndoesSpread(s: string, gaps: seq<string>)
    requires |gaps| == |s| + 1
    requires forall k, i :: 0 <= k < |gaps| && 0 <= i < |gaps[k]| ==> IsPySpace(gaps[k][i])
    requires forall i :: 0 <= i < |s| ==> !IsPySpace(s[i])
    ensures Squeezed(Spread(s, gaps)) == s
  {
    if s == "" {
      SqueezeGap(gaps[0], "");
      assert gaps[0] + "" == gaps[0];
    } else {
      var rest := Spread(s[1..], gaps[1..]);
      assert gaps[0] + [s[0]] + rest == gaps[0] + ([s[0]] + rest);
      SqueezeGap(gaps[0], [s[0]] + rest);
      assert ([s[0]] + rest)[1..] == rest;
      SqueezeUndoesSpread(s[1..], gaps[1..]);
    }
  }

  lemma {:induction false} EncodedHasNoSpace(b: seq<Byte>)
    ensures forall i :: 0 <= i < |Encode(b)| ==> !IsPySpace(Encode(b)[i])
  {
    DecodeUndoesEncode(b);
    var pads := DecodableIsLetters(Encode(b));
    forall i | 0 <= i < |Encode(b)| ensures !IsPySpace(Encode(b)[i]) {
      assert IsLetter(Encode(b)[i]) || Encode(b)[i] == '=';
    }
  }

  function SumOfSizes(files: seq<seq<Byte>>): nat {
    if files == [] then 0 else SumOfSizes(files[..|files| - 1]) + |files[|files| - 1]|
  }

  /** Item `i` carries `files[i]`, encoded, with white space anywhere. */
  ghost predicate Carries(items: seq<Attachment>, files: seq<seq<Byte>>) {
    && |items| == |files|
    && forall i :: 0 <= i < |items| ==> Decode(Value(items, i)) == Some(files[i])
  }

  lemma {:induction false} EncodedItemCarries(content: string, file: seq<Byte>, gaps: seq<string>)
    requires |gaps| == |Encode(file)| + 1 && content == Spread(Encode(file), gaps)
    requires forall k, i :: 0 <= k < |gaps| && 0 <= i < |gaps[k]| ==> IsPySpace(gaps[k][i])
    ensures Decode(Squeezed(content)) == Some(file)
  {
    EncodedHasNoSpace(file);
    SqueezeUndoesSpread(Encode(file), gaps);
    DecodeUndoesEncode(file);
  }

  lemma {:induction false} TotalIsSum(items: seq<Attachment>, files: seq<seq<Byte>>)
    requires Carries(items, files)
    ensures Total(items) == SumOfSizes(files)
  {
    if items != [] {
      var n := |items| - 1;
      assert forall i :: 0 <= i < n ==> Value(items[..n], i) == Value(items, i);
      TotalIsSum(items[..n], files[..n]);
    }
  }

  /** The list is acceptable exactly when it carries at most five files, none empty, within the
      size limits; and the sizes reported are the true ones, in order. */
  lemma {:induction false} AcceptableIffWithinLimits(items: seq<Attachment>, files: seq<seq<Byte>>)
    requires Carries(items, files)
    ensures Acceptable(items) <==>
            && |files| <= MAX_FILES
            && (forall i :: 0 <= i < |files| ==> 0 < |files[i]| <= MAX_FILE_BYTES)
            && SumOfSizes(files) <= MAX_TOTAL_BYTES
    ensures forall i :: 0 <= i < |files| ==> Size(items, i) == |files[i]|
  {
    TotalIsSum(items, files);
    assert forall i :: 0 <= i < |items| ==> Size(items, i) == |files[i]|;
    if Acceptable(items) {
      forall i | 0 <= i < |files| ensures 0 < |files[i]| <= MAX_FILE_BYTES {
        assert Sendable(items, i);
      }
    }
  }

  /** An acceptable list carries files. */
  lemma {:induction false} AcceptableCarries(items: seq<Attachment>) returns (files: seq<seq<Byte>>)
    requires Acceptable(items)
    ensures Carries(items, files)
  {
    files := seq(|items|, i requires 0 <= i < |items| => Bytes(items, i));
    forall i | 0 <= i < |items| ensures Decode(Value(items, i)) == Some(files[i]) {
      assert Sendable(items, i);
    }
  }

  /** The names and numbers of a refusal, with the limits written out. */
  lemma {:induction false} RefusalMeans(items: seq<Attachment>, why: Refusal) returns (i: nat)
    requires FirstFailure(items, why)
    ensures i < |items|
    ensures match why
            case TooMany(count, extra) => count == |items| && count == 5 + extra && extra > 0
            case Reference(name) => name == items[i].filename && LooksLikeReference(Value(items, i))
            case NotBase64(name) => name == items[i].filename && Decode(Value(items, i)) == None
            case Empty(name) => name == items[i].filename && Decode(Value(items, i)) == Some([])
            case FileTooLarge(name, size, excess) =>
              name == items[i].filename && size == Size(items, i) && size == 26_214_400 + excess && excess > 0
            case TotalTooLarge(size, excess) => size == Total(items) && size == 41_943_040 + excess && excess > 0
  {
    var stage: nat, k: nat :| k < |items| && Trips(items, stage, k) && PassedUpTo(items, stage, k)
                              && why == Reason(items, stage, k);
    i := k;
  }

  /** A refusal has one reason. */
  lemma {:induction false} OneReason(items: seq<Attachment>, a: Refusal, b: Refusal)
    requires FirstFailure(items, a) && FirstFailure(items, b)
    ensures a == b
  {
    var s: nat, i: nat :| i < |items| && Trips(items, s, i) && PassedUpTo(items, s, i) && a == Reason(items, s, i);
    var t: nat, j: nat :| j < |items| && Trips(items, t, j) && PassedUpTo(items, t, j) && b == Reason(items, t, j);
    if s < t || (s == t && i < j) {
      PassedMeans(items, t, j, s, i);
      assert false;
    } else if s > t || j < i {
      PassedMeans(items, s, i, t, j);
      assert false;
    }
  }
}
