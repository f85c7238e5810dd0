/**
  The JavaScript string built-ins the extension relies on: `trim`, `includes`,
  `split` and `join` with a one-character separator, ASCII case mapping,
  `parseInt` with no radix and the decimal rendering of a Number.
 */
module JsString {

  import opened Wrappers

  // ---------------------------------------------------------------------------
  // Character classes
  // ---------------------------------------------------------------------------

  /** ECMAScript LineTerminator: the characters that `.` in a regular expression does not match. */
  predicate IsLineTerminator(c: char) {
    c == '\n' || c == '\r' || c == '\U{2028}' || c == '\U{2029}'
  }

  /** ECMAScript WhiteSpace or LineTerminator: what `trim` strips and what `\s` matches. */
  predicate IsWhitespace(c: char) {
    || IsLineTerminator(c)
    || c == ' ' || c == '\t' || c == '\U{000B}' || c == '\U{000C}'
    || c == '\U{00A0}' || c == '\U{FEFF}' || c == '\U{1680}'
    || ('\U{2000}' <= c <= '\U{200A}')
    || c == '\U{202F}' || c == '\U{205F}' || c == '\U{3000}'
  }

  predicate AllWhitespace(s: string) {
    forall i :: 0 <= i < |s| ==> IsWhitespace(s[i])
  }

  predicate NoLineTerminator(s: string) {
    forall i :: 0 <= i < |s| ==> !IsLineTerminator(s[i])
  }

  // ---------------------------------------------------------------------------
  // trim, trimStart, trimEnd
  // ---------------------------------------------------------------------------

  /** The number of whitespace characters at the start of `s`. */
  function LeadingWhitespace(s: string): (n: nat)
    ensures n <= |s|
    ensures forall i :: 0 <= i < n ==> IsWhitespace(s[i])
    ensures n < |s| ==> !IsWhitespace(s[n])
  {
    if |s| > 0 && IsWhitespace(s[0]) then 1 + LeadingWhitespace(s[1..]) else 0
  }

  /** The index at which the run of whitespace ending `s` starts. */
  function TrailingStart(s: string): (k: nat)
    ensures k <= |s|
    ensures forall i :: k <= i < |s| ==> IsWhitespace(s[i])
    ensures k > 0 ==> !IsWhitespace(s[k - 1])
  {
    if |s| > 0 && IsWhitespace(s[|s| - 1]) then TrailingStart(s[..|s| - 1]) else |s|
  }

  /** Any `n` that ends the leading whitespace run is the one `LeadingWhitespace` counts. */
  lemma LeadingWhitespaceUnique(s: string, n: nat)
    requires n <= |s| && (forall i :: 0 <= i < n ==> IsWhitespace(s[i])) && (n < |s| ==> !IsWhitespace(s[n]))
    ensures LeadingWhitespace(s) == n
  {
  }

  /** Any `k` that starts the trailing whitespace run is the one `TrailingStart` finds. */
  lemma TrailingStartUnique(s: string, k: nat)
    requires k <= |s| && (forall i :: k <= i < |s| ==> IsWhitespace(s[i])) && (k > 0 ==> !IsWhitespace(s[k - 1]))
    ensures TrailingStart(s) == k
  {
  }

  function TrimStart(s: string): string {
    s[LeadingWhitespace(s)..]
  }

  function TrimEnd(s: string): string {
    s[..TrailingStart(s)]
  }

  /** `String.prototype.trim`. */
  function Trim(s: string): string {
    TrimEnd(TrimStart(s))
  }

  /** `trim` removes a run of whitespace from each end and nothing else. */
  lemma TrimIsSlice(s: string)
    ensures exists i, j :: 0 <= i <= j <= |s| && Trim(s) == s[i..j]
                           && AllWhitespace(s[..i]) && AllWhitespace(s[j..])
    ensures var r := Trim(s); r == [] || (!IsWhitespace(r[0]) && !IsWhitespace(r[|r| - 1]))
  {
    var i := LeadingWhitespace(s);
    var u := s[i..];
    var k := TrailingStart(u);
    var j := i + k;
    assert Trim(s) == s[i..j];
    assert AllWhitespace(s[..i]);
    assert s[j..] == u[k..];
    assert AllWhitespace(s[j..]);
    var r := Trim(s);
    if r != [] {
      assert r[0] == s[i];
      assert r[|r| - 1] == u[k - 1];
    }
  }

  /** `trim` is idempotent. */
  lemma TrimIdempotent(s: string)
    ensures Trim(Trim(s)) == Trim(s)
  {
    TrimIsSlice(s);
    var r := Trim(s);
    if r != [] {
      assert LeadingWhitespace(r) == 0;
      assert TrailingStart(r) == |r|;
    }
  }

  /** Every character of `trim(s)` is a character of `s`. */
  lemma TrimChars(s: string, c: char)
    requires c in Trim(s)
    ensures c in s
  {
    var i := LeadingWhitespace(s);
    assert Trim(s) == s[i..][..TrailingStart(s[i..])];
  }

  // ---------------------------------------------------------------------------
  // includes
  // ---------------------------------------------------------------------------

  predicate StartsWith(s: string, prefix: string) {
    |prefix| <= |s| && s[..|prefix|] == prefix
  }

  /** `sub` occurs in `s` starting at index `i`. */
  predicate OccursAt(s: string, sub: string, i: nat) {
    i + |sub| <= |s| && s[i..i + |sub|] == sub
  }

  /** `String.prototype.includes`, scanning from the left. */
  function Contains(s: string, sub: string): bool
    decreases |s|
  {
    StartsWith(s, sub) || (|s| > 0 && Contains(s[1..], sub))
  }

  lemma {:induction false} ContainsIff(s: string, sub: string)
    ensures Contains(s, sub) <==> exists i: nat :: OccursAt(s, sub, i)
    decreases |s|
  {
    if StartsWith(s, sub) {
      assert OccursAt(s, sub, 0);
    } else if |s| > 0 {
      ContainsIff(s[1..], sub);
      if Contains(s[1..], sub) {
        var i: nat :| OccursAt(s[1..], sub, i);
        OccursAtShift(s, sub, i);
      } else {
        forall i: nat | OccursAt(s, sub, i)
          ensures false
        {
          assert i != 0;
          OccursAtShift(s, sub, i - 1);
        }
      }
    }
  }

  /** An occurrence in the tail is an occurrence one further along in the whole. */
  lemma OccursAtShift(s: string, sub: string, i: nat)
    requires |s| > 0
    ensures OccursAt(s[1..], sub, i) <==> OccursAt(s, sub, i + 1)
  {
    if i + 1 + |sub| <= |s| {
      assert s[1..][i..i + |sub|] == s[i + 1..i + 1 + |sub|];
    }
  }

  // ---------------------------------------------------------------------------
  // Case mapping (ASCII letters only)
  // ---------------------------------------------------------------------------

  function UpperChar(c: char): char {
    if 'a' <= c <= 'z' then (c as int - 32) as char else c
  }

  function LowerChar(c: char): char {
    if 'A' <= c <= 'Z' then (c as int + 32) as char else c
  }

  /** `String.prototype.toUpperCase` restricted to the ASCII letters. */
  function ToUpperCase(s: string): (r: string)
    ensures |r| == |s|
    ensures forall i :: 0 <= i < |s| ==> r[i] == UpperChar(s[i])
  {
    if s == [] then [] else [UpperChar(s[0])] + ToUpperCase(s[1..])
  }

  /** `String.prototype.toLowerCase` restricted to the ASCII letters. */
  function ToLowerCase(s: string): (r: string)
    ensures |r| == |s|
    ensures forall i :: 0 <= i < |s| ==> r[i] == LowerChar(s[i])
  {
    if s == [] then [] else [LowerChar(s[0])] + ToLowerCase(s[1..])
  }

  // ---------------------------------------------------------------------------
  // indexOf, split, join
  // ---------------------------------------------------------------------------

  /** The index of the first `c` in `s`, if any. */
  function IndexOf(s: string, c: char): (r: Option<nat>)
    ensures r.None? <==> c !in s
    ensures r.Some? ==> r.value < |s| && s[r.value] == c && c !in s[..r.value]
  {
    if s == [] then None
    else if s[0] == c then Some(0)
    else match IndexOf(s[1..], c)
      case None => None
      case Some(k) =>
        assert s[..k + 1] == [s[0]] + s[1..][..k];
        Some(k + 1)
  }

  /** `String.prototype.split` with a one-character separator and no limit. */
  function Split(s: string, sep: char): (parts: seq<string>)
    ensures |parts| >= 1
    ensures |parts| == 1 <==> sep !in s
    decreases |s|
  {
    match IndexOf(s, sep)
    case None => [s]
    case Some(i) => [s[..i]] + Split(s[i + 1..], sep)
  }

  /** `Array.prototype.join`. */
  function Join(parts: seq<string>, sep: string): string {
    if |parts| == 0 then ""
    else if |parts| == 1 then parts[0]
    else parts[0] + sep + Join(parts[1..], sep)
  }

  /** No piece of a split contains the separator. */
  lemma {:induction false} SplitPiecesOmitSeparator(s: string, sep: char)
    ensures forall k :: 0 <= k < |Split(s, sep)| ==> sep !in Split(s, sep)[k]
    decreases |s|
  {
    match IndexOf(s, sep)
    case None =>
    case Some(i) =>
      SplitPiecesOmitSeparator(s[i + 1..], sep);
  }

  /** Every character of a piece of a split is a character of the whole. */
  lemma {:induction false} SplitPiecesChars(s: string, sep: char, k: nat, c: char)
    requires k < |Split(s, sep)| && c in Split(s, sep)[k]
    ensures c in s
    decreases |s|
  {
    match IndexOf(s, sep)
    case None =>
    case Some(i) =>
      if k > 0 {
        SplitPiecesChars(s[i + 1..], sep, k - 1, c);
      }
  }

  /** Joining a piece in front of at least one more puts the separator between. */
  lemma JoinCons(p: string, rest: seq<string>, sep: string)
    requires |rest| >= 1
    ensures Join([p] + rest, sep) == p + sep + Join(rest, sep)
  {
    assert ([p] + rest)[1..] == rest;
  }

  /** Splitting at the first separator takes off the first piece. */
  lemma SplitAt(s: string, sep: char, i: nat)
    requires IndexOf(s, sep) == Some(i)
    ensures Split(s, sep) == [s[..i]] + Split(s[i + 1..], sep)
  {
  }

  /** A prefix of a suffix is a slice. */
  lemma SliceOfSuffix(s: string, a: nat, b: nat)
    requires a <= b <= |s|
    ensures s[a..][..b - a] == s[a..b]
  {
  }

  /** A string is its prefix, one character and its suffix. */
  lemma SliceAround(s: string, i: nat)
    requires i < |s|
    ensures s == s[..i] + [s[i]] + s[i + 1..]
  {
  }

  /** Joining the pieces of a split with the separator gives back the string. */
  lemma {:induction false} JoinSplit(s: string, sep: char)
    ensures Join(Split(s, sep), [sep]) == s
    decreases |s|
  {
    match IndexOf(s, sep)
    case None =>
    case Some(i) =>
      SplitAt(s, sep, i);
      JoinCons(s[..i], Split(s[i + 1..], sep), [sep]);
      JoinSplit(s[i + 1..], sep);
      SliceAround(s, i);
  }

  /** The first occurrence is the one `IndexOf` finds. */
  lemma {:induction false} IndexOfFirst(s: string, c: char, i: nat)
    requires i < |s| && s[i] == c && c !in s[..i]
    ensures IndexOf(s, c) == Some(i)
    decreases i
  {
    if i > 0 {
      assert s[0] == s[..i][0];
      assert s[1..][..i - 1] == s[1..i];
      assert forall x :: x in s[1..i] ==> x in s[..i];
      IndexOfFirst(s[1..], c, i - 1);
    }
  }

  /** Splitting a join recovers the pieces, when no piece holds the separator. */
  lemma {:induction false} SplitJoin(parts: seq<string>, sep: char)
    requires |parts| >= 1
    requires forall k :: 0 <= k < |parts| ==> sep !in parts[k]
    ensures Split(Join(parts, [sep]), sep) == parts
    decreases |parts|
  {
    if |parts| > 1 {
      assert parts == [parts[0]] + parts[1..];
      JoinCons(parts[0], parts[1..], [sep]);
      SplitCons(parts[0], Join(parts[1..], [sep]), sep);
      SplitJoin(parts[1..], sep);
    }
  }

  /** A piece free of the separator, then the separator, splits off as the first piece. */
  lemma SplitCons(p: string, rest: string, sep: char)
    requires sep !in p
    ensures Split(p + [sep] + rest, sep) == [p] + Split(rest, sep)
  {
    var s := p + [sep] + rest;
    assert s[..|p|] == p;
    IndexOfFirst(s, sep, |p|);
    assert s[|p| + 1..] == rest;
    SplitAt(s, sep, |p|);
  }

  /** The first piece of a split is the text before the first separator. */
  lemma SplitFirst(s: string, sep: char, i: nat)
    requires i < |s| && s[i] == sep && sep !in s[..i]
    ensures Split(s, sep)[0] == s[..i]
    ensures Split(s, sep)[1..] == Split(s[i + 1..], sep)
  {
    IndexOfFirst(s, sep, i);
  }

  /** A string without the separator splits into itself alone. */
  lemma SplitNone(s: string, sep: char)
    requires sep !in s
    ensures Split(s, sep) == [s]
  {
  }

  /** The first piece runs up to the first separator, or to the end when there is none. */
  lemma SplitHead(s: string, sep: char, k: nat)
    requires k <= |s| && sep !in s[..k] && (k == |s| || s[k] == sep)
    ensures Split(s, sep)[0] == s[..k]
  {
    if k == |s| {
      assert s[..k] == s;
      SplitNone(s, sep);
    } else {
      SplitFirst(s, sep, k);
    }
  }

  // ---------------------------------------------------------------------------
  // parseInt and Number-to-string
  // ---------------------------------------------------------------------------

  /** The Numbers that `parseInt` can produce; -0 is folded into 0, which prints and subtracts alike. */
  datatype Number = NaN | Int(value: int)

  predicate IsDecimalDigit(c: char) {
    '0' <= c <= '9'
  }

  predicate IsRadixDigit(c: char, hex: bool) {
    IsDecimalDigit(c) || (hex && (('a' <= c <= 'f') || ('A' <= c <= 'F')))
  }

  function DigitValue(c: char): (v: nat)
    ensures IsDecimalDigit(c) ==> v < 10
    ensures v < 16
  {
    if IsDecimalDigit(c) then c as int - '0' as int
    else if 'a' <= c <= 'f' then c as int - 'a' as int + 10
    else if 'A' <= c <= 'F' then c as int - 'A' as int + 10
    else 0
  }

  /** The length of the longest prefix of `s` made of radix digits. */
  function DigitRun(s: string, hex: bool): (n: nat)
    ensures n <= |s|
    ensures forall i :: 0 <= i < n ==> IsRadixDigit(s[i], hex)
    ensures n < |s| ==> !IsRadixDigit(s[n], hex)
  {
    if |s| > 0 && IsRadixDigit(s[0], hex) then 1 + DigitRun(s[1..], hex) else 0
  }

  /** The value of a string of digits in radix 16 or 10, most significant first. */
  function DigitsValue(s: string, hex: bool): nat {
    if s == [] then 0
    else DigitsValue(s[..|s| - 1], hex) * (if hex then 16 else 10) + DigitValue(s[|s| - 1])
  }

  /** `parseInt(input)` with no radix: leading whitespace, a sign, a `0x` prefix, then the longest run of digits. */
  function ParseInt(input: string): Number {
    var s := TrimStart(input);
    var negative := |s| > 0 && s[0] == '-';
    var unsigned := if |s| > 0 && (s[0] == '-' || s[0] == '+') then s[1..] else s;
    var hex := |unsigned| >= 2 && unsigned[0] == '0' && (unsigned[1] == 'x' || unsigned[1] == 'X');
    var body := if hex then unsigned[2..] else unsigned;
    var digits := body[..DigitRun(body, hex)];
    if digits == [] then NaN
    else
      var magnitude: int := DigitsValue(digits, hex);
      Int(if negative then -magnitude else magnitude)
  }

  function DigitChar(d: nat): char
    requires d < 10
  {
    ('0' as int + d) as char
  }

  /** The decimal numeral of a natural number, as `String(n)` prints it. */
  function NatToString(n: nat): (r: string)
    ensures |r| >= 1
    ensures forall i :: 0 <= i < |r| ==> IsDecimalDigit(r[i])
  {
    if n < 10 then [DigitChar(n)] else NatToString(n / 10) + [DigitChar(n % 10)]
  }

  /** The template-literal rendering `${n}` of a Number. */
  function NumberToString(n: Number): string {
    match n
    case NaN => "NaN"
    case Int(v) => if v < 0 then "-" + NatToString(-v) else NatToString(v)
  }

  predicate AllDecimalDigits(s: string) {
    forall i :: 0 <= i < |s| ==> IsDecimalDigit(s[i])
  }

  /** `parseInt` reads a non-empty string of decimal digits as its decimal value. */
  lemma ParseIntDigits(s: string)
    requires |s| >= 1 && AllDecimalDigits(s)
    ensures ParseInt(s) == Int(DigitsValue(s, false))
  {
    DigitNotWhitespace(s[0]);
    ParseIntUnsigned(s);
    DigitRunAll(s);
    assert s[..|s|] == s;
  }

  lemma DigitNotWhitespace(c: char)
    requires IsDecimalDigit(c)
    ensures !IsWhitespace(c)
  {
  }

  /** `parseInt` of a string that starts with neither whitespace, a sign nor `0x` reads its leading decimal digits. */
  lemma ParseIntUnsigned(s: string)
    requires |s| >= 1 && !IsWhitespace(s[0]) && s[0] != '-' && s[0] != '+'
    requires !(|s| >= 2 && s[0] == '0' && (s[1] == 'x' || s[1] == 'X'))
    ensures var n := DigitRun(s, false);
            ParseInt(s) == if n == 0 then NaN else Int(DigitsValue(s[..n], false))
  {
    assert TrimStart(s) == s;
  }

  lemma {:induction false} DigitRunAll(s: string)
    requires AllDecimalDigits(s)
    ensures DigitRun(s, false) == |s|
    decreases |s|
  {
    if |s| > 0 {
      DigitRunAll(s[1..]);
    }
  }

  /** Reading back a printed natural number gives the number. */
  lemma {:induction false} NatToStringValue(n: nat)
    ensures DigitsValue(NatToString(n), false) == n
    decreases n
  {
    if n >= 10 {
      NatToStringValue(n / 10);
      var r := NatToString(n);
      assert r[..|r| - 1] == NatToString(n / 10);
    }
  }

  /** `parseInt(String(n)) == n` for every natural number. */
  lemma ParseIntNatToString(n: nat)
    ensures ParseInt(NatToString(n)) == Int(n)
  {
    ParseIntDigits(NatToString(n));
    NatToStringValue(n);
  }
}
