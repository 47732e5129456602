/**
 * The string helpers the scripts take from Python's `str` (and one shared
 * truncation helper), written out over `seq<char>`.
 */
module Text {
  import opened Wrappers

  /** The characters Python's argument-less `str.strip()` removes, and the
      ones `int` skips around a number: every character `str.isspace()`
      accepts (the ASCII controls TAB to CR and FS to US, SPACE, NEL,
      NO-BREAK SPACE, the space separators of Unicode and the line and
      paragraph separators). */
  const Whitespace: set<char> :=
    {'\t', '\n', '\U{0B}', '\U{0C}', '\r', '\U{1C}', '\U{1D}', '\U{1E}', '\U{1F}', ' ',
     '\U{85}', '\U{A0}', '\U{1680}',
     '\U{2000}', '\U{2001}', '\U{2002}', '\U{2003}', '\U{2004}', '\U{2005}', '\U{2006}',
     '\U{2007}', '\U{2008}', '\U{2009}', '\U{200A}',
     '\U{2028}', '\U{2029}', '\U{202F}', '\U{205F}', '\U{3000}'}

  predicate IsSpace(c: char) {
    c in Whitespace
  }

  predicate IsDigit(c: char) {
    '0' <= c <= '9'
  }

  /** `[a-zA-Z0-9]` */
  predicate IsAsciiAlnum(c: char) {
    IsDigit(c) || ('a' <= c <= 'z') || ('A' <= c <= 'Z')
  }

  // ---------------------------------------------------------------------------
  // strip

  /** Drops the leading characters that are in `drop`. */
  function TrimLeft(s: string, drop: set<char>): (r: string)
    ensures |r| <= |s|
    ensures forall i :: 0 <= i < |s| - |r| ==> s[i] in drop
    ensures r == [] || r[0] !in drop
  {
    if s != [] && s[0] in drop then TrimLeft(s[1..], drop) else s
  }

  /** Drops the trailing characters that are in `drop`. */
  function TrimRight(s: string, drop: set<char>): (r: string)
    ensures |r| <= |s|
    ensures forall i :: |r| <= i < |s| ==> s[i] in drop
    ensures r == [] || r[|r| - 1] !in drop
  {
    if s != [] && s[|s| - 1] in drop then TrimRight(s[..|s| - 1], drop) else s
  }

  /** What `TrimLeft` keeps is a suffix of its input. (Kept out of the
      function's own contract: stated there, it lets the solver unfold
      `Strip(s) == s` without end.) */
  lemma {:induction false} TrimLeftSlice(s: string, drop: set<char>)
    ensures TrimLeft(s, drop) == s[|s| - |TrimLeft(s, drop)|..]
  {
    if s != [] && s[0] in drop {
      TrimLeftSlice(s[1..], drop);
      assert s[1..][|s| - 1 - |TrimLeft(s, drop)|..] == s[|s| - |TrimLeft(s, drop)|..];
    }
  }

  /** What `TrimRight` keeps is a prefix of its input. */
  lemma {:induction false} TrimRightSlice(s: string, drop: set<char>)
    ensures TrimRight(s, drop) == s[..|TrimRight(s, drop)|]
  {
    if s != [] && s[|s| - 1] in drop {
      TrimRightSlice(s[..|s| - 1], drop);
      assert s[..|s| - 1][..|TrimRight(s, drop)|] == s[..|TrimRight(s, drop)|];
    }
  }

  /** `s.strip(chars)` with `drop` the set of `chars`. */
  function StripBy(s: string, drop: set<char>): (r: string)
    ensures r == [] || (r[0] !in drop && r[|r| - 1] !in drop)
  {
    var l := TrimLeft(s, drop);
    var r := TrimRight(l, drop);
    TrimRightSlice(l, drop);
    assert r != [] ==> r[0] == l[0];
    r
  }

  /** `s.strip()` */
  function Strip(s: string): string {
    StripBy(s, Whitespace)
  }

  /** `s.strip(c)` for a single character `c`. */
  function StripChar(s: string, c: char): string {
    StripBy(s, {c})
  }

  /** What `strip` keeps is a slice of the input with only dropped
      characters around it. */
  lemma StripByShape(s: string, drop: set<char>)
    ensures var r := StripBy(s, drop);
      var i := |s| - |TrimLeft(s, drop)|;
      && i + |r| <= |s| && r == s[i..i + |r|]
      && (forall k :: 0 <= k < i ==> s[k] in drop)
      && (forall k :: i + |r| <= k < |s| ==> s[k] in drop)
  {
    var l := TrimLeft(s, drop);
    var r := TrimRight(l, drop);
    var i := |s| - |l|;
    TrimLeftSlice(s, drop);
    TrimRightSlice(l, drop);
    assert l == s[i..];
    assert r == l[..|r|];
    assert r == s[i..i + |r|];
    forall k | i + |r| <= k < |s| ensures s[k] in drop {
      assert s[k] == l[k - i];
    }
  }

  /** Stripping a word framed by one dropped character on each side gives
      the word back. */
  lemma StripByFramed(w: string, drop: set<char>, c: char)
    requires c in drop && w != [] && w[0] !in drop && w[|w| - 1] !in drop
    ensures StripBy([c] + w + [c], drop) == w
  {
    var p := [c] + w + [c];
    assert p[1..] == w + [c];
    assert TrimLeft(p, drop) == w + [c];
    assert (w + [c])[..|w|] == w;
    assert TrimRight(w + [c], drop) == TrimRight(w, drop);
  }

  /** A string whose ends are kept strips to itself. */
  lemma StripByFramedless(w: string, drop: set<char>)
    requires w != [] && w[0] !in drop && w[|w| - 1] !in drop
    ensures StripBy(w, drop) == w
  {
    assert TrimLeft(w, drop) == w;
  }

  /** `not s.strip()` holds exactly when `s` is all white space. */
  lemma StripEmptyIff(s: string)
    ensures Strip(s) == [] <==> forall i :: 0 <= i < |s| ==> IsSpace(s[i])
  {
    var l := TrimLeft(s, Whitespace);
    TrimLeftSlice(s, Whitespace);
    if Strip(s) == [] {
      forall i | 0 <= i < |s| ensures IsSpace(s[i]) {
        if i >= |s| - |l| {
          assert s[i] == l[i - (|s| - |l|)];
        }
      }
    }
  }

  /** Stripping twice is stripping once. */
  lemma StripIdempotent(s: string)
    ensures Strip(Strip(s)) == Strip(s)
  {
    var r := Strip(s);
    assert TrimLeft(r, Whitespace) == r;
    assert TrimRight(r, Whitespace) == r;
  }

  /** Leading dropped characters in front of a kept one are all removed. */
  lemma {:induction false} TrimLeftPadded(pre: string, rest: string, drop: set<char>)
    requires forall k :: 0 <= k < |pre| ==> pre[k] in drop
    requires rest == [] || rest[0] !in drop
    ensures TrimLeft(pre + rest, drop) == rest
  {
    if pre == [] {
      assert pre + rest == rest;
    } else {
      assert (pre + rest)[1..] == pre[1..] + rest;
      TrimLeftPadded(pre[1..], rest, drop);
    }
  }

  /** Trailing dropped characters after a kept one are all removed. */
  lemma {:induction false} TrimRightPadded(rest: string, post: string, drop: set<char>)
    requires forall k :: 0 <= k < |post| ==> post[k] in drop
    requires rest == [] || rest[|rest| - 1] !in drop
    ensures TrimRight(rest + post, drop) == rest
  {
    if post == [] {
      assert rest + post == rest;
    } else {
      assert (rest + post)[..|rest + post| - 1] == rest + post[..|post| - 1];
      TrimRightPadded(rest, post[..|post| - 1], drop);
    }
  }

  /** `(pre + w + post).strip() == w` when `pre` and `post` are white space
      and `w` neither starts nor ends with it. */
  lemma StripPadded(pre: string, w: string, post: string)
    requires forall k :: 0 <= k < |pre| ==> IsSpace(pre[k])
    requires forall k :: 0 <= k < |post| ==> IsSpace(post[k])
    requires w == [] || (!IsSpace(w[0]) && !IsSpace(w[|w| - 1]))
    ensures Strip(pre + w + post) == w
  {
    var s := pre + w + post;
    if w == [] {
      assert s == pre + post;
      StripEmptyIff(s);
    } else {
      assert s == pre + (w + post);
      TrimLeftPadded(pre, w + post, Whitespace);
      TrimRightPadded(w, post, Whitespace);
    }
  }

  // ---------------------------------------------------------------------------
  // prefixes and slices

  /** `s.startswith(p)` */
  predicate StartsWith(s: string, p: string) {
    |p| <= |s| && s[..|p|] == p
  }

  /** A string that starts with `p` has `p`'s characters at its front. */
  lemma PrefixChar(s: string, p: string, k: nat)
    requires StartsWith(s, p) && k < |p|
    ensures s[k] == p[k]
  {
    assert s[..|p|][k] == s[k];
  }

  /** `s[:n]` with Python's clamping and negative-index rules. */
  function PyPrefix(s: string, n: int): (r: string)
    ensures 0 <= n ==> r == s[..if n < |s| then n else |s|]
    ensures n < 0 ==> r == s[..if |s| + n < 0 then 0 else |s| + n]
  {
    if n >= 0 then (if n < |s| then s[..n] else s)
    else (if |s| + n < 0 then [] else s[..|s| + n])
  }

  // ---------------------------------------------------------------------------
  // truncation

  /** The marker appended to text cut short. */
  const TruncationMarker: string := "\n...[truncated]..."

  /** `trim_text`: the text unchanged when it fits, otherwise `text[:maxChars]`
      followed by the marker. */
  function TrimText(text: string, maxChars: int): (r: string)
  {
    if |text| <= maxChars then text else PyPrefix(text, maxChars) + TruncationMarker
  }

  /** What `TrimText` promises for a non-negative limit: verbatim when short
      enough, otherwise exactly `maxChars` characters of it and the 18-character
      marker, so never longer than `maxChars + 18`. */
  lemma TrimTextSpec(text: string, maxChars: nat)
    ensures |text| <= maxChars ==> TrimText(text, maxChars) == text
    ensures |text| > maxChars ==> TrimText(text, maxChars) == text[..maxChars] + TruncationMarker
    ensures |TruncationMarker| == 18
    ensures |TrimText(text, maxChars)| <= maxChars + 18
  {
  }

  /** `truncate(text, limit)` of the chat bridges: strip first, then trim. */
  function Truncate(text: string, limit: nat): (r: string)
    ensures |Strip(text)| <= limit ==> r == Strip(text)
    ensures |Strip(text)| > limit ==> r == Strip(text)[..limit] + TruncationMarker
    ensures r == [] <==> Strip(text) == []
  {
    TrimText(Strip(text), limit)
  }

  // ---------------------------------------------------------------------------
  // split and join

  /** Number of occurrences of `c` in `s`. */
  function Count(s: string, c: char): nat {
    if s == [] then 0 else (if s[0] == c then 1 else 0) + Count(s[1..], c)
  }

  /** `s.split(sep)` for a one-character separator: always at least one part,
      one more part than there are separators, and no part holds `sep`. */
  function Split(s: string, sep: char): (parts: seq<string>)
    ensures |parts| == Count(s, sep) + 1
    ensures forall k :: 0 <= k < |parts| ==> sep !in parts[k]
  {
    if s == [] then [[]]
    else
      var rest := Split(s[1..], sep);
      if s[0] == sep then [[]] + rest else [[s[0]] + rest[0]] + rest[1..]
  }

  /** `sep.join(parts)` */
  function Join(parts: seq<string>, sep: char): string
    requires |parts| >= 1
  {
    if |parts| == 1 then parts[0] else parts[0] + [sep] + Join(parts[1..], sep)
  }

  lemma {:induction false} JoinConsHead(c: char, parts: seq<string>, sep: char)
    requires |parts| >= 1
    ensures Join([[c] + parts[0]] + parts[1..], sep) == [c] + Join(parts, sep)
  {
    var q := [[c] + parts[0]] + parts[1..];
    if |parts| > 1 {
      assert q[1..] == parts[1..];
    }
  }

  /** Joining the parts of a split gives back the input. */
  lemma {:induction false} JoinSplit(s: string, sep: char)
    ensures Join(Split(s, sep), sep) == s
  {
    if s != [] {
      var rest := Split(s[1..], sep);
      JoinSplit(s[1..], sep);
      if s[0] == sep {
        assert ([[]] + rest)[1..] == rest;
      } else {
        JoinConsHead(s[0], rest, sep);
      }
    }
  }

  /** Splitting a join of separator-free parts gives back the parts. */
  lemma {:induction false} SplitJoin(parts: seq<string>, sep: char)
    requires |parts| >= 1
    requires forall k :: 0 <= k < |parts| ==> sep !in parts[k]
    ensures Split(Join(parts, sep), sep) == parts
  {
    if |parts| == 1 {
      SplitPlain(parts[0], sep, []);
      assert parts[0] + [] == parts[0] && Split([], sep) == [[]];
    } else {
      SplitJoin(parts[1..], sep);
      var t := [sep] + Join(parts[1..], sep);
      assert t[1..] == Join(parts[1..], sep);
      assert Split(t, sep) == [[]] + parts[1..];
      SplitPlain(parts[0], sep, t);
      assert Join(parts, sep) == parts[0] + t;
      assert parts[0] + [] == parts[0];
      assert parts == [parts[0]] + parts[1..];
    }
  }

  /** A separator-free prefix glues onto the first part of the split. */
  lemma {:induction false} SplitPlain(w: string, sep: char, t: string)
    requires sep !in w
    ensures |Split(w + t, sep)| == |Split(t, sep)|
    ensures Split(w + t, sep) == [w + Split(t, sep)[0]] + Split(t, sep)[1..]
  {
    if w != [] {
      SplitPlain(w[1..], sep, t);
      assert (w + t)[1..] == w[1..] + t;
      assert [w[0]] + (w[1..] + Split(t, sep)[0]) == w + Split(t, sep)[0];
    } else {
      assert w + t == t;
      assert w + Split(t, sep)[0] == Split(t, sep)[0];
      assert Split(t, sep) == [Split(t, sep)[0]] + Split(t, sep)[1..];
    }
  }

  // ---------------------------------------------------------------------------
  // digits and decimal numbers

  /** `s.isdigit()` restricted to ASCII digits: non-empty and all digits. */
  predicate IsDigits(s: string) {
    |s| > 0 && forall i :: 0 <= i < |s| ==> IsDigit(s[i])
  }

  function DigitValue(c: char): nat
    requires IsDigit(c)
  {
    c as int - '0' as int
  }

  /** `int(s)` for a string of ASCII digits (an empty string reads as 0). */
  function DigitsValue(s: string): nat
    requires forall i :: 0 <= i < |s| ==> IsDigit(s[i])
  {
    if s == [] then 0 else DigitsValue(s[..|s| - 1]) * 10 + DigitValue(s[|s| - 1])
  }

  function DigitChar(d: nat): (c: char)
    requires d < 10
    ensures IsDigit(c) && DigitValue(c) == d
  {
    ('0' as int + d) as char
  }

  /** Decimal text of a natural number, as `str(n)`. */
  function NatToString(n: nat): (s: string)
    ensures IsDigits(s)
  {
    if n < 10 then [DigitChar(n)] else NatToString(n / 10) + [DigitChar(n % 10)]
  }

  /** `str(i)` */
  function IntToString(i: int): string {
    if i < 0 then "-" + NatToString(-i) else NatToString(i)
  }

  /** Reading back a rendered number gives the number. */
  lemma {:induction false} NatToStringRoundTrip(n: nat)
    ensures DigitsValue(NatToString(n)) == n
  {
    if n >= 10 {
      NatToStringRoundTrip(n / 10);
      var s := NatToString(n);
      assert s[..|s| - 1] == NatToString(n / 10);
    }
  }

  /** `int(s)` for ASCII decimal text: surrounding white space and one sign
      are allowed. */
  function PyInt(s: string): Result<int> {
    var t := Strip(s);
    if IsDigits(t) then Ok(DigitsValue(t) as int)
    else if |t| >= 2 && (t[0] == '+' || t[0] == '-') && IsDigits(t[1..]) then
      var magnitude: int := DigitsValue(t[1..]);
      Ok(if t[0] == '-' then -magnitude else magnitude)
    else Err(IntError(s))
  }

  /** The message of the `ValueError` `int(s)` raises: the literal is shown
      as `repr` shows it, cut after 200 characters. */
  function IntError(s: string): string {
    IntErrorHead + PyPrefix(PyRepr(s), 200)
  }

  const IntErrorHead: string := "invalid literal for int() with base 10: "

  /** A digit string is already stripped. */
  lemma StripDigits(s: string)
    requires IsDigits(s)
    ensures Strip(s) == s
  {
    assert s[0] !in Whitespace && s[|s| - 1] !in Whitespace;
    assert TrimLeft(s, Whitespace) == s;
  }

  /** `int` reads a digit string as its decimal value. */
  lemma PyIntOfDigits(s: string)
    requires IsDigits(s)
    ensures PyInt(s) == Ok(DigitsValue(s) as int)
  {
    StripDigits(s);
  }

  /** `int` skips any white space around the digits, the Unicode spaces
      included. */
  lemma PyIntPadded(pre: string, d: string, post: string)
    requires IsDigits(d)
    requires forall k :: 0 <= k < |pre| ==> IsSpace(pre[k])
    requires forall k :: 0 <= k < |post| ==> IsSpace(post[k])
    ensures PyInt(pre + d + post) == Ok(DigitsValue(d) as int)
  {
    StripPadded(pre, d, post);
  }

  /** `int` raises on any text holding a character that is neither blank,
      a sign nor an ASCII digit. */
  lemma PyIntRejects(s: string, k: nat)
    requires k < |s| && !IsDigit(s[k]) && !IsSpace(s[k]) && s[k] != '+' && s[k] != '-'
    ensures PyInt(s) == Err(IntError(s))
  {
    StripByShape(s, Whitespace);
    var t := Strip(s);
    var i := |s| - |TrimLeft(s, Whitespace)|;
    assert i <= k < i + |t|;
    assert t[k - i] == s[k];
    if k - i > 0 {
      assert t[1..][k - i - 1] == s[k];
    }
  }

  /** `int` reads a minus sign and digits as the negated value. */
  lemma PyIntOfNegative(d: string)
    requires IsDigits(d)
    ensures PyInt("-" + d) == Ok(-(DigitsValue(d) as int))
  {
    var s := "-" + d;
    assert s[0] == '-' && s[1..] == d && s[|s| - 1] == d[|d| - 1];
    StripByFramedless(s, Whitespace);
    PyIntSigned(s);
  }

  /** A stripped sign followed by digits is read by the sign branch. */
  lemma PyIntSigned(t: string)
    requires Strip(t) == t && |t| >= 2 && (t[0] == '+' || t[0] == '-') && IsDigits(t[1..])
    ensures PyInt(t) == Ok(if t[0] == '-' then -(DigitsValue(t[1..]) as int) else DigitsValue(t[1..]) as int)
  {
    assert !IsDigit(t[0]);
  }

  /** `int(str(i)) == i` */
  lemma PyIntRoundTrip(i: int)
    ensures PyInt(IntToString(i)) == Ok(i)
  {
    if i < 0 {
      PyIntRoundTripNegative(-i);
    } else {
      PyIntRoundTripNat(i);
    }
  }

  lemma PyIntRoundTripNat(n: nat)
    ensures PyInt(IntToString(n)) == Ok(n)
  {
    var s := NatToString(n);
    assert IntToString(n) == s;
    NatToStringRoundTrip(n);
    PyIntOfDigits(s);
  }

  lemma PyIntRoundTripNegative(n: nat)
    requires n > 0
    ensures PyInt(IntToString(-(n as int))) == Ok(-(n as int))
  {
    var i := -(n as int);
    var d := NatToString(n);
    assert -i == n;
    assert IntToString(i) == "-" + d;
    NatToStringRoundTrip(n);
    PyIntOfNegative(d);
  }

  // ---------------------------------------------------------------------------
  // repr

  /** The characters `repr` writes as themselves: printable ASCII and the
      printable characters from U+00A1 on (all but SOFT HYPHEN below
      U+0100). */
  predicate ReprPrintable(c: char) {
    (' ' <= c < '\U{7F}') || ('\U{A0}' < c && c != '\U{AD}')
  }

  /** A hexadecimal digit as `repr` writes it, in lower case. */
  function HexDigit(d: nat): (c: char)
    requires d < 16
    ensures '0' <= c <= '9' || 'a' <= c <= 'f'
  {
    if d < 10 then ('0' as int + d) as char else ('a' as int + d - 10) as char
  }

  /** How `repr` writes one character inside quotes `quote`: the quote and
      the backslash behind a backslash, TAB, LF and CR by their letters,
      a printable character as itself, any other as `\xhh`. */
  function ReprChar(c: char, quote: char): (r: string)
    ensures r != []
    ensures ReprPrintable(c) && c != quote && c != '\\' ==> r == [c]
  {
    if c == quote || c == '\\' then ['\\', c]
    else if c == '\t' then ['\\', 't']
    else if c == '\n' then ['\\', 'n']
    else if c == '\r' then ['\\', 'r']
    else if ReprPrintable(c) then [c]
    else ['\\', 'x', HexDigit(c as int / 16), HexDigit(c as int % 16)]
  }

  function ReprBody(s: string, quote: char): (r: string)
    ensures |r| >= |s|
  {
    if s == [] then [] else ReprChar(s[0], quote) + ReprBody(s[1..], quote)
  }

  /** `repr(s)`: single quotes, unless `s` holds a single quote and no
      double quote. */
  function PyRepr(s: string): (r: string)
    ensures |r| >= |s| + 2 && r[0] == r[|r| - 1] && (r[0] == '\'' || r[0] == '"')
    ensures r[0] == '"' <==> '\'' in s && '"' !in s
  {
    var quote := if '\'' in s && '"' !in s then '"' else '\'';
    [quote] + ReprBody(s, quote) + [quote]
  }

  /** A printable character that is neither a quote nor a backslash. */
  predicate ReprPlain(c: char) {
    ReprPrintable(c) && c !in "'\"\\"
  }

  /** Text of printable characters without quotes or backslashes is shown
      as itself between single quotes. */
  lemma PyReprPlain(s: string)
    requires forall i :: 0 <= i < |s| ==> ReprPlain(s[i])
    ensures PyRepr(s) == "'" + s + "'"
  {
    ReprBodyPlain(s, '\'');
  }

  /** For such a text of at most 198 characters, `int`'s message quotes it
      whole. */
  lemma IntErrorPlain(s: string)
    requires |s| <= 198 && forall i :: 0 <= i < |s| ==> ReprPlain(s[i])
    ensures IntError(s) == IntErrorHead + "'" + s + "'"
  {
    PyReprPlain(s);
  }

  lemma {:induction false} ReprBodyPlain(s: string, quote: char)
    requires forall i :: 0 <= i < |s| ==> ReprPrintable(s[i]) && s[i] != quote && s[i] != '\\'
    ensures ReprBody(s, quote) == s
  {
    if s != [] {
      ReprBodyPlain(s[1..], quote);
      assert s == [s[0]] + s[1..];
    }
  }

  // ---------------------------------------------------------------------------
  // case

  /** ASCII `lower()` of one character. */
  function LowerChar(c: char): (r: char)
    ensures 'A' <= c <= 'Z' ==> 'a' <= r <= 'z'
    ensures !('A' <= c <= 'Z') ==> r == c
  {
    if 'A' <= c <= 'Z' then (c as int + 32) as char else c
  }

  /** `s.lower()` on ASCII letters; every other character is kept. */
  function Lower(s: string): (r: string)
    ensures |r| == |s| && forall i :: 0 <= i < |s| ==> r[i] == LowerChar(s[i])
  {
    seq(|s|, i requires 0 <= i < |s| => LowerChar(s[i]))
  }

  // ---------------------------------------------------------------------------
  // ordering and `sorted(set(...))`

  /** Python's `<` on `str`: code-point lexicographic order. */
  predicate Less(a: string, b: string)
    decreases |a|
  {
    if a == [] then b != []
    else b != [] && (a[0] < b[0] || (a[0] == b[0] && Less(a[1..], b[1..])))
  }

  lemma {:induction false} LessIrreflexive(a: string)
    ensures !Less(a, a)
    decreases |a|
  {
    if a != [] {
      LessIrreflexive(a[1..]);
    }
  }

  lemma {:induction false} LessTransitive(a: string, b: string, c: string)
    requires Less(a, b) && Less(b, c)
    ensures Less(a, c)
    decreases |a|
  {
    if a != [] && a[0] == b[0] && b[0] == c[0] {
      LessTransitive(a[1..], b[1..], c[1..]);
    }
  }

  lemma {:induction false} LessTotal(a: string, b: string)
    requires a != b
    ensures Less(a, b) || Less(b, a)
    decreases |a|
  {
    if a != [] && b != [] && a[0] == b[0] {
      assert a == [a[0]] + a[1..] && b == [b[0]] + b[1..];
      LessTotal(a[1..], b[1..]);
    }
  }

  /** Strictly increasing: sorted and free of duplicates. */
  predicate StrictlySorted(xs: seq<string>) {
    forall i, j :: 0 <= i < j < |xs| ==> Less(xs[i], xs[j])
  }

  function Elems(xs: seq<string>): set<string> {
    set x | x in xs
  }

  /** Inserts `x` into a strictly increasing list unless it is already there. */
  function Insert(x: string, xs: seq<string>): seq<string> {
    if xs == [] then [x]
    else if x == xs[0] then xs
    else if Less(x, xs[0]) then [x] + xs
    else [xs[0]] + Insert(x, xs[1..])
  }

  lemma {:induction false} InsertSpec(x: string, xs: seq<string>)
    requires StrictlySorted(xs)
    ensures StrictlySorted(Insert(x, xs)) && Elems(Insert(x, xs)) == Elems(xs) + {x}
  {
    InsertElems(x, xs);
    if xs == [] {
    } else if x == xs[0] {
    } else if Less(x, xs[0]) {
      forall y | y in xs ensures Less(x, y) {
        var k :| 0 <= k < |xs| && xs[k] == y;
        if k > 0 {
          LessTransitive(x, xs[0], y);
        }
      }
      ConsSorted(x, xs);
    } else {
      LessTotal(x, xs[0]);
      InsertSpec(x, xs[1..]);
      var t := Insert(x, xs[1..]);
      forall y | y in t ensures Less(xs[0], y) {
        assert y in Elems(t);
        if y != x {
          assert y in Elems(xs[1..]);
          var k :| 0 <= k < |xs[1..]| && xs[1..][k] == y;
          assert xs[k + 1] == y;
        }
      }
      ConsSorted(xs[0], t);
    }
  }

  lemma {:induction false} InsertElems(x: string, xs: seq<string>)
    ensures Elems(Insert(x, xs)) == Elems(xs) + {x}
  {
    if xs != [] && x != xs[0] && !Less(x, xs[0]) {
      InsertElems(x, xs[1..]);
      assert xs == [xs[0]] + xs[1..];
      assert Insert(x, xs) == [xs[0]] + Insert(x, xs[1..]);
      assert Elems([xs[0]] + xs[1..]) == {xs[0]} + Elems(xs[1..]);
      assert Elems([xs[0]] + Insert(x, xs[1..])) == {xs[0]} + Elems(Insert(x, xs[1..]));
    } else if xs != [] && x != xs[0] {
      assert Elems([x] + xs) == {x} + Elems(xs);
    }
  }

  lemma ConsSorted(h: string, t: seq<string>)
    requires StrictlySorted(t) && forall y :: y in t ==> Less(h, y)
    ensures StrictlySorted([h] + t)
  {
    var r := [h] + t;
    forall i, j | 0 <= i < j < |r| ensures Less(r[i], r[j]) {
      assert r[j] == t[j - 1];
      if i > 0 {
        assert r[i] == t[i - 1];
      }
    }
  }

  /** `sorted(set(xs))`: the distinct elements of `xs` in increasing order. */
  function SortedDistinct(xs: seq<string>): (r: seq<string>)
    ensures StrictlySorted(r) && Elems(r) == Elems(xs)
  {
    if xs == [] then []
    else
      var rest := SortedDistinct(xs[..|xs| - 1]);
      InsertSpec(xs[|xs| - 1], rest);
      assert Elems(xs) == Elems(xs[..|xs| - 1]) + {xs[|xs| - 1]} by {
        assert xs == xs[..|xs| - 1] + [xs[|xs| - 1]];
      }
      Insert(xs[|xs| - 1], rest)
  }

  /** A strictly increasing list is determined by its elements, so
      `sorted(...)` of a set has exactly one possible value. */
  lemma {:induction false} StrictlySortedUnique(a: seq<string>, b: seq<string>)
    requires StrictlySorted(a) && StrictlySorted(b) && Elems(a) == Elems(b)
    ensures a == b
  {
    if a != [] {
      assert a[0] in Elems(b);
    }
    if b != [] {
      assert b[0] in Elems(a);
    }
    if a != [] && b != [] {
      if a[0] != b[0] {
        var i :| 0 <= i < |b| && b[i] == a[0];
        var j :| 0 <= j < |a| && a[j] == b[0];
        assert Less(a[0], b[0]) && Less(b[0], a[0]);
        LessTransitive(a[0], b[0], a[0]);
        LessIrreflexive(a[0]);
      }
      assert Elems(a[1..]) == Elems(a) - {a[0]} by {
        forall k | 0 < k < |a| ensures a[k] != a[0] { LessIrreflexive(a[0]); }
        assert a == [a[0]] + a[1..];
      }
      assert Elems(b[1..]) == Elems(b) - {b[0]} by {
        forall k | 0 < k < |b| ensures b[k] != b[0] { LessIrreflexive(b[0]); }
        assert b == [b[0]] + b[1..];
      }
      StrictlySortedUnique(a[1..], b[1..]);
      assert a == [a[0]] + a[1..] && b == [b[0]] + b[1..];
    }
  }


  // ---------------------------------------------------------------------------
  // runs of a character class: `re.search("([class]{min,})", s)`

  /** The length of the run of characters satisfying `p` that starts at `i`. */
  function RunLength(s: string, i: nat, p: char -> bool): (n: nat)
    requires i <= |s|
    ensures i + n <= |s|
    ensures forall k :: i <= k < i + n ==> p(s[k])
    ensures i + n == |s| || !p(s[i + n])
    decreases |s| - i
  {
    if i < |s| && p(s[i]) then 1 + RunLength(s, i + 1, p) else 0
  }

  /** `min` characters satisfying `p` start at `j`: a place the pattern can
      match. */
  predicate Window(s: string, j: int, p: char -> bool, min: nat) {
    0 <= j && j + min <= |s| && forall k :: j <= k < j + min ==> p(s[k])
  }

  /** The pattern matches nowhere in `s[i..]`. */
  predicate NoWindowFrom(s: string, i: nat, p: char -> bool, min: nat) {
    forall j :: i <= j <= |s| ==> !Window(s, j, p, min)
  }

  /** The first run of at least `min` characters satisfying `p` at or after
      `i`, as its start and length; runs too short are skipped whole. */
  function FindRun(s: string, i: nat, p: char -> bool, min: nat): (r: Option<(nat, nat)>)
    requires i <= |s|
    ensures r.Some? ==> i <= r.value.0 && r.value.0 + r.value.1 <= |s| && r.value.1 >= min
    ensures r.Some? ==> forall k :: r.value.0 <= k < r.value.0 + r.value.1 ==> p(s[k])
    decreases |s| - i
  {
    if i == |s| then None
    else if !p(s[i]) then FindRun(s, i + 1, p, min)
    else
      var n := RunLength(s, i, p);
      if n >= min then Some((i, n)) else FindRun(s, i + n, p, min)
  }

  /** For `min >= 1` the search finds the leftmost place the pattern can
      match, taken greedily to the end of its run, and nothing exactly when
      there is no such place. */
  lemma FindRunSpec(s: string, i: nat, p: char -> bool, min: nat)
    requires i <= |s| && min >= 1
    ensures FindRun(s, i, p, min).None? <==> NoWindowFrom(s, i, p, min)
    ensures FindRun(s, i, p, min).Some? ==> var (start, n) := FindRun(s, i, p, min).value;
      && Window(s, start, p, min) && n >= min
      && (forall j :: i <= j < start ==> !Window(s, j, p, min))
      && (forall k :: start <= k < start + n ==> p(s[k]))
      && (start + n == |s| || !p(s[start + n]))
  {
    FindRunNone(s, i, p, min);
    FindRunFirst(s, i, p, min);
    FindRunWhole(s, i, p, min);
  }

  /** A failed search means no place from `i` on could match. */
  lemma {:induction false} FindRunNone(s: string, i: nat, p: char -> bool, min: nat)
    requires i <= |s| && min >= 1
    ensures FindRun(s, i, p, min).None? ==> NoWindowFrom(s, i, p, min)
    decreases |s| - i
  {
    if i < |s| {
      if !p(s[i]) {
        FindRunNone(s, i + 1, p, min);
        assert !Window(s, i, p, min);
        NoWindowSkip(s, i, i + 1, p, min);
      } else if RunLength(s, i, p) < min {
        var n := RunLength(s, i, p);
        FindRunNone(s, i + n, p, min);
        ShortRunNoWindow(s, i, p, min);
        NoWindowSkip(s, i, i + n, p, min);
      }
    }
  }

  /** A found start is a place the pattern matches, and no earlier place
      from `i` on is one. */
  lemma {:induction false} FindRunFirst(s: string, i: nat, p: char -> bool, min: nat)
    requires i <= |s| && min >= 1
    ensures FindRun(s, i, p, min).Some? ==>
      && Window(s, FindRun(s, i, p, min).value.0, p, min)
      && forall j :: i <= j < FindRun(s, i, p, min).value.0 ==> !Window(s, j, p, min)
    decreases |s| - i
  {
    if i < |s| {
      if !p(s[i]) {
        FindRunFirst(s, i + 1, p, min);
        assert !Window(s, i, p, min);
      } else if RunLength(s, i, p) < min {
        FindRunFirst(s, i + RunLength(s, i, p), p, min);
        ShortRunNoWindow(s, i, p, min);
      } else {
        assert Window(s, i, p, min);
      }
    }
  }

  /** A found run is the whole run at its start. */
  lemma {:induction false} FindRunWhole(s: string, i: nat, p: char -> bool, min: nat)
    requires i <= |s|
    ensures FindRun(s, i, p, min).Some? ==>
      FindRun(s, i, p, min).value.1 == RunLength(s, FindRun(s, i, p, min).value.0, p)
    decreases |s| - i
  {
    if i < |s| {
      if !p(s[i]) {
        FindRunWhole(s, i + 1, p, min);
      } else if RunLength(s, i, p) < min {
        FindRunWhole(s, i + RunLength(s, i, p), p, min);
      }
    }
  }

  /** No match can start inside a run shorter than `min`. */
  lemma ShortRunNoWindow(s: string, i: nat, p: char -> bool, min: nat)
    requires i <= |s| && RunLength(s, i, p) < min
    ensures forall j :: i <= j < i + RunLength(s, i, p) ==> !Window(s, j, p, min)
  {
    var n := RunLength(s, i, p);
    forall j | i <= j < i + n ensures !Window(s, j, p, min) {
      if i + n < |s| {
        assert j <= i + n < j + min && !p(s[i + n]);
      }
    }
  }

  /** Skipping places where no match starts changes neither whether there
      is a match nor which one is first. */
  lemma NoWindowSkip(s: string, i: nat, j: nat, p: char -> bool, min: nat)
    requires i <= j <= |s|
    requires forall k :: i <= k < j ==> !Window(s, k, p, min)
    ensures NoWindowFrom(s, i, p, min) <==> NoWindowFrom(s, j, p, min)
  {
  }

  /** The text the search matches: its group 1. */
  function FirstRun(s: string, p: char -> bool, min: nat): (r: Option<string>)
    ensures r.Some? ==> |r.value| >= min && forall k :: 0 <= k < |r.value| ==> p(r.value[k])
  {
    match FindRun(s, 0, p, min)
    case None => None
    case Some((start, n)) => Some(s[start..start + n])
  }

  /** `run` is a whole run of characters satisfying `p` in `s`, starting at
      `start` and at least `min` long. */
  predicate MaximalRunAt(s: string, start: int, run: string, p: char -> bool, min: nat) {
    && 0 <= start && start + |run| <= |s| && run == s[start..start + |run|]
    && |run| >= min && (forall k :: 0 <= k < |run| ==> p(run[k]))
    && (start == 0 || !p(s[start - 1]))
    && (start + |run| == |s| || !p(s[start + |run|]))
  }

  /** What the search returns: nothing exactly when the pattern matches
      nowhere; otherwise a whole run of at least `min` characters, with no
      place the pattern could match before it. */
  lemma FirstRunSpec(s: string, p: char -> bool, min: nat)
    requires min >= 1
    ensures FirstRun(s, p, min).None? <==> NoWindowFrom(s, 0, p, min)
    ensures FirstRun(s, p, min).Some? ==>
      exists start :: MaximalRunAt(s, start, FirstRun(s, p, min).value, p, min)
                      && (forall j :: 0 <= j < start ==> !Window(s, j, p, min))
  {
    FindRunSpec(s, 0, p, min);
    match FindRun(s, 0, p, min)
    case None =>
    case Some((start, n)) =>
      assert FirstRun(s, p, min) == Some(s[start..start + n]);
      FirstWindowIsMaximal(s, start, n, p, min);
  }

  /** A run that ends where the characters stop satisfying `p`, and before
      which no place matches, also has no satisfying character just before
      it. */
  lemma FirstWindowIsMaximal(s: string, start: nat, n: nat, p: char -> bool, min: nat)
    requires min >= 1 && start + n <= |s| && n >= min
    requires Window(s, start, p, min)
    requires forall j :: 0 <= j < start ==> !Window(s, j, p, min)
    requires forall k :: start <= k < start + n ==> p(s[k])
    requires start + n == |s| || !p(s[start + n])
    ensures MaximalRunAt(s, start, s[start..start + n], p, min)
  {
    if start > 0 {
      assert !Window(s, start - 1, p, min);
    }
  }

  /** A string with no character of the class, then a run of at least `min`
      of them that ends the string: the search finds that run. */
  lemma FirstRunAfter(w: string, d: string, p: char -> bool, min: nat)
    requires forall k :: 0 <= k < |w| ==> !p(w[k])
    requires forall k :: 0 <= k < |d| ==> p(d[k])
    requires 1 <= min <= |d|
    ensures FirstRun(w + d, p, min) == Some(d)
  {
    var s := w + d;
    FindRunSpec(s, 0, p, min);
    assert Window(s, |w|, p, min) by {
      forall k | |w| <= k < |w| + min ensures p(s[k]) {
        assert s[k] == d[k - |w|];
      }
    }
    var (start, n) := FindRun(s, 0, p, min).value;
    assert forall k :: 0 <= k < |w| ==> !p(s[k]) by {
      forall k | 0 <= k < |w| ensures !p(s[k]) {
        assert s[k] == w[k];
      }
    }
    assert forall k :: |w| <= k < |s| ==> p(s[k]) by {
      forall k | |w| <= k < |s| ensures p(s[k]) {
        assert s[k] == d[k - |w|];
      }
    }
    assert p(s[start]);
    assert start <= |w|;
    assert start == |w|;
    assert start + n == |s|;
    assert s[start..start + n] == d;
  }

  // ---------------------------------------------------------------------------
  // regrouping concatenations, kept apart so that callers see only the
  // regrouped equation

  lemma ConcatAssoc<T>(a: seq<T>, b: seq<T>, c: seq<T>)
    ensures a + (b + c) == a + b + c
  {
  }

  lemma ConcatAssoc4<T>(w: seq<T>, p: seq<T>, q: seq<T>, r: seq<T>)
    ensures w + p + q + r == w + (p + q + r)
  {
  }
}
