/**
 * The JavaScript string built-ins the handlers lean on, stated over Dafny
 * strings: `parseInt(x, 10)`, `String.prototype.trim`, `split` with a
 * one-character separator, `Array.prototype.join`, and the UTF-16 `length`
 * that Mongoose's `maxlength` measures.
 */
module JsText {
  import opened Common

  /** StrWhiteSpaceChar of ECMAScript: WhiteSpace (with every Zs) and LineTerminator. */
  predicate IsJsWhitespace(c: char) {
    || c == '\t' || c == '\U{B}' || c == '\U{C}' || c == ' ' || c == '\U{A0}' || c == '\U{FEFF}'
    || c == '\U{1680}' || ('\U{2000}' <= c <= '\U{200A}') || c == '\U{202F}' || c == '\U{205F}'
    || c == '\U{3000}'
    || c == '\n' || c == '\r' || c == '\U{2028}' || c == '\U{2029}'
  }

  predicate AllWhitespace(s: string) {
    forall k :: 0 <= k < |s| ==> IsJsWhitespace(s[k])
  }

  /** Drops the leading white space (the first step of `parseInt`, and half of `trim`). */
  function TrimStart(s: string): (r: string)
    ensures r != [] ==> !IsJsWhitespace(r[0])
  {
    if s != [] && IsJsWhitespace(s[0]) then TrimStart(s[1..]) else s
  }

  /** Drops the trailing white space. */
  function TrimEnd(s: string): (r: string)
    ensures |r| <= |s| && r == s[..|r|]
    ensures r != [] ==> !IsJsWhitespace(r[|r| - 1])
  {
    if s != [] && IsJsWhitespace(s[|s| - 1]) then TrimEnd(s[..|s| - 1]) else s
  }

  /** `s.trim()`: a piece of `s` with white space only around it and none at its ends. */
  function Trim(s: string): (r: string)
    ensures r != [] ==> !IsJsWhitespace(r[0]) && !IsJsWhitespace(r[|r| - 1])
  {
    TrimEnd(TrimStart(s))
  }

  lemma {:induction false} TrimStartSkipsPadding(w: string, t: string)
    requires AllWhitespace(w)
    ensures TrimStart(w + t) == TrimStart(t)
  {
    if w != [] {
      assert (w + t)[0] == w[0];
      assert (w + t)[1..] == w[1..] + t;
      TrimStartSkipsPadding(w[1..], t);
    } else {
      assert w + t == t;
    }
  }

  lemma {:induction false} TrimEndSkipsPadding(t: string, w: string)
    requires AllWhitespace(w)
    ensures TrimEnd(t + w) == TrimEnd(t)
  {
    if w != [] {
      var tw := t + w;
      assert IsJsWhitespace(tw[|tw| - 1]) by { assert tw[|tw| - 1] == w[|w| - 1]; }
      assert tw[..|tw| - 1] == t + w[..|w| - 1];
      TrimEndSkipsPadding(t, w[..|w| - 1]);
    } else {
      assert t + w == t;
    }
  }

  /** Trimming a padded string gives back exactly what was padded. */
  lemma TrimPadded(w1: string, core: string, w2: string)
    requires AllWhitespace(w1) && AllWhitespace(w2)
    requires core != [] ==> !IsJsWhitespace(core[0]) && !IsJsWhitespace(core[|core| - 1])
    ensures Trim(w1 + core + w2) == core
  {
    assert w1 + core + w2 == w1 + (core + w2);
    TrimStartSkipsPadding(w1, core + w2);
    if core == [] {
      assert core + w2 == w2 + [];
      TrimStartSkipsPadding(w2, []);
    } else {
      assert (core + w2)[0] == core[0];
      assert TrimStart(core + w2) == core + w2;
      TrimEndSkipsPadding(core, w2);
    }
  }

  /** No white space at either end: what `trim` leaves. */
  predicate Trimmed(s: string) {
    s != [] ==> !IsJsWhitespace(s[0]) && !IsJsWhitespace(s[|s| - 1])
  }

  /** A string is left alone by `trim` exactly when it has no white space at either end. */
  lemma TrimmedIsFixed(s: string)
    ensures Trimmed(s) <==> Trim(s) == s
  {
    if Trimmed(s) {
      assert [] + s + [] == s;
      TrimPadded([], s, []);
    }
  }

  /** Trimming twice is trimming once. */
  lemma TrimIdempotent(s: string)
    ensures Trim(Trim(s)) == Trim(s)
  {
    var t := Trim(s);
    assert [] + t + [] == t;
    TrimPadded([], t, []);
  }

  /** The number of UTF-16 code units of `s` (JavaScript's `length`). */
  function Utf16Length(s: string): (n: nat)
    ensures |s| <= n <= 2 * |s|
    ensures n == |s| <==> forall k :: 0 <= k < |s| ==> s[k] as int <= 0xFFFF
  {
    if s == [] then 0 else (if s[0] as int > 0xFFFF then 2 else 1) + Utf16Length(s[1..])
  }

  /** The first index of `c` in `s`, or `|s|` when there is none. */
  function IndexOf(s: string, c: char): (i: nat)
    ensures i <= |s| && (i < |s| ==> s[i] == c)
    ensures forall k :: 0 <= k < i ==> s[k] != c
  {
    if s == [] then 0 else if s[0] == c then 0 else 1 + IndexOf(s[1..], c)
  }

  /** `s.split(sep)` for a one-character separator. */
  function Split(s: string, sep: char): (parts: seq<string>)
    ensures |parts| >= 1
    ensures forall p :: p in parts ==> sep !in p
    decreases |s|
  {
    var i := IndexOf(s, sep);
    if i == |s| then [s] else [s[..i]] + Split(s[i + 1..], sep)
  }

  /** `parts.join(sep)`. */
  function Join(parts: seq<string>, sep: string): string {
    if parts == [] then "" else if |parts| == 1 then parts[0] else parts[0] + sep + Join(parts[1..], sep)
  }

  /** Every `from` in `s` changed into `to`, every other character kept. */
  function ReplaceChar(s: string, from: char, to: char): (r: string)
    ensures |r| == |s|
    ensures forall k :: 0 <= k < |s| ==> r[k] == if s[k] == from then to else s[k]
  {
    seq(|s|, k requires 0 <= k < |s| => if s[k] == from then to else s[k])
  }

  /** `s.split(sep).join(glue)` changes each separator into the glue and nothing else. */
  lemma {:induction false} SplitJoinReplaces(s: string, sep: char, glue: char)
    ensures Join(Split(s, sep), [glue]) == ReplaceChar(s, sep, glue)
    decreases |s|
  {
    var i := IndexOf(s, sep);
    if i == |s| {
      assert Split(s, sep) == [s];
      assert ReplaceChar(s, sep, glue) == s;
    } else {
      var rest := s[i + 1..];
      SplitJoinReplaces(rest, sep, glue);
      SplitJoinStep(s, sep, glue);
      ReplaceCharAround(s, i, sep, glue);
      Splice(Join(Split(s, sep), [glue]), s[..i] + [glue], Join(Split(rest, sep), [glue]),
        ReplaceChar(rest, sep, glue), ReplaceChar(s, sep, glue));
    }
  }

  /** Splitting at the first separator and joining again puts the glue after the first part. */
  lemma SplitJoinStep(s: string, sep: char, glue: char)
    requires IndexOf(s, sep) < |s|
    ensures Join(Split(s, sep), [glue]) == s[..IndexOf(s, sep)] + [glue] + Join(Split(s[IndexOf(s, sep) + 1..], sep), [glue])
  {
    var i := IndexOf(s, sep);
    SplitAt(s, sep);
    JoinCons(s[..i], Split(s[i + 1..], sep), [glue]);
  }

  /** Up to the first separator, then the split of what follows it. */
  lemma SplitAt(s: string, sep: char)
    requires IndexOf(s, sep) < |s|
    ensures Split(s, sep) == [s[..IndexOf(s, sep)]] + Split(s[IndexOf(s, sep) + 1..], sep)
  {
  }

  /** Joining a part in front of a non-empty list puts the separator between them. */
  lemma JoinCons(p: string, parts: seq<string>, sep: string)
    requires parts != []
    ensures Join([p] + parts, sep) == p + sep + Join(parts, sep)
  {
    assert ([p] + parts)[1..] == parts;
  }

  lemma ReplaceCharAround(s: string, i: nat, from: char, to: char)
    requires i < |s| && s[i] == from
    requires forall k :: 0 <= k < i ==> s[k] != from
    ensures ReplaceChar(s, from, to) == s[..i] + [to] + ReplaceChar(s[i + 1..], from, to)
  {
    var r := ReplaceChar(s, from, to);
    var t := s[..i] + [to] + ReplaceChar(s[i + 1..], from, to);
    assert |r| == |t|;
    forall k | 0 <= k < |r| ensures r[k] == t[k] {
      if k > i {
        assert s[i + 1..][k - i - 1] == s[k];
      }
    }
  }

  /** Splitting on a character and joining with the same character restores the text. */
  lemma SplitJoinRoundTrip(s: string, sep: char)
    ensures Join(Split(s, sep), [sep]) == s
  {
    SplitJoinReplaces(s, sep, sep);
  }

  predicate IsDigit(c: char) {
    '0' <= c <= '9'
  }

  predicate AllDigits(s: string) {
    forall k :: 0 <= k < |s| ==> IsDigit(s[k])
  }

  /** The length of the longest prefix of decimal digits. */
  function DigitRun(s: string): (n: nat)
    ensures n <= |s|
  {
    if s == [] || !IsDigit(s[0]) then 0 else 1 + DigitRun(s[1..])
  }

  /** The value of a string of decimal digits, most significant first. */
  function DigitsValue(d: string): int {
    if d == [] then 0 else DigitsValue(d[..|d| - 1]) * 10 + (d[|d| - 1] as int - '0' as int)
  }

  /**
   * `parseInt(s, 10)`: skip leading white space, take one optional sign,
   * then the longest run of decimal digits; NaN (here `None`) when that run
   * is empty. Trailing text after the digits is ignored.
   */
  function ParseInt(s: string): (r: Option<int>)
    ensures r.None? <==> !NumberAhead(TrimStart(s))
  {
    ParseSigned(TrimStart(s))
  }

  /** `t` starts with a decimal digit, or with one sign and then a digit. */
  predicate NumberAhead(t: string) {
    || (|t| > 0 && IsDigit(t[0]))
    || (|t| > 1 && (t[0] == '+' || t[0] == '-') && IsDigit(t[1]))
  }

  /** What `parseInt` reads once the white space is skipped: an optional sign, then the digits. */
  function ParseSigned(t: string): (r: Option<int>)
    ensures r.None? <==> !NumberAhead(t)
  {
    var negative := |t| > 0 && t[0] == '-';
    var u := if |t| > 0 && (t[0] == '-' || t[0] == '+') then t[1..] else t;
    var n := DigitRun(u);
    if n == 0 then None
    else
      var magnitude: int := DigitsValue(u[..n]);
      Some(if negative then -magnitude else magnitude)
  }

  function DigitChar(d: nat): (c: char)
    requires d < 10
    ensures IsDigit(c) && c as int - '0' as int == d
  {
    ('0' as int + d) as char
  }

  /** The decimal rendering of a natural number, without leading zeros. */
  function NatToString(n: nat): (s: string)
    ensures |s| >= 1 && AllDigits(s)
  {
    if n < 10 then [DigitChar(n)] else NatToString(n / 10) + [DigitChar(n % 10)]
  }

  /** The decimal rendering of an integer, as `String(n)` gives it. */
  function IntToString(n: int): string {
    if n < 0 then "-" + NatToString(-n) else NatToString(n)
  }

  lemma {:induction false} NatToStringValue(n: nat)
    ensures DigitsValue(NatToString(n)) == n
  {
    var s := NatToString(n);
    if n >= 10 {
      NatToStringValue(n / 10);
      assert s[..|s| - 1] == NatToString(n / 10);
    }
  }

  /**
   * `parseInt` reads back what `String(n)` wrote, whatever follows the
   * number as long as it does not start with a digit.
   */
  lemma ParseIntRoundTrip(n: int, rest: string)
    requires rest == [] || !IsDigit(rest[0])
    ensures ParseInt(IntToString(n) + rest) == Some(n)
  {
    var s := IntToString(n) + rest;
    IntTextStartsPlain(n, rest);
    IntTextReadsBack(n, rest);
    assert ParseInt(s) == ParseSigned(TrimStart(s));
  }

  /** The text of an integer starts with a sign or a digit, never with white space. */
  lemma IntTextStartsPlain(n: int, rest: string)
    ensures TrimStart(IntToString(n) + rest) == IntToString(n) + rest
  {
    var digits := NatToString(if n < 0 then -n else n);
    var s := IntToString(n) + rest;
    assert IsDigit(digits[0]);
    assert s[0] == if n < 0 then '-' else digits[0];
    TrimStartKeeps(s);
  }

  /** Past the white space, the sign and the digits of an integer's text read back as the integer. */
  lemma IntTextReadsBack(n: int, rest: string)
    requires rest == [] || !IsDigit(rest[0])
    ensures ParseSigned(IntToString(n) + rest) == Some(n)
  {
    var m: nat := if n < 0 then -n else n;
    var digits := NatToString(m);
    NatToStringValue(m);
    if n < 0 {
      NegativeDigits(digits, rest);
      assert IntToString(n) + rest == "-" + (digits + rest);
    } else {
      UnsignedDigits(digits, rest);
      assert IntToString(n) + rest == digits + rest;
    }
  }

  /** Digits followed by a non-digit read as their value. */
  lemma UnsignedDigits(digits: string, rest: string)
    requires digits != [] && AllDigits(digits)
    requires rest == [] || !IsDigit(rest[0])
    ensures ParseSigned(digits + rest) == Some(DigitsValue(digits))
  {
    var u := digits + rest;
    DigitRunOfDigits(digits, rest);
    assert u[..|digits|] == digits;
    assert u[0] == digits[0];
  }

  /** A minus sign, then digits followed by a non-digit, read as the negated value. */
  lemma NegativeDigits(digits: string, rest: string)
    requires digits != [] && AllDigits(digits)
    requires rest == [] || !IsDigit(rest[0])
    ensures ParseSigned("-" + (digits + rest)) == Some(0 - DigitsValue(digits))
  {
    var u := digits + rest;
    DigitRunOfDigits(digits, rest);
    assert u[..|digits|] == digits;
    var t := "-" + u;
    assert t[0] == '-' && t[1..] == u;
  }

  /** Text that does not start with white space is left alone by the first step of `parseInt`. */
  lemma TrimStartKeeps(s: string)
    requires s != [] && !IsJsWhitespace(s[0])
    ensures TrimStart(s) == s
  {
  }

  lemma {:induction false} DigitRunOfDigits(digits: string, rest: string)
    requires AllDigits(digits)
    requires rest == [] || !IsDigit(rest[0])
    ensures DigitRun(digits + rest) == |digits|
  {
    if digits != [] {
      assert (digits + rest)[1..] == digits[1..] + rest;
      DigitRunOfDigits(digits[1..], rest);
    } else {
      assert digits + rest == rest;
    }
  }

  /** Leading white space never changes what `parseInt` reads. */
  lemma ParseIntSkipsWhitespace(w: string, s: string)
    requires AllWhitespace(w)
    ensures ParseInt(w + s) == ParseInt(s)
  {
    TrimStartSkipsPadding(w, s);
  }
}
