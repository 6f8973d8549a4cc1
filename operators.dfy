/**
 * The comparison-operator rewrite of the bootcamp listing:
 * `queryStr.replace(/\b(gt|gte|lt|lte|in)\b/g, match => '$' + match)`.
 *
 * Two definitions meet here. `ReplaceOperators` follows the regular
 * expression as JavaScript runs it: `MatchAt` checks the word boundary `\b`
 * at a position, tries the alternatives in their written order with a second
 * `\b` after each, and `ReplaceWith` scans left to right, marking each match
 * and resuming after it. `PrefixOperators` says what that amounts to: every
 * maximal run of word characters that is one of the five operator words gets
 * a `$` in front. `MatchLengthIsRunMatch` pins down the pattern position by
 * position, and the scan lemmas hold for any matcher with that behaviour.
 * `ReplaceIsPrefixing` proves the two definitions equal; `ReplaceOperators`
 * carries that equality in its contract.
 */
module Operators {
  import opened Common

  /** The alternatives of the pattern, in the order they are tried. */
  const OperatorWords: seq<string> := ["gt", "gte", "lt", "lte", "in"]

  /** `\w` without the `u` flag: ASCII letters, digits and underscore. */
  predicate IsWordChar(c: char) {
    ('a' <= c <= 'z') || ('A' <= c <= 'Z') || ('0' <= c <= '9') || c == '_'
  }

  predicate AllWordChars(s: string) {
    forall k :: 0 <= k < |s| ==> IsWordChar(s[k])
  }

  /** `\b` at position `i`: exactly one of the two neighbouring characters is a word character. */
  predicate AtBoundary(s: string, i: nat)
    requires i <= |s|
  {
    (i > 0 && IsWordChar(s[i - 1])) != (i < |s| && IsWordChar(s[i]))
  }

  predicate OccursAt(w: string, s: string, i: nat) {
    i + |w| <= |s| && s[i..i + |w|] == w
  }

  /** The first alternative of `alts` that matches at `i` and is followed by `\b`; its length. */
  function FirstAlternative(s: string, i: nat, alts: seq<string>): Option<nat>
    requires i <= |s|
  {
    if alts == [] then None
    else if OccursAt(alts[0], s, i) && AtBoundary(s, i + |alts[0]|) then Some(|alts[0]|)
    else FirstAlternative(s, i, alts[1..])
  }

  /** The length of the match of the whole pattern at `i`, if it matches there. */
  function MatchAt(s: string, i: nat): Option<nat>
    requires i <= |s|
  {
    if AtBoundary(s, i) then FirstAlternative(s, i, OperatorWords) else None
  }

  /** The same as a number: the length of the match at `i`, 0 where there is none. */
  function MatchLength(s: string, i: nat): nat {
    if i <= |s| then
      match MatchAt(s, i)
      case Some(n) => n
      case None => 0
    else 0
  }

  /**
   * A global `replace` whose callback puts `$` in front of each match,
   * resumed at position `i`, for a pattern whose match length at each
   * position `matcher` gives (0 where it does not match): a match is marked
   * and the scan resumes after it; elsewhere one character is copied.
   */
  function ReplaceWith(s: string, i: nat, matcher: (string, nat) -> nat): string
    requires i <= |s|
    decreases |s| - i
  {
    if i == |s| then []
    else
      var n := matcher(s, i);
      if 0 < n && i + n <= |s| then "$" + s[i..i + n] + ReplaceWith(s, i + n, matcher)
      else [s[i]] + ReplaceWith(s, i + 1, matcher)
  }

  /** What line 26 of the bootcamp controller computes. */
  function ReplaceOperators(s: string): (r: string)
    ensures r == PrefixOperators(s)
  {
    ReplaceIsPrefixing(s);
    ReplaceWith(s, 0, MatchLength)
  }

  /** The length of the run of word characters that starts `s`. */
  function RunLength(s: string): (n: nat)
    ensures n <= |s| && AllWordChars(s[..n])
    ensures n < |s| ==> !IsWordChar(s[n])
  {
    if s == [] || !IsWordChar(s[0]) then 0 else 1 + RunLength(s[1..])
  }

  /** A word run, with a `$` in front when it is an operator word. */
  function Mark(w: string): string {
    if w in OperatorWords then "$" + w else w
  }

  /** The reference reading: one `$` before each maximal word run that is an operator word. */
  function PrefixOperators(s: string): (r: string)
    decreases |s|
  {
    if s == [] then []
    else if !IsWordChar(s[0]) then [s[0]] + PrefixOperators(s[1..])
    else
      var n := RunLength(s);
      Mark(s[..n]) + PrefixOperators(s[n..])
  }

  /** The rewrite only inserts: at most one `$` per word run, so the text at most doubles. */
  lemma {:induction false} PrefixOperatorsLength(s: string)
    ensures |s| <= |PrefixOperators(s)| <= 2 * |s|
    decreases |s|
  {
    if s != [] {
      if !IsWordChar(s[0]) {
        PrefixOperatorsLength(s[1..]);
      } else {
        var n := RunLength(s);
        PrefixOperatorsLength(s[n..]);
      }
    }
  }

  /** One step of the scan where nothing matches: the character is copied. */
  lemma ScanCopies(s: string, i: nat, matcher: (string, nat) -> nat)
    requires i < |s| && matcher(s, i) == 0
    ensures ReplaceWith(s, i, matcher) == [s[i]] + ReplaceWith(s, i + 1, matcher)
  {
  }

  /** One step of the scan where the pattern matches: the match is marked and skipped. */
  lemma ScanMarks(s: string, i: nat, n: nat, matcher: (string, nat) -> nat)
    requires i < |s| && matcher(s, i) == n && 0 < n && i + n <= |s|
    ensures ReplaceWith(s, i, matcher) == "$" + s[i..i + n] + ReplaceWith(s, i + n, matcher)
  {
  }

  lemma {:induction false} RunLengthIs(t: string, n: nat)
    requires n <= |t| && AllWordChars(t[..n])
    requires n < |t| ==> !IsWordChar(t[n])
    ensures RunLength(t) == n
  {
    if n > 0 {
      assert IsWordChar(t[..n][0]);
      assert t[1..][..n - 1] == t[..n][1..];
      RunLengthIs(t[1..], n - 1);
    } else if t != [] {
      assert !IsWordChar(t[0]);
    }
  }

  /**
   * At the first character of a word run, the alternatives that match are
   * exactly those equal to the whole run, so the first one found is the run.
   */
  lemma {:induction false} FirstAlternativeIsRun(s: string, i: nat, alts: seq<string>)
    requires i < |s| && IsWordChar(s[i])
    requires forall a :: a in alts ==> a != [] && AllWordChars(a)
    ensures var n := RunLength(s[i..]);
      FirstAlternative(s, i, alts) == if s[i..i + n] in alts then Some(n) else None
  {
    var n := RunLength(s[i..]);
    assert s[i..][..n] == s[i..i + n];
    if alts != [] {
      var w := alts[0];
      assert w in alts;
      assert forall a :: a in alts[1..] ==> a in alts;
      if OccursAt(w, s, i) && AtBoundary(s, i + |w|) {
        assert IsWordChar(s[i + |w| - 1]) by {
          assert s[i..i + |w|][|w| - 1] == s[i + |w| - 1];
          assert IsWordChar(w[|w| - 1]);
        }
        assert s[i..][..|w|] == w;
        assert |w| < |s[i..]| ==> s[i..][|w|] == s[i + |w|];
        RunLengthIs(s[i..], |w|);
      }
      if w == s[i..i + n] {
        assert OccursAt(w, s, i);
        assert IsWordChar(s[i + n - 1]) by { assert s[i..i + n][n - 1] == s[i + n - 1]; }
        assert n < |s[i..]| ==> s[i..][n] == s[i + n];
        assert AtBoundary(s, i + |w|);
      }
      FirstAlternativeIsRun(s, i, alts[1..]);
    }
  }

  lemma OperatorWordsAreWords()
    ensures forall a :: a in OperatorWords ==> a != [] && AllWordChars(a)
  {
  }

  /** Where nothing matches, the scan copies the whole stretch. */
  lemma {:induction false} ScanCopiesRun(s: string, i: nat, j: nat, matcher: (string, nat) -> nat)
    requires i <= j <= |s|
    requires forall k :: i <= k < j ==> matcher(s, k) == 0
    ensures ReplaceWith(s, i, matcher) == s[i..j] + ReplaceWith(s, j, matcher)
    decreases j - i
  {
    if i < j {
      ScanCopies(s, i, matcher);
      ScanCopiesRun(s, i + 1, j, matcher);
      Regroup(ReplaceWith(s, i, matcher), [s[i]], ReplaceWith(s, i + 1, matcher), s[i + 1..j], ReplaceWith(s, j, matcher));
      assert [s[i]] + s[i + 1..j] == s[i..j];
    }
  }

  /** One step of both definitions at a non-word character, where nothing matches: it is copied. */
  lemma StepNonWord(s: string, i: nat, matcher: (string, nat) -> nat)
    requires i < |s| && !IsWordChar(s[i]) && matcher(s, i) == 0
    ensures ReplaceWith(s, i, matcher) == [s[i]] + ReplaceWith(s, i + 1, matcher)
    ensures PrefixOperators(s[i..]) == [s[i]] + PrefixOperators(s[i + 1..])
  {
    ScanCopies(s, i, matcher);
    assert s[i..][1..] == s[i + 1..];
  }

  /** The end of the word run that starts at `i`. */
  function RunEnd(s: string, i: nat): (j: nat)
    requires i <= |s|
    ensures i <= j <= |s|
    ensures forall k :: i <= k < j ==> IsWordChar(s[k])
    ensures j < |s| ==> !IsWordChar(s[j])
  {
    var t := s[i..];
    var n := RunLength(t);
    assert forall k :: i <= k < i + n ==> s[k] == t[..n][k - i];
    assert i + n < |s| ==> s[i + n] == t[n];
    i + n
  }

  /** Position `i` starts a run of word characters. */
  predicate RunStart(s: string, i: nat) {
    i < |s| && IsWordChar(s[i]) && (i == 0 || !IsWordChar(s[i - 1]))
  }

  /** What the pattern amounts to at `i`: the whole word run starting there, when it is an operator word. */
  function RunMatch(s: string, i: nat): nat
    requires i <= |s|
  {
    if RunStart(s, i) && s[i..RunEnd(s, i)] in OperatorWords then RunEnd(s, i) - i else 0
  }

  /** At the start of a word run the pattern matches exactly when the run is an operator word. */
  lemma MatchAtRunStart(s: string, i: nat)
    requires RunStart(s, i)
    ensures MatchAt(s, i) == if s[i..RunEnd(s, i)] in OperatorWords then Some(RunEnd(s, i) - i) else None
  {
    assert s[i..][..RunLength(s[i..])] == s[i..RunEnd(s, i)];
    assert AtBoundary(s, i);
    OperatorWordsAreWords();
    FirstAlternativeIsRun(s, i, OperatorWords);
  }

  /** The regular expression, position by position, matches the operator-word runs and nothing else. */
  lemma MatchLengthIsRunMatch(s: string, i: nat)
    requires i < |s|
    ensures MatchLength(s, i) == RunMatch(s, i)
  {
    if !IsWordChar(s[i]) {
      if AtBoundary(s, i) {
        OperatorWordsAreWords();
        NoAlternativeAtNonWord(s, i, OperatorWords);
      }
    } else if RunStart(s, i) {
      MatchAtRunStart(s, i);
    } else {
      assert !AtBoundary(s, i);
    }
  }

  /** One step of the scan at the start of a word run: the run is marked when it is an operator word. */
  lemma StepRunScan(s: string, i: nat, matcher: (string, nat) -> nat)
    requires RunStart(s, i) && matcher(s, i) == RunMatch(s, i)
    requires forall k :: i < k < RunEnd(s, i) ==> matcher(s, k) == 0
    ensures ReplaceWith(s, i, matcher) == Mark(s[i..RunEnd(s, i)]) + ReplaceWith(s, RunEnd(s, i), matcher)
  {
    var j := RunEnd(s, i);
    var w := s[i..j];
    if w !in OperatorWords {
      ScanCopiesRun(s, i, j, matcher);
      MarkKeeps(w);
      Subst(ReplaceWith(s, i, matcher), w, Mark(w), ReplaceWith(s, j, matcher));
    } else {
      ScanMarks(s, i, j - i, matcher);
      MarkPrefixes(w);
      Subst(ReplaceWith(s, i, matcher), "$" + w, Mark(w), ReplaceWith(s, j, matcher));
    }
  }

  lemma MarkKeeps(w: string)
    requires w !in OperatorWords
    ensures Mark(w) == w
  {
  }

  lemma MarkPrefixes(w: string)
    requires w in OperatorWords
    ensures Mark(w) == "$" + w
  {
  }

  /** Replacing the head of a concatenation by an equal one, over plain sequences. */
  lemma Subst(x: string, a: string, b: string, c: string)
    requires x == a + c && b == a
    ensures x == b + c
  {
  }

  /** One step of the reference at the start of a word run: the run is marked. */
  lemma StepRunReference(s: string, i: nat)
    requires i < |s| && IsWordChar(s[i])
    ensures PrefixOperators(s[i..]) == Mark(s[i..RunEnd(s, i)]) + PrefixOperators(s[RunEnd(s, i)..])
  {
    var t := s[i..];
    var j := RunEnd(s, i);
    assert t[0] == s[i];
    HeadStep(t);
    assert t[..j - i] == s[i..j] && t[j - i..] == s[j..];
  }

  /** Position `i` is not strictly inside a run of word characters. */
  predicate OutsideRun(s: string, i: nat)
    requires i <= |s|
  {
    i == 0 || i == |s| || !IsWordChar(s[i - 1]) || !IsWordChar(s[i])
  }

  /** Scanning from a position outside any word run, with a matcher that finds the operator-word runs, agrees with the reference. */
  lemma {:induction false} ScanAgreesFrom(s: string, i: nat, matcher: (string, nat) -> nat)
    requires i <= |s| && OutsideRun(s, i)
    requires forall k :: i <= k < |s| ==> matcher(s, k) == RunMatch(s, k)
    ensures ReplaceWith(s, i, matcher) == PrefixOperators(s[i..])
    decreases |s| - i
  {
    if i < |s| {
      if !IsWordChar(s[i]) {
        StepNonWord(s, i, matcher);
        ScanAgreesFrom(s, i + 1, matcher);
        Splice(ReplaceWith(s, i, matcher), [s[i]], ReplaceWith(s, i + 1, matcher),
               PrefixOperators(s[i + 1..]), PrefixOperators(s[i..]));
      } else {
        var j := RunEnd(s, i);
        assert RunStart(s, i) && matcher(s, i) == RunMatch(s, i);
        forall k | i < k < j
          ensures matcher(s, k) == 0
        {
          assert !RunStart(s, k);
        }
        StepRunScan(s, i, matcher);
        StepRunReference(s, i);
        ScanAgreesFrom(s, j, matcher);
        Splice(ReplaceWith(s, i, matcher), Mark(s[i..j]), ReplaceWith(s, j, matcher),
               PrefixOperators(s[j..]), PrefixOperators(s[i..]));
      }
    }
  }

  lemma {:induction false} NoAlternativeAtNonWord(s: string, i: nat, alts: seq<string>)
    requires i < |s| && !IsWordChar(s[i])
    requires forall a :: a in alts ==> a != [] && AllWordChars(a)
    ensures FirstAlternative(s, i, alts) == None
  {
    if alts != [] {
      assert alts[0] in alts;
      assert forall a :: a in alts[1..] ==> a in alts;
      assert !OccursAt(alts[0], s, i) by {
        if i + |alts[0]| <= |s| {
          assert s[i..i + |alts[0]|][0] == s[i];
          assert IsWordChar(alts[0][0]);
        }
      }
      NoAlternativeAtNonWord(s, i, alts[1..]);
    }
  }

  /** The regular-expression replace is the word-run prefixing. */
  lemma ReplaceIsPrefixing(s: string)
    ensures ReplaceWith(s, 0, MatchLength) == PrefixOperators(s)
  {
    forall k | 0 <= k < |s|
      ensures MatchLength(s, k) == RunMatch(s, k)
    {
      MatchLengthIsRunMatch(s, k);
    }
    ScanAgreesFrom(s, 0, MatchLength);
    assert s[0..] == s;
  }

  /** The rewrite works run by run, so it splits wherever a word run cannot straddle the cut. */
  lemma {:induction false} PrefixOperatorsConcat(a: string, b: string)
    requires a == [] || b == [] || !IsWordChar(a[|a| - 1]) || !IsWordChar(b[0])
    ensures PrefixOperators(a + b) == PrefixOperators(a) + PrefixOperators(b)
    decreases |a|
  {
    if a == [] {
      assert a + b == b;
    } else {
      var n := HeadLength(a);
      var t := a[n..];
      assert t != [] ==> t[|t| - 1] == a[|a| - 1];
      PrefixOperatorsConcat(t, b);
      HeadSplits(a, b);
      Regroup(PrefixOperators(a + b), Head(a), PrefixOperators(t + b), PrefixOperators(t), PrefixOperators(b));
    }
  }

  /** The length of the piece the reference rewrites in one step: a whole word run, or one other character. */
  function HeadLength(s: string): (n: nat)
    requires s != []
    ensures 1 <= n <= |s|
  {
    if IsWordChar(s[0]) then RunLength(s) else 1
  }

  /** What the reference writes for that piece. */
  function Head(s: string): string
    requires s != []
  {
    if IsWordChar(s[0]) then Mark(s[..RunLength(s)]) else [s[0]]
  }

  /** One step of the reference, before and after appending text that does not extend a word run. */
  lemma HeadSplits(a: string, b: string)
    requires a != []
    requires b == [] || !IsWordChar(a[|a| - 1]) || !IsWordChar(b[0])
    ensures PrefixOperators(a) == Head(a) + PrefixOperators(a[HeadLength(a)..])
    ensures PrefixOperators(a + b) == Head(a) + PrefixOperators(a[HeadLength(a)..] + b)
  {
    HeadStep(a);
    HeadStep(a + b);
    HeadOfConcat(a, b);
  }

  /** One step of the reference. */
  lemma HeadStep(s: string)
    requires s != []
    ensures PrefixOperators(s) == Head(s) + PrefixOperators(s[HeadLength(s)..])
  {
  }

  /** Appending text that does not extend the last word run leaves the first piece as it was. */
  lemma HeadOfConcat(a: string, b: string)
    requires a != []
    requires b == [] || !IsWordChar(a[|a| - 1]) || !IsWordChar(b[0])
    ensures HeadLength(a + b) == HeadLength(a) && Head(a + b) == Head(a)
    ensures (a + b)[HeadLength(a)..] == a[HeadLength(a)..] + b
  {
    var n := HeadLength(a);
    assert (a + b)[0] == a[0];
    assert (a + b)[..n] == a[..n];
    if IsWordChar(a[0]) {
      if n == |a| && b != [] {
        assert (a + b)[n] == b[0];
      } else if n < |a| {
        assert (a + b)[n] == a[n];
      }
      RunLengthIs(a + b, n);
    }
  }

  /** `s` with every `$` taken out. */
  function Unmark(s: string): (r: string)
    ensures '$' !in r
  {
    if s == [] then [] else (if s[0] == '$' then [] else [s[0]]) + Unmark(s[1..])
  }

  lemma {:induction false} UnmarkConcat(a: string, b: string)
    ensures Unmark(a + b) == Unmark(a) + Unmark(b)
    decreases |a|
  {
    if a == [] {
      assert a + b == b;
    } else {
      var h: string := if a[0] == '$' then [] else [a[0]];
      assert (a + b)[0] == a[0] && (a + b)[1..] == a[1..] + b;
      UnmarkConcat(a[1..], b);
      Regroup(Unmark(a + b), h, Unmark(a[1..] + b), Unmark(a[1..]), Unmark(b));
    }
  }

  /**
   * The rewrite only inserts `$`: taking every `$` out of its result gives
   * back the input with its own `$` taken out.
   */
  lemma {:induction false} UnmarkUndoesPrefixing(s: string)
    ensures Unmark(PrefixOperators(s)) == Unmark(s)
    decreases |s|
  {
    if s != [] {
      var n := if IsWordChar(s[0]) then RunLength(s) else 1;
      var head, rest := s[..n], s[n..];
      assert s == head + rest;
      assert PrefixOperators(s) == (if IsWordChar(s[0]) then Mark(head) else head) + PrefixOperators(rest);
      assert Unmark(if IsWordChar(s[0]) then Mark(head) else head) == Unmark(head) by {
        if IsWordChar(s[0]) {
          UnmarkMark(head);
        }
      }
      UnmarkConcat(if IsWordChar(s[0]) then Mark(head) else head, PrefixOperators(rest));
      UnmarkUndoesPrefixing(rest);
      UnmarkConcat(head, rest);
    }
  }

  lemma UnmarkMark(w: string)
    requires AllWordChars(w)
    ensures Unmark(Mark(w)) == Unmark(w)
  {
    if w in OperatorWords {
      UnmarkConcat("$", w);
    }
  }

  /** On text without `$`, the operator rewrite is undone by taking the `$` out again. */
  lemma PrefixingRoundTrip(s: string)
    requires '$' !in s
    ensures Unmark(PrefixOperators(s)) == s
  {
    UnmarkUndoesPrefixing(s);
    UnmarkIdentity(s);
  }

  lemma {:induction false} UnmarkIdentity(s: string)
    requires '$' !in s
    ensures Unmark(s) == s
    decreases |s|
  {
    if s != [] {
      assert s[0] in s;
      assert forall c :: c in s[1..] ==> c in s;
      UnmarkIdentity(s[1..]);
      assert s == [s[0]] + s[1..];
    }
  }
}
