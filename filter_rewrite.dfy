/**
 * What the operator rewrite does to the filter object. The handler rewrites
 * the JSON text of the query, not the query; on text without control
 * characters this is the same as rewriting every key and every string
 * value of the query and then stringifying it. The escapes of control
 * characters (`\n`, `\t`, `\u00..`) carry letters that can join a word run,
 * which is why they are excluded.
 */
module FilterRewrite {
  import opened Common
  import opened JsText
  import opened Json
  import opened Operators

  /** No control characters: `JSON.stringify` then escapes only `"` and `\`. */
  predicate Printable(s: string) {
    forall k :: 0 <= k < |s| ==> s[k] >= ' '
  }

  predicate PrintableValue(v: QVal) {
    match v
    case Str(s) => Printable(s)
    case Arr(items) => forall i :: 0 <= i < |items| ==> PrintableValue(items[i])
    case Obj(entries) => forall i :: 0 <= i < |entries| ==> PrintableEntry(entries[i])
  }

  predicate PrintableEntry(e: Entry) {
    Printable(e.key) && PrintableValue(e.value)
  }

  /** The query as `JSON.parse` reads the rewritten text back: operator words in keys and strings marked. */
  function RewriteValue(v: QVal): QVal {
    match v
    case Str(s) => Str(PrefixOperators(s))
    case Arr(items) => Arr(seq(|items|, i requires 0 <= i < |items| => RewriteValue(items[i])))
    case Obj(entries) => Obj(seq(|entries|, i requires 0 <= i < |entries| => RewriteEntry(entries[i])))
  }

  function RewriteEntry(e: Entry): Entry {
    Entry(PrefixOperators(e.key), RewriteValue(e.value))
  }

  predicate NoWordChars(s: string) {
    forall k :: 0 <= k < |s| ==> !IsWordChar(s[k])
  }

  lemma {:induction false} NoWordCharsUnchanged(s: string)
    requires NoWordChars(s)
    ensures PrefixOperators(s) == s
    decreases |s|
  {
    if s != [] {
      NoWordCharsUnchanged(s[1..]);
    }
  }

  /** A printable character escapes to itself when it is a word character, and to non-word characters otherwise. */
  lemma EscapeCharShape(c: char)
    requires c >= ' '
    ensures IsWordChar(c) ==> EscapeChar(c) == [c]
    ensures !IsWordChar(c) ==> EscapeChar(c) != [] && NoWordChars(EscapeChar(c))
  {
  }

  lemma {:induction false} EscapeConcat(a: string, b: string)
    ensures EscapeString(a + b) == EscapeString(a) + EscapeString(b)
    decreases |a|
  {
    if a == [] {
      assert a + b == b;
    } else {
      assert (a + b)[0] == a[0];
      assert (a + b)[1..] == a[1..] + b;
      EscapeConcat(a[1..], b);
    }
  }

  lemma {:induction false} EscapeWord(w: string)
    requires AllWordChars(w)
    ensures EscapeString(w) == w
    decreases |w|
  {
    if w != [] {
      EscapeWord(w[1..]);
      EscapeCharShape(w[0]);
      assert w == [w[0]] + w[1..];
    }
  }

  lemma EscapeMark(w: string)
    requires AllWordChars(w)
    ensures EscapeString(Mark(w)) == Mark(w)
  {
    EscapeWord(w);
    if w in OperatorWords {
      EscapeConcat("$", w);
    }
  }

  /** A word run on its own is rewritten as a whole. */
  lemma PrefixOneRun(w: string)
    requires w != [] && AllWordChars(w)
    ensures PrefixOperators(w) == Mark(w)
  {
    RunLengthIs(w, |w|);
    assert w[..|w|] == w;
    assert w[|w|..] == [];
  }

  /** A lone word is marked exactly when it is one of the five operator words. */
  lemma ReplaceWholeWord(w: string)
    requires w != [] && AllWordChars(w)
    ensures ReplaceOperators(w) == if w in OperatorWords then "$" + w else w
  {
    PrefixOneRun(w);
  }

  /** `gt` inside a longer word is left alone: `gtx` and `lte_` are not operators. */
  lemma NoPartialWords(w: string)
    requires w == "gtx" || w == "lte_"
    ensures ReplaceOperators(w) == w
  {
    assert AllWordChars(w) by {
      assert IsWordChar('g') && IsWordChar('t') && IsWordChar('x');
      assert IsWordChar('l') && IsWordChar('e') && IsWordChar('_');
    }
    assert w !in OperatorWords;
    ReplaceWholeWord(w);
  }

  /** Escaping and the operator rewrite commute on printable text. */
  lemma {:induction false} EscapeCommutes(s: string)
    requires Printable(s)
    ensures PrefixOperators(EscapeString(s)) == EscapeString(PrefixOperators(s))
    decreases |s|
  {
    if s == [] {
    } else if !IsWordChar(s[0]) {
      var c, t := s[0], s[1..];
      EscapeCharShape(c);
      assert Printable(t) by { assert forall k :: 0 <= k < |t| ==> t[k] == s[k + 1]; }
      EscapeCommutes(t);
      var ec := EscapeChar(c);
      assert EscapeString(s) == ec + EscapeString(t);
      PrefixOperatorsConcat(ec, EscapeString(t));
      NoWordCharsUnchanged(ec);
      assert PrefixOperators(s) == [c] + PrefixOperators(t);
      EscapeConcat([c], PrefixOperators(t));
      assert EscapeString([c]) == ec + EscapeString([]);
    } else {
      var n := RunLength(s);
      var w, t := s[..n], s[n..];
      assert s == w + t;
      assert Printable(t) by { assert forall k :: 0 <= k < |t| ==> t[k] == s[n + k]; }
      EscapeCommutes(t);
      EscapeConcat(w, t);
      EscapeWord(w);
      var et := EscapeString(t);
      assert et == [] || !IsWordChar(et[0]) by {
        if t != [] {
          EscapeCharShape(t[0]);
          assert et == EscapeChar(t[0]) + EscapeString(t[1..]);
        }
      }
      assert w != [] by { assert IsWordChar(s[0]); }
      PrefixOperatorsConcat(w, et);
      PrefixOneRun(w);
      assert PrefixOperators(s) == Mark(w) + PrefixOperators(t);
      EscapeConcat(Mark(w), PrefixOperators(t));
      EscapeMark(w);
    }
  }

  /** Quoting: the quotes are not word characters, so the rewrite passes through them. */
  lemma QuoteCommutes(s: string)
    requires Printable(s)
    ensures PrefixOperators(Quote(s)) == Quote(PrefixOperators(s))
  {
    var q := "\"";
    var e := EscapeString(s);
    var e2 := EscapeString(PrefixOperators(s));
    EscapeCommutes(s);
    NoWordCharsUnchanged(q);
    PrefixOperatorsConcat(e, q);
    assert PrefixOperators(e + q) == e2 + q;
    PrefixOperatorsConcat(q, e + q);
    assert Quote(s) == q + (e + q);
    assert Quote(PrefixOperators(s)) == q + (e2 + q);
  }

  /** Every part rewritten. */
  function PrefixEach(parts: seq<string>): (r: seq<string>)
    ensures |r| == |parts|
  {
    seq(|parts|, i requires 0 <= i < |parts| => PrefixOperators(parts[i]))
  }

  /** A comma list is rewritten part by part: the comma is not a word character. */
  lemma {:induction false} JoinCommutes(parts: seq<string>)
    ensures PrefixOperators(Join(parts, ",")) == Join(PrefixEach(parts), ",")
    decreases |parts|
  {
    if |parts| > 1 {
      var rest := parts[1..];
      JoinCommutes(rest);
      var j := Join(rest, ",");
      assert Join(parts, ",") == parts[0] + ("," + j);
      PrefixOperatorsConcat(parts[0], "," + j);
      PrefixOperatorsConcat(",", j);
      NoWordCharsUnchanged(",");
      assert PrefixEach(parts)[1..] == PrefixEach(rest);
    }
  }

  /** Brackets around a list pass through the rewrite unchanged. */
  lemma Enclosed(open: string, inner: string, close: string)
    requires |open| == 1 && |close| == 1 && NoWordChars(open) && NoWordChars(close)
    ensures PrefixOperators(open + inner + close) == open + PrefixOperators(inner) + close
  {
    assert open + inner + close == open + (inner + close);
    PrefixOperatorsConcat(open, inner + close);
    PrefixOperatorsConcat(inner, close);
    NoWordCharsUnchanged(open);
    NoWordCharsUnchanged(close);
  }

  /** Rewriting the JSON text is stringifying the rewritten value. */
  lemma {:induction false} StringifyCommutes(v: QVal)
    requires PrintableValue(v)
    ensures PrefixOperators(Stringify(v)) == Stringify(RewriteValue(v))
    decreases v
  {
    match v
    case Str(s) =>
      QuoteCommutes(s);
    case Arr(items) =>
      var parts := seq(|items|, i requires 0 <= i < |items| => Stringify(items[i]));
      var rewritten := seq(|items|, i requires 0 <= i < |items| => RewriteValue(items[i]));
      forall i | 0 <= i < |items|
        ensures PrefixEach(parts)[i] == Stringify(rewritten[i])
      {
        StringifyCommutes(items[i]);
      }
      assert PrefixEach(parts) == seq(|rewritten|, i requires 0 <= i < |rewritten| => Stringify(rewritten[i]));
      JoinCommutes(parts);
      Enclosed("[", Join(parts, ","), "]");
    case Obj(entries) =>
      var parts := seq(|entries|, i requires 0 <= i < |entries| => StringifyEntry(entries[i]));
      var rewritten := seq(|entries|, i requires 0 <= i < |entries| => RewriteEntry(entries[i]));
      forall i | 0 <= i < |entries|
        ensures PrefixEach(parts)[i] == StringifyEntry(rewritten[i])
      {
        StringifyEntryCommutes(entries[i]);
      }
      assert PrefixEach(parts) == seq(|rewritten|, i requires 0 <= i < |rewritten| => StringifyEntry(rewritten[i]));
      JoinCommutes(parts);
      Enclosed("{", Join(parts, ","), "}");
  }

  lemma {:induction false} StringifyEntryCommutes(e: Entry)
    requires PrintableEntry(e)
    ensures PrefixOperators(StringifyEntry(e)) == StringifyEntry(RewriteEntry(e))
    decreases e
  {
    var k := Quote(e.key);
    var v := Stringify(e.value);
    QuoteCommutes(e.key);
    StringifyCommutes(e.value);
    assert StringifyEntry(e) == k + (":" + v);
    PrefixOperatorsConcat(k, ":" + v);
    PrefixOperatorsConcat(":", v);
    NoWordCharsUnchanged(":");
  }
}
