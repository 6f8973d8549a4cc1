/**
 * The query half of `getBootcamps` (controllers/bootcamps.js): the filter
 * built from `req.query` without its reserved keys, the `select` and `sort`
 * clauses, and the `page`/`limit` arithmetic with the pagination it reports.
 */
module QueryTranslator {
  import opened Common
  import opened JsText
  import opened Json
  import opened Operators
  import opened Entities
  import opened FilterRewrite

  /** The keys that steer the listing and are kept out of the filter. */
  const RemoveFields: seq<string> := ["select", "sort", "page", "limit"]

  /** Sort order when the query names none: newest first. */
  const DefaultSort: string := "-createdAt"

  const DefaultPage: int := 1
  const DefaultLimit: int := 25

  /** `delete obj[key]`: the object without its property `key`, the others in their order. */
  function Delete(entries: seq<Entry>, key: string): seq<Entry> {
    if entries == [] then []
    else (if entries[0].key == key then [] else [entries[0]]) + Delete(entries[1..], key)
  }

  /** The object after deleting each of `keys` in turn. */
  function WithoutKeys(entries: seq<Entry>, keys: seq<string>): seq<Entry> {
    if keys == [] then entries
    else Delete(WithoutKeys(entries, keys[..|keys| - 1]), keys[|keys| - 1])
  }

  lemma {:induction false} LookupAfterDelete(entries: seq<Entry>, key: string, k: string)
    ensures Lookup(Delete(entries, key), k) == if k == key then None else Lookup(entries, k)
  {
    if entries != [] {
      LookupAfterDelete(entries[1..], key, k);
      if entries[0].key != key {
        assert Delete(entries, key) == [entries[0]] + Delete(entries[1..], key);
        assert ([entries[0]] + Delete(entries[1..], key))[1..] == Delete(entries[1..], key);
      } else {
        assert [] + Delete(entries[1..], key) == Delete(entries[1..], key);
        assert Delete(entries, key) == Delete(entries[1..], key);
      }
    }
  }

  /** The copy holds exactly the properties of the original whose key is not one of `keys`. */
  lemma {:induction false} WithoutKeysMembers(entries: seq<Entry>, keys: seq<string>, e: Entry)
    ensures e in WithoutKeys(entries, keys) <==> e in entries && e.key !in keys
  {
    if keys != [] {
      var front := keys[..|keys| - 1];
      WithoutKeysMembers(entries, front, e);
      DeleteMembers(WithoutKeys(entries, front), keys[|keys| - 1], e);
      assert e.key in keys <==> e.key in front || e.key == keys[|keys| - 1] by {
        assert keys == front + [keys[|keys| - 1]];
      }
    }
  }

  lemma {:induction false} DeleteMembers(entries: seq<Entry>, key: string, e: Entry)
    ensures e in Delete(entries, key) <==> e in entries && e.key != key
  {
    if entries != [] {
      DeleteMembers(entries[1..], key, e);
      assert entries == [entries[0]] + entries[1..];
    }
  }

  /** The copy answers `undefined` for each deleted key and what the original answers for every other key. */
  lemma {:induction false} LookupWithoutKeys(entries: seq<Entry>, keys: seq<string>, k: string)
    ensures Lookup(WithoutKeys(entries, keys), k) == if k in keys then None else Lookup(entries, k)
  {
    if keys != [] {
      var front := keys[..|keys| - 1];
      LookupWithoutKeys(entries, front, k);
      LookupAfterDelete(WithoutKeys(entries, front), keys[|keys| - 1], k);
      assert k in keys <==> k in front || k == keys[|keys| - 1] by {
        assert keys == front + [keys[|keys| - 1]];
      }
    }
  }

  /** JavaScript truthiness of a query value: only the empty string is falsy. */
  predicate Truthy(v: Option<QVal>) {
    v.Some? && (v.value.Str? ==> v.value.s != [])
  }

  /** `s.split(',').join(' ')`. */
  function CommasToSpaces(s: string): (r: string)
    ensures r == ReplaceChar(s, ',', ' ')
  {
    SplitJoinReplaces(s, ',', ' ');
    Join(Split(s, ','), " ")
  }

  /**
   * The projection: none when `select` is absent or empty; the comma list
   * turned into a space list when it is a string; a TypeError when it is
   * an array or object, which have no `split`.
   */
  function SelectClause(v: Option<QVal>): (r: Result<Option<string>, Exception>)
    ensures r.Failure? <==> Truthy(v) && !v.value.Str?
    ensures r.Failure? ==> r.error == TypeError
    ensures r.Success? && r.value.Some? ==> Truthy(v) && r.value == Some(ReplaceChar(v.value.s, ',', ' '))
    ensures r.Success? && r.value.None? ==> !Truthy(v)
  {
    if !Truthy(v) then Success(None)
    else if v.value.Str? then Success(Some(CommasToSpaces(v.value.s)))
    else Failure(TypeError)
  }

  /** The sort: `-createdAt` when `sort` is absent or empty, as for the projection otherwise. */
  function SortClause(v: Option<QVal>): (r: Result<string, Exception>)
    ensures r.Failure? <==> Truthy(v) && !v.value.Str?
    ensures r.Failure? ==> r.error == TypeError
    ensures r.Success? ==> r.value == if Truthy(v) then ReplaceChar(v.value.s, ',', ' ') else DefaultSort
  {
    if !Truthy(v) then Success(DefaultSort)
    else if v.value.Str? then Success(CommasToSpaces(v.value.s))
    else Failure(TypeError)
  }

  /**
   * `parseInt(v, 10) || default`: the default replaces NaN and 0, every
   * other integer stays, sign included; `String(v)` may throw first.
   */
  function PageParam(v: Option<QVal>, default: int): (r: Result<int, Exception>)
    ensures r.Failure? <==> v.Some? && OwnToString(v.value)
    ensures r.Failure? ==> r.error == TypeError
    ensures r.Success? && default != 0 ==> r.value != 0
  {
    if v.None? then Success(default)
    else
      match ToJsString(v.value)
      case Failure(e) => Failure(e)
      case Success(t) =>
        var parsed := ParseInt(t);
        Success(if parsed.None? || parsed.value == 0 then default else parsed.value)
  }

  /** The page number the handler uses (line 46). */
  function PageOf(query: seq<Entry>): (r: Result<int, Exception>)
    ensures r.Failure? <==> Lookup(query, "page").Some? && OwnToString(Lookup(query, "page").value)
    ensures r.Success? ==> r.value != 0
  {
    PageParam(Lookup(query, "page"), DefaultPage)
  }

  /** The page size the handler uses (line 47). */
  function LimitOf(query: seq<Entry>): (r: Result<int, Exception>)
    ensures r.Failure? <==> Lookup(query, "limit").Some? && OwnToString(Lookup(query, "limit").value)
    ensures r.Success? ==> r.value != 0
  {
    PageParam(Lookup(query, "limit"), DefaultLimit)
  }

  /** A parameter written as an integer other than 0 is read back as that integer. */
  lemma PageParamReadsInteger(n: int, rest: string, default: int)
    requires n != 0
    requires rest == [] || !IsDigit(rest[0])
    ensures PageParam(Some(Str(IntToString(n) + rest)), default) == Success(n)
  {
    ParseIntRoundTrip(n, rest);
  }

  /**
   * An absent parameter, a zero, and text in which no digit follows the
   * white space and the optional sign all give the default.
   */
  lemma PageParamDefaults(default: int, rest: string, text: string)
    requires rest == [] || !IsDigit(rest[0])
    ensures PageParam(None, default) == Success(default)
    ensures PageParam(Some(Str(IntToString(0) + rest)), default) == Success(default)
    ensures !NumberAhead(TrimStart(text)) ==> PageParam(Some(Str(text)), default) == Success(default)
  {
    ParseIntRoundTrip(0, rest);
  }

  /**
   * A nested object reads as `[object Object]`, which is NaN, so it gives
   * the default; unless it has its own `toString`, and then `String()`
   * throws a TypeError.
   */
  lemma PageParamObject(default: int, entries: seq<Entry>)
    ensures Lookup(entries, "toString").None? ==> PageParam(Some(Obj(entries)), default) == Success(default)
    ensures Lookup(entries, "toString").Some? ==> PageParam(Some(Obj(entries)), default) == Failure(TypeError)
  {
    ObjectTextIsNaN();
  }

  /** `parseInt('[object Object]', 10)` is NaN. */
  lemma ObjectTextIsNaN()
    ensures ParseInt("[object Object]") == None
  {
    var t := "[object Object]";
    assert !IsJsWhitespace(t[0]);
    TrimStartKeeps(t);
    assert !IsDigit(t[0]) && t[0] != '+' && t[0] != '-';
  }

  /** What `getBootcamps` derives from the query string before it runs the query. */
  datatype QueryPlan = QueryPlan(
    filter: string,          // the JSON text handed to `JSON.parse` and `find`
    select: Option<string>,  // the projection, when there is one
    sort: string,
    page: int,
    limit: int,
    startIndex: int,         // the `skip`
    endIndex: int)

  /** Lines 14-20: copy the query, then delete the reserved keys from the copy one by one. */
  method StripReserved(query: seq<Entry>) returns (reqQuery: seq<Entry>)
    ensures reqQuery == WithoutKeys(query, RemoveFields)
  {
    reqQuery := query;
    var i := 0;
    while i < |RemoveFields|
      invariant 0 <= i <= |RemoveFields|
      invariant reqQuery == WithoutKeys(query, RemoveFields[..i])
    {
      assert RemoveFields[..i + 1][..i] == RemoveFields[..i];
      reqQuery := Delete(reqQuery, RemoveFields[i]);
      i := i + 1;
    }
    assert RemoveFields[..i] == RemoveFields;
  }

  /** The page, the page size, and the indices of the page's first row and of the row after it. */
  datatype Paging = Paging(page: int, limit: int, startIndex: int, endIndex: int)

  /** Lines 46-49: reading `page` and then `limit` may throw; otherwise the indices follow. */
  method PageIndices(query: seq<Entry>) returns (r: Result<Paging, Exception>)
    ensures r.Failure? <==> PageOf(query).Failure? || LimitOf(query).Failure?
    ensures r.Failure? ==> r.error == TypeError
    ensures r.Success? ==>
      && r.value.page == PageOf(query).value != 0
      && r.value.limit == LimitOf(query).value != 0
      && r.value.startIndex == (r.value.page - 1) * r.value.limit
      && r.value.endIndex - r.value.startIndex == r.value.limit
  {
    var page := PageOf(query);
    if page.Failure? {
      return Failure(page.error);
    }
    var limit := LimitOf(query);
    if limit.Failure? {
      return Failure(limit.error);
    }
    var startIndex := (page.value - 1) * limit.value;
    var endIndex := page.value * limit.value;
    IndexSpan(page.value, limit.value);
    r := Success(Paging(page.value, limit.value, startIndex, endIndex));
  }

  lemma IndexSpan(page: int, limit: int)
    ensures page * limit - (page - 1) * limit == limit
  {
  }

  /** The query makes lines 32-47 throw: a `select` or `sort` without `split`, or a `page` or `limit` that `String()` cannot convert. */
  predicate TranslationFails(query: seq<Entry>) {
    || SelectClause(Lookup(query, "select")).Failure?
    || SortClause(Lookup(query, "sort")).Failure?
    || PageOf(query).Failure?
    || LimitOf(query).Failure?
  }

  /**
   * Lines 14-49 of the handler, step by step: copy the query, delete the
   * reserved keys one by one, stringify, prefix the operators, then read
   * `select`, `sort`, `page` and `limit` from the original query.
   */
  method TranslateQuery(query: seq<Entry>) returns (r: Result<QueryPlan, Exception>)
    ensures r.Failure? <==> TranslationFails(query)
    ensures r.Failure? ==> r.error == TypeError
    ensures r.Success? ==>
      && r.value.filter == ReplaceOperators(Stringify(Obj(WithoutKeys(query, RemoveFields))))
      && r.value.select == SelectClause(Lookup(query, "select")).value
      && r.value.sort == SortClause(Lookup(query, "sort")).value
      && r.value.page == PageOf(query).value != 0
      && r.value.limit == LimitOf(query).value != 0
      && r.value.startIndex == (r.value.page - 1) * r.value.limit
      && r.value.endIndex - r.value.startIndex == r.value.limit
  {
    var reqQuery := StripReserved(query);
    var queryStr := Stringify(Obj(reqQuery));
    queryStr := ReplaceOperators(queryStr);
    var select := SelectClause(Lookup(query, "select"));
    if select.Failure? {
      return Failure(select.error);
    }
    var sort := SortClause(Lookup(query, "sort"));
    if sort.Failure? {
      return Failure(sort.error);
    }
    var paging := PageIndices(query);
    if paging.Failure? {
      return Failure(paging.error);
    }
    var p := paging.value;
    r := Success(QueryPlan(queryStr, select.value, sort.value, p.page, p.limit, p.startIndex, p.endIndex));
  }

  /** None of the reserved keys reaches the filter, and every other property does, unchanged. */
  lemma FilterKeepsOtherKeys(query: seq<Entry>, k: string)
    ensures Lookup(WithoutKeys(query, RemoveFields), k) == if k in RemoveFields then None else Lookup(query, k)
  {
    LookupWithoutKeys(query, RemoveFields, k);
  }

  /**
   * On a query without control characters, the filter text is the JSON of
   * the query without its reserved keys in which every operator word of a
   * key or of a string value has become a `$` operator.
   */
  lemma FilterIsRewrittenQuery(query: seq<Entry>)
    requires PrintableValue(Obj(query))
    ensures ReplaceOperators(Stringify(Obj(WithoutKeys(query, RemoveFields))))
         == Stringify(RewriteValue(Obj(WithoutKeys(query, RemoveFields))))
  {
    var kept := WithoutKeys(query, RemoveFields);
    forall i | 0 <= i < |kept| ensures PrintableEntry(kept[i]) {
      WithoutKeysMembers(query, RemoveFields, kept[i]);
    }
    StringifyCommutes(Obj(kept));
  }

  /** `{ page, limit }`, a neighbouring page. */
  datatype PageRef = PageRef(page: int, limit: int)

  /** The `pagination` object: `next` and `prev` each present or not. */
  datatype Pagination = Pagination(next: Option<PageRef>, prev: Option<PageRef>)

  /** Lines 58-72: a next page while `endIndex < total`, a previous one while `startIndex > 0`. */
  function Paginate(page: int, limit: int, total: int): (p: Pagination)
    ensures p.next.Some? <==> page * limit < total
    ensures p.prev.Some? <==> (page - 1) * limit > 0
    ensures p.next.Some? ==> p.next.value == PageRef(page + 1, limit)
    ensures p.prev.Some? ==> p.prev.value == PageRef(page - 1, limit)
  {
    Pagination(
      if page * limit < total then Some(PageRef(page + 1, limit)) else None,
      if (page - 1) * limit > 0 then Some(PageRef(page - 1, limit)) else None)
  }

  /** With a positive limit, a previous page is reported exactly on pages after the first. */
  lemma PrevOnLaterPages(page: int, limit: int, total: int)
    requires limit > 0
    ensures Paginate(page, limit, total).prev.Some? <==> page > 1
  {
    if page > 1 {
      assert (page - 1) * limit >= limit;
    } else {
      assert (page - 1) * limit <= 0;
    }
  }

  /**
   * `skip(skip).limit(limit)` on the sorted matches: a limit of 0 is no
   * limit, and a negative limit takes as many rows as its magnitude.
   */
  function Window<T>(rows: seq<T>, skip: nat, limit: int): (w: seq<T>)
    ensures limit != 0 ==> |w| <= if limit < 0 then -limit else limit
    ensures skip >= |rows| ==> w == []
    ensures forall k :: 0 <= k < |w| ==> skip + k < |rows| && w[k] == rows[skip + k]
  {
    var from := if skip < |rows| then skip else |rows|;
    var take := if limit < 0 then -limit else limit;
    var to := if limit == 0 || from + take > |rows| then |rows| else from + take;
    rows[from..to]
  }

  /**
   * A page holds every row it can: |limit| rows (for a limit other than 0)
   * unless the rows run out first, and every row from the skip on when the
   * limit is 0.
   */
  lemma WindowFull<T>(rows: seq<T>, skip: nat, limit: int)
    ensures var size := if limit < 0 then -limit else limit;
      |Window(rows, skip, limit)| ==
        if skip >= |rows| then 0
        else if limit != 0 && skip + size <= |rows| then size
        else |rows| - skip
  {
  }

  /** Consecutive pages follow each other with no row skipped and none repeated. */
  lemma PagesFollow<T>(rows: seq<T>, page: nat, limit: nat)
    requires page > 0 && limit > 0
    ensures Window(rows, 0, page * limit) + Window(rows, page * limit, limit) == Window(rows, 0, (page + 1) * limit)
  {
    var a := Window(rows, 0, page * limit);
    var b := Window(rows, page * limit, limit);
    var c := Window(rows, 0, (page + 1) * limit);
    assert (page + 1) * limit == page * limit + limit;
    assert page * limit >= limit;
    assert |a + b| == |c|;
    forall k | 0 <= k < |c| ensures (a + b)[k] == c[k] {
      if k >= |a| {
        assert b[k - |a|] == rows[page * limit + (k - |a|)];
      }
    }
  }
}
