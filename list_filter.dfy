/** The statement behind `GET /api/projects`: the optional query parameters
    `search`, `status`, `priority`, `environment` and `limit` become a list of
    WHERE clauses, the array of values bound to them and the LIMIT reference. */
module ListFilter {

  import opened JsValues
  import opened SqlText
  import opened SqlPhrases

  const DefaultLimit: int := 200
  const MaxLimit: int := 500

  /** The query string.  Each parameter is absent or a string; `limit` is
      absent or an integer. */
  datatype ListQuery = ListQuery(
    search: Option<string>,
    status: Option<string>,
    priority: Option<string>,
    environment: Option<string>,
    limit: Option<int>)

  /** The four filters, in the order the handler tests them. */
  datatype FilterKind = Search | StatusIs | PriorityIs | EnvironmentIs

  /** A supplied filter together with the text the caller gave for it. */
  datatype Filter = Filter(kind: FilterKind, text: string)

  /** One WHERE fragment and the number of the parameter it refers to. */
  datatype Clause = Clause(kind: FilterKind, param: nat)

  datatype ListStatement = ListStatement(where: seq<Clause>, values: seq<Value>, limitParam: nat)

  function Rank(k: FilterKind): nat
  {
    match k
    case Search => 0
    case StatusIs => 1
    case PriorityIs => 2
    case EnvironmentIs => 3
  }

  function Input(q: ListQuery, k: FilterKind): Option<string>
  {
    match k
    case Search => q.search
    case StatusIs => q.status
    case PriorityIs => q.priority
    case EnvironmentIs => q.environment
  }

  /** A filter takes part when its parameter is truthy: present and not empty. */
  predicate Supplied(q: ListQuery, k: FilterKind)
  {
    Input(q, k).Some? && Input(q, k).value != ""
  }

  function Optional(q: ListQuery, k: FilterKind): seq<Filter>
  {
    if Supplied(q, k) then [Filter(k, Input(q, k).value)] else []
  }

  /** The supplied filters in the fixed order search, status, priority, environment. */
  function Active(q: ListQuery): seq<Filter>
  {
    Optional(q, Search) + Optional(q, StatusIs) + Optional(q, PriorityIs) + Optional(q, EnvironmentIs)
  }

  /** The LIKE pattern bound for a search: the lower-cased text between `%` wildcards. */
  function SearchPattern(text: string): (p: string)
    ensures |p| == |text| + 2 && p[0] == '%' && p[|p| - 1] == '%'
    ensures p[1..|p| - 1] == LowerAscii(text)
  {
    "%" + LowerAscii(text) + "%"
  }

  /** The search is case-insensitive on its input: searching for the
      lower-cased text binds the same pattern. */
  lemma SearchIgnoresCase(text: string)
    ensures SearchPattern(LowerAscii(text)) == SearchPattern(text)
    ensures |SearchPattern(text)| == |text| + 2
  {
    LowerAsciiIdempotent(text);
  }

  /** The value bound for a filter. */
  function BoundValue(f: Filter): Value
  {
    if f.kind == Search then Str(SearchPattern(f.text)) else Str(f.text)
  }

  /** `Math.min(Number(limit || 200), 500)` on an optional integer. */
  function LimitValue(limit: Option<int>): (r: int)
    ensures r <= MaxLimit
    ensures limit.None? ==> r == DefaultLimit
    ensures limit.Some? ==> r <= limit.value && (r == limit.value || r == MaxLimit)
  {
    match limit
    case None => DefaultLimit
    case Some(n) => if n < MaxLimit then n else MaxLimit
  }

  /** Clause i of a list of filters refers to parameter i + 1. */
  function ClausesOf(fs: seq<Filter>): (r: seq<Clause>)
    ensures |r| == |fs|
  {
    seq(|fs|, i requires 0 <= i < |fs| => Clause(fs[i].kind, i + 1))
  }

  /** Value i of a list of filters is the bound value of filter i. */
  function ValuesOf(fs: seq<Filter>): (r: seq<Value>)
    ensures |r| == |fs|
  {
    seq(|fs|, i requires 0 <= i < |fs| => BoundValue(fs[i]))
  }

  /** The statement the handler builds, stated declaratively: one clause and
      one value per supplied filter, then the limit as the last value. */
  function ListSpec(q: ListQuery): ListStatement
  {
    var fs := Active(q);
    ListStatement(ClausesOf(fs), ValuesOf(fs) + [Num(LimitValue(q.limit))], |fs| + 1)
  }

  lemma ExtendFilters(fs: seq<Filter>, f: Filter)
    ensures ClausesOf(fs + [f]) == ClausesOf(fs) + [Clause(f.kind, |fs| + 1)]
    ensures ValuesOf(fs + [f]) == ValuesOf(fs) + [BoundValue(f)]
  {
    assert forall i :: 0 <= i < |fs| ==> (fs + [f])[i] == fs[i];
  }

  /** One `if (filter) { values.push(...); where.push(...) }` step of the
      handler: when the filter is supplied its value is pushed, and then its
      clause, numbered by `values.length` after that push. */
  method PushFilter(q: ListQuery, k: FilterKind, where: seq<Clause>, values: seq<Value>, ghost done: seq<Filter>)
    returns (where': seq<Clause>, values': seq<Value>)
    requires where == ClausesOf(done) && values == ValuesOf(done)
    ensures where' == ClausesOf(done + Optional(q, k)) && values' == ValuesOf(done + Optional(q, k))
  {
    where', values' := where, values;
    if Input(q, k).Some? && Input(q, k).value != "" {
      values' := values' + [BoundValue(Filter(k, Input(q, k).value))];
      where' := where' + [Clause(k, |values'|)];
      ExtendFilters(done, Filter(k, Input(q, k).value));
    } else {
      assert done + Optional(q, k) == done;
    }
  }

  /** The handler's chain of filter tests, in the order search, status,
      priority, environment, followed by the limit. */
  method BuildList(q: ListQuery) returns (st: ListStatement)
    ensures st == ListSpec(q)
    ensures |st.values| == |st.where| + 1 && st.limitParam == |st.values|
    ensures st.values[st.limitParam - 1] == Num(LimitValue(q.limit))
    ensures forall i :: 0 <= i < |st.where| ==>
      && st.where[i].param == i + 1
      && Supplied(q, st.where[i].kind)
      && st.values[i] == BoundValue(Filter(st.where[i].kind, Input(q, st.where[i].kind).value))
  {
    var where: seq<Clause> := [];
    var values: seq<Value> := [];
    where, values := PushFilter(q, Search, where, values, []);
    where, values := PushFilter(q, StatusIs, where, values, [] + Optional(q, Search));
    where, values := PushFilter(q, PriorityIs, where, values, [] + Optional(q, Search) + Optional(q, StatusIs));
    where, values := PushFilter(q, EnvironmentIs, where, values,
      [] + Optional(q, Search) + Optional(q, StatusIs) + Optional(q, PriorityIs));
    assert [] + Optional(q, Search) + Optional(q, StatusIs) + Optional(q, PriorityIs) + Optional(q, EnvironmentIs) == Active(q);
    var limitValue := LimitValue(q.limit);
    values := values + [Num(limitValue)];
    st := ListStatement(where, values, |values|);
    ListSpecAligned(q, st);
  }

  /** Each clause names a supplied filter, refers to parameter i + 1, and that
      parameter holds the filter's bound value; the limit comes last. */
  lemma ListSpecAligned(q: ListQuery, st: ListStatement)
    requires st == ListSpec(q)
    ensures && |st.values| == |st.where| + 1 && st.limitParam == |st.values|
      && st.values[st.limitParam - 1] == Num(LimitValue(q.limit))
      && forall i :: 0 <= i < |st.where| ==>
        && st.where[i].param == i + 1
        && Supplied(q, st.where[i].kind)
        && st.values[i] == BoundValue(Filter(st.where[i].kind, Input(q, st.where[i].kind).value))
  {
    forall i | 0 <= i < |st.where|
      ensures Supplied(q, st.where[i].kind)
      ensures st.values[i] == BoundValue(Filter(st.where[i].kind, Input(q, st.where[i].kind).value))
    {
      ActiveSound(q, i);
      assert Active(q)[i] == Filter(st.where[i].kind, Input(q, st.where[i].kind).value);
    }
  }

  /** Every filter in the active list was supplied, with the caller's text. */
  lemma ActiveSound(q: ListQuery, i: nat)
    requires i < |Active(q)|
    ensures Supplied(q, Active(q)[i].kind)
    ensures Input(q, Active(q)[i].kind) == Some(Active(q)[i].text)
  {
  }

  /** A filter contributes a clause exactly when it was supplied: absent or
      empty parameters add nothing. */
  lemma ActiveExactlySupplied(q: ListQuery, k: FilterKind)
    ensures Supplied(q, k) <==> exists i :: 0 <= i < |ListSpec(q).where| && ListSpec(q).where[i].kind == k
  {
    var fs := Active(q);
    if Supplied(q, k) {
      var i := if k == Search then 0
        else |Optional(q, Search)| + (if k == StatusIs then 0
        else |Optional(q, StatusIs)| + (if k == PriorityIs then 0
        else |Optional(q, PriorityIs)|));
      assert fs[i].kind == k;
      assert ListSpec(q).where[i].kind == k;
    } else {
      forall i | 0 <= i < |fs|
        ensures fs[i].kind != k
      {
        ActiveSound(q, i);
      }
    }
  }

  /** The clauses keep the fixed order search, status, priority, environment,
      so each filter appears at most once. */
  lemma ClausesOrdered(q: ListQuery)
    ensures forall i, j :: 0 <= i < j < |ListSpec(q).where| ==>
      Rank(ListSpec(q).where[i].kind) < Rank(ListSpec(q).where[j].kind)
  {
  }

  /** The text of one WHERE fragment.  The search fragment refers to its one
      parameter twice, once for `name` and once for `description`. */
  function ClauseTemplate(c: Clause): Template
  {
    match c.kind
    case Search =>
      [Text("(LOWER(name) LIKE "), Param(c.param), Text(" OR LOWER(description) LIKE "), Param(c.param), Text(")")]
    case StatusIs => [Text("status = "), Param(c.param)]
    case PriorityIs => [Text("priority = "), Param(c.param)]
    case EnvironmentIs => [Text("environment = "), Param(c.param)]
  }

  /** `whereSql`: nothing without clauses, otherwise `WHERE ` and the clauses joined with ` AND `. */
  function WhereTemplate(where: seq<Clause>): Template
  {
    if |where| == 0 then []
    else [Text("WHERE ")] + JoinTemplates(ClauseTemplates(where), " AND ")
  }

  function ClauseTemplates(where: seq<Clause>): (ts: seq<Template>)
    ensures |ts| == |where|
    ensures forall i :: 0 <= i < |where| ==> ts[i] == ClauseTemplate(where[i])
  {
    seq(|where|, i requires 0 <= i < |where| => ClauseTemplate(where[i]))
  }


  function SelectTemplate(st: ListStatement): Template
  {
    [Text(SelectHead)] + WhereTemplate(st.where) + [Text(" ORDER BY created_at DESC LIMIT "), Param(st.limitParam)]
  }

  lemma ClauseParams(c: Clause)
    ensures Params(ClauseTemplate(c)) == if c.kind == Search then [c.param, c.param] else [c.param]
  {
    var t := ClauseTemplate(c);
    if c.kind == Search {
      assert Params(t[4..]) == [];
      assert t[3..][1..] == t[4..];
      assert Params(t[3..]) == [c.param];
      assert t[2..][1..] == t[3..];
      assert t[1..][1..] == t[2..];
      assert Params(t[1..]) == [c.param, c.param];
    } else {
      assert Params(t[2..]) == [];
      assert t[1..][1..] == t[2..];
    }
  }

  /** `whereSql` is empty exactly when no filter was supplied. */
  lemma WhereEmptyIffNoFilters(q: ListQuery)
    ensures Render(WhereTemplate(ListSpec(q).where)) == "" <==> forall k :: !Supplied(q, k)
  {
    var where := ListSpec(q).where;
    if |where| == 0 {
      forall k ensures !Supplied(q, k) { ActiveExactlySupplied(q, k); }
    } else {
      var t := WhereTemplate(where);
      ActiveExactlySupplied(q, where[0].kind);
      assert t[0] == Text("WHERE ") && t[1..] == JoinTemplates(ClauseTemplates(where), " AND ");
      assert Render(t) == "WHERE " + Render(t[1..]);
    }
  }

  /** The references in the WHERE text of clauses numbered 1, 2, ... are
      exactly the numbers 1 to the number of clauses. */
  lemma WhereParams(where: seq<Clause>, k: nat)
    requires forall i :: 0 <= i < |where| ==> where[i].param == i + 1
    ensures k in Params(WhereTemplate(where)) <==> 1 <= k <= |where|
  {
    var n := |where|;
    if n > 0 {
      var parts := ClauseTemplates(where);
      assert Params(WhereTemplate(where)) == Params(JoinTemplates(parts, " AND ")) by {
        ParamsAppend([Text("WHERE ")], JoinTemplates(parts, " AND "));
        assert Params([Text("WHERE ")]) == [];
      }
      ParamsJoin(parts, " AND ", k);
      if k in Params(WhereTemplate(where)) {
        var i :| 0 <= i < n && k in Params(parts[i]);
        assert k == i + 1 by { ClauseParams(where[i]); }
      }
      if 1 <= k <= n {
        assert k in Params(parts[k - 1]) by { ClauseParams(where[k - 1]); }
      }
    }
  }

  lemma SelectParams(st: ListStatement, k: nat)
    ensures k in Params(SelectTemplate(st)) <==> k in Params(WhereTemplate(st.where)) || k == st.limitParam
  {
    var head: Template := [Text(SelectHead)];
    var tail: Template := [Text(" ORDER BY created_at DESC LIMIT "), Param(st.limitParam)];
    ParamsAppend(head + WhereTemplate(st.where), tail);
    ParamsAppend(head, WhereTemplate(st.where));
    assert Params(head) == [];
    assert tail[1..][1..] == [];
    assert Params(tail) == [st.limitParam];
  }

  lemma ClauseDelimited(c: Clause)
    ensures Delimited(ClauseTemplate(c))
  {
    var p := c.param;
    match c.kind
    case Search =>
      var t := ClauseTemplate(c);
      TextParamDelimited("(LOWER(name) LIKE ", p, " OR LOWER(description) LIKE ");
      TextParamDelimited(" OR LOWER(description) LIKE ", p, ")");
      assert t == [Text("(LOWER(name) LIKE "), Param(p), Text(" OR LOWER(description) LIKE ")]
        + [Param(p), Text(")")];
      assert [Param(p), Text(")")] == [Text(" OR LOWER(description) LIKE "), Param(p), Text(")")][1..];
    case StatusIs => TextParamDelimited("status = ", p, " ");
    case PriorityIs => TextParamDelimited("priority = ", p, " ");
    case EnvironmentIs => TextParamDelimited("environment = ", p, " ");
  }

  lemma SelectHeadDelimited()
    ensures Delimited([Text(SelectHead)])
  {
    PhrasesPlain();
    TextDelimited(SelectHead);
  }

  /** The SELECT text reads back unambiguously: its literal text holds no
      `$` and no reference is followed by a digit. */
  lemma SelectDelimited(st: ListStatement)
    ensures Delimited(SelectTemplate(st))
  {
    var parts := ClauseTemplates(st.where);
    forall i | 0 <= i < |parts| ensures Delimited(parts[i]) {
      ClauseDelimited(st.where[i]);
    }
    DelimitedJoin(parts, " AND ");
    var where := WhereTemplate(st.where);
    if st.where != [] {
      DelimitedAppend([Text("WHERE ")], JoinTemplates(parts, " AND "));
    }
    var head: Template := [Text(SelectHead)];
    var tail: Template := [Text(" ORDER BY created_at DESC LIMIT "), Param(st.limitParam)];
    TextParamDelimited(" ORDER BY created_at DESC LIMIT ", st.limitParam, " ");
    SelectHeadDelimited();
    DelimitedAppend(head, where);
    DelimitedAppend(head + where, tail);
  }

  /** The parameter numbers the statement template refers to are exactly 1
      to `values.length`: every reference has its value and every value is
      referred to. */
  lemma ListPlaceholdersCoverValues(q: ListQuery, k: nat)
    ensures k in Params(SelectTemplate(ListSpec(q))) <==> 1 <= k <= |ListSpec(q).values|
  {
    var st := ListSpec(q);
    ListSpecAligned(q, st);
    SelectParams(st, k);
    WhereParams(st.where, k);
  }

  /** The same holds of the SELECT text itself, read as the database reads
      its `$n` references. */
  lemma ListTextCoversValues(q: ListQuery, k: nat)
    ensures k in References(Render(SelectTemplate(ListSpec(q)))) <==> 1 <= k <= |ListSpec(q).values|
  {
    var st := ListSpec(q);
    SelectDelimited(st);
    ReferencesRender(SelectTemplate(st));
    ListPlaceholdersCoverValues(q, k);
  }

  /** The kinds of a list of filters, which is all that the clauses depend on. */
  function Kinds(fs: seq<Filter>): (r: seq<FilterKind>)
    ensures |r| == |fs|
  {
    seq(|fs|, i requires 0 <= i < |fs| => fs[i].kind)
  }

  lemma KindsAppend(a: seq<Filter>, b: seq<Filter>)
    ensures Kinds(a + b) == Kinds(a) + Kinds(b)
  {
  }

  /** The kinds of the active filters are fixed by which filters were supplied. */
  lemma ActiveKinds(q: ListQuery)
    ensures Kinds(Active(q)) ==
      (if Supplied(q, Search) then [Search] else [])
      + (if Supplied(q, StatusIs) then [StatusIs] else [])
      + (if Supplied(q, PriorityIs) then [PriorityIs] else [])
      + (if Supplied(q, EnvironmentIs) then [EnvironmentIs] else [])
  {
    var s, t, p, e := Optional(q, Search), Optional(q, StatusIs), Optional(q, PriorityIs), Optional(q, EnvironmentIs);
    KindsAppend(s + t + p, e);
    KindsAppend(s + t, p);
    KindsAppend(s, t);
  }

  /** Bound values never reach the statement text: two queries that supply
      the same filters produce the same text, whatever the values. */
  lemma TextIndependentOfValues(q1: ListQuery, q2: ListQuery)
    requires forall k :: Supplied(q1, k) <==> Supplied(q2, k)
    ensures SelectTemplate(ListSpec(q1)) == SelectTemplate(ListSpec(q2))
  {
    var a, b := Active(q1), Active(q2);
    ActiveKinds(q1);
    ActiveKinds(q2);
    assert Kinds(a) == Kinds(b);
    assert ClausesOf(a) == ClausesOf(b) by {
      forall i | 0 <= i < |a| ensures ClausesOf(a)[i] == ClausesOf(b)[i] {
        assert Kinds(a)[i] == Kinds(b)[i];
      }
    }
  }
}
