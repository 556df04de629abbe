/** The statement behind `PATCH /api/projects/:id`: the allow-listed keys
    present in the body become SET assignments, each with its own bound
    value, and the id is bound last for the WHERE clause. */
module PatchBuilder {

  import opened JsValues
  import opened SqlText
  import opened SqlPhrases
  import opened Projects

  const NoValidFields := "no valid fields to update"

  /** One `column = $n` entry of the SET list. */
  datatype Assignment = Assignment(column: Column, param: nat)

  datatype PatchStatement = PatchStatement(updates: seq<Assignment>, values: seq<Value>, idParam: nat)

  /** The value bound for a present key: `body[key] || null`. */
  function PatchValue(body: Body, c: Column): Value
  {
    Or(Lookup(body, Key(c)), Null)
  }

  /** The columns of `cs` whose keys are own properties of the body, in the order of `cs`. */
  function Present(body: Body, cs: seq<Column>): seq<Column>
  {
    if cs == [] then []
    else Present(body, cs[..|cs| - 1]) + (if Key(cs[|cs| - 1]) in body then [cs[|cs| - 1]] else [])
  }

  /** Assignment i sets column i from parameter i + 1. */
  function AssignmentsOf(cs: seq<Column>): (r: seq<Assignment>)
    ensures |r| == |cs|
  {
    seq(|cs|, i requires 0 <= i < |cs| => Assignment(cs[i], i + 1))
  }

  function BindingsOf(body: Body, cs: seq<Column>): (r: seq<Value>)
    ensures |r| == |cs|
  {
    seq(|cs|, i requires 0 <= i < |cs| => PatchValue(body, cs[i]))
  }

  /** The outcome of the builder, stated declaratively: a 400 message when no
      allowed key is present, otherwise one assignment and one value per
      present key in allow-list order, then the id. */
  function PatchSpec(id: int, body: Body): Result<PatchStatement, string>
  {
    var cs := Present(body, Allowed);
    if cs == [] then Failure(NoValidFields)
    else Success(PatchStatement(AssignmentsOf(cs), BindingsOf(body, cs) + [Num(id)], |cs| + 1))
  }

  lemma ExtendColumns(body: Body, cs: seq<Column>, c: Column)
    ensures AssignmentsOf(cs + [c]) == AssignmentsOf(cs) + [Assignment(c, |cs| + 1)]
    ensures BindingsOf(body, cs + [c]) == BindingsOf(body, cs) + [PatchValue(body, c)]
  {
    assert forall i :: 0 <= i < |cs| ==> (cs + [c])[i] == cs[i];
  }

  /** A column is kept exactly when it is in `cs` and its key is in the body. */
  lemma {:induction false} PresentMembers(body: Body, cs: seq<Column>, c: Column)
    ensures c in Present(body, cs) <==> c in cs && Key(c) in body
  {
    if cs != [] {
      var init := cs[..|cs| - 1];
      PresentMembers(body, init, c);
      assert cs == init + [cs[|cs| - 1]];
    }
  }

  /** `Present` keeps the order of `cs`: it is a subsequence. */
  lemma {:induction false} PresentOrdered(body: Body, cs: seq<Column>)
    requires forall i, j :: 0 <= i < j < |cs| ==> Position(cs[i]) < Position(cs[j])
    ensures forall i, j :: 0 <= i < j < |Present(body, cs)| ==>
      Position(Present(body, cs)[i]) < Position(Present(body, cs)[j])
  {
    if cs != [] {
      var init := cs[..|cs| - 1];
      var last := cs[|cs| - 1];
      PresentOrdered(body, init);
      var p := Present(body, init);
      forall i | 0 <= i < |p|
        ensures Position(p[i]) < Position(last)
      {
        PresentMembers(body, init, p[i]);
        var j :| 0 <= j < |init| && init[j] == p[i];
      }
    }
  }

  /** The handler's `allowed.forEach`: for each allow-listed key the body
      has, its value (or null) is pushed, then `key = $n` with n the new
      `values.length`; no key gives the 400 message, otherwise the id is
      pushed last. */
  method BuildPatch(id: int, body: Body) returns (r: Result<PatchStatement, string>)
    ensures r == PatchSpec(id, body)
    ensures r.Failure? <==> forall c :: Key(c) !in body
    ensures r.Failure? ==> r.error == NoValidFields
    ensures r.Success? ==>
      var st := r.value;
      && |st.updates| > 0
      && |st.values| == |st.updates| + 1 && st.idParam == |st.values|
      && st.values[st.idParam - 1] == Num(id)
      && forall i :: 0 <= i < |st.updates| ==>
        && st.updates[i].param == i + 1
        && Key(st.updates[i].column) in body
        && st.values[i] == PatchValue(body, st.updates[i].column)
  {
    var updates: seq<Assignment> := [];
    var values: seq<Value> := [];
    var i := 0;
    while i < |Allowed|
      invariant 0 <= i <= |Allowed|
      invariant updates == AssignmentsOf(Present(body, Allowed[..i]))
      invariant values == BindingsOf(body, Present(body, Allowed[..i]))
    {
      var key := Key(Allowed[i]);
      ghost var done := Present(body, Allowed[..i]);
      assert Allowed[..i + 1][..i] == Allowed[..i];
      if key in body {
        values := values + [Or(Lookup(body, key), Null)];
        updates := updates + [Assignment(Allowed[i], |values|)];
        ExtendColumns(body, done, Allowed[i]);
      }
      i := i + 1;
    }
    assert Allowed[..i] == Allowed;
    if |updates| == 0 {
      r := Failure(NoValidFields);
    } else {
      values := values + [Num(id)];
      r := Success(PatchStatement(updates, values, |values|));
    }
    PatchSpecFacts(id, body);
  }

  lemma PatchSpecFacts(id: int, body: Body)
    ensures PatchSpec(id, body).Failure? <==> forall c :: Key(c) !in body
    ensures PatchSpec(id, body).Success? ==>
      var st := PatchSpec(id, body).value;
      forall i :: 0 <= i < |st.updates| ==> Key(st.updates[i].column) in body
  {
    var cs := Present(body, Allowed);
    forall c ensures c in cs <==> Key(c) in body {
      PresentMembers(body, Allowed, c);
    }
    if cs != [] {
      assert cs[0] in cs;
    }
  }

  /** The SET list names exactly the allow-listed columns whose keys the body
      has, each once, in the order name, description, environment, status, priority. */
  lemma PatchColumnsExactAndOrdered(id: int, body: Body)
    requires PatchSpec(id, body).Success?
    ensures var u := PatchSpec(id, body).value.updates;
      && (forall c :: Key(c) in body <==> exists i :: 0 <= i < |u| && u[i].column == c)
      && (forall i, j :: 0 <= i < j < |u| ==> Position(u[i].column) < Position(u[j].column))
  {
    var cs := Present(body, Allowed);
    var u := PatchSpec(id, body).value.updates;
    forall c ensures Key(c) in body <==> exists i :: 0 <= i < |u| && u[i].column == c {
      PresentMembers(body, Allowed, c);
      if c in cs {
        var i :| 0 <= i < |cs| && cs[i] == c;
        assert u[i].column == c;
      }
    }
    PresentOrdered(body, Allowed);
  }

  /** Keys outside the allow-list make no difference to the statement. */
  lemma UnknownKeysIgnored(id: int, body: Body)
    ensures PatchSpec(id, body) == PatchSpec(id, map k | k in body && k in AllowedKeys() :: body[k])
  {
    var kept := map k | k in body && k in AllowedKeys() :: body[k];
    PresentAgree(body, kept, Allowed);
    var cs := Present(body, Allowed);
    forall i | 0 <= i < |cs| ensures PatchValue(body, cs[i]) == PatchValue(kept, cs[i]) {
      assert Key(cs[i]) in AllowedKeys();
    }
    assert BindingsOf(body, cs) == BindingsOf(kept, cs);
  }

  function AllowedKeys(): set<string>
  {
    set c | c in Allowed :: Key(c)
  }

  lemma {:induction false} PresentAgree(b1: Body, b2: Body, cs: seq<Column>)
    requires forall c :: c in cs ==> (Key(c) in b1 <==> Key(c) in b2)
    ensures Present(b1, cs) == Present(b2, cs)
  {
    if cs != [] {
      PresentAgree(b1, b2, cs[..|cs| - 1]);
    }
  }

  function AssignTemplate(a: Assignment): Template
  {
    [Text(Key(a.column) + " = "), Param(a.param)]
  }

  function AssignTemplates(updates: seq<Assignment>): (ts: seq<Template>)
    ensures |ts| == |updates|
    ensures forall i :: 0 <= i < |updates| ==> ts[i] == AssignTemplate(updates[i])
  {
    seq(|updates|, i requires 0 <= i < |updates| => AssignTemplate(updates[i]))
  }


  /** `UPDATE projects SET <updates joined by ", ">, updated_at = NOW() WHERE id = $n RETURNING ...` */
  function UpdateTemplate(st: PatchStatement): Template
  {
    [Text("UPDATE projects SET ")] + JoinTemplates(AssignTemplates(st.updates), ", ")
      + [Text(", updated_at = NOW() WHERE id = "), Param(st.idParam), Text(Returning)]
  }

  lemma AssignParams(a: Assignment)
    ensures Params(AssignTemplate(a)) == [a.param]
  {
    var t := AssignTemplate(a);
    assert t[1..][1..] == [];
    assert Params(t[1..]) == [a.param];
  }

  lemma UpdateParams(st: PatchStatement, k: nat)
    ensures k in Params(UpdateTemplate(st))
        <==> k in Params(JoinTemplates(AssignTemplates(st.updates), ", ")) || k == st.idParam
  {
    var head: Template := [Text("UPDATE projects SET ")];
    var tail: Template := [Text(", updated_at = NOW() WHERE id = "), Param(st.idParam), Text(Returning)];
    var mid := JoinTemplates(AssignTemplates(st.updates), ", ");
    ParamsAppend(head + mid, tail);
    ParamsAppend(head, mid);
    assert Params(head) == [];
    assert tail[1..][1..][1..] == [];
    assert Params(tail[1..][1..]) == [];
    assert Params(tail[1..]) == [st.idParam];
    assert Params(tail) == [st.idParam];
  }

  lemma WhereIdDelimited(k: nat)
    ensures Delimited([Text(", updated_at = NOW() WHERE id = "), Param(k), Text(Returning)])
  {
    PhrasesPlain();
    TextParamDelimited(", updated_at = NOW() WHERE id = ", k, Returning);
  }

  lemma AssignDelimited(a: Assignment)
    ensures Delimited(AssignTemplate(a))
  {
    assert '$' !in Key(a.column) + " = ";
    TextParamDelimited(Key(a.column) + " = ", a.param, " ");
  }

  /** The UPDATE text reads back unambiguously: its literal text holds no
      `$` and no reference is followed by a digit. */
  lemma UpdateDelimited(st: PatchStatement)
    ensures Delimited(UpdateTemplate(st))
  {
    var parts := AssignTemplates(st.updates);
    forall i | 0 <= i < |parts| ensures Delimited(parts[i]) {
      AssignDelimited(st.updates[i]);
    }
    DelimitedJoin(parts, ", ");
    var head: Template := [Text("UPDATE projects SET ")];
    var mid := JoinTemplates(parts, ", ");
    var tail: Template := [Text(", updated_at = NOW() WHERE id = "), Param(st.idParam), Text(Returning)];
    WhereIdDelimited(st.idParam);
    TextDelimited("UPDATE projects SET ");
    DelimitedAppend(head, mid);
    DelimitedAppend(head + mid, tail);
  }

  /** The references in the SET list of assignments numbered 1, 2, ... are
      exactly the numbers 1 to the number of assignments. */
  lemma SetParams(updates: seq<Assignment>, k: nat)
    requires forall i :: 0 <= i < |updates| ==> updates[i].param == i + 1
    ensures k in Params(JoinTemplates(AssignTemplates(updates), ", ")) <==> 1 <= k <= |updates|
  {
    var parts := AssignTemplates(updates);
    ParamsJoin(parts, ", ", k);
    if k in Params(JoinTemplates(parts, ", ")) {
      var i :| 0 <= i < |parts| && k in Params(parts[i]);
      assert k == i + 1 by { AssignParams(updates[i]); }
    }
    if 1 <= k <= |parts| {
      assert k in Params(parts[k - 1]) by { AssignParams(updates[k - 1]); }
    }
  }

  /** The parameter numbers the UPDATE template refers to are exactly 1 to
      `values.length`; the id's reference is the last of them. */
  lemma PatchPlaceholdersCoverValues(id: int, body: Body, k: nat)
    requires PatchSpec(id, body).Success?
    ensures var st := PatchSpec(id, body).value;
      k in Params(UpdateTemplate(st)) <==> 1 <= k <= |st.values|
  {
    var st := PatchSpec(id, body).value;
    UpdateParams(st, k);
    SetParams(st.updates, k);
  }

  /** The same holds of the UPDATE text itself, read as the database reads
      its `$n` references. */
  lemma PatchTextCoversValues(id: int, body: Body, k: nat)
    requires PatchSpec(id, body).Success?
    ensures var st := PatchSpec(id, body).value;
      k in References(Render(UpdateTemplate(st))) <==> 1 <= k <= |st.values|
  {
    var st := PatchSpec(id, body).value;
    UpdateDelimited(st);
    ReferencesRender(UpdateTemplate(st));
    PatchPlaceholdersCoverValues(id, body, k);
  }

  /** Bound values never reach the statement text: bodies with the same
      allow-listed keys give the same text, whatever their values and the id. */
  lemma TextIndependentOfValues(id1: int, b1: Body, id2: int, b2: Body)
    requires forall c :: Key(c) in b1 <==> Key(c) in b2
    requires PatchSpec(id1, b1).Success?
    ensures PatchSpec(id2, b2).Success?
    ensures UpdateTemplate(PatchSpec(id1, b1).value) == UpdateTemplate(PatchSpec(id2, b2).value)
  {
    PresentAgree(b1, b2, Allowed);
  }
}
