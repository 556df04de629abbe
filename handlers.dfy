/** The write handlers of the API: POST, PUT, PATCH and DELETE on
    `/api/projects`, each a request body and an id against the table,
    giving the response and the table afterwards. */
module Handlers {

  import opened JsValues
  import opened Projects
  import opened PatchBuilder
  import opened ProjectArgs
  import opened ProjectStore

  /** 200 with the row, 201 with the created row, 204, 400, 404 with their
      messages, or 500 when the statement failed in the database. */
  datatype Response =
    | Ok(project: Project)
    | Created(project: Project)
    | NoContent
    | BadRequest(message: string)
    | NotFound(message: string)
    | ServerError

  const ProjectNotFound := "project not found"

  /** The shared tail of PUT and PATCH: no row back means 404, otherwise the
      row itself; a failed statement is a 500. */
  function RowResponse(o: Outcome): (r: Response)
    ensures r == ServerError <==> o == StoreError
    ensures r == NotFound(ProjectNotFound) <==> o == Returned([])
    ensures r.Ok? <==> o.Returned? && o.rows != []
    ensures r.Ok? ==> r.project == o.rows[0]
  {
    match o
    case StoreError => ServerError
    case Returned(rows) => if |rows| == 0 then NotFound(ProjectNotFound) else Ok(rows[0])
  }

  /** `POST /api/projects`: a missing or falsy name is a 400 and the table is
      untouched; otherwise the row is inserted under the next id with the
      defaulted fields and returned with 201. */
  function HandleCreate(db: Db, body: Body): (r: (Response, Db))
    ensures !Supplies(body, Name) ==> r == (BadRequest(NameRequired), db)
    ensures Supplies(body, Name) && WellFormed(db) ==>
      var p := RowOf(db.nextId, FieldArgs(body));
      && r.0 == Created(p)
      && db.nextId !in db.rows
      && r.1 == Db(db.rows[db.nextId := p], db.nextId + 1)
    ensures WellFormed(db) ==> WellFormed(r.1)
    ensures WellFormed(db) && NamesNonEmpty(db) ==> NamesNonEmpty(r.1)
  {
    match CreateArgs(body)
    case Failure(message) => (BadRequest(message), db)
    case Success(args) =>
      var (db', o) := ExecInsert(db, args);
      (if o.Returned? && o.rows != [] then Created(o.rows[0]) else ServerError, db')
  }

  /** `PUT /api/projects/:id` as written: the body is not checked, the five
      defaulted fields and the id are bound, and an id without a row is a 404. */
  function HandlePutAsWritten(db: Db, id: int, body: Body): (r: (Response, Db))
    ensures id !in db.rows ==> r == (NotFound(ProjectNotFound), db)
    ensures id in db.rows && FieldArgs(body)[Position(Name)] == Null ==> r == (ServerError, db)
    ensures id in db.rows && FieldArgs(body)[Position(Name)] != Null ==>
      && r.0 == Ok(RowOf(id, FieldArgs(body)))
      && r.1 == db.(rows := db.rows[id := RowOf(id, FieldArgs(body))])
    ensures WellFormed(db) ==> WellFormed(r.1)
  {
    var (db', o) := ExecReplace(db, PutArgs(body, id));
    (RowResponse(o), db')
  }

  /** `PUT /api/projects/:id` with the name checked as create checks it: a
      missing or falsy name is a 400 before the table is consulted. */
  function HandlePut(db: Db, id: int, body: Body): (r: (Response, Db))
    ensures !Supplies(body, Name) ==> r == (BadRequest(NameRequired), db)
    ensures Supplies(body, Name) && id !in db.rows ==> r == (NotFound(ProjectNotFound), db)
    ensures Supplies(body, Name) && id in db.rows ==>
      && r.0 == Ok(RowOf(id, FieldArgs(body)))
      && r.1 == db.(rows := db.rows[id := RowOf(id, FieldArgs(body))])
    ensures WellFormed(db) ==> WellFormed(r.1)
    ensures NamesNonEmpty(db) ==> NamesNonEmpty(r.1)
  {
    if !Supplies(body, Name) then (BadRequest(NameRequired), db)
    else HandlePutAsWritten(db, id, body)
  }

  /** The PUT handler as written stores an empty name: the table below holds
      one well-formed row, and replacing it with `{"name": ""}` succeeds. */
  lemma PutAsWrittenStoresEmptyName()
    ensures var db := Db(map[1 := Project(1, Str("alpha"), Null, Null, Str("planning"), Str("medium"))], 2);
      var r := HandlePutAsWritten(db, 1, map["name" := Str("")]);
      && WellFormed(db) && NamesNonEmpty(db)
      && r.0 == Ok(Project(1, Str(""), Null, Null, Str("planning"), Str("medium")))
      && !NamesNonEmpty(r.1)
  {
    var db := Db(map[1 := Project(1, Str("alpha"), Null, Null, Str("planning"), Str("medium"))], 2);
    var body: Body := map["name" := Str("")];
    assert FieldArgs(body) == [Str(""), Null, Null, Str("planning"), Str("medium")];
    var r := HandlePutAsWritten(db, 1, body);
    assert r.1.rows[1].name == Str("");
  }

  /** The PATCH handler stated as a function of the request and the table. */
  function PatchResponse(db: Db, id: int, body: Body): (Response, Db)
  {
    match PatchSpec(id, body)
    case Failure(message) => (BadRequest(message), db)
    case Success(st) =>
      var (db', o) := ExecPatch(db, st);
      (RowResponse(o), db')
  }

  predicate HasAllowedKey(body: Body)
  {
    exists c :: Key(c) in body
  }

  /** The row a successful PATCH leaves: each allow-listed key present in the
      body sets its column (a falsy value as null), every other column and
      the id keep their values. */
  predicate Patched(before: Project, body: Body, after: Project)
  {
    && after.id == before.id
    && forall c :: Field(after, c) == if Key(c) in body then PatchValue(body, c) else Field(before, c)
  }

  /** What a PATCH does to a well-formed table: 400 without an allowed key,
      404 without a row, 500 when it would set the name to null, and
      otherwise exactly the present fields of the one row change. */
  lemma PatchSemantics(db: Db, id: int, body: Body)
    requires WellFormed(db)
    ensures var (resp, db') := PatchResponse(db, id, body);
      && (!HasAllowedKey(body) ==> resp == BadRequest(NoValidFields) && db' == db)
      && (HasAllowedKey(body) && id !in db.rows ==> resp == NotFound(ProjectNotFound) && db' == db)
      && (HasAllowedKey(body) && id in db.rows && PatchValue(body, Name) == Null && Key(Name) in body ==>
            resp == ServerError && db' == db)
      && (HasAllowedKey(body) && id in db.rows && !(PatchValue(body, Name) == Null && Key(Name) in body) ==>
            && resp.Ok?
            && Patched(db.rows[id], body, resp.project)
            && db' == db.(rows := db.rows[id := resp.project]))
  {
    PatchSpecFacts(id, body);
    if HasAllowedKey(body) {
      var st := PatchSpec(id, body).value;
      var cs := Present(body, Allowed);
      assert st.values[st.idParam - 1] == Num(id);
      if id in db.rows {
        var before := db.rows[id];
        forall i | 0 <= i < |cs| ensures st.values[i] == PatchValue(body, cs[i]) { }
        ApplyAligned(before, body, cs, st.values);
        var p := Overlay(before, body, cs);
        forall c ensures Field(p, c) == if Key(c) in body then PatchValue(body, c) else Field(before, c) {
          OverlayField(before, body, cs, c);
          PresentMembers(body, Allowed, c);
        }
        OverlayField(before, body, cs, Name);
      }
    }
  }

  /** `PATCH /api/projects/:id`: the SET list is built, then run. */
  method HandlePatch(db: Db, id: int, body: Body) returns (resp: Response, db': Db)
    ensures (resp, db') == PatchResponse(db, id, body)
    ensures WellFormed(db) ==> WellFormed(db')
    ensures WellFormed(db) && NamesNonEmpty(db) ==> NamesNonEmpty(db')
  {
    var built := BuildPatch(id, body);
    match built {
      case Failure(message) =>
        resp, db' := BadRequest(message), db;
      case Success(st) =>
        var (d, o) := ExecPatch(db, st);
        resp, db' := RowResponse(o), d;
    }
    if WellFormed(db) {
      PatchSemantics(db, id, body);
      if resp.Ok? {
        var c := Name;
        assert Field(resp.project, c) == if Key(c) in body then PatchValue(body, c) else Field(db.rows[id], c);
      }
    }
  }

  /** The example of a status-only PATCH: on an existing row, only `status` changes. */
  lemma PatchOnlyStatus(db: Db, id: int)
    requires WellFormed(db) && id in db.rows
    ensures var row := db.rows[id].(status := Str("done"));
      PatchResponse(db, id, map["status" := Str("done")]) == (Ok(row), db.(rows := db.rows[id := row]))
  {
    var body: Body := map["status" := Str("done")];
    assert Key(Status) in body;
    PatchSemantics(db, id, body);
    var (resp, db') := PatchResponse(db, id, body);
    var p := resp.project;
    var before := db.rows[id];
    assert Field(p, Name) == Field(before, Name);
    assert Field(p, Description) == Field(before, Description);
    assert Field(p, Environment) == Field(before, Environment);
    assert Field(p, Status) == Str("done");
    assert Field(p, Priority) == Field(before, Priority);
  }

  /** `DELETE /api/projects/:id`: 204 after removing the row, 404 when there is none. */
  function HandleDelete(db: Db, id: int): (r: (Response, Db))
    ensures id in db.rows <==> r.0 == NoContent
    ensures id !in db.rows ==> r == (NotFound(ProjectNotFound), db)
    ensures r.1.rows == db.rows - {id} && r.1.nextId == db.nextId
    ensures WellFormed(db) ==> WellFormed(r.1)
  {
    var (db', o) := ExecDelete(db, id);
    match o
    case StoreError => (ServerError, db')
    case Returned(rows) => (if rows == [] then NotFound(ProjectNotFound) else NoContent, db')
  }

  /** A deleted id is gone: deleting it again is a 404. */
  lemma DeleteTwiceNotFound(db: Db, id: int)
    ensures HandleDelete(HandleDelete(db, id).1, id).0 == NotFound(ProjectNotFound)
  {
    var db1 := HandleDelete(db, id).1;
    assert id !in db1.rows;
  }

  /** Ids are never reused: a project created after a delete never gets the deleted id. */
  lemma IdsNeverReused(db: Db, id: int, body: Body)
    requires WellFormed(db) && id in db.rows
    ensures var db1 := HandleDelete(db, id).1;
      HandleCreate(db1, body).0.Created? ==> HandleCreate(db1, body).0.project.id != id
  {
    var db1 := HandleDelete(db, id).1;
    assert id < db1.nextId;
  }
}
