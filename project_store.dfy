/** An abstract `projects` table, enough to give the handlers' statements a
    meaning: rows keyed by id, the SERIAL sequence that hands out ids, the
    NOT NULL constraint on `name`, and what each statement returns. */
module ProjectStore {

  import opened JsValues
  import opened Projects
  import opened PatchBuilder

  /** The table and the next value of its id sequence. */
  datatype Db = Db(rows: map<int, Project>, nextId: int)

  /** What the schema and the sequence guarantee: each row sits under its own
      id, every id was handed out by the sequence, and no name is NULL. */
  predicate WellFormed(db: Db)
  {
    forall k :: k in db.rows ==> db.rows[k].id == k && k < db.nextId && db.rows[k].name != Null
  }

  /** The data model's promise beyond the schema: no stored name is empty. */
  predicate NamesNonEmpty(db: Db)
  {
    forall k :: k in db.rows ==> db.rows[k].name != Str("")
  }

  /** A statement either fails in the database or returns rows. */
  datatype Outcome = Returned(rows: seq<Project>) | StoreError

  function RowOf(id: int, args: seq<Value>): Project
    requires |args| >= 5
  {
    Project(id, args[0], args[1], args[2], args[3], args[4])
  }

  /** `INSERT INTO projects (name, ...) VALUES ($1, ..., $5) RETURNING ...`:
      the sequence is advanced for every attempt; a NULL name fails the insert. */
  function ExecInsert(db: Db, args: seq<Value>): (r: (Db, Outcome))
    ensures WellFormed(db) ==> WellFormed(r.0)
    ensures r.1.Returned? ==>
      && |args| == 5 && args[0] != Null
      && r.1.rows == [RowOf(db.nextId, args)]
      && r.0.rows == db.rows[db.nextId := RowOf(db.nextId, args)]
    ensures WellFormed(db) && r.1.Returned? ==> db.nextId !in db.rows
    ensures r.1.StoreError? ==> r.0.rows == db.rows
    ensures r.0.nextId >= db.nextId
    ensures |args| != 5 ==> r == (db, StoreError)
    ensures |args| == 5 && args[0] == Null ==> r == (db.(nextId := db.nextId + 1), StoreError)
    ensures |args| == 5 && args[0] != Null ==>
      r == (Db(db.rows[db.nextId := RowOf(db.nextId, args)], db.nextId + 1), Returned([RowOf(db.nextId, args)]))
  {
    if |args| != 5 then (db, StoreError)
    else if args[0] == Null then (db.(nextId := db.nextId + 1), StoreError)
    else
      var p := RowOf(db.nextId, args);
      (Db(db.rows[db.nextId := p], db.nextId + 1), Returned([p]))
  }

  /** `UPDATE projects SET name = $1, ..., priority = $5 ... WHERE id = $6 RETURNING ...`:
      no row for the id returns nothing; a NULL name fails the update. */
  function ExecReplace(db: Db, args: seq<Value>): (r: (Db, Outcome))
    ensures WellFormed(db) ==> WellFormed(r.0)
    ensures r.0.nextId == db.nextId
    ensures !(|args| == 6 && args[5].Num?) ==> r == (db, StoreError)
    ensures |args| == 6 && args[5].Num? && args[5].n !in db.rows ==> r == (db, Returned([]))
    ensures |args| == 6 && args[5].Num? && args[5].n in db.rows && args[0] == Null ==> r == (db, StoreError)
    ensures |args| == 6 && args[5].Num? && args[5].n in db.rows && args[0] != Null ==>
      && r.1 == Returned([RowOf(args[5].n, args)])
      && r.0 == db.(rows := db.rows[args[5].n := RowOf(args[5].n, args)])
  {
    if |args| != 6 || !args[5].Num? then (db, StoreError)
    else
      var id := args[5].n;
      if id !in db.rows then (db, Returned([]))
      else if args[0] == Null then (db, StoreError)
      else
        var p := RowOf(id, args);
        (db.(rows := db.rows[id := p]), Returned([p]))
  }

  /** The SET list applied to a row: each assignment takes its value from
      the parameter it refers to; a reference outside the values is an error.
      The right-hand sides are constants, so when the columns are distinct,
      as every PATCH statement's are, the order of application does not
      matter; the assignments are applied left to right. A column assigned
      twice, which the database refuses, is not modelled: here the last
      assignment would win. */
  function ApplyAssignments(p: Project, updates: seq<Assignment>, values: seq<Value>): (r: Option<Project>)
    ensures r.Some? ==> r.value.id == p.id
  {
    if updates == [] then Some(p)
    else
      var a := updates[|updates| - 1];
      match ApplyAssignments(p, updates[..|updates| - 1], values)
      case None => None
      case Some(q) =>
        if 1 <= a.param <= |values| then Some(SetField(q, a.column, values[a.param - 1])) else None
  }

  /** The PATCH statement: the id is the value its last reference names. */
  function ExecPatch(db: Db, st: PatchStatement): (r: (Db, Outcome))
    ensures WellFormed(db) ==> WellFormed(r.0)
    ensures r.0.nextId == db.nextId
    ensures !(1 <= st.idParam <= |st.values| && st.values[st.idParam - 1].Num?) ==> r == (db, StoreError)
    ensures 1 <= st.idParam <= |st.values| && st.values[st.idParam - 1].Num? ==>
      var id := st.values[st.idParam - 1].n;
      && (id !in db.rows ==> r == (db, Returned([])))
      && (id in db.rows ==>
            var p := ApplyAssignments(db.rows[id], st.updates, st.values);
            && (p.None? || p.value.name == Null ==> r == (db, StoreError))
            && (p.Some? && p.value.name != Null ==>
                  r == (db.(rows := db.rows[id := p.value]), Returned([p.value]))))
  {
    if !(1 <= st.idParam <= |st.values|) || !st.values[st.idParam - 1].Num? then (db, StoreError)
    else
      var id := st.values[st.idParam - 1].n;
      if id !in db.rows then (db, Returned([]))
      else
        match ApplyAssignments(db.rows[id], st.updates, st.values)
        case None => (db, StoreError)
        case Some(p) =>
          if p.name == Null then (db, StoreError)
          else (db.(rows := db.rows[id := p]), Returned([p]))
  }

  /** `DELETE FROM projects WHERE id = $1 RETURNING id` */
  function ExecDelete(db: Db, id: int): (r: (Db, Outcome))
    ensures WellFormed(db) ==> WellFormed(r.0)
    ensures r.0.nextId == db.nextId
    ensures r.0.rows == db.rows - {id}
    ensures r.1 == Returned([]) <==> id !in db.rows
    ensures id in db.rows ==> r.1 == Returned([db.rows[id]])
  {
    if id in db.rows then (db.(rows := db.rows - {id}), Returned([db.rows[id]]))
    else (db, Returned([]))
  }

  /** A row with the PATCH values of the columns in `cs` laid over it. */
  function Overlay(p: Project, body: Body, cs: seq<Column>): Project
  {
    if cs == [] then p
    else SetField(Overlay(p, body, cs[..|cs| - 1]), cs[|cs| - 1], PatchValue(body, cs[|cs| - 1]))
  }

  /** After the overlay, a column in `cs` holds its PATCH value and every
      other column, and the id, are as before. */
  lemma {:induction false} OverlayField(p: Project, body: Body, cs: seq<Column>, c: Column)
    ensures Overlay(p, body, cs).id == p.id
    ensures Field(Overlay(p, body, cs), c) == if c in cs then PatchValue(body, c) else Field(p, c)
  {
    if cs != [] {
      var init := cs[..|cs| - 1];
      OverlayField(p, body, init, c);
      assert cs == init + [cs[|cs| - 1]];
    }
  }

  /** When assignment i refers to parameter i + 1 and that parameter holds
      the column's PATCH value, the SET list produces the overlay. */
  lemma {:induction false} ApplyAligned(p: Project, body: Body, cs: seq<Column>, values: seq<Value>)
    requires |cs| <= |values|
    requires forall i :: 0 <= i < |cs| ==> values[i] == PatchValue(body, cs[i])
    ensures ApplyAssignments(p, AssignmentsOf(cs), values) == Some(Overlay(p, body, cs))
  {
    if cs != [] {
      var init := cs[..|cs| - 1];
      assert AssignmentsOf(cs)[..|cs| - 1] == AssignmentsOf(init);
      ApplyAligned(p, body, init, values);
    }
  }
}
