/** The values bound by `POST /api/projects` (create) and
    `PUT /api/projects/:id` (full replace): the body's fields with their
    `||` defaults, in column order. */
module ProjectArgs {

  import opened JsValues
  import opened Projects

  const NameRequired := "name is required"
  const DefaultStatus: Value := Str("planning")
  const DefaultPriority: Value := Str("medium")

  /** What a falsy or absent field falls back to.  The name is bound as it
      comes and has no fallback of its own; an absent name reaches the
      database as NULL. */
  function Fallback(c: Column): Value
  {
    match c
    case Name => Null
    case Description => Null
    case Environment => Null
    case Status => DefaultStatus
    case Priority => DefaultPriority
  }

  /** The body supplies a field when the key is present and its value truthy. */
  predicate Supplies(body: Body, c: Column)
  {
    Key(c) in body && Truthy(body[Key(c)])
  }

  /** `[name, description || null, environment || null, status || "planning", priority || "medium"]` */
  function FieldArgs(body: Body): (args: seq<Value>)
    ensures |args| == |Allowed|
    ensures forall c :: c != Name && Supplies(body, c) ==> args[Position(c)] == body[Key(c)]
    ensures forall c :: c != Name && !Supplies(body, c) ==> args[Position(c)] == Fallback(c)
    ensures Key(Name) in body ==> args[Position(Name)] == body["name"]
    ensures Key(Name) !in body ==> args[Position(Name)] == Null
    ensures Truthy(args[Position(Status)]) && Truthy(args[Position(Priority)])
  {
    [ Bind(Lookup(body, "name")),
      Or(Lookup(body, "description"), Null),
      Or(Lookup(body, "environment"), Null),
      Or(Lookup(body, "status"), DefaultStatus),
      Or(Lookup(body, "priority"), DefaultPriority) ]
  }

  /** Create: a missing or falsy name is refused with a 400 message before
      anything is bound; otherwise the five field values. */
  function CreateArgs(body: Body): (r: Result<seq<Value>, string>)
    ensures r.Failure? <==> !Supplies(body, Name)
    ensures r.Failure? ==> r.error == NameRequired
    ensures r.Success? ==> r.value == FieldArgs(body) && Truthy(r.value[Position(Name)])
  {
    if !(Lookup(body, "name").Some? && Truthy(body["name"])) then Failure(NameRequired)
    else Success(FieldArgs(body))
  }

  /** PUT: the same five values, unchecked, followed by `Number(id)`. */
  function PutArgs(body: Body, id: int): (r: seq<Value>)
    ensures |r| == |Allowed| + 1 && r[..|Allowed|] == FieldArgs(body) && r[|Allowed|] == Num(id)
  {
    FieldArgs(body) + [Num(id)]
  }

  /** Creating with nothing but a name binds the defaults: no description,
      no environment, status "planning", priority "medium". */
  lemma CreateWithOnlyName(x: string)
    requires x != ""
    ensures CreateArgs(map["name" := Str(x)]) == Success([Str(x), Null, Null, Str("planning"), Str("medium")])
  {
  }
}
