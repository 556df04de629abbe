/** The `projects` table's row and its writable columns. */
module Projects {

  import opened JsValues

  /** The five columns a request may write; `id` and the timestamps are the store's. */
  datatype Column = Name | Description | Environment | Status | Priority

  /** The columns a PATCH may set, in the order the handler visits them. */
  const Allowed: seq<Column> := [Name, Description, Environment, Status, Priority]

  /** A column's name, which is also its key in a request body. */
  function Key(c: Column): string
  {
    match c
    case Name => "name"
    case Description => "description"
    case Environment => "environment"
    case Status => "status"
    case Priority => "priority"
  }

  /** A column's index in `Allowed`. */
  function Position(c: Column): (i: nat)
    ensures i < |Allowed| && Allowed[i] == c
  {
    match c
    case Name => 0
    case Description => 1
    case Environment => 2
    case Status => 3
    case Priority => 4
  }

  /** A stored row.  Each writable column holds the value that was bound for
      it; `created_at` and `updated_at` are not modelled. */
  datatype Project = Project(id: int, name: Value, description: Value, environment: Value, status: Value, priority: Value)

  function Field(p: Project, c: Column): Value
  {
    match c
    case Name => p.name
    case Description => p.description
    case Environment => p.environment
    case Status => p.status
    case Priority => p.priority
  }

  /** The row with one column overwritten. */
  function SetField(p: Project, c: Column, v: Value): (r: Project)
    ensures r.id == p.id && Field(r, c) == v
    ensures forall d :: d != c ==> Field(r, d) == Field(p, d)
  {
    match c
    case Name => p.(name := v)
    case Description => p.(description := v)
    case Environment => p.(environment := v)
    case Status => p.(status := v)
    case Priority => p.(priority := v)
  }
}
