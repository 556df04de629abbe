# Project tracker API: statement building and input defaulting

This project is a Dafny model of the request-handling core of the project tracker's Express back end (`backend/src/index.js`). It covers these parts:

- **List filter** (`GET /api/projects`). The optional `search`, `status`, `priority`, `environment` and `limit` query parameters become three things: the WHERE clauses, the array of bound values, and the LIMIT reference. A search is lower-cased and wrapped in `%` wildcards. The limit defaults to 200 and is capped at 500.
- **Partial update** (`PATCH /api/projects/:id`). The handler walks the allow-list `name, description, environment, status, priority` and keeps the keys that the body has. A falsy value is bound as null. A body without any allowed key is refused, and the id is bound last.
- **Create and replace** (`POST /api/projects`, `PUT /api/projects/:id`). The body's fields are bound with their `||` defaults: description and environment fall back to null, status to `"planning"`, priority to `"medium"`. Create refuses a missing or falsy name.
- **Response decisions.** A statement that returns no row is a 404, a failed statement is a 500, and a successful delete is a 204.

Statement text is modelled as a template: a sequence of literal text and `$n` parameter references. Every reference can then be compared with the array of bound values. The template is also rendered to the text sent to the database. Reading the `$n` references back off that text, as the database does, gives exactly the template's references.

JavaScript values, truthiness and `||` are modelled over a small JSON value type. A request body is a map from keys to values, and a key missing from the map is `undefined`.

To give the statements a meaning, the model includes an abstract `projects` table: rows keyed by id, plus the SERIAL sequence. It models the `name TEXT NOT NULL` constraint, and the effect of each INSERT, UPDATE and DELETE with the rows it returns. INSERT and UPDATE return the whole row, as their RETURNING lists do. DELETE returns only `id` (`backend/src/index.js:156`). The model returns the deleted row instead, and the handler only tests whether any row came back.

Modules:

- `JsValues`: values, truthiness, `||`, body lookup.
- `SqlText`: templates, placeholders, joins, ASCII lower-casing.
- `Projects`: columns and rows.
- `ListFilter`: the list statement.
- `PatchBuilder`: the PATCH statement.
- `ProjectArgs`: the create and PUT arguments.
- `ProjectStore`: the abstract table and statement execution.
- `Handlers`: the write handlers and their responses.

`status` is meant to be one of `planning`, `in-progress` and `done`, and `priority` one of `low`, `medium` and `high`, with an invalid value falling back to the default. The handlers never check either against its set of values. A truthy value is stored as given, and only a falsy one gets the default (`backend/src/index.js:80-81`, `101-102`). The model follows the handlers.

## Model

| member | source | states |
|---|---|---|
| ListFilter.BuildList | backend/src/index.js:25-50 | The built statement is the declarative `ListSpec`. Clause i refers to parameter i + 1. That parameter holds the value of a filter that was supplied (lower-cased and `%`-wrapped for search). The limit value is last, and the LIMIT reference is `values.length`. |
| ListFilter.PushFilter | backend/src/index.js:29-46 | One `if (filter)` step appends the filter's clause and value exactly when it is supplied. The clause is numbered by the length of `values` after the push. |
| ListFilter.LimitValue | backend/src/index.js:49 | The limit is never above 500. An absent limit is 200. A given limit is kept, or replaced by 500 when it is larger. There is no lower clamp. |
| ListFilter.ListSpecAligned | backend/src/index.js:29-50 | In the specified statement, every clause names a supplied filter and refers to the parameter that holds that filter's bound value. The limit is the last value. |
| ListFilter.ActiveSound | backend/src/index.js:29-46 | Every filter that takes part was supplied, and it carries the caller's text. |
| ListFilter.ActiveExactlySupplied | backend/src/index.js:29-46 | A filter contributes a clause if and only if its parameter is present and non-empty. |
| ListFilter.ClausesOrdered | backend/src/index.js:29-46 | The clauses appear in the fixed order search, status, priority, environment, so no filter appears twice. |
| ListFilter.SearchIgnoresCase | backend/src/index.js:30 | The search pattern is the same for a text and its lower-cased form, and it is two characters longer than the text. |
| ListFilter.WhereEmptyIffNoFilters | backend/src/index.js:48 | `whereSql` renders empty if and only if no filter was supplied. |
| ListFilter.WhereParams | backend/src/index.js:31-48 | The WHERE text of clauses numbered 1, 2, ... refers to exactly the parameters 1 to the number of clauses. |
| ListFilter.ClauseParams | backend/src/index.js:31-45 | The search fragment refers to its parameter twice (name and description). Every other fragment refers to its parameter once. |
| ListFilter.SelectParams | backend/src/index.js:54-58 | The full SELECT refers to the WHERE references plus the LIMIT reference, and nothing else. |
| ListFilter.ListPlaceholdersCoverValues | backend/src/index.js:25-59 | The statement template refers to exactly the parameters 1 to `values.length`. Every reference has a value, and every value is referred to. |
| ListFilter.ActiveKinds | backend/src/index.js:29-46 | Which clause kinds appear, and in what order, depends only on which of search, status, priority and environment were supplied. |
| ListFilter.SearchPattern | backend/src/index.js:30 | The pattern is the lower-cased text between two `%` wildcards. |
| ListFilter.SelectDelimited | backend/src/index.js:31-58 | The SELECT text reads back unambiguously: its literal text holds no `$`, and no reference is followed by a digit. |
| ListFilter.ListTextCoversValues | backend/src/index.js:25-59 | The `$n` references in the rendered SELECT text are exactly 1 to `values.length`. |
| ListFilter.TextIndependentOfValues | backend/src/index.js:29-58 | Two queries that supply the same filters produce the same statement text, whatever the values. Values are only ever bound, never spliced into the text. |
| SqlText.ParseDecimalInverts | backend/src/index.js:32 | Reading back the decimal spelling of a parameter number gives the number. |
| SqlText.Decimal | backend/src/index.js:32 | A parameter number is spelled as a non-empty string of decimal digits. |
| SqlText.ReferencesPlaceholder | backend/src/index.js:32 | `$k` followed by a non-digit reads back as one reference, to k. |
| SqlText.ReferencesRender | backend/src/index.js:54-58 | Suppose no literal text of a template holds a `$` and no reference is followed by a digit. Then the references read off its rendered text are exactly the template's references, in order. |
| SqlText.DelimitedJoin | backend/src/index.js:48 | Joining such templates with a separator that has no `$` and does not start with a digit keeps them readable. |
| SqlText.ParamsAppend | backend/src/index.js:54-58 | The references of a concatenation are the references of its pieces, in order. |
| SqlText.ParamsJoin | backend/src/index.js:48 | Joining fragments with a separator neither adds nor loses a reference: a number is referred to if and only if some fragment refers to it. |
| SqlText.LowerAscii | backend/src/index.js:30 | Lower-casing keeps the length, leaves no upper-case ASCII letter, maps each upper-case letter to its lower-case partner, and leaves every other character alone. |
| SqlText.LowerAsciiIdempotent | backend/src/index.js:30 | Lower-casing twice is the same as lower-casing once. |
| JsValues.Lookup | backend/src/index.js:68 | Reading a body key is defined if and only if the key is present, and it gives the key's value. |
| JsValues.Or | backend/src/index.js:78-81 | `x \|\| fallback` is `x` when `x` is present and truthy, and `fallback` otherwise. |
| Projects.Position | backend/src/index.js:122 | Each column has a place in the allow-list, and the allow-list holds that column at that place. |
| Projects.SetField | backend/src/index.js:126 | Setting one column changes that column only and keeps the id. |
| PatchBuilder.BuildPatch | backend/src/index.js:119-134 | The `forEach` loop builds the declarative `PatchSpec`. It refuses with "no valid fields to update" if and only if no allowed key is present. Otherwise assignment i refers to parameter i + 1, which holds that key's value or null. The id is the last value, and its reference is `values.length`. |
| PatchBuilder.PatchSpecFacts | backend/src/index.js:123-132 | The specified PATCH fails exactly when the body has no allowed key. Every assignment names a key that the body has. |
| PatchBuilder.PresentMembers | backend/src/index.js:123-124 | A column is kept if and only if it is in the walked list and its key is an own property of the body. |
| PatchBuilder.PresentOrdered | backend/src/index.js:123 | The kept columns keep the order of the walked list. |
| PatchBuilder.PatchColumnsExactAndOrdered | backend/src/index.js:122-128 | The SET list names exactly the allowed columns present in the body, each once, in the order name, description, environment, status, priority. |
| PatchBuilder.UnknownKeysIgnored | backend/src/index.js:122-128 | Removing every key outside the allow-list from the body leaves the statement unchanged. |
| PatchBuilder.PresentAgree | backend/src/index.js:124 | Two bodies with the same allowed keys keep the same columns. |
| PatchBuilder.AssignParams | backend/src/index.js:126 | A `key = $n` assignment refers to parameter n only. |
| PatchBuilder.UpdateParams | backend/src/index.js:137-140 | The UPDATE refers to the SET list's references plus the id reference, and nothing else. |
| PatchBuilder.PatchPlaceholdersCoverValues | backend/src/index.js:126-139 | The UPDATE template refers to exactly the parameters 1 to `values.length`. |
| PatchBuilder.SetParams | backend/src/index.js:126-138 | The SET list of assignments numbered 1, 2, ... refers to exactly the parameters 1 to the number of assignments. |
| PatchBuilder.UpdateDelimited | backend/src/index.js:126-140 | The UPDATE text reads back unambiguously: its literal text holds no `$`, and no reference is followed by a digit. |
| PatchBuilder.PatchTextCoversValues | backend/src/index.js:126-141 | The `$n` references in the rendered UPDATE text are exactly 1 to `values.length`. |
| PatchBuilder.TextIndependentOfValues | backend/src/index.js:122-139 | Bodies with the same allowed keys give the same UPDATE text, whatever their values and the id. |
| PatchBuilder.ExtendColumns | backend/src/index.js:125-126 | Keeping one more column appends one assignment numbered by the new length, and one value. |
| ListFilter.ExtendFilters | backend/src/index.js:29-46 | Supplying one more filter appends one clause numbered by the new length, and its bound value. |
| ProjectArgs.FieldArgs | backend/src/index.js:76-82 | Five values in column order. A supplied field keeps its value. A missing or falsy description or environment is null, a missing or falsy status is "planning", and a missing or falsy priority is "medium". A present name is bound as given, even when falsy, and a missing name is null. Status and priority are always truthy. |
| ProjectArgs.CreateArgs | backend/src/index.js:68-82 | Create fails with "name is required" if and only if the name is missing or falsy. Otherwise the arguments are the defaulted fields, with a truthy name. |
| ProjectArgs.PutArgs | backend/src/index.js:97-104 | PUT binds the same five defaulted values followed by the numeric id. |
| ProjectArgs.CreateWithOnlyName | backend/src/index.js:76-82 | A body holding only a non-empty name creates `[name, null, null, "planning", "medium"]`. |
| ProjectStore.ExecInsert | backend/src/index.js:74-84 | Every case is fixed. A list that is not five values fails with nothing changed. A NULL name fails, the rows are untouched and the sequence still advances by one. Otherwise the row is stored under the next id and returned, and the sequence advances by one. The table invariant is preserved. |
| ProjectStore.ExecReplace | backend/src/index.js:95-111 | The replace preserves the table invariant and never touches the sequence. A malformed argument list fails. An id without a row returns no row and changes nothing. An existing row with a NULL name fails and changes nothing. Otherwise exactly that row is replaced by the bound values and returned. |
| ProjectStore.ExecPatch | backend/src/index.js:136-146 | The partial update preserves the table invariant and never touches the sequence. A missing or non-numeric id reference fails, and an id without a row returns no row. Either way the table is unchanged. On an existing row, the SET list is applied. A bad reference or a NULL name fails and changes nothing. Otherwise exactly that row becomes the updated row, which is returned. |
| ProjectStore.ExecDelete | backend/src/index.js:155-161 | The delete removes exactly the id's row and keeps every other row as it was. It preserves the table invariant and returns no row if and only if there was none. When the row existed, exactly that row comes back. |
| ProjectStore.ApplyAssignments | backend/src/index.js:137-140 | Applying a SET list never changes the row's id. |
| ProjectStore.OverlayField | backend/src/index.js:123-126 | After the PATCH values are laid over a row, a listed column holds its PATCH value, and every other column and the id are unchanged. |
| ProjectStore.ApplyAligned | backend/src/index.js:126-140 | When each assignment's parameter holds its column's PATCH value, running the SET list gives the overlay. |
| Handlers.RowResponse | backend/src/index.js:107-113 | No returned row is a 404 "project not found", a failed statement is a 500, and otherwise the response is the first row. |
| Handlers.HandleCreate | backend/src/index.js:67-88 | A missing or falsy name is a 400 with the table untouched. Otherwise the defaulted row is inserted under the next id and returned with 201. The table invariant and non-empty names are preserved. |
| Handlers.HandlePutAsWritten | backend/src/index.js:90-115 | As written, PUT gives 404 with the table untouched when the id has no row, and 500 with the table untouched whenever the bound name is null (absent, or given as null). Otherwise it replaces the row with the defaulted fields. |
| Handlers.PutAsWrittenStoresEmptyName | backend/src/index.js:97-98 | A concrete table with non-empty names, given `{"name": ""}`, ends up storing an empty name. |
| Handlers.HandlePut | backend/src/index.js:90-115 | Corrected PUT: a missing or falsy name is a 400 before the table is consulted, an unknown id is a 404, and otherwise the row is replaced. It preserves the table invariant and non-empty names. |
| Handlers.PatchSemantics | backend/src/index.js:117-150 | On a well-formed table, PATCH has four outcomes. Without an allowed key it is a 400. Without a row it is a 404. Setting the name to null is a 500. Otherwise only the present fields of that one row change, and every other column, the id and every other row are kept. |
| Handlers.HandlePatch | backend/src/index.js:117-150 | The handler behaves as `PatchResponse`, and it preserves the table invariant and non-empty names. |
| Handlers.PatchOnlyStatus | backend/src/index.js:117-146 | Patching `{"status": "done"}` on an existing row changes its status only. |
| Handlers.HandleDelete | backend/src/index.js:152-166 | 204 if and only if the row existed. Otherwise it is a 404 with the table untouched. Exactly that id's row disappears, and every other row is kept as it was. |
| Handlers.DeleteTwiceNotFound | backend/src/index.js:155-161 | Deleting the same id twice gives 404 the second time. |
| Handlers.IdsNeverReused | backend/src/index.js:179-182 | A project created after a delete never receives the deleted id. |

## Left out

- `GET /api/health` and `GET /api/metrics` (`backend/src/index.js:168-177`): they are a fixed query and a GROUP BY that the database computes, and the handler builds nothing.
- Executing the SELECT: LIKE matching, `ORDER BY created_at DESC` and the LIMIT belong to the database. Only the statement and its values are modelled.
- `created_at` and `updated_at`, with `NOW()`: these are clock values.
- `waitForDb`, `start`, `app.listen`, the cors, json and morgan middleware, and the pool configuration in `backend/src/db.js`. These are I/O, timers and library configuration.
- `frontend/app.js` is not part of this model: it is DOM rendering and fetch calls.
- `Number()` coercion: `limit` and `id` are modelled as integers. A non-numeric string, which JavaScript turns into NaN, is not modelled, and neither is a `limit` that is present but empty (it is treated as absent).
- Query parameters that arrive as arrays or objects are not modelled. Filter parameters are absent or strings.
- SqlText.LowerAscii (and so ListFilter.SearchPattern): lower-casing covers ASCII letters only, not the full Unicode case mapping of `toLowerCase`.
- Whitespace inside the statement text is normalised. The SELECT and UPDATE texts are single lines with the same tokens.
- ProjectStore: the only database failures modelled are the NOT NULL constraint on `name` and a reference to a missing parameter. Connection errors and other failures are not modelled, and every failure is a 500.
- ProjectStore: ids are unbounded integers. In the database, `id` is a 32-bit `integer`. An `id` outside that range makes PUT, PATCH and DELETE fail with 500, where the model answers 404. Running out of the SERIAL sequence, which would make create fail, is not modelled either.
- JsValues: `Num` holds integers only. A fractional JSON number in a body cannot be expressed.
- ProjectStore: a stored column keeps the JSON value that was bound. The driver would convert a number, boolean, object or array to text, and the database would store and return that text (`Num(5)` is kept where the database holds `"5"`).
- Concurrency between requests is not modelled: each handler runs against one table state.

## Findings

| source | as written | input that shows it | evidently intended | confidence | as-written member | corrected member |
|---|---|---|---|---|---|---|
| backend/src/index.js:90-104 | PUT binds `name` without the check that create makes, so a present falsy name that is not null (such as `""`) is stored as given; a null or missing name fails with 500 | `PUT /api/projects/1` with body `{"name": ""}` on a table whose row 1 is named "alpha" returns 200 and stores an empty name | reject a missing or falsy name with 400 "name is required", as `POST` does at lines 69-71 | medium, not executed | Handlers.HandlePutAsWritten (with Handlers.PutAsWrittenStoresEmptyName) | Handlers.HandlePut |
