# WeatherStationUI request logic, in Dafny

WeatherStationUI is an Azure Functions app that serves an admin page and a
small JSON API over one SQL Server table, `StationTracking`. This project
models the request-processing logic of `function_app.py` with the database,
the identity service and the HTTP framework taken out:

- **Authentication** (`Auth`): `check_authentication` decides from the
  process configuration (running in Azure or not, the configured tenant id,
  possibly unset) and the App Service identity headers.
- **Payload normalisation** (`Payloads`): the create body is rejected when
  falsy, loses `ID` and gets `IsActive` coerced to a boolean or appended as
  `True`; the update body loses `ID`; the clone payload is the source row
  without `ID`. The in-place versions work on a mutable dictionary
  (`Dicts.Dict`) as the handlers do.
- **Statement builders** (`Statements`): the `INSERT ... OUTPUT INSERTED.*`
  of create, the `UPDATE ... SET k = ?, ... WHERE ID = ?` of update and the
  plain `INSERT` of clone, each as SQL text plus positional parameters.
- **Schema mapping** (`Schema`): the `CASE` that picks an input type from
  the column's data type, and the loop that turns the column query's rows
  into descriptors.
- **Records** (`Dicts`): Python dictionaries as ordered (key, value)
  sequences, with `del`, item assignment, `dict(pairs)` and
  `dict(zip(columns, row))`, whose pairing by position stops at the shorter
  list.
- **Handlers** (`Handlers`): each of `create_station`, `update_station`,
  `clone_station`, `get_stations` and `get_schema` has a function that says
  what the request leads to: the write statement issued, if any, and the
  answer or error. It also has a method that produces the same reply the way
  the handler does, changing the request dictionary in place and appending to
  result lists. Query results (column names and rows) are inputs.

Python's `', '.join` and `s.split(',')` are in `Text`. JSON values and
Python truthiness are in `Json`. `Option` and `Result` are in `Wrappers`.
The error kinds, and the messages the code writes for them, are in `Errors`.

Behaviour of `function_app.py` worth knowing:

- There is no connection pool and no schema cache. Every request opens its
  own connection, and `get_schema` queries the metadata on every call.
- Authentication also refuses an empty principal-id header, not only a
  missing one.
- A refusal names the configured tenant, rendered as `None` when unset.
- Input types are `bit`, `number` and `text`.
- An update whose re-read finds no row fails because `zip` is handed
  `None`. There is no dedicated not-found error.
- An update with an empty body is accepted. It builds
  `UPDATE StationTracking SET  WHERE ID = ?`, which the database rejects.

Behaviour the lemmas make explicit:

- `clone_station` answers with keys taken from the `', '`-joined column list
  split on `','`. The keys lack `ID` and carry a leading space after the
  first. Each key stands one column ahead of its value, and the last value
  is dropped (`Handlers.CloneAnswerShiftsColumns`).
- Only the exact key `ID` is stripped. A client key `id` reaches the INSERT
  (`Payloads.CreateKeepsOtherSpellingsOfIdentity`).
- Column names come from client keys and are spliced into the SQL text. The
  placeholder and column-order lemmas therefore require that no name holds
  `?` or `,`.

## Model

| member | source | states |
|---|---|---|
| Auth.Header | function_app.py:30-32 | `req.headers.get(name)`: the header looked up under its lower-cased name; the four `Auth` lemmas below state how its results decide the check |
| Auth.CheckAuthentication | function_app.py:25-41 | a request passes exactly when the message is empty; every refusal carries a message |
| Auth.OutsideAzureAlwaysPasses | function_app.py:27-28 | outside Azure every request passes with an empty message, whatever its headers |
| Auth.MissingPrincipalRefused | function_app.py:30-36 | in Azure a missing or empty principal id is refused with the log-in message, whatever the tenant header |
| Auth.TenantDecides | function_app.py:32-41 | in Azure with a principal id, the request passes iff the tenant header equals the configured tenant id; a refusal names the configured tenant |
| Auth.UnsetTenantMatchesAbsentHeader | function_app.py:38-41 | an unset tenant id and an absent tenant header compare equal, so a signed-in principal passes |
| Json.Truthy | function_app.py:721 | Python truthiness of a decoded JSON value: `None`, `False`, zero, empty string, list or object are falsy; `CreatePayload` and `CreateActiveFlag` state its two uses |
| Payloads.CreateFields | function_app.py:724-732 | the create normalisation on the decoded dictionary; `CreateFieldsKeys`, `CreateActiveFlag`, `CreateKeepsOtherValues` and `CreateFieldsOrder` state its result, and `NormalizeForCreate` is proved equal to it |
| Payloads.CreatePayload | function_app.py:720-732 | create succeeds exactly for a non-empty JSON object; it fails with `EmptyBody` exactly for a falsy body (whose message `Handlers.EmptyBodyMessage` states) |
| Payloads.CreateFieldsKeys | function_app.py:724-732 | the normalised payload is a dictionary without `ID`, with `IsActive`, and with exactly the client's other keys |
| Payloads.CreateActiveFlag | function_app.py:728-732 | `IsActive` is the boolean truthiness of the value sent, or `True` when none was sent |
| Payloads.CreateKeepsOtherValues | function_app.py:724-732 | every key other than `ID` and `IsActive` keeps the client's value |
| Payloads.CreateFieldsOrder | function_app.py:724-732 | the client's pairs keep their order; a missing `IsActive` is appended last; a sent one is replaced in its place |
| Payloads.CreateFromIdentityOnly | function_app.py:720-732 | a body holding only `ID` is accepted as non-empty and becomes `{IsActive: True}` |
| Payloads.CreateKeepsOtherSpellingsOfIdentity | function_app.py:725-726 | a key `id` is not the key `ID` and is kept |
| Payloads.UpdatePayload | function_app.py:779-783 | an update payload exists exactly for a JSON object body, the empty object included |
| Payloads.UpdatePayloadFields | function_app.py:781-783 | the update payload is a dictionary of the body's keys without `ID`, each with the body's value; a body without repeated keys keeps its pairs in order minus `ID` |
| Payloads.UpdateOfEmptyBody | function_app.py:779-783 | an empty update body yields an empty payload, not an error |
| Payloads.ClonePayload | function_app.py:861-862 | the clone payload exists exactly when the source row has an `ID` column |
| Payloads.ClonePayloadOfRecord | function_app.py:859-862 | for any column order, a clone payload holds no `ID` and exactly the other columns of the record, with their values |
| Payloads.ClonePayloadOfRow | function_app.py:857-862 | for a row of distinct columns starting with `ID`, the payload is every other column paired with its value, in order |
| Payloads.NormalizeForCreate | function_app.py:724-732 | the in-place `del` and item assignments leave the dictionary equal to the normalised payload |
| Payloads.StripIdentity | function_app.py:781-783 | the in-place `del` leaves the dictionary without `ID`, the rest unchanged in order |
| Dicts.Remove | function_app.py:726 | `del d[k]` on the ordered pairs; `RemoveOrder`, `RemoveKeys` and `RemoveGet` state what it leaves |
| Dicts.Put | function_app.py:730-732 | `d[k] = v` on the ordered pairs; `PutAbsent`, `PutPresent`, `PutKeys` and `PutGet` state its result |
| Dicts.FromPairs | function_app.py:720 | `dict(pairs)` as assignment of the pairs in turn; `FromPairsKeys`, `FromPairsGet`, `FromPairsOrder` and `FromPairsOfDistinct` state its result |
| Dicts.Record | function_app.py:695 | `dict(zip(columns, row))`; `RecordOfDistinctColumns` states its result |
| Dicts.RemoveOrder | function_app.py:725-726 | `del d[k]` removes exactly `k`'s pair and keeps the rest in order; without `k` nothing changes |
| Dicts.PutAbsent | function_app.py:732 | assigning a new key appends its pair |
| Dicts.PutPresent | function_app.py:730 | assigning a present key replaces its pair where it stands |
| Dicts.FromPairsKeys | function_app.py:720 | the dictionary built from a JSON object or a zip has distinct keys, exactly the keys of the pairs |
| Dicts.FromPairsGet | function_app.py:720 | in `dict(pairs)` every key holds the value of its last pair |
| Dicts.FromPairsOrder | function_app.py:720 | a further pair keeps every key where it stands and puts its own key last only when it is new |
| Dicts.RecordOfDistinctColumns | function_app.py:695 | `dict(zip(columns, row))` over distinct columns pairs values by position and is as long as the shorter list |
| Dicts.Dict.Lookup | function_app.py:729-730 | the lookup finds a value exactly when the key is present, and the value is the one paired with that key |
| Dicts.Dict.Delete | function_app.py:862 | `del` reports whether the key was there and leaves the dictionary equal to `Remove` of the old one; when the key was absent nothing changes |
| Dicts.Dict.Assign | function_app.py:729-732 | item assignment leaves the dictionary equal to `Put` of the old one (replace in place or append) with its keys still distinct |
| Text.Join | function_app.py:739-740 | `sep.join(parts)`; `JoinSplit`, `SplitJoin`, `SplitCommaJoin` and `CountJoin` state its result |
| Text.Split | function_app.py:875 | `s.split(c)` has one piece more than `s` has separators, and no piece holds the separator |
| Text.JoinSplit | function_app.py:875 | joining the pieces of `s.split(c)` with `c` gives `s` back |
| Text.SplitCommaJoin | function_app.py:865 | splitting a `', '`-join on `','` returns the first part as it was and the rest with one leading space |
| Statements.InsertReturning | function_app.py:739-744 | the create INSERT with `OUTPUT INSERTED.*`; `InsertReturningPlaceholders`, `ColumnsMatchParams` and `InsertOfAlpha` state its text and parameters |
| Statements.Insert | function_app.py:865-870 | the clone INSERT; `InsertPlaceholders` states its placeholder and parameter counts |
| Statements.UpdateById | function_app.py:789-794 | the UPDATE by id; `UpdatePlaceholders`, `UpdateSetClause` and `UpdateOfEmptyPayload` state its text and parameters |
| Statements.PlaceholderList | function_app.py:740 | the VALUES list has one `?` and one entry per payload pair |
| Statements.InsertReturningPlaceholders | function_app.py:739-744 | the create INSERT has as many `?` placeholders as parameters, one per payload pair |
| Statements.InsertPlaceholders | function_app.py:865-870 | the clone INSERT has as many `?` placeholders as parameters, one per payload pair |
| Statements.ColumnsMatchParams | function_app.py:739-744 | the column list has one entry per parameter; the i-th names the column whose value is the i-th parameter |
| Statements.UpdatePlaceholders | function_app.py:789-794 | the UPDATE has the payload size plus one placeholders, as many as parameters: the values in order, then the station id |
| Statements.UpdateSetClause | function_app.py:789-790 | the SET clause has one `k = ?` per payload key, in payload order |
| Statements.UpdateOfEmptyPayload | function_app.py:789-794 | an empty payload gives `UPDATE StationTracking SET  WHERE ID = ?` with the station id as the only parameter |
| Statements.InsertOfAlpha | function_app.py:739-744 | the payload `Name, IsActive` gives columns `Name, IsActive`, placeholders `?, ?`, parameters in that order |
| Schema.InputTypeOf | function_app.py:636-640 | the `CASE` on `DATA_TYPE`; `InputTypeClassification` states its three outcomes |
| Schema.Describe | function_app.py:652-659 | the descriptor of one column row; `DescribeColumns` states its fields |
| Schema.Descriptors | function_app.py:651-660 | one descriptor per row, in row order; `DescribeColumns` is proved equal to it |
| Schema.InputTypeClassification | function_app.py:636-640 | the input type, and the string `INPUT_TYPE` the CASE yields, is `bit` iff the type is `bit`, `number` iff it is one of the four integer types, `text` otherwise |
| Schema.DescribeColumns | function_app.py:646-666 | no rows is the only error; otherwise one descriptor per row in row order, nullable iff 'YES', identity iff the flag is non-zero |
| Handlers.CreateReply | function_app.py:716-752 | what `create_station` issues and answers; `CreateStation` is proved equal to it, and `RefusedRequestsWriteNothing`, `CreateWritesActiveNeverIdentity` and `CreateAlpha` state its properties |
| Handlers.UpdateReply | function_app.py:774-800 | what `update_station` issues and answers; `UpdateStation` is proved equal to it, and `RefusedRequestsWriteNothing` and `UpdateNeverWritesIdentity` state its properties |
| Handlers.CloneReply | function_app.py:847-875 | what `clone_station` issues and answers; `CloneStation` is proved equal to it, and `RefusedRequestsWriteNothing`, `CloneNeverWritesIdentity` and `CloneAnswerShiftsColumns` state its properties |
| Handlers.ListReply | function_app.py:683-696 | what `get_stations` answers; `ListStations` is proved equal to it |
| Handlers.SchemaReply | function_app.py:621-666 | what `get_schema` answers; `GetSchema` is proved equal to it |
| Handlers.CreateStation | function_app.py:713-769 | running the create handler on the mutable dictionary gives the reply that `CreateReply` specifies |
| Handlers.UpdateStation | function_app.py:771-815 | running the update handler on the mutable dictionary gives the reply that `UpdateReply` specifies |
| Handlers.CloneStation | function_app.py:844-890 | running the clone handler, with its `del` on the source record, gives the reply that `CloneReply` specifies |
| Handlers.ListStations | function_app.py:680-711 | the append loop gives one record per fetched row, in order, as `ListReply` specifies |
| Handlers.GetSchema | function_app.py:618-678 | the schema handler gives the result that `SchemaReply` specifies |
| Handlers.RefusedRequestsWriteNothing | function_app.py:716-718 | a refused create (716-718), update (774-776) or clone (847-849) issues no statement and answers with the refusal's message |
| Handlers.CreateWritesActiveNeverIdentity | function_app.py:724-744 | the payload of every create INSERT lacks the exact key `ID` and holds `IsActive`; when no name holds `?`, the INSERT has one placeholder per parameter |
| Handlers.UpdateNeverWritesIdentity | function_app.py:781-794 | the payload of every UPDATE lacks the exact key `ID`, and the statement's last parameter is the station id |
| Handlers.CloneNeverWritesIdentity | function_app.py:857-870 | for any column order of the fetched row, the clone INSERT's payload is the row's record minus the key `ID`: every other column with its value |
| Handlers.EmptyBodyMessage | function_app.py:721-722 | a signed-in create with a falsy body issues nothing and fails with "Request body is empty" |
| Handlers.NoInsertedRowMessage | function_app.py:745-748 | an INSERT that returns no row has been issued, and the create fails with "Failed to retrieve newly created station" |
| Handlers.NoSchemaMessage | function_app.py:646-649 | a signed-in schema request whose column query returns no rows fails with "No schema information found for StationTracking table" |
| Handlers.CreateAlpha | function_app.py:720-752 | `{"Name": "Alpha", "IsActive": false}` inserts `Name, IsActive` with `Alpha`, `False`, and answers with the returned row |
| Handlers.CloneAnswerShiftsColumns | function_app.py:857-875 | the clone copies every non-identity value; its answer keys lack `ID`, are one column ahead of their values, and drop the last value |

## Left out

- HTTP routing, `HttpResponse` construction, status codes and JSON serialisation with `default=str`. These are framework glue. An `Unauthorized` error stands for the 401 response, every other error for a 500.
- Parsing the request body. The body is given already decoded. `None` stands for `req.get_json()` raising.
- The messages of exceptions raised by Python or the libraries (`KeyError`, `TypeError`, `AttributeError`, the parser's `ValueError`). Only their kind is modelled; the messages the handler code writes itself are in `Errors.Message`.
- The database driver: connecting, executing, fetching, committing and closing. What a query returns is an input. The statement a handler would execute is part of its reply.
- Token acquisition, the connection string, environment loading and logging. The configuration the handlers read is the `Auth.Environment` parameter.
- The `serve_ui` page and its JavaScript, which run in the browser.
- `delete_station`. It executes a fixed `DELETE ... WHERE ID = ?` with no dynamic building, so it is not part of this model.
- What `SCOPE_IDENTITY()` returns, and whether the database accepts a generated statement or column name. Both are decided by the database. The replies assume that every issued statement executes. A statement the database rejects, which ends in a 500, is not represented. One example is the `UPDATE StationTracking SET  WHERE ID = ?` built from an empty payload, for which `UpdateReply` still answers with the re-read row.
- Concurrency, pooling and caching. The code has none of them.
- Schema.InputTypeOf: compares `DATA_TYPE` exactly. SQL Server's collation, which ignores case and trailing spaces, is not modelled, because `INFORMATION_SCHEMA` reports type names in lower case.
- Json.Truthy: models floats as reals, so NaN and the infinities are not represented. Driver values such as dates and decimals only pass through, and are drawn from the same `Value` type.
- Auth.Header: headers are a map keyed by lower-cased name, as the functions host keeps them. How the host merges repeated headers is not modelled.
