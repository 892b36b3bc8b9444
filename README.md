# Community circles directory — a Dafny model of its group resource

The system is a small web directory of community "circles" (interest groups).
Its core is one relational table of groups, a storage adapter over it, five
REST handlers (list, get, create, update, delete), the validators that the
handlers apply to request bodies, the `buildUrl` helper the client uses to fill
path templates, and the search box of the browse page. This project models that
core in Dafny and proves what each part promises.

Modules, one per source file (plus two helper modules):

- `Wrappers` (wrappers.dfy): `Option` and `Result`.
- `Strings` (strings.dfy): the JavaScript string operations the core calls:
  `includes`, `indexOf`, `replace` with a string pattern, ASCII
  `toLowerCase`/`toUpperCase`, and `String(n)` for an integer.
  `replace` expands the `$$`, `$&`, `` $` `` and `$'` patterns of its replacement
  text, as JavaScript does.
- `Schema` (schema.dfy, shared/schema.ts): the `Group` row, the create input
  (`InsertGroup`, every column but `id`), the partial update input
  (`GroupPatch`), and the two validators over a JSON body. They report issues
  in column order. Keys outside the schema, such as `id`, are stripped.
- `Api` (api.dfy, shared/routes.ts): the error body shapes, the endpoints
  with their declared status codes, and `buildUrl`. `buildUrl` is a loop
  proved against the fold `FillParams`.
- `Storage` (storage.dfy, server/storage.ts): the table as a value (`Table`:
  rows in table order plus the serial counter) with pure operations and their
  lemmas, and the class `GroupStore`. Its methods change `rows` and `nextId`
  in place and are proved to match the pure operations.
- `Routes` (routes.dfy, server/routes.ts): each handler as a function from
  the table and the request to the new table and the outcome (`Serve*`), the
  handler methods over a `GroupStore` proved to match them, and
  `seedDatabase`.
- `Home` (home.dfy, client/src/pages/Home.tsx): the `filteredGroups`
  search filter.

The code has no authentication, no owner check, no 403 outcome and no
join-request endpoint. The group's columns are only those of
shared/schema.ts:5-14. The server declares no lower bound on `capacity`; the
"at least 1" rule belongs to the client form. The model follows the code in
all of this.

## Model

| member | source | states |
|---|---|---|
| `Strings.Contains` | shared/routes.ts:68 | `includes`: the pattern occurs somewhere in the text, which needs a text at least as long as the pattern |
| `Strings.IndexOf` | shared/routes.ts:68-69 | the result is present exactly when the pattern occurs, it is an occurrence, and no occurrence lies before it |
| `Strings.Substitute` | shared/routes.ts:69 | the replacement text with its `$` patterns expanded: `$&` alone gives the matched text, `$$` alone a single dollar |
| `Strings.ReplaceFirstFound` | shared/routes.ts:69 | a replacement without `$` goes in literally in place of the first occurrence, which no earlier position matches |
| `Strings.SubstituteDollarOrigin` | shared/routes.ts:69 | a dollar sign in the expanded text comes from the replacement or from the matched, preceding or following text it may quote |
| `Strings.SubstituteLiteral` | shared/routes.ts:69 | a replacement text without `$` is inserted literally |
| `Strings.ReplaceFirst` | shared/routes.ts:69 | `replace` with an absent pattern returns the string unchanged, and the result loses at most the pattern's length |
| `Strings.ReplaceFirstKeepsAround` | shared/routes.ts:69 | whatever the replacement expands to, the text in front of the first occurrence and the text behind it are kept |
| `Strings.ReplaceFirstSplits` | shared/routes.ts:69 | `replace` with an absent pattern leaves the string; otherwise only the first occurrence is replaced and the text around it is kept |
| `Strings.ToLower` | client/src/pages/Home.tsx:14-15 | same length, each ASCII capital replaced by its small letter and every other character kept |
| `Strings.ToUpper` | client/src/pages/Home.tsx:14-15 | same length, each ASCII small letter replaced by its capital and every other character kept |
| `Strings.LowerForgetsCase` | client/src/pages/Home.tsx:14-15 | lower-casing an upper-cased or lower-cased string gives the string's lower case |
| `Strings.ContainsEmpty` | client/src/pages/Home.tsx:14-15 | every string includes the empty string |
| `Strings.NatToDecimal` | shared/routes.ts:69 | the digits are decimal digits, at least one, with no leading zero, and start with `0` only for zero |
| `Strings.DecimalRoundTrip` | shared/routes.ts:69 | reading back the decimal digits of `n` gives `n` |
| `Strings.CanonicalDecimal` | shared/routes.ts:69 | a digit string without a leading zero is the one written for its value, so the decimal form of a number is unique |
| `Strings.NumberToString` | shared/routes.ts:69 | `String(n)` holds no `$`; it is the decimal digits of the magnitude of `n` with no leading zero (`0` only for zero), behind a `-` when `n` is negative |
| `Schema.WithId` | shared/schema.ts:5-16 | the stored row carries the given id and exactly the input's fields |
| `Schema.ApplyPatch` | server/storage.ts:31-37 | the id is kept; each of the seven fields is overwritten by the patch's value when present and kept when absent |
| `Schema.ApplyPatchSound` | shared/schema.ts:21 | a partial update is idempotent, an empty one changes nothing, and a patch leaves a row as it is exactly when every field it sets already has that value |
| `Schema.ObjectIssues` | shared/schema.ts:5-16 | at most one issue per column: no more issues than the schema has columns |
| `Schema.ObjectIssuesShape` | shared/schema.ts:5-16 | every issue names one schema column as its path, and the partial input never reports `Required` |
| `Schema.ObjectIssuesEmpty` | shared/schema.ts:5-16 | an object body has no issue exactly when the text fields are strings (present unless partial) and `capacity`/`imageUrl` are absent, null or of their type |
| `Schema.ValidateCreate` | shared/schema.ts:5-16 | a body is accepted exactly when it is an object whose five text fields are strings and whose `capacity`/`imageUrl` are absent, null or of their type; failure carries at least one issue; the input takes exactly the body's values, with `capacity`/`imageUrl` null when absent or null |
| `Schema.ValidateUpdate` | shared/schema.ts:21 | a body is accepted exactly when it is an object whose text fields, where present, are strings and whose `capacity`/`imageUrl` are absent, null or of their type; failure carries at least one issue; each of the seven fields is kept exactly when it is absent, a set text field takes the body's string, and `capacity`/`imageUrl` are cleared exactly by an explicit null and otherwise take the body's number or string |
| `Schema.FirstBadColumn` | shared/schema.ts:7-13 | the first column, in schema order, that fails its check: every column before it passes |
| `Schema.ColumnIssue` | shared/schema.ts:7-13 | one column's issue: none exactly when the column passes its check, otherwise one issue whose path is that column, `Required` exactly when a text column of the create input is missing |
| `Schema.ObjectIssuesByColumn` | shared/schema.ts:5-16 | the object issues are the column issues concatenated in schema order |
| `Schema.FirstIssueFrom` | shared/schema.ts:7-13 | from any column on, the issues are empty exactly when no later column fails, and the first one is that of the first failing column |
| `Schema.FirstObjectIssue` | shared/schema.ts:5-16 | an object body has issues exactly when some column fails; the first names the first failing column in schema order |
| `Schema.FirstIssueIsFirstBadColumn` | server/routes.ts:30-35 | the issue a failed validation reports first, which becomes the 400's `field`, has the empty path for a body that is no object and otherwise names the first failing column in schema order, with `Required` exactly when that is a missing text column of the create input |
| `Schema.CreateIsTotalUpdate` | shared/routes.ts:37-46 | a body is valid create input exactly when it is valid update input and carries all five required fields |
| `Schema.CreateInputAsUpdate` | shared/schema.ts:16-21 | a valid create body read as an update sets every field it carries to the create input's value |
| `Schema.SameIssuesWhenComplete` | shared/routes.ts:37-46 | when every required field is present both validators fail alike, with the same issues |
| `Schema.AgreeOnSchemaKeys` | shared/schema.ts:16 | bodies that agree on the schema's keys validate alike |
| `Schema.UnknownKeysIgnored` | shared/schema.ts:16 | adding a key outside the schema, `id` included, changes neither validator's result, so a client cannot choose the id |
| `Schema.NoLengthOrCapacityBound` | shared/schema.ts:7-12 | empty strings and any integer capacity, zero and negatives included, pass the create validator |
| `Schema.EmptyObjectBody` | shared/schema.ts:7-21 | `{}` fails create input with first issue `Required` at `name`, and is an update that changes nothing |
| `Api.DeclaredStatuses` | shared/routes.ts:17-62 | every endpoint declares a success status; exactly the endpoints with a body (create, update) declare 400, and exactly those addressed by `:id` declare 404 |
| `Api.FillParam` | shared/routes.ts:68-69 | a url without `:key` is left as it is; otherwise it loses at most the placeholder's length |
| `Api.FillParams` | shared/routes.ts:66-71 | a url without a colon holds no placeholder, so every entry leaves it unchanged |
| `Api.ValueString` | shared/routes.ts:69 | `String(value)`: a text value is itself; a number gives a non-empty text without `$` that starts with `-` exactly when it is negative |
| `Api.BuildUrl` | shared/routes.ts:64-74 | without params the path is returned unchanged; with params the result is the entries applied in order, each to the previous result |
| `Api.NoParamsUnchanged` | shared/routes.ts:64-73 | an empty entry list leaves the path unchanged |
| `Api.FillParamEffect` | shared/routes.ts:68-69 | a key whose `:key` is absent leaves the url; otherwise the first `:key` is replaced by `String(value)` and everything around it is kept |
| `Api.FillParamsAppend` | shared/routes.ts:67-71 | filling with `e1 + e2` is filling with `e1` and then with `e2` |
| `Api.GroupUrl` | shared/routes.ts:28 | `/api/groups/:id` filled with a numeric id is `/api/groups/` followed by the id's decimal text |
| `Api.FirstColonAt` | shared/routes.ts:68-69 | an occurrence with no colon before it is the one `indexOf` finds |
| `Api.FillFirstPlaceholder` | shared/routes.ts:67-71 | behind a colon-free prefix, a key fills the first copy of its placeholder with `String(value)` and keeps everything after it |
| `Api.RepeatedPlaceholder` | shared/routes.ts:69 | a path holding `:key` twice, filled with that key, has only the first copy replaced; the later copy remains |
| `Api.SubstringMatch` | shared/routes.ts:68-69 | the key `id` fills the start of a placeholder `:idx`, leaving the `x` behind the value |
| `Api.LaterKeyRewritesValue` | shared/routes.ts:67-71 | a value that holds `:y` is rewritten by a later key `y` |
| `Api.DollarPatternInValue` | shared/routes.ts:69 | a text value `$&` is replaced by the placeholder itself, so the url stays as it was |
| `Storage.Find` | server/storage.ts:21-24 | the row found is in the table and has the id; nothing is found exactly when no row has the id |
| `Storage.FindUnique` | shared/schema.ts:6 | with unique ids, looking up a row's id finds that row |
| `Storage.UpdateRows` | server/storage.ts:31-37 | same number of rows; each row with the id is patched and every other row is unchanged, in place |
| `Storage.DeleteRows` | server/storage.ts:39-41 | a row remains exactly when it was there and has another id; with no such id nothing changes |
| `Storage.InsertRow` | server/storage.ts:26-29 | the insert appends one row, carrying the input and the serial's next value as id, returns it, and advances the serial |
| `Storage.UpdateRow` | server/storage.ts:31-37 | the serial and the number of rows are kept; nothing is returned exactly when no row has the id, and a returned row has the id and is in the new table |
| `Storage.DeleteRow` | server/storage.ts:39-41 | a row remains exactly when it was there and has another id; the serial is kept |
| `Storage.InsertRowSound` | server/storage.ts:26-29 | create appends exactly one row, carrying the input and an id no existing row has; the table stays valid and a lookup of the id finds the row |
| `Storage.UpdateRowValid` | server/storage.ts:31-37 | an update keeps the table valid |
| `Storage.UpdateRowSound` | server/storage.ts:31-37 | on an absent id nothing changes and nothing is returned; otherwise the patched row is returned and found, and every other row is unchanged |
| `Storage.UpdateRowIdempotent` | server/storage.ts:31-37 | the same update applied twice leaves the table of one application |
| `Storage.DeleteRowSound` | server/storage.ts:39-41 | delete removes exactly the row with the id (one row when present, nothing when absent) and keeps the table valid |
| `Storage.DeleteRowsUnique` | server/storage.ts:39-41 | deleting keeps ids unique |
| `Storage.DeleteRowsCount` | server/storage.ts:39-41 | with unique ids, deleting a present id removes exactly one row |
| `Storage.DeleteRowIdempotent` | server/storage.ts:39-41 | deleting twice equals deleting once |
| `Storage.GroupStore.constructor` | server/storage.ts:53 | a new store is empty, valid, and its serial starts at 1 |
| `Storage.GroupStore.GetGroups` | server/storage.ts:17-19 | returns every row of the table |
| `Storage.GroupStore.GetGroup` | server/storage.ts:21-24 | returns the row with the id, or nothing exactly when no row has it |
| `Storage.GroupStore.CreateGroup` | server/storage.ts:26-29 | appends one row with the next serial id and returns it; its id is not used by any earlier row |
| `Storage.GroupStore.UpdateGroup` | server/storage.ts:31-37 | the table and the returned row are those of the update specification; absent id returns nothing |
| `Storage.GroupStore.DeleteGroup` | server/storage.ts:39-41 | the table becomes that of the delete specification, without error on an absent id |
| `Routes.JoinPath` | server/routes.ts:34 | an empty path joins to the empty string and a one-element path to its element |
| `Routes.Catch` | server/routes.ts:30-37 | the handler responds exactly for a zod error with issues, then with 400, its first issue's message and `.`-joined path as `field`; any other error is rethrown |
| `Routes.ServeList` | server/routes.ts:12-15 | 200 with every row of the table, in table order |
| `Routes.ServeGet` | server/routes.ts:17-23 | `Group not found` exactly when no row has the id; otherwise 200 with a row of the table that has the id |
| `Routes.ServeCreate` | server/routes.ts:25-39 | always a response, 201 or 400; 400 exactly when validation fails, and then the table is unchanged |
| `Routes.ServeUpdate` | server/routes.ts:41-58 | always a response, 200, 400 or 404; 400 exactly when validation fails (table unchanged); 404 exactly when the body is valid and no row has the id; the serial and the row count are kept |
| `Routes.ServeDelete` | server/routes.ts:60-63 | 204 with no body, and exactly the rows with another id remain |
| `Routes.Serve` | server/routes.ts:12-63 | dispatches a request to its handler; the two GET requests leave the table unchanged |
| `Routes.GetSound` | server/routes.ts:17-23 | 404 `Group not found` exactly when no row has the id, else 200 with that row |
| `Routes.CreateSound` | server/routes.ts:25-39 | valid body: 201 with the validated input plus a fresh id and nothing else, appended and then found by GET; invalid body: 400 on the first issue, table unchanged |
| `Routes.UpdateSound` | server/routes.ts:41-58 | invalid body: 400 and unchanged table even on a missing id; valid body on an absent id: 404, unchanged; on a present id: 200 with the patched row, which GET then returns |
| `Routes.UpdateIdempotent` | server/routes.ts:41-58 | the same PUT twice gives the table and the answer of one PUT |
| `Routes.DeleteSound` | server/routes.ts:60-63 | DELETE always answers 204 with no body; afterwards GET of the id is 404, other rows remain, and a second DELETE changes nothing |
| `Routes.StatusesDeclared` | shared/routes.ts:17-62 | every handler responds with a status its endpoint declares; DELETE never sends its declared 404 |
| `Routes.ServeKeepsValid` | server/routes.ts:12-63 | every request keeps the table valid |
| `Routes.CreateEmptyObject` | server/routes.ts:25-39 | POST `{}` answers 400 `{message: "Required", field: "name"}` and stores nothing |
| `Routes.UpdateNonObjectOnMissingId` | server/routes.ts:41-58 | a PUT whose body is not an object answers 400 with field `""`, not 404, on an empty table |
| `Routes.Seeded` | server/routes.ts:71-99 | a non-empty table is untouched; an empty one receives three rows and the serial advances by three |
| `Routes.SeedSound` | server/routes.ts:71-99 | seeding an empty table inserts the three seed groups, in order, with consecutive ids from the serial, and keeps the table valid; seeding twice equals seeding once |
| `Routes.HandleList` | server/routes.ts:12-15 | answers 200 with exactly the stored groups |
| `Routes.HandleGet` | server/routes.ts:17-23 | answers as the GET specification on the current table |
| `Routes.HandleCreate` | server/routes.ts:25-39 | the new table and outcome are those of the POST specification |
| `Routes.HandleUpdate` | server/routes.ts:41-58 | the new table and outcome are those of the PUT specification |
| `Routes.HandleDelete` | server/routes.ts:60-63 | the new table and answer are those of the DELETE specification |
| `Routes.SeedDatabase` | server/routes.ts:71-99 | the table becomes the seeding specification of the old table |
| `Home.LowerKeepsOccurrence` | client/src/pages/Home.tsx:14-15 | an occurrence of the search in a text is still an occurrence after both are lower-cased |
| `Home.Matches` | client/src/pages/Home.tsx:14-15 | a search that occurs verbatim in the name or the description always matches |
| `Home.FilterGroups` | client/src/pages/Home.tsx:13-16 | a group is kept exactly when it is in the list and its lower-cased name or description contains the lower-cased search, with every copy of it kept |
| `Home.FilteredGroups` | client/src/pages/Home.tsx:13 | undefined groups give undefined; a loaded list gives exactly the filter above, with its order and copies |
| `Home.FilterIsSubsequence` | client/src/pages/Home.tsx:13-16 | the filtered list is a subsequence of the groups, in their order |
| `Home.EmptySearchKeepsAll` | client/src/pages/Home.tsx:13-16 | an empty search keeps every group |
| `Home.SameLowerSameResult` | client/src/pages/Home.tsx:14-15 | searches with the same lower case give the same result |
| `Home.SearchIgnoresCase` | client/src/pages/Home.tsx:14-15 | upper-casing or lower-casing the search does not change the result |

## Left out

- Express, `async`/`await`, the HTTP transport and the `db` connection: the handlers are modelled as steps on an in-memory table. `./db` is not part of this model.
- Database failures: the modelled store never fails, so no handler rethrows. The rethrow of non-validation errors is stated about `Catch` (`Routes.Catch`).
- Schema.EmptyObjectBody, Routes.UpdateSound, Routes.UpdateIdempotent: a PUT whose body sets no schema field (`{}`, or only keys such as `id` that are stripped) ends in an error in the program, because drizzle refuses an empty `set` or the database rejects an UPDATE with nothing to set. The model instead answers 200 with the row unchanged, or 404 when no row has the id. The query builder and the database are not part of this model.
- Row order: SQL promises none without `ORDER BY`; the model keeps rows in insertion order, with updates made in place.
- Storage.GroupStore.CreateGroup: the serial counter is unbounded; the 32-bit limit of a Postgres `serial` is not modelled.
- `buildUrl` parameter values are integers or text: a fractional number, `NaN` or `Infinity` passed as a parameter (whose `String` form is `1.5`, `NaN` or `Infinity`) is not modelled.
- `Number(req.params.id)`: ids reach the handlers as integers. A non-numeric id (NaN) is not modelled.
- JSON numbers are integers in the model. Fractional numbers and the integer and 32-bit range checks the validator library may add are not modelled.
- Zod messages: only the default `Required` and `Expected X, received Y` texts are modelled, and only the first issue reaches a response.
- Api.BuildUrl: the entries are taken in the order given; JavaScript's `Object.entries` puts integer-like keys first, and that reordering is not modelled.
- Strings.NumberToString: numbers of magnitude 10^21 and above, which JavaScript writes in exponent form, are rendered as plain digits.
- Strings.ToLower, Strings.ToUpper: only ASCII letters are case-folded; Unicode case mapping is not modelled.
- Join requests (server/storage.ts:43-50): their table is not defined in shared/schema.ts and no route uses them.
- The client: rendering, data hooks and caching, and the form-only `capacity >= 1` refinement of client/src/pages/CreateGroup.tsx.
