# Report API core, modelled in Dafny

This project models the logic of a small report service and its client
helpers, and proves properties of that model:

- **The API contract** (`shared/routes.ts`): the route table `api`
  (list, get and create, with their methods, paths and response schemas keyed
  by status) and the client's `buildUrl`, which rewrites `:key` placeholders of
  a path template one parameter at a time.
- **The report endpoints and the startup seed** (`server/routes.ts`) over the
  report store (`server/storage.ts`, `shared/schema.ts`): list, get by id,
  create with validation, and the insertion of a default report into an empty
  table.
- **`checkMethodLimit`** (`MethodLimitPartitionTest.java`): a threshold check
  yielding zero or one violation message, and its four partition tests.

## Layout

| file | module | contents |
|---|---|---|
| `wrappers.dfy` | `Wrappers` | `Option`, `Result` |
| `strings.dfy` | `Strings` | `indexOf`/`includes` on strings; decimal text of integers and its read-back |
| `schema.dfy` | `Schema` | `Report`, `InsertReport`, JSON bodies, validation of create input |
| `shared_routes.dfy` | `SharedRoutes` | the route table, response shapes, `buildUrl` and its lemmas |
| `server_routes.dfy` | `ServerRoutes` | the store class, the three handlers, the seed |
| `method_limit.dfy` | `MethodLimit` | `checkMethodLimit` and its tests |

## How the source is read

- `buildUrl` is an imperative loop (`BuildUrl`) proved equal to a left fold
  (`ApplyAll`) of single-key steps (`ApplyParam`). Each step tests
  `url.includes(':' + key)` and then calls `url.replace(':' + key, String(value))`.
  With a string pattern, `replace` rewrites only the first occurrence. It also
  expands `$$`, `$&`, `` $` `` and `$'` in the replacement (ECMA-262,
  section 22.1.3.19.1, GetSubstitution). The model keeps that expansion
  (`Substitution`). A value without `$` is inserted literally, and every number
  is such a value. A string value such as `"$&"` puts the placeholder back
  (`DollarPatternInValue`).
- The store behind `storage` is a class `ReportStore` holding the table's rows
  in store order and the serial's next value. `Valid()` says the ids are
  positive, below that value, and unique. List and get read the store and
  are functions. Create and the seed change it and are methods.
- Validation follows the insert schema: `title` and `content` are both
  `text notNull` columns, so both must be strings. A body that is not an object
  fails with one issue at the root. Otherwise `title` is checked before
  `content`, and the 400 reply carries the first issue's message.
- `title` accepts any string, the empty string included: the insert schema
  derived from a `text notNull` column sets no minimum length.
- A store failure on insert is a parameter (`fault`). The `serial` id column
  is a Postgres `integer`, so an insert also fails once the sequence is past
  2147483647 (`SequenceExhausted`). Create re-throws either failure (`Threw`),
  never answering 400, and nothing is written. A failure during the seed is
  returned as the error that rejects startup.
- Get compares the id with that `integer` column. An id outside
  [-2147483648, 2147483647] makes the store reject the query, and the error
  escapes the handler (`Threw(IdOutOfRange(id))`) instead of a 404.

## Model

| member | source | states |
|---|---|---|
| `Strings.IndexOf` | shared/routes.ts:38 | the index `replace` rewrites is the least index where the pattern occurs; none means no occurrence anywhere |
| `Strings.Includes` | shared/routes.ts:37 | `includes` holds exactly when the pattern occurs at some index |
| `Strings.IndexOfFrom` | shared/routes.ts:38 | searching from an index finds the first occurrence at or after it, or proves there is none |
| `Strings.LacksExcludes` | shared/routes.ts:8 | a path without `:` includes no `:` placeholder |
| `Strings.IntToDecimal` | shared/routes.ts:38 | `String(n)` of an integer is nonempty, starts with `-` exactly for negatives, is otherwise digits, and has no leading zero (a lone `0` only for zero) |
| `Strings.ParseInt` | server/routes.ts:17 | reads back a decimal literal: succeeds only on an optional `-` followed by digits (agrees with `Number` on such text up to 2^53 − 1 in magnitude), and on every nonempty digit string, with a non-negative value |
| `Strings.NatToDecimal` | MethodLimitPartitionTest.java:19 | decimal digits are nonempty, all digits, with no leading zero |
| `Strings.DecimalRoundTrip` | server/routes.ts:17 | reading back the decimal text of `n` gives `n` (`Number` agrees with `ParseInt` on that text only up to 2^53 − 1 in magnitude) |
| `Strings.NatDecimalRoundTrip` | server/routes.ts:17 | the value of the digit string of `n` is `n` |
| `Strings.DecimalLacks` | MethodLimitPartitionTest.java:19 | decimal text holds no character other than digits and `-` |
| `Schema.StringField` | shared/schema.ts:7-8 | a required text column raises no issue exactly when the field is a string, else one issue naming it |
| `Schema.ParseInsertReport` | shared/schema.ts:11-14 | success exactly when the body is an object with string `title` and `content`, yielding those two; a non-object fails at the root; a bad `title` is the first issue; with a good `title` the only issue names `content` |
| `SharedRoutes.RouteTable` | shared/routes.ts:4-31 | list and create share `/api/reports` and differ in method; get alone has a placeholder, `:id`; only create declares an input schema |
| `SharedRoutes.Placeholder` | shared/routes.ts:37 | the placeholder for a key is `:` followed by exactly the key |
| `SharedRoutes.Substitution` | shared/routes.ts:38 | the text `replace` inserts for a string replacement, expanding `$$`, `$&`, `` $` `` and `$'`; a replacement without `$` is inserted literally |
| `SharedRoutes.ReplaceFirst` | shared/routes.ts:38 | `url.replace(pattern, value)`: unchanged when the pattern does not occur; otherwise the text before the first occurrence and the text after it are kept, and a value without `$` takes exactly the occurrence's place |
| `SharedRoutes.ValueString` | shared/routes.ts:38 | `String(value)`: a string as it is; a number as decimal text that holds no `$` and reads back as the number |
| `SharedRoutes.BuildUrl` | shared/routes.ts:33-43 | without `params` the path is returned; with them, the entries are applied in order to the progressively rewritten url |
| `SharedRoutes.NoParams` | shared/routes.ts:34-35 | with no entries the path comes back unchanged |
| `SharedRoutes.ReplacesFirstOccurrence` | shared/routes.ts:37-38 | for a present key and a value without `$`, exactly the first `:key` becomes the value; the text before it and everything after it, later `:key`s included, is kept |
| `SharedRoutes.PrefixPlaceholder` | shared/routes.ts:37-38 | key `id` rewrites the `:id` prefix of `:idx` |
| `SharedRoutes.DollarPatternInValue` | shared/routes.ts:38 | a value `$&` reinserts the matched placeholder, leaving the path as it was |
| `SharedRoutes.AbsentKey` | shared/routes.ts:37 | a key whose `:key` does not occur leaves the url unchanged |
| `SharedRoutes.ApplyParam` | shared/routes.ts:37-39 | one step of the loop: the url unchanged when `:key` does not occur; otherwise, for a value without `$`, the first `:key` replaced by the value and everything else kept |
| `SharedRoutes.ApplyAll` | shared/routes.ts:36-40 | the entries applied in order to the progressively rewritten url; when no entry's placeholder occurs in the path, the result is the path |
| `SharedRoutes.ApplyFirstThenRest` | shared/routes.ts:36-40 | the first entry acts on the path itself, the rest on its result |
| `SharedRoutes.ApplyConcat` | shared/routes.ts:36-40 | building with `a + b` is building with `a`, then with `b` on that result |
| `SharedRoutes.ReportUrl` | shared/routes.ts:15 | the get path built with `{id}` is `/api/reports/` followed by the decimal `id`, which reads back as `id` |
| `ServerRoutes.FindById` | server/storage.ts:20-23 | a found report is in the table with the requested id; nothing is found exactly when no row has that id |
| `ServerRoutes.FindStored` | server/storage.ts:20-23 | with unique ids, looking up a row's id yields that row |
| `ServerRoutes.FindAppended` | server/storage.ts:25-28 | after appending a row with a fresh id, its id finds it and every other lookup is unchanged |
| `ServerRoutes.ReportStore.constructor` | shared/schema.ts:5-9 | a new table is empty, valid, and its serial starts at 1 |
| `ServerRoutes.ReportStore.CreateReport` | server/storage.ts:25-28 | while the serial is within int4, an insert appends exactly one row with the next serial id and the given title and content, whose id no earlier row has; a fault or an exhausted serial writes nothing and returns the error |
| `ServerRoutes.HandleList` | server/routes.ts:11-14 | status 200 with exactly the stored rows, in store order, conforming to the list route |
| `ServerRoutes.HandleGet` | server/routes.ts:16-22 | an id outside int4 makes the store query fail and the error escape; otherwise 200 exactly when a row has the id, answering with such a row, else 404 with `Report not found`; every answer conforms to the get route |
| `ServerRoutes.GetStored` | server/routes.ts:21 | get answers with the stored report itself for every stored id |
| `ServerRoutes.GetUnissued` | server/routes.ts:17-20 | an id within int4 that the serial has not handed out is answered with 404 |
| `ServerRoutes.HandleCreate` | server/routes.ts:24-37 | invalid input answers 400 with the first issue's message and leaves the store unchanged; valid input appends exactly one row with a fresh id and the submitted fields and answers 201 with it; a store error (a fault, or the serial exhausted) is re-thrown with nothing written; a later get of the new id returns the same row |
| `ServerRoutes.Seed` | server/routes.ts:39-46 | inserts the default report titled `SWE 261P Project Report` if and only if the table is empty and the insert succeeds; otherwise nothing changes; after a successful seed the table is non-empty |
| `ServerRoutes.SeedTwice` | server/routes.ts:40-41 | after a successful seed, seeding again inserts nothing |
| `MethodLimit.CheckMethodLimit` | MethodLimitPartitionTest.java:16-22 | at most one violation; none exactly when the count is at most the limit; over the limit, the one message with the exact text |
| `MethodLimit.Message` | MethodLimitPartitionTest.java:19 | the violation text opens with `Class has ` and closes with `).` |
| `MethodLimit.MessageDeterminesCounts` | MethodLimitPartitionTest.java:19 | the message determines the count and the limit it reports |
| `MethodLimit.MessageText31` | MethodLimitPartitionTest.java:48 | the message for 31 against 30 is `Class has 31 methods (max allowed is 30).` |
| `MethodLimit.TestMethodCountBelowLimit` | MethodLimitPartitionTest.java:28-32 | 29 methods against 30 give no violation |
| `MethodLimit.TestMethodCountAtLimit` | MethodLimitPartitionTest.java:35-40 | 30 methods against 30 give no violation |
| `MethodLimit.TestMethodCountExceedsLimit` | MethodLimitPartitionTest.java:43-49 | 31 methods give one violation with the exact text |
| `MethodLimit.TestEmptyClass` | MethodLimitPartitionTest.java:52-57 | 0 methods give no violation |

## Left out

- The React pages and components, client routing, the code block's clipboard and timers: static presentation with no stateable logic.
- `client/src/hooks/use-reports.ts`: network fetching and query-cache invalidation. Only its use of `buildUrl` for the get path appears, in `ReportUrl`.
- Express itself: matching requests to routes, `res.status`, `res.json`, awaits and concurrent requests. The handlers are modelled one request at a time.
- HandleGet: takes the id already converted by `Number(req.params.id)`. The conversion itself, `NaN` for non-numeric text included, is not modelled.
- SQL, drizzle and the `db` handle: the store's observable behaviour is the `ReportStore` class. Rows come back in insertion order; Postgres gives no order without `ORDER BY`.
- ReportStore.CreateReport: does not model an id consumed by a failed insert. After a failure the next id is unchanged.
- Store failures of list and get other than an out-of-range id: not modelled; they propagate unhandled.
- Zod's message texts: the validator's error map is the parameter `describe`. The model fixes which issue is reported, not its wording.
- Json bodies: numbers are integers; the validator only looks at a value's type.
- BuildUrl: takes `params` as the entry sequence `Object.entries` yields. The order JavaScript gives integer-like keys (ascending, before the others) is not modelled.
- ParseInt: reads any decimal text exactly, while `Number` rounds text beyond 2^53 − 1 in magnitude to the nearest double, so the two differ there.
- Strings are Dafny `string`s, sequences of Unicode scalar values, while JavaScript's `includes`, `indexOf` and `replace` work on UTF-16 code units. For well-formed text the results are the same because every pattern starts with `:`. Strings holding lone surrogates cannot be represented.
- ParamValue: numbers are safe integers (at most 2^53 - 1 in magnitude). For those, `String` gives the exact decimal; fractions, exponents and `NaN` are not modelled.
- Seeding when several instances start at once, and the race in its emptiness check: startup is modelled as sequential.
- `StringUtilsPartitionTest.java` and `standalone-test/src/test/java/DeclarationOrderFSMTest.java` exercise library classes whose source is not part of this model.
