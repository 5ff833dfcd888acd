# Feedback service — a verified model

This project models the server side of a small customer-feedback service and
the display helpers of its feedback list. Visitors post a name, an optional
email, a star rating and a comment. The server validates the body against a
schema, stores the row with a server-assigned id, timestamp, client address and
user agent, and serves the rows newest first. Single rows can be read,
patched and deleted by id.

The model has eight modules:

- `Wrappers`: the `Option` and `Result` datatypes.
- `JsNumber`: JavaScript's global `parseInt` without a radix (leading white
  space, a sign, a `0x` prefix, the longest digit prefix, `NaN` as `None`) and
  `String(n)` of an integer.
- `JsMap`: a JavaScript `Map` keyed by numbers. It remembers key insertion
  order, which `values()` enumerates.
- `JsArray`: `Array.prototype.find`, and `sort` with a descending-key
  comparator. The sort is modelled by a stable insertion sort, and that ordering
  is proved to be the only stable one, so it agrees with any engine that follows
  the language's stability requirement.
- `Schema`: the stored row types and the zod rules that admit creation, update
  and account payloads. A request body is a JSON value, and JSON numbers are
  `real`.
- `Storage`: the class `MemStorage`, with its two maps and two id counters,
  which its methods update in place.
- `Routes`: the five feedback handlers. Each is split into the decision made
  before the store is called (id guard, body validation, metadata defaults),
  the store call, and the mapping of how that call settled to a status and a
  body. Handler methods compose these steps with a `MemStorage`.
- `FeedbackDisplay`: initials, avatar colour, relative age, and the plural
  labels.

Inputs the model cannot compute are parameters:

- `isEmail` decides whether a string is an email address (zod's regular
  expression).
- `now` is the clock, in milliseconds.
- The seed rows' timestamps are constructor arguments, because the source
  draws them at random within the last day.

The name rule's message says "less than 100 characters", but `max(100)`
accepts exactly 100. The model follows the code (`Schema.LengthBounds`).

## Model

| member | source | states |
|---|---|---|
| `JsNumber.TrimStart` | server/routes.ts:28 | parseInt first drops exactly the leading white space: the result is a suffix, everything dropped is white space, and the result does not start with white space |
| `JsNumber.DigitPrefixLength` | server/routes.ts:28 | parseInt reads the longest run of digits of the radix: all of the prefix are digits and the next character is not |
| `JsNumber.DecimalString` | client/src/components/feedback-display.tsx:16 | `String(n)` of a natural number is a digit string whose value is n, with a leading `0` only for 0 itself |
| `JsNumber.ParseIntNumberPrefix` | server/routes.ts:28 | `ParseInt` (the global `parseInt`) reads back the numeral of any integer followed by text that does not continue it (String and parseInt are inverse; the numeric prefix is what parseInt keeps) |
| `JsNumber.ParseIntSkipsWhiteSpace` | server/routes.ts:28 | leading white space never changes what parseInt reads |
| `JsNumber.NoDecimalDigitIsNaN` | server/routes.ts:29 | `ParseInt` of a segment containing no decimal digit is NaN |
| `JsNumber.ParseIntIsNumber` | server/routes.ts:28-29 | `ParseInt` gives a number exactly when, after the white space and an optional sign, a decimal digit comes next and a `0x` prefix is followed by a hexadecimal digit; every other segment is NaN |
| `JsNumber.NumericPrefixExample` | server/routes.ts:28 | parseInt("7abc") is 7 |
| `JsNumber.FractionExample` | server/routes.ts:28 | parseInt("1.5") is 1 |
| `JsNumber.LettersExample` | server/routes.ts:29 | parseInt("abc") is NaN |
| `JsMap.OrderedMap.Get` | server/storage.ts:86 | `map.get(k)` is present exactly when k is a key, with the value stored under it |
| `JsMap.OrderedMap.Values` | server/storage.ts:61 | `Array.from(map.values())` lists the values in key insertion order |
| `JsMap.OrderedMap.Set` | server/storage.ts:52 | after `map.set(k, v)`, k maps to v and no other key changes; an existing key keeps its place and a new key goes last |
| `JsMap.OrderedMap.Delete` | server/storage.ts:112 | after `map.delete(k)`, k is absent, no other key changes, and the key order is the old one with k removed (`Without`) |
| `JsMap.WithoutKeepsOrder` | server/storage.ts:112 | removing a key keeps the relative order of every two remaining keys, so `values()` after `delete` lists the rest in their old order |
| `JsMap.Empty` | server/storage.ts:26-27 | `new Map()` has no keys and no values |
| `JsArray.FindIndex` | server/storage.ts:61 | the index `find` stops at is the first whose element satisfies the predicate, or none satisfies it |
| `JsArray.Find` | server/storage.ts:61 | `find` returns undefined exactly when no element matches, else the first match |
| `JsArray.SortDesc` | server/storage.ts:80-82 | sorting by descending key gives a non-increasing order and a permutation of the input |
| `JsArray.SortDescStable` | server/storage.ts:80-82 | the sort is stable: elements with equal keys keep their input order |
| `JsArray.StableSortUnique` | server/storage.ts:80-82 | two sorted, stable permutations of the same elements are equal, so every conforming engine returns the same list |
| `Schema.FieldIssues` | shared/schema.ts:38-43 | a payload key is reported exactly when its rule (`KeyAccepted`) rejects it, and only the four payload keys are ever reported |
| `Schema.ParseInsertFeedback` | shared/schema.ts:33-43 | a body is admitted iff it is an object and every field rule holds (email optional); a rejection lists the failing fields; an admitted payload satisfies every rule |
| `Schema.ParseFeedbackPatch` | server/routes.ts:78 | the partial schema admits iff it is an object and every present field passes its rule; the admitted patch satisfies every rule it carries |
| `Schema.InsertRoundTrip` | shared/schema.ts:33-43 | every valid creation payload, sent as JSON, is admitted unchanged |
| `Schema.PatchRoundTrip` | server/routes.ts:78 | every valid update patch, sent as JSON, is admitted unchanged |
| `Schema.UnknownKeysIgnored` | shared/schema.ts:33-38 | keys outside the payload (id, timestamp, ip_address, user_agent, anything else) never change the outcome, for both schemas |
| `Schema.EmptyPatchAccepted` | server/routes.ts:78 | the empty patch is valid and carries no field |
| `Schema.InsertBodyIsPatchBody` | server/routes.ts:78 | a body the creation schema admits is admitted by the partial schema with every field present |
| `Schema.LengthBounds` | shared/schema.ts:39-42 | names of length 1 to 100 and comments of length 1 to 500 are accepted, with both bounds inclusive; 0, 101 and 501 are rejected |
| `Schema.EmailRule` | shared/schema.ts:40 | the email is accepted when absent or exactly "", otherwise iff it is an email address; a non-string is rejected |
| `Schema.FractionalRatingSlipsThrough` | shared/schema.ts:41 | the rating rule as written accepts 2.5; the whole-star rule does not |
| `Schema.AcceptedRatingIsWholeStars` | shared/schema.ts:41 | an accepted rating is a whole number from 1 to 5, and is also accepted by the rule as written |
| `Schema.ParseInsertUser` | shared/schema.ts:27-31 | an account payload is admitted iff username, email and password are all strings, and it carries exactly those three |
| `Schema.UserUnknownKeysIgnored` | shared/schema.ts:27-31 | any key other than the three picked ones (id, created_at, …) never changes the outcome |
| `Storage.OrNull` | server/storage.ts:95-96 | `x \|\| null` stores null exactly for a missing or empty string, else the string itself |
| `Storage.Stamped` | server/storage.ts:91-97 | a created row carries the payload unchanged plus the given id, timestamp and metadata |
| `Storage.Merge` | server/storage.ts:106 | a merged row keeps id, timestamp, ip_address and user_agent |
| `Storage.MergeReplacesExactlyPatched` | server/storage.ts:106 | each payload field is taken from the patch exactly when the patch has it |
| `Storage.MergeIdempotent` | server/storage.ts:106 | merging the same patch twice is the same as merging it once |
| `Storage.MergeEmpty` | server/storage.ts:106 | the empty patch leaves a row unchanged |
| `Storage.MergeFullPatch` | server/storage.ts:106 | a patch with every field replaces the whole payload and keeps the server's columns |
| `Storage.MergeCannotClearEmail` | server/storage.ts:106 | a patch can set the email to "" but never back to null |
| `Storage.MergeKeepsRecordOk` | server/storage.ts:106 | a valid row stays within the schema's bounds under an admitted patch |
| `Storage.Patched` | server/storage.ts:102-108 | updating touches at most the one key: the key order is unchanged, other keys keep their rows, a missing id leaves the table as it was |
| `Storage.PatchedIdempotent` | server/storage.ts:102-108 | updating twice with the same patch leaves the table as updating once does |
| `Storage.SeedRowsOk` | server/storage.ts:37-41 | the three sample rows satisfy the schema's bounds |
| `Storage.MemStorage.constructor` | server/storage.ts:25-33 | a new store holds exactly the three seed rows under ids 1, 2, 3, with feedback counter 4, no users and user counter 1 |
| `Storage.MemStorage.SeedData` | server/storage.ts:43-53 | each sample payload in turn gets the next id, its timestamp, and the seed address and agent |
| `Storage.MemStorage.GetUser` | server/storage.ts:56-58 | returns the account stored under the id, whose own id is that id, or nothing |
| `Storage.MemStorage.GetUserByUsername` | server/storage.ts:60-62 | returns the first account in insertion order with that username, or nothing when none has it |
| `Storage.MemStorage.GetUserByEmail` | server/storage.ts:64-66 | returns the first account in insertion order with that email, or nothing when none has it |
| `Storage.MemStorage.CreateUser` | server/storage.ts:68-77 | the account gets the counter's old value as id, which is larger than every stored id; the counter goes up by one; nothing else changes |
| `Storage.MemStorage.GetFeedback` | server/storage.ts:79-83 | returns every stored row exactly once (a permutation), newest first, with equal timestamps in insertion order |
| `Storage.MemStorage.GetFeedbackById` | server/storage.ts:85-87 | returns the row stored under the id, whose own id is that id, or nothing |
| `Storage.MemStorage.CreateFeedback` | server/storage.ts:89-100 | the row is the payload unchanged, with id equal to the counter's old value (fresh and larger than every stored id), the clock's time, and null for missing or empty metadata; the counter goes up by exactly one; only that key is added |
| `Storage.MemStorage.UpdateFeedback` | server/storage.ts:102-109 | a missing id reports not found and changes nothing; otherwise the row becomes the merge and no other key, counter or account changes |
| `Storage.MemStorage.DeleteFeedback` | server/storage.ts:111-113 | returns true iff the id was present; afterwards it is absent, the other rows and their order are kept, and the counter is unchanged |
| `Storage.CreateDeleteCreate` | server/storage.ts:89-113 | deleting a row does not free its id: the next row gets the id after it |
| `Routes.ClientAddress` | server/routes.ts:51 | the client address is the first non-empty of `req.ip` and the socket address, else "unknown"; it is never empty |
| `Routes.ClientUserAgent` | server/routes.ts:52 | the agent is the User-Agent header if non-empty, else "unknown"; it is never empty |
| `Routes.HttpMetadataNeverNull` | server/routes.ts:51-52 | the store's `\|\| null` never applies to metadata sent over HTTP |
| `Routes.IdStep` | server/routes.ts:28-31 | the id guard answers 400 "Invalid feedback ID" exactly when parseInt gives NaN, and otherwise passes the parsed integer to the store |
| `Routes.NumericPrefixIdAccepted` | server/routes.ts:28-29 | any segment starting with an integer's numeral reaches the store with that integer |
| `Routes.IdStepExamples` | server/routes.ts:28-31 | "7abc" names row 7, "1.5" names row 1, and "abc" is a 400 |
| `Routes.NoDigitIdRejected` | server/routes.ts:28-31 | a segment without a decimal digit never reaches the store |
| `Routes.ListReply` | server/routes.ts:16-22 | a list that resolves is sent with 200; a store that throws gives 500 "Failed to retrieve feedback" |
| `Routes.GetByIdReply` | server/routes.ts:33-41 | a found row is 200 with the row, a missing one is 404 "Feedback not found", and a throw is 500 |
| `Routes.CreateStep` | server/routes.ts:48-52 | an invalid body is answered 400 "Invalid feedback data" with its issues before the store is called; a valid one goes to the store with non-empty metadata |
| `Routes.CreateReply` | server/routes.ts:54-66 | a created row is 201 with the row; a throw is 500 "Failed to create feedback" |
| `Routes.UpdateStep` | server/routes.ts:73-78 | a bad id is a 400 before the body is looked at; a bad body is a 400 before the store is asked; only a valid id and patch reach the store |
| `Routes.UpdateReply` | server/routes.ts:79-96 | an updated row is 200 with the row, a missing one 404, a throw 500 "Failed to update feedback" |
| `Routes.DeleteReply` | server/routes.ts:108-117 | true is 200 "Feedback deleted successfully", false is 404, a throw is 500 "Failed to delete feedback" |
| `Routes.StatusesUsed` | server/routes.ts:15-119 | every answer has status 200, 201, 400, 404 or 500, and each early answer is a 400 |
| `Routes.HandleList` | server/routes.ts:15-23 | GET answers 200 with every row once, newest first, equal timestamps in insertion order |
| `Routes.HandleGetById` | server/routes.ts:26-43 | GET by id is 400 for NaN, 404 for an absent id, else 200 with the stored row |
| `Routes.HandleCreate` | server/routes.ts:46-68 | POST with an invalid body is 400 and leaves the store unchanged; a valid one is stored under the next id with non-null metadata and answered 201; the accounts and their counter never change; the stored rows stay within the schema's bounds |
| `Routes.HandleUpdate` | server/routes.ts:71-98 | PUT is 400 for a bad id, then 400 for a bad body even when the row is missing, then 404 for a missing row, else 200 with the merged row; only that row changes, and the accounts and both counters are untouched |
| `Routes.HandleDelete` | server/routes.ts:101-119 | DELETE is 400 for NaN, else removes the id, answering 200 if it was present and 404 if not; the accounts and both counters are untouched |
| `FeedbackDisplay.Split` | client/src/components/feedback-display.tsx:8 | `split(' ')` gives at least one piece and no piece contains a space |
| `FeedbackDisplay.JoinSplit` | client/src/components/feedback-display.tsx:8 | joining the pieces with single spaces gives the name back |
| `FeedbackDisplay.SplitJoin` | client/src/components/feedback-display.tsx:8 | splitting space-free pieces joined by single spaces gives those pieces back |
| `FeedbackDisplay.Upper` | client/src/components/feedback-display.tsx:8 | `toUpperCase` maps a to z onto A to Z and leaves every other character alone |
| `FeedbackDisplay.InitialsAreWordStarts` | client/src/components/feedback-display.tsx:8 | `Initials` (`getInitials`) is, in order, the upper case of each non-space character that starts the name or follows a space; empty words add nothing |
| `FeedbackDisplay.InitialsExample` | client/src/components/feedback-display.tsx:8 | "ann  lee" has initials "AL" |
| `FeedbackDisplay.ScanFromName` | client/src/components/feedback-display.tsx:8 | there are never more initials than characters, and each is the upper case of a non-space character of the name |
| `FeedbackDisplay.AvatarColor` | client/src/components/feedback-display.tsx:21-25 | the colour is one of the five listed, at index (sum of character codes) mod 5 |
| `FeedbackDisplay.CodeSumPermutation` | client/src/components/feedback-display.tsx:23 | `CodeSum` (the `charCodeAt` fold) depends only on the multiset of characters |
| `FeedbackDisplay.AvatarColorPermutationInvariant` | client/src/components/feedback-display.tsx:23 | any reordering of a name's characters gets the same colour |
| `FeedbackDisplay.ElapsedSeconds` | client/src/components/feedback-display.tsx:13 | the elapsed seconds are the elapsed milliseconds divided by 1000, rounded down (also for a future timestamp) |
| `FeedbackDisplay.Classify` | client/src/components/feedback-display.tsx:15-18 | below 60 s "Just now"; below an hour the whole minutes (1 to 59); below a day the whole hours (1 to 23); else the whole days |
| `FeedbackDisplay.RecentOrFutureIsJustNow` | client/src/components/feedback-display.tsx:15 | `TimeAgo` (`getTimeAgo`) of a timestamp under a minute old, or in the future, shows "Just now" |
| `FeedbackDisplay.LabelRoundTrip` | client/src/components/feedback-display.tsx:15-18 | each bucket's label reads back as that bucket with its count |
| `FeedbackDisplay.LabelInjective` | client/src/components/feedback-display.tsx:15-18 | different buckets or counts never show the same text |
| `FeedbackDisplay.CountLabelShowsCount` | client/src/components/feedback-display.tsx:71 | `CountLabel` starts with the number itself: `ParseInt` reads it back |
| `FeedbackDisplay.PluralUnlessOne` | client/src/components/feedback-display.tsx:108 | a count label ends in the noun followed by `s` exactly when the number is not 1 (for a noun without spaces) |
| `FeedbackDisplay.SingularExample` | client/src/components/feedback-display.tsx:71 | one review is labelled "1 review" |
| `FeedbackDisplay.PluralExample` | client/src/components/feedback-display.tsx:108 | three stars are labelled "3 stars" |

## Left out

- `SupabaseStorage` and the environment-driven choice of store (server/storage.ts:117-180). They are calls into a remote database driver.
- Express plumbing: request and response objects, `console.error`, `createServer`, and the health endpoint (server/routes.ts:121-131), which reports the wall clock and an environment variable.
- Body parsing by Express before a handler runs. A malformed JSON body never reaches a handler.
- `async`/`Promise`: every store operation completes without suspending, so each is a sequential method.
- Clocks and randomness. `new Date()` is the parameter `now`. The seed timestamps (`Date.now()` minus a random offset under a day) are arbitrary constructor arguments, and the model does not require them to fall within the last day.
- Timestamps are integer milliseconds. The `Date` objects and their JSON serialisation in responses are not modelled.
- The 500 answers are reached only through the reply functions, because `MemStorage` never throws.
- Zod's email regular expression is the parameter `isEmail`.
- Zod's issue objects (codes, messages, paths) are reduced to the rejected key, one issue per rejected key.
- JSON `null`, booleans and arrays are one value, `JOther`, which no field rule accepts.
- JavaScript numbers are not modelled as doubles. `JsNumber.ParseInt` returns the exact integer of a digit run, where JavaScript rounds values past 2^53. `-0` is 0.
- Ids, ratings and character-code sums are unbounded integers.
- JavaScript strings are UTF-16. The model counts code points for zod's length bounds, for `split('')` and for `charCodeAt`, so names outside the Basic Multilingual Plane are not modelled exactly.
- `FeedbackDisplay.Upper`: only ASCII letters are upper-cased. Full Unicode case mapping (for example "ß" becoming "SS") is not modelled.
- Schema.ParseInsertFeedback, Schema.ParseFeedbackPatch: the rating uses the whole-star rule `Schema.RatingAccepted` rather than the rule as written (see Findings), so a body with a fractional rating such as 2.5 is rejected, where the source admits it.
- `MemStorage` does not enforce the users table's unique username and email constraints. That matches the source: `CreateUser` adds an account without checking them.
- The JSX rendering, the feedback form, the star widget, the toast hook, the query client and the pages. Only the three display helpers and the two plural expressions are modelled.

## Findings

| source | as written | input that shows it | evidently intended | confidence | as-written member | corrected member |
|---|---|---|---|---|---|---|
| shared/schema.ts:41 | `z.number().min(1).max(5)` has no integer check, so a fractional rating is admitted, and the `integer` column (shared/schema.ts:19) and the star widget cannot hold it | a body with `"rating": 2.5` | a whole number of stars from 1 to 5 | medium, not executed | `Schema.FractionalRatingSlipsThrough` | `Schema.AcceptedRatingIsWholeStars` |
