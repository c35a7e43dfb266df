# Timeless — a verified model of the journal's request gate, handlers and client rules

Timeless is a couples' memory journal. It has two halves.

The backend runs on Cloudflare Pages Functions:
- a global middleware answers CORS preflights, applies an on/off bearer-token gate and adds CORS headers to every forwarded response;
- `/api/auth` logs a user in against a SHA-256 hex password hash and checks tokens;
- `/api/memories`, `/api/milestones` and the generic `/api/data` validate JSON bodies and build SQL statements for the D1 table store;
- `/api/upload` stores files in an R2 bucket under generated keys and serves them back.

The React client sorts the timeline newest first, picks the next anniversary, filters the gallery, edits the quiz list by id, adds and deletes milestones, and keeps the app's lists.

The model states each of these decisions in Dafny.

**Handlers.** Each handler is a pure function of its inputs that returns a `Plan`:
- either a `Reply` with the response it sends without touching the store;
- or an `Execute` with exactly one SQL statement (its text and its bindings).

The statement's execution and its `meta` result are not modelled. Where the source builds something step by step, so does the model:
- the PUT handlers' `fields.push`/`values.push` sequence is a method proved against the specification function `UpdateStatement`;
- the middleware's header `set` calls run on a `Headers` object whose entries are a map;
- the React components' state is kept in classes whose methods change their fields.

**JavaScript semantics the decisions depend on** are written out in module `Js`:
- truthiness;
- `undefined` versus `null`;
- `v || null`;
- `parseInt` without a radix;
- `String(v)`;
- `Object.keys`/`Object.values` over objects, arrays and strings;
- the `TypeError` raised by reading a property of `null`, which lands in the handler's `catch`.

**Foreign code becomes parameters:**
- the user lookup and the bucket read;
- the SHA-256 digest and the UTF-8 encoder (`Crypto.Hasher`);
- JWT signing (`Tokens.Issuer`) and verification (`Tokens.Verifier`);
- the clock and the random string;
- the user's answers to `confirm`.

**Dates** are `Calendar.CivilDate` values. `Calendar.DayNumber` counts days from 1970-01-01 as `new Date(y, m, d)` does, rolling an out-of-range day into the next month.

| file | module | models |
|---|---|---|
| text.dfy | Text | `split`, `pop`, `trim`, `toLowerCase`, decimal rendering |
| js.dfy | Js | JSON values, truthiness, `parseInt`, `String(v)`, property reads |
| http.dfy | Http | `Response`, `Response.json`, the `{success, data/error}` envelopes, `Headers` |
| sql.dfy | Sql | statements, placeholder counting, the PUT field/value builder |
| crypto.dfy | Crypto | `hashPassword`, `verifyPassword` |
| tokens.dfy | Tokens | bearer-token extraction, abstract sign/verify |
| middleware.dfy | Middleware | `onRequest` |
| auth.dfy | Auth | `POST /api/auth`, `GET /api/auth` |
| memories.dfy | Memories | `/api/memories` GET, POST, PUT |
| milestones.dfy | Milestones | `/api/milestones` GET, POST, PUT |
| data.dfy | Data | `/api/data` GET, POST, PUT |
| upload.dfy | Upload | `/api/upload` POST and GET |
| upload_index.dfy | UploadIndex | `/api/upload` POST, `/api/file/` variant |
| calendar.dfy | Calendar | civil dates and day numbers |
| sorting.dfy | Sorting | the stable sort `Array.prototype.sort` performs |
| types.dfy | Types | `Memory`, `Milestone`, `QuizQuestion`, `AppView` |
| hero.dfy | Hero | days together, next milestone, day wording |
| timeline.dfy | Timeline | newest-first copy, confirmed delete |
| quiz.dfy | Quiz | the love quiz list updates |
| gallery.dfy | Gallery | the photo filter |
| app.dfy | App | the app's view and lists, profile figures |
| milestone_manager.dfy | MilestoneManager | the server-backed milestone editor |
| milestone_manager_legacy.dfy | MilestoneManagerLegacy | the local-only milestone editor |

## Model

| member | source | states |
|---|---|---|
| Middleware.OnRequest | functions/_middleware.ts:7-72 | the token is read from the request headers with `get('Authorization')`; the response is the one `Gate` decides for it, and the downstream handler's response is used exactly when the request is forwarded |
| Middleware.PreflightAlwaysAnswered | functions/_middleware.ts:11-21 | an `OPTIONS` request gets 204 with no body and the four CORS headers, including a one-day max age, for every setting, path and header |
| Middleware.ForwardIff | functions/_middleware.ts:24-63 | a request is forwarded iff it is not `OPTIONS` and the gate is off, or the path starts with `/api/auth`, or the header is `Bearer ` plus a token the verifier accepts |
| Middleware.GateOffForwardsAll | functions/_middleware.ts:24-28 | any setting other than the string `'true'` forwards every non-`OPTIONS` request, whatever its headers, and no token is verified |
| Middleware.AuthPrefixExempt | functions/_middleware.ts:28 | every path that starts with `/api/auth`, including `/api/authx`, is forwarded without a token check |
| Middleware.MissingBearerRejected | functions/_middleware.ts:29-42 | with the gate on, a missing header or one without `Bearer ` gets 401 with `authRequired: true`, and the result does not depend on the verifier |
| Middleware.VerifiedTokenIsHeaderSuffix | functions/_middleware.ts:45-46 | the token handed to the verifier is the header with its first seven characters removed |
| Middleware.InvalidTokenRejected | functions/_middleware.ts:46-59 | a token the verifier rejects gets 401 with `authRequired: true`, and the response differs from the missing-header rejection only in the error text |
| Middleware.RejectionNotForwarded | functions/_middleware.ts:32-58 | a rejection never uses the downstream response: it is 401 and carries only `Access-Control-Allow-Origin: *` and the JSON content type |
| Middleware.ForwardedKeepsResponse | functions/_middleware.ts:63-71 | a forwarded response keeps its status, body and other headers; the three CORS headers are set over any existing values |
| Middleware.AddCors | functions/_middleware.ts:66-71 | the three `Headers.set` calls on a copy of the downstream headers give exactly `WithCors` |
| Middleware.CorsMerge | functions/_middleware.ts:67-69 | three successive sets equal a merge with the CORS header map |
| Middleware.LowerNames | functions/_middleware.ts:67-69 | the header names the source writes are stored under their lower-case forms |
| Middleware.KeysDistinct | functions/_middleware.ts:15-18 | the four CORS header names are distinct, so none overwrites another |
| Middleware.ToLowerAppend | functions/_middleware.ts:67-69 | lower-casing distributes over concatenation |
| Middleware.LowerPrefix | functions/_middleware.ts:67-69 | the shared `Access-Control-Allow-` prefix lower-cases piecewise |
| Http.Headers.Set | functions/_middleware.ts:67-69 | `headers.set` replaces the value under the lower-cased name and changes nothing else: `get` of that name then gives the value, and every other name reads as before |
| Http.GetIgnoresCase | functions/_middleware.ts:29 | `headers.get` is case-insensitive: names that lower-case alike read the same entry, which is present exactly when the lower-cased name is stored |
| Http.Headers.constructor | functions/_middleware.ts:66 | a copied response starts with the downstream headers |
| Http.JsonResponse | functions/api/auth.ts:17-20 | `Response.json` keeps the status and body and adds the JSON content type to the given headers |
| Http.Failure | functions/api/auth.ts:58-64 | a thrown error gives 500 with `success: false` and the error's message, or the handler's fallback text for a non-`Error` |
| Tokens.BearerTokenIff | functions/_middleware.ts:31-45 | the bearer token is `t` exactly when the header is `Bearer ` followed by `t` |
| Crypto.ToHex | functions/utils/crypto.ts:12-13 | the rendering has exactly two characters per digest byte |
| Crypto.ByteHex | functions/utils/crypto.ts:13 | `toString(16).padStart(2, '0')` is the high nibble's digit followed by the low nibble's digit |
| Crypto.ToBase16 | functions/utils/crypto.ts:13 | `toString(16)` is non-empty, and a single digit below 16 |
| Crypto.Repeat | functions/utils/crypto.ts:13 | the padding is `n` copies of the fill character |
| Crypto.HexDigit | functions/utils/crypto.ts:13 | every digit is lower-case hex |
| Crypto.HexValue | functions/utils/crypto.ts:13 | reading a lower-case hex digit gives back its nibble |
| Crypto.HexDigitValue | functions/utils/crypto.ts:13 | reading a nibble's digit gives back the nibble |
| Crypto.ToHexAt | functions/utils/crypto.ts:12-13 | byte `i` is written at characters `2i` and `2i+1`, high nibble first, in byte order |
| Crypto.ToHexLowerCase | functions/utils/crypto.ts:13 | the rendering contains lower-case hex digits only |
| Crypto.FromHex | functions/utils/crypto.ts:12-13 | the reading of a rendering has one byte per two characters |
| Crypto.FromToHex | functions/utils/crypto.ts:12-13 | reading the rendering back gives the digest, so nothing is lost |
| Crypto.ToHexLast | functions/utils/crypto.ts:13 | the last byte's two digits end the rendering |
| Crypto.FromHexStep | functions/utils/crypto.ts:13 | reading two more digits appends their byte |
| Crypto.ToHexInjective | functions/utils/crypto.ts:12-13 | two digests render equally iff they are equal |
| Crypto.HashPassword | functions/utils/crypto.ts:8-14 | the hash has twice as many characters as the digest has bytes |
| Crypto.HashPasswordLength | functions/utils/crypto.ts:11-13 | a 32-byte SHA-256 digest gives a 64-character hash |
| Crypto.VerifyOwnHash | functions/utils/crypto.ts:22-25 | a password always verifies against its own hash |
| Crypto.VerifyIffSameDigest | functions/utils/crypto.ts:22-25 | a password verifies against another password's hash iff their digests are equal |
| Crypto.NonLowerHexNeverVerifies | functions/utils/crypto.ts:13-24 | a stored hash with any character outside lower-case hex (upper-case digits, say) never verifies |
| Crypto.WrongLengthNeverVerifies | functions/utils/crypto.ts:13-24 | with a 32-byte digest, a stored hash of any length other than 64 never verifies |
| Auth.LoginMissingCredentials | functions/api/auth.ts:16-21 | a body without a truthy username or password gets 400 `缺少用户名或密码`, whatever the user lookup would return |
| Auth.LoginFailuresIndistinguishable | functions/api/auth.ts:27-40 | an unknown user and a wrong password give the identical 401 `用户名或密码错误` |
| Auth.LoginSucceedsIff | functions/api/auth.ts:16-56 | a login succeeds iff both credentials are present, the user is found, the stored value is the hash of the typed password and signing succeeds |
| Auth.LoginSuccessData | functions/api/auth.ts:43-56 | on success the data is the stored row without `password`, every other column unchanged, plus the token issued for the row's `username` and `id` |
| Auth.LoginStatuses | functions/api/auth.ts:8-65 | a login answers 200, 400, 401 or 500; 500 exactly when parsing, the lookup or signing throws, or the body is null; a 500 carries `success: false` |
| Auth.Without | functions/api/auth.ts:48 | the rest object holds exactly the row's properties other than `password`, in order |
| Auth.WithoutLookup | functions/api/auth.ts:48 | `password` reads as `undefined` on the rest object and every other property reads as in the row |
| Auth.CheckTokenMissing | functions/api/auth.ts:73-78 | a missing header or one without `Bearer ` gets 401 `未提供认证令牌`, and the verifier is not consulted |
| Auth.CheckTokenVerdict | functions/api/auth.ts:80-93 | a rejected token gets 401 `无效的令牌`; an accepted one gets `{username, userId, valid: true}` from its claims |
| Memories.MapMemoryFieldsRenames | functions/api/memories.ts:4-16 | the mapped record has the nine fields in order; `image_url`, `created_at` and `updated_at` become camelCase, and the other six are copied unchanged |
| Memories.Rename | functions/api/memories.ts:4-16 | each target field holds the row's value for its source column |
| Memories.LookupUnique | functions/api/memories.ts:4-16 | a field whose name occurs once reads back its own value |
| Memories.MapRows | functions/api/memories.ts:29 | the mapping is applied to every row, in order |
| Memories.ListResponse | functions/api/memories.ts:20-43 | a listing answers 200 with the mapped rows, or 500 when the query throws |
| Memories.InsertSqlPlaceholders | functions/api/memories.ts:80-82 | the INSERT has six markers |
| Memories.PostDeletes | functions/api/memories.ts:61-70 | a truthy `delete` with a truthy `id` issues only the DELETE of that id, with as many markers as bindings |
| Memories.PostRequiresFields | functions/api/memories.ts:73-78 | otherwise the handler replies without a statement iff title, content or date is falsy, and the reply is 400 |
| Memories.PostCreateBindings | functions/api/memories.ts:80-90 | a create binds title, content, date, location, mood and imageUrl in that order, falsy optional fields as null, with six markers for six bindings |
| Memories.Put | functions/api/memories.ts:107-164 | the handler's pushes give exactly `PutPlan` |
| Memories.PushSupplied | functions/api/memories.ts:128-136 | the six pushes leave the fragments and values of the supplied columns in table order |
| Memories.PutRequiresId | functions/api/memories.ts:120-125 | a PUT without a truthy id gets 400 `缺少 id` |
| Memories.PutColumnChoice | functions/api/memories.ts:131-136 | title, content and date are written iff truthy; location, mood and imageUrl whenever not `undefined` |
| Memories.PutNothingToUpdate | functions/api/memories.ts:138-143 | a PUT with an id gets 400 `没有要更新的字段` iff no column is supplied |
| Memories.PutStatementShape | functions/api/memories.ts:145-150 | markers equal bindings, `updated_at = CURRENT_TIMESTAMP` closes the SET list, and the id is the last binding |
| Memories.ColumnsMarkerFree | functions/api/memories.ts:131-136 | no column name holds a `?` |
| Milestones.RowObjects | functions/api/milestones.ts:9-16 | the rows are returned unchanged, in order |
| Milestones.ListResponse | functions/api/milestones.ts:5-25 | a listing answers 200 with the rows, or 500 when the query throws |
| Milestones.InsertSqlPlaceholders | functions/api/milestones.ts:60-62 | the INSERT has four markers |
| Milestones.PostDeletes | functions/api/milestones.ts:41-50 | a truthy `delete` with a truthy `id` issues only the DELETE of that id |
| Milestones.PostRequiresFields | functions/api/milestones.ts:53-58 | otherwise the handler replies without a statement iff title, date or type is falsy, and the reply is 400 |
| Milestones.PostCreateBindings | functions/api/milestones.ts:60-68 | a create binds title, date, type and description in order, a falsy description as null, with four markers for four bindings |
| Milestones.Put | functions/api/milestones.ts:85-121 | the handler's pushes give exactly `PutPlan` |
| Milestones.PushSupplied | functions/api/milestones.ts:104-110 | the four pushes leave the fragments and values of the supplied columns in table order |
| Milestones.PutRequiresId | functions/api/milestones.ts:96-101 | a PUT without a truthy id gets 400 |
| Milestones.PutColumnChoice | functions/api/milestones.ts:107-110 | title, date and type are written iff truthy, description whenever not `undefined` |
| Milestones.PutNothingToUpdate | functions/api/milestones.ts:112-117 | a PUT with an id gets 400 iff no column is supplied |
| Milestones.PutStatementShape | functions/api/milestones.ts:119-124 | markers equal bindings, `updated_at` follows the caller's fields, and the id is bound last |
| Milestones.ColumnsMarkerFree | functions/api/milestones.ts:107-110 | no column name holds a `?` |
| Sql.PushIfSupplied | functions/api/memories.ts:131-136 | one `if (...) { fields.push; values.push }` appends the column's fragment and value exactly when the body supplies it |
| Sql.PushedAll | functions/api/memories.ts:128-136 | after all pushes, fields and values are those of the supplied columns in table order |
| Sql.PickStep | functions/api/memories.ts:131-136 | considering one more column extends the picked fragments and values by it exactly when it is supplied |
| Sql.SuppliedColumnsMembership | functions/api/memories.ts:131-136 | a column is picked iff it is one of the table's columns and the body supplies it |
| Sql.SuppliedColumnsEmpty | functions/api/memories.ts:138 | nothing is picked iff no column is supplied |
| Sql.SuppliedColumnsAppend | functions/api/memories.ts:131-136 | picking distributes over concatenated column lists |
| Sql.UpdateStatementShape | functions/api/memories.ts:145-150 | a typed UPDATE is well bound, binds the supplied values in column order and the id last |
| Sql.TypedUpdateWellBound | functions/api/milestones.ts:119-124 | the typed UPDATE's markers and bindings agree |
| Sql.PickedNamesMarkerFree | functions/api/memories.ts:131-136 | picked column names are free of `?` when the table's are |
| Sql.DeleteStatement | functions/api/memories.ts:62-64 | a DELETE binds only the id, with one marker |
| Sql.UpdateSqlPlaceholders | functions/api/memories.ts:149 | the UPDATE text has one marker per fragment marker plus the `WHERE id = ?` |
| Sql.UpdateSqlAssignments | functions/api/data.ts:131-134 | an UPDATE of `k = ?` fragments has one marker per key, the keys' own markers and one for the id |
| Sql.JoinPlaceholders | functions/api/data.ts:81 | joining with a marker-free separator keeps the parts' markers |
| Sql.SumPlaceholdersAppend | functions/api/data.ts:81 | marker counts add over concatenation |
| Sql.Marks | functions/api/data.ts:78 | `fields.map(() => '?')` is one `?` per field |
| Sql.MarksPlaceholders | functions/api/data.ts:78 | those hold one marker each |
| Sql.Assignments | functions/api/data.ts:131 | `fields.map(f => f + ' = ?')` keeps the fields in order |
| Sql.AssignmentPlaceholders | functions/api/data.ts:131 | a fragment has its column's markers plus one |
| Sql.AssignmentsPlaceholders | functions/api/data.ts:131 | the fragments have one marker per field plus the fields' own |
| Sql.SumPlaceholdersZero | functions/api/memories.ts:131-136 | marker-free parts hold no markers |
| Sql.EndsInMarker | functions/api/data.ts:32 | a marker-free text followed by `?` has one marker |
| Sql.MarkerList | functions/api/memories.ts:82 | the literal marker list of an INSERT has `n` markers |
| Sql.ColumnNames | functions/api/memories.ts:131-136 | the picked names, in order |
| Sql.ColumnValues | functions/api/memories.ts:131-136 | the picked values, read from the body in order |
| Sql.SuppliedColumns | functions/api/memories.ts:131-136 | no more columns are picked than the table has |
| Data.GetOutcomes | functions/api/data.ts:8-38 | a missing table gets 400; a SELECT is issued iff the table is whitelisted, bound to the limit, with one marker |
| Data.LimitDefault | functions/api/data.ts:13 | an absent or empty `limit` gives 50, and any other is `parseInt` of the parameter |
| Data.SelectSqlPlaceholders | functions/api/data.ts:32 | the SELECT holds exactly one marker |
| Data.AllowedMarkerFree | functions/api/data.ts:23-24 | no whitelisted table name holds a `?` |
| Data.PostRefusals | functions/api/data.ts:59-73 | missing table or data gets 400; a table outside the whitelist gets 400; an INSERT is issued iff the data is truthy and the table is whitelisted |
| Data.InsertShape | functions/api/data.ts:76-82 | the INSERT names the data's keys and binds its values in the same order; markers are one per key plus any in the keys, so they equal the bindings iff no key holds a `?` |
| Data.InsertSqlPlaceholders | functions/api/data.ts:81 | the INSERT text's markers |
| Data.InsertIntoPlaceholders | functions/api/data.ts:81 | the column part's markers are the keys' own |
| Data.ValuesListPlaceholders | functions/api/data.ts:78-81 | the values part holds one marker per key |
| Data.MarkerFreeAround | functions/api/data.ts:81 | text around a marker-free table name adds no markers |
| Data.PutRefusals | functions/api/data.ts:112-126 | missing table, id or data gets 400; a table outside the whitelist gets 400; an UPDATE is issued iff id and data are truthy and the table is whitelisted |
| Data.UpdateShape | functions/api/data.ts:129-135 | one `key = ?` per data key, values in key order, the id bound after them; markers equal bindings iff no key holds a `?` |
| Data.KeyedUpdateShape | functions/api/data.ts:129-135 | the same, for any marker-free table and entries |
| Data.Keys | functions/api/data.ts:76 | `Object.keys(data)` in entry order |
| Data.Values | functions/api/data.ts:77 | `Object.values(data)` in the same order |
| Js.ParseIntOfDecimal | functions/api/data.ts:13 | `parseInt` of a decimal rendering gives the number back |
| Js.RadixValueDecimal | functions/api/data.ts:13 | base-10 digit runs read as their decimal value |
| Js.DigitRun | functions/api/data.ts:13 | `parseInt` reads the longest run of digits |
| Js.Lookup | functions/api/memories.ts:6-14 | a property read finds a stored pair, or `undefined` when the name is absent |
| Js.Entries | functions/api/data.ts:76-77 | `Object.entries` of an object is its properties; of an array or a string, one entry per element |
| Js.Indexed | functions/api/data.ts:76-77 | array entries are keyed by their decimal index |
| Js.Characters | functions/api/data.ts:77 | string entries are its characters |
| Upload.PostWithoutFile | functions/api/upload.ts:12-17 | a form without a file, or with an empty text field, gets 400 `缺少文件` whatever the time and random string (functions/api/upload/index.ts:12-17 refuses alike) |
| Upload.Extension | functions/api/upload.ts:22 | the extension holds no dot |
| Upload.ExtensionIsLastSegment | functions/api/upload.ts:22 | the extension is the whole name when it has no dot, otherwise the text after a dot, and (by `Text.LastPartIsSuffix`) after the last one; the same in functions/api/upload/index.ts:22 |
| Upload.LastPartAfterSeparator | functions/api/upload.ts:22-23 | the last segment of `a.b`, with `b` dot-free, is `b` |
| Upload.PostStoresUnderKey | functions/api/upload.ts:20-30 | a file is stored under `uploads/<time>-<random>.<ext>` with its media type, and the key's own extension is the file's (functions/api/upload/index.ts:20-30 builds the same key) |
| Upload.UploadResponse | functions/api/upload.ts:32-38 | after a successful write the data is the key unchanged and the url `/api/upload/<key>` |
| Upload.Get | functions/api/upload.ts:50-75 | the handler, filling a fresh `Headers`, gives exactly `GetResponse` |
| Upload.GetOutcomes | functions/api/upload.ts:55-69 | no key gets 400 without reading the bucket; a missing object gets 404; a found object is served with 200, its body, its metadata and its entity tag |
| UploadIndex.FileUploadResponse | functions/api/upload/index.ts:32-38 | the variant's data is the key unchanged and the url `/api/file/<key>` |
| UploadIndex.VariantsDifferOnlyInUrl | functions/api/upload/index.ts:32-46 | the two endpoints give the same 500 for a failed write; for a successful one both give 200 with the same headers and key, and their URLs differ only in the prefix |
| Text.Split | functions/api/upload.ts:22 | `split` yields one more part than separators, no part holds the separator, and joining them gives the string back |
| Text.LastPartIsSuffix | functions/api/upload.ts:22 | `pop()` of the parts is the longest separator-free suffix; it is shorter than the string iff the separator occurs, and then a separator precedes it |
| Text.JoinStepLast | functions/api/upload.ts:22 | joining with one more character on the last part appends that character |
| Text.OccurrencesAppend | functions/api/upload.ts:22 | separator counts add over concatenation |
| Text.OccurrencesAbsent | functions/api/upload.ts:22 | a string without the character counts zero of it |
| Text.NatToString | components/LoveQuiz.tsx:19 | `Date.now().toString()` is a non-empty decimal with no leading zero |
| Text.DigitsOfNat | components/LoveQuiz.tsx:19 | the decimal rendering reads back as the number |
| Text.NatToStringInjective | components/LoveQuiz.tsx:19 | distinct times give distinct ids |
| Text.TrimEmptyIffBlank | components/LoveQuiz.tsx:17 | `trim()` is empty iff the text is only white space |
| Text.TrimStartEmpty | components/LoveQuiz.tsx:17 | trimming the front empties exactly a blank text |
| Text.TrimEndEmptyOnlyIfEmpty | components/LoveQuiz.tsx:17 | trimming the end of a text that starts with a non-space leaves it non-empty |
| Text.TrimStartFront | components/LoveQuiz.tsx:17 | after trimming the front, the text starts with a non-space |
| Text.ToLower | functions/_middleware.ts:67-69 | lower-casing keeps the length and maps each character |
| Calendar.DaysBeforeMonth | src/components/Hero.tsx:38 | a month's days start within the year and end inside it |
| Calendar.YearStartStep | src/components/Hero.tsx:38-42 | the next year starts a year's days later |
| Calendar.DayNumberInYear | src/components/Hero.tsx:38-42 | a valid date's day number lies within its year |
| Calendar.LaterYearLater | src/components/Hero.tsx:41-42 | a date in a later year comes later |
| Calendar.YearStartMonotone | src/components/Hero.tsx:41-42 | later years start later |
| Calendar.DayNumberOrder | src/components/Timeline.tsx:21 | day numbers compare as (year, month, day) compare, and are equal iff the dates are |
| Calendar.MonthsLater | src/components/Hero.tsx:38-41 | a later month of the same year starts after an earlier month ends |
| Sorting.Insert | src/components/Timeline.tsx:21 | insertion adds exactly the one element |
| Sorting.SortBy | src/components/Timeline.tsx:21 | the sorted list is a permutation of the input |
| Sorting.SortBySorted | src/components/Timeline.tsx:21 | the sorted list is ordered by the key |
| Sorting.InsertSorted | src/components/Timeline.tsx:21 | inserting into a sorted list keeps it sorted |
| Sorting.SortByStable | src/components/Timeline.tsx:21 | elements with equal keys keep their input order |
| Sorting.InsertWithKey | src/components/Timeline.tsx:21 | insertion puts an element after the equal-key elements already present |
| Sorting.WithKeyHead | src/components/Hero.tsx:49-52 | the head of a list is the first element with its own key |
| Sorting.WithKey | src/components/Timeline.tsx:21 | the elements with a given key are never more than the list holds |
| Sorting.WithKeyDrawn | src/components/Timeline.tsx:21 | the elements with a given key are drawn from the list, none more often than it occurs there, and all have that key |
| Sorting.InsertAt | src/components/Timeline.tsx:21 | inserting places the element after exactly the leading elements whose key is smaller, and before the rest |
| Sorting.MoveIntoTail | src/components/Timeline.tsx:21 | one in-place step leaves the front of the array alone and turns the rest into the element inserted into the tail behind it |
| Sorting.InsertionSort | src/components/Timeline.tsx:21 | sorting the array in place leaves it holding exactly `SortBy` of its old contents, so ordered, a permutation, and stable |
| Timeline.SortCopy | src/components/Timeline.tsx:21 | the spread gives a fresh array, and after sorting it holds the memories newest first with same-day memories in list order (components/Timeline.tsx:20 sorts alike) |
| Timeline.SortedMemoriesOrder | src/components/Timeline.tsx:21 | the sorted copy is a permutation of the memories, newest date first (also components/Timeline.tsx:20) |
| Timeline.SortedMemoriesStable | src/components/Timeline.tsx:21 | memories with equal dates keep their input relative order (also components/Timeline.tsx:20) |
| Timeline.DeleteOnlyAfterConfirm | src/components/Timeline.tsx:23-27 | `onDelete` is called, with that memory's id, only after confirmation and only when given |
| Hero.DaysTogether | src/components/Hero.tsx:17-21 | the count is the floor of the elapsed time in whole days (the same lines of components/Hero.tsx compute it alike) |
| Hero.DaysTogetherCountsDays | src/components/Hero.tsx:17-21 | from day `a` to day `b` the count is `b - a`, less one when the later moment is earlier in its day |
| Hero.HeroState.RefreshDaysTogether | src/components/Hero.tsx:16-22 | the effect sets the day count and leaves the next milestone |
| Hero.HeroState.RefreshNextMilestone | src/components/Hero.tsx:25-54 | the effect sets exactly `NextMilestone` and leaves the day count |
| Hero.HeroState.constructor | src/components/Hero.tsx:12-13 | the state starts at 0 days and no milestone |
| Hero.UpcomingAll | src/components/Hero.tsx:35-48 | one entry per milestone, in list order, with that milestone's title; for a real date every count lies in 0..366 |
| Hero.NextMilestoneExists | src/components/Hero.tsx:26-29 | there is a next milestone iff there are milestones (as in components/Hero.tsx) |
| Hero.UpcomingIgnoresYear | src/components/Hero.tsx:36-38 | the stored year of a milestone does not matter (as in components/Hero.tsx) |
| Hero.UpcomingDays | src/components/Hero.tsx:38-46 | the days lie in 0..366; 0 iff this year's date is today; next year iff this year's date is before today (as in components/Hero.tsx) |
| Hero.NextMilestoneIsSoonest | src/components/Hero.tsx:48-52 | the one shown is one of the milestones, with its own title, and no milestone is sooner (as in components/Hero.tsx) |
| Hero.NextMilestoneFirstOfTies | src/components/Hero.tsx:49-52 | among equally near milestones the first in list order is shown |
| Hero.DaysTextInjective | src/components/Hero.tsx:57-62 | different day counts are worded differently |
| Quiz.AddCustomPrepends | components/LoveQuiz.tsx:15-25 | blank input adds nothing; otherwise the question is added in front, as typed, hidden and unanswered, ahead of the unchanged list |
| Quiz.AddGeneratedPrepends | components/LoveQuiz.tsx:27-37 | a generated question is added hidden in front of the unchanged list |
| Quiz.AnswerOnlyTouchesMatch | components/LoveQuiz.tsx:39-42 | only the named field of the questions with that id changes; length, order and everything else stay |
| Quiz.ToggleRevealFlips | components/LoveQuiz.tsx:44-47 | only the questions with that id flip, length and order stay, and toggling twice restores the list |
| Gallery.HasPhotoIff | components/Gallery.tsx:13 | a memory is shown iff its address is present and not blank |
| Gallery.Photos | components/Gallery.tsx:13 | the gallery is never longer than the memories |
| Gallery.PhotosMembers | components/Gallery.tsx:13 | the gallery holds exactly the memories with a non-blank address |
| Gallery.PhotosAppend | components/Gallery.tsx:13 | filtering distributes over concatenation, so relative order is kept |
| Gallery.PhotosEmpty | components/Gallery.tsx:13-43 | the empty state shows iff no memory has a non-blank address |
| App.AppState.constructor | App.tsx:40-42 | the app starts on the timeline with the initial lists |
| App.AppState.AddMemory | App.tsx:48-51 | the new memory goes in front of the unchanged list and the view becomes the timeline; the memory figure rises by one, and the photo figure by one exactly when the memory has an address |
| App.AppState.CancelAdd | App.tsx:66 | cancelling returns to the timeline and keeps the lists |
| App.AppState.Navigate | App.tsx:109 | navigation changes only the view |
| App.AppState.SetMilestones | App.tsx:96 | the milestone setter replaces only the milestones |
| App.AppState.PhotoCount | App.tsx:91 | the photo figure never exceeds the memory figure |
| App.PhotoStat | App.tsx:91 | the memories with a truthy address are at most all of them |
| App.PhotoStatCoversGallery | App.tsx:91 | the photo figure is at least the gallery's size, and equal iff no memory's address is only white space |
| App.AddMemoryStats | App.tsx:48-49 | adding a memory lengthens the list by one and raises the photo figure by one exactly when the memory has an address |
| MilestoneManager.MilestoneForm.constructor | src/components/MilestoneManager.tsx:12-16 | the form starts closed, empty, `Anniversary`, not saving |
| MilestoneManager.MilestoneForm.ToggleAdding | src/components/MilestoneManager.tsx:53 | the add button flips only the panel |
| MilestoneManager.MilestoneForm.BeginAdd | src/components/MilestoneManager.tsx:18-22 | no request without a title and a date; otherwise the form is sent and `saving` is raised |
| MilestoneManager.MilestoneForm.FinishAdd | src/components/MilestoneManager.tsx:24-33 | on success the parent gets a copy of its list and the form resets and closes; on failure an alert and nothing else changes; `saving` falls either way |
| MilestoneManager.DeleteOutcomes | src/components/MilestoneManager.tsx:36-46 | the list is updated iff confirmed and successful, and then holds exactly the milestones with another id |
| MilestoneManager.WithoutId | src/components/MilestoneManager.tsx:42 | filtering never lengthens the list |
| MilestoneManager.WithoutIdMembers | src/components/MilestoneManager.tsx:42 | the filtered list holds exactly the milestones with another id (the earlier editor's delete, components/MilestoneManager.tsx:31-33, filters alike) |
| MilestoneManager.WithoutIdAppend | src/components/MilestoneManager.tsx:42 | filtering distributes over concatenation, so the others keep their order (both editors) |
| MilestoneManager.WithoutAbsentId | src/components/MilestoneManager.tsx:42 | filtering by an absent id changes nothing |
| MilestoneManagerLegacy.LegacyMilestoneForm.constructor | components/MilestoneManager.tsx:11-13 | the form starts empty, kind `Anniversary` |
| MilestoneManagerLegacy.LegacyMilestoneForm.HandleAdd | components/MilestoneManager.tsx:15-29 | nothing without a title and a date; otherwise the new milestone is appended after the unchanged list, title and date clear and the kind stays |
| MilestoneManagerLegacy.AddThenDelete | components/MilestoneManager.tsx:26-33 | appending keeps the old milestones in order, and deleting the fresh id gives them back |

## Left out

- SQL execution, the rows it returns, and `result.meta.changes` / `last_row_id` in the success bodies: a handler is modelled up to the statement it issues.
- JWT signing and verification (HS256 under the deployment secret, the seven-day expiry in `functions/utils/jwt.ts`): they are the abstract `Tokens.Issuer` and `Tokens.Verifier`.
- The SHA-256 digest and `TextEncoder`: they are the abstract `Crypto.Hasher`. `crypto.subtle.digest` is assumed not to throw.
- The R2 bucket: `put` is an `Attempt<()>` parameter and `get` a function parameter. `writeHttpMetadata` is represented by the stored metadata map.
- `Date.now()`, `new Date()` and `Math.random().toString(36).substring(7)`: they are parameters (the timestamp, today's date and the random string).
- `console.error` logging.
- `Object.keys` puts integer-like keys first, in ascending order. The model keeps every object's properties in insertion order.
- Duplicate keys in a JSON body are kept as the later value by `Js.Lookup`, but they are not removed from `Object.keys`.
- `JSON.stringify` dropping `undefined` properties from response bodies: bodies are kept as `Js.Value` trees.
- Numbers are integers plus `NaN`. Fractions, `-0`, `Infinity` and numbers beyond 2^53 are not modelled.
- `parseInt` on such numbers is not modelled either.
- Characters beyond the Basic Multilingual Plane, and locale-dependent case mapping: `Text.ToLower` maps A-Z only, which covers every header name the code sets.
- Date strings are represented as `Calendar.CivilDate`:
  - their parsing, time zones and daylight-saving shifts are not modelled;
  - an unparsable date (`Invalid Date`, which makes the sort comparator return `NaN`) is not modelled;
  - `Math.ceil` over a day that is not 24 hours long is not modelled.
- Hero.UpcomingAll: the 0..366 bound is promised only when today is a real calendar date, as the clock always gives; an out-of-range date is outside what `new Date()` produces.
- Sorting.InsertionSort: engines sort with their own algorithm (TimSort in V8). A stable sort on an integer key has exactly one result, so the insertion sort here gives the same array; the engine's sequence of intermediate states is not modelled.
- Hero.UpcomingDays: the day count is stated as a difference of day numbers. This matches `Math.ceil` of the millisecond difference only where both dates are local midnights zero or more whole 24-hour days apart, which is how the source builds them.
- The gate is an on/off switch (`AUTHENTICATION_REQUIRED === 'true'` in `functions/_middleware.ts`); only `OPTIONS` is treated by method, and the model has no other method-aware mode.
- The `catch` branch of `GET /api/auth` cannot be reached, because `verifyToken` catches its own errors and returns `null`. `Auth.CheckToken` has no 500 case.
- `functions/api/file/[[path]].ts`, `functions/api/ai.ts` and the LLM service files are not part of this model.
- The client services (`src/services/*`) and the network calls they make are not modelled: `createMilestone` and `deleteMilestone` results are the `succeeded`/`error` parameters.
- The `window.confirm` and `alert` dialogs are not modelled: their answers are parameters, and the alert text is returned.
- Rendering, CSS and navigation widgets are not modelled.
- `isGenerating`, and clearing `customQuestion` after an add, in the love quiz are not modelled: they only affect what is drawn.
- The sample data `INITIAL_MEMORIES` and `INITIAL_MILESTONES`: `App.AppState`'s constructor takes the initial lists as parameters.
- The root `types.ts` is not part of this model: `Types` follows `src/types.ts` plus the gallery view `App.tsx` uses.
- MilestoneManager.MilestoneForm.FinishAdd: the parent receives a copy of its current list, as in the source. The parent (`src/App.tsx:126-128`) then reloads the list from the server, which is not modelled.
- Upload.PostPlan: a form entry that is a non-empty string field makes `file.name.split` throw. The model gives the resulting 500 with `TypeError`'s message, as for a read of `undefined`, and does not model its exact wording.
