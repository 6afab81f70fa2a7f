# QR attendance check-in: a Dafny model

This project models the decision logic of a QR-code attendance service.

**`POST /api/record` (check-in).** The request carries a Telegram handle or a phone number.
- The handler first picks a search. A handle is matched exactly against the `TG` column. A phone is reduced to its "core digits": a leading country code `964` is removed once, then a leading `0` is removed once. Those digits are then looked for inside the `Phone` column.
- If the search finds records, the first one is marked `Arrived` with the time (UPDATE).
- Otherwise a "New Guest" record is created. It holds the identifier as supplied in its own column and `-` in the other (CREATE).

**The Express server.** `POST /record` checks that a name and a phone are present. It then appends `[name, phone, timestamp, status]` to a sheet and tries to send a welcome message; a failure to send does not fail the request. `GET /records` drops the sheet's header row, reports how many data rows there are, and returns the latest fifty, newest first.

Everything is pure functions over immutable data:
- The request, the time string and the replies of the record table, sheet and messaging client are parameters.
- Each handler's result lists the calls it made, in order, and the response it sent.
- The record table is given a meaning of its own (`RecordStore`): what a filter formula selects and what a PATCH or POST changes. This lets properties that span several requests be proved, for example that checking in twice gives UPDATE the second time.

Modules:
- `JsValues`: optional body fields, JavaScript truthiness of a string field, and the prefix, suffix and containment tests on strings.
- `PhoneNormalizer`: the core-digit normalisation.
- `RecordStore`: the Airtable table, its two filters, and its update and create calls.
- `RecordApi`: the check-in handler.
- `AttendanceLog`: the server's `/record` and `/records` handlers.

## Model

| member | source | states |
|---|---|---|
| PhoneNormalizer.StripCountryCode | api/record.js:38 | a phone starting with "964" is exactly "964" followed by the result; any other phone is returned unchanged |
| PhoneNormalizer.StripTrunkZero | api/record.js:39 | a phone starting with "0" is exactly "0" followed by the result; any other phone is returned unchanged |
| PhoneNormalizer.CorePhone | api/record.js:37-39 | the core digits are a suffix of the phone, at most four characters shorter and never longer |
| PhoneNormalizer.CorePhoneCases | api/record.js:37-39 | the four cases by leading prefix ("9640", "964" not followed by "0", "0", none): exactly that prefix is removed and nothing else |
| PhoneNormalizer.CountryCodeStrippedOnce | api/record.js:38 | "964964…" loses only the first "964", whatever follows, a "0" included |
| PhoneNormalizer.ZeroBeforeCountryCodeKeepsIt | api/record.js:38-39 | "0964…" keeps its "964" and loses only the zero |
| PhoneNormalizer.OneZeroOnly | api/record.js:39 | "00…" loses only one zero |
| PhoneNormalizer.CoreOfVariantIsSuffix | api/record.js:37-39 | the bare, zero-prefixed, 964-prefixed and 9640-prefixed forms of a number all normalise to a suffix of the bare number |
| PhoneNormalizer.VariantsMatchEachOther | api/record.js:44-46 | whichever of the four forms is scanned, its core digits occur in a stored cell holding any of the four forms of the same number |
| PhoneNormalizer.NormalizeExamples | api/record.js:37-39 | "9647701234567", "07701234567" and "7701234567" all normalise to "7701234567" |
| RecordStore.Matches | api/record.js:24-46 | a non-empty handle matches only a record whose TG cell is exactly that text; a non-empty core matches only a record with a text Phone cell; an empty core matches every record |
| RecordStore.Search | api/record.js:58-70 | a filtered list returns exactly the records that match, no more than the table holds, and the first one returned is the first matching record in table order |
| RecordStore.Patch | api/record.js:85-97 | a PATCH overwrites the written cells and keeps every other cell |
| RecordStore.ApplyUpdate | api/record.js:84-97 | the update changes only the records carrying the id and keeps the table's length |
| RecordStore.ApplyCreate | api/record.js:123-131 | the create keeps every existing record and adds one new record with the written cells |
| RecordStore.ApplyCall | api/record.js:84-131 | a search leaves the table as it is; an update keeps the length and every record's id; a create keeps the table as a prefix and appends one record with the store-assigned id and the written cells |
| RecordStore.ApplyCalls | api/record.js:58-131 | a run of calls that are all searches leaves the table as it is |
| RecordStore.PatchKeepsMatch | api/record.js:91-96 | writing cells other than TG and Phone does not change whether a record matches either filter |
| RecordApi.SelectQuery | api/record.js:24-51 | no search exactly when neither identifier is truthy; a handle gives an exact TG search even when a phone is present; otherwise the phone gives a core-digit search |
| RecordApi.UpdateFields | api/record.js:92-95 | the update writes exactly two cells: Arrived = true and Arrived At = the time |
| RecordApi.CreateFields | api/record.js:109-121 | the create writes exactly Name "New Guest", Arrived true, Arrived At time, and the raw handle in TG with "-" in Phone, or the raw phone in Phone with "-" in TG |
| RecordApi.DisplayName | api/record.js:81 | the reported name is never empty: the stored Name when it is non-empty text, "Unknown" otherwise |
| RecordApi.SearchValue | api/record.js:24-41 | the kept identifier is never empty: the raw handle when one is given, otherwise the raw phone, never its core digits |
| RecordApi.StoreErrorText | api/record.js:72-74 | the error text is "Airtable Error: " followed by the store's message, and nothing else |
| RecordApi.Decide | api/record.js:49-138 | no identifier is a 400 with no call; a search that is not listed is a 500 after the search alone, whose error is the thrown message, or "Airtable Error: " and the store's message when the reply was rejected; a listed search leads to a write with a 200 answer: an update of the first listed record's id with the arrival cells, or a create of the guest cells when nothing is listed |
| RecordApi.HandleCheckInAsWritten | api/record.js:72-143 | the handler as written: status is 200, 400 or 500; 400 exactly when no identifier is given; 200 exactly when the search listed records and the mutation fetch returned a body, whatever that body holds; a thrown search or mutation fetch answers with its message as the error |
| RecordApi.HandleCheckIn | api/record.js:16-143 | status is 200, 400 or 500; 400 exactly when no identifier is given, and then no call is made; 200 exactly when the search listed records and the mutation reply carried no error; a thrown search or mutation fetch answers with its message as the error, and an error in the mutation reply with "Airtable Error: " and its message; at most a search and one write, the search first |
| RecordApi.AsWrittenAgreesWithoutEmbeddedError | api/record.js:85-131 | the as-written and checked handlers give the same calls and response unless the mutation reply carries an error |
| RecordApi.AsWrittenIgnoresMutationBody | api/record.js:85-133 | the source's calls and response are the same for every update or create reply body, with or without an error object |
| RecordApi.AsWrittenReportsRefusedUpdate | api/record.js:85-104 | with an update refused by an error body, the source answers 200 and the checked handler answers 500 |
| RecordApi.TelegramWins | api/record.js:24-33 | with a truthy handle the whole outcome (calls and response) is the same whatever the phone field holds |
| RecordApi.NoIdentifierRejected | api/record.js:49-51 | without a handle or a phone the answer is 400 "No Phone or Telegram data found" and no call is made |
| RecordApi.SearchMeaning | api/record.js:24-47 | the issued search matches a record exactly when its TG cell equals the handle, or else when its Phone cell contains the phone's core digits |
| RecordApi.SearchFailureStopsEarly | api/record.js:62-75 | a thrown or rejected search gives 500 after the search alone: no update or create; a rejected search reports "Airtable Error: " and the store's message |
| RecordApi.MatchUpdatesFirstRecord | api/record.js:78-104 | with matches, only the first record's id is updated, the written cells are exactly Arrived=true and Arrived At=time, and the answer is UPDATE naming the record, or "Unknown" when it has no name |
| RecordApi.UpdateKeepsOtherCells | api/record.js:91-96 | the update leaves every cell other than Arrived and Arrived At as it was |
| RecordApi.NoMatchCreatesGuest | api/record.js:106-138 | with no match, the create writes exactly Name "New Guest", Arrived true and Arrived At time, plus the raw handle in TG with "-" in Phone, or the raw (not normalised) phone in Phone with "-" in TG; the answer is CREATE with the raw identifier |
| RecordApi.SuccessMeansMutationAccepted | api/record.js:85-138 | a 200 from the checked handler means a write was issued and its reply carried no error |
| RecordApi.SearchAgainst | api/record.js:58-78 | a table that always answers lists exactly the records the issued filter selects, in table order |
| RecordApi.CheckInAgainst | api/record.js:58-131 | against a concrete table, a request without an identifier leaves the table as it was; otherwise it issues a search and one write, and the table changes by that write |
| RecordApi.CheckInAgainstBranch | api/record.js:78-106 | against a table that always answers, the request gets 200 (by that assumption), and it is an UPDATE exactly when some record matches the search |
| RecordApi.CheckInAgainstWrites | api/record.js:78-131 | the table afterwards has the first match patched with the arrival cells, or one new guest record appended |
| RecordApi.CreatedRecordMatches | api/record.js:115-121 | the record a CREATE writes is matched by the same request's search |
| RecordApi.PatchedMatchArrived | api/record.js:84-97 | after the update, a record the search matches carries Arrived true and the new time |
| RecordApi.CreatedArrived | api/record.js:109-131 | after the create, a record the search matches carries Arrived true and the new time |
| RecordApi.CheckInLeavesArrivedRecord | api/record.js:78-131 | after any successful check-in, a record the same search matches is marked arrived at that request's time |
| RecordApi.RepeatedCheckInUpdates | api/record.js:78-131 | repeating a check-in with the same identifier gives UPDATE the second time, and afterwards a matching record carries the second time |
| RecordApi.StoredVariantFound | api/record.js:35-46 | when a table holds a guest whose Phone cell is any written form of a number, scanning any written form of that number gives UPDATE |
| RecordApi.CoreFormFindsStoredNumber | api/record.js:44-46 | with a stored Phone "0770123456", phone "770123456" gives UPDATE |
| RecordApi.UnrelatedNumberCreates | api/record.js:44-46 | with a stored Phone "0770123456", phone "999999" gives CREATE |
| AttendanceLog.LogRow | server.js:60 | the appended row has four cells: name, phone, timestamp and status, in that order |
| AttendanceLog.WelcomeText | server.js:69 | the welcome text opens with "Welcome " and the guest's name and ends with the time and a full stop |
| AttendanceLog.HandleRecord | server.js:46-91 | status is 200, 400 or 500; 400 exactly when name or phone is missing or empty, with no call made; 500 exactly when the append threw, after the append alone, with "Failed to record attendance" and the thrown message as details; a valid request whose append returned is answered 200, after the row is appended and one welcome message is sent to the phone, with "Attendance recorded for" the name and the timestamp |
| AttendanceLog.NotificationIsBestEffort | server.js:67-79 | the messaging reply never changes the calls or the response |
| AttendanceLog.MissingFieldsAppendNothing | server.js:49-51 | without a name or a phone the answer is 400 "Name and phone are required" and nothing is appended |
| AttendanceLog.Cell | server.js:133-136 | reading a column gives its value when the row is long enough, and nothing past the end |
| AttendanceLog.ToRecord | server.js:132-137 | columns A, B, C and D become name, phone, timestamp and status; a column the row does not reach is absent |
| AttendanceLog.RecordsOf | server.js:131-137 | one record per row below the header, record i being row i+1; none for an empty sheet |
| AttendanceLog.LastN | server.js:142 | for a positive n, the last n elements, or all of them when there are fewer |
| AttendanceLog.Reverse | server.js:142 | same length, element i is element length-1-i of the input |
| AttendanceLog.MostRecentFirst | server.js:142 | for a positive n, at most n elements; element i is the i-th from the end of the input |
| AttendanceLog.RecentRowsShape | server.js:131-142 | record i of the newest-first list is sheet row length-1-i, which is never row 0 |
| AttendanceLog.RowsOf | server.js:131 | the sheet's values when the read returned some, and no rows when it returned none |
| AttendanceLog.ListRows | server.js:131-142 | the count is the number of rows below the header (0 for an empty sheet); at most 50 records; record i is row length-1-i, which is never row 0 |
| AttendanceLog.HandleList | server.js:124-150 | 200 exactly when the sheet read returned; a thrown read gives 500 "Failed to fetch records" with its message; a sheet with no values lists nothing and counts 0; any other returned sheet gets the listing of its rows, with the count, the fifty-record limit and the newest-first order of `ListRows` |
| AttendanceLog.HeaderNeverListed | server.js:132 | every listed record comes from a row at index 1 or later |
| AttendanceLog.StoredRow | server.js:55-62 | an appended row is kept cell for cell, with an absent cell read back as "" |
| AttendanceLog.RecordThenList | server.js:55-142 | after a successful log below an existing header, the next listing counts one more row and shows the new entry first, with the request's name and phone and, when supplied, its timestamp and status |
| AttendanceLog.FirstRowBecomesHeader | server.js:132 | on a sheet with no rows, the first logged row becomes the header and is not listed |

## Findings

| source | as written | input that shows it | evidently intended | confidence | as-written member | corrected member |
|---|---|---|---|---|---|---|
| api/record.js:85-97 | the reply to the update (and to the create at 124-131) is awaited but never read; only a fetch that throws reaches the 500 path | the search lists one record with TG "@alice"; the PATCH answers with an `error` object (for example an unknown field name); the handler still answers 200 "Checked in" though nothing was written | check the mutation reply for an `error` object the way the search reply is checked, and answer 500 | not executed | RecordApi.AsWrittenReportsRefusedUpdate | RecordApi.SuccessMeansMutationAccepted |

The rest of the model uses the checked handler `RecordApi.HandleCheckIn`. `RecordApi.AsWrittenAgreesWithoutEmbeddedError` shows the two differ only on such replies.

## Left out

- HTTP plumbing is transport only and is not modelled: CORS headers, the OPTIONS preflight, Express routing, `app.listen`, and the health-check endpoint.
- The `POST /whatsapp` endpoint (server.js:95-121) is not modelled. It forwards a message to the messaging client and has no decision logic beyond requiring `to` and `message`.
- Airtable is reached through `fetch`, with URLs, tokens and `encodeURIComponent`. These are replaced by the abstract replies `SearchReply` and `MutationReply`.
- The filter-formula language is not modelled, only its meaning: exact equality on TG and containment in Phone. A handle or phone containing a quote would break the formula text; here it is simply compared.
- Containment uses plain string containment, under which the empty string occurs everywhere. So a phone of "964", "0" or "9640" (empty core) matches every record. How Airtable's SEARCH treats an empty needle is not modelled beyond that.
- A blank or non-text cell is read as "" by the filters. A Name cell that is not text reports as "Unknown", whereas JavaScript would report a truthy non-text value as is.
- A search reply with no `error` and no `records` is modelled as an empty list; the source takes the CREATE branch then too.
- When the store's `error` has no `message`, the source produces the text "Airtable Error: undefined". The model always carries a message string.
- Request fields are modelled as optional strings. Non-string JSON values (numbers, objects) and their truthiness are not modelled.
- The record id that a create is given is a parameter (`newId`), because the store assigns it.
- Clock reading and locale formatting are opaque string parameters: the `Arrived At` time string, and the `toLocaleTimeString` text in the welcome message.
- The Google Sheets client, its credentials and its USER_ENTERED value parsing are not modelled, nor is its trimming of trailing empty cells. `AttendanceLog.StoredRow` assumes the sheet keeps the strings as sent.
- The Twilio client and credential loading are not modelled; the messaging reply is a parameter.
- Console logging is not modelled.
- RecordApi.CheckInAgainst, and the lemmas built on it (`CheckInAgainstBranch`, `CheckInAgainstWrites`, `CheckInLeavesArrivedRecord`, `RepeatedCheckInUpdates`, `StoredVariantFound`, `CoreFormFindsStoredNumber`, `UnrelatedNumberCreates`), run against a table that always answers. The search is listed and the write is accepted, so their 200 holds by that assumption. Failing replies are covered only by the contracts of `HandleCheckIn` and `Decide` and by `SearchFailureStopsEarly`.
- A request with no JSON body at all is transport. The source destructures `req.body` before its try block (api/record.js:17), so such a request throws before the 400 check. The model only sees the body's fields, and treats a missing body as a request with no handle and no phone, which gets the 400.
- The order in which the table lists matches is not modelled as something the source controls. The list request passes no sort and no view (api/record.js:58-62). `RecordStore.Search` returns matches in table order, with creates appended at the end, so "the first match" is the oldest matching record. Airtable's default order without a view is an assumption here.
- AttendanceLog.LastN and AttendanceLog.MostRecentFirst require a positive n. JavaScript's `slice(-0)` returns the whole array, but the server only ever passes 50.
- AttendanceLog.RecordThenList: its phone clause holds for the sheet of `StoredRow`. The real append parses values as if typed by a user (USER_ENTERED, server.js:58), so a phone such as "0770…" would be read back as a number without its leading zero.
- Concurrent requests are not modelled. Each request runs alone and in sequence, so two simultaneous check-ins that both create a record are outside the model.
