# Referral, case and progress-note workflow

This project models the core of a workforce-support service in Dafny. A
coordinator raises a *referral* for an employee. A *case* is opened for the
employee, possibly converting the referral. The work on the case is recorded
as *progress notes*. A KPI read then summarises the caller's tenant. The
model follows two versions of the same rules:

- The Python server (`app/main.py`). It validates a JSON body and checks that
  the employee, referral or case belongs to the caller's tenant. It then
  inserts a row, and for a case it may update the referral with a
  first-write-wins `COALESCE`.
- The three Next.js `POST` routes for referrals, cases and progress notes.
  They re-implement the checks on a store that can fail, and they differ from
  the Python server in ways the model states as lemmas.

Structure:

- `domain.dfy` (`Domain`): the data model. It holds body values (`Val` and
  `Body`), the caller `Identity`, handler `Outcome`s with their status codes,
  the four row types, and `Tables`.
- `vocabulary.dfy`, `text.dfy`, `iso_dates.dfy`, `auth.dfy`: the pure helpers.
  These are the enum sets, Python's `replace`/`strip`/`join`, the date and
  timestamp checks, and the bearer-header parser. The enum sets are those of
  app/main.py:20-24. The Next.js routes list the same words
  (src/app/api/referrals/route.ts:5-7, src/app/api/progress-notes/route.ts:5-6),
  so one set serves both.
- `validation.dfy` (`Validation`) and `workflow.dfy` (`Workflow`): the guard
  chains of the three Python handlers. Each is a pure step function
  `Tables -> Step(out, next)`. The module also holds the cross-table
  invariant `Consistent` and lemmas about the chains.
- `database.dfy` (`Database.Store`): the store as a class with one map field
  per table. Its methods are the handlers written as imperative guard
  chains. Each method is proved equal to its step function, and each keeps
  `Consistent`.
- `kpi.dfy` (`Kpi`): the KPI read.
- `js_body.dfy`, `referrals_route.dfy`, `cases_route.dfy`,
  `progress_notes_route.dfy`: the Next.js routes. Each has a pure `PostStep`
  and an imperative `Post` on the same store, plus the lemmas that compare
  the route with the Python handler.
- `scenarios.dfy` (`Scenarios`): the two end-to-end tests, replayed on the
  store.

Fresh ids and the current time are parameters, and ids must be fresh. Some
parts of the source cannot be seen or fall outside the model; these are
parameters too:

- `fromIsoFormat` stands for Python's `datetime.fromisoformat`.
- `dateParses` stands for JavaScript's `Date.parse`, true when the text
  parses to a number. `Date.parse(null)` parses the text `null`, which is no
  date, so the route's timestamp check refuses a null (`IsIsoDateTimeText`).
- The store failures of the Next.js routes are `Option<string>` or `bool`
  parameters.

## Model

| member | source | states |
|---|---|---|
| Domain.Outcome.StatusCode | src/app/api/referrals/route.ts:16-54 | a route sends 200 exactly for a success, 400 exactly for a bad request, 404 exactly for not found, 403 exactly for a cross-tenant refusal and 500 exactly for a store failure |
| Domain.Outcome.PythonStatus | app/main.py:195-398 | the Python server sends no status exactly for an `Internal` outcome (its exception escapes `do_POST`); every other outcome gets the same status as in the routes, never 500 |
| Auth.ParseAuth | app/main.py:117-121 | an identity exactly when the header is present, starts with `Bearer ` and its stripped remainder is a key of the token table; the identity is that entry |
| Auth.ParseAuthPadded | app/main.py:117-121 | whitespace around the token is ignored; the token itself must match a table key exactly |
| Auth.ParseAuthTenant | app/main.py:14-18 | every identity the parser yields belongs to `tenant-acme` |
| Auth.ParseAuthTableTokens | app/main.py:14-18 | each token of the table, after `Bearer `, resolves to its own identity |
| Auth.ParseAuthOfToken | app/main.py:117-121 | a header made of the scheme word and a token with no surrounding whitespace resolves as the table says |
| Auth.ParseAuthDoubledScheme | app/main.py:120 | only the first `Bearer ` is removed, so `Bearer Bearer t` yields no identity |
| Auth.ParseAuthLowerCaseScheme | app/main.py:118 | the scheme word is case-sensitive: `bearer ...` yields no identity |
| Auth.NoTokenStartsWithScheme | app/main.py:14-18 | no key of the token table starts with `B` |
| Auth.SchemeTokenUnpadded | app/main.py:120 | `Bearer ` followed by a token that does not end in whitespace is left alone by stripping |
| Text.ReplaceFirstSplices | app/main.py:120 | the replacement splices `rep` over the first occurrence of `pat` and leaves a string without one unchanged |
| Text.FirstOccurrence | app/main.py:120 | the position found is an occurrence of the pattern and no earlier position is; `|s| + 1` means it occurs nowhere |
| Text.ReplaceFirstOfPrefix | app/main.py:120 | replacing the first occurrence of a prefix by nothing drops exactly that prefix |
| Text.ReplaceFirstAbsent | app/main.py:120 | a string without the pattern is left unchanged by the replacement |
| Text.StripLeft | app/main.py:120 | the result is a suffix of the input, all dropped characters are whitespace, and it does not start with whitespace |
| Text.StripRight | app/main.py:120 | the result is a prefix of the input, all dropped characters are whitespace, and it does not end with whitespace |
| Text.StripIsSlice | app/main.py:120 | the stripped text is the slice of the input after the leading whitespace; only whitespace follows it; it neither starts nor ends with whitespace |
| Text.JoinCountsSeparators | app/main.py:264 | joining `n` comma-free codes puts exactly `n - 1` commas into the text |
| Text.Join | app/main.py:264 | the joined text begins with the first code |
| Text.StripPadded | app/main.py:120 | stripping `a + w + b` with all-space `a` and `b` gives back `w` |
| Text.Split | app/main.py:264 | the reference inverse of the join: a split always has at least one piece |
| Text.SplitJoin | app/main.py:264 | splitting the comma-join of a non-empty list of comma-free codes gives the list back |
| Text.JoinCollision | app/main.py:264 | two different code lists, `["a,b"]` and `["a","b"]`, are stored as the same text |
| Vocabulary.VocabularySizes | app/main.py:20-24 | the five vocabularies hold 8 meeting locations, 5 note types, 4 risk levels, 5 source types and 2 intake paths, all distinct |
| IsoDates.MatchesDatePattern | src/app/api/progress-notes/route.ts:8-10 | true exactly for ten characters with `-` at positions 4 and 7 and an ASCII digit everywhere else |
| IsoDates.IsoDateIsCanonical | app/main.py:101-106 | an accepted date has the date shape, is the zero-padded text of its own year, month and day, and has year 1 to 9999, month 1 to 12 and day 1 to 31 |
| IsoDates.IsIsoDateTime | app/main.py:109-115 | on a text without `Z` the check is exactly the timestamp parser on the text itself |
| IsoDates.MonthThirteenRefused | src/app/api/progress-notes/route.ts:8-10 | `2026-13-45` has the date shape and is refused by the calendar check |
| IsoDates.NoLeapDayRefused | app/main.py:101-106 | `2023-02-29` has the date shape and is refused, since 2023 is no leap year |
| IsoDates.DateTextReadsBack | app/main.py:101-106 | the `YYYY-MM-DD` text of a date has the date shape and reads back as that year, month and day |
| IsoDates.PatternIsDateText | app/main.py:101-106 | every string of the date shape is the text of the date it reads as |
| IsoDates.IsoDateIffCalendarDate | app/main.py:101-106 | the date check accepts a date text exactly when it names a day of the Gregorian calendar from year 1 to 9999 |
| IsoDates.ValueOfPad | app/main.py:101-106 | zero-padding `n` to `w` digits gives `w` digits that read back as `n` |
| IsoDates.PadOfValue | app/main.py:101-106 | a digit string is the zero-padded text of its value |
| IsoDates.DigitFields | app/main.py:101-106 | year, month and day of a date-shaped text are the decimal values of its digit positions |
| IsoDates.PatternWeakerThanCalendar | src/app/api/progress-notes/route.ts:8-10 | everything the calendar check accepts has the date shape; `2026-13-45` and `2023-02-29` have the shape but are refused |
| IsoDates.ScenarioDateAccepted | tests/test_vertical_slice.py:69 | `2026-02-01` passes both date checks |
| IsoDates.LeapDayAccepted | app/main.py:101-106 | `2024-02-29` is accepted |
| IsoDates.MonthFirstRejected | tests/test_vertical_slice.py:134 | `02-01-2026` fails both date checks |
| IsoDates.NormalizeZ | app/main.py:110 | no `Z` is left after the replacement |
| IsoDates.NormalizeZAppend | app/main.py:110 | the replacement works piece by piece over a concatenation |
| IsoDates.NormalizeZWithoutZ | app/main.py:110 | a text without `Z` is unchanged |
| IsoDates.NormalizeZIdempotent | app/main.py:110 | normalising twice is normalising once |
| IsoDates.TrailingZIsZeroOffset | app/main.py:109-115 | a trailing `Z` and a trailing `+00:00` normalise alike |
| IsoDates.TrailingZNormalised | app/main.py:110 | `x + "Z"` with `Z`-free `x` reaches the parser as `x + "+00:00"` |
| IsoDates.ZuluAcceptedAsZeroOffset | app/main.py:109-115 | the timestamp check accepts `x + "Z"` exactly when it accepts `x + "+00:00"` |
| Validation.ReferralBodyError | app/main.py:225-234 | no error exactly when the five keys are present, the three enums are in their vocabularies and the codes are a non-empty list; checked in that order: a missing key is `Missing required fields`, then a bad enum is its own 400, then bad codes are their own 400 |
| Validation.MissingKeyFirst | app/main.py:225-228 | a missing required key is reported as missing fields, whatever else is wrong |
| Validation.EmptyCodesRefused | app/main.py:232-234 | an empty code list is refused with its own message |
| Validation.NoteBodyError | app/main.py:336-353 | no error exactly when the seven keys, note type, calendar date, timestamp, location and status (default draft) are valid; checked in that order, each failure is its own 400, except that a null date or a null timestamp at its position is `Internal` with the message of the exception Python raises; `Internal` happens for nothing else |
| Validation.NoteStatusDefault | app/main.py:351 | an absent status is a valid draft; a null status is refused |
| Workflow.EmployeeCheck | app/main.py:238-247 | no error exactly for an employee of the caller's tenant; 404 exactly when unknown (null included); 403 exactly for another tenant's employee |
| Workflow.ReferralLinkCheck | app/main.py:295-310 | no error exactly for a referral of the caller's tenant about the same employee; 404, 403 and 400 each exactly on their condition |
| Workflow.CaseCheck | app/main.py:357-370 | no error exactly for a case of the caller's tenant whose employee is the note's; 404 exactly when unknown; 403 exactly for another tenant's case; the `Employee/case mismatch` 400 exactly for a tenant case of another employee |
| Workflow.Convert | app/main.py:311-314 | status `converted_to_case`; an existing first response time is kept, a missing one becomes now |
| Workflow.ConvertTwiceKeepsFirst | app/main.py:312 | converting twice equals converting once (first write wins) |
| Workflow.ReferralRow | app/main.py:249-269 | a stored referral's intake path, source type and risk level lie in their vocabularies, and a non-empty stored code text comes from at least one code |
| Workflow.SubmitReferral | app/main.py:224-273 | success exactly when the body passes and the employee is the tenant's; validation errors first, then the employee check's 404 (unknown or null) or 403; a failure changes nothing; on success exactly one fresh row is added with the caller's tenant and user, the body's employee, intake path, source type and risk level, `submitted`, no first response, the codes comma-joined, the coordinator as sent (null when absent), submitted at now, and the answer `(id, submitted)` |
| Workflow.CaseLinkError | app/main.py:293-310 | an absent or falsy link is not looked up; a truthy link answers exactly the referral check's 404, 403 or 400, and passes only for a referral of the tenant about the same employee |
| Workflow.CaseRow | app/main.py:316-320 | the stored link is present exactly when the body sends a string for it, and a truthy link is stored as a non-empty id |
| Workflow.OpenCase | app/main.py:275-324 | missing keys first, then the employee check, then the link check's answer; a null coordinator after passing checks is `Internal`; success exactly when all of these pass; a failure changes nothing; success adds exactly one `open` case of the caller's tenant with the body's employee and coordinator, the link as sent and opened at now; a truthy link converts only that referral, otherwise referrals are unchanged |
| Workflow.NoteRow | app/main.py:372-394 | a stored note's type, location and status lie in their vocabularies, its start date passes the calendar check and its interaction time the timestamp check |
| Workflow.RecordNote | app/main.py:326-398 | body errors first, then the case check's 404, 403 or mismatch 400; success exactly when the body is valid and the case check passes; a failure changes nothing; success adds exactly one note by the caller, of the caller's tenant, with the body's case, employee, type, start date, interaction time, location and summary, the codes comma-joined and the resolved status, and answers `(id, status)` |
| Workflow.CaseInsertKeepsConsistent | app/main.py:311-320 | inserting a good case while referrals are converted keeps the invariant |
| Workflow.CasesSurviveReferralChange | app/main.py:311-314 | case links stay good when referrals are added or converted |
| Workflow.SubmitReferralKeepsConsistent | app/main.py:236-272 | a referral submission keeps the invariant |
| Workflow.OpenCaseKeepsConsistent | app/main.py:280-323 | opening a case keeps the invariant (a linked case's referral is converted and about the same employee) |
| Workflow.RecordNoteKeepsConsistent | app/main.py:355-397 | recording a note keeps the invariant |
| Workflow.SecondConversionKeepsFirstResponse | app/main.py:311-314 | a second case from the same referral succeeds and leaves the referral as the first conversion wrote it |
| Workflow.ReferralValidationIgnoresStore | app/main.py:225-236 | a referral body that fails validation gets the same answer on every store |
| Workflow.NoteValidationIgnoresStore | app/main.py:336-356 | a note body that fails validation gets the same answer on every store |
| Workflow.StepsStayInTenant | app/main.py:224-398 | each handler writes only rows of the caller's tenant, never changes employees and never removes a row |
| Workflow.SubmitStaysInTenant | app/main.py:249-269 | the referral handler writes only rows of the caller's tenant |
| Workflow.OpenCaseStaysInTenant | app/main.py:311-320 | the case handler writes only rows of the caller's tenant |
| Workflow.RecordNoteStaysInTenant | app/main.py:372-394 | the note handler writes only rows of the caller's tenant |
| Workflow.ForeignEmployeeForbidden | app/main.py:244-247 | a valid referral for another tenant's employee is a 403, with nothing stored |
| Workflow.StoredCodesSplitBack | app/main.py:264 | the stored support categories split back into the list sent when no code holds a comma |
| Workflow.NullCoordinatorRollsBack | app/main.py:316-321 | a null coordinator passes the checks, fails at the insert, and leaves every table as it was |
| Database.Store.SubmitReferral | app/main.py:236-272 | the answer and new tables are those of `Workflow.SubmitReferral` on the old tables; the invariant is kept |
| Database.Store.OpenCase | app/main.py:280-323 | the answer and new tables are those of `Workflow.OpenCase` on the old tables; the invariant is kept |
| Database.Store.RecordNote | app/main.py:355-397 | the answer and new tables are those of `Workflow.RecordNote` on the old tables; the invariant is kept |
| Kpi.Rate | app/main.py:187-188 | a ratio in [0, 1], zero for a zero denominator, and otherwise times the denominator gives the numerator |
| Kpi.Compute | app/main.py:162-191 | each count is the number of the tenant's rows of its kind (cases with status open or active_support); both rates lie in [0, 1], are 0 on an empty denominator and are responded/assigned and final/total |
| Kpi.SubsetCard | app/main.py:172-179 | a subset is no larger, so responded ≤ assigned and final ≤ total |
| Kpi.ReportIsTenantLocal | app/main.py:165-179 | two stores with the same rows for the tenant give the same report |
| Kpi.SubmitCountsOnce | app/main.py:166-167 | an accepted referral adds one to the intake volume |
| Kpi.OpenCaseCountsOnce | app/main.py:168-169 | an opened case adds one to the open-case count |
| Kpi.RecordNoteCountsOnce | app/main.py:170-179 | a recorded note adds one to the engagement count, and one to the final count exactly when it is final |
| JsBody.HasAllKeys | src/app/api/referrals/route.ts:14-17 | the key loop answers true exactly when every required key is present |
| JsBody.AllKeysIsSubset | src/app/api/referrals/route.ts:14-17 | the loop's answer is the subset test the Python handler makes |
| JsBody.OrElse | src/app/api/referrals/route.ts:49 | `??` gives the value for a string and the fallback for null |
| ReferralsRoute.RequiredAreTheFields | src/app/api/referrals/route.ts:14 | the route's required keys are the Python handler's five fields |
| ReferralsRoute.Row | src/app/api/referrals/route.ts:39-51 | the inserted row is the Python row with the codes kept as the array |
| ReferralsRoute.PostStep | src/app/api/referrals/route.ts:14-54 | body errors first; then an employee lookup error is a 500, then the employee check's 404 or 403, then an insert error is a 500; success exactly when none of these happens; a failure changes nothing; success adds one `submitted` row of the caller's tenant and user with the body's employee, intake path, source type and risk level, no first response, the codes as the array, the coordinator as sent (null when absent) and submitted at now; answers `(id, submitted)` |
| ReferralsRoute.Post | src/app/api/referrals/route.ts:14-54 | the answer and new tables are those of `PostStep` on the old tables |
| ReferralsRoute.AgreesWithMain | src/app/api/referrals/route.ts:14-54 | on a store that does not fail, the route answers as the Python handler and stores the same row up to the codes' representation |
| CasesRoute.Overwrite | src/app/api/cases/route.ts:26-29 | status `converted_to_case` and first response now, nothing else changed |
| CasesRoute.LinkError | src/app/api/cases/route.ts:20-24 | a falsy link is not looked up; a truthy link answers exactly the referral check's 404, 403 or 400, and passes only for a referral of the tenant about the same employee |
| CasesRoute.Converted | src/app/api/cases/route.ts:26-29 | the update keeps the referral keys; only a truthy link's referral changes, and it is overwritten unless the update fails |
| CasesRoute.Row | src/app/api/cases/route.ts:32-41 | the stored link is null exactly when the body sends no string for it, and a truthy link is stored as a non-empty id |
| CasesRoute.PostStep | src/app/api/cases/route.ts:10-44 | a falsy employee or coordinator is a 400 with nothing changed; then the employee check's 404 or 403 and the link check's answer, with nothing changed; then an insert error is a 500; success exactly when all pass and the insert succeeds; employees and notes never change; after the checks, referrals are unchanged or the linked one overwritten; success adds one `open` case of the caller's tenant with the body's employee and coordinator, the link as sent (null when absent) and opened at now |
| CasesRoute.Post | src/app/api/cases/route.ts:10-44 | the answer and new tables are those of `PostStep` on the old tables |
| CasesRoute.ReconversionOverwrites | src/app/api/cases/route.ts:26-29 | a second route conversion replaces the first response time, where the Python one keeps it |
| CasesRoute.AnsweredReferralDiffers | src/app/api/cases/route.ts:26-29 | on an answered referral, the route moves the first response time to now and the Python handler leaves it |
| CasesRoute.EmptyEmployeeIsMissing | src/app/api/cases/route.ts:10-12 | an empty employee id is a 400 in the route and a 404 in the Python handler |
| CasesRoute.InsertFailureKeepsConversion | src/app/api/cases/route.ts:26-43 | a failed case insert answers 500 but leaves the referral converted |
| CasesRoute.UpdateFailureBreaksConsistency | src/app/api/cases/route.ts:26-29 | an unchecked failed update followed by a successful insert breaks the invariant |
| CasesRoute.PostKeepsConsistent | src/app/api/cases/route.ts:14-44 | without store failures the route keeps the invariant |
| CasesRoute.OverwriteKeepsReferrals | src/app/api/cases/route.ts:26-29 | overwriting one referral keeps every referral's tenant and employee, keeps converted ones converted, and keeps every referral well formed |
| CasesRoute.AgreesWithMainOnFirstConversion | src/app/api/cases/route.ts:10-44 | with truthy fields, no store failure and an unanswered referral, the route does exactly what the Python handler does |
| ProgressNotesRoute.RequiredAreTheFields | src/app/api/progress-notes/route.ts:21 | the route's required keys are the Python handler's seven fields |
| ProgressNotesRoute.JsText | src/app/api/progress-notes/route.ts:8-14 | a string is seen as itself; null is seen as the text `null` |
| ProgressNotesRoute.NullIsNoDate | src/app/api/progress-notes/route.ts:8-10 | a null date fails the pattern |
| ProgressNotesRoute.IsIsoDateText | src/app/api/progress-notes/route.ts:8-10 | on a string, exactly the date pattern; whatever passes is a string of the pattern that is the text of its own date |
| ProgressNotesRoute.IsIsoDateTimeText | src/app/api/progress-notes/route.ts:12-14 | on a string, exactly `Date.parse`; whatever passes is a string, since `null` reads as text that is no date |
| ProgressNotesRoute.Status | src/app/api/progress-notes/route.ts:51 | the sent status when it is a string, `draft` otherwise |
| ProgressNotesRoute.BodyError | src/app/api/progress-notes/route.ts:21-29 | no error exactly when keys, note type, date pattern, timestamp and location pass; checked in that order, each failure is its own 400 |
| ProgressNotesRoute.PostStep | src/app/api/progress-notes/route.ts:21-56 | body errors first, then the case check's 404, 403 or mismatch 400, then an insert error is a 500, each with nothing changed; success exactly when none of these happens; success adds one note by the caller of the caller's tenant with the body's case, employee, type, start date, interaction time, location and summary, the codes as the array, created at now, and the status answered |
| ProgressNotesRoute.Post | src/app/api/progress-notes/route.ts:16-56 | the answer and new tables are those of `PostStep` on the old tables |
| ProgressNotesRoute.DatePatternOnly | src/app/api/progress-notes/route.ts:8-10 | every Python-accepted date passes the pattern; `2026-13-45` passes only the pattern |
| ProgressNotesRoute.ImpossibleDateSplitsTheChecks | src/app/api/progress-notes/route.ts:27 | a well-shaped non-date passes the route's date check and is refused by the Python one |
| ProgressNotesRoute.StatusNotChecked | src/app/api/progress-notes/route.ts:51-56 | a status outside draft and final is stored and answered by the route and refused by the Python handler |
| ProgressNotesRoute.NullStatusIsDraft | src/app/api/progress-notes/route.ts:51 | a null status becomes draft in the route and is refused by the Python handler |
| ProgressNotesRoute.UncheckedStatusBreaksConsistency | src/app/api/progress-notes/route.ts:51 | a note stored with another status breaks the invariant |
| ProgressNotesRoute.PostKeepsConsistent | src/app/api/progress-notes/route.ts:31-53 | with a draft or final status and no store failure the route keeps the invariant |
| Scenarios.AdminHeader | tests/test_vertical_slice.py:17 | the tests' header resolves to the administrator of `tenant-acme` |
| Scenarios.SliceTimeNormalised | tests/test_vertical_slice.py:70 | the slice's timestamp reaches the parser with `+00:00` |
| Scenarios.SliceNoteValid | tests/test_vertical_slice.py:62-76 | the slice's note passes every Python check |
| Scenarios.ReferralStep | tests/test_vertical_slice.py:41-52 | the slice's referral is accepted as `submitted` and stored as the one row |
| Scenarios.CaseStep | tests/test_vertical_slice.py:53-61 | the slice's case is opened and converts the referral with first response at the opening time |
| Scenarios.NoteStep | tests/test_vertical_slice.py:62-76 | the slice's note is stored as `final` |
| Scenarios.SliceReport | tests/test_vertical_slice.py:77-80 | after the slice, the report counts one referral, one open case and one note, and both rates are 1 |
| Scenarios.VerticalSlice | tests/test_vertical_slice.py:27-80 | the three requests on the seeded store give the report (1, 1, 1, 1.0, 1.0) |
| Scenarios.EmptyCodesStep | tests/test_vertical_slice.py:107-114 | an empty code list is a 400 with nothing stored |
| Scenarios.MissingReferralStep | tests/test_vertical_slice.py:116-121 | a case naming an unknown referral is a 404 with nothing stored |
| Scenarios.UnlinkedCaseStep | tests/test_vertical_slice.py:124-128 | a case without a referral is opened |
| Scenarios.MonthFirstNoteStep | tests/test_vertical_slice.py:130-139 | a month-first start date is a 400 with nothing stored |
| Scenarios.ValidationErrors | tests/test_vertical_slice.py:86-139 | the four requests of the validation test answer 400, 404, 200, 400 |

## Left out

- HTTP transport: routing, `_send`, `_read_json`, the `/health` and `/api/v1/me` branches, Next.js request and response objects. Handlers answer `Outcome` values. `StatusCode` gives the status a route sends, and `PythonStatus` the one the Python server sends.
- Python's uncaught exceptions: `do_POST` (app/main.py:195) catches nothing. So an `Internal` outcome of a Python handler sends no response at all; it is not a 500. These outcomes are a null note date or timestamp (`Validation.NoteBodyError`) and a null case coordinator (`Workflow.NullCoordinatorRollsBack`). The model records the exception's message and leaves the tables unchanged.
- Authentication failures (401): a missing or unknown token is `ParseAuth` returning no identity. The Next.js routes' `catch` that turns a bad token or body into a 401 is not modelled, because the token helper `getAuthContext` is not part of this model.
- Malformed JSON and JSON runtime-type failures: bodies are assumed typed. Single-valued fields hold a string or null, and note codes are a list (`ReferralTyped`, `CaseTyped`, `NoteTyped`).
- Storage engines: the sqlite connection and schema creation, and the Supabase client. The store is four in-memory maps. The Next.js store failures are parameters.
- In the cases and progress-notes routes, a lookup that errors reads as no row (404), because those routes do not look at the error.
- Ids and clocks: `uuid4`, `randomUUID`, `utcnow` and `new Date()` are parameters. The cases handlers read the clock twice; the model uses one `now` for both reads.
- Concurrency (`ThreadingHTTPServer`): operations are sequential steps.
- Rounding: `Kpi.Compute` gives exact rates. `round(x, 4)` and `toFixed(4)` are not modelled.
- Timestamp grammars: `datetime.fromisoformat` and `Date.parse` are function parameters. Only the `Z` to `+00:00` normalisation is modelled. `date.fromisoformat` is the strict `YYYY-MM-DD` calendar-date check, with years 1 to 9999.
- The development seed routes are used only to build the scenarios' initial store (`Scenarios.Seeded`). The seeded users table is left out, because no handler reads it.
- `src/app/api/kpis/route.ts`, `src/app/page.tsx` and `scripts/perf_smoke.py` are not part of this model.
- Kpi.Compute: states the exact rates, not the values rounded to four places that the server sends.

Points where the code and the written design differ (the model follows the code):

- The design requires an employee id and a coordinator for a case. The Python handler checks only that the keys are present. A null coordinator passes every check and then makes the insert fail (`Workflow.NullCoordinatorRollsBack`).
- An empty-string `referral_id` is not looked up (it is falsy), but the case row stores it as sent. The invariant therefore counts a case as linked only when its referral id is non-empty.
- The design says codes must be comma-free or escaped. Neither handler enforces this, so a code holding a comma is stored ambiguously (`Text.JoinCollision`).
- The design makes conversion and case creation atomic. That holds in the Python handler. The cases route runs the update and the insert separately and ignores the update's result (`CasesRoute.InsertFailureKeepsConversion`, `CasesRoute.UpdateFailureBreaksConsistency`).
- The design calls the note status optional with default draft. In the Python handler a null status is refused, while the progress-notes route reads it as draft (`ProgressNotesRoute.NullStatusIsDraft`).
