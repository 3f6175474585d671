# Courier tracking app: the tables and the form checks, in Dafny

This project models the core of a courier/shipment tracking app. The app has
a Convex backend and a React Native client. The model covers:

- **The couriers table** (`Couriers.CourierStore`). Courier records live in
  a map from document id to record. The table supports `create`, `update`
  (a partial patch built by the `filteredUpdates` loop), `updateStatus` and
  `remove`. Its queries are `list`, `getById`, `getStats`, `search` and
  `filterByStatus`. `generateTrackingId` is modelled too, with the clock and
  the random text passed in as parameters.
- **The users table** (`Auth.UserRegistry`): `register`, `login` and
  `getUser`, plus `listAgents` (`Users`). `register` keeps emails unique.
- **The branches table** (`Branches.BranchTable`): `list`, `create`,
  `update` and `remove`.
- **The record shapes and enumerations** of the schema (`Schema`):
  - courier status: pending, picked_up, in_transit, out_for_delivery,
    delivered, cancelled;
  - payment status: paid, unpaid, pending;
  - role: admin, agent, customer;
  - the courier, user and log records.
- **The client checks**:
  - the sign-up form's `handleRegister`, a fixed chain of five checks
    followed by the trimmed payload (`RegisterForm`);
  - the add-courier screen's `updateField`, `validate` and `handleSubmit`
    (`AddCourier`);
  - the courier list's `filteredCouriers`, a status stage and then a search
    stage (`CourierList`).

Two helper modules hold the shared pieces:

- `JsString`: the JavaScript string operations the code relies on.
  - `trim` and `\s` use ECMAScript's exact WhiteSpace and LineTerminator
    code points.
  - `replace(/\D/g, '')`, `toLowerCase`/`toUpperCase`, `includes`,
    `substring` and `toString(36)`.
- `Store`: the shared pieces of every table.
  - Documents, and the ascending and descending `collect()` orders.
  - A generic filter, with proofs that it keeps order and counts.
  - The `filteredUpdates` loop shared by both `update` mutations.

A table is a class with a `rows` map and a `nextId` counter. Mutations are
methods whose `ensures` give the whole new table in terms of the old one.
Queries are functions that read the table and change nothing. Ids are handed
out in increasing order, so id order stands for `_creationTime` order.

## Model

| member | source | states |
|---|---|---|
| JsString.IsSpace | app/auth/register.tsx:30-36 | the white-space class of `\s` and of what `trim` strips (the ECMAScript WhiteSpace and LineTerminator code points, U+0009-U+000D, U+0020, U+00A0, U+1680, U+2000-U+200A, U+2028, U+2029, U+202F, U+205F, U+3000, U+FEFF); `JsString.Trim` and `RegisterForm.EmailRegexShape` state what follows from it |
| JsString.TrimEnd | app/auth/register.tsx:30 | `trimEnd()` returns a prefix of the input, drops only white space, and does not end with white space |
| JsString.Trim | app/auth/register.tsx:30 | `trim()` leaves no white space at either end, never lengthens, and is empty exactly when the input is all white space |
| JsString.LeadingSpace | app/auth/register.tsx:30 | the white space `trimStart()` drops: a prefix of white space followed by a non-space character or the end |
| JsString.TrimIsTrimStartThenEnd | app/auth/register.tsx:30 | `trim()` is exactly the leading white space dropped and then `trimEnd()` applied |
| JsString.TrimIdempotent | app/couriers/add.tsx:51-55 | trimming a trimmed string changes nothing |
| JsString.Blank | app/couriers/add.tsx:35-39 | `!x.trim()`, also at register.tsx:30 and index.tsx:46; `JsString.Trim` proves it holds exactly when every character is white space |
| JsString.IsDigit | app/auth/register.tsx:47 | `\d`, the complement of the `\D` the phone check removes; `JsString.Digits` states what is kept with it |
| JsString.Digits | app/auth/register.tsx:47 | `replace(/\D/g, '')` keeps each ASCII digit of the input as often as it occurs and drops every other character |
| JsString.ToLower | convex/couriers.ts:56 | `toLowerCase()` keeps the length, mapping ASCII capitals to small letters; what the search finds with it is stated by `Couriers.SearchIn` |
| JsString.ToUpper | convex/couriers.ts:7-8 | `toUpperCase()` keeps the length; `UpperBase36` and `ParseBase36Upper` state what it gives on base-36 text |
| JsString.ToUpperAppend | convex/couriers.ts:7-9 | upper-casing distributes over concatenation |
| JsString.Includes | convex/couriers.ts:60-62 | `s.includes(t)`: `t` occurs at some position of `s`; what the search keeps with it is stated by `Couriers.SearchIn` |
| JsString.IncludesEmpty | convex/couriers.ts:56-63 | every string includes the empty string |
| JsString.Substring | convex/couriers.ts:8 | `substring(a, b)` within bounds is the slice `s[a..b]`; never longer than `s` or than the distance between `a` and `b` |
| JsString.Base36 | convex/couriers.ts:7 | `toString(36)` is non-empty, uses only 0-9 and a-z, is "0" for zero and otherwise has no leading zero |
| JsString.UpperBase36 | convex/couriers.ts:7 | upper-cased base-36 text is non-empty, holds only 0-9 and A-Z, and starts with a zero only when it is "0" |
| JsString.ParseBase36Upper | convex/couriers.ts:7 | the upper-cased base-36 text of the clock reads back as the clock |
| Store.Ascending | convex/couriers.ts:35 | `collect()` holds exactly the table's documents, ids strictly increasing |
| Store.Descending | convex/couriers.ts:16-19 | `order("desc").collect()` holds exactly the table's documents, ids strictly decreasing |
| Store.AscendingLength | convex/couriers.ts:38 | the collected list has one entry per stored document |
| Store.Filter | convex/couriers.ts:58-63 | `Array.filter` keeps exactly the elements meeting the predicate |
| Store.FilterAppend | convex/couriers.ts:37-45 | filtering a concatenation is the concatenation of the filtered parts |
| Store.FilterLength | convex/couriers.ts:37-45 | the filtered list has one element per input position whose element passes |
| Store.AscendingFilterCount | convex/couriers.ts:37-45 | filtering the collected table keeps one document per stored id whose document passes |
| Store.FilterKeepsOrder | convex/couriers.ts:58-63 | the filtered list is a subsequence of the input |
| Store.FilterCounts | convex/couriers.ts:58-63 | each kept element occurs as often as in the input, each dropped one not at all |
| Store.FilterAgrees | app/couriers/index.tsx:41-53 | predicates that agree on the list filter it alike |
| Store.FilterTwice | app/couriers/index.tsx:41-53 | two filters in a row equal one filter by the conjunction |
| Store.SubsequenceIncreasing | convex/users.ts:7-10 | a subsequence of a list in increasing id order is in increasing id order |
| Store.Defined | convex/couriers.ts:136-141 | `filteredUpdates` holds a key exactly when some entry for it is not `undefined` |
| Store.DefinedEntry | convex/couriers.ts:137-140 | with distinct keys, a defined argument's value is kept and an undefined one's key is absent |
| Store.FilterDefined | convex/couriers.ts:136-141 | the `for` loop over `Object.entries(updates)` builds exactly `Defined(entries)` |
| Schema.ParseStatus | convex/schema.ts:12-19 | a status string parses only to the status with that name, and every other string is refused |
| Schema.ParsePaymentStatus | convex/schema.ts:27 | the payment status is exactly one of paid, unpaid, pending |
| Schema.ParseRole | convex/schema.ts:43 | the role is exactly one of admin, agent, customer |
| Schema.NamesRoundTrip | convex/schema.ts:12-43 | every status, payment status and role name parses back to itself |
| Couriers.TrackingId | convex/couriers.ts:5-10 | the id is "CRR-", upper-case base-36 text without a leading zero that reads back as the clock, "-", and characters 2 to 5 of the random text upper-cased (at most four); its timestamp part decodes to the clock |
| Couriers.DistinctTimesDistinctIds | convex/couriers.ts:7 | ids minted at different milliseconds differ |
| Couriers.SameMillisecondCollision | convex/couriers.ts:5-9 | within one millisecond any two random texts that agree in characters 2 to 5 give the same id; nothing checks for this |
| Couriers.CollidingRandomTexts | convex/couriers.ts:5-9 | two different random texts that give the same id in the same millisecond |
| Couriers.ApplyPatch | convex/couriers.ts:143-146 | `patch` with `...filteredUpdates` and a fresh `updatedAt`; its effect on every field is stated by `Couriers.Updated` |
| Couriers.UpdateEntries | convex/couriers.ts:133-137 | `update`'s seven optional arguments form seven entries with distinct keys |
| Couriers.Updated | convex/couriers.ts:133-146 | each defined argument replaces its field and each undefined one leaves it; `updatedAt` is the clock; tracking id, status, billing, assignment and `createdAt` are kept |
| Couriers.WithStatus | convex/couriers.ts:79-83 | exactly the couriers in the given status |
| Couriers.StatsOf | convex/couriers.ts:35-45 | `total` is the number of couriers, each status counter is the number of list positions holding a courier in that status, and the six counters add up to `total` |
| Couriers.CountWithStatus | convex/couriers.ts:37-42 | filtering by a status keeps one courier per position holding that status |
| Couriers.StoredWithStatus | convex/couriers.ts:35-42 | filtering the collected table by a status keeps one courier per stored id in that status |
| Couriers.StatusCountsSum | convex/couriers.ts:37-45 | the six per-status filters partition the list |
| Couriers.Matches | convex/couriers.ts:58-63 | the search condition: the lower-cased tracking id or receiver name includes the term, or the phone does; the result it selects is stated by `Couriers.SearchIn` |
| Couriers.MatchesTerm | convex/couriers.ts:58-63 | the search callback over documents, shared by `search` and the list screen's search stage; stated by `Couriers.SearchIn` and `CourierList.FilteredCouriers` |
| Couriers.SearchIn | convex/couriers.ts:55-63 | exactly the couriers whose lower-cased tracking id or receiver name, or whose phone, contains the lower-cased term |
| Couriers.SearchEmptyTerm | convex/couriers.ts:56-63 | the empty term returns every courier, in order |
| Couriers.CourierStore.All | convex/couriers.ts:35 | the collected couriers are the stored ones, oldest first |
| Couriers.CourierStore.List | convex/couriers.ts:13-21 | `list` returns every stored courier, newest first |
| Couriers.CourierStore.GetById | convex/couriers.ts:24-29 | the stored courier, or null exactly when the id is absent |
| Couriers.CourierStore.GetStats | convex/couriers.ts:32-49 | `total` equals the table size, each status counter equals the number of stored couriers in that status, and the six counters sum to `total` |
| Couriers.CourierStore.Search | convex/couriers.ts:52-65 | exactly the stored couriers matching the term, as a subsequence of the table order |
| Couriers.CourierStore.FilterByStatus | convex/couriers.ts:68-85 | exactly the stored couriers with that status, in table order |
| Couriers.CourierStore.Create | convex/couriers.ts:88-118 | exactly one new courier under a fresh id: status pending, `createdAt == updatedAt ==` the handler's clock reading, the tracking id built from the second reading inside `generateTrackingId` (so the two may differ), the supplied fields as given, no billing or assignment; others untouched |
| Couriers.CourierStore.Update | convex/couriers.ts:121-148 | only the patched courier changes, to `Updated(old, args, now)` |
| Couriers.CourierStore.UpdateStatus | convex/couriers.ts:151-169 | any of the six statuses from any status, with a fresh `updatedAt`; nothing else changes |
| Couriers.CourierStore.Remove | convex/couriers.ts:172-177 | exactly that courier is deleted; `getById` then yields null and every other courier is unchanged |
| Auth.FirstWithEmail | convex/auth.ts:11-14 | the `by_email` lookup with `.first()` finds the earliest user with exactly that email, or none when no user has it |
| Auth.LoginIn | convex/auth.ts:11-20 | the `by_email` lookup with `.first()`, null when there is no user or the password differs; its contract is stated by `Auth.UserRegistry.Login` |
| Auth.UserRegistry.Login | convex/auth.ts:5-22 | a user is returned only when it is stored with exactly this email and password; null exactly when no user with that email has that password |
| Auth.UserRegistry.GetUser | convex/auth.ts:57-62 | the stored user, or null exactly when absent |
| Auth.UserRegistry.Register | convex/auth.ts:25-54 | fails with "Email already registered", changing nothing, exactly when the email exists; otherwise adds exactly one user with the given fields; emails stay unique |
| Users.AgentsIn | convex/users.ts:7-10 | exactly the users with role agent, in table order |
| Users.ListAgents | convex/users.ts:4-12 | every agent and only agents, so never an admin or a customer, oldest first; reads only |
| Branches.UpdateEntries | convex/branches.ts:45-47 | `update`'s four optional arguments form four entries with distinct keys |
| Branches.ApplyPatch | convex/branches.ts:52 | `patch(id, filteredUpdates)`; its effect on every field is stated by `Branches.Updated` |
| Branches.Updated | convex/branches.ts:44-53 | each defined argument replaces its field, each undefined one leaves it; `createdAt` is kept and no timestamp is refreshed |
| Branches.UpdateNothing | convex/branches.ts:45-52 | an update with every argument undefined leaves the branch unchanged |
| Branches.BranchTable.List | convex/branches.ts:5-13 | every branch, newest first |
| Branches.BranchTable.Create | convex/branches.ts:16-33 | exactly one new branch with the given fields and the clock as `createdAt`; names are not checked for uniqueness |
| Branches.BranchTable.Update | convex/branches.ts:36-54 | only that branch changes, to `Updated(old, args)` |
| Branches.BranchTable.Remove | convex/branches.ts:57-62 | exactly that branch is deleted; all others are unchanged |
| RegisterForm.EmailRegex | app/auth/register.tsx:35-36 | the email pattern, transcribed; `RegisterForm.EmailRegexShape` proves it equal to the plain-words shape |
| RegisterForm.EmailRegexShape | app/auth/register.tsx:35-36 | `/^[^\s@]+@[^\s@]+\.[^\s@]+$/` matches exactly the strings with no white space, exactly one '@' with text before it, and a '.' in the domain that is neither its first nor its last character |
| RegisterForm.ChecksOf | app/auth/register.tsx:30-57 | the five conditions as the handler tests them; what passing them means for the payload is stated by `HandleRegister` and the `Submitted` lemmas |
| RegisterForm.FirstFailure | app/auth/register.tsx:30-57 | the chain of early returns; `RegisterForm.FirstFailureIsFirst` proves it reports the lowest-ranked failing check |
| RegisterForm.Title | app/auth/register.tsx:31-55 | the title of each alert |
| RegisterForm.Message | app/auth/register.tsx:31-55 | the message of each alert |
| RegisterForm.Payload | app/auth/register.tsx:61-66 | the object passed to `register`; stated field by field by the `Submitted` lemmas |
| RegisterForm.FirstFailureIsFirst | app/auth/register.tsx:30-57 | the alert shown is the first failing check in the fixed order; none is shown exactly when every check passes |
| RegisterForm.HandleRegister | app/auth/register.tsx:29-66 | a rejection names a failing check and every check before it passes; `register` is called only when every check passes, with the normalised payload |
| RegisterForm.SubmittedName | app/auth/register.tsx:54-64 | a submitted name is trimmed, trim-stable and at least 3 characters long |
| RegisterForm.SubmittedEmail | app/auth/register.tsx:35-63 | a submitted email is trimmed, trim-stable and of the accepted shape |
| RegisterForm.SubmittedPassword | app/auth/register.tsx:41-62 | a submitted password is as typed and at least 6 characters long; the role is as chosen |
| RegisterForm.SubmittedPhone | app/auth/register.tsx:46-65 | the phone is undefined exactly when the input is blank; otherwise it is trimmed and has 0 or exactly 10 digits |
| AddCourier.RequiredMessage | app/couriers/add.tsx:35-39 | the five required-field messages, verbatim, and none for notes; `AddCourier.AddCourierScreen.Validate` states that each recorded error is its field's message |
| AddCourier.AddCourierScreen.constructor | app/couriers/add.tsx:14-22 | the initial `useState` values: every input empty and no errors |
| AddCourier.NothingMissing | app/couriers/add.tsx:35-42 | no field is reported exactly when the five required fields are all non-blank; notes are never reported |
| AddCourier.Payload | app/couriers/add.tsx:50-57 | the object passed to `createCourier`; stated by `AddCourier.SubmittedFields` and `HandleSubmit` |
| AddCourier.SubmittedFields | app/couriers/add.tsx:50-57 | after a passing `validate`, the five required fields are sent non-empty and trimmed; notes are undefined exactly when blank; no delivery date is sent |
| AddCourier.AddCourierScreen.UpdateField | app/couriers/add.tsx:25-30 | only the named input changes; only its error is cleared to "", and only when it was set |
| AddCourier.AddCourierScreen.Validate | app/couriers/add.tsx:32-43 | the error map has exactly one key per blank required field, with that field's message; the result is true exactly when all five are filled |
| AddCourier.AddCourierScreen.HandleSubmit | app/couriers/add.tsx:45-57 | when `validate` fails no courier is created and the table is untouched; otherwise one new courier holds the trimmed form, status pending, `createdAt == updatedAt ==` the handler's clock reading, the tracking id built from the separate tracking-id clock reading, and no billing or assignment; older couriers are untouched |
| CourierList.PassesStatus | app/couriers/index.tsx:41-43 | the status condition: 'all', or the courier's status is the selected one; stated by `CourierList.StagesAreOneFilter` and `FilteredCouriers` |
| CourierList.PassesSearch | app/couriers/index.tsx:46-53 | the search condition: a blank term, or `Couriers.Matches` with the lower-cased untrimmed term; stated by `CourierList.StagesAreOneFilter` and `FilteredCouriers` |
| CourierList.StatusStage | app/couriers/index.tsx:40-43 | the status stage: the list unchanged for 'all', otherwise the couriers in the selected status; stated by `CourierList.FilteredCouriers` |
| CourierList.SearchStage | app/couriers/index.tsx:45-54 | the search stage: the list unchanged for a blank term, otherwise the couriers matching the lower-cased term; stated by `CourierList.FilteredCouriers` |
| CourierList.StagesAreOneFilter | app/couriers/index.tsx:38-56 | the status stage followed by the search stage is a single filter by both conditions |
| CourierList.FilteredCouriers | app/couriers/index.tsx:35-56 | empty when the list is not loaded; otherwise exactly the couriers passing both stages, in the order `list` gave them |
| CourierList.NoFilterShowsAll | app/couriers/index.tsx:41-46 | with 'all' selected and a blank search box the list is shown as loaded |

## Left out

- **The clock and randomness.** `Date.now()` and the text of
  `Math.random().toString(36)` are parameters (`now`, `randomText`).
  `create` reads the clock twice, once in its handler and once in
  `generateTrackingId`, so it takes two readings (`now`, `idClock`). No
  order between them is assumed. The
  model does not claim tracking ids are unique, because the code does not
  ensure it (`Couriers.SameMillisecondCollision`).
- **The Convex runtime.** This covers `ctx.db`, indexes, subscriptions and
  transactions.
  - Each table is a map with a fresh-id counter.
  - `patch` or `delete` of a missing id is a precondition. Its failure
    behaviour lives in the runtime.
  - `_creationTime` order is modelled by id order.
  - `login`'s `by_email` lookup takes the oldest match. With unique emails
    there is only one.
- **Full JavaScript string semantics.**
  - Case mapping is ASCII only.
  - Strings are sequences of Unicode scalar values, not UTF-16 code units,
    so `length` and `substring` positions differ for characters outside
    the Basic Multilingual Plane.
- **Numbers.** Timestamps are unbounded integers, and the clock is a
  non-negative integer. `weight`, `distance` and `price` are `real`
  values; nothing in the modelled code computes them.
- **Passwords** are opaque strings, stored and compared as given.
- **Presentation and client I/O.**
  - JSX and styles.
  - `Alert.alert` dialogs: the register chain returns which alert it
    would show, with its title and message.
  - Navigation, `isSubmitting` and the loading screens.
  - Sessions (AsyncStorage), the mock notifications, invoice PDF
    generation and the signature pad.
- **AddCourier.AddCourierScreen.HandleSubmit**: the mutation's failure
  path ("Failed to create courier") is not modelled. `create` in the model
  always succeeds.
- **RegisterForm.HandleRegister** ends at the call to `register`. The
  server-side "Email already registered" error, shown as an alert, is
  `Auth.UserRegistry.Register`'s error path.
- **The log table** has its record shape only (`Schema.LogEntry`). No
  modelled code writes logs. `getLogs`, which the activity-log component
  calls, is not part of this model.
- **The booked/dispatched status set** used by the courier card is not
  modelled. The model uses the six schema statuses.
- **Features the code does not have.** The model follows the code:
  - status changes along allowed edges only: `updateStatus` accepts any
    status from any status;
  - authorization by role or by assigned agent: none in these mutations;
  - audit entries written by mutations: none;
  - price computation: none;
  - proof of delivery: none;
  - unique tracking ids and unique branch names: neither is checked;
  - server-side validation of required fields and 10-digit phones:
    `create` stores its arguments as given. The add-courier screen checks
    only that the required fields are non-blank, and does not check the
    phone format.
