# Reservation system: slots, team forms, request validation and configuration

This project models the core of a festival game-reservation web application, a Next.js site with a LINE mini-app front end and a Hono/Prisma API. It then proves properties of that model. It covers six parts of the system:

- **Seed loop.** Lays out the festival's time slots, 3 minutes apart from 10:00 to 15:57 Japan time. The instants are stored in UTC, and the slots alternate walk-in and reservable (`Seed`).
- **Time helpers.** Shift a UTC instant to Japan time and format it as `HH:MM` (`SlotTypes`).
- **Reservation page.** Classifies each slot button and decides which screen the page shows. Saving a team becomes a create (`-1`) or an edit request (`ReservePage`, `ApiPaths`).
- **Change-slot modal.** Offers the free slots plus the one already held, and decides when the change can be saved (`ReservationEditModal`).
- **Team forms.** The registration form and the edit dialog resize the member-name list, run their validators and trim what they send (`TeamRegistration`, `TeamEditModal`, `MemberNames`). Both are classes whose methods update the form state.
- **API and configuration.**
  - The Zod request schemas, including the `parseInt`-based id parameter (`Schemas`).
  - The API handlers' validation and error-to-status mapping, and the partial update of a reservation (`Api`).
  - The `allowedDevOrigins` parsing and the rewrites table of `next.config.ts` (`NextConfig`).

Three further modules hold shared pieces:

- `Wrappers` holds `Option`/`Result`.
- `Strings` holds JavaScript's `trim`, `split`, `toLowerCase`, `toString`, `padStart` and `parseInt(s, 10)` on ASCII text.
- `Seqs` holds `filter` and subsequences.

Representation choices:

- Instants are integer milliseconds since the epoch.
- Dates are day numbers: 2025-11-01 is day 20393.
- Database calls, `fetch` responses and ISO-8601 date-time parsing are parameters of the functions that use them.

## Model

| member | source | states |
|---|---|---|
| SlotTypes.UtcHours | src/app/liff/reserve/types.ts:21 | `getUTCHours()` is an hour in 0..23 |
| SlotTypes.UtcMinutes | src/app/liff/reserve/types.ts:22 | `getUTCMinutes()` is a minute in 0..59 |
| SlotTypes.ConvertUtcToJst | src/app/liff/reserve/types.ts:12-17 | the Japan-time instant is exactly 32,400,000 ms (9 hours) after the UTC one, and its clock reads 9 hours later modulo 24 with the minute unchanged |
| SlotTypes.TwoDigitsValue | src/app/liff/reserve/types.ts:21-22 | `toString().padStart(2, "0")` of a number below 100 is two digits that read back as that number |
| SlotTypes.ClockLabel | src/app/liff/reserve/types.ts:23 | the label is 5 characters long, with ':' at index 2 and the two padded fields around it |
| SlotTypes.FormatJstTime | src/app/liff/reserve/types.ts:20-24 | always 5 characters of the form `HH:MM`, with HH the UTC hour and MM the UTC minute, each padded to two digits |
| SlotTypes.FormatJstTimeInjective | src/app/liff/reserve/types.ts:20-24 | two labels are equal exactly when the hours and the minutes are equal |
| SlotTypes.FormatJstTimeOfClock | src/app/liff/reserve/types.ts:21-23 | an instant whose UTC clock reads h:m is labelled with h and m padded |
| SlotTypes.FormatJstTimeDaily | src/app/liff/reserve/types.ts:20-24 | the label depends only on the time of day: instants one day apart format identically |
| Seed.GenerateSlots | prisma/seed.ts:18-61 | the loop over the dates produces exactly the specified slot list `SeedSlots(days)` |
| Seed.PushDay | prisma/seed.ts:41-60 | one date's `while (currentTime < endTime)` loop appends the run from the start time; the walk-in flag follows the parity of the row count, so it is never reset |
| Seed.JstHourToUtc | prisma/seed.ts:29-39 | `setUTCHours(hour, 0, 0, 0)` then `setUTCHours(getUTCHours() - 9)` gives UTC `hour - 9`:00 on the same date, which reads as Japan time `hour`:00 |
| Seed.AdvanceMinutes | prisma/seed.ts:57 | `setUTCMinutes(getUTCMinutes() + 3)` moves the instant exactly 3 minutes on, across hour boundaries too |
| Seed.JstHourAsUtcValue | prisma/seed.ts:29-34 | the start instant of a date is its midnight plus `hour - 9` hours |
| Seed.AddMinutes | prisma/seed.ts:57 | setting the minute to the current minute plus k adds exactly k minutes |
| Seed.RunShape | prisma/seed.ts:44-60 | the loop pushes `(end - start) / 3 min` rows; row j is the slot at start + 3j minutes, before the end, numbered on from the rows already pushed |
| Seed.DaySlotsShape | prisma/seed.ts:36-57 | every date yields exactly 120 rows; row j is at 01:00 UTC + 3j minutes |
| Seed.SeedSlotsAt | prisma/seed.ts:27-61 | the output has 120 rows per date; row 120d + j is slot j of date d |
| Seed.SeedSlotAt | prisma/seed.ts:27-61 | row k lies on date k / 120 at position k % 120 |
| Seed.FestivalSlotCount | prisma/seed.ts:18-68 | the two festival dates give 240 slots |
| Seed.EachDateStartsWalkIn | prisma/seed.ts:24-59 | each date's first row is a walk-in, available slot at 01:00 UTC (10:00 Japan time), although the flag is not reset between dates |
| Seed.SeedSlotKind | prisma/seed.ts:46-59 | row k is a walk-in slot exactly when k is even, and every row is available |
| Seed.KindsAlternate | prisma/seed.ts:46-59 | consecutive rows have different kinds, across date boundaries too |
| Seed.DateWindow | prisma/seed.ts:36-57 | every row of a date lies in [01:00, 07:00) UTC of that date; consecutive rows of a date are exactly 3 minutes apart; the last is at 06:57 UTC |
| Seed.SlotsInTimeOrder | prisma/seed.ts:27-57 | with the dates in increasing order, the rows are strictly increasing in time: by date, then by time |
| Seed.SlotClock | prisma/seed.ts:19-21 | slot j of a date shows the Japan-time clock 10:00 + 3j minutes |
| Seed.SeedSlotLabel | prisma/seed.ts:19-21 | every seeded row shows an hour from 10 to 15 and a minute that is a multiple of 3 |
| Seed.FirstAndLastLabels | prisma/seed.ts:19-20 | the first slot of each date reads "10:00" and the last "15:57" |
| Seed.SeedSlotsExtend | prisma/seed.ts:27-61 | one more date appends that date's rows, numbered on from the rows already pushed |
| MemberNames.Padded | src/app/liff/reserve/TeamEditModal.tsx:66-70 | the names followed by "" up to the count; never shorter than the names, so never truncated |
| MemberNames.Resized | src/app/liff/reserve/TeamRegistration.tsx:48-60 | exactly `count` entries: the first min(old length, count) are the old names and every added entry is "" |
| MemberNames.ResizedUnique | src/app/liff/reserve/TeamRegistration.tsx:48-60 | any list of that length keeping the prefix and padding with "" is the resized list |
| MemberNames.ResizedShrinkTwice | src/app/liff/reserve/TeamRegistration.tsx:56-59 | shrinking in two steps equals shrinking once |
| MemberNames.ResizedGrowThenShrink | src/app/liff/reserve/TeamRegistration.tsx:50-59 | growing and shrinking back returns the original names |
| MemberNames.PadNames | src/app/liff/reserve/TeamEditModal.tsx:66-70 | the `while`/`push` loop computes `Padded` |
| MemberNames.ResizeNames | src/app/liff/reserve/TeamEditModal.tsx:77-91 | the copy, `push` loop and `splice(count)` compute `Resized` |
| TeamRegistration.TeamRegistrationForm.constructor | src/app/liff/reserve/TeamRegistration.tsx:35-41 | the empty name, one member with name "", and no errors |
| TeamRegistration.TeamRegistrationForm.UpdateMemberCount | src/app/liff/reserve/TeamRegistration.tsx:48-65 | `memberCount` becomes n and `memberNames` the resized list, of length exactly n; the team name and errors are unchanged |
| TeamRegistration.MemberNameErrors | src/app/liff/reserve/TeamRegistration.tsx:80-87 | an error at exactly the index of each name that is blank after trimming, naming member index+1; holes elsewhere |
| TeamRegistration.ValidateTeamData | src/app/liff/reserve/TeamRegistration.tsx:68-95 | errors on the team name iff it is blank, on the count iff it is outside 1..4, and on the names iff some name is blank; valid iff no key is set, iff the data is complete |
| TeamRegistration.TeamRegistrationForm.ValidateForm | src/app/liff/reserve/TeamRegistration.tsx:68-95 | records those errors and returns whether there are none; the data is unchanged |
| TeamRegistration.TeamRegistrationForm.HandleSubmit | src/app/liff/reserve/TeamRegistration.tsx:97-101 | `onComplete` receives the form data exactly when it is valid |
| TeamRegistration.TeamRegistrationForm.HandleTeamNameChange | src/app/liff/reserve/TeamRegistration.tsx:103-115 | the team name changes and its error is cleared; the rest is kept |
| TeamRegistration.TeamRegistrationForm.HandleMemberNameChange | src/app/liff/reserve/TeamRegistration.tsx:117-134 | only name i changes; the error under name i is cleared if one was shown |
| TeamEditModal.NormalizedNames | src/app/liff/reserve/TeamEditModal.tsx:116 | each name trimmed and lower-cased, position by position |
| TeamEditModal.DuplicateIffSetSmaller | src/app/liff/reserve/TeamEditModal.tsx:115-119 | the set of normalized names is smaller than the list exactly when two names are equal after trimming and lower-casing |
| TeamEditModal.DuplicateCheck | src/app/liff/reserve/TeamEditModal.tsx:115-119 | the `Set` size test reports a duplicate exactly when two names coincide once normalized |
| TeamEditModal.MemberNameErrors | src/app/liff/reserve/TeamEditModal.tsx:107-113 | a `memberName<i>` key exactly for the names that are blank after trimming (required) or longer than 30 (too long); other keys are kept |
| TeamEditModal.ValidateTeam | src/app/liff/reserve/TeamEditModal.tsx:93-123 | a team-name error iff the name is blank or over 50 characters; a count error iff it is outside 1..10; name errors by index; a duplicate error iff two names coincide |
| TeamEditModal.NoErrorsIffValid | src/app/liff/reserve/TeamEditModal.tsx:121-122 | the error object is empty exactly when the team is valid |
| TeamEditModal.TrimAll | src/app/liff/reserve/TeamEditModal.tsx:149 | each name trimmed, same length |
| TeamEditModal.SaveTeamId | src/app/liff/reserve/TeamEditModal.tsx:153-165 | the team's own id when there is a team, -1 when there is none |
| TeamEditModal.PayloadOfValidTeam | src/app/liff/reserve/TeamEditModal.tsx:138-150 | the payload of a valid team has a non-empty trimmed name of at most 50 characters, a count in 1..10, and as many names as the form, each non-empty, trimmed and at most 30 characters, still free of duplicates |
| TeamEditModal.TeamEditForm.constructor | src/app/liff/reserve/TeamEditModal.tsx:49-52 | the empty name, one member named "", and no errors |
| TeamEditModal.TeamEditForm.OpenEffect | src/app/liff/reserve/TeamEditModal.tsx:56-74 | on open with a team: its name and headcount, and its players' names padded with "" to the headcount, never truncated; otherwise nothing changes |
| TeamEditModal.TeamEditForm.MemberCountEffect | src/app/liff/reserve/TeamEditModal.tsx:77-91 | the names are resized to exactly `memberCount`, the prefix kept |
| TeamEditModal.TeamEditForm.ChangeMemberCount | src/app/liff/reserve/TeamEditModal.tsx:230-237 | the count changes and only its error is removed |
| TeamEditModal.TeamEditForm.ChangeTeamName | src/app/liff/reserve/TeamEditModal.tsx:202-209 | the name changes and only its error is removed |
| TeamEditModal.TeamEditForm.HandleMemberNameChange | src/app/liff/reserve/TeamEditModal.tsx:125-136 | only name i changes and only the `memberName<i>` error is removed |
| TeamEditModal.TeamEditForm.ValidateForm | src/app/liff/reserve/TeamEditModal.tsx:93-123 | records the error object of the failed checks, each key with its message (`Records`), and returns whether it is empty, that is whether the team is valid |
| TeamEditModal.TeamEditForm.HandleSave | src/app/liff/reserve/TeamEditModal.tsx:138-166 | records the same error object as `validateForm`; `onSave` is called exactly for a valid form, with `SaveTeamId` and the trimmed name and names |
| TeamEditModal.TeamEditForm.HandleClose | src/app/liff/reserve/TeamEditModal.tsx:168-171 | the errors are cleared, the data kept |
| ReservationEditModal.SlotQuery | src/app/liff/reserve/ReservationEditModal.tsx:79-83 | the date, and `startHour` and `endHour` both reading back as the chosen hour |
| ReservationEditModal.OfferedSlots | src/app/liff/reserve/ReservationEditModal.tsx:88-92 | exactly the fetched slots that are available or the one held, in the fetched order; a booked slot appears only when it is the held one |
| ReservationEditModal.BeginFetch | src/app/liff/reserve/ReservationEditModal.tsx:74-76 | loading, no error, and the selection cleared |
| ReservationEditModal.EndFetch | src/app/liff/reserve/ReservationEditModal.tsx:84-101 | the offered slots on success, the failure or thrown message otherwise with the list kept, and loading over |
| ReservationEditModal.SelectSlot | src/app/liff/reserve/ReservationEditModal.tsx:268 | the clicked slot's id becomes the selection |
| ReservationEditModal.HandleSave | src/app/liff/reserve/ReservationEditModal.tsx:114-118 | `onSave(reservationId, selected)` is called exactly when the selected id is truthy (present and non-zero) |
| ReservationEditModal.FetchDisablesSave | src/app/liff/reserve/ReservationEditModal.tsx:72-76 | after any fetch the selection is empty and the save button is disabled |
| ReservationEditModal.EnabledSaveMovesToFreeSlot | src/app/liff/reserve/ReservationEditModal.tsx:322-326 | with the button enabled on an offered slot, saving moves to a different, available slot |
| ReservationEditModal.SelectThenSave | src/app/liff/reserve/ReservationEditModal.tsx:322-326 | after a selection the button is enabled exactly for a non-zero id other than the held one, when not saving |
| ReservePage.SlotButtonFor | src/app/liff/reserve/page.tsx:766-781 | walk-in: grey, "no reservation needed" and no click, whatever the status; reservable and booked: red and no click; only reservable and available is green and opens the modal for that same slot |
| ReservePage.SeededSlotClickable | src/app/liff/reserve/page.tsx:766-781 | on a fresh seed, row k can be clicked exactly when k is odd |
| ReservePage.KeepReservation | src/app/liff/reserve/page.tsx:130 | the response is kept exactly when it holds a reservation |
| ReservePage.ScreenOf | src/app/liff/reserve/page.tsx:429-781 | an error replaces everything; the confirmation is shown exactly when loaded with a reservation; the slot list has one button per slot, in order |
| ReservePage.FetchUserReservation | src/app/liff/reserve/page.tsx:121-143 | success stores the kept reservation and clears the error; failure keeps it and sets the error; loading ends either way |
| ReservePage.ExistingReservationGate | src/app/liff/reserve/page.tsx:504-539 | after loading, a reservation in the response shows the confirmation; without one the page goes back to picking |
| ReservePage.FetchPageTimeSlots | src/app/liff/reserve/page.tsx:233-262 | success shows the fetched slots; a non-ok response sets the slot-fetch error, a throw sets its message, and either returns to the search screen |
| ReservePage.SearchQuery | src/app/liff/reserve/page.tsx:645-648 | a search is offered exactly when a date and an hour are chosen, and asks for that single hour |
| ReservePage.SearchShowsEverySlot | src/app/liff/reserve/page.tsx:718-781 | a successful, non-empty search lists exactly one button per fetched slot, in order |
| ReservePage.EditTeamRequest | src/app/liff/reserve/page.tsx:190-210 | teamId -1 POSTs to `/api/reservations/{id}/add-team`; any other id PATCHes `/api/teams/{teamId}`; the body is the team data |
| ReservePage.TeamSaveRoutes | src/app/liff/reserve/page.tsx:190-210 | a reservation without a team posts to its own id; an existing team is patched at its id, which reads back from the path |
| ApiPaths.IdSegment | src/app/liff/reserve/page.tsx:193 | the id segment holds no '/', reads back as the reservation id, and is "undefined" without one |
| ApiPaths.AddTeamPath | src/app/liff/reserve/page.tsx:193 | the path splits into "", "api", "reservations", the id, "add-team" |
| ApiPaths.TeamPath | src/app/liff/reserve/page.tsx:203 | the path splits into "", "api", "teams", the team id |
| ApiPaths.AddTeamPathText | src/app/liff/reserve/page.tsx:193 | the path is the text `/api/reservations/{id}/add-team` |
| ApiPaths.TeamPathText | src/app/liff/reserve/page.tsx:203 | the path is the text `/api/teams/{id}` |
| Schemas.NumberProblems | src/lib/schemas.ts:52-54 | a number check chain reports no issue exactly when every check holds, at most one issue per check |
| Schemas.StringProblems | src/lib/schemas.ts:53-56 | a string check chain reports no issue exactly when every check holds |
| Schemas.ValueProblems | src/lib/schemas.ts:51-57 | a value has no issue exactly when it has the field's type and meets its checks |
| Schemas.FieldIssues | src/lib/schemas.ts:51-64 | a field has no issue exactly when it is present and valid, or optional and absent; every issue is reported under the field's name |
| Schemas.Parse | src/lib/schemas.ts:51-64 | `z.object(...).parse` succeeds exactly on an object whose fields are all valid, returning it stripped to the schema's keys with the values unchanged; a failure carries at least one issue |
| Schemas.AllOptionalParse | src/lib/schemas.ts:59-64 | a schema of optional fields accepts exactly the objects whose present fields are valid |
| Schemas.KindsMean | src/lib/schemas.ts:52-56 | `int().positive()` accepts exactly the whole numbers above 0; `int()` the whole numbers; `int().positive().min(1)` the whole numbers from 1; `min(1)` the strings of length at least 1; `datetime()` the date-time strings |
| Schemas.UpdateSchemasAreOptionalCreate | src/lib/schemas.ts:59-64 | each update schema is its create schema with every field made optional, the checks unchanged; the score and reservation ones leave out `userId` |
| Schemas.CreateUserAccepts | src/lib/schemas.ts:11-13 | `CreateUserSchema` accepts an object exactly when `name` is a string of length at least 1 |
| Schemas.CreateScoreAccepts | src/lib/schemas.ts:29-32 | `CreateScoreSchema` accepts exactly a positive integer `userId` and an integer `score` |
| Schemas.CreateReservationAccepts | src/lib/schemas.ts:51-57 | a positive integer `userId`, a non-empty `receiptNumber`, an integer `numberOfPeople` of at least 1, and two date-time strings |
| Schemas.CreateReservationParsed | src/lib/schemas.ts:51-57 | an accepted create body holds all five keys, its times as strings |
| Schemas.UpdateReservationParsed | src/lib/schemas.ts:59-64 | an accepted update body holds only the four update keys, its times as strings |
| Schemas.UpdateReservationAccepts | src/lib/schemas.ts:59-64 | every field is optional and any present field meets its create constraint; the empty object is accepted |
| Schemas.NegativeScoreAccepted | src/lib/schemas.ts:31 | a negative integer score is accepted |
| Schemas.UpdatesAcceptEmpty | src/lib/schemas.ts:15-36 | `UpdateUserSchema` and `UpdateScoreSchema` accept the empty object |
| Schemas.ParseId | src/lib/schemas.ts:73-75 | `IdParamSchema` accepts s exactly when `parseInt(s, 10)` is a positive integer, and the id is that integer |
| Schemas.ParseIdDecimalString | src/lib/schemas.ts:74 | the decimal text of a positive number is accepted as that number |
| Schemas.ParseIntStopsAtNonDigit | src/lib/schemas.ts:74 | `parseInt` reads the leading digits and ignores what follows |
| Schemas.TrailingGarbageAccepted | src/lib/schemas.ts:74 | "12abc" is accepted as 12 |
| Schemas.ZeroAndNegativeRejected | src/lib/schemas.ts:74 | "0" and "-3" are rejected |
| Api.CatchStatus | src/lib/api.ts:468-478 | a validation error is 400; a code the handler tests gets that handler's status; anything else is 500 |
| Api.CatchTables | src/lib/api.ts:584-593 | create handlers: 400 exactly for validation or P2003; update and delete: 404 exactly for P2025, 400 exactly for validation; everything else 500 |
| Api.AfterCall | src/lib/api.ts:272-283 | the database call is made; success gives the handler's status, failure the catch block's |
| Api.PlainData | src/lib/api.ts:69-74 | the validated body is passed on with the same keys and values |
| Api.PostEntity | src/lib/api.ts:66-107 | an unreadable body is 500; a rejected body is 400 with nothing created; 201 exactly when created; P2003 is 400 only where the handler tests it (scores, not users) |
| Api.WriteCall | src/lib/api.ts:604-618 | 200 exactly on success, 404 exactly for P2025, anything else 500 |
| Api.PutEntity | src/lib/api.ts:159-190 | an unreadable body is 500; a bad id, then a rejected body, is 400 with nothing updated; otherwise the stripped body is the update |
| Api.DeleteById | src/lib/api.ts:598-619 | a delete is made exactly for a valid id, else 400; 404 exactly for P2025; 200 exactly on success |
| Api.GetById | src/lib/api.ts:111-155 | a lookup is made exactly for a valid id, else 400; 200 when found, 404 when not, 500 on an error |
| Api.CreateData | src/lib/api.ts:441-450 | the five fields, the two times as their instants |
| Api.CreateChecked | src/lib/api.ts:434-478 | start not before end is 400 and creates nothing; otherwise the create is made; 201 exactly when in order and successful; P2003 is 400 |
| Api.PostReservation | src/lib/api.ts:427-479 | an unreadable body is 500; a rejected body is 400; an accepted body goes on to the order check |
| Api.CreatedOnlyInOrder | src/lib/api.ts:434-439 | a reservation is created, and 201 returned, only from a valid body whose start is before its end |
| Api.UpdateData | src/lib/api.ts:533-552 | exactly the update fields present in the validated body, times turned into instants and the rest kept as given |
| Api.BuildUpdateData | src/lib/api.ts:533-552 | the four conditional assignments build `UpdateData` |
| Api.UpdateHoldsExactlyTheBody | src/lib/api.ts:533-552 | the update holds exactly the keys of the validated body, no others |
| Api.UpdateChecked | src/lib/api.ts:554-593 | both times given out of order is 400 and updates nothing; otherwise the update is made |
| Api.PutReservation | src/lib/api.ts:525-594 | an unreadable body is 500; a bad id, then a rejected body, is 400; an accepted body goes on to the order check and the update |
| Api.BothTimesChecked | src/lib/api.ts:554-559 | an update setting both times, start not before end, is 400 with nothing updated |
| Api.SingleTimeNotChecked | src/lib/api.ts:554-559 | an update setting only one of the two times is never refused for its order |
| Api.ByUser | src/lib/api.ts:624-673 | a missing or empty `userId` is 400; an id `parseInt` cannot read as a positive integer is 400; otherwise that user's records are fetched |
| NextConfig.TrimEach | next.config.ts:13 | each piece trimmed, same count and order |
| NextConfig.TrimmedPieces | next.config.ts:11-13 | every trimmed piece is trimmed and contains no ',' |
| NextConfig.ParseOrigins | next.config.ts:11-14 | the origins are the non-empty trimmed pieces of the variable split on ',', in their original order; none is empty, untrimmed or contains ',' |
| NextConfig.AllowedDevOrigins | next.config.ts:18 | the parsed list when it is non-empty, the default otherwise; never empty |
| NextConfig.DefaultOriginWellFormed | next.config.ts:7-9 | the default origin is itself non-empty, trimmed and comma-free |
| NextConfig.PiecesBlank | next.config.ts:11-12 | a string holds only commas and white space exactly when every piece of its split is blank |
| NextConfig.ParseOriginsEmpty | next.config.ts:11-14 | the parsed list is empty exactly when every piece is blank |
| NextConfig.FallbackExactlyWhenBlank | next.config.ts:7-18 | the default is used exactly when the variable is unset or holds only commas and white space |
| NextConfig.RewriteOf | next.config.ts:21-52 | a lookup in the table: a result exactly when some entry has the path as its source, and then that entry's destination |
| NextConfig.RewritesPrefixSite | next.config.ts:22-51 | "/" maps to `/site/index.html` and every other entry maps `/X.html` to `/site/X.html` |
| NextConfig.RewrittenPaths | next.config.ts:21-52 | any path the table rewrites goes to `/site` plus itself, or, for "/", to the index page |
| Strings.Trim | src/app/liff/reserve/TeamEditModal.tsx:96 | `trim()` removes exactly the leading and trailing white space: the result is a trimmed slice with only white space around it |
| Strings.BlankIffTrimEmpty | src/app/liff/reserve/TeamRegistration.tsx:71 | `!s.trim()` holds exactly when s is all white space |
| Strings.TrimIdempotent | src/app/liff/reserve/TeamEditModal.tsx:149 | trimming twice is trimming once |
| Strings.ToLower | src/app/liff/reserve/TeamEditModal.tsx:116 | lower-casing keeps the length and maps each character |
| Strings.JoinSplit | next.config.ts:12 | joining the pieces of `split(sep)` with sep gives back the string |
| Strings.SplitJoin | next.config.ts:12 | splitting the join of separator-free pieces gives back the pieces |
| Strings.IntStringChars | src/app/liff/reserve/types.ts:21 | `toString()` of an integer holds only '-' and digits |
| Strings.PadStart | src/app/liff/reserve/types.ts:21 | `padStart(n, c)` prepends c up to length n and never shortens |
| Strings.ParseIntIntString | src/lib/schemas.ts:74 | `parseInt` reads back every integer's `toString()` |
| Strings.ParseIntDigits | src/lib/schemas.ts:74 | `parseInt` of a digit run is its decimal value |
| Seqs.Filter | next.config.ts:14 | `filter` keeps exactly the elements passing the test, in their order, as a subsequence |

## Left out

- Database I/O: every Prisma call becomes a parameter (`DbResult`, `Lookup`), as do the seed's deletes and the `createMany` insert. Transactions are not modelled.
- The server-side booking transaction: the slot-status flip, the one-reservation-per-person check, the cancel guard, `add-team` and `my-reservation`. The files that hold them are not part of this model. `ApiPaths` describes only the requests the page sends to them.
- Date-time strings: ISO-8601 validation (`z.string().datetime()`), `new Date(string)` and `toISOString` are parameters (`isDatetime`, `instant`). The API works on the integer milliseconds they stand for.
- `fetch`, `alert`, console logging, React state scheduling and effect ordering: each handler is modelled as one step on the state, given the response it received.
- Error message texts: messages are tags of a datatype, not the Japanese strings.
- Text handling:
  - `trim`, `toLowerCase` and `parseInt` are modelled on ASCII white space and ASCII letters, not Unicode.
  - Lengths count characters, not UTF-16 code units.
  - `parseInt` is exact on integers of any size; JavaScript loses precision above 2^53.
- Numbers in request bodies are reals (`JNum`). Floating-point rounding is not modelled.
- URL encoding of the slot query (`URLSearchParams`): the query is modelled as its key/value pairs.
- The list handlers (`GET /users`, `/scores`, `/reservations`) and the result formatting (`toISOString` of dates) are not modelled. They only read and reformat.
- `GET /users/scores` has the same validation as `GET /users/reservations`: both are `Api.ByUser`.
- The OpenAPI document, authentication and LINE integration.
- Routing order: Next.js consults the filesystem (pages and `public/` files) before the `rewrites()` entries, so an existing page such as the root page takes precedence over its rewrite. `NextConfig.RewriteOf` is only a lookup in the table; the framework's routing is not modelled.
- TeamRegistration.TeamRegistrationForm.HandleMemberNameChange: requires the index to lie inside the name list. The form only calls it for rendered entries. A JavaScript assignment past the end would instead extend the array with holes.
- TeamEditModal.TeamEditForm.HandleMemberNameChange: requires the index to lie inside the name list, for the same reason.
- Seed.JstHourToUtc: requires the Japan-time hour to lie in 9..23, where subtracting nine hours stays on the same UTC date. The seed uses only 10 and 16. Earlier hours, which move to the previous date, are not modelled.
- Seed.JstHourAsUtcValue: requires the same hour range, for the same reason.
