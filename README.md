# Heart-rate zone training: a verified model of its core

This project models the core of a heart-rate zone training web application
in Dafny. Users register with their age and body data, receive an
estimated maximal heart rate and five training zones, set training goals,
and see their recent workouts on a dashboard. The model covers:

- the zone arithmetic of `app/utils/heartRate.ts` (module `HeartRate`):
  - the maximal heart rate estimate;
  - the five rounded zone ranges;
  - the classifier from an observed heart rate to zone 0..5;
  - the zone-description and recommended-distribution tables;
- the decisions of `app/utils/auth.server.ts` (module `AuthServer`):
  - the user record `register` builds, with its inline zone bounds;
  - `login`, `createUserSession`, `getUserId` and `requireUserId`;
- what the dashboard (`app/routes/dashboard.tsx`, module `Dashboard`)
  computes from the loaded data:
  - the five most recent logs and this week's logs;
  - the weekly zone totals and the bar widths;
  - the primary-zone and average-heart-rate badges;
  - today's workout card;
- the new-goal route (`app/routes/goals.new.tsx`, module `GoalsNew`):
  - the `goalSchema` rules as zod applies them;
  - the fold of a ZodError into one message per field, written as a loop;
  - the action's outcome behind its `requireUserId` guard, and the goal-type label;
- the registration route (`app/routes/auth.register.tsx`, module `AuthRegister`):
  - the `RegisterSchema` rules;
  - the action's response for every kind of input, both as written (a
    failed validation sends an undefined `fieldErrors`) and with that
    corrected to `flatten().fieldErrors`;
  - the form component's state, as a class whose `HandleInputChange`
    updates the field values and the live max-heart-rate preview.

Two modules support these:

- `JsBuiltins` states the JavaScript built-ins the code relies on:
  - `Math.round` (a half rounds towards +infinity);
  - `trim`, `parseInt(_, 10)` and `parseFloat`;
  - `find`, `indexOf`, `filter` and `Math.max`.
- `Zod` states zod's issue list and its `format()` and `flatten()` views.

The database, bcrypt, the session cookie store, the email regex, the clock
and the locale are not modelled. Their results are parameters:

- the create's outcome;
- whether the password matched;
- the session value;
- an `isEmail` predicate;
- the one-week cutoff;
- today's weekday.

Numbers are exact: integers are `int` and JavaScript numbers are `real`.
`parseFloat` yields a `JsNumber` that is NaN, finite or infinite.

Three facts about the code that a reader might not expect:

- `Math.round` rounds a half up, not away from zero. For the non-negative
  values that occur here the two agree. For integer ages `211 - 0.64 * age`
  never ends in exactly .5.
- Adjacent zones share their boundary exactly: `register` and
  `calculateHeartRateZone` round the same product (`maxHeartRate * 0.6`,
  and so on) for zone N's max and zone N+1's min
  (`HeartRate.AdjacentZonesShareBoundary`).
- The classifier compares the exact ratio, so at a rounded boundary it can
  disagree with the displayed ranges
  (`HeartRate.ClassifierDisagreesAtRoundedBoundary`).

## Model

| member | source | states |
|---|---|---|
| JsBuiltins.Round | app/utils/heartRate.ts:9 | Math.round gives the integer within half of x, with a half rounding up |
| JsBuiltins.RoundMonotone | app/utils/heartRate.ts:29-30 | Math.round never decreases: x <= y implies round(x) <= round(y) |
| JsBuiltins.RoundOfQuotient | app/utils/heartRate.ts:29-30 | rounding a/b equals the integer quotient (2a + b) div 2b |
| JsBuiltins.TrimStartDropsWhitespace | app/routes/goals.new.tsx:87 | trimStart removes exactly a prefix of white space and stops at the first other character |
| JsBuiltins.Trim | app/routes/goals.new.tsx:87 | `s.trim()` is empty exactly when every character of s is white space; otherwise it starts and ends with a character that is not white space |
| JsBuiltins.ParseInt | app/routes/auth.register.tsx:93 | parseInt is NaN exactly when the text after the leading white space and the optional sign is empty or does not start with a digit; the value it reads is stated by ParseIntReadsDecimal and ParseIntOfDecimal |
| JsBuiltins.ParseIntReadsDecimal | app/routes/auth.register.tsx:93 | parseInt reads back any decimal integer, with leading white space, an optional '-' and any non-digit text after it |
| JsBuiltins.ParseIntOfDecimal | app/routes/auth.register.tsx:184 | parseInt of the decimal text of n is n |
| JsBuiltins.ParseFloat | app/routes/auth.register.tsx:94-95 | parseFloat is NaN exactly when, after the white space and sign, the text is neither "Infinity" nor the start of an unsigned decimal literal |
| JsBuiltins.ParseFloatReadsDecimal | app/routes/auth.register.tsx:94-95 | parseFloat reads back a signed decimal integer followed by text that does not continue the literal |
| JsBuiltins.ParseFloatReadsFraction | app/routes/auth.register.tsx:94-95 | parseFloat reads back a signed decimal with a point and fraction digits (such as the "170.5" a step-0.1 input submits), followed by text that does not continue the literal, as the integer part plus the fraction |
| JsBuiltins.ParseFloatExamples | app/routes/auth.register.tsx:94-95 | reference value: "170.5" gives 170.5 |
| JsBuiltins.Find | app/routes/dashboard.tsx:74 | find returns an element exactly when one satisfies the predicate, and returns the first such element |
| JsBuiltins.IndexOf | app/routes/dashboard.tsx:397 | indexOf is -1 exactly when the value is absent; otherwise it is the first index holding the value |
| JsBuiltins.Filter | app/routes/dashboard.tsx:81-83 | filter keeps exactly the elements that satisfy the predicate |
| JsBuiltins.FilterConcat | app/routes/dashboard.tsx:81-83 | filter distributes over concatenation, so it keeps the elements' order |
| JsBuiltins.MaxOf | app/routes/dashboard.tsx:397 | Math.max(...s) is an element of s and no element exceeds it |
| HeartRate.MaxHeartRate | app/utils/heartRate.ts:8-10 | round(211 - 0.64 * age) equals (21150 - 64 * age) div 100 |
| HeartRate.MaxHeartRateNonIncreasing | app/utils/heartRate.ts:8-10 | an older user never gets a higher estimate |
| HeartRate.MaxHeartRateForFormAges | app/utils/heartRate.ts:8-10 | for ages 10..100 the estimate lies in 147..205 |
| HeartRate.MaxHeartRateExamples | app/utils/heartRate.ts:8-10 | reference values: ages 30, 40 and 50 give 192, 185 and 179 |
| HeartRate.ZoneFractionsInTenths | app/utils/heartRate.ts:20-26 | zone N's table entry is ((N + 4)/10, (N + 5)/10) |
| HeartRate.HeartRateZone | app/utils/heartRate.ts:19-33 | zone N is round(m * (N + 4)/10) to round(m * (N + 5)/10), that is, (m(N + 4) + 5) div 10 to (m(N + 5) + 5) div 10 |
| HeartRate.HeartRateZoneOrdered | app/utils/heartRate.ts:28-32 | for m >= 0 a zone's min never exceeds its max |
| HeartRate.AdjacentZonesShareBoundary | app/utils/heartRate.ts:20-32 | zone N's max equals zone N+1's min, for every m |
| HeartRate.OuterZoneBoundaries | app/utils/heartRate.ts:19-33 | zone 5 ends at m itself, and zone 1 starts at round(m/2) = (m + 1) div 2 |
| HeartRate.AllZonesAscending | app/utils/heartRate.ts:41-49 | for m >= 0 the ten boundaries of all zones never decrease, and the last one is m |
| HeartRate.AllHeartRateZones | app/utils/heartRate.ts:41-49 | each zone's max is the next zone's min, zone 1 starts at (m + 1) div 2 and zone 5 ends at m |
| HeartRate.AllZonesExamples | app/utils/heartRate.ts:41-49 | reference ranges for maximal heart rates 185 and 190 |
| HeartRate.DetermineHeartRateZone | app/utils/heartRate.ts:58-67 | the classifier returns 0 exactly below half the max; it returns zone N exactly when lower_N * max <= rate and, for N < 5, rate < upper_N * max |
| HeartRate.ClassifierMonotone | app/utils/heartRate.ts:58-67 | a higher heart rate never lands in a lower zone |
| HeartRate.ClassifierAgreesInsideRoundedRange | app/utils/heartRate.ts:19-67 | an integer rate strictly inside zone N's rounded range (above the min, for zone 5) is classified as N |
| HeartRate.ClassifierDisagreesAtRoundedBoundary | app/utils/heartRate.ts:58-67 | at a rounded boundary the two disagree: for max 187, zone 2 starts at 112, yet 112 is classified as zone 1 |
| HeartRate.ClassifierExamples | app/utils/heartRate.ts:58-67 | reference classifications, including 145 of 185 in zone 3 and 190 of 190 in zone 5 |
| HeartRate.ZoneDescriptionsCoverZones | app/utils/heartRate.ts:72-109 | zoneDescriptions has an entry exactly for zones 0..5, each with benefits and examples |
| HeartRate.DistributionsSumTo100 | app/utils/heartRate.ts:111-171 | the five goal types are the keys, and each distribution is non-negative and sums to 100 |
| AuthServer.NewUserRecord | app/utils/auth.server.ts:28-52 | register stores the email, the hash, the name, the age, the gender, the height and the weight it was given; its inline maxHeartRate is calculateMaxHeartRate(age), and its ten stored bounds are calculateAllHeartRateZones of it |
| AuthServer.RegisteredZonesContiguous | app/utils/auth.server.ts:28-52 | for ages 10..100 the stored max is in 147..205, the zones are contiguous, the bounds never decrease, and zone5Max is the max |
| AuthServer.Register | app/utils/auth.server.ts:10-58 | register returns the new row's id together with the email it was given |
| AuthServer.Login | app/utils/auth.server.ts:60-76 | login returns a user exactly when one is found and the password matches; the result carries that user's id and the email |
| AuthServer.LoginAfterRegister | app/utils/auth.server.ts:57-75 | logging in with the registered email and a matching password returns what register returned |
| AuthServer.GetUserId | app/utils/auth.server.ts:109-114 | getUserId returns the stored value exactly when it is a non-empty string |
| AuthServer.RequireUserId | app/utils/auth.server.ts:116-127 | requireUserId passes exactly when getUserId finds a user, with the same id; otherwise it redirects to /auth/login carrying redirectTo |
| AuthServer.CreateUserSession | app/utils/auth.server.ts:95-103 | the redirect goes to redirectTo, and the session then yields the user id (unless it is empty) |
| AuthServer.SessionAuthorizesItsUser | app/utils/auth.server.ts:95-127 | a request carrying the session created for a non-empty id passes requireUserId as that user |
| Dashboard.DurationOrZero | app/routes/dashboard.tsx:87 | a null duration counts as 0, and any number is kept |
| Dashboard.RecentWorkoutLogs | app/routes/dashboard.tsx:48-52 | take 5: the first min(5, n) logs, in order |
| Dashboard.ThisWeekLogs | app/routes/dashboard.tsx:77-83 | this week's logs are exactly those of the recent logs dated at or after the cutoff, and there are no more of them than recent logs |
| Dashboard.ThisWeekLogsKeepsOrder | app/routes/dashboard.tsx:81-83 | the selection keeps the logs' order |
| Dashboard.ThisWeekLogsIsPrefix | app/routes/dashboard.tsx:48-83 | with logs newest first, this week's logs are a prefix of them |
| Dashboard.NoneInWeek | app/routes/dashboard.tsx:48-83 | when the newest log is older than the cutoff, no log is this week's |
| Dashboard.ZoneTotalAppend | app/routes/dashboard.tsx:86-92 | a zone's weekly total is additive over any split of the logs |
| Dashboard.ZoneTotalOfOne | app/routes/dashboard.tsx:86-92 | one log contributes exactly its duration in that zone |
| Dashboard.TotalIsSumOfLogTimes | app/routes/dashboard.tsx:86-100 | the five zone totals add up to the sum, over the week's logs, of each log's time in all zones |
| Dashboard.WeeklyZoneTotals | app/routes/dashboard.tsx:86-100 | totalTrainingTime is the sum, over the week's logs, of each log's time in all zones |
| Dashboard.ZoneTotal | app/routes/dashboard.tsx:86-92 | with no negative duration, a zone's total is non-negative |
| Dashboard.WeeklyTotalsBounded | app/routes/dashboard.tsx:86-100 | with no negative duration, each zone total lies between 0 and totalTrainingTime |
| Dashboard.WeeklySummaryCard | app/routes/dashboard.tsx:273-365 | no-logs text exactly when this week has no log; bars exactly when the total is positive, with width (zone total / total) * 100 per zone |
| Dashboard.BarsFillTheWidth | app/routes/dashboard.tsx:284-307 | the five bar widths add up to 100%, and with no negative duration each is between 0% and 100% |
| Dashboard.WidthBounded | app/routes/dashboard.tsx:290 | a part between 0 and the total gives a width between 0% and 100% |
| Dashboard.ZoneTimes | app/routes/dashboard.tsx:390-396 | zoneTimes holds the five durations, zone 1 first, with null as 0 |
| Dashboard.PrimaryZone | app/routes/dashboard.tsx:397-398 | the primary zone has the largest time, and no earlier zone has as much |
| Dashboard.PrimaryZoneBadge | app/routes/dashboard.tsx:401-450 | the badge is shown exactly when some zone time is positive, and it names the primary zone with that zone's colour |
| Dashboard.PrimaryBadgeZoneHasTime | app/routes/dashboard.tsx:444-446 | a shown badge's zone holds positive time |
| Dashboard.AvgHeartRateZone | app/routes/dashboard.tsx:410-412 | no zone exactly when the average heart rate is null or 0; otherwise the classifier's zone for it |
| Dashboard.AvgZoneBadge | app/routes/dashboard.tsx:410-437 | the Z badge is shown exactly when the average is present, non-zero and at least half the max, and it shows the classified zone with that zone's colour |
| Dashboard.TodayWorkout | app/routes/dashboard.tsx:71-74 | today's workout exists exactly when the active plan has a workout on today's weekday, and it is the first such workout |
| Dashboard.TodayCardOf | app/routes/dashboard.tsx:195-267 | the card shows today's workout if there is one, else the rest-day text naming the weekday when a plan is active, else the no-plan text |
| Zod.FieldsOfConcat | app/routes/auth.register.tsx:107-115 | the fields of two issue lists together are the union of their fields |
| Zod.MessagesFor | app/routes/auth.register.tsx:120 | a field's messages are empty exactly when no issue concerns that field |
| Zod.Format | app/routes/auth.register.tsx:120 | format() has no form-level errors; its keys are exactly the fields with issues, and each holds that field's messages, never empty |
| Zod.Flatten | app/routes/auth.register.tsx:120 | flatten() has no form errors; its fieldErrors keys are exactly the fields with issues, and each holds that field's messages, never empty |
| Zod.FormattedProperty | app/routes/auth.register.tsx:120 | a property of format() is undefined exactly when it is neither `_errors` nor one of the error's keys (by Format's contract, the fields with issues) |
| Zod.FlattenAgreesWithFormat | app/routes/auth.register.tsx:120 | flatten().fieldErrors has exactly the fields with issues, each with the same non-empty list that format() nests under it |
| Zod.FormatHasNoFieldErrors | app/routes/auth.register.tsx:120 | reading `fieldErrors` off format() is undefined unless an issue concerns a field of that name |
| GoalsNew.GoalTypesHaveDistributions | app/routes/goals.new.tsx:16 | the enum's goal types are exactly the keys of the recommended distributions |
| GoalsNew.DescriptionIssues | app/routes/goals.new.tsx:19-25 | customDescription has issues exactly when it is present and shorter than 5 characters; each issue carries the 5-character message |
| GoalsNew.GoalSchemaRules | app/routes/goals.new.tsx:15-30 | the schema reports type exactly for a value outside the enum, customDescription exactly for a present value under 5 characters, startDate exactly when it is missing, and nothing else |
| GoalsNew.GoalSchemaIssues | app/routes/goals.new.tsx:15-30 | the schema reports no issue exactly when the type is in the enum, a present customDescription has at least 5 characters, and startDate is present |
| GoalsNew.LastIssueFor | app/routes/goals.new.tsx:109-113 | the index of the last issue about a field, or -1 when no issue concerns it |
| GoalsNew.FieldErrorMap | app/routes/goals.new.tsx:109-113 | the fold keys exactly the fields with issues, and each holds its last issue's message |
| GoalsNew.CollectFieldErrors | app/routes/goals.new.tsx:109-113 | the in-place reduce loop produces the fold's map |
| GoalsNew.FieldErrorMapOfUniformField | app/routes/goals.new.tsx:109-113 | issues that all carry one field and message fold to that single entry |
| GoalsNew.OrEmpty | app/routes/goals.new.tsx:72-74 | an absent entry becomes "", and a present value is kept |
| GoalsNew.OrUndefined | app/routes/goals.new.tsx:73-75 | an absent or empty entry becomes undefined, and any other value is kept |
| GoalsNew.GoalAction | app/routes/goals.new.tsx:68-119 | requireUserId first: a redirect to /auth/login carrying the request path exactly when the session has no user; otherwise the signed-in action for that user |
| GoalsNew.SignedInGoalAction | app/routes/goals.new.tsx:72-117 | for a signed-in user, a goal is created exactly when the type is in the enum, a custom goal has a description of at least 5 characters that is not all white space, and the create succeeds; a created goal redirects to /dashboard and holds the user and the submitted values; an error response is never empty |
| GoalsNew.InvalidTypeRejected | app/routes/goals.new.tsx:79-115 | for a signed-in user, a type outside the enum is reported under `type` with its message, and nothing is created |
| GoalsNew.CustomGoalNeedsDescription | app/routes/goals.new.tsx:87-91 | for a signed-in user, a custom goal with a missing, empty, or long-enough all-white-space description gets exactly the "required" message |
| GoalsNew.ShortCustomDescriptionRejected | app/routes/goals.new.tsx:19-25 | for a signed-in user, a custom description of 1 to 4 characters gets exactly the 5-character message |
| GoalsNew.CreateFailureIsGeneralError | app/routes/goals.new.tsx:72-117 | for a signed-in user, a goal whose type is valid, and whose description passes both checks when the type is custom, gets exactly the general message when the create fails |
| GoalsNew.GoalTypeLabel | app/routes/goals.new.tsx:147-151 | the label is the custom label exactly when the type is not one of the four named types |
| GoalsNew.GoalTypeLabelsDistinct | app/routes/dashboard.tsx:118-122 | the four named types have four different labels |
| AuthRegister.NumberIssues | app/routes/auth.register.tsx:24-28 | every issue of a number field is about that field |
| AuthRegister.NumberIssuesIff | app/routes/auth.register.tsx:24-39 | a number field has no issue exactly when it is finite, within [min, max], and an integer where `.int()` applies |
| AuthRegister.EmailIssues | app/routes/auth.register.tsx:19 | the email has an issue exactly when it fails the email pattern |
| AuthRegister.PasswordIssues | app/routes/auth.register.tsx:20-22 | the password has an issue exactly when it has fewer than 6 characters |
| AuthRegister.NameIssues | app/routes/auth.register.tsx:23 | the name has an issue exactly when it is empty |
| AuthRegister.GenderIssues | app/routes/auth.register.tsx:29-31 | the gender has an issue exactly when it is outside the four values |
| AuthRegister.RegisterIssues | app/routes/auth.register.tsx:18-40 | the schema reports no issue exactly when every rule holds |
| AuthRegister.SafeParse | app/routes/auth.register.tsx:107-117 | success exactly when there is no issue; a failure carries the issues; success data is the input, with the age an integer in 10..100 |
| AuthRegister.RegisterIssueFields | app/routes/auth.register.tsx:18-40 | every reported issue is about one of the seven keys |
| AuthRegister.FieldErrorsAsWrittenUndefined | app/routes/auth.register.tsx:120 | as written, the 400 response's fieldErrors is undefined whatever failed |
| AuthRegister.FieldErrorsLostForYoungAge | app/routes/auth.register.tsx:120 | age 5 with all else valid: format() files the minimum-age message under `age`, flatten() under `fieldErrors.age`, and `format().fieldErrors` is undefined |
| AuthRegister.FieldErrorsCorrected | app/routes/auth.register.tsx:120 | the corrected fieldErrors holds every field with an issue, with all its messages in order, and no other field |
| AuthRegister.CreateFailure | app/routes/auth.register.tsx:138-154 | status 400 with the duplicate-email message exactly for P2002 on email; otherwise 500 with the error message; the fields are echoed |
| AuthRegister.StringEntriesReachValidation | app/routes/auth.register.tsx:66-89 | seven string entries pass the type check unchanged |
| AuthRegister.NonStringEntryIsFormError | app/routes/auth.register.tsx:66-79 | any entry that is not a string gives 400 with the form-not-submitted message and no fields |
| AuthRegister.RegisterAction | app/routes/auth.register.tsx:56-156 | the form-not-submitted 400 with no fields is returned exactly when some entry is not a string |
| AuthRegister.ParsedValues | app/routes/auth.register.tsx:91-95 | the strings are kept; age is NaN exactly when parseInt finds no digit and otherwise the integer it read; height and weight are parseFloat of their text |
| AuthRegister.ActionOnStrings | app/routes/auth.register.tsx:106-156 | field errors, with 400 and the strings echoed, exactly when the parsed values fail the schema; a session exactly when they pass and the create succeeds; a form error echoes the strings |
| AuthRegister.ValidationFailureEchoesFields | app/routes/auth.register.tsx:106-125 | field errors exactly when the schema reports issues, with status 400 and the submitted strings unchanged; as written the sent `fieldErrors` is undefined, corrected it has one entry per field with issues, holding that field's messages |
| AuthRegister.RegisteredIff | app/routes/auth.register.tsx:106-137 | a session is created, redirecting to /dashboard, exactly when the parsed values satisfy the schema and the create succeeds; the stored user is register's record of the validated values, so it has the email, the hash, the submitted name and gender, the parsed height and weight, a max heart rate in 147..205, contiguous ascending zone bounds and zone 5 ending at the max |
| AuthRegister.CreateFailureOutcome | app/routes/auth.register.tsx:138-154 | a failed create gives 400 with the duplicate-email message for P2002 on email, and 500 with its message otherwise |
| AuthRegister.AgePreview | app/routes/auth.register.tsx:183-190 | a preview exactly when parseInt gives a positive number, and it is calculateMaxHeartRate of that number |
| AuthRegister.AgePreviewOfTypedAge | app/routes/auth.register.tsx:183-190 | typing an age (leading white space and trailing text allowed) previews its max heart rate; 0 and negative ages preview nothing |
| AuthRegister.AgePreviewForFormAges | app/routes/auth.register.tsx:183-186 | for ages 10..100 the preview is shown and lies in 147..205 |
| AuthRegister.InitialFormData | app/routes/auth.register.tsx:161-169 | the form starts with the seven keys; each non-gender field holds the echoed value, or "" with nothing to echo; gender holds the echoed value when non-empty and "male" otherwise |
| AuthRegister.RegisterForm.constructor | app/routes/auth.register.tsx:161-171 | the initial form data, and no preview |
| AuthRegister.RegisterForm.HandleInputChange | app/routes/auth.register.tsx:173-191 | stores the value under the input's name; a non-empty age recomputes the preview; any other change keeps it |

## Left out

- Numbers: IEEE-754 doubles are modelled as exact rationals.
  - Rounding error in `0.64 * age` and `maxHeartRate * 0.6` is not modelled. The outputs can differ only where a product lands within a rounding error of a .5 tie.
  - A huge digit string that would parse to Infinity, and a -0, are not modelled.
- Strings are sequences of code points, not UTF-16 units. The password and description lengths count code points.
- The email pattern of `z.string().email()` is a parameter `isEmail`.
- Hashing is a parameter: the hash passed to register, and whether `bcrypt.compare` matched.
- `prisma.user.create` and `prisma.trainingGoal.create` are parameters: the create's outcome, or whether it succeeded.
  - Date parsing of `startDate` and `targetDate` is folded into that outcome.
  - A `meta.target` that is a single string rather than a list is not modelled.
- A failure of bcrypt or of the session store inside the registration try block is not modelled separately. It would take the same 500 path as a create failure with another code.
- The session cookie store is not modelled. Its signing, expiry and the URL encoding of `redirectTo` in the login redirect are left out; the redirect keeps the path and the raw `redirectTo`.
- Time is a parameter:
  - `new Date()` and the one-week cutoff are the `cutoff` argument;
  - `getDay()` is the `today` argument;
  - `toLocaleDateString` output is not modelled.
- The dashboard's rounded percentage labels (`Math.round(share * 100)`) are not modelled; only the bar widths are.
- JSX markup, styling, activity-type labels and the planned workout's per-zone lines are not modelled.
- React state semantics are not modelled:
  - the class updates in place where React schedules a re-render;
  - the closure over a stale `formData` is not modelled.
- `getUser` and `logout` are not modelled.
- The login route is not part of this model.
- The registration catch around `parseInt`/`parseFloat` (auth.register.tsx:96-104) is not modelled. Those functions never throw, so it is unreachable.
- `AuthServer.RequireUserId`'s default `redirectTo` is not modelled: the caller's request path is a parameter (GoalsNew.GoalAction's `requestPath`).
- The dashboard loader's `requireUserId` guard (dashboard.tsx:14) and its database queries are not modelled. The dashboard computations take the loaded user, logs and plan as arguments.
- Dashboard.AvgHeartRateZone, Dashboard.AvgZoneBadge and HeartRate.DetermineHeartRateZone: each requires a positive max heart rate. A stored max of 0 would make the ratio Infinity or NaN, and that is not modelled.
- `zoneDescriptions` text and the distribution names and descriptions are copied as data. Only coverage and the sums are proved about them.

## Findings

| source | as written | input that shows it | evidently intended | confidence | as-written member | corrected member |
|---|---|---|---|---|---|---|
| app/routes/auth.register.tsx:120 | the 400 response sends `result.error.format().fieldErrors`, a property `format()` never has, so the value is undefined and the form (lines 217, 233 and on) shows no field message | age "5", with every other field valid | `result.error.flatten().fieldErrors`, whose per-field message lists the form reads as `fieldErrors.<field>` | not executed | AuthRegister.FieldErrorsLostForYoungAge | AuthRegister.FieldErrorsCorrected |
