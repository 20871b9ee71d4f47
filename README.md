# StressSense core, modelled in Dafny

StressSense is a student stress tracker. A React client collects lifestyle
answers and posts them to an Express server. The server forwards the eight
behavioural fields to a prediction service, reads a 0–100 score from the
reply, maps it to one of five categories of advice and stores the
assessment in MongoDB. A returning user's dashboard charts the history and
shows its latest, average, highest and lowest scores. A gauge shows a
single score in three colour bands. Registration is validated by the same
three regular expressions on both sides.

This project models that core as pure Dafny:

| file | module | models |
|---|---|---|
| `js.dfy` | `Js` | JSON request values and the JavaScript semantics the code relies on: truthiness, `??`, `Number(...)`, `String(...)`, `\s`, `toLowerCase` |
| `patterns.dfy` | `Patterns` | the name, e-mail and password regular expressions |
| `recommendations.dfy` | `Recommendations` | `getRecommendations` |
| `assessment_schema.dfy` | `AssessmentSchema` | the assessment schema's save-time validation |
| `server.dfy` | `Server` | the register, predict, submit-assessment and history routes |
| `auth_form.dfy` | `AuthForm` | the sign-up form's `validateRegister` and the login e-mail check |
| `dashboard.dfy` | `Dashboard` | the returning-user dashboard's series, colours and statistics |
| `gauge.dfy` | `Gauge` | the gauge's segments, status text and status colour |
| `pipeline.dfy` | `Pipeline` | stored records flowing through the history route into the dashboard |

Every route is a function of its inputs:
- the Mongo collections are sequences that a route appends to, and the route returns the new sequence;
- the prediction service is a function parameter from the posted payload to a reply or a failure;
- the clock is a parameter `now`.

No source file keeps state in place: the handlers are request/response
functions and the client code computes values from props and state. So
there is no class in the model.

Two behaviours of backend/server.js are worth stating plainly:
- The server stores `Number(...)` of the reply's score as it is, without clamping. The prediction service clamps its own score to 0–100 (backend/ml_api.py:130), but the server does not rely on that: the schema's `max: 100` rejects a larger score at save time (`Server.SubmitAssessment`, `Server.RejectedInputIsScoredNotStored`).
- An unrecognised gender is not rejected when the request arrives. The handler lower-cases any string, and only the schema's enum check rejects it, at save time, after the scorer has been called (`Server.UnknownGenderRejected`).

## Model

| member | source | states |
|---|---|---|
| Js.ToNumber | backend/server.js:358-365 | `Number(undefined)` is NaN, `Number(null)` is 0, and a number is itself |
| Js.ToJsString | backend/server.js:41-45 | `String(undefined)` is "undefined", and a string converts to itself |
| Js.NumberOfStringRoundTrip | backend/server.js:358 | `Number(String(n)) == n` for every integer: the string form of a number reads back as that number |
| Js.NatToDecimal | backend/server.js:41-45 | the decimal form of a natural is a non-empty digit string with no leading zero whose value is the number |
| Js.ToLowerAscii | backend/server.js:359 | lower-casing keeps the length and maps each upper-case ASCII letter to its lower-case form, leaving every other character alone |
| Js.TrimStart | backend/server.js:358 | the result is a suffix that does not start with white space, and only white space was removed |
| Js.TrimEnd | backend/server.js:358 | the result is a prefix that does not end with white space, and only white space was removed |
| Patterns.IndexOf | backend/server.js:42-43 | `None` exactly when the character is absent; otherwise the index of its first occurrence |
| Patterns.EmailFormatMatchesPattern | backend/server.js:42-43 | the scanning check accepts exactly the strings that three `[^\s@]+` runs, joined by `@` and then `.`, match |
| Recommendations.GetRecommendations | backend/server.js:50-103 | every result carries exactly four pieces of advice |
| Recommendations.BandMatchesBounds | backend/server.js:52-92 | a numeric level gets a band iff the level lies within that band's bounds (≤20, ≤40, ≤60, ≤80, above) |
| Recommendations.BoundariesGoToLowerBand | backend/server.js:52-92 | 20, 40, 60 and 80 belong to the lower band, and 21, 41, 61 and 81 to the next |
| Recommendations.NaNIsVeryHigh | backend/server.js:92-101 | a NaN level fails every comparison and gets "Very High Stress" |
| Recommendations.SeverityMonotone | backend/server.js:52-102 | a higher level never gets a less severe band |
| Recommendations.LabelsDistinct | backend/server.js:54-94 | the five category labels are pairwise distinct |
| Recommendations.AdviceDeterminedByCategory | backend/server.js:50-103 | two results with the same category carry the same advice |
| AssessmentSchema.ValidIffNoInvalidField | backend/models/Assessment.js:5-32 | a record passes validation iff no field fails its rule |
| AssessmentSchema.SleepHoursBounds | backend/models/Assessment.js:20 | sleep hours 0 and 24 pass; 25 fails, and `sleepHours` is then the only failing field |
| AssessmentSchema.UnboundedAndOptionalFields | backend/models/Assessment.js:22-28 | the two pressures accept any number; the stress level may be absent, and is otherwise bounded by 0 and 100 |
| Server.MissingNamePassesNameCheck | backend/server.js:41 | a missing or null name is tested as "undefined" or "null" and passes; an empty name fails |
| Server.EmailCheckNeedsString | backend/server.js:42-43 | only a JSON string can pass the e-mail check |
| Server.Register | backend/server.js:230-259 | the name, e-mail and password checks run in that order, each failing with 400; the duplicate check comes next (409); the account is appended only on 201, and the account list is unchanged otherwise |
| Server.RegisterKeepsEmailsUnique | backend/server.js:246-251 | registration never creates a second account for an e-mail address |
| Server.FirstNonNullish | backend/server.js:344-349 | the chain yields `undefined` iff every key is nullish; otherwise it yields the value of the first key that is not nullish |
| Server.ExtractScorePriority | backend/server.js:344-349 | the score is read from `predicted_score`, then `prediction`, then `score`, skipping only null and undefined, and is 0 when all three are nullish |
| Server.ZeroScoreIsKept | backend/server.js:344-349 | a primary score of 0 is kept even when a fallback key holds another value |
| Server.PayloadIsBehaviouralOnly | backend/server.js:333-342 | the scorer receives exactly the behavioural fields present in the body, unchanged, and never the media fields or the user id |
| Server.PredictStress | backend/server.js:129-151 | the route succeeds iff the scorer replies; the score is read by the same rule as the submit route, and the advice is that score's |
| Server.StoredGender | backend/server.js:359 | a falsy gender becomes "other" and a string is lower-cased; any other truthy value makes the handler throw |
| Server.SubmitAssessment | backend/server.js:325-383 | 400 iff `userId` is falsy, with no scorer call; otherwise exactly one scorer call, with the behavioural payload; a failure stores nothing; a save appends the record built from the body (`BuildRecord`: the normalised media, gender and numbers, the returned score, stamped `now`), which is valid, and returns that score's advice; a record that would be valid is always saved |
| Server.SavedRecordNormalisation | backend/server.js:354-367 | media are kept when truthy and null otherwise; gender is lower-cased, or "other"; each of the seven numeric fields goes through `Number(...)` |
| Server.RejectedInputIsScoredNotStored | backend/server.js:333-381 | whenever the record built from a scored request fails the schema, or the gender cannot be lower-cased, the request has still been sent to the scorer, the answer is 500 and nothing is stored |
| Server.OutOfRangeInputIsScoredThenRejected | backend/server.js:333-381 | any sleep value outside 0–24, or not a number, is still sent to the scorer, then rejected with 500 and not stored |
| Server.UpperCaseGenderAccepted | backend/server.js:359 | "MALE" is stored as "male" |
| Server.UnknownGenderRejected | backend/server.js:359-381 | a non-empty gender string that does not lower-case to "male", "female" or "other" is stored lower-cased, so the request is scored, answered with 500, and not stored |
| Server.BothRoutesAgreeOnScore | backend/server.js:133 | for the same scorer reply, the predict route and the submit route return the same score and category |
| Server.RecordsOf | backend/server.js:391 | a record is in the filter iff it is a stored record of that user |
| Server.RecordsOfCounts | backend/server.js:391 | the filter holds each of the user's records exactly as often as the store does, and no other record |
| Server.InsertByCreatedAt | backend/server.js:391 | inserting into a sorted list keeps it sorted by `createdAt` and adds exactly that record |
| Server.SortByCreatedAt | backend/server.js:391 | the sort is ascending by `createdAt` and is a permutation of its input |
| Server.HistoryMembership | backend/server.js:391-392 | the history holds exactly the user's stored records, and is non-empty iff the user has one |
| Server.SavedAssessmentReadBack | backend/server.js:354-392 | a saved assessment is returned by its user's history, carrying the request's feature values through `Number(...)` and the returned score |
| Server.GetHistoryRoute | backend/server.js:388-397 | `hasHistory` is true iff the history is non-empty, iff the user has a stored record; the history is sorted and is a permutation of the user's records |
| Server.HistoryInSaveOrder | backend/server.js:391 | when stored times never decrease, the history is the user's records in save order |
| Server.SortOfSortedIsIdentity | backend/server.js:391 | sorting an already sorted list leaves it unchanged |
| AuthForm.FirstFailingCheckReported | src/AuthForm.jsx:22-55 | the message shown is that of the first check, in order, that fails |
| AuthForm.AcceptedIffAllChecksPass | src/AuthForm.jsx:22-55 | the form is accepted iff every check passes |
| AuthForm.MessagesDistinct | src/AuthForm.jsx:27-50 | the five messages are pairwise distinct |
| AuthForm.MismatchReportedBeforeStrength | src/AuthForm.jsx:43-52 | a mismatched confirmation is reported even when the password is also weak |
| AuthForm.RegisterPayload | src/AuthForm.jsx:66-70 | the form posts exactly the name, e-mail and password keys, carrying the form's name, e-mail and password |
| AuthForm.ClientAcceptedPassesServerChecks | src/AuthForm.jsx:22-55 | a form the client accepts passes all three server checks, so the server answers 201 or 409 |
| AuthForm.HandleLogin | src/AuthForm.jsx:94-104 | the login request is sent iff the e-mail has the right shape, and carries the typed e-mail and password; otherwise the e-mail error is shown |
| Dashboard.FillAndBorderAgree | src/ExistingUserHome.jsx:91-101 | each bar's fill and border name the same band; green iff the value is at most 40, red iff it is above 70 |
| Dashboard.Max | src/ExistingUserHome.jsx:134 | the highest score is one of the scores and is at least every score |
| Dashboard.Min | src/ExistingUserHome.jsx:135 | the lowest score is one of the scores and is at most every score |
| Dashboard.RoundedQuotient | src/ExistingUserHome.jsx:130-132 | `Math.round(num/den)` is the integer nearest to the quotient, with halves rounded up |
| Dashboard.SumBounds | src/ExistingUserHome.jsx:131 | the sum of n scores lies between n times their lower bound and n times their upper bound |
| Dashboard.RoundedMeanBetween | src/ExistingUserHome.jsx:130-132 | a rounded mean stays within the bounds of what it averages |
| Dashboard.StressValues | src/ExistingUserHome.jsx:89 | the series is each history item's stress level, in order |
| Dashboard.Summarize | src/ExistingUserHome.jsx:68-136 | an empty history gives the welcome view; otherwise the labels, values and colours follow the history item by item, `latest` is the last score, `highest` and `lowest` are the bounds of the scores, `average` is the rounded mean and lies between them, and `total` is the count |
| Dashboard.ThreeAssessmentsExample | src/ExistingUserHome.jsx:129-136 | scores 40, 60 and 20 give latest 20, average 40, highest 60, lowest 20 and a total of 3 |
| Dashboard.StatisticsWithinScoreRange | src/ExistingUserHome.jsx:129-136 | scores within 0–100 give statistics within 0–100 |
| Gauge.RunningTotals | src/GaugeChart.jsx:11 | the segments' running totals are 33, 66 and 100 |
| Gauge.GaugeDataTotals100 | src/GaugeChart.jsx:72 | the padding segment is 0, so the doughnut's data is 33, 33, 34, 0 and totals 100 |
| Gauge.TextAndColorAgree | src/GaugeChart.jsx:113-123 | the status text and the status colour always name the same band |
| Gauge.StatusBoundaries | src/GaugeChart.jsx:113-117 | 33 and 66 belong to the lower band, and 34 and 67 to the next |
| Gauge.StatusMonotone | src/GaugeChart.jsx:113-117 | a higher score never shows a less severe status |
| Gauge.SegmentAt | src/GaugeChart.jsx:11-12 | a 0–100 score falls in the first segment whose running total reaches it |
| Gauge.StatusColorIsSegmentColor | src/GaugeChart.jsx:72-73 | the status colour is the colour of the arc segment the score falls in |
| Pipeline.SubmitKeepsStoreScored | backend/server.js:354-369 | every submission keeps every stored record valid and scored |
| Pipeline.ToHistoryItem | src/ExistingUserHome.jsx:82-89 | a stored, scored record gives the dashboard its time and a score within 0–100 |
| Pipeline.ToHistoryItems | src/ExistingUserHome.jsx:82-89 | the dashboard reads each history record in order |
| Pipeline.DashboardOfStoredHistory | src/ExistingUserHome.jsx:129-136 | a user with a saved assessment sees a summary counting their records, with lowest ≤ average ≤ highest, all within 0–100 |

## Left out

- Numbers are integers. The scorer's fractional scores and fractional inputs such as 7.5 hours of sleep are not modelled, and neither is floating-point rounding in the mean.
- `Js.ToNumber`: `Number(...)` of a string is modelled only for decimal integers with an optional sign, surrounded by white space. Fractions, exponents, hexadecimal, binary and octal literals and `Infinity` read as NaN in the model, but as numbers in JavaScript.
- `Js.ToJsString`: `String(n)` switches to exponent form for magnitudes of 10^21 and above; the model always writes plain digits.
- `Js.ToLowerAscii`: `toLowerCase` is modelled on ASCII letters only. This does not change which genders pass the enum check, because no non-ASCII character lower-cases to a letter of "male", "female" or "other".
- JSON objects and arrays inside a request body are not modelled. Request fields are null, booleans, integers or strings.
- `Server.SubmitAssessment`: Mongoose's cast of `userId` to an ObjectId is not modelled; any truthy `userId` is accepted. Its String cast of non-string media values is not modelled either.
- `Server.RegisterKeepsEmailsUnique`: the model handles one request at a time. In the server the duplicate check (backend/server.js:246) and the insert (backend/server.js:251) are separate awaits, so two concurrent registrations with the same e-mail can both pass; the uniqueness proved holds only for registrations one after another.
- `Server.GetHistoryRoute`: a `userId` that is not a valid ObjectId makes the query's cast throw and the route answer 500 (backend/server.js:393-396); the model answers `hasHistory: false` with an empty history instead.
- `Server.GetHistory`: MongoDB leaves the order of records with equal `createdAt` unspecified. The model keeps them in store order (a stable sort).
- Database failures other than validation, the 500 responses they cause, the request timeout and the error `details` text are not modelled. The scorer's failure is a single `ScorerFailed` reply.
- The User model (backend/models/User.js) is not part of this model. An account is its name and e-mail; password hashing is not modelled.
- The login, forgot-password, reset-password and update-profile routes are not modelled: they rest on bcrypt, JWT and nodemailer. The health check, Express, CORS and body parsing are left out as well.
- The prediction service itself (backend/ml_api.py) is a parameter of the model.
- The dashboard's date labels are the raw `createdAt` times; their `toLocaleDateString` formatting is not modelled.
- The gauge's needle geometry and canvas drawing are not modelled, and neither is the chart configuration.
- The dashboard's random quote, the client's HTTP calls, `localStorage`, React state and navigation are left out. The other client pages (profile, password reset, header) are not part of this model.
