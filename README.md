# Admin_Quizz_App admin pages, modelled in Dafny

This project models the rules inside the administrator pages of a quiz platform's web dashboard. Every page loads data from a REST API and renders it. The modelled part is what each page computes from that data and how its held state changes:

- **Dashboard**
  - The mean submission score.
  - The share of submissions in each of five score buckets.
  - The mean test time limit and its hours/minutes text.
  - The summary record, and the zeroed record used when any request fails.
  - The row arrays of the spreadsheet export.
- **Users**
  - The search and school filter.
  - The de-duplicated school list.
  - Pages of four users and the range caption.
  - The confirm dialog for activating or deactivating a user.
- **Tests list**
  - The title/teacher search and the subject filter.
  - The unique subjects.
  - The subject colour classes, the question count and the metadata-is-array guard.
- **Test detail**
  - The time-limit text.
  - Dropping failed question fetches.
  - The ban toggle.
- **Pending teacher requests**
  - The held list, from which a successful approve or reject removes every request with the given id.
  - A failure keeps the list and sets the page's error.

JavaScript semantics are written out where they matter:

- Truthiness of optional strings (`Text.Truthy`) and `x || fallback` (`Text.OrElse`).
- ASCII lower-casing and `includes`.
- `Math.floor`; `Math.round` as floor(x + 0.5); the truncated `%` on non-negative reals.
- Decimal rendering of integers in template strings.

Scores and averages are exact `real`s. `toFixed(2)` is kept abstract as `Dashboard.Fixed2(x, suffix)`.

Each network call becomes an input to the operation that consumes it: a success with its payload, or a failure. Each page's state is a `class` whose fields are the React state variables. Each handler is a method that states its whole new state.

The model follows the code as written, including its surprising behaviours:

- The four dashboard requests are awaited one after another (Dashboard.jsx:180-215), so they never run concurrently.
- Several behaviours are stated as lemmas and not smoothed over:
  - An average of 119.5 minutes reads "1h 60m"; a mean of 59.5 reads "60 minutes".
  - Whole hours keep a trailing space ("2 hours ").
  - An undefined time limit reads "NaN hour ", and a `null` one reads "null minutes".
  - Scores on a bucket boundary are counted twice.
  - Admin rows are paginated but not rendered.
  - A new search term or school keeps the page number, which can then lie past the last page, where Next stays enabled.

Modules: `Wrappers` (Option and the outcome of a request), `Text` (strings and numbers as JavaScript renders them), `Seqs` (filter, counting, de-duplication, subsequence), and one module per page: `Dashboard`, `Users`, `QuizzTest`, `TestDetail`, `PendingTeachers`.

## Model

| member | source | states |
|---|---|---|
| Dashboard.AverageScore | admin/src/pages/Dashboard.jsx:38-50 | an absent or empty list gives the number 0; otherwise the two-decimal rendering of a mean that, times the count, gives the total score |
| Dashboard.CalculateAverageScore | admin/src/pages/Dashboard.jsx:44-49 | the accumulating loop returns exactly the specified average |
| Dashboard.MeanBetweenMinAndMax | admin/src/pages/Dashboard.jsx:44-49 | the mean of a non-empty list lies between its lowest and highest score |
| Dashboard.PointsPercentage | admin/src/pages/Dashboard.jsx:52-67 | "0.00" for an absent or empty list; otherwise 100 × (submissions with min ≤ score ≤ max) / count, a value in [0, 100] |
| Dashboard.PointsPercentageMonotone | admin/src/pages/Dashboard.jsx:58-66 | widening the range never lowers the percentage |
| Dashboard.InRangeCount | admin/src/pages/Dashboard.jsx:58-62 | the number of submissions with min ≤ score ≤ max, each counted once per occurrence, never more than the list |
| Dashboard.ScoreDistribution | admin/src/pages/Dashboard.jsx:248-269 | five buckets labelled "0-2" … "8-10", each holding the percentage of its closed range |
| Dashboard.BucketCountSumIsHits | admin/src/pages/Dashboard.jsx:60-62 | the five in-range counts add up to the number of bucket memberships of all scores |
| Dashboard.TotalBucketsHitLower | admin/src/pages/Dashboard.jsx:61 | with all scores in [0, 10], the bucket memberships are at least as many as the submissions, and more once some score is exactly 2, 4, 6 or 8 |
| Dashboard.BoundaryScoresOverfillBuckets | admin/src/pages/Dashboard.jsx:248-269 | with all scores in [0, 10] and one on an inner boundary, the bucket counts exceed the number of submissions, so the five shares sum past 100 |
| Dashboard.SharesAddUp | admin/src/pages/Dashboard.jsx:64 | shares of a common count add up to the share of the summed counts, and so to more than 100 once the counts exceed the whole |
| Dashboard.Round | admin/src/pages/Dashboard.jsx:86 | Math.round gives the integer nearest to x, with halves rounded up |
| Dashboard.AverageTimeOfAllTests | admin/src/pages/Dashboard.jsx:69-91 | the loop summing `timeLimit \|\| 0` returns the text of the mean time limit, and "0 minutes" for an absent or empty list |
| Dashboard.AverageTimeText | admin/src/pages/Dashboard.jsx:84-90 | the text ends in "m" (the "{h}h {m}m" form) exactly when the mean is at least 60, and in " minutes" otherwise |
| Dashboard.AverageTestTime | admin/src/pages/Dashboard.jsx:69-91 | "0 minutes" for an absent or empty list; the hours form appears exactly when the summed limits reach 60 per test |
| Dashboard.MeanOfAll | admin/src/pages/Dashboard.jsx:71-90 | every non-empty list of tests reads as the text of its mean limit, the value that times the number of tests gives the summed `timeLimit \|\| 0` |
| Dashboard.TotalTimeOfEqualLimits | admin/src/pages/Dashboard.jsx:75-79 | tests that all count the same limit L add up to n·L |
| Dashboard.AverageTestTimeOfEqualLimits | admin/src/pages/Dashboard.jsx:69-91 | when every test counts the same limit, the average test time is the text of that limit |
| Dashboard.AverageTimeHoursForm | admin/src/pages/Dashboard.jsx:84-87 | a mean of at least 60 always gives "{h}h {m}m" with h ≥ 1 and 0 ≤ m ≤ 60: the "{m} minutes" alternative of line 87 is unreachable |
| Dashboard.AverageTimeMinutesForm | admin/src/pages/Dashboard.jsx:88-90 | below 60 the rounded mean is at most 60, so this branch never reads more than "60 minutes"; from -0.5 on the text is that non-negative number and " minutes", below it a minus sign, the magnitude and " minutes" |
| Dashboard.AverageTimeCanShowSixtyMinutes | admin/src/pages/Dashboard.jsx:85-87 | limits 119 and 120 read "1h 60m" |
| Dashboard.AverageTimeCanShowSixtyBelowAnHour | admin/src/pages/Dashboard.jsx:89 | limits 59 and 60 read "60 minutes" |
| Dashboard.AverageTestTimeOneHourExamples | admin/src/pages/Dashboard.jsx:81-87 | [30, 90] and [45, 75] read "1h 0m" |
| Dashboard.AverageTestTimeMinuteExamples | admin/src/pages/Dashboard.jsx:71-90 | [10, 20] and [missing, 30] read "15 minutes"; no tests read "0 minutes" |
| Dashboard.DashboardFor | admin/src/pages/Dashboard.jsx:217-287 | any failed request gives the zeroed record with no buckets; otherwise tests are counted over `metadata \|\| []`, students and teachers default to 0 without metadata, and both averages and the five buckets are taken over the loaded lists |
| Dashboard.FailureIgnoresOtherResponses | admin/src/pages/Dashboard.jsx:273-287 | two failed loads leave the same record, with zero tests and no buckets, whatever the other responses were |
| Dashboard.SummaryExample | admin/src/pages/Dashboard.jsx:227-269 | scores 6, 8, 10 average 8.00, and two thirds of them lie in [6, 8] |
| Dashboard.OverviewSheet | admin/src/pages/Dashboard.jsx:101-109 | the header ["Metric", "Value"] and six rows, each a label with its value: tests, students, teachers, average score, average test time and the submission count |
| Dashboard.ScoreSheet | admin/src/pages/Dashboard.jsx:129-135 | a header plus one row per bucket, holding its range and its percentage followed by "%" |
| Dashboard.SubmissionSheet | admin/src/pages/Dashboard.jsx:138-145 | a header plus one row per submission: its id or "SUB-{i+1}", its score, and its date or today's |
| Dashboard.TestSheet | admin/src/pages/Dashboard.jsx:148-155 | a header plus one row per test: its id or "TEST-{i+1}", its limit or 0, and its subject or "N/A" |
| Dashboard.GeneratedSubmissionIdsDistinct | admin/src/pages/Dashboard.jsx:141 | two submissions without an id at different positions get different ids |
| Dashboard.GeneratedTestIdsDistinct | admin/src/pages/Dashboard.jsx:151 | two tests without an id at different positions get different ids |
| Dashboard.DashboardPage.constructor | admin/src/pages/Dashboard.jsx:31-36 | the page starts loading with no record and empty lists |
| Dashboard.DashboardPage.FetchDashboardData | admin/src/pages/Dashboard.jsx:179-289 | the record becomes the summary of the responses; the lists are stored only when every request succeeded; loading ends |
| Dashboard.DashboardPage.ExportToExcel | admin/src/pages/Dashboard.jsx:94-155 | nothing without a record; otherwise the four sheets, each one header row plus one row per record |
| Text.Lower | admin/src/pages/Users.jsx:58-62 | lower-casing keeps the length, maps each character on its own, and leaves no upper-case ASCII letter |
| Text.Includes | admin/src/pages/Users.jsx:58-62 | every string includes the empty string, and a string never includes a longer one |
| Text.ContainsIgnoringCase | admin/src/pages/QuizzTest.jsx:52-54 | an absent field never matches, a present field always matches the empty term, and a match needs a term no longer than the field |
| Text.ContainsIgnoresTermCase | admin/src/pages/Users.jsx:57-62 | two terms that lower-case alike match the same fields, and so does the lower-cased term: the search does not depend on the case of the term |
| Text.DistinctTruthyProperties | admin/src/pages/Users.jsx:73-79 | `[...new Set(values.filter(Boolean))]` has no duplicates, keeps first-occurrence order, and holds exactly the non-empty values |
| Text.NatToStringRoundTrip | admin/src/pages/Dashboard.jsx:141 | the decimal text of a number reads back as that number |
| Users.MatchesSearch | admin/src/pages/Users.jsx:56-63 | only a present name, email or student id can match, and the empty term matches exactly the users having one |
| Users.MatchesSchool | admin/src/pages/Users.jsx:64-66 | the empty selection keeps every user; a chosen school keeps only users whose non-empty school equals it |
| Users.Kept | admin/src/pages/Users.jsx:68 | a kept user has a name, email or student id and, once a school is chosen, that school; with an empty term and no school, exactly such users are kept |
| Users.FilteredStudents | admin/src/pages/Users.jsx:56-70 | a user is kept iff the name or email contains the term ignoring case, or the student id contains it with case, and the school filter is empty or equal to the school; the list is as long as the number of kept users, repeated ones included |
| Users.FilteredStudentsInOrder | admin/src/pages/Users.jsx:56-70 | the filtered list is an order-preserving subsequence of the users |
| Users.MissingFieldsNeverMatch | admin/src/pages/Users.jsx:57-64 | a user without name, email and student id is never listed |
| Users.AllSchoolsFiltersBySearchOnly | admin/src/pages/Users.jsx:65-67 | the empty school selection filters by the search alone |
| Users.SchoolNarrowsAllSchools | admin/src/pages/Users.jsx:65-69 | choosing a school keeps exactly that school's users from the "All Schools" list, in order |
| Users.EmptySearchKeepsUsersWithAField | admin/src/pages/Users.jsx:56-70 | with an empty term and all schools, exactly the users having a name, email or student id are listed |
| Users.UniqueSchools | admin/src/pages/Users.jsx:73-79 | the school options hold no duplicate and include the non-empty school of every user |
| Users.UniqueSchoolsProperties | admin/src/pages/Users.jsx:73-79 | the school options have no duplicates or empty names, keep first-occurrence order, and are exactly the schools users have |
| Users.CurrentStudents | admin/src/pages/Users.jsx:82-87 | page p is the slice [(p-1)·4, p·4) of the filtered list: at most 4 users, and empty once (p-1)·4 reaches the length |
| Users.TotalPages | admin/src/pages/Users.jsx:88 | the fewest pages of 4 that hold n users |
| Users.TotalPagesIsRoundedUpQuotient | admin/src/pages/Users.jsx:88 | the page count equals ⌈n / 4⌉ in integer terms |
| Users.PagesPartitionFiltered | admin/src/pages/Users.jsx:82-88 | pages 1 … totalPages, concatenated, are the filtered list |
| Users.Caption | admin/src/pages/Users.jsx:343-345 | the caption reads back as (p-1)·4+1, min(p·4, n) and n, each after its fixed words ("Showing ", " - ", " of "), and ends with " users" |
| Users.CaptionTextRoundTrip | admin/src/pages/Users.jsx:343-345 | reading the three numbers back from "Showing {first} - {last} of {n} users" gives first, last and n, for every three numbers |
| Users.CaptionMatchesPage | admin/src/pages/Users.jsx:343-345 | the caption's two positions span exactly the users of the page when it holds some (their count, and the first of them), and lie past the end on a page beyond the last |
| Users.RenderedRows | admin/src/pages/Users.jsx:252-254 | the table renders the users of the page that are not admins, all of them and in their order on the page |
| Users.AdminsShortenPage | admin/src/pages/Users.jsx:254 | a page holding an admin renders fewer rows than it holds |
| Users.StatusBadge | admin/src/pages/Users.jsx:280-282 | "Active" exactly when `is_active` is anything but false, and "Inactive" otherwise |
| Users.RowAction | admin/src/pages/Users.jsx:294-313 | the button offers "deactivate" exactly when `is_active` is anything but false, and "activate" otherwise |
| Users.RowActionOpposesBadge | admin/src/pages/Users.jsx:275-313 | a row marked Active (`is_active` anything but false) offers Deactivate and calls the deactivate endpoint, and an Inactive row offers and calls Activate |
| Users.PendingFor | admin/src/pages/Users.jsx:137-141 | the pending user records the id, the name or else the email, and the `isActive` flag |
| Users.PendingIgnoresTableFlag | admin/src/pages/Users.jsx:140 | the recorded status comes from `isActive`, never from the table's `is_active` |
| Users.EndpointFor | admin/src/pages/Users.jsx:96-118 | "activate" targets the activate endpoint and any other action the deactivate one, both for the pending user's id |
| Users.UsersPage.constructor | admin/src/pages/Users.jsx:17-27 | the page starts loading on page 1 with everything else empty |
| Users.UsersPage.Shown | admin/src/pages/Users.jsx:82-87 | the current page never shows more than four users |
| Users.UsersPage.PaginationCaption | admin/src/pages/Users.jsx:340-345 | the caption appears iff loading is over with no error and some user is filtered, and then reads the page's range |
| Users.UsersPage.FetchUsers | admin/src/pages/Users.jsx:30-49 | a success replaces the users; a failure keeps them and sets "Unable to load user data"; loading ends either way |
| Users.UsersPage.OpenToggleModal | admin/src/pages/Users.jsx:136-144 | the dialog opens with the user's pending record and the chosen action |
| Users.UsersPage.CancelToggle | admin/src/pages/Users.jsx:405 | cancelling only closes the dialog; the pending user and the action stay set |
| Users.UsersPage.HandleToggleUserStatus | admin/src/pages/Users.jsx:91-133 | with nothing pending nothing happens; otherwise the matching endpoint is requested; a success reloads the users and a failure raises the alert; then the dialog closes and the pending user and action are reset |
| Users.UsersPage.SetSearchTerm | admin/src/pages/Users.jsx:181 | only the term changes; the current page is kept |
| Users.UsersPage.SetSelectedSchool | admin/src/pages/Users.jsx:193 | only the school changes; the current page is kept |
| Users.UsersPage.PreviousPage | admin/src/pages/Users.jsx:348-358 | from any page except the first, it moves back one page |
| Users.UsersPage.NextPage | admin/src/pages/Users.jsx:372-382 | from any page except the last, it moves on one page |
| Users.UsersPage.SelectPage | admin/src/pages/Users.jsx:359-371 | a numbered button moves to that page |
| QuizzTest.FilteredAssessments | admin/src/pages/QuizzTest.jsx:51-58 | an assessment is kept iff its title or teacher id contains the term ignoring case, and the filter is "all" or equals its subject; the list is as long as the number of kept assessments, repeated ones included |
| QuizzTest.FilteredAssessmentsInOrder | admin/src/pages/QuizzTest.jsx:51-58 | the filtered list is an order-preserving subsequence of the assessments |
| QuizzTest.EmptySearchKeepsTitledOrAssigned | admin/src/pages/QuizzTest.jsx:51-58 | with an empty term and "all", exactly the assessments having a title or a teacher id are kept |
| QuizzTest.UntitledUnassignedNeverListed | admin/src/pages/QuizzTest.jsx:52-54 | an assessment with neither title nor teacher id is never listed |
| QuizzTest.SubjectNarrowsAll | admin/src/pages/QuizzTest.jsx:55-57 | choosing a subject keeps exactly that subject's assessments from the "all" list |
| QuizzTest.UniqueSubjects | admin/src/pages/QuizzTest.jsx:91-93 | the subject options hold no duplicate and include the non-empty subject of every assessment |
| QuizzTest.UniqueSubjectsProperties | admin/src/pages/QuizzTest.jsx:91-93 | the subject options have no duplicates or empty names, keep first-occurrence order, and are exactly the subjects present |
| QuizzTest.EverySubjectOptionSelectsItsAssessments | admin/src/pages/QuizzTest.jsx:91-93 | every subject in the drop-down matches the subject of at least one assessment |
| QuizzTest.SubjectColor | admin/src/pages/QuizzTest.jsx:77-88 | each of the seven listed subjects gets its class; every other string gets "bg-gray-100 text-gray-800" |
| QuizzTest.ListedColorsDistinct | admin/src/pages/QuizzTest.jsx:78-86 | different listed subjects get different classes |
| QuizzTest.GreyIffUnlisted | admin/src/pages/QuizzTest.jsx:87 | the grey class is given exactly to the subjects not listed |
| QuizzTest.QuestionCount | admin/src/pages/QuizzTest.jsx:244-246 | an array gives its length, a value gives itself, and no value gives 0 |
| QuizzTest.TimeLimitShown | admin/src/pages/QuizzTest.jsx:252 | the card shows the limit, or 0 when it is missing |
| QuizzTest.AssessmentsFrom | admin/src/pages/QuizzTest.jsx:37 | the metadata becomes the list only when it is an array, and [] otherwise |
| QuizzTest.QuizzTestPage.constructor | admin/src/pages/QuizzTest.jsx:17-21 | the page starts loading with an empty term, the filter "all" and no assessments |
| QuizzTest.QuizzTestPage.Cards | admin/src/pages/QuizzTest.jsx:204-206 | the cards appear iff loading is over without an error, and they are the filtered list |
| QuizzTest.StatusMessage | admin/src/pages/QuizzTest.jsx:32 | the thrown message starts with "Lỗi ", the status reads back from what follows, and it ends with the status text |
| QuizzTest.QuizzTestPage.FetchAssessments | admin/src/pages/QuizzTest.jsx:25-44 | the error is cleared first; a body replaces the list through the array guard; a bad status sets "Lỗi {status}: {text}" and a thrown error sets its message, keeping the list; loading ends |
| TestDetail.FormatTimeLimit | admin/src/pages/TestDetail.jsx:80-86 | the text is never empty; it starts with a digit exactly for a positive limit and with "-" exactly for a negative one |
| TestDetail.TimeLimitRoundTrip | admin/src/pages/TestDetail.jsx:80-86 | the time-limit text determines its input: reading it back gives the minutes, or `null` or undefined as the limit was |
| TestDetail.TimeLimitForms | admin/src/pages/TestDetail.jsx:80-86 | a non-zero limit below 60, negative ones included, reads "{m} minutes"; from 60 on, "{h} hour" with "s" iff h > 1, a space, then "{m mod 60} minutes" iff that is positive |
| TestDetail.NegativeRoundTrip | admin/src/pages/TestDetail.jsx:82 | the text of a negative limit reads back as that limit |
| TestDetail.MinutesRoundTrip | admin/src/pages/TestDetail.jsx:82 | the text of a limit from 1 to 59 reads back as that limit |
| TestDetail.HoursRoundTrip | admin/src/pages/TestDetail.jsx:83-85 | the text of a limit of 60 or more reads back as that limit |
| TestDetail.HoursTextRoundTrip | admin/src/pages/TestDetail.jsx:83-85 | the text of h hours and r minutes reads back as the limit m whenever m = 60·h + r |
| TestDetail.TimeLimitTextsDistinct | admin/src/pages/TestDetail.jsx:80-86 | different limits never share a text |
| TestDetail.WholeHoursEndInSpace | admin/src/pages/TestDetail.jsx:83-85 | a whole number of hours keeps a trailing space |
| TestDetail.ShortLimitExamples | admin/src/pages/TestDetail.jsx:81-82 | 0 reads "No limit", 45 reads "45 minutes" and -5 reads "-5 minutes" |
| TestDetail.EmptyLimitExamples | admin/src/pages/TestDetail.jsx:81-85 | an undefined limit reads "NaN hour " and a `null` one "null minutes", and each reads back as what it was |
| TestDetail.HourLimitExamples | admin/src/pages/TestDetail.jsx:83-85 | 60 reads "1 hour " and 120 reads "2 hours " |
| TestDetail.MixedLimitExample | admin/src/pages/TestDetail.jsx:83-85 | 90 reads "1 hour 30 minutes" |
| TestDetail.FormatDate | admin/src/pages/TestDetail.jsx:88-91 | a missing or empty date reads "Unknown"; any other is rendered by the locale |
| TestDetail.Results | admin/src/pages/TestDetail.jsx:42-61 | one result per id, in order: the question, or null for a failed or thrown fetch |
| TestDetail.ValidQuestions | admin/src/pages/TestDetail.jsx:61-64 | the non-null results: no more than the ids, each a fetched question, and every fetched question present |
| TestDetail.ValidQuestionsInOrder | admin/src/pages/TestDetail.jsx:61-64 | the questions are the non-null results in their order |
| TestDetail.AllFetchedKeepsEveryQuestion | admin/src/pages/TestDetail.jsx:42-64 | when every fetch succeeds, the i-th question is the one of the i-th id |
| TestDetail.Flipped | admin/src/pages/TestDetail.jsx:156 | the flag becomes the negation of its truthiness; every other field is unchanged |
| TestDetail.FlipTwice | admin/src/pages/TestDetail.jsx:156 | two flips restore the banned state, and the whole test exactly when the flag was present |
| TestDetail.BanButtonLabel | admin/src/pages/TestDetail.jsx:177 | "Unban Test" exactly for a banned test, and "Ban Test" otherwise |
| TestDetail.StatusText | admin/src/pages/TestDetail.jsx:219 | "Banned" exactly for a banned test, and "Active" otherwise |
| TestDetail.FlipSwapsLabels | admin/src/pages/TestDetail.jsx:172-177 | after a flip the button and the status line both read the opposite, and "Ban Test" goes with "Active" |
| TestDetail.TestDetailPage.constructor | admin/src/pages/TestDetail.jsx:14-17 | the page starts loading with no test, no questions and no error |
| TestDetail.TestDetailPage.View | admin/src/pages/TestDetail.jsx:93-122 | the spinner while loading, then the error or "Test not found", else the details of the held test |
| TestDetail.TestDetailPage.FetchTestDetail | admin/src/pages/TestDetail.jsx:19-78 | nothing without a test id; a body stores the test and fetches questions only when it lists some; a failure keeps the state, sets the message and toasts the error; loading ends |
| TestDetail.TestDetailPage.ToggleBan | admin/src/pages/TestDetail.jsx:139-170 | sends the negated flag; an ok flips the held flag and toasts the server's or the default message; any other outcome only toasts the error |
| PendingTeachers.WithoutId | admin/src/pages/PendingTeacherList.jsx:47-49 | the requests whose id differs from the given one, all of them and only those |
| PendingTeachers.WithoutIdInOrder | admin/src/pages/PendingTeacherList.jsx:47-49 | the remaining requests keep their order |
| PendingTeachers.WithoutIdLength | admin/src/pages/PendingTeacherList.jsx:47-49 | the length drops by exactly the number of requests with that id |
| PendingTeachers.WithoutAbsentId | admin/src/pages/PendingTeacherList.jsx:47-49 | removing an id no request has leaves the list unchanged |
| PendingTeachers.WithoutIdIdempotent | admin/src/pages/PendingTeacherList.jsx:47-49 | removing the same id twice equals removing it once |
| PendingTeachers.WithoutIdCommutes | admin/src/pages/PendingTeacherList.jsx:67-69 | two removals in either order give the same list |
| PendingTeachers.StatusLabel | admin/src/pages/PendingTeacherList.jsx:127-129 | "Active" exactly when `is_active` is true, and "Pending" otherwise |
| PendingTeachers.RowOf | admin/src/pages/PendingTeacherList.jsx:118-130 | a row copies the name, email and school, and its badge reads "Active" only for an explicit `true` |
| PendingTeachers.Rows | admin/src/pages/PendingTeacherList.jsx:113-131 | one row per request, in order, with its name, email, school and status |
| PendingTeachers.PendingTeacherList.constructor | admin/src/pages/PendingTeacherList.jsx:7-9 | the page starts loading with no requests and no error |
| PendingTeachers.PendingTeacherList.Banner | admin/src/pages/PendingTeacherList.jsx:85-89 | the banner appears exactly when a non-empty error is set, and shows it |
| PendingTeachers.PendingTeacherList.View | admin/src/pages/PendingTeacherList.jsx:91-98 | the spinner while loading, "No pending teacher requests" for an empty list, else the rows |
| PendingTeachers.PendingTeacherList.FetchTeacherRequests | admin/src/pages/PendingTeacherList.jsx:12-28 | a success stores the requests; a failure keeps them and sets "Failed to fetch teacher requests"; loading ends |
| PendingTeachers.PendingTeacherList.HandleApprove | admin/src/pages/PendingTeacherList.jsx:34-53 | a success removes every request with the id; a failure keeps the list and sets "Failed to approve teacher" |
| PendingTeachers.PendingTeacherList.HandleReject | admin/src/pages/PendingTeacherList.jsx:55-73 | a success removes every request with the id; a failure keeps the list and sets "Failed to reject teacher" |
| PendingTeachers.Mount | admin/src/pages/PendingTeacherList.jsx:11-32 | a failed first load leaves the list empty, sets the error and shows the empty notice |

## Left out

- HTTP traffic (axios and fetch calls, the `email` header, the endpoint URLs): each call's outcome is an input.
- Request ordering and stale closures: each handler works on the state it is given. Overlapping requests, such as two approvals in flight, are not modelled.
- The one-second `setTimeout` before the dashboard record is stored, and the `selectedPeriod` dependency: timing only.
- XLSX workbook creation, `writeFile` and the date-stamped file name: a foreign library and the clock. Only the row arrays are modelled.
- `toFixed(2)` and `toFixed(1)` digits: IEEE-754 float formatting. `Dashboard.Fixed2` carries the exact real instead.
- Dashboard's placeholder subject distribution and its sheet: constant data over float formatting.
- Locale dates (`toLocaleString`, `toLocaleDateString`, and the tests list's `formatDate`): the rendering is a parameter (`today`, `toLocaleString`) or is left out.
- Full Unicode `toLowerCase`: only ASCII letters are lower-cased.
- Non-numeric scores and time limits: scores are reals and limits integers.
- Property names such as "constructor" that a JavaScript object inherits: `getSubjectColor` looks up only its own seven subjects.
- Users, PendingTeacherList and TestDetail store `metadata` as given. Failure paths where a missing metadata would throw (as at TestDetail.jsx:39) are modelled by the failure inputs, not traced field by field.
- TestDetail.TestDetailPage.ToggleBan: an ok ban response whose JSON body is `null` flips `isBanned` (TestDetail.jsx:156) and then throws on `result.message`, showing the error toast; the model's outcomes cannot express a flip followed by the error toast, so an ok response here always toasts success.
- An ok question response whose `metadata` is undefined: it passes `q !== null` in the code and is treated here like null.
- `handleViewDetail` (a console log), the Edit and More buttons, the `|| "-"` cell fallbacks and the Users page's date formatting: rendering only.
- admin/src/components/Sidebar.jsx, admin/src/App.jsx, admin/src/context/AdminContext.jsx: navigation, routing, a socket and UI flags.
- JSX rendering, modals and charts, beyond the views each page's class exposes.
