# A verified model of the learning-platform backend

This project models the core of a learning-management and shop backend:

- **Server handlers (Go):**
  - module attempts and quizzes: start, submit and grade, results, analytics and reset;
  - learner progress: overall, per course, and the recomputation of an enrolment;
  - the administrator's statistics;
  - the route-permission gate and the role key it compares against;
  - the shopping cart;
  - the in-memory department list;
  - module and thread creation and deletion, with their id lists;
  - project file uploads and deletions.
- **Browser-side stores (JavaScript):** the cart, product, property and newsletter-list stores. Each keeps an in-memory list and mirrors every change into the browser's storage.
- **Browser helpers:** the query-string reader and the template helpers.

The model stands the datastore in with Dafny maps and sequences. A handler takes:

- the path and body parameters, as text or as an already decoded value, where `None` stands for a body that does not decode;
- the store contents it reads.

It returns a `Result` (a value, or the HTTP status of the error it writes) together with the new store contents. Objects that the source updates in place are Dafny classes:

- the department handler;
- the browser-side stores, whose `storage` field stands for the browser's storage entry.

Loops in the source are Dafny methods with loop invariants. Each such method is proved equal to a recursive specification function, and the properties the source promises are proved about those functions as lemmas:

- grading credits;
- a stable sort by key;
- record upsert and reset;
- counters that count what they claim to count;
- round trips between create and delete.

Go's behaviour is written out explicitly where it matters:

- `strconv.ParseInt` (with its 64-bit range) and its lenient use with the error ignored;
- `fmt.Sscanf("%d")`, `strings.TrimSpace` and `filepath.Ext`;
- `strings.ToLower`, for the capitals of Basic Latin (U+0000-U+007F), Latin-1 Supplement (U+0080-U+00FF), Latin Extended-A (U+0100-U+017F), Greek and Coptic (U+0370-U+03FF), Cyrillic (U+0400-U+04FF) and Cyrillic Supplement (U+0500-U+052F); the other blocks are listed under "Left out";
- integer division that truncates toward zero;
- `&` on 64-bit values.

JavaScript's `%`, its truthiness of optional helper arguments, and `split("=")` destructuring are modelled too.

## Model

| member | source | states |
|---|---|---|
| Common.ParseIntLenient | controllers/FileUploadController.go:93-95 | the value a parse with its error ignored yields is always a 64-bit integer and equals the strict parse whenever that succeeds |
| Common.FormatParseRoundTrip | controllers/ModuleAttemptController.go:174-175 | an element id formatted in decimal parses back to the same id, so answer keys identify elements |
| Common.FilterComplete | controllers/ModuleAttemptController.go:497-504 | a filter keeps every element that satisfies its predicate |
| Common.FilterIdempotent | controllers/ModuleAttemptController.go:497-504 | filtering twice by the same test is filtering once |
| GoText.TrimSpaceMeaning | controllers/DepartmentController.go:66 | the trimmed name is a slice of the input with only white space cut from either side, and neither starts nor ends with white space |
| GoText.TrimSpaceEmpty | controllers/DepartmentController.go:66-70 | the trimmed name is empty exactly when the input is all white space, which is the case the handler refuses |
| GoText.TrimSpaceIdempotent | controllers/DepartmentController.go:66 | trimming a trimmed name changes nothing |
| GoText.LowerChar | controllers/DepartmentController.go:74 | ASCII capitals move up by 32 to their small letters, and code points below 'A' or between 'Z' and the Latin-1 capitals are unchanged |
| GoText.LowerCharMeaning | controllers/DepartmentController.go:74 | a code point changes exactly when it is a capital of Basic Latin, Latin-1 Supplement, Latin Extended-A, Greek and Coptic, Cyrillic or Cyrillic Supplement, and the result never is one |
| GoText.ToLower | controllers/DepartmentController.go:74 | lower-casing keeps the length |
| GoText.ToLowerMeaning | controllers/DepartmentController.go:74 | the lower-cased text has no letter with a lower-case form left, and differs from the input exactly at the letters that have one |
| GoText.ToLowerIdempotent | controllers/DepartmentController.go:74 | lower-casing twice is lower-casing once, so lower-cased names act as a case-insensitive key |
| GoText.CaseVariantsCollide | controllers/DepartmentController.go:74 | the duplicate check treats "Public Health" and "PUBLIC health" as the same name |
| GoText.DottedCapitalI | controllers/FileUploadController.go:56 | ".Z" followed by a dotted capital I and "P" lower-cases to ".zip" |
| GoText.GreekCyrillicVariantsCollide | controllers/DepartmentController.go:74 | Greek and Cyrillic names that differ only in letter case lower-case alike |
| GoText.OutlyingCapitalsLowered | controllers/DepartmentController.go:74 | Cyrillic capitals outside the Russian alphabet (GHE WITH UPTURN, Khakas CHE, SCHWA) and the Greek THETA SYMBOL and YOT lower-case to their small letters |
| GoText.ScanInt | controllers/DepartmentController.go:108-112 | a successful scan yields a 64-bit integer |
| GoText.ScanAgreesWithParse | controllers/DepartmentController.go:108-112 | wherever the strict parse succeeds, the scan reads the same value |
| GoText.ScanIsLenient | controllers/DepartmentController.go:108-112 | the scan accepts leading blanks and trailing text that the strict parse refuses, but fails at a newline |
| GoText.Ext | controllers/FileUploadController.go:56 | the extension is empty or a dot-led suffix of the name, with no '/' and no further '.' |
| GoText.ExtNone | controllers/FileUploadController.go:56 | a name without a '.' has no extension |
| GoText.ExtOfSuffix | controllers/FileUploadController.go:56 | a name ending in "." and a suffix with no '.' or '/' has exactly that extension |
| Common.GoDiv | controllers/AdminController.go:157 | the quotient is truncated toward zero: its magnitude is the floor of the magnitudes' quotient and its sign follows the dividend |
| Common.ParseInt64 | controllers/AdminController.go:133-137 | a successful parse of an id yields a 64-bit integer |
| Common.NatToStringDigits | controllers/ModuleAttemptController.go:174 | the decimal text of an id is a non-empty run of digits whose value is the id |
| Common.FilterConcat | controllers/ModuleAttemptController.go:497-504 | filtering a concatenation filters each part, in order |
| GoText.TrimLeft | controllers/DepartmentController.go:66 | the result is a suffix of the input, only white space was cut, and it starts with no white space |
| GoText.TrimRight | controllers/DepartmentController.go:66 | the result is a prefix of the input, only white space was cut, and it ends with no white space |
| GoText.SkipBlanks | controllers/DepartmentController.go:109 | skipping leading blanks leaves a suffix of the input that starts with no white space |
| GoText.DigitRun | controllers/DepartmentController.go:109 | the digit run is the longest all-digit prefix |
| GeneralHelpers.CeilDiv | static/general.js:190-198 | the rounded-up quotient is the fewest multiples of the divisor that reach the dividend |
| IdLists.CompactedUntruncated | controllers/ThreadController.go:86-93 | the untruncated buffer keeps its length |
| Grading.UnloadedCount | controllers/ModuleAttemptController.go:86-97 | missing elements never exceed the module-elements |
| Bitwise.BitOr | controllers/RoleController.go:123-133 | the union of two bit sets is at most their sum |
| QueryString.IndexOf | static/general.js:36 | the position of the first occurrence of the character, or the length when there is none |
| AttemptRecords.RecordCount | controllers/ModuleAttemptController.go:497-504 | records of a module never exceed the records |
| AttemptRecords.WithoutConcat | controllers/ModuleAttemptController.go:497-504 | the reset distributes over concatenation |
| AttemptRecords.RecordCountConcat | controllers/ModuleAttemptController.go:497-504 | the records of a module in a concatenation are those of the parts |
| Progress.SummariesStep | controllers/ProgressController.go:94-162 | one more enrolment appends its summary exactly when the course loads and has modules |
| Bitwise.Bits | routes/helpers.go:98 | Go's 64-bit pattern of a value is below 2^64 and is the value itself when the value is already in range |
| Bitwise.BitAnd | routes/helpers.go:98 | the AND of two values is at most each of them |
| Bitwise.BitAndComm | routes/helpers.go:98 | the AND is commutative, so the gate does not depend on operand order |
| Bitwise.DisjointSumIsOr | controllers/RoleController.go:123-133 | adding two values with no common bit is their OR |
| Bitwise.OrMisses | routes/helpers.go:98 | a union misses the level exactly when both parts miss it |
| Bitwise.PowersDisjoint | controllers/RoleController.go:123-133 | two different single-bit role values never overlap |
| Roles.FindRole | repositories/RoleRepository.go:53-68 | the by-name role query finds a role with that name, and finds none exactly when no stored role has the name |
| Roles.GetRoleKey | controllers/RoleController.go:123-133 | the accumulated key is the sum of the users' role values, and is missing exactly when some role name has no stored role |
| Roles.MissingRoleSticks | controllers/RoleController.go:127-130 | one unknown role name leaves the user with no key at all |
| Roles.RoleKeyConcat | controllers/RoleController.go:123-133 | the key of a concatenation of role lists combines the keys of the parts |
| Roles.RoleKeyMoveLast | controllers/RoleController.go:123-133 | moving one role name to the end of the list does not change the key |
| Roles.RoleKeyPermutation | controllers/RoleController.go:123-133 | any reordering of the user's roles gives the same key |
| Roles.RoleKeyDuplicate | controllers/RoleController.go:123-133 | a role listed twice counts twice |
| Roles.RoleKeyIsTotal | controllers/RoleController.go:123-133 | when every role has a value, the key is the total of those values |
| Roles.OrOfMisses | routes/helpers.go:98 | the OR of role values misses the level exactly when every value misses it |
| Roles.DisjointTotalIsOr | controllers/RoleController.go:123-133 | pairwise bit-disjoint role values sum to their OR |
| Roles.DistinctPowersDisjoint | controllers/RoleController.go:123-133 | role values that are distinct powers of two are pairwise disjoint |
| Roles.DistinctBitRoles | routes/helpers.go:89-101 | with distinct single-bit roles, the key is their OR, and it meets the level exactly when one of the roles does |
| RouteGate.Contains | routes/helpers.go:12-19 | the linear search reports whether the name is in the list |
| RouteGate.ConfiguredNames | routes/helpers.go:46-56 | the walk yields at most one name per route |
| RouteGate.NamesOf | routes/helpers.go:40-44 | the stored route names, one per route and in order |
| RouteGate.Inserted | routes/helpers.go:60-64 | every route the sync creates is public, configured, and absent from the store |
| RouteGate.UpdateRoutes | routes/helpers.go:38-65 | the store after the sync is the old store followed by one new public route per configured name not already stored |
| RouteGate.LoadNames | routes/helpers.go:40-44 | the names collected are those of the stored routes, in store order |
| RouteGate.CollectNames | routes/helpers.go:46-56 | the configured names are the path templates with their first method, of the routes that declare methods, in router order |
| RouteGate.InsertMissing | routes/helpers.go:60-64 | the store grows by one public route for each configured name absent from the names read before the loop, in order, a repeated configured name inserted each time |
| RouteGate.InsertedCovers | routes/helpers.go:58-64 | after the sync every configured name is stored |
| RouteGate.InsertedNone | routes/helpers.go:58-64 | a sync with nothing new inserts nothing |
| RouteGate.SyncIsIdempotent | routes/helpers.go:38-65 | running the sync a second time adds nothing |
| RouteGate.DuplicateRouteInsertedTwice | routes/helpers.go:60-64 | a route the router lists twice (the DELETE route of /project/{id}) is inserted twice into an empty table, because the stored names are not refreshed during the sync |
| RouteGate.FindRoute | repositories/RouteRepository.go:53-68 | the by-name route query finds a route with that name, and finds none exactly when no stored route has the name |
| RouteGate.LookupSession | controllers/Sessions.go:28-45 | no cookie is the empty session; a token the session table lacks is no session at all; otherwise the session of the user name stored under the token |
| RouteGate.LoggedOut | controllers/UserController.go:208-219 | logging out with a token forgets exactly that token and keeps every other session |
| RouteGate.CheckPermissionsAsWritten | routes/helpers.go:68-110 | as written: open routes pass, a protected route without a cookie is 401, and a cookie with an unknown token or a session for a user who no longer exists crashes |
| RouteGate.CheckPermissions | routes/helpers.go:68-110 | corrected gate: a request passes exactly on an open route or when the session's user exists and their role key meets the level; a missing cookie, an unknown token or a missing user is denied with 401; a role name missing from the role table still crashes |
| RouteGate.CorrectionChangesOnlyMissingUser | routes/helpers.go:82-95 | the corrected gate and the gate as written agree everywhere except on an unknown token and on a session whose user is missing |
| RouteGate.StaleCookieCrashes | routes/helpers.go:82-87 | after a logout the old cookie's token is unknown, and a protected request with it crashes the gate as written where the corrected gate answers 401 |
| RouteGate.MissingUserCrashes | routes/helpers.go:89-95 | a concrete protected request whose session names a deleted user crashes the gate as written |
| RouteGate.PermissionExample | routes/helpers.go:97-101 | a worked example: a student (value 1) is refused a level-2 route, and a student who is also a teaching assistant (value 2) has key 3 and passes |
| RouteGate.DuplicateRoleBorrowsBit | routes/helpers.go:89-101 | a role listed twice doubles into a different bit and can pass a level that the role alone does not meet |
| RouteGate.DistinctBitGate | routes/helpers.go:89-101 | with distinct single-bit roles a user passes a protected route exactly when one of their roles shares a bit with the level |
| RouteGate.PowersFitWord | routes/helpers.go:98 | the union of distinct single bits below 64 fits a 64-bit word |
| Grading.ElementsOfModule | repositories/ModuleElementRepository.go:49-63 | the module-element query returns only elements of the module, no more than are stored |
| Models.ElementByID | repositories/ElementRepository.go:53-63 | an element read by id carries that id, and is otherwise the stored element |
| Models.ModuleByID | repositories/ModuleRepository.go:53-64 | a module read by id carries that id, and is otherwise the stored module |
| Models.CourseByID | repositories/CourseRepository.go:53-63 | a course read by id carries that id, and is otherwise the stored course |
| Grading.LoadAll | repositories/ModuleElementRepository.go:98-118 | elements load exactly when every element exists; the result is each element in query order, carrying its id |
| Grading.Stripped | controllers/ModuleAttemptController.go:92-94 | the element sent to the learner has every choice's correct flag cleared and is otherwise unchanged |
| Grading.StripCorrect | controllers/ModuleAttemptController.go:92-94 | the clearing loop yields the stripped element, and no choice is left marked correct |
| Grading.Resolved | controllers/ModuleAttemptController.go:86-97 | the loaded elements are no more than the module-elements, and none reveals an answer |
| Grading.ResolvedConcat | controllers/ModuleAttemptController.go:86-97 | resolving a concatenation resolves each part, in order |
| Grading.ResolvedLength | controllers/ModuleAttemptController.go:86-97 | exactly the module-elements whose element is missing are dropped |
| Grading.ResolveElements | controllers/ModuleAttemptController.go:86-97 | the element loop returns the resolved, answer-free elements in order, each carrying the key it was loaded under |
| Grading.ChoicesMatch | controllers/ModuleAttemptController.go:183-190 | a choice answer is correct exactly when every answered position agrees with the choice's correct flag |
| Grading.GradeStepsMeaning | controllers/ModuleAttemptController.go:159-223 | the score is the number of credited answers, and the maximum loses one per content element under module rules; answers only gain a correct mark |
| Grading.CountsFit | controllers/ModuleAttemptController.go:159-223 | credits and content skips together never exceed the module-elements |
| Grading.GradedBounds | controllers/ModuleAttemptController.go:159-223 | 0 <= score <= maximum <= number of module-elements |
| Grading.Grade | controllers/ModuleAttemptController.go:159-223 | the grading loop computes the specified grading: score, maximum and annotated answers |
| Grading.ContentCount | controllers/QuizController.go:149-190 | quiz rules never skip content elements |
| Grading.Percentage | controllers/ModuleAttemptController.go:225-229 | the percentage is 0 with nothing to score, is otherwise the floor of score*100/maximum, and lies in 0..100 |
| Grading.PercentageBounded | controllers/ModuleAttemptController.go:225-229 | a quotient truncated toward zero, of a score within its maximum, lies in 0..100 |
| Grading.SingleChoiceExample | controllers/ModuleAttemptController.go:181-195 | a one-question module answered correctly scores 1 of 1, which is 100 percent, and the answer is marked correct; a wrong answer scores 0 |
| ElementOrder.WithKey | controllers/ModuleAttemptController.go:77-84 | the elements of one sort key, in order, are no more than the input |
| ElementOrder.WithKeyConcat | controllers/ModuleAttemptController.go:77-84 | the per-key subsequence of a concatenation is the concatenation of the parts' |
| ElementOrder.SwapKeepsKey | controllers/ModuleAttemptController.go:80-82 | swapping neighbours with different keys keeps each key's subsequence |
| ElementOrder.SwapStep | controllers/ModuleAttemptController.go:79-83 | one swap of the inner loop keeps the pass invariants one position further on |
| ElementOrder.PassDone | controllers/ModuleAttemptController.go:79-83 | at the end of a pass the largest key of the prefix sits just before the sorted suffix |
| ElementOrder.BubblePass | controllers/ModuleAttemptController.go:79-83 | one inner pass carries the largest key to the end of the prefix, permuting the array and keeping each key's order |
| ElementOrder.SortByKey | controllers/ModuleAttemptController.go:72-84 | the bubble sort leaves the elements sorted by key, as a permutation, with equal keys in their original order |
| ElementOrder.InsertOrder | controllers/ModuleAttemptController.go:77-84 | inserting into a sorted list keeps it sorted and adds exactly the element |
| ElementOrder.KeySortedMeaning | controllers/ModuleAttemptController.go:77-84 | the reference stable sort is sorted, a permutation, and keeps each key's order |
| ElementOrder.StableSortUnique | controllers/ModuleAttemptController.go:77-84 | two sorted lists with the same per-key subsequences are equal |
| ElementOrder.SortByKeyIsStable | controllers/ModuleAttemptController.go:72-84 | any key-sorted arrangement that keeps each key's order is the reference stable sort, so the bubble sort computes exactly that sort |
| AttemptRecords.FirstIndex | controllers/ModuleAttemptController.go:312-318 | the position of the first record of the module: it matches, and nothing before it does |
| AttemptRecords.FindRecord | controllers/ModuleAttemptController.go:312-323 | the lookup returns the first record of the module, and none exactly when the learner has no record of it |
| AttemptRecords.Upsert | controllers/ModuleAttemptController.go:249-261 | the update loop replaces the first record of the module or appends the new one |
| AttemptRecords.Without | controllers/ModuleAttemptController.go:497-504 | the reset keeps only records of other modules, all taken from the input |
| AttemptRecords.RemoveModule | controllers/ModuleAttemptController.go:497-504 | the reset loop computes that filter |
| AttemptRecords.WithoutAbsent | controllers/ModuleAttemptController.go:497-504 | resetting a module the learner never attempted changes nothing |
| AttemptRecords.ResetMeaning | controllers/ModuleAttemptController.go:475-516 | after a reset no record of the module remains, other modules keep their counts, and resetting again changes nothing |
| AttemptRecords.UpsertLookup | controllers/ModuleAttemptController.go:249-261 | after a submission is recorded, the results lookup finds exactly the new record |
| AttemptRecords.UpsertIdempotent | controllers/ModuleAttemptController.go:249-261 | recording the same submission twice equals recording it once |
| AttemptRecords.UpsertKeepsOthers | controllers/ModuleAttemptController.go:249-261 | recording a submission leaves every other module's records as they were, in order |
| AttemptRecords.UpsertSingleRecord | controllers/ModuleAttemptController.go:249-261 | a module with at most one record has exactly one after a submission |
| AttemptRecords.SubmitThenReset | controllers/ModuleAttemptController.go:475-516 | submitting and then resetting a module leaves only the other modules' records |
| ModuleAttempt.StartModule | controllers/ModuleAttemptController.go:49-113 | a bad id is 400 and an unknown module 404; otherwise the session holds the module, carrying its own key as its id, and its elements stably sorted by key, loaded under their keys and stripped of answers |
| ModuleAttempt.SubmitModule | controllers/ModuleAttemptController.go:116-287 | a bad id or body is 400, an unknown module or user 404; otherwise the graded percentage is recorded over the learner's record of the module, and errors leave the store unchanged |
| ModuleAttempt.SubmitThenResults | controllers/ModuleAttemptController.go:235-261 | after a submission the results lookup returns the recorded percentage and answers |
| ModuleAttempt.GetModuleResults | controllers/ModuleAttemptController.go:290-354 | a bad id is 400; a missing user, a missing record or an unknown module is 404; elements that fail to load are 500; otherwise the module carrying its own key as its id, the first record, the elements, and passed meaning score >= pass mark |
| ModuleAttempt.GetModuleAnalytics | controllers/ModuleAttemptController.go:357-472 | a bad id is 400 and an unknown module 404; otherwise the statistics of every learner's records of the module against its pass mark |
| ModuleAttempt.ResetModuleAttempt | controllers/ModuleAttemptController.go:475-516 | a bad id is 400 and an unknown user 404; otherwise every one of the learner's records of the module is removed |
| ModuleAttempt.ResetThenResults | controllers/ModuleAttemptController.go:475-516 | after a reset the results lookup finds nothing for the module, and other learners are untouched |
| Quiz.StartQuiz | controllers/QuizController.go:47-101 | a bad id is 400 and an unknown module 404; otherwise the quiz module carrying its own key as its id, and its elements in store order, loaded under their keys and stripped of answers |
| Quiz.SubmitQuiz | controllers/QuizController.go:104-254 | as for modules, but every module-element counts toward the maximum; errors leave the store unchanged |
| Quiz.QuizMaxScore | controllers/QuizController.go:148-190 | a quiz's maximum score is its number of module-elements |
| Quiz.ContentOnlyQuiz | controllers/QuizController.go:148-199 | a quiz made only of content scores 0 of 1 and fails |
| Quiz.GetQuizResults | controllers/QuizController.go:257-312 | a bad id is 400; a missing user, record or module is 404; otherwise the module carrying its own key as its id and the first record of the quiz |
| Quiz.GetQuizAnalytics | controllers/QuizController.go:315-419 | a bad id is 400; otherwise the statistics of every record of the quiz against the fixed pass mark 70, without looking the module up |
| Quiz.ResetQuiz | controllers/QuizController.go:422-463 | a bad id is 400 and an unknown user 404; otherwise every record of the quiz is removed |
| Analytics.RecordsOf | controllers/ModuleAttemptController.go:393-395 | the records of the module are no more than the learner's records |
| Analytics.PassedCount | controllers/ModuleAttemptController.go:397-399 | passing attempts never exceed attempts |
| Analytics.TallyAnswers | controllers/ModuleAttemptController.go:404-414 | the inner loop adds one attempt per answered element, plus one correct per correct answer |
| Analytics.Aggregate | controllers/ModuleAttemptController.go:393-423 | the collection loop yields the specified summary of every learner's records of the module |
| Analytics.AddRecord | controllers/ModuleAttemptController.go:396-414 | adding one record keeps the running attempts, passes, score and time sums and per-element statistics equal to those of all records seen |
| Analytics.AddUserRecords | controllers/ModuleAttemptController.go:394-416 | one learner's records of the module are added to the running totals, and the records of other modules are skipped |
| Analytics.AnsweredCount | controllers/ModuleAttemptController.go:404-414 | answers to an element never exceed the records |
| Analytics.StatsMeaning | controllers/ModuleAttemptController.go:404-414 | an element has statistics exactly when some record answered it; its counts are the answers and the correct answers |
| Analytics.CorrectAtMostAnswered | controllers/ModuleAttemptController.go:404-414 | correct answers never exceed answers |
| Analytics.ScoreSumBounded | controllers/ModuleAttemptController.go:400 | percentage scores sum to at most 100 per record |
| Analytics.SummaryCounts | controllers/ModuleAttemptController.go:393-423 | passes never exceed attempts, and per element correct <= attempts <= records |
| Analytics.AverageScoreBounded | controllers/ModuleAttemptController.go:419-423 | the average of percentage scores is a percentage |
| Analytics.AttemptsAreOfModule | controllers/ModuleAttemptController.go:393-395 | records of other modules never enter the statistics |
| Analytics.RecordsOfModule | controllers/ModuleAttemptController.go:394-395 | each learner's selected records are of the module |
| Progress.CourseModules | controllers/ProgressController.go:100-104 | the course's modules come from the store and belong to the course |
| Progress.UserCoursesOf | repositories/UserCourseRepository.go:49-58 | the learner's enrolments come from the store and belong to the learner |
| Progress.PairCountByColumns | controllers/ProgressController.go:114-124 | counting passing (record, module) pairs by records or by modules gives the same number |
| Progress.CompletedAtMostModules | controllers/ProgressController.go:111-133 | with at most one record per module, completed modules never exceed the course's modules |
| Progress.CountCompleted | controllers/ProgressController.go:111-125 | the nested loop counts the passing (record, module) pairs, and passed equals completed |
| Progress.SummaryOf | controllers/ProgressController.go:129-159 | a course summary names the enrolled course by its key and its stored name, has as many modules as the course, at least one, and its progress is the percentage of completed over total modules |
| Progress.Summaries | controllers/ProgressController.go:94-162 | at most one summary per enrolment, each with modules and with its progress the percentage of completed over total modules |
| Progress.SummariesFromEnrolments | controllers/ProgressController.go:94-162 | every summary is the summary of one contributing enrolment, so it names that enrolment's course by its key |
| Progress.StatusPartition | controllers/ProgressController.go:136-142 | every summary is counted as exactly one of finished, in progress and not started |
| Progress.UserProgressCounters | controllers/ProgressController.go:82-142 | the completed, in-progress and not-started counters sum to the number of course summaries, which never exceeds the total courses |
| Progress.SummaryAppended | controllers/ProgressController.go:135-161 | appending a summary adds one to its status's count and its modules to the totals |
| Progress.SummarizeCourses | controllers/ProgressController.go:94-162 | the course loop yields the specified summaries, the course read by its key, and the status and quiz counters over them |
| Progress.TotalProgress | controllers/ProgressController.go:165-169 | the overall-progress loop sums the course progresses |
| Progress.GetUserProgress | controllers/ProgressController.go:58-180 | a bad id is 400 and an unknown user 404; otherwise the summary over the learner's enrolments, each course named by its key, with the overall progress as the truncated mean |
| Progress.EnrolmentIndex | repositories/UserCourseRepository.go:71-87 | the learner's first enrolment in the course: it matches, and nothing before it does |
| Progress.EnrolmentLookupAsWritten | repositories/UserCourseRepository.go:71-87 | as written: the lookup panics exactly when no enrolment of the learner in the course exists, and otherwise yields a matching one |
| Progress.UnenrolledLearnerPanics | repositories/UserCourseRepository.go:86 | a learner with no enrolment panics the lookup as written, which is exactly the input on which the handlers here answer 404 |
| Progress.CompletedLines | controllers/ProgressController.go:277-279 | completed lines never exceed the lines |
| Progress.FillModuleProgress | controllers/ProgressController.go:259-289 | one line per course module, read from the learner's first record of it, and the number of completed lines |
| Progress.ModuleEntry | controllers/ProgressController.go:264-284 | a module's line carries the score and pass state of the learner's first record of it, with a completion date only when passed, and is empty without a record |
| Progress.GetCourseProgress | controllers/ProgressController.go:183-297 | bad ids are 400; an unknown user, enrolment or course is 404; otherwise the course's key and stored name, the per-module report and its percentage |
| Progress.CourseReportMeaning | controllers/ProgressController.go:263-292 | a line names its module, is completed exactly when the learner's first record of it reaches its pass mark, counts one attempt exactly when there is a record, and the course percentage lies in 0..100 |
| Progress.PassingRecords | controllers/ProgressController.go:351-361 | records counted once each are no more than the records |
| Progress.RecordPasses | controllers/ProgressController.go:353-359 | the inner loop stops at the first module the record passes |
| Progress.PassesAnyPrefix | controllers/ProgressController.go:353-359 | once a prefix of the modules passes, the whole list passes |
| Progress.UpdateUserCourseProgress | controllers/ProgressController.go:300-398 | bad ids are 400, an unknown enrolment or course 404, a course without modules 400, an unknown user 404; otherwise the first enrolment is replaced by its recomputation from the passing records, and errors leave the enrolments unchanged |
| Progress.CountPassing | controllers/ProgressController.go:347-361 | the count and score sum are those of the records that pass a course module, each record counted once |
| Progress.ApplyProgress | controllers/ProgressController.go:364-376 | with at least one passing record, the start date is set if missing, the grade is the truncated mean passing score, and the completion date is set when every module passed |
| Progress.PassingScoreBounded | controllers/ProgressController.go:356 | passing percentage scores sum to at most 100 per counted record |
| Progress.PassesAnyRow | controllers/ProgressController.go:353-359 | a record passes some module exactly when it forms at least one passing pair |
| Progress.PassingAtMostPairs | controllers/ProgressController.go:351-361 | counting records once never exceeds counting every passing pair |
| Progress.UpdatedMeaning | controllers/ProgressController.go:363-377 | with percentage scores and one record per module: passes never exceed modules; nothing passed leaves the enrolment as it was; otherwise the grade is a percentage; a start date is kept; completion is stamped when every module is passed and kept otherwise |
| AdminStats.ActiveCount | controllers/AdminController.go:67-73 | active learners never exceed learners |
| AdminStats.ProjectsOfModule | repositories/ProjectRepository.go:84-93 | the projects of a module come from the store and are of that module |
| AdminStats.KindCount | controllers/AdminController.go:81-99 | modules of one kind never exceed modules |
| AdminStats.GetSystemStats | controllers/AdminController.go:35-128 | the totals of each entity, the active learners, the records held, and each kind's count |
| AdminStats.KindsPartition | controllers/AdminController.go:86-99 | every module counts as exactly one of quiz, project and content |
| AdminStats.ActiveAtMostRecords | controllers/AdminController.go:67-79 | there are no more active learners than records |
| AdminStats.ProjectsOfUser | repositories/ProjectRepository.go:62-71 | the projects of a learner come from the store and are theirs |
| AdminStats.GetUserStats | controllers/AdminController.go:131-186 | a bad id is 400 and an unknown user 404; otherwise the learner's stored id, user name, first and last name, email and roles, the record count, the truncated mean score and the number of projects submitted |
| AdminStats.MeanScoreBetween | controllers/AdminController.go:150-158 | with scores between two bounds, the mean lies between them |
| AdminStats.ScoreSumBetween | controllers/AdminController.go:150-153 | the score sum lies between n times the lower and n times the upper bound |
| AdminStats.KeyCount | controllers/AdminController.go:228-229 | course modules with a given key never exceed the course modules |
| AdminStats.EnrolledCount | controllers/AdminController.go:241-242 | enrolled learners never exceed learners |
| AdminStats.ScanUser | controllers/AdminController.go:223-239 | the nested loop reports enrolment, completion and the per-module counters specified for one learner |
| AdminStats.ScanRecord | controllers/AdminController.go:228-238 | one record against the course modules: it matches when its module is a course module, it fails when it scores below a matching module's pass mark, and its counter grows by the number of matching modules |
| AdminStats.GetCourseStats | controllers/AdminController.go:189-268 | a bad id is 400 and an unknown course 404; otherwise the course's key and stored name, the enrolled and completed counts and the per-module counters |
| AdminStats.CourseCountsOrdered | controllers/AdminController.go:241-246 | completed <= enrolled <= learners |
| AdminStats.RecordBumpsCount | controllers/AdminController.go:226-238 | one learner adds, for each module key, the key's multiplicity times that learner's records of it |
| AdminStats.CompletionsCount | controllers/AdminController.go:220-247 | a counter is the key's multiplicity among the course modules times the records of it, and only positive counters exist |
| AdminStats.DistinctKeyCount | controllers/AdminController.go:204-208 | among course modules with distinct keys, each key occurs once |
| AdminStats.KeyCountAbsent | controllers/AdminController.go:228-229 | a key outside the course has no course module |
| AdminStats.ModuleCompletionsMeaning | controllers/AdminController.go:220-247 | with distinct keys, a module's counter is the number of records of it across all learners |
| AdminStats.ModuleCompletionsKeys | controllers/AdminController.go:229-231 | only course modules get a counter |
| Carts.FirstItem | controllers/CartController.go:79-85 | the position of the first item of the product: it matches, and nothing before it does |
| Carts.FindItem | controllers/CartController.go:79-85 | the search loop stops at the first item of the product |
| Carts.FirstItemUnique | controllers/CartController.go:79-85 | any position before which nothing matches, and which matches or is the end, is the first match |
| Carts.RemovedAll | static/app/cartStore.js:56-57 | the client removal leaves no item of the product and no more items |
| Carts.QuantityOfConcat | controllers/CartController.go:79-88 | a product's quantity over a concatenation is the sum over the parts |
| Carts.TotalQuantityConcat | static/app/cartStore.js:66-68 | the item count of a concatenation is the sum of the parts' |
| Carts.ReplaceQuantities | controllers/CartController.go:79-83 | replacing one item changes the quantities by the difference between the two items |
| Carts.DropQuantities | controllers/CartController.go:164-169 | removing one item takes away exactly its quantity |
| Carts.DistinctQuantity | controllers/CartController.go:122-132 | with one item per product, the product's quantity is that item's |
| Carts.AbsentQuantity | controllers/CartController.go:86-88 | a product without items has quantity 0 |
| Carts.MergedQuantities | controllers/CartController.go:76-88 | adding raises the product's quantity and the total by the added quantity, changes no other product, and keeps one item per product |
| Carts.SetOrRemovedQuantities | controllers/CartController.go:122-132 | the update leaves other products alone, sets the product to the quantity or 0 when not positive, keeps one item per product, and ignores an absent product |
| Carts.RemovedFirstKeepsOrder | controllers/CartController.go:164-169 | removing the first match keeps the items before it and shifts the rest down by one |
| Carts.RemovedFirstIsRemovedAll | controllers/CartController.go:164-169 | with one item per product, the server's single removal equals the client's removal of every match |
| Carts.RemovedAllSingle | static/app/cartStore.js:56-57 | a list with one item of the product loses just that item |
| Carts.RemovedAllConcat | static/app/cartStore.js:56-57 | removal distributes over concatenation |
| Carts.RemovedAllNone | static/app/cartStore.js:56-57 | nothing to remove leaves the list as it was |
| Carts.RemovedAllQuantities | static/app/cartStore.js:56-57 | removing every match zeroes the product and keeps every other product's quantity |
| Carts.GetCart | controllers/CartController.go:21-46 | a bad id is 400; otherwise the customer's cart, created empty and stored when missing |
| Carts.AddToCart | controllers/CartController.go:48-99 | a bad id or body is 400; a missing cart is created with the item, and an existing one gets the item merged in and is stamped |
| Carts.UpdateCartItem | controllers/CartController.go:101-143 | a bad id or body is 400 and a missing cart 404; otherwise the first item is set or removed and the cart is stamped even without a match |
| Carts.RemoveFromCart | controllers/CartController.go:145-180 | bad ids are 400 and a missing cart 404; otherwise the first item of the product is removed and the cart stamped |
| Carts.ClearCart | controllers/CartController.go:182-197 | a bad id is 400; otherwise the customer's cart, if any, is emptied, and a missing cart is not an error |
| ClientCart.CartStore.constructor | static/app/cartStore.js:7-19 | loads the stored cart when there is one, else stores the empty cart |
| ClientCart.CartStore.SyncStorage | static/app/cartStore.js:76-78 | storage mirrors the in-memory cart, which is unchanged |
| ClientCart.CartStore.SetCustomerId | static/app/cartStore.js:21-24 | sets the customer and writes through |
| ClientCart.CartStore.AddItem | static/app/cartStore.js:26-40 | merges the item as the server does, stamps the cart and writes through |
| ClientCart.CartStore.AddOne | static/app/cartStore.js:26 | addItem without a quantity adds one of the product |
| ClientCart.CartStore.RemoveItem | static/app/cartStore.js:56-60 | keeps every item of other products, in order, stamps and writes through |
| ClientCart.CartStore.UpdateItem | static/app/cartStore.js:42-54 | an absent product changes nothing, storage included; otherwise the item is set, or removed when the quantity is not positive |
| ClientCart.CartStore.GetItemCount | static/app/cartStore.js:66-68 | the item count is the sum of the quantities |
| ClientCart.CartStore.Clear | static/app/cartStore.js:70-74 | empties the items, stamps and writes through |
| ClientCart.ClientUpdatedQuantities | static/app/cartStore.js:42-54 | the client update leaves other products alone and sets the product to the quantity, or 0 |
| ClientCart.ClientMatchesServer | static/app/cartStore.js:42-54 | with one item per product, the client and server updates agree |
| ClientCart.ClientRemovesEveryDuplicate | static/app/cartStore.js:56-57 | with a duplicated product, the client removes both items where the server removes one |
| Departments.DepartmentHandler.constructor | controllers/DepartmentController.go:18-31 | the handler starts with the seven default departments |
| Departments.DepartmentHandler.GetAllDepartments | controllers/DepartmentController.go:34-51 | every department, listed with its position as its id |
| Departments.DepartmentHandler.AddDepartment | controllers/DepartmentController.go:54-95 | an undecodable or blank body is 400 and a case-insensitive duplicate 409; otherwise the trimmed name is appended with the last position as its id, keeping names distinct up to case |
| Departments.DepartmentHandler.DeleteDepartment | controllers/DepartmentController.go:98-126 | an empty or unreadable id is 400 and a position outside the list 404; otherwise exactly that name is removed |
| Departments.DefaultsDistinct | controllers/DepartmentController.go:21-29 | the defaults are distinct up to letter case |
| Departments.DeleteShifts | controllers/DepartmentController.go:121 | deleting keeps earlier names, shifts later ones (and their ids) down by one, and keeps names distinct up to case |
| IdLists.IdsWithout | controllers/ModuleController.go:86-95 | the kept ids exclude the deleted one |
| IdLists.IdsWithoutConcat | controllers/ModuleController.go:86-95 | removal distributes over concatenation |
| IdLists.IdsWithoutKeeps | controllers/ModuleController.go:86-95 | every other id survives, and a list without the id is unchanged |
| IdLists.Compact | controllers/ModuleController.go:86-93 | the in-place compaction leaves the kept ids as the prefix and the rest of the buffer untouched |
| IdLists.CompactList | controllers/ThreadController.go:86-93 | truncated, the compaction is the removal; untruncated, it is the kept ids followed by the stale tail |
| IdLists.CreateModule | controllers/ModuleController.go:24-63 | an undecodable body is 400; the module is stored under the new key; with a course given, its key is appended to that course, which is saved carrying its own key as its id, or the answer is 500 when the course is unknown (the module stays stored) |
| IdLists.DeleteModuleAsWritten | controllers/ModuleController.go:66-109 | as written: the module is deleted and the filtered course, carrying its own key as its id, is saved under the module's id |
| IdLists.DeleteModule | controllers/ModuleController.go:66-109 | corrected: the module is deleted; with a course given, an unknown course is 500 and otherwise the filtered course is saved under its own key, carrying that key as its id |
| IdLists.AppendThenRemove | controllers/ModuleController.go:45-59 | appending a new id and removing it gives the list back |
| IdLists.DeletedFromCourseMeaning | controllers/ModuleController.go:84-101 | the corrected delete changes only the course's module list, which loses exactly the module |
| IdLists.CreateThenDeleteModule | controllers/ModuleController.go:24-109 | creating a module in a course and deleting it restores the course store, except that the course now carries its own key as its id; a course that already did is restored exactly |
| IdLists.DeleteModuleWrongKey | controllers/ModuleController.go:100 | deleting module 9 of course 5 (modules [9, 10]) leaves course 5 with [9, 10] and writes under key 9 a course with [10] that still carries id 5 |
| IdLists.CreateThread | controllers/ThreadController.go:24-63 | an undecodable body is 400; the thread is stored under the new key; with a module given, its key is appended to that module, which is saved carrying its own key as its id, or the answer is 500 when the module is unknown (the thread stays stored) |
| IdLists.DeleteThreadAsWritten | controllers/ThreadController.go:66-108 | as written: the thread is deleted and the module with the untruncated list, carrying its own key as its id, is saved under the thread's id |
| IdLists.DeleteThread | controllers/ThreadController.go:66-108 | corrected: the thread is deleted; with a module given, an unknown module is 500 and otherwise the module with the truncated list is saved under its own key, carrying that key as its id |
| IdLists.DeletedFromModuleMeaning | controllers/ThreadController.go:84-100 | the corrected delete changes only the module's thread list, which loses exactly the thread |
| IdLists.CreateThenDeleteThread | controllers/ThreadController.go:24-108 | creating a thread in a module and deleting it restores the module store, except that the module now carries its own key as its id; a module that already did is restored exactly |
| IdLists.StaleTailKeepsDeletedThread | controllers/ThreadController.go:86-93 | the untruncated compaction of [8, 7] without 7 is still [8, 7], where the removal is [8] |
| QueryString.NamePart | static/general.js:36 | the name is the prefix of the parameter before its first '=' |
| QueryString.ValuePart | static/general.js:36 | the value is missing exactly when there is no '=', and otherwise is the text between the first and second '=' |
| QueryString.SplitPair | static/general.js:36 | a name, '=', a value and a tail starting with '=' split back into that name and value |
| QueryString.PlusToSpace | static/general.js:39 | every '+' becomes a space and nothing else changes |
| GeneralHelpers.ParamValue | static/general.js:38-43 | a parameter contributes null exactly when its value is missing or empty, and otherwise a non-empty value with no '+' left in it |
| GeneralHelpers.GetParamsFromRequest | static/general.js:29-47 | no parameters, or an empty first one, give the empty object; otherwise the object the parameters build |
| GeneralHelpers.ParamsKeys | static/general.js:35-44 | the object has exactly one key per parameter name |
| GeneralHelpers.ParamsLastWins | static/general.js:35-44 | each name holds what its last parameter contributes |
| GeneralHelpers.ValueStopsAtSecondEquals | static/general.js:36-43 | for any name and non-empty value without '=', text from a second '=' on is dropped and '+' reads as a space; a parameter with nothing after its '=', or with no '=', is null |
| GeneralHelpers.Units | static/general.js:94-95 | a code point below U+10000 is one code unit, itself; any other is a high and a low surrogate that decode back to it |
| GeneralHelpers.AstralCount | static/general.js:94-95 | the code points above U+FFFF are at most all of them |
| GeneralHelpers.Utf16 | static/general.js:94-95 | a JavaScript string's length is the number of code points plus the number above U+FFFF |
| GeneralHelpers.Utf16Concat | static/general.js:94-95 | the UTF-16 form of a concatenation is the concatenation of the forms |
| GeneralHelpers.AstralRun | static/general.js:94-95 | n code points above U+FFFF have length 2n |
| GeneralHelpers.LimitLength | static/general.js:93-97 | titles of up to 22 code units are unchanged; longer ones keep their first 22 code units followed by "..." |
| GeneralHelpers.LimitLengthOfPlainText | static/general.js:93-97 | for text without code points above U+FFFF the cut is after 22 characters, with "..." appended exactly when the text is longer |
| GeneralHelpers.AstralTitleCut | static/general.js:93-97 | a title of twelve emoji (24 code units) is cut after eleven of them |
| GeneralHelpers.CutThroughPair | static/general.js:93-97 | a cut inside a surrogate pair keeps the lone high surrogate, as substring does |
| GeneralHelpers.LimitLengthIdempotent | static/general.js:93-97 | shortening a shortened title changes nothing |
| GeneralHelpers.HideButton | static/general.js:99-115 | previous hides on the first element, next on the last, done on every other element; unknown buttons never hide |
| GeneralHelpers.NextOrDone | static/general.js:99-115 | on every element exactly one of next and done shows |
| GeneralHelpers.HideIf | static/general.js:123-127 | hidden exactly when the flag is true |
| GeneralHelpers.HideIfNot | static/general.js:129-133 | the negation of hideIf |
| GeneralHelpers.HideIfNotEqual | static/general.js:135-148 | shown exactly when the first string equals the second, or equals a truthy third |
| GeneralHelpers.HideIfEqual | static/general.js:150-163 | hidden exactly when the strings are equal and, given a truthy third, that one is equal too |
| GeneralHelpers.SelectedIfEqual | static/general.js:165-172 | "selected" exactly when the first string equals the second or the third |
| GeneralHelpers.EqualityHelpersAgree | static/general.js:135-172 | without a third argument hideIfEqual is the negation of hideIfNotEqual; with one, hideIfNotEqual shows exactly when selectedIfEqual selects |
| GeneralHelpers.CalculateRows | static/general.js:190-193 | empty text gets 4 rows; otherwise the fewest rows of 45 code units that hold it |
| GeneralHelpers.CalculateRowsShort | static/general.js:195-198 | empty text gets 2 rows; otherwise the fewest rows of 37 code units that hold it |
| GeneralHelpers.AstralRows | static/general.js:190-198 | twenty-three emoji are 46 code units and get two rows in both sizes |
| GeneralHelpers.JsRem | static/general.js:225-231 | the remainder lies strictly between minus the divisor and the divisor, and equals the floor remainder for non-negative dividends |
| GeneralHelpers.TwoDigits | static/general.js:225-231 | a non-negative value below 100 prints as exactly two digits that read back as the value; a negative one as a minus sign and the two digits of its magnitude |
| GeneralHelpers.SecondsToMMSS | static/general.js:225-231 | for every integer count: the minutes rounded down, a colon, then two digits that read back as the remainder's magnitude; every negative count, a whole number of minutes included (negative zero), puts a minus sign before them |
| GeneralHelpers.NegativeWholeMinute | static/general.js:225-231 | -60 seconds print as "-1:-00" and -61 as "-2:-01" |
| GeneralHelpers.MMSSReadsBack | static/general.js:225-231 | for a non-negative duration the text is the minutes, a colon and two digits, and minutes times 60 plus those digits is the duration again |
| BlueHelpers.GetParamsFromRequest | static/blue/general.js:15-32 | no parameters, or an empty first one, give the empty object; otherwise the object the parameters build, skipping "null" values |
| BlueHelpers.BlueParamsMeaning | static/blue/general.js:22-27 | no stored value is "null" or holds '+', and each name holds its last non-"null" value |
| BlueHelpers.NullKeepsEarlier | static/blue/general.js:26 | for any name and value without '=' or '+' other than "null", a later "null" for the same name leaves the earlier value in place |
| BlueHelpers.LastValueWins | static/blue/general.js:22-27 | a parameter whose value is not "null" and whose name does not occur later is recorded with its value, '+' read as a space |
| BlueHelpers.ParamRecorded | static/blue/general.js:23-26 | one more parameter with a value other than "null" sets its name to that value and leaves the other names alone |
| BlueHelpers.ParamSkipped | static/blue/general.js:26 | one more parameter whose value is "null" leaves the result unchanged |
| BlueHelpers.Column | static/blue/general.js:37-38 | one value, or undefined, per property, in order |
| BlueHelpers.Distinct | static/blue/general.js:36-41 | the collected values are exactly the values that occur |
| BlueHelpers.GetFromProperties | static/blue/general.js:34-43 | the loop collects each value of the attribute once, in order of first occurrence |
| BlueHelpers.DistinctOrder | static/blue/general.js:37-38 | collected values appear in the order of their first occurrence |
| BlueHelpers.DistinctHasNoRepeats | static/blue/general.js:37-38 | no value is collected twice |
| ClientStores.NextId | static/app/productStore.js:18-26 | the new id is non-negative and larger than every stored id |
| ClientStores.NextIdTight | static/app/productStore.js:18-26 | the new id is 0 or one more than some stored id |
| ClientStores.UniqueIdOf | static/blue/app/propertyStore.js:16-22 | the loop computes that id |
| ClientStores.FirstWithId | static/app/productStore.js:35-37 | the position of the first object with the id: it matches, and nothing before it does |
| ClientStores.FindEntry | static/app/productStore.js:35-37 | get finds the first object with the id, and finds none exactly when no stored object has it |
| ClientStores.WithoutId | static/app/productStore.js:62-65 | remove keeps exactly the objects with other ids |
| ClientStores.ReplacedMeaning | static/app/productStore.js:55-60 | after update the object is last, is the only one with its id, and every other object is kept in order |
| ClientStores.FreshAddFound | static/app/productStore.js:18-37 | an object added under the id uniqueId returned is what get of that id finds |
| ClientStores.RemoveIdempotent | static/app/productStore.js:62-65 | removing an id twice is removing it once |
| ClientStores.ProductStore.constructor | static/app/productStore.js:8-16 | loads the stored list when there is one, else stores the empty list |
| ClientStores.ProductStore.SyncStorage | static/app/productStore.js:67-69 | storage mirrors the unchanged list |
| ClientStores.ProductStore.UniqueId | static/app/productStore.js:18-26 | the id after the largest stored id |
| ClientStores.ProductStore.Add | static/app/productStore.js:28-33 | appends the product with both dates stamped, and writes through |
| ClientStores.ProductStore.Get | static/app/productStore.js:35-37 | a stored product with the id, or none exactly when there is no such product |
| ClientStores.ProductStore.GetAll | static/app/productStore.js:39-41 | the in-memory list itself, which is the stored one whenever storage is in step |
| ClientStores.ProductStore.GetByCategory | static/app/productStore.js:43-45 | exactly the products of the category |
| ClientStores.ProductStore.GetByVendor | static/app/productStore.js:47-49 | exactly the products of the vendor |
| ClientStores.ProductStore.GetApproved | static/app/productStore.js:51-53 | exactly the approved products |
| ClientStores.ProductStore.Update | static/app/productStore.js:55-60 | stamps the update date, replaces every product with that id by the new one at the end, and writes through |
| ClientStores.ProductStore.Remove | static/app/productStore.js:62-65 | removes every product with the id and writes through |
| ClientStores.ProductStore.OverwriteStorage | static/app/productStore.js:71-73 | replaces the stored list without touching the in-memory one |
| ClientStores.PropertyStore.constructor | static/blue/app/propertyStore.js:5-13 | loads the stored list when there is one, else stores the empty list |
| ClientStores.PropertyStore.SyncStorage | static/blue/app/propertyStore.js:51-53 | storage mirrors the unchanged list |
| ClientStores.PropertyStore.UniqueId | static/blue/app/propertyStore.js:16-22 | the id after the largest stored id |
| ClientStores.PropertyStore.Add | static/blue/app/propertyStore.js:24-29 | appends the property with both dates stamped, and writes through |
| ClientStores.PropertyStore.Get | static/blue/app/propertyStore.js:31-33 | a stored property with the id, or none exactly when there is no such property |
| ClientStores.PropertyStore.GetAll | static/blue/app/propertyStore.js:35-37 | the in-memory list itself, which is the stored one whenever storage is in step |
| ClientStores.PropertyStore.Update | static/blue/app/propertyStore.js:39-44 | stamps the update date, replaces every property with that id by the new one at the end, and writes through |
| ClientStores.PropertyStore.Remove | static/blue/app/propertyStore.js:46-49 | removes every property with the id and writes through |
| ClientStores.PropertyStore.OverwriteStorage | static/blue/app/propertyStore.js:55-57 | replaces the stored list without touching the in-memory one |
| ClientStores.NewsletterListStore.constructor | static/blue/app/newsletterListStore.js:5-13 | loads the stored list when there is one, else stores the empty list |
| ClientStores.NewsletterListStore.SyncStorage | static/blue/app/newsletterListStore.js:52-54 | storage mirrors the unchanged list |
| ClientStores.NewsletterListStore.UniqueId | static/blue/app/newsletterListStore.js:16-22 | the id after the largest stored id |
| ClientStores.NewsletterListStore.Add | static/blue/app/newsletterListStore.js:24-30 | appends the list with both dates stamped, writes through, and reports success |
| ClientStores.NewsletterListStore.Get | static/blue/app/newsletterListStore.js:32-34 | a stored list with the id, or none exactly when there is no such list |
| ClientStores.NewsletterListStore.GetAll | static/blue/app/newsletterListStore.js:36-38 | the in-memory list itself, which is the stored one whenever storage is in step |
| ClientStores.NewsletterListStore.Update | static/blue/app/newsletterListStore.js:40-45 | stamps the update date, replaces every list with that id by the new one at the end, and writes through |
| ClientStores.NewsletterListStore.Remove | static/blue/app/newsletterListStore.js:47-50 | removes every list with the id and writes through |
| Uploads.LowerExt | controllers/FileUploadController.go:56 | the lower-cased extension is no longer than the name |
| Uploads.ValidateFile | controllers/FileUploadController.go:49-70 | a file is accepted exactly when it is at most 10 MiB and its lower-cased extension is one of the sixteen allowed |
| Uploads.ValidateFileBounds | controllers/FileUploadController.go:50-67 | a file of exactly 10 MiB is accepted when its extension is allowed, and one byte more is refused |
| Uploads.TypeOfExt | controllers/FileUploadController.go:296-323 | only allowed extensions get a content type other than bytes |
| Uploads.ContentType | controllers/FileUploadController.go:296-323 | a file served with a specific type has an extension the upload check accepts |
| Uploads.ArchivesServedAsBytes | controllers/FileUploadController.go:296-323 | .rar, .7z and .avi files are accepted for upload but served as plain bytes |
| Uploads.FileType | controllers/FileUploadController.go:373-376 | the listed type is the extension without its dot, or empty when there is none |
| Uploads.FileTypeOfSuffix | controllers/FileUploadController.go:373-376 | a name ending in "." and a dot-free suffix lists that suffix as its type |
| Uploads.Patched | controllers/FileUploadController.go:171-190 | the element pass never drops an answer key |
| Uploads.PatchedKeeps | controllers/FileUploadController.go:174-189 | answers that already hold a project, and answers of other keys, are untouched |
| Uploads.PatchedClaims | controllers/FileUploadController.go:174-189 | every project or file element whose slot was free holds the new submission |
| Uploads.PatchedUpdated | controllers/FileUploadController.go:174-189 | the pass reports an update exactly when some project or file element had a free slot |
| Uploads.PatchAnswers | controllers/FileUploadController.go:169-190 | the element loop computes that pass |
| Uploads.UploadAnswersMeaning | controllers/FileUploadController.go:162-200 | after an upload some slot holds the submission and answers holding a project stay; when an element slot is free, every free element slot holds the submission and no key outside the elements' keys changes, the fallback slot included; otherwise exactly the fallback slot is written |
| Uploads.UploadedRecords | controllers/FileUploadController.go:159-211 | the upload keeps the number of records |
| Uploads.FirstRecordIndex | controllers/FileUploadController.go:159-160 | the search finds the first record of the module |
| Uploads.UploadRecordAnswers | controllers/FileUploadController.go:162-200 | the patch of one record's answers equals the specified upload |
| Uploads.UploadUserRecords | controllers/FileUploadController.go:159-211 | only the learner's first record of the module has its answers patched with the project; every other record, and a learner without such a record, is unchanged |
| Uploads.UploadProject | controllers/FileUploadController.go:73-230 | a missing field or file, or a refused file, is 400 and changes nothing; otherwise the project is stored under the new key with the generated name and the learner's first record of the module is patched |
| Uploads.WithoutProject | controllers/FileUploadController.go:465-494 | no answer refers to the project any more, every other answer is kept, and no key is added |
| Uploads.RemoveProjectAnswers | controllers/FileUploadController.go:465-494 | the loop removes exactly the answers of the project and reports whether there were any |
| Uploads.DeleteProject | controllers/FileUploadController.go:430-501 | a bad id is 400 and an unknown project 404; otherwise the project is deleted and, when it names an existing learner and a module, its answers are removed from that learner's first record of the module |
| Uploads.DeletedRecords | controllers/FileUploadController.go:465-494 | the delete keeps the number of records |
| Uploads.DeletedRecordsMeaning | controllers/FileUploadController.go:465-494 | only the module's first record changes, and only in its answers: it keeps no answer of the project, keeps every other answer unchanged, and gains no key |
| Uploads.UploadThenDelete | controllers/FileUploadController.go:73-501 | uploading a project and deleting it leaves no answer of it in the module's first record, keeps the other projects' answers there (apart from the fallback key), and leaves every other record alone |

## Left out

- Persistence, the network and the file system are left out. The datastore is stood in for by the maps and sequences passed in. A store write or delete that fails is not modelled, and neither is writing the uploaded file, its directory or the file lookup when it is served.
- The multipart form parse failing is not modelled. The uploaded file's generated name is an input.
- Time is an input: `now` is one value even where a handler reads the clock twice. The upload's project date is not modelled.
- A new datastore key is an input (`newKey`).
- JSON encoding and decoding are left out. A body that does not decode is `None`.
- The float pass rates and percent-correct figures of the analytics responses are left out. The integer counts and averages are modelled.
- The route walk of the router is an input list of routes. The session table is an input map from token to user name; session expiry is not checked by the gate and is not modelled.
- The enrolment lookup behind the course-progress handlers indexes the first element of a possibly empty result (see "## Findings"). The handlers are modelled with an empty result as "not enrolled" (404), as they intend.
- JavaScript strings are sequences of UTF-16 code units. The helpers whose results depend on lengths or positions (limitLength, calculateRows, calculateRowsShort) are modelled on code units. The other browser helpers are modelled on code points: they split only at ASCII characters, which are one code unit each, and compare whole strings, which are equal exactly when their code units are, so their results are the same.
- Carts.Merged: Go's `int` is 64 bits and `Quantity += item.Quantity` (CartController.go:81) wraps past 2^63 - 1, while the model's quantities are unbounded integers. Two adds of 2^62 store -2^63 in Go and 2^63 in the model. The model agrees with Go whenever every sum stays within the int64 range.
- Carts.AddToCart: the same int64 wrap-around of the merged quantity is not modelled.
- Analytics.Aggregate: the time and score sums are unbounded integers, where Go's `int` wraps past 2^63 - 1 on client-supplied `time_spent` values (ModuleAttemptController.go:25, QuizController.go:24). The model agrees with Go whenever the sums stay within the int64 range.
- Analytics.AddRecord: the same int64 wrap-around of the running sums is not modelled.
- Analytics.AddUserRecords: the same int64 wrap-around of the running sums is not modelled.
- ModuleAttempt.GetModuleAnalytics: its average time inherits the unmodelled wrap-around of Analytics.Aggregate.
- Quiz.GetQuizAnalytics: its average time inherits the unmodelled wrap-around of Analytics.Aggregate.
- ClientCart.CartStore.AddItem: JavaScript numbers are doubles, which add exactly only up to 2^53; the model's quantities are unbounded integers.
- ClientCart.CartStore.GetItemCount: the same double-precision limit of the summed quantities is not modelled.
- A nil answers map and an empty one are the same map here; they differ only in their JSON form.
- Ids in the browser stores are integers, and JavaScript's loose `==` on them is integer equality. The formatting of huge numbers by `toLocaleString` is not modelled.
- Real Handlebars calls pass an options object as the last argument, so hideIfEqual called with two strings receives a truthy third. The helpers are modelled as JavaScript functions whose third argument is optional.
- The browser stores' network methods (fetching from and posting to the server) are left out.
- Common.ParseInt64: the error value is not modelled, only whether parsing succeeds.
- Regular-expression matching of text answers is not performed by the source either: a non-empty answer to a text question that has a pattern earns the point, and the model does the same.
- GoText.ToLower: unicode.ToLower is modelled only for the capitals of Basic Latin (U+0000-U+007F), Latin-1 Supplement (U+0080-U+00FF), Latin Extended-A (U+0100-U+017F), Greek and Coptic (U+0370-U+03FF), Cyrillic (U+0400-U+04FF) and Cyrillic Supplement (U+0500-U+052F). Capitals in every other block (Latin Extended-B, Latin Extended Additional, Greek Extended, Cyrillic Extended-B and -C, Armenian, Georgian, Cherokee, Glagolitic, Coptic U+2C80-U+2CFF, the letter-like symbols, circled and full-width Latin letters, Deseret, Osage and other supplementary-plane scripts) are left unchanged, where Go would lower them.
- GoText.LowerChar: its own ensures states only the ASCII facts; which code points it changes in the covered blocks is stated by GoText.LowerCharMeaning, and it has the same limit as GoText.ToLower.
- Uploads.LowerExt: an extension with a capital that the GoText.ToLower line above leaves unchanged keeps it, where Go would lower it.
- Uploads.ValidateFile: an extension that only lower-cases to an allowed one through a capital that the GoText.ToLower line above leaves unchanged is refused, where Go would accept it.
- Uploads.ContentType: such an extension is served as a byte stream, where Go would give it its type.
- Uploads.UploadProject: such a file is refused with 400, where Go would store it.
- Departments.DepartmentHandler.AddDepartment: two names that differ only by a capital that the GoText.ToLower line above leaves unchanged are not recognised as duplicates, where Go would answer 409.
- BlueHelpers.GetParamsFromRequest: it requires every parameter to hold '=', because without one the source throws on an undefined value. That exception is not modelled.

## Findings

| source | as written | input that shows it | evidently intended | confidence | as-written member | corrected member |
|---|---|---|---|---|---|---|
| routes/helpers.go:82-87 | the session is dereferenced before it is compared with the empty session, and the lookup yields nil for a token the session table lacks | a protected route and the cookie of a session that was logged out, or any forged token: the gate dereferences nil | treat an unknown token like a missing cookie and answer 401 | not executed | RouteGate.CheckPermissionsAsWritten, RouteGate.StaleCookieCrashes | RouteGate.CheckPermissions, RouteGate.CorrectionChangesOnlyMissingUser |
| routes/helpers.go:89-95 | the user's roles are read before the nil check on the user | a protected route and a valid session whose user was deleted: the gate dereferences nil | check the user first and answer 401 | not executed | RouteGate.CheckPermissionsAsWritten, RouteGate.MissingUserCrashes | RouteGate.CheckPermissions, RouteGate.CorrectionChangesOnlyMissingUser |
| controllers/ModuleController.go:100 | the filtered course is saved under the module's id | course 5 with modules [9, 10], delete module 9: course 5 keeps [9, 10] and a course with [10] is written under key 9 | save the course under its own id | not executed | IdLists.DeleteModuleAsWritten, IdLists.DeleteModuleWrongKey | IdLists.DeleteModule, IdLists.DeletedFromCourseMeaning |
| controllers/ThreadController.go:86-99 | the compacted list is not truncated, and the module is saved under the thread's id | module with threads [8, 7], delete thread 7: the list stays [8, 7] | truncate to the kept ids and save the module under its own id | not executed | IdLists.DeleteThreadAsWritten, IdLists.StaleTailKeepsDeletedThread | IdLists.DeleteThread, IdLists.DeletedFromModuleMeaning |
| repositories/UserCourseRepository.go:86 | the first element of the query result is returned without a length check | a learner with no enrolment in the course, as the course-progress handlers (ProgressController.go:205, 315) look it up: the index panics | return an error, which the handlers answer with 404 | not executed | Progress.EnrolmentLookupAsWritten, Progress.UnenrolledLearnerPanics | Progress.GetCourseProgress, Progress.UpdateUserCourseProgress |
