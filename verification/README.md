# DevArena in Dafny

DevArena is a coding-practice site. It has an Express/MongoDB backend and a
React frontend. This project models the logic at its core:

- **The solve ledger.** Recording a solve, and the per-user ledger it keeps: solved problem ids, attempt records, counters, streak.
- **Statistics.** The statistics report built from the ledger (difficulty tally, success rate, achievements, recent problems), and the repair that copies the ledger's counters back onto the user.
- **Running code.** The code runner's language table and output normalisation, and the problem page's verdict loop, submit gate, next-problem rule and derived function names.
- **Problem editing.** The admin problem form's line/pipe text format: the parser, the serialiser and their round trip.
- **The client cache.** The solved-problem cache in the browser: append-if-absent, hydration, restore at login, the key purge at logout.
- **Accounts.** Registration and login outcomes, the premium upgrade, and the sign-up form's password flags.
- **Uploads.** The upload filter, the upload error mapping, and the profile page's photo checks and fallbacks.
- **Premium assets.** Adding, updating and deleting them; the URL survey and the URL repair pass; the admin list's and the public card's file-type tests and form logic.
- **The AI assistant.** The endpoint's validation, prompt choice and reply extraction.
- **Request guards.** Token extraction and the decision chains of `userAuth` and `adminAuth`.

Collections are sequences in natural order, so `findOne` is "the first
match". They are the `seq` fields of `Store.Database`. The controllers that
write to the database are methods with `modifies db`. Each one is proved
equal to a pure function of the old collections, and the properties are
lemmas about those functions. The browser session (`AuthSession.Session`)
is a class whose methods update its fields.

Outside calls become parameters:

- the judge, Gemini and Cloudinary;
- password hashing and comparison;
- token verification;
- the clock (`now`, in milliseconds).

JavaScript's "falsy" string (absent or empty) is `Wrappers.Truthy`.

Two quirks of the code are modelled as written:

- The streak is computed after `lastSolvedAt` has been set to the current time, so every first solve adds exactly one to it.
- `totalSubmissions` grows only on repeat solves.

The code is followed wherever it differs from its documentation. Examples:

- **Case-sensitive file types.** The public card tests file types case-sensitively, while the admin list lower-cases the extension (`PremiumCard.UpperPdfIsFile`).
- **Different header parsing.** `userAuth` and `adminAuth` read the Authorization header differently (`AuthMiddleware.HeaderParsingsDiffer`).
- **A problem whose function name is only blanks** gets `""` rather than "solve" (`ProblemForm.BlankNameNotDefaulted`).

## Model

| member | source | states |
|---|---|---|
| Models.NewUser | backend/models/User.js:4-93 | a new user has the trimmed username, the lower-cased email, role "user", no premium and every counter and streak at zero |
| Models.InsertKeepsUnique | backend/models/User.js:4-31 | an insertion accepted by the unique (and sparse unique) indexes keeps ids, usernames, emails and provider ids distinct |
| Models.ParseDifficulty | backend/models/Problem.js:32-36 | the difficulty enum: absent gives the default Easy; a given value is accepted exactly when it is Easy, Medium or Hard, and names itself |
| Models.CreateProblem | backend/models/Problem.js:1-48 | a problem is created exactly when title and description are non-empty, the difficulty is valid and every test case has a non-empty input and expected output; functionName defaults to "solve", inputSignature to "string", tags to [] only when absent |
| Models.EmptyTestInputRefused | backend/models/Problem.js:3-6 | a problem whose one test case has an empty input is not created |
| Models.AddProblem | backend/controllers/adminController.js:301-311 | inserted exactly when the document is valid and its title is not taken (the unique index); the insert appends it and keeps titles unique |
| Models.NewAttempt | backend/models/UserProgress.js:6-13 | a fresh attempt record has one attempt, no best time and no language |
| Models.NewLedger | backend/models/UserProgress.js:4-16 | a fresh ledger has nothing solved, no attempts and both counters at zero |
| Store.IndexWhere | backend/controllers/userProgressController.js:35 | `findOne` returns the first matching document, and none exactly when no document matches |
| Store.UserByNameOrEmail | backend/controllers/userProgressController.js:214-222 | the user is looked up by the trimmed name as username and then by the lower-cased name as email, as the schema's `trim` and `lowercase` setters cast the query; a username match always wins; not found exactly when neither matches |
| Store.Populate | backend/controllers/userProgressController.js:227 | populating solved ids yields only existing problems, at most one per id, and one per id when all exist |
| Store.PopulateConcat | backend/controllers/userProgressController.js:227 | populating keeps the order of the references: a concatenation populates to the concatenation of its parts |
| Store.PopulateOne | backend/controllers/userProgressController.js:227 | one reference populates to its problem, or to nothing when that problem was deleted |
| Store.PopulateInOrder | backend/controllers/userProgressController.js:227 | when every referenced problem exists, position i of the populated list is the problem of reference i |
| Progress.StatsOf | backend/controllers/userProgressController.js:132-138 | the response snapshot carries the user's five counters |
| Progress.ResolveUser | backend/controllers/userProgressController.js:17-23 | userId takes precedence over username; a username finds a user exactly when some stored username equals it trimmed; with neither, no user |
| Progress.DaysBetween | backend/controllers/userProgressController.js:78 | the whole number of days between two instants, rounded down |
| Progress.Streak | backend/controllers/userProgressController.js:74-90 | a gap of at most one day extends the streak and raises the record; a longer gap restarts it at 1; no previous solve sets both to 1; nothing else changes |
| Progress.FirstAttempt | backend/controllers/userProgressController.js:54-61 | the first attempt record: one attempt, best time `solveTime \|\| null`, language `language \|\| null` |
| Progress.Reattempt | backend/controllers/userProgressController.js:100-112 | a repeat solve adds one attempt, stamps the time, keeps the better of the old best time and the new solve time, and replaces the language only when one is given |
| Progress.Solve | backend/controllers/userProgressController.js:6-139 | 400 exactly when both user fields or the problem id are missing; 404 for an unknown user, then an unknown problem; a rejected request changes nothing |
| Progress.AddSolvedProblem | backend/controllers/userProgressController.js:6-139 | the controller, step by step on the database, leaves exactly the collections `Solve` describes and touches no other collection |
| Progress.RecordFirstSolve | backend/controllers/userProgressController.js:49-93 | the first-solve branch computes the ledger and user of the specification |
| Progress.RecordRepeatSolve | backend/controllers/userProgressController.js:94-122 | the repeat branch computes the ledger and user of the specification |
| Progress.SolveAccepted | backend/controllers/userProgressController.js:35-124 | an accepted request finds or creates the user's ledger, branches on whether the problem is solved, and writes the user and the ledger back |
| Progress.WellFormedAttempts | backend/controllers/userProgressController.js:47-61 | in a well-formed ledger, each solved id has exactly one attempt record and each record belongs to a solved id |
| Progress.FreshConsistent | backend/models/UserProgress.js:4-16 | adding a user with zero counters and no ledger keeps users and ledgers consistent |
| Progress.FindAttemptSolved | backend/controllers/userProgressController.js:96-100 | in a well-formed ledger the attempt record of a solved problem is always found |
| Progress.FirstSolveAgrees | backend/controllers/userProgressController.js:49-71 | a first solve keeps the user's counters in agreement with the ledger |
| Progress.RepeatSolveAgrees | backend/controllers/userProgressController.js:94-122 | a repeat solve keeps the user's counters in agreement with the ledger |
| Progress.WriteBackConsistent | backend/controllers/userProgressController.js:92-124 | saving an agreeing user and ledger keeps the whole database consistent |
| Progress.SolvePreservesConsistency | backend/controllers/userProgressController.js:6-139 | every request, accepted or rejected, keeps the database consistent (distinct user ids; counters equal to the ledger's) |
| Progress.SolveTouchesOnlyResolvedUser | backend/controllers/userProgressController.js:17-124 | an accepted request changes only the resolved user and that user's ledger, or appends one ledger |
| Progress.FirstSolveEffects | backend/controllers/userProgressController.js:49-71 | a first solve appends the id and one attempt record, adds one to the success and solved counters, leaves totalSubmissions unchanged on user and ledger, and sets lastSolvedAt |
| Progress.FirstSolveLedger | backend/controllers/userProgressController.js:50-65 | a first solve appends the problem id and a one-attempt record stamped now, adds one successful submission and leaves the total alone |
| Progress.FirstSolveUser | backend/controllers/userProgressController.js:67-90 | a first solve adds one solved problem and one successful submission, leaves the total alone, sets lastSolvedAt to now and keeps the identity |
| Progress.RepeatLedger | backend/controllers/userProgressController.js:95-117 | a repeat solve keeps the solved list and successful count, adds one total submission, updates only the found attempt record by `Reattempt` |
| Progress.RepeatUser | backend/controllers/userProgressController.js:119-121 | a repeat solve adds one total submission and changes nothing else |
| Progress.StreakAlwaysGrows | backend/controllers/userProgressController.js:71-90 | every first solve raises the current streak by exactly one, whatever the gap since the last solve |
| Progress.RepeatSolveEffects | backend/controllers/userProgressController.js:94-122 | a repeat solve leaves the solved list, success counters and streak alone and adds one to both totalSubmissions counters |
| Progress.RepeatSolveAttempt | backend/controllers/userProgressController.js:96-112 | a repeat solve updates the problem's own attempt record and no other |
| Progress.BestTimeIsMinimum | backend/controllers/userProgressController.js:105-107 | the best time becomes the smaller of the two when both are set, the new one when none was set, and never grows |
| Progress.SecondSolveCountsOnce | backend/controllers/userProgressController.js:47-122 | solving the same problem twice counts one solve: the second call is a repeat and the solved count and list stay as the first left them |
| Stats.SolvedOf | backend/controllers/userProgressController.js:156-160 | the populated solved problems of a user, [] without a ledger |
| Stats.SolvedProblems | backend/controllers/userProgressController.js:147-165 | 400 exactly without a userId; otherwise the populated list, never a 404 |
| Stats.SolvedProblemsByName | backend/controllers/userProgressController.js:168-200 | 400 exactly without a name; 404 exactly when neither username nor email matches |
| Stats.ByNameIsById | backend/controllers/userProgressController.js:179-195 | the by-name listing is the by-id listing of the user the name resolves to |
| Stats.PopulateKeeps | backend/controllers/userProgressController.js:227 | every solved id whose problem exists appears in the populated list |
| Stats.SolvedAfterSolve | backend/controllers/userProgressController.js:47-127 | after an accepted solve the problem is among the user's solved problems |
| Stats.RateTenths | backend/controllers/userProgressController.js:241-242 | the success rate in tenths of a percent, rounded half up, 0 without submissions |
| Stats.RateAtLeast | backend/controllers/userProgressController.js:271-272 | the rate reaches a threshold exactly when the exact ratio reaches it after rounding |
| Stats.RateAboveHundred | backend/controllers/userProgressController.js:241-242 | from zero counters, two first solves and one repeat solve leave 2 successful and 1 total submission, a rate of 200.0% |
| Stats.CountDifficulty | backend/controllers/userProgressController.js:245-254 | the number of solved problems of one difficulty is at most the total |
| Stats.Tally | backend/controllers/userProgressController.js:245-254 | every difficulty of the list has a key, and each count lies between 1 and the list's length |
| Stats.TallyCounts | backend/controllers/userProgressController.js:245-254 | the difficulty map holds a key exactly for the difficulties present, with their counts |
| Stats.CountsSum | backend/controllers/userProgressController.js:245-254 | the three difficulty counts sum to the number of solved problems |
| Stats.TallySum | backend/controllers/userProgressController.js:245-254 | the tallied map's three entries sum to the number of solved problems |
| Stats.SolvedBadgesIff | backend/controllers/userProgressController.js:260-265 | a solved-count badge is earned exactly at its threshold (1, 5, 10, 25, 50, 100) |
| Stats.StreakBadgesIff | backend/controllers/userProgressController.js:267-269 | a streak badge is earned exactly at its threshold (3, 7, 30) |
| Stats.RateBadgesIff | backend/controllers/userProgressController.js:271-272 | a rate badge is earned exactly at its threshold (80%, 95%) |
| Stats.Achievements | backend/controllers/userProgressController.js:259-272 | at most the eleven achievements; none exactly below 1 solved, a 3-day streak and 80%; all eleven exactly from 100 solved, a 30-day streak and 95% |
| Stats.AchievementIff | backend/controllers/userProgressController.js:259-272 | an achievement is listed exactly when its rule is met |
| Stats.AchievementsMonotone | backend/controllers/userProgressController.js:259-272 | higher counts, streak and rate never lose an achievement |
| Stats.LastN | backend/controllers/userProgressController.js:294 | `slice(-5)`: the last min(n, length) elements, a suffix of the list |
| Stats.UserStatsOf | backend/controllers/userProgressController.js:203-222 | 400 exactly without a name; 404 exactly when neither username nor email matches |
| Stats.CountDifficulties | backend/controllers/userProgressController.js:245-254 | the loop that counts difficulties one solved problem at a time yields the tally of the whole list |
| Stats.GetUserStats | backend/controllers/userProgressController.js:203-305 | the report the controller computes with its loop equals the specification's report |
| Stats.ReportFacts | backend/controllers/userProgressController.js:240-296 | the reported count is the populated length; the difficulty counts sum to it; the rate is 0 without submissions; the recent list is the last five; achievements match their rules |
| Stats.ReportedCountIsCounter | backend/controllers/userProgressController.js:240-283 | in a consistent database whose solved problems all exist, the reported count equals the user's problemsSolved counter |
| Stats.Resynced | backend/controllers/userProgressController.js:348-350 | the repair sets problemsSolved to the populated count and the two submission counters to the ledger's, and changes nothing else |
| Stats.Fix | backend/controllers/userProgressController.js:308-372 | 404 exactly for an unknown user; "no progress" exactly when the user has no ledger, and then nothing changes; otherwise only the resolved user changes, to its resynced record, and the new stats are the ledger's; the reported old and new stats are always equal |
| Stats.FixUserStats | backend/controllers/userProgressController.js:308-377 | the method writes exactly the users `Fix` describes and touches no other collection |
| Stats.FixIdempotent | backend/controllers/userProgressController.js:308-372 | running the repair twice is the same as running it once |
| Stats.FixRestoresAgreement | backend/controllers/userProgressController.js:330-350 | after the repair, the user's counters agree with a well-formed ledger whose problems all exist |
| Stats.FixNoopWhenConsistent | backend/controllers/userProgressController.js:330-350 | the repair changes nothing in a consistent database whose problems all exist |
| RunCode.LanguageId | backend/controllers/runController.js:9-18 | the language table (javascript 63, python 71, java 62, cpp 54, c 50), looked up in lower case; the inherited keys "constructor" and "__proto__" also pass, without a numeric id |
| RunCode.Call | backend/controllers/runController.js:6-23 | the judge is called exactly when code and language are given and supported, with the code and `stdin \|\| ""` |
| RunCode.FirstOutput | backend/controllers/runController.js:34 | stdout, else stderr, else compile output, else "No output"; never empty |
| RunCode.Output | backend/controllers/runController.js:34-38 | the reply output is never empty |
| RunCode.Run | backend/controllers/runController.js:3-45 | 400 for missing code or language, 400 for an unsupported language, 500 when the judge fails, 200 exactly when the judge answers, and then with the normalised output of its reply |
| RunCode.InheritedKeyCallsJudge | backend/controllers/runController.js:9-18 | a language that lower-cases to "constructor" or "__proto__" is not refused: the judge is called without a numeric language id, and the status is the judge's |
| RunCode.StdoutMasksStderr | backend/controllers/runController.js:34-38 | a non-empty stdout is the output even when stderr is set, unless it is blank with no stderr and no compile output |
| RunCode.SentinelIff | backend/controllers/runController.js:34-38 | the success sentinel replaces the output exactly for a blank stdout with no stderr and no compile output |
| RunCode.NoCallNoReply | backend/controllers/runController.js:6-18 | a request rejected before the call is a 400 whatever the judge would answer |
| ProblemPage.Scrub | frontend/src/pages/ProblemDetails.jsx:32-34 | every character that is neither alphanumeric nor white space becomes a space |
| ProblemPage.SplitWsChars | frontend/src/pages/ProblemDetails.jsx:35 | the words contain no white space and only characters of the input |
| ProblemPage.StartWithLetter | frontend/src/pages/ProblemDetails.jsx:38-40 | a name not starting with a letter gets the prefix "solve" |
| ProblemPage.DeriveFunctionName | frontend/src/pages/ProblemDetails.jsx:30-42 | the derived name is non-empty, alphanumeric and starts with a letter |
| ProblemPage.ScrubbedWordsAlnum | frontend/src/pages/ProblemDetails.jsx:32-35 | after scrubbing and splitting, every word is alphanumeric |
| ProblemPage.WordsAlnum | frontend/src/pages/ProblemDetails.jsx:32-36 | the lower-cased title words are alphanumeric |
| ProblemPage.NoAlnumGivesSolve | frontend/src/pages/ProblemDetails.jsx:30-42 | a title with no alphanumeric character gives "solve" |
| ProblemPage.OneWordTitle | frontend/src/pages/ProblemDetails.jsx:32-36 | a one-word alphanumeric title gives its lower-cased word |
| ProblemPage.TwoWordTitle | frontend/src/pages/ProblemDetails.jsx:32-36 | a two-word title gives both words lower-cased |
| ProblemPage.OneWordName | frontend/src/pages/ProblemDetails.jsx:30-42 | a one-word title gives the word in lower case, prefixed "solve" when it starts with a digit |
| ProblemPage.TwoWordName | frontend/src/pages/ProblemDetails.jsx:30-42 | a two-word title gives camel case: the first word lower-cased, then the second capitalised |
| ProblemPage.PreferredName | frontend/src/pages/ProblemDetails.jsx:82-84 | the stored function name is used unless it is missing or "solve"; otherwise the name derived from the title |
| ProblemPage.CaseResult | frontend/src/pages/ProblemDetails.jsx:113-133 | a case passes exactly when the run answers 200 and the trimmed output equals the trimmed expected output; a failed run shows "Error" |
| ProblemPage.HandleRunCode | frontend/src/pages/ProblemDetails.jsx:102-137 | no test cases is reported as such; otherwise one result per case in order, and all-passed exactly when every result passed |
| ProblemPage.CppAlwaysFails | frontend/src/pages/ProblemDetails.jsx:44-119 | the "C++" entry is sent as "c++", which the runner does not know, so every C++ case fails |
| ProblemPage.MatchingStdoutPasses | frontend/src/pages/ProblemDetails.jsx:119-126 | with a supported language, a stdout that trims to the expected output passes |
| ProblemPage.SolveTime | frontend/src/pages/ProblemDetails.jsx:146-173 | the solve time is measured from the start time when there is one, and is null otherwise |
| ProblemPage.AfterRun | frontend/src/pages/ProblemDetails.jsx:136-147 | a run records the problem locally exactly when every case passed and the problem was not yet solved |
| ProblemPage.SubmitRequest | frontend/src/pages/ProblemDetails.jsx:165-184 | a submission is sent exactly when all cases passed, with the username, problem id, language name and solve time |
| ProblemPage.SubmittedRequestComplete | frontend/src/pages/ProblemDetails.jsx:175-184 | a submission with a user and a problem id passes the server's required-fields check |
| ProblemPage.NextProblem | frontend/src/pages/ProblemDetails.jsx:213-231 | the next problem is in the list; an unknown current problem leads to the first one |
| ProblemPage.NextFollowsOrder | frontend/src/pages/ProblemDetails.jsx:219-231 | with distinct ids the next problem is the following one, none after the last |
| ProblemForm.Field | frontend/src/pages/Admin/ProblemsManagement.jsx:855-868 | a destructured field is trimmed, and empty when missing |
| ProblemForm.ParseTestCaseLine | frontend/src/pages/Admin/ProblemsManagement.jsx:864-870 | a line is kept exactly when its first two trimmed fields are non-empty; the kept case's fields are non-empty and trimmed |
| ProblemForm.ParseExampleLine | frontend/src/pages/Admin/ProblemsManagement.jsx:854-861 | a line is kept exactly when its first two trimmed fields are non-empty; all three fields are then present and trimmed, the first two non-empty |
| ProblemForm.BuildPayload | frontend/src/pages/Admin/ProblemsManagement.jsx:844-872 | text fields trimmed; an empty function name becomes "solve" and an empty input signature "string"; difficulty passed as selected; empty tag, example and test-case fields give empty lists |
| ProblemForm.ParseTestCases | frontend/src/pages/Admin/ProblemsManagement.jsx:863-871 | an empty text gives no test cases |
| ProblemForm.ParseExamples | frontend/src/pages/Admin/ProblemsManagement.jsx:853-862 | an empty text gives no examples |
| ProblemForm.ParseTags | frontend/src/pages/Admin/ProblemsManagement.jsx:850 | an empty text gives no tags |
| ProblemForm.FieldPlain | frontend/src/pages/Admin/ProblemsManagement.jsx:864-868 | a field of a line holds neither a pipe nor a line break |
| ProblemForm.ParsedTestCasesRoundTrippable | frontend/src/pages/Admin/ProblemsManagement.jsx:863-871 | every parsed test case has non-empty, trimmed, pipe-free and break-free fields |
| ProblemForm.ParsedTagsClean | frontend/src/pages/Admin/ProblemsManagement.jsx:850 | every parsed tag is non-empty, trimmed and comma-free |
| ProblemForm.TestCaseLines | frontend/src/pages/Admin/ProblemsManagement.jsx:932 | one `input\|expectedOutput` line per test case |
| ProblemForm.ExampleLines | frontend/src/pages/Admin/ProblemsManagement.jsx:931 | one `input\|output\|explanation` line per example |
| ProblemForm.EditProblem | frontend/src/pages/Admin/ProblemsManagement.jsx:920-933 | editing remembers the problem's id |
| ProblemForm.Submit | frontend/src/pages/Admin/ProblemsManagement.jsx:874-894 | refused exactly when the trimmed title or description is empty; otherwise an update when editing, else a create, with the built payload |
| ProblemForm.Reset | frontend/src/pages/Admin/ProblemsManagement.jsx:904-918 | reset restores the initial form and leaves edit mode |
| ProblemForm.ResetRefuses | frontend/src/pages/Admin/ProblemsManagement.jsx:880-918 | a reset form cannot be submitted |
| ProblemForm.TestCaseLineRoundTrip | frontend/src/pages/Admin/ProblemsManagement.jsx:864-932 | parsing a serialised test case gives it back |
| ProblemForm.TestCasesRoundTrip | frontend/src/pages/Admin/ProblemsManagement.jsx:863-932 | parsing the serialised test cases gives them back, for fields that are non-empty, trimmed and free of pipes and line breaks |
| ProblemForm.ExtraFieldIgnored | frontend/src/pages/Admin/ProblemsManagement.jsx:865 | a third field on a test-case line is ignored |
| ProblemForm.ExampleWithoutExplanation | frontend/src/pages/Admin/ProblemsManagement.jsx:855-861 | an example line with two fields gets an empty explanation |
| ProblemForm.MissingExplanationSaved | frontend/src/pages/Admin/ProblemsManagement.jsx:931 | a stored example without an explanation is written into the form as `input\|output\|undefined`, and saving the form stores the explanation "undefined" |
| ProblemForm.BlankNameNotDefaulted | frontend/src/pages/Admin/ProblemsManagement.jsx:846 | an empty function name becomes "solve", but a blank one becomes "" |
| ProblemForm.ParseSerializeParse | frontend/src/pages/Admin/ProblemsManagement.jsx:863-932 | parse, serialise, parse gives what the first parse gave: any text reaches a fixed point after one save |
| ProblemForm.MultiLineInputAltered | frontend/src/pages/Admin/ProblemsManagement.jsx:863-932 | a test input with a line break does not survive edit and save: only its last line remains |
| ProblemForm.TagsRoundTrip | frontend/src/pages/Admin/ProblemsManagement.jsx:850-928 | parsing the joined tags gives them back, for non-empty, trimmed, comma-free tags |
| ProblemForm.EditThenSave | frontend/src/pages/Admin/ProblemsManagement.jsx:874-935 | editing a problem and saving sends an update of that problem with its title, tags and test cases unchanged |
| AuthSession.SolvedKey | frontend/src/context/AuthContext.jsx:110 | the cache key is "solved_" followed by the username |
| AuthSession.KeyOf | frontend/src/context/AuthContext.jsx:181-184 | a problem's key is `_id`, else `id` |
| AuthSession.Append | frontend/src/context/AuthContext.jsx:181-197 | the problem is appended exactly when no entry has its key; the old entries are kept as a prefix; afterwards the key is present |
| AuthSession.AppendIdempotent | frontend/src/context/AuthContext.jsx:181-197 | recording the same problem twice is the same as recording it once |
| AuthSession.AppendKeepsDistinct | frontend/src/context/AuthContext.jsx:181-197 | recording a problem keeps the entries' ids distinct |
| AuthSession.AppendTwoKeepsBoth | frontend/src/context/AuthContext.jsx:181-197 | after recording two problems, both are present |
| AuthSession.Hydrated | frontend/src/context/AuthContext.jsx:42-49 | hydration maps each server entry to {id, title, difficulty}, in order and length |
| AuthSession.HydratedKnowsSolved | frontend/src/context/AuthContext.jsx:42-197 | a problem already in the hydrated list is not appended again |
| AuthSession.Restore | frontend/src/context/AuthContext.jsx:110-111 | login restores the stored list for the user, or [] when there is none |
| AuthSession.AfterLogout | frontend/src/context/AuthContext.jsx:142-157 | logout removes user, token, userRole and every "solved_" key, and keeps every other key with its value |
| AuthSession.LogoutIdempotent | frontend/src/context/AuthContext.jsx:142-157 | logging out twice is the same as logging out once |
| AuthSession.LoginAfterLogout | frontend/src/context/AuthContext.jsx:110-157 | after logout, a login restores an empty list |
| AuthSession.ProgressCall | frontend/src/context/AuthContext.jsx:199-217 | the backend is called exactly when both user and token are set, with the username, key, language and solve time |
| AuthSession.ProgressCallComplete | frontend/src/context/AuthContext.jsx:199-217 | the call is rejected by the server's required-fields check exactly when the problem has no key |
| AuthSession.StatsRequest | frontend/src/context/AuthContext.jsx:241-255 | statistics are requested only with both user and token, for that user |
| AuthSession.ReadPlain | frontend/src/context/AuthContext.jsx:10-16 | a stored plain value is read only when present and non-empty |
| AuthSession.Session.constructor | frontend/src/context/AuthContext.jsx:10-56 | the session starts from the stored user and token, with the restored list |
| AuthSession.Session.SyncToken | frontend/src/context/AuthContext.jsx:22-30 | the token is written to storage when set and removed otherwise; nothing else changes |
| AuthSession.Session.Login | frontend/src/context/AuthContext.jsx:88-114 | login stores the user (and the token when there is one) and restores the user's list |
| AuthSession.Session.AddSolvedProblem | frontend/src/context/AuthContext.jsx:178-217 | the list becomes `Append` of the old list; storage is written only for a signed-in user and a new problem; the backend call is `ProgressCall` |
| AuthSession.Session.Hydrate | frontend/src/context/AuthContext.jsx:33-56 | with user, token and a reply, the list is the hydrated reply and is cached; otherwise nothing changes |
| AuthSession.Session.Logout | frontend/src/context/AuthContext.jsx:117-157 | logout clears user, token and list, whatever the backend answered, and leaves storage as `AfterLogout` |
| Accounts.PasswordCheck | backend/controllers/userController.js:15-25 | the password checks in order: at least 6 characters, then a capital letter, then a digit; passes exactly when all hold |
| Accounts.Register | backend/controllers/userController.js:10-70 | a weak password is refused with its message; otherwise a taken email is refused with "User already exists"; refused exactly in those two cases; registration succeeds exactly when the checks, the required fields and the unique indexes pass |
| Accounts.RegisterKeepsUnique | backend/controllers/userController.js:28-37 | a registration keeps the user collection's unique fields distinct |
| Accounts.Login | backend/controllers/userController.js:73-121 | 404 exactly when no user has the email; for the found user, 500 exactly when either password is absent, 401 exactly when the hashes do not match, and a login of that user exactly when they match |
| Accounts.RegisterThenLogin | backend/controllers/userController.js:10-121 | a user who just registered can log in with the same email and password |
| Accounts.RegisterUser | backend/controllers/userController.js:10-70 | registration appends the new user exactly when `Register` accepts, and changes nothing else |
| Accounts.Upgraded | backend/controllers/userController.js:211-216 | the upgrade sets premium, plan, payment and order ids, amount and premiumSince, and changes no other field |
| Accounts.UpgradeIdempotent | backend/controllers/userController.js:211-216 | upgrading twice with the same payment is the same as upgrading once |
| Accounts.UpgradeKeepsUnique | backend/controllers/userController.js:205-218 | an upgrade keeps the user collection's unique fields distinct |
| Accounts.UpgradeToPremium | backend/controllers/userController.js:205-232 | the upgrade replaces the caller's record with `Upgraded` and touches nothing else |
| Accounts.Flags | frontend/src/components/SignupModal.jsx:24-30 | the three flags: length at least 6, a capital letter, a digit |
| Accounts.ClientServerAgree | frontend/src/components/SignupModal.jsx:39-43 | the form's gate opens exactly for the passwords the server accepts |
| Accounts.HandleChange | frontend/src/components/SignupModal.jsx:19-31 | only a password edit recomputes the flags; each edit sets its own field |
| Accounts.HandleSubmit | frontend/src/components/SignupModal.jsx:33-50 | the form is sent exactly when all three flags hold |
| Accounts.ReplayKeepsFlags | frontend/src/components/SignupModal.jsx:19-31 | after any sequence of edits the flags describe the current password |
| Accounts.SubmittedPasswordAccepted | frontend/src/components/SignupModal.jsx:19-50 | any password the form sends passes the server's checks |
| Uploads.FileFilter | backend/middleware/multer.js:27-47 | a file is accepted exactly when its size is at most 50 MiB and its type is in the 13-entry list; the size is checked first |
| Uploads.SizeBoundary | backend/middleware/multer.js:32-35 | exactly 50 MiB passes, one byte more is refused |
| Uploads.PublicId | backend/middleware/multer.js:12 | the stored name starts with the timestamp |
| Uploads.PublicIdParts | backend/middleware/multer.js:12 | the part before the first "-" is the timestamp and the rest is the original name |
| Uploads.HandleUploadError | backend/middleware/multer.js:55-75 | the upload error mapping: 400 with the fixed messages for the size and count limits, "File upload error" for other library errors, the error's own message, else 500 |
| Uploads.FilterRejectionAnswered | backend/middleware/multer.js:27-72 | a filter rejection reaches the client as a 400 with the filter's message |
| ProfilePage.TargetUsername | frontend/src/pages/UserPage.jsx:21 | the route's username, else the signed-in user |
| ProfilePage.UploadButtonOwnProfile | frontend/src/pages/UserPage.jsx:21-250 | the upload button shows exactly on one's own profile; a signed-in user always fetches statistics |
| ProfilePage.HandleFileSelect | frontend/src/pages/UserPage.jsx:106-123 | nothing without a file; a non-image is refused first, then an image over 5 MiB; otherwise that file is uploaded |
| ProfilePage.PhotoSizeBoundary | frontend/src/pages/UserPage.jsx:116-119 | exactly 5 MiB is uploaded, one byte more is refused |
| ProfilePage.SentPhotoServerDecision | frontend/src/pages/UserPage.jsx:106-123 | a photo the page sends is accepted by the server exactly when its type is on the server's list |
| ProfilePage.SvgSentButRejected | frontend/src/pages/UserPage.jsx:110-121 | an SVG image passes the page's checks but the server's filter refuses it |
| ProfilePage.Displayed | frontend/src/pages/UserPage.jsx:178-192 | a missing stats or progress block is shown as zeros or empty |
| ProfilePage.ShownCountsAddUp | frontend/src/pages/UserPage.jsx:178-192 | the displayed difficulty counts sum to the displayed solved count |
| AssetUrls.ResourceType | backend/routes/adminRoutes.js:237-240 | "video" for a video MIME type, "image" otherwise |
| AssetUrls.CloudUrl | backend/routes/adminRoutes.js:237-240 | a rebuilt URL starts with the Cloudinary host |
| AssetUrls.UrlType | backend/routes/adminRoutes.js:153 | "none" without a URL, "cloudinary" when it mentions cloudinary, "local" otherwise |
| AssetUrls.CloudUrlClassified | backend/routes/adminRoutes.js:153-240 | a rebuilt URL is classified as cloudinary and is not under /uploads/ |
| AssetUrls.LocalIsInvalid | backend/routes/adminRoutes.js:152-224 | a local URL is never counted as valid |
| AssetUrls.PaymentContent | backend/routes/adminRoutes.js:140-143 | the payment records the survey looks at are exactly those marked as premium content |
| AssetUrls.ValidPlusInvalid | backend/routes/adminRoutes.js:157-164 | valid and invalid URLs add up to the number of items |
| AssetUrls.DbStatusOf | backend/routes/adminRoutes.js:133-169 | the survey's totals: payment items plus premium items, valid plus invalid |
| AssetUrls.ReadName | backend/models/Payment.js:1-58 | a payment record has no file name path, so the pass reads none; a Premium item's own name otherwise |
| AssetUrls.ReadType | backend/models/Payment.js:1-58 | a payment record has no file type path, so the pass reads none; a Premium item's own type otherwise |
| AssetUrls.FixName | backend/routes/adminRoutes.js:228-235 | the file name read, when truthy; else the last '/' piece of a truthy URL, or none when that piece is empty; none when both are missing; never empty |
| AssetUrls.Rewrite | backend/routes/adminRoutes.js:224-240 | a URL is rewritten exactly when it is local and a name is found, to the Cloudinary URL for "premium/" plus that name, with the resource type of the type read |
| AssetUrls.PaymentRewrite | backend/routes/adminRoutes.js:228-239 | a payment record's local URL is always rebuilt from its last '/' piece as an "image" resource |
| AssetUrls.UpdateUrl | backend/routes/adminRoutes.js:246-254 | the rewrite is stored in the collection matching the item's origin; otherwise the collection is unchanged |
| AssetUrls.CountFixed | backend/routes/adminRoutes.js:255 | the fixed count is at most the number of items |
| AssetUrls.FixUrls | backend/routes/adminRoutes.js:202-286 | the repair pass visits every item once, stores each rewrite, and reports the number fixed and the total; other collections are untouched |
| AssetUrls.FixPass | backend/routes/adminRoutes.js:209-269 | the loop over the items computes the specification's collections and counts |
| AssetUrls.VisitItem | backend/routes/adminRoutes.js:221-268 | one item: the name fallback, the rewrite and the store; fixed exactly when a rewrite happens |
| AssetUrls.NameStep | backend/routes/adminRoutes.js:228-235 | the loop's imperative name fallback agrees with `FixName` |
| AssetUrls.SkipOthers | backend/routes/adminRoutes.js:246-254 | items from the other collection do not change this one |
| AssetUrls.UpdateAt | backend/routes/adminRoutes.js:246-254 | with distinct ids, storing an item's rewrite changes that item only |
| AssetUrls.ApplySuffix | backend/routes/adminRoutes.js:221-269 | with distinct ids, the pass over the remaining items fixes each of them in place |
| AssetUrls.FixPremiumsPointwise | backend/routes/adminRoutes.js:202-286 | after the repair each premium record has its rewritten URL when it needed one and is unchanged otherwise |
| AssetUrls.FixPaymentsPointwise | backend/routes/adminRoutes.js:202-286 | after the repair each flagged payment record has its rewritten URL when it needed one, and every other payment record is unchanged |
| PremiumAdmin.UploadedUrl | backend/controllers/adminController.js:48 | the upload's URL: path, else secure_url, else url |
| PremiumAdmin.StoredUrl | backend/controllers/adminController.js:61-78 | a usable URL is kept; a missing, local or /uploads/ one is rebuilt from the public id, else from "premium/" plus the file name; otherwise none |
| PremiumAdmin.StoredUrlRemote | backend/controllers/adminController.js:61-78 | a stored URL is non-empty, not under /uploads/, and points at Cloudinary when rebuilt |
| PremiumAdmin.OrDefault | backend/controllers/adminController.js:89-90 | a given value, else the default |
| PremiumAdmin.AddPremium | backend/controllers/adminController.js:10-127 | the checks in order: 500 for no database, 500 for no Cloudinary settings, 400 for no file, 400 for a missing name or description, 500 when no URL can be made, 400 for an invalid enum; otherwise the record with trimmed texts, defaults and the file's fields |
| PremiumAdmin.AddedUrlRemote | backend/controllers/adminController.js:61-93 | every added record has a non-empty URL outside /uploads/ |
| PremiumAdmin.UnusableUploadFails | backend/controllers/adminController.js:71-77 | an upload without a usable URL, public id or file name is a 500 |
| PremiumAdmin.AddPremiumTo | backend/controllers/adminController.js:10-127 | an added record is appended to the premium collection; a rejection changes nothing |
| PremiumAdmin.AddKeepsDistinct | backend/controllers/adminController.js:98 | adding a record with a new id keeps the premium ids distinct |
| PremiumAdmin.Keep | backend/controllers/adminController.js:144-150 | an undefined value leaves the stored field as it was |
| PremiumAdmin.TrimmedOr | backend/controllers/adminController.js:136-137 | a given text is trimmed; an absent one keeps the stored text |
| PremiumAdmin.TrimmedOrTwice | backend/controllers/adminController.js:136-137 | applying the same trimmed update twice is the same as once |
| PremiumAdmin.UpdatedItem | backend/controllers/adminController.js:136-155 | the update keeps id, uploader and origin; resets category and difficulty to their defaults when omitted; with a new file, takes its uploaded URL and size where they are truthy and keeps the old ones otherwise; without one, keeps the file fields |
| PremiumAdmin.UpdateWithoutFile | backend/controllers/adminController.js:136-150 | without a file, the file fields are unchanged, while an omitted category or difficulty becomes "course" or "beginner" |
| PremiumAdmin.UpdateIdempotent | backend/controllers/adminController.js:136-155 | applying the same update twice is the same as once |
| PremiumAdmin.UpdatePremium | backend/controllers/adminController.js:130-170 | 404 for an unknown id; otherwise that record is replaced by `UpdatedItem` and nothing else changes |
| PremiumAdmin.DestroyTarget | backend/controllers/adminController.js:232-235 | the id sent to Cloudinary: the URL's last path piece up to its first dot, with no slash or dot |
| PremiumAdmin.DestroyTargetOfStem | backend/controllers/adminController.js:234 | for ".../stem.ext" the id is the stem |
| PremiumAdmin.DestroyTargetDropsFolder | backend/controllers/adminController.js:234 | for a URL made by the add or repair path, the id drops the "premium/" folder, so it is not the stored public id |
| PremiumAdmin.RemoveAt | backend/controllers/adminController.js:242 | removing one record keeps the others in order |
| PremiumAdmin.DeletedIdGone | backend/controllers/adminController.js:242 | with distinct ids, after deletion no record has the id and every other record remains |
| PremiumAdmin.DeletePremium | backend/controllers/adminController.js:226-249 | 404 for an unknown id; otherwise the record is removed and its derived id is passed to Cloudinary |
| PremiumAdmin.UpdateProblem | backend/controllers/adminController.js:315-332 | 404 for an unknown problem; otherwise only that problem changes |
| PremiumAdmin.DeleteProblem | backend/controllers/adminController.js:335-349 | 404 for an unknown problem; otherwise only that problem is removed |
| PremiumManagement.ExtensionKind | frontend/src/pages/Admin/PremiumManagement.jsx:49-55 | each extension's kind: image, video, pdf, document, text, else unknown |
| PremiumManagement.FileType | frontend/src/pages/Admin/PremiumManagement.jsx:47-56 | the kind of the URL's last dot-separated piece, lower-cased; "unknown" without a URL |
| PremiumManagement.FileTypeOfExtension | frontend/src/pages/Admin/PremiumManagement.jsx:47-56 | a URL ending in "." plus an extension has that extension's kind |
| PremiumManagement.FileTypeIgnoresCase | frontend/src/pages/Admin/PremiumManagement.jsx:47-56 | upper-casing the URL does not change its kind |
| PremiumManagement.DifficultyColor | frontend/src/pages/Admin/PremiumManagement.jsx:170-177 | gray exactly for a difficulty that is not one of the three levels |
| PremiumManagement.ColoursDistinguishLevels | frontend/src/pages/Admin/PremiumManagement.jsx:170-177 | the three levels have three different colours |
| PremiumManagement.HandleInputChange | frontend/src/pages/Admin/PremiumManagement.jsx:76-78 | an input sets its own field and nothing else |
| PremiumManagement.HandleFileChange | frontend/src/pages/Admin/PremiumManagement.jsx:72-74 | choosing a file sets the file and nothing else |
| PremiumManagement.ResetForm | frontend/src/pages/Admin/PremiumManagement.jsx:80-90 | reset empties the form, restores the defaults "course" and "beginner", hides it and leaves edit mode |
| PremiumManagement.HandleEdit | frontend/src/pages/Admin/PremiumManagement.jsx:133-143 | edit fills the form from the item, with the defaults for empty category or difficulty, and clears the file |
| PremiumManagement.HandleSubmit | frontend/src/pages/Admin/PremiumManagement.jsx:92-121 | refused for a blank name, then a blank description, then no file; otherwise an update when editing, else a create, with the form's fields and file |
| PremiumManagement.ResetRefusesSubmit | frontend/src/pages/Admin/PremiumManagement.jsx:80-96 | a reset form asks for a name |
| PremiumManagement.EditNeedsFile | frontend/src/pages/Admin/PremiumManagement.jsx:92-143 | an edited item cannot be saved until a file is chosen again |
| PremiumManagement.EditWithFileSendsUpdate | frontend/src/pages/Admin/PremiumManagement.jsx:92-143 | editing an item and choosing a file sends an update of that item with its name and description |
| PremiumManagement.SentCreateAccepted | frontend/src/pages/Admin/PremiumManagement.jsx:92-121 | a create the form sends, with a valid category and difficulty and an upload, is stored by the server or fails only for lack of a URL, with the trimmed name and the chosen category |
| PremiumCard.FileType | frontend/src/components/PremiumCard.jsx:15-21 | case-sensitive suffix tests in order: ".pdf", then ".mp4" or ".mov", then an image suffix, else "file"; each kind exactly when its test is the first to pass |
| PremiumCard.UpperPdfIsFile | frontend/src/components/PremiumCard.jsx:15-21 | an upper-case ".PDF" is a plain file on the card but a PDF in the admin list |
| PremiumCard.LowerPdf | frontend/src/pages/Admin/PremiumManagement.jsx:47-56 | "PDF" and "pdf" both lower-case to "pdf", which the admin list classifies as a PDF |
| PremiumCard.PdfAgrees | frontend/src/components/PremiumCard.jsx:15-21 | on a lower-case ".pdf" URL, the card and the admin list agree |
| PremiumCard.Action | frontend/src/components/PremiumCard.jsx:195-213 | log in first, then upgrade, then the open-file button |
| PremiumCard.ButtonOnlyWhenUnlocked | frontend/src/components/PremiumCard.jsx:93-213 | the open-file button shows exactly on cards without the lock |
| PremiumCard.HandleFileOpen | frontend/src/components/PremiumCard.jsx:50-82 | nothing without a URL; a new tab for video, image and PDF; a download named "download" when there is no file name |
| PremiumCard.OpensIffValid | frontend/src/components/PremiumCard.jsx:50-82 | a file opens exactly when the survey counts its URL as valid, and alerts exactly for local URLs |
| PremiumCard.DifficultyLabel | frontend/src/components/PremiumCard.jsx:188 | the difficulty with its first letter upper-cased, "Beginner" when missing |
| PremiumCard.LevelLabels | frontend/src/components/PremiumCard.jsx:188 | the three levels are labelled Beginner, Intermediate, Advanced |
| Gemini.Validate | backend/controllers/geminiController.js:168-178 | a general question needs a non-blank question; any other type needs a title, description or code; the two 400 messages |
| Wrappers.Shown | backend/controllers/geminiController.js:192-196 | a template renders a missing field as "undefined" |
| Gemini.Prompt | backend/controllers/geminiController.js:187-197 | the trimmed question for "general"; for "hint" the hint head, title and description with a missing one shown as "undefined"; the explanation template; otherwise the default template with the code or "N/A" |
| Gemini.DefaultPromptWithoutCode | backend/controllers/geminiController.js:196 | the default template ends with "Code: N/A" when there is no code |
| Gemini.GeneralPromptTrimmed | backend/controllers/geminiController.js:169-190 | a valid general question is sent non-empty and trimmed |
| Gemini.ReplyText | backend/controllers/geminiController.js:249-250 | the first candidate's first text, else "No response from Gemini"; never empty |
| Gemini.FirstTextIsReply | backend/controllers/geminiController.js:249-250 | a non-empty first text is the reply |
| Gemini.AskGemini | backend/controllers/geminiController.js:165-258 | validation first, then the API key (500), then the call: a failed call is a 500, an answer gives its reply |
| Gemini.NoCallWithoutKey | backend/controllers/geminiController.js:168-185 | an invalid request or a missing key is answered with an error, whatever the model would say |
| Gemini.AnsweredReplyNonEmpty | backend/controllers/geminiController.js:249-252 | an answered request is valid, had a key, and carries a non-empty reply |
| AuthMiddleware.UserToken | backend/middleware/userAuth.js:7-15 | the cookie when non-empty; otherwise the text after a case-sensitive "Bearer " prefix of the header; otherwise none |
| AuthMiddleware.BearerHeader | backend/middleware/userAuth.js:10-15 | "Bearer " followed by a token yields that token (section 2.1 of RFC 6750) |
| AuthMiddleware.LowerCaseSchemeIgnored | backend/middleware/userAuth.js:12 | a lower-case "bearer " header yields no token |
| AuthMiddleware.UserCatchMessage | backend/middleware/userAuth.js:37-44 | JsonWebTokenError gives "Invalid token", TokenExpiredError "Token expired", anything else "Token verification failed" |
| AuthMiddleware.UserAuth | backend/middleware/userAuth.js:4-46 | every rejection is a 401; no token is "No token provided"; the request passes exactly with a token that verifies to the id of an existing user, and carries that user |
| AuthMiddleware.CookiePreferred | backend/middleware/userAuth.js:7-15 | with a cookie token, the header makes no difference |
| AuthMiddleware.SecondField | backend/middleware/adminAuth.js:7 | the header's second space-separated field, free of spaces |
| AuthMiddleware.AdminToken | backend/middleware/adminAuth.js:7 | the cookie when non-empty, else the header's second field |
| AuthMiddleware.AnySchemeAccepted | backend/middleware/adminAuth.js:7 | any scheme word is accepted: "scheme token" yields the token |
| AuthMiddleware.NoSpaceNoToken | backend/middleware/adminAuth.js:7-11 | a header without a space yields no token |
| AuthMiddleware.HeaderParsingsDiffer | backend/middleware/userAuth.js:10-15 | the two guards agree on "Bearer t"; on a token with a space, userAuth keeps it whole and adminAuth keeps its first word; a non-Bearer scheme is accepted only by adminAuth |
| AuthMiddleware.OtherSchemeRefused | backend/middleware/userAuth.js:12 | a header whose first word is not "Bearer" gives userAuth no token |
| AuthMiddleware.AdminAuth | backend/middleware/adminAuth.js:4-34 | 401 without a token, for an unknown user or a failure; 403 exactly for an existing user who is not an admin; the request passes exactly for an admin |
| AuthMiddleware.AdminImpliesUser | backend/middleware/adminAuth.js:4-34 | with a cookie token, a request the admin guard passes is passed by the user guard with the same user |

## Left out

- I/O: HTTP responses, toasts, navigation, logging, React rendering and effects. Database persistence and its failures (every "Server error" 500 catch) are left out. The database is a set of sequences, so Mongoose indexes, casting of malformed ObjectIds and concurrency between requests are not modelled.
- The outside services are not executed. The judge reply, the Gemini answer, the Cloudinary upload and destroy, bcrypt and JWT signing and verification appear only as parameters. The token cookie and its lifetime are left out.
- Stats.RateTenths: the success rate is exact rational arithmetic rounded to tenths, as `toFixed(1)` intends. Binary floating-point artefacts of `toFixed` and `parseFloat` are not modelled.
- PremiumAdmin.UpdateProblem: `updateProblem` runs without update validators, so any difficulty (another text, an empty string or null) can be stored. The statistics then tally it under its own key, or under `'unknown'` when it is falsy. Models.Difficulty has only the three schema values, so the model does not represent such problems. Stats.CountsSum, Stats.TallySum, Stats.ReportFacts and ProfilePage.ShownCountsAddUp hold only when every solved problem has one of the three difficulties. The unique title index still applies to an update, and a change to a taken title is refused with a 500; the model applies `change` without that check.
- The achievements' constant `unlocked: true` field is left out.
- Text: case mapping covers ASCII letters only, and white space is a fixed set of characters. Lengths count characters, not UTF-16 code units.
- ProblemDetails `buildStarterTemplate` and PremiumManagement `formatFileSize` are display helpers whose results no property depends on. PremiumManagement `getCategoryIcon` and `handleViewFile`, and PremiumCard `getDifficultyColor`, are left out for the same reason.
- Confirmation dialogs (`handleDelete` in the admin pages) are left out. So are the loading flags and the refetch after a save.
- AuthContext `testLogout` and `manualLogout` are debugging helpers. `manualLogout` clears all of storage. Neither is modelled.
- AuthSession.Stored: storage values are an abstraction of JSON text (a plain string or a parsed solved list). JSON parse failures are not modelled.
- The profile page's fetch of user statistics is left out; only the fallbacks applied to its reply are modelled. The same goes for the photo upload request. The page replaces the viewed user's statistics with the signed-in user's own whenever that second reply has difficulty statistics, so on another user's profile the counts shown are usually the viewer's; ProfilePage.Displayed and ProfilePage.ShownCountsAddUp are about whichever reply is shown.
- The admin controllers' `getAllPremium` and the user-management handlers are left out. Models.AddProblem checks the unique title against the collection but not the uniqueness of the generated id. The debugging routes of the admin router (`/test`, `/test-db`, `/test-premium`, `/test-upload`, `/test-url`) are left out too.
- PremiumAdmin.AddPremium: of the catch branches, only the schema ValidationError (400 "Validation error") is modelled. The duplicate-key and other database errors are left out with persistence.
- PremiumAdmin.UpdatedItem: Mongoose update validators do not run on update, so an invalid category or difficulty is stored as given; the model stores it as given too. Fields that are `undefined` are dropped from the update, as Mongoose does.
- PremiumAdmin.DeletePremium: the Cloudinary destroy call and its ignored errors are represented only by the id passed to it.
- Gemini.AskGemini: the request body sent to the model, and the HTTP status of its answer, are not modelled; a thrown fetch or JSON parse is the `None` of the call parameter. The commented-out older endpoint is not modelled.
- AuthMiddleware.UserAuth, AuthMiddleware.AdminAuth: `next` is modelled as the `Proceed` outcome, so "called once" is the outcome itself; the attachment of the user to the request is its `user` field.
