# Cyber-Math quiz: a Dafny model of its state handlers

Cyber-Math is a browser quiz. An administrator authors math problems. A
student answers them one after another, sees a verdict for each answer, and
watches three counters: attempts, correct and incorrect. Nothing runs on a
server. Everything persists in the browser's `localStorage` under three
keys:

- `"user"`: the login identity, a display name and a role;
- `"mathProblems"`: the problem list;
- `"submissions"`: the append-only answer log.

This project models the handlers behind the four screens: login, the role
guard with logout, the admin problem list and the student answering flow. It
proves what each handler does to the page state and to the store.

Layout, one module per file:

- `text.dfy` (`Text`): ECMAScript `trim` over the full WhiteSpace and
  LineTerminator set, and `toLowerCase`. It proves that trim removes exactly
  the edge whitespace, that trim is idempotent and that lower-casing commutes
  with trimming.
- `entities.dfy` (`Entities`): the `Problem`, `Submission` and `User`
  records, and the typed values the store holds under the three keys.
- `browser.dfy` (`Browser`): `localStorage` as a class over a
  `map<string, Value>`, and the router as a class that records every pushed
  path.
- `student.dfy` (`Student`): the verdict function, the statistics and the
  `StudentPage` class.
- `admin.dfy` (`Admin`): the delete filter with its lemmas, and the
  `AdminPage` class.
- `auth.dfy` (`Auth`): the guard's three-way decision, and the `AuthGuard`
  class (the `useAuth` hook) with its check and logout.
- `login.dfy` (`Login`): the `LoginPage` class.
- `scenarios.dfy` (`Scenarios`): end-to-end sequences of handler calls over one shared store. Login
  then guard. Admin writes and a student page reads back. Two answers then
  the counters.

Each React component is a class. Its `useState` variables are fields, and its
handlers are methods with `modifies` clauses. The methods' `ensures` clauses
give the whole new state and the new store contents. The pure parts are
functions with lemmas: the verdict, the `filter`s and the guard decision.

Behaviour of the code that the model keeps as written:

- The verdict trims and lower-cases the submitted answer. It only
  lower-cases the stored correct answer. A correct answer saved with
  surrounding whitespace can therefore never be matched
  (`PaddedCorrectAnswerUnmatchable`).
- The submission records the trimmed answer, not the literal input.
- Login stores the name exactly as typed, untrimmed.
- Delete removes every problem with the given id, not only the first.
- Next wraps to the first problem after the last one.

## Model

| member | source | states |
|---|---|---|
| `Text.Trim` | src/app/student/page.tsx:58 | `trim()` leaves no whitespace at either end, and its result is empty exactly when the input is all whitespace (the blank test of the submit and login handlers) |
| `Text.TrimStartDropsSpacePrefix` | src/app/student/page.tsx:61 | the leading part that trimming drops is all whitespace, and the kept part does not start with whitespace |
| `Text.TrimEndDropsSpaceSuffix` | src/app/student/page.tsx:61 | the trailing part that trimming drops is all whitespace, and the kept part does not end with whitespace |
| `Text.TrimSplit` | src/app/student/page.tsx:61 | every string is its trimmed form with whitespace on both sides |
| `Text.TrimPadded` | src/app/student/page.tsx:61 | trimming a string with no edge whitespace, padded with whitespace on both sides, gives back that string: trim removes only edge whitespace |
| `Text.TrimIdempotent` | src/app/student/page.tsx:66 | trimming twice is trimming once, so the stored trimmed answer trims to itself |
| `Text.Lower` | src/app/student/page.tsx:61-62 | `toLowerCase()` keeps the length and maps each character on its own |
| `Text.LowerTrimCommute` | src/app/student/page.tsx:61-62 | lower-casing then trimming equals trimming then lower-casing |
| `Student.IsCorrect` | src/app/student/page.tsx:60-62 | the verdict: an answer that trims to exactly the correct answer is accepted, and an accepted answer trims to the correct answer's length |
| `Student.AnswerPaddingIrrelevant` | src/app/student/page.tsx:60-62 | whitespace around the submitted answer never changes the verdict |
| `Student.CaseIrrelevant` | src/app/student/page.tsx:60-62 | letter case of the submitted answer or of the correct answer never changes the verdict |
| `Student.CorrectAnswerAccepted` | src/app/student/page.tsx:60-62 | the correct answer, typed in any case with any surrounding whitespace, is judged correct if it has no whitespace at its own ends |
| `Student.PaddedCorrectAnswerUnmatchable` | src/app/student/page.tsx:60-62 | a correct answer with whitespace at an end is never matched, because only the submitted answer is trimmed |
| `Student.BlankAnswerMatchesOnlyEmpty` | src/app/student/page.tsx:58-62 | a blank answer would match only an empty correct answer |
| `Student.PaddedAnswerExample` | src/app/student/page.tsx:60-62 | `" 42 "` is judged correct against `"42"` |
| `Student.CaseExample` | src/app/student/page.tsx:60-62 | `"ABC"` is judged correct against `"abc"` |
| `Student.NoNumericEquivalenceExample` | src/app/student/page.tsx:60-62 | `"42.0"` is judged incorrect against `"42"`: no numeric equivalence |
| `Student.EmptyAnswerExample` | src/app/student/page.tsx:60-62 | `""` is judged incorrect against `"42"` |
| `Student.WithVerdict` | src/app/student/page.tsx:90-91 | the filtered log holds exactly the log's submissions with the given verdict, and is no longer than the log |
| `Student.VerdictsPartitionLog` | src/app/student/page.tsx:88-92 | the correct-filter and the incorrect-filter lengths add up to the log length |
| `Student.WithVerdictAppend` | src/app/student/page.tsx:71 | filtering a log with one more submission at the end filters the old log, then adds that submission if its verdict matches |
| `Student.StatsOf` | src/app/student/page.tsx:88-92 | `total` is the log length and `correct + incorrect == total` in every state |
| `Student.StatsAfterRecord` | src/app/student/page.tsx:71 | appending one submission adds one to `total` and one to the counter that matches its verdict |
| `Student.Current` | src/app/student/page.tsx:53 | there is a current problem exactly when the index is below the list length, and it is then a member of the list |
| `Student.Accepts` | src/app/student/page.tsx:58 | the submit handler goes on exactly when there is a current problem and the answer is not all whitespace |
| `Student.Record` | src/app/student/page.tsx:64-69 | the new submission carries the problem id, the timestamp, the trimmed answer and the verdict of the typed answer. The stored answer has no edge whitespace and is empty only for a blank input, and judging the stored answer again gives the recorded verdict |
| `Student.StudentPage.constructor` | src/app/student/page.tsx:35-51 | index 0, empty answer, no shown result. Each list is the stored one when its key holds a list, else empty. The index then points at a problem whenever there is one |
| `Student.StudentPage.Phase` | src/app/student/page.tsx:157-210 | the page shows the empty-state card exactly when there are no problems, and the result with the next button exactly when there are problems and a shown result; otherwise the answer form |
| `Student.StudentPage.CurrentStats` | src/app/student/page.tsx:88-92 | the counters on the page: total is the log length and correct plus incorrect equals total |
| `Student.StudentPage.SetAnswer` | src/app/student/page.tsx:194-200 | typing sets the answer. It is only called from the answer form, that is while no result is shown |
| `Student.StudentPage.Submit` | src/app/student/page.tsx:55-76 | it is only called from the answer form (no result shown). with no current problem or a blank answer, nothing changes in the page or the store. Otherwise exactly one submission (problem id, trimmed answer, verdict, timestamp) goes at the end of the log, earlier entries unchanged. The stored `"submissions"` becomes the new log, the shown result is the new submission, and the page shows the result. With the index in range and a non-blank answer, the log always grows by exactly one and the page leaves the answer form, so a second submit for the same visit is impossible |
| `Student.StudentPage.Next` | src/app/student/page.tsx:78-86 | only called while a result is shown (the next button). Clears the answer and the result. The index becomes index+1 if that is below the length, else 0. It stays in range, and the page returns to the answer form. The store is untouched |
| `Admin.RemoveId` | src/app/admin/page.tsx:72 | a problem is in the result exactly when it is in the list and does not carry the id |
| `Admin.RemoveIdConcat` | src/app/admin/page.tsx:72 | deleting from a concatenation deletes from each part, so the kept problems stay in their original relative order |
| `Admin.RemoveIdCount` | src/app/admin/page.tsx:72 | the result is shorter than the list by exactly the number of problems carrying the id |
| `Admin.RemoveAbsentId` | src/app/admin/page.tsx:72 | deleting an id no problem carries leaves the list unchanged |
| `Admin.RemoveIdIdempotent` | src/app/admin/page.tsx:72 | deleting the same id twice equals deleting it once |
| `Admin.RemoveUniqueId` | src/app/admin/page.tsx:72 | deleting the id of a problem that occurs once shortens the list by one, and no problem with that id remains |
| `Admin.DeleteUndoesCreate` | src/app/admin/page.tsx:58 | deleting a problem that was just appended, if its id was fresh, restores the previous list |
| `Admin.Complete` | src/app/admin/page.tsx:129-161 | the freshly reset form (empty texts, difficulty medium) is never complete, so it cannot be submitted until the three `required` inputs are filled in again |
| `Admin.AdminPage.constructor` | src/app/admin/page.tsx:33-47 | the list is the stored one when `"mathProblems"` holds a list, else empty. The form is hidden, with empty texts and difficulty medium |
| `Admin.AdminPage.ToggleForm` | src/app/admin/page.tsx:107 | the add button flips `showForm` |
| `Admin.AdminPage.SetQuestion` | src/app/admin/page.tsx:126-128 | sets the question and keeps the other form fields. Only called while the form is shown |
| `Admin.AdminPage.SetCorrectAnswer` | src/app/admin/page.tsx:140-145 | sets the correct answer and keeps the other form fields. Only called while the form is shown |
| `Admin.AdminPage.SetExplanation` | src/app/admin/page.tsx:158-160 | sets the explanation and keeps the other form fields. Only called while the form is shown |
| `Admin.AdminPage.SetDifficulty` | src/app/admin/page.tsx:176-178 | sets the difficulty and keeps the other form fields. Only called while the form is shown |
| `Admin.AdminPage.Create` | src/app/admin/page.tsx:49-69 | exactly one problem goes at the end, carrying the form's fields and the given id and timestamp. The earlier problems stay in order. The stored `"mathProblems"` equals the new list. The form resets to empty texts with difficulty medium and is hidden. It is only called while the form is shown (lines 112-119) and with the three `required` inputs non-empty |
| `Admin.AdminPage.Delete` | src/app/admin/page.tsx:71-75 | the list becomes the filtered list, and the stored `"mathProblems"` equals it |
| `Auth.Decide` | src/app/components/auth-guard.tsx:17-31 | every redirect goes to `"/"`. An admitted user is the stored one, and holds the required role when one is given |
| `Auth.DecideAdmitsExactly` | src/app/components/auth-guard.tsx:17-31 | the guard admits user u exactly when u is the stored user and no role is required or u holds the required one. Every other outcome is a redirect to `"/"` |
| `Auth.AuthGuard.constructor` | src/app/components/auth-guard.tsx:12-13 | no user, and loading |
| `Auth.AuthGuard.Check` | src/app/components/auth-guard.tsx:16-32 | with no stored user or a wrong role, it pushes `"/"` and leaves the user and loading as they were. Otherwise the user is the stored one, loading ends and nothing is pushed. It keeps the invariant that an admitted user holds the required role |
| `Auth.AuthGuard.Logout` | src/app/components/auth-guard.tsx:34-37 | removes only the `"user"` key and pushes `"/"` |
| `Auth.LogoutKeepsOtherKeys` | src/app/components/auth-guard.tsx:35 | after logout there is no stored user, the stored problems and submissions are as before, and a second logout leaves the store unchanged |
| `Login.HomeOf` | src/app/page.tsx:27-31 | an admin lands on `"/admin"` and a student on the other home, and neither home is the login page `"/"` |
| `Login.LoginPage.constructor` | src/app/page.tsx:18-19 | empty name, role student |
| `Login.LoginPage.SetName` | src/app/page.tsx:59 | typing sets the name |
| `Login.LoginPage.SetRole` | src/app/page.tsx:69 | a role button sets the role |
| `Login.LoginPage.HandleLogin` | src/app/page.tsx:22-32 | a blank name writes nothing and navigates nowhere. Otherwise the store's `"user"` becomes the untrimmed name with the role, and the router goes to `"/admin"` for an admin and to `"/student"` for a student |
| `Login.LoginThenGuard` | src/app/page.tsx:25 | once a login with role r is stored, the guard for r admits that user, a guard with no role admits them, and the other role's guard redirects to `"/"` |
| `Browser.LocalStorage.GetItem` | src/app/student/page.tsx:42 | `getItem` returns the value bound to the key, or nothing when the key is absent |
| `Browser.LocalStorage.SetItem` | src/app/student/page.tsx:73 | `setItem` binds the key to the value and leaves every other key as it was |
| `Browser.LocalStorage.RemoveItem` | src/app/components/auth-guard.tsx:35 | `removeItem` unbinds the key and leaves every other key as it was |
| `Browser.Router.Push` | src/app/components/auth-guard.tsx:19 | `router.push` appends the path to the navigation history |
| `Scenarios.LoginThenEnter` | src/app/components/auth-guard.tsx:25-31 | logging in with a non-blank name and role r lands on r's home, whose guard admits the user exactly as typed |
| `Scenarios.StudentRefusedByAdminGuard` | src/app/components/auth-guard.tsx:25-28 | a student session on the admin page gets no user, keeps loading and is sent to `"/"` |
| `Scenarios.AdminWritesStudentReads` | src/app/student/page.tsx:41-45 | two problems created on the admin page are read back by a student page mounted afterwards, identical and in the same order |
| `Scenarios.QuizScenario` | src/app/student/page.tsx:55-92 | two problems with answer "42". Answering "42" then "41" gives verdicts true then false; the counters read 1 / 1 / 0 after the first answer and 2 / 1 / 1 after the second, and the log is persisted |

## Left out

- Rendering, styling, badges and labels, and the components in
  `src/app/components/header.tsx`, `cyber-bg.tsx` and `numeric-keypad.tsx`:
  presentational only. The answering/result gating of the student page
  (form while no result is shown, next button while one is) and the admin
  form's visibility are kept as preconditions of the handlers those controls
  call. The disabled state of the submit and login buttons is
  left out: the handlers repeat the same blank checks.
- JSON serialisation: the store holds typed values. `JSON.parse` failures
  and values of the wrong shape are outside the model. A key holding a value
  of the wrong kind reads as absent.
- `Date.now()` and `new Date().toISOString()` are parameters (`id`,
  `createdAt`, `timestamp`). Ids are therefore not unique by construction.
  `DeleteUndoesCreate` assumes a fresh id.
- `Text.Lower`: does not model Unicode case mapping beyond ASCII `A`-`Z`.
  The model's `toLowerCase` leaves every other character unchanged.
- The Next.js router: only the pushed paths are recorded.
- React effect scheduling, state batching and re-rendering. Mounting and the
  load effect are one constructor. The guard's effect is the `Check` method.
  The pages' own `useAuth` calls and the `loading`/`!user` early returns
  are covered by `AuthGuard` and not repeated inside the page classes.
- Consistency across browser tabs: the code does not address it.
