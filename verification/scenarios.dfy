/** End-to-end sequences of handler calls over one shared store and router. */
module Scenarios {
  import opened Text
  import opened Entities
  import opened Browser
  import opened Auth
  import opened Login
  import opened Admin
  import opened Student

  /** Logging in with a non-blank name and role `r` lands on `r`'s home, and
      that page's guard admits the user exactly as typed. */
  method LoginThenEnter(name: string, r: Role) returns (admitted: Option<User>, path: string)
    requires !AllSpace(name)
    ensures admitted == Some(User(name, r))
    ensures path == HomeOf(r)
  {
    var store := new LocalStorage();
    var router := new Router();
    var login := new LoginPage(store, router);
    login.SetName(name);
    login.SetRole(r);
    login.HandleLogin();
    path := router.pushed[0];
    var guard := new AuthGuard(Some(r), store, router);
    guard.Check();
    admitted := guard.user;
  }

  /** A student session is turned away from the admin page and stays loading. */
  method StudentRefusedByAdminGuard(name: string) returns (admitted: Option<User>, loading: bool, path: string)
    requires !AllSpace(name)
    ensures admitted == None && loading
    ensures path == LoginPath
  {
    var store := new LocalStorage();
    var router := new Router();
    var login := new LoginPage(store, router);
    login.SetName(name);
    login.HandleLogin();
    var guard := new AuthGuard(Some(Admin), store, router);
    guard.Check();
    admitted, loading := guard.user, guard.loading;
    path := router.pushed[|router.pushed| - 1];
  }

  /** Fills in the create form and submits it. */
  method Author(admin: AdminPage, f: Form, id: string, createdAt: string)
    requires !admin.showForm && Complete(f)
    modifies admin, admin.store
    ensures admin.problems == old(admin.problems)
              + [Problem(id, f.question, f.correctAnswer, f.explanation, f.difficulty, createdAt)]
    ensures admin.store.entries == old(admin.store.entries)[ProblemsKey := ProblemsValue(admin.problems)]
    ensures admin.form == EmptyForm && !admin.showForm
  {
    admin.ToggleForm();
    admin.SetQuestion(f.question);
    admin.SetCorrectAnswer(f.correctAnswer);
    admin.SetExplanation(f.explanation);
    admin.SetDifficulty(f.difficulty);
    assert admin.form == f;
    admin.Create(id, createdAt);
  }

  /** Problems written by the admin page are read back, identical and in
      order, by a student page mounted afterwards. */
  method AdminWritesStudentReads(first: Form, second: Form, id1: string, id2: string, at1: string, at2: string)
    returns (written: seq<Problem>, read: seq<Problem>)
    requires Complete(first) && Complete(second)
    ensures read == written
    ensures written == [Problem(id1, first.question, first.correctAnswer, first.explanation, first.difficulty, at1),
                        Problem(id2, second.question, second.correctAnswer, second.explanation, second.difficulty, at2)]
  {
    var store := new LocalStorage();
    var admin := new AdminPage(store);
    Author(admin, first, id1, at1);
    Author(admin, second, id2, at2);
    written := admin.problems;
    var student := new StudentPage(store);
    read := student.problems;
  }

  /** The two problems of the quiz scenario, both answered by "42". */
  const AddProblem: Problem := Problem("1", "15+27=?", "42", "add", Easy, "t0")
  const MultiplyProblem: Problem := Problem("2", "6*7=?", "42", "multiply", Medium, "t1")

  /** A fresh store into which the admin page has written the two problems. */
  method AuthorScenarioProblems() returns (store: LocalStorage)
    ensures fresh(store)
    ensures StoredProblems(store.entries) == Some([AddProblem, MultiplyProblem])
    ensures StoredSubmissions(store.entries) == None
  {
    store := new LocalStorage();
    var admin := new AdminPage(store);
    assert admin.problems == [];
    Author(admin, Form("15+27=?", "42", "add", Easy), "1", "t0");
    assert admin.problems == [AddProblem];
    Author(admin, Form("6*7=?", "42", "multiply", Medium), "2", "t1");
    assert admin.problems == [AddProblem, MultiplyProblem];
  }

  /** The verdicts the quiz scenario relies on. */
  lemma FortyTwoVerdicts()
    ensures !AllSpace("42") && !AllSpace("41")
    ensures IsCorrect("42", "42") && !IsCorrect("41", "42")
  {
    assert !IsSpace("42"[0]) && !IsSpace("41"[0]);
    CorrectAnswerAccepted([], "42", []);
    assert [] + "42" + [] == "42";
    assert NoEdgeSpace("41");
    TrimPadded([], "41", []);
    assert [] + "41" + [] == "41";
    assert Lower("41")[1] != Lower("42")[1];
  }

  /** Types `text` into the answer form and submits it; the problems and the
      index stay put, and one submission carrying the verdict is recorded. */
  method AnswerCurrent(student: StudentPage, text: string, timestamp: string) returns (verdict: bool)
    requires student.Valid() && student.Phase() == Answering && !AllSpace(text)
    modifies student, student.store
    ensures student.problems == old(student.problems) && student.index == old(student.index)
    ensures student.Valid()
    ensures verdict == IsCorrect(text, student.problems[student.index].correctAnswer)
    ensures student.submissions
         == old(student.submissions) + [Record(student.problems[student.index], text, timestamp)]
    ensures student.shown == Some(Record(student.problems[student.index], text, timestamp))
    ensures student.Phase() == ShowingResult
    ensures StoredSubmissions(student.store.entries) == Some(student.submissions)
  {
    student.SetAnswer(text);
    student.Submit(timestamp);
    verdict := student.shown.value.isCorrect;
  }

  /** The admin authors two problems whose answer is "42"; the student
      answers "42" to the first (correct) and "41" to the second
      (incorrect); the counters read 1 / 1 / 0 after the first answer and
      2 / 1 / 1 after the second. The log is persisted. */
  method QuizScenario() returns (first: bool, second: bool, afterFirst: Stats, stats: Stats, persisted: bool)
    ensures first && !second
    ensures afterFirst == Stats(1, 1, 0)
    ensures stats == Stats(2, 1, 1)
    ensures persisted
  {
    var store := AuthorScenarioProblems();
    var student := new StudentPage(store);
    assert student.submissions == [];
    assert student.problems == [AddProblem, MultiplyProblem];
    FortyTwoVerdicts();

    ghost var ps := student.problems;

    first := AnswerCurrent(student, "42", "t2");
    ghost var s1 := Record(ps[0], "42", "t2");
    assert student.problems == ps && student.submissions == [s1];
    StatsAfterRecord([], s1);
    assert [] + [s1] == [s1];
    afterFirst := student.CurrentStats();
    student.Next();
    assert student.index == 1;
    second := AnswerCurrent(student, "41", "t3");
    assert second == IsCorrect("41", ps[1].correctAnswer);
    ghost var s2 := Record(ps[1], "41", "t3");
    assert student.submissions == [s1] + [s2];

    StatsAfterRecord([s1], s2);
    stats := student.CurrentStats();
    persisted := StoredSubmissions(store.entries) == Some(student.submissions);
  }
}
