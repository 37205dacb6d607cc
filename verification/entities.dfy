/** The records the quiz keeps, and the typed values its key-value store holds
    under the keys `"user"`, `"mathProblems"` and `"submissions"`. */
module Entities {

  datatype Option<T> = None | Some(value: T)

  datatype Role = Admin | Student

  datatype Difficulty = Easy | Medium | Hard

  /** An authored problem (`interface Problem` of the admin and student pages). */
  datatype Problem = Problem(
    id: string,
    question: string,
    correctAnswer: string,
    explanation: string,
    difficulty: Difficulty,
    createdAt: string)

  /** One answer attempt with its verdict, frozen when it is recorded. */
  datatype Submission = Submission(
    problemId: string,
    answer: string,
    isCorrect: bool,
    timestamp: string)

  /** The identity chosen at login (`interface User` of the auth guard). */
  datatype User = User(name: string, role: Role)

  /** A stored value, typed instead of serialised to JSON. */
  datatype Value =
    | UserValue(user: User)
    | ProblemsValue(problems: seq<Problem>)
    | SubmissionsValue(submissions: seq<Submission>)

  const UserKey: string := "user"
  const ProblemsKey: string := "mathProblems"
  const SubmissionsKey: string := "submissions"

  /** The user stored under `"user"`, if any. */
  function StoredUser(entries: map<string, Value>): (u: Option<User>)
  {
    if UserKey in entries && entries[UserKey].UserValue? then Some(entries[UserKey].user) else None
  }

  /** The problem list stored under `"mathProblems"`, if any. */
  function StoredProblems(entries: map<string, Value>): (ps: Option<seq<Problem>>)
  {
    if ProblemsKey in entries && entries[ProblemsKey].ProblemsValue? then Some(entries[ProblemsKey].problems) else None
  }

  /** The submission log stored under `"submissions"`, if any. */
  function StoredSubmissions(entries: map<string, Value>): (log: Option<seq<Submission>>)
  {
    if SubmissionsKey in entries && entries[SubmissionsKey].SubmissionsValue? then
      Some(entries[SubmissionsKey].submissions)
    else None
  }

  /** What a page loads from a stored list: the list when present, else empty. */
  function OrEmpty<T>(stored: Option<seq<T>>): seq<T> {
    if stored.Some? then stored.value else []
  }
}
