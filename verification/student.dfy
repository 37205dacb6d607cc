/** The student page: answer the current problem, see the verdict, move on,
    and watch the counts over the submission log. */
module Student {
  import opened Text
  import opened Entities
  import opened Browser

  // ---------------------------------------------------------------------
  // Evaluation

  /** The verdict of a submit: the trimmed, lower-cased answer must equal the
      lower-cased correct answer. The correct answer itself is NOT trimmed. */
  function IsCorrect(answer: string, correctAnswer: string): (r: bool)
    ensures Trim(answer) == correctAnswer ==> r
    ensures r ==> |Trim(answer)| == |correctAnswer|
  {
    Lower(Trim(answer)) == Lower(correctAnswer)
  }

  /** Whitespace around the submitted answer never changes the verdict. */
  lemma AnswerPaddingIrrelevant(p: string, a: string, q: string, correctAnswer: string)
    requires AllSpace(p) && AllSpace(q)
    ensures IsCorrect(p + a + q, correctAnswer) == IsCorrect(a, correctAnswer)
  {
    var p', q' := TrimSplit(a);
    var t := Trim(a);
    calc {
      p + a + q;
      p + (p' + t + q') + q;
      (p + p') + t + (q' + q);
    }
    AllSpaceConcat(p, p');
    AllSpaceConcat(q', q);
    TrimPadded(p + p', t, q' + q);
  }

  /** Letter case on either side never changes the verdict. */
  lemma CaseIrrelevant(a: string, correctAnswer: string)
    ensures IsCorrect(Lower(a), correctAnswer) == IsCorrect(a, correctAnswer)
    ensures IsCorrect(a, Lower(correctAnswer)) == IsCorrect(a, correctAnswer)
  {
    LowerTrimCommute(a);
    LowerIdempotent(Trim(a));
    LowerIdempotent(correctAnswer);
  }

  /** The correct answer, typed with any surrounding whitespace and in any
      case, is accepted, provided it has no whitespace of its own at either end. */
  lemma CorrectAnswerAccepted(p: string, correctAnswer: string, q: string)
    requires AllSpace(p) && AllSpace(q) && NoEdgeSpace(correctAnswer)
    ensures IsCorrect(p + correctAnswer + q, correctAnswer)
    ensures IsCorrect(p + Lower(correctAnswer) + q, correctAnswer)
  {
    TrimPadded(p, correctAnswer, q);
    AnswerPaddingIrrelevant(p, Lower(correctAnswer), q, correctAnswer);
    CaseIrrelevant(correctAnswer, correctAnswer);
  }

  /** A correct answer stored with whitespace at one of its ends can never be
      matched, since only the submitted side is trimmed. */
  lemma PaddedCorrectAnswerUnmatchable(a: string, correctAnswer: string)
    requires !NoEdgeSpace(correctAnswer)
    ensures !IsCorrect(a, correctAnswer)
  {
  }

  /** A blank answer matches only an empty correct answer. */
  lemma BlankAnswerMatchesOnlyEmpty(a: string, correctAnswer: string)
    requires AllSpace(a)
    ensures IsCorrect(a, correctAnswer) <==> correctAnswer == []
  {
  }

  /** Normalisation examples: `" 42 "` and `"42"` match,
      `"ABC"` and `"abc"` match, `"42.0"` and `""` do not match `"42"`. */
  lemma PaddedAnswerExample()
    ensures IsCorrect(" 42 ", "42")
  {
    assert AllSpace(" ");
    assert " 42 " == " " + "42" + " ";
    CorrectAnswerAccepted(" ", "42", " ");
  }

  lemma CaseExample()
    ensures IsCorrect("ABC", "abc")
  {
    assert NoEdgeSpace("ABC");
    TrimPadded([], "ABC", []);
    assert [] + "ABC" + [] == "ABC";
    var l1, l2 := Lower("ABC"), Lower("abc");
    assert l1[0] == 'a' && l1[1] == 'b' && l1[2] == 'c';
    assert l2[0] == 'a' && l2[1] == 'b' && l2[2] == 'c';
  }

  lemma NoNumericEquivalenceExample()
    ensures !IsCorrect("42.0", "42")
  {
  }

  lemma EmptyAnswerExample()
    ensures !IsCorrect("", "42")
  {
    assert |Lower(Trim(""))| == 0;
  }

  // ---------------------------------------------------------------------
  // Statistics over the submission log

  datatype Stats = Stats(total: nat, correct: nat, incorrect: nat)

  /** `submissions.filter(s => s.isCorrect == verdict)`. */
  function WithVerdict(log: seq<Submission>, verdict: bool): (r: seq<Submission>)
    ensures |r| <= |log|
    ensures forall s :: s in r <==> s in log && s.isCorrect == verdict
  {
    if log == [] then []
    else (if log[0].isCorrect == verdict then [log[0]] else []) + WithVerdict(log[1..], verdict)
  }

  lemma {:induction false} VerdictsPartitionLog(log: seq<Submission>)
    ensures |WithVerdict(log, true)| + |WithVerdict(log, false)| == |log|
  {
    if log != [] {
      VerdictsPartitionLog(log[1..]);
    }
  }

  lemma {:induction false} WithVerdictAppend(log: seq<Submission>, s: Submission, verdict: bool)
    ensures WithVerdict(log + [s], verdict)
         == WithVerdict(log, verdict) + (if s.isCorrect == verdict then [s] else [])
  {
    if log == [] {
      assert log + [s] == [s];
    } else {
      assert (log + [s])[1..] == log[1..] + [s];
      WithVerdictAppend(log[1..], s, verdict);
    }
  }

  /** The three counters shown on the page; correct and incorrect always add
      up to the total. */
  function StatsOf(log: seq<Submission>): (r: Stats)
    ensures r.total == |log|
    ensures r.correct + r.incorrect == r.total
  {
    VerdictsPartitionLog(log);
    Stats(|log|, |WithVerdict(log, true)|, |WithVerdict(log, false)|)
  }

  /** Recording one submission adds one to the total and one to the counter
      that matches its verdict. */
  lemma StatsAfterRecord(log: seq<Submission>, s: Submission)
    ensures StatsOf(log + [s]).total == StatsOf(log).total + 1
    ensures StatsOf(log + [s]).correct == StatsOf(log).correct + (if s.isCorrect then 1 else 0)
    ensures StatsOf(log + [s]).incorrect == StatsOf(log).incorrect + (if s.isCorrect then 0 else 1)
  {
    WithVerdictAppend(log, s, true);
    WithVerdictAppend(log, s, false);
  }

  // ---------------------------------------------------------------------
  // The page

  /** `problems[currentProblemIndex]`, which is undefined past the end. */
  function Current(problems: seq<Problem>, index: nat): (r: Option<Problem>)
    ensures r.Some? <==> index < |problems|
    ensures r.Some? ==> r.value in problems
  {
    if index < |problems| then Some(problems[index]) else None
  }

  /** The guard of the submit handler: a current problem and a non-blank answer. */
  predicate Accepts(answer: string, current: Option<Problem>): (b: bool)
    ensures b <==> current.Some? && !AllSpace(answer)
  {
    current.Some? && Trim(answer) != []
  }

  /** The submission recorded for `answer` against problem `p`: the trimmed
      answer with the verdict of the typed one. The stored answer has no edge
      whitespace, is empty only for a blank answer, and
      judging it again gives the recorded verdict. */
  function Record(p: Problem, answer: string, timestamp: string): (s: Submission)
    ensures s.problemId == p.id && s.timestamp == timestamp
    ensures s.answer == Trim(answer) && s.isCorrect == IsCorrect(answer, p.correctAnswer)
    ensures NoEdgeSpace(s.answer) && (s.answer == [] <==> AllSpace(answer))
    ensures s.isCorrect == IsCorrect(s.answer, p.correctAnswer)
  {
    TrimIdempotent(answer);
    Submission(p.id, Trim(answer), IsCorrect(answer, p.correctAnswer), timestamp)
  }

  /** What the page shows: an empty-state card, the answer form, or the
      verdict with the next button. */
  datatype Phase = NoProblems | Answering | ShowingResult

  class StudentPage {
    const store: LocalStorage
    var problems: seq<Problem>
    var index: nat
    var answer: string
    var shown: Option<Submission>
    var submissions: seq<Submission>

    /** The index points at a problem whenever there is one. */
    ghost predicate Valid()
      reads this
    {
      if |problems| == 0 then index == 0 else index < |problems|
    }

    /** Mounting the page: the initial state, then the load from storage. */
    constructor (store: LocalStorage)
      ensures this.store == store
      ensures problems == OrEmpty(StoredProblems(store.entries))
      ensures submissions == OrEmpty(StoredSubmissions(store.entries))
      ensures index == 0 && answer == "" && shown == None
      ensures Valid()
    {
      this.store := store;
      problems := [];
      index := 0;
      answer := "";
      shown := None;
      submissions := [];
      new;
      var stored := store.GetItem(ProblemsKey);
      if stored.Some? && stored.value.ProblemsValue? {
        problems := stored.value.problems;
      }
      var storedSubmissions := store.GetItem(SubmissionsKey);
      if storedSubmissions.Some? && storedSubmissions.value.SubmissionsValue? {
        submissions := storedSubmissions.value.submissions;
      }
    }

    /** Which part of the card is rendered; the handlers below may only be
        invoked from the part that renders their control. */
    function Phase(): (ph: Phase)
      reads this
      ensures ph == NoProblems <==> problems == []
      ensures ph == ShowingResult <==> problems != [] && shown.Some?
    {
      if |problems| == 0 then NoProblems
      else if shown.None? then Answering
      else ShowingResult
    }

    function CurrentStats(): (st: Stats)
      reads this
      ensures st.total == |submissions| && st.correct + st.incorrect == st.total
    {
      StatsOf(submissions)
    }

    /** Typing into the answer field, which exists only in the answer form. */
    method SetAnswer(text: string)
      requires Phase() == Answering
      modifies this`answer
      ensures answer == text
    {
      answer := text;
    }

    /** The submit button, which exists only in the answer form. */
    method Submit(timestamp: string)
      requires Phase() == Answering
      modifies this, store
      ensures problems == old(problems) && index == old(index) && answer == old(answer)
      ensures !Accepts(old(answer), Current(old(problems), old(index))) ==>
                unchanged(this) && unchanged(store)
      ensures Accepts(old(answer), Current(old(problems), old(index))) ==>
                var s := Record(Current(old(problems), old(index)).value, old(answer), timestamp);
                && submissions == old(submissions) + [s]
                && shown == Some(s)
                && store.entries == old(store.entries)[SubmissionsKey := SubmissionsValue(submissions)]
                && Phase() == ShowingResult
      ensures old(Valid()) && Trim(old(answer)) != [] ==>
                |submissions| == |old(submissions)| + 1 && Phase() == ShowingResult
      ensures Valid() == old(Valid())
    {
      var current := Current(problems, index);
      if !Accepts(answer, current) {
        return;
      }
      var p := current.value;
      var s := Record(p, answer, timestamp);
      submissions := submissions + [s];
      store.SetItem(SubmissionsKey, SubmissionsValue(submissions));
      shown := Some(s);
    }

    /** The next button, which exists only while a result is shown. */
    method Next()
      requires Phase() == ShowingResult
      modifies this`answer, this`shown, this`index
      ensures answer == "" && shown == None
      ensures index == if old(index) + 1 < |problems| then old(index) + 1 else 0
      ensures index < |problems| && Phase() == Answering
      ensures Valid()
    {
      answer := "";
      shown := None;
      if index + 1 < |problems| {
        index := index + 1;
      } else {
        index := 0;
      }
    }
  }
}
