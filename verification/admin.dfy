/** The admin page: the problem list with its create form and delete buttons. */
module Admin {
  import opened Entities
  import opened Browser

  /** The create form's fields. */
  datatype Form = Form(question: string, correctAnswer: string, explanation: string, difficulty: Difficulty)

  /** The form as first shown and as reset after each create. */
  const EmptyForm: Form := Form("", "", "", Medium)

  /** The three text inputs carry the HTML `required` attribute, so the browser
      submits the form only when none of them is empty. */
  predicate Complete(f: Form): (b: bool)
    ensures f == EmptyForm ==> !b
  {
    f.question != [] && f.correctAnswer != [] && f.explanation != []
  }

  // ---------------------------------------------------------------------
  // The list operations

  /** `problems.filter(p => p.id !== id)`. */
  function RemoveId(problems: seq<Problem>, id: string): (r: seq<Problem>)
    ensures |r| <= |problems|
    ensures forall p :: p in r <==> p in problems && p.id != id
  {
    if problems == [] then []
    else (if problems[0].id != id then [problems[0]] else []) + RemoveId(problems[1..], id)
  }

  /** How many problems carry `id`. */
  function CountId(problems: seq<Problem>, id: string): nat {
    if problems == [] then 0
    else (if problems[0].id == id then 1 else 0) + CountId(problems[1..], id)
  }

  /** Delete keeps the relative order: filtering a concatenation filters each part. */
  lemma {:induction false} RemoveIdConcat(a: seq<Problem>, b: seq<Problem>, id: string)
    ensures RemoveId(a + b, id) == RemoveId(a, id) + RemoveId(b, id)
  {
    if a == [] {
      assert a + b == b;
    } else {
      assert (a + b)[0] == a[0];
      assert (a + b)[1..] == a[1..] + b;
      RemoveIdConcat(a[1..], b, id);
    }
  }

  /** Delete removes exactly the problems that carry the id. */
  lemma {:induction false} RemoveIdCount(problems: seq<Problem>, id: string)
    ensures |RemoveId(problems, id)| + CountId(problems, id) == |problems|
  {
    if problems != [] {
      RemoveIdCount(problems[1..], id);
    }
  }

  /** Deleting an id that no problem carries changes nothing. */
  lemma {:induction false} RemoveAbsentId(problems: seq<Problem>, id: string)
    requires forall p :: p in problems ==> p.id != id
    ensures RemoveId(problems, id) == problems
  {
    if problems != [] {
      assert problems[0] in problems;
      assert forall p :: p in problems[1..] ==> p in problems;
      RemoveAbsentId(problems[1..], id);
      assert problems == [problems[0]] + problems[1..];
    }
  }

  /** Deleting the same id twice is deleting it once. */
  lemma RemoveIdIdempotent(problems: seq<Problem>, id: string)
    ensures RemoveId(RemoveId(problems, id), id) == RemoveId(problems, id)
  {
    RemoveAbsentId(RemoveId(problems, id), id);
  }

  /** Deleting the id of a problem that occurs once shortens the list by one. */
  lemma RemoveUniqueId(problems: seq<Problem>, id: string)
    requires CountId(problems, id) == 1
    ensures |RemoveId(problems, id)| == |problems| - 1
    ensures forall p :: p in RemoveId(problems, id) ==> p.id != id
  {
    RemoveIdCount(problems, id);
  }

  /** Deleting a just-created problem whose id is fresh restores the list. */
  lemma DeleteUndoesCreate(problems: seq<Problem>, p: Problem)
    requires forall q :: q in problems ==> q.id != p.id
    ensures RemoveId(problems + [p], p.id) == problems
  {
    RemoveIdConcat(problems, [p], p.id);
    RemoveAbsentId(problems, p.id);
    assert RemoveId([p], p.id) == [];
  }

  // ---------------------------------------------------------------------
  // The page

  class AdminPage {
    const store: LocalStorage
    var problems: seq<Problem>
    var showForm: bool
    var form: Form

    /** Mounting the page: the initial state, then the load from storage. */
    constructor (store: LocalStorage)
      ensures this.store == store
      ensures problems == OrEmpty(StoredProblems(store.entries))
      ensures !showForm && form == EmptyForm
    {
      this.store := store;
      problems := [];
      showForm := false;
      form := EmptyForm;
      new;
      var stored := store.GetItem(ProblemsKey);
      if stored.Some? && stored.value.ProblemsValue? {
        problems := stored.value.problems;
      }
    }

    /** The add / cancel button. */
    method ToggleForm()
      modifies this`showForm
      ensures showForm == !old(showForm)
    {
      showForm := !showForm;
    }

    /** The form's inputs exist only while the form is shown. */
    method SetQuestion(text: string)
      requires showForm
      modifies this`form
      ensures form == old(form).(question := text)
    {
      form := form.(question := text);
    }

    method SetCorrectAnswer(text: string)
      requires showForm
      modifies this`form
      ensures form == old(form).(correctAnswer := text)
    {
      form := form.(correctAnswer := text);
    }

    method SetExplanation(text: string)
      requires showForm
      modifies this`form
      ensures form == old(form).(explanation := text)
    {
      form := form.(explanation := text);
    }

    method SetDifficulty(level: Difficulty)
      requires showForm
      modifies this`form
      ensures form == old(form).(difficulty := level)
    {
      form := form.(difficulty := level);
    }

    /** Submitting the create form, which is rendered only while `showForm`
        holds; `id` and `createdAt` stand for the clock readings the page takes. */
    method Create(id: string, createdAt: string)
      requires showForm && Complete(form)
      modifies this, store
      ensures problems == old(problems)
                + [Problem(id, old(form).question, old(form).correctAnswer,
                           old(form).explanation, old(form).difficulty, createdAt)]
      ensures store.entries == old(store.entries)[ProblemsKey := ProblemsValue(problems)]
      ensures form == EmptyForm && !showForm
    {
      var p := Problem(id, form.question, form.correctAnswer, form.explanation, form.difficulty, createdAt);
      problems := problems + [p];
      store.SetItem(ProblemsKey, ProblemsValue(problems));
      form := EmptyForm;
      showForm := false;
    }

    /** A delete button. */
    method Delete(id: string)
      modifies this`problems, store
      ensures problems == RemoveId(old(problems), id)
      ensures store.entries == old(store.entries)[ProblemsKey := ProblemsValue(problems)]
    {
      problems := RemoveId(problems, id);
      store.SetItem(ProblemsKey, ProblemsValue(problems));
    }
  }
}
