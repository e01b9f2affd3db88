/**
 * The form store (src/stores/form.store.ts): an ordered list of forms that
 * grows by creation and whose response histories grow by submissions.
 * Identifiers the source draws from `crypto.randomUUID()` are supplied by
 * the caller, fresh.
 */
module Forms {
  import opened Wrappers
  import opened Lookup
  import opened FormTypes

  /** The predicate the source hands to `find`: "this form has id `id`". */
  function FormHasId(id: string): Form -> bool
  {
    (f: Form) => f.id == id
  }

  /** No two forms share an id. */
  ghost predicate UniqueFormIds(forms: seq<Form>)
  {
    forall i, j :: 0 <= i < j < |forms| ==> forms[i].id != forms[j].id
  }

  /** The questions of a form have pairwise distinct ids. */
  ghost predicate UniqueQuestionIds(f: Form)
  {
    forall a, b :: 0 <= a < b < |f.questions| ==> f.questions[a].id != f.questions[b].id
  }

  /** What every store state satisfies. */
  ghost predicate ValidForms(forms: seq<Form>)
  {
    && UniqueFormIds(forms)
    && forall k :: 0 <= k < |forms| ==> UniqueQuestionIds(forms[k])
  }

  /** Every identifier already handed out: form ids and question ids. */
  ghost function UsedIds(forms: seq<Form>): set<string>
  {
    (set f | f in forms :: f.id) + (set f, q | f in forms && q in f.questions :: q.id)
  }

  /** The ids for a new form and its questions are pairwise distinct and unused. */
  ghost predicate FreshIds(forms: seq<Form>, formId: string, questionIds: seq<string>)
  {
    && Distinct([formId] + questionIds)
    && forall x :: x in [formId] + questionIds ==> x !in UsedIds(forms)
  }

  /** The form `createForm` builds: the specs in order, each given its id, and no responses. */
  function NewForm(formId: string, title: string, specs: seq<QuestionSpec>, questionIds: seq<string>): (f: Form)
    requires |questionIds| == |specs|
    ensures f.id == formId && f.title == title && f.responses == []
    ensures |f.questions| == |specs|
    ensures forall i :: 0 <= i < |specs| ==>
              f.questions[i].id == questionIds[i] && WithoutId(f.questions[i]) == specs[i]
  {
    Form(formId, title, seq(|specs|, i requires 0 <= i < |specs| => WithId(specs[i], questionIds[i])), [])
  }

  /** The store's forms after `submitFormResponse(submission)`. */
  function SubmitForm(forms: seq<Form>, submission: FormSubmission): (r: seq<Form>)
    ensures |r| == |forms|
  {
    match FindIndex(forms, FormHasId(submission.formId))
    case Some(k) => forms[k := forms[k].(responses := forms[k].responses + [submission.responses])]
    case None => forms
  }

  /** The store's forms after a series of submissions, in order. */
  function SubmitAll(forms: seq<Form>, submissions: seq<FormSubmission>): seq<Form>
    decreases |submissions|
  {
    if submissions == [] then forms
    else SubmitAll(SubmitForm(forms, submissions[0]), submissions[1..])
  }

  /** The response lists of the submissions addressed to form `id`, in order. */
  function SubmittedTo(submissions: seq<FormSubmission>, id: string): seq<seq<FormResponse>>
  {
    if submissions == [] then []
    else (if submissions[0].formId == id then [submissions[0].responses] else [])
         + SubmittedTo(submissions[1..], id)
  }

  /** Under unique ids, the form `find` selects is the one carrying the id. */
  lemma FindForm(forms: seq<Form>, k: nat)
    requires UniqueFormIds(forms) && k < |forms|
    ensures FindIndex(forms, FormHasId(forms[k].id)) == Some(k)
  {
    FindIndexOfOnly(forms, FormHasId(forms[k].id), k);
  }

  /** Creation appends a form that keeps every store invariant. */
  lemma CreateKeepsValid(forms: seq<Form>, formId: string, title: string, specs: seq<QuestionSpec>, questionIds: seq<string>)
    requires ValidForms(forms)
    requires |questionIds| == |specs| && FreshIds(forms, formId, questionIds)
    ensures ValidForms(forms + [NewForm(formId, title, specs, questionIds)])
  {
    var f := NewForm(formId, title, specs, questionIds);
    var all := forms + [f];
    assert formId in [formId] + questionIds;
    forall i | 0 <= i < |forms| ensures all[i].id != f.id {
      assert forms[i] in forms;
      assert forms[i].id in UsedIds(forms);
    }
    forall a, b | 0 <= a < b < |f.questions| ensures f.questions[a].id != f.questions[b].id {
      assert ([formId] + questionIds)[a + 1] == questionIds[a];
      assert ([formId] + questionIds)[b + 1] == questionIds[b];
    }
  }

  /**
   * A submission neither adds nor removes forms, and changes no form's id,
   * title or questions; so it keeps every store invariant.
   */
  lemma SubmitKeepsShape(forms: seq<Form>, submission: FormSubmission)
    ensures var r := SubmitForm(forms, submission);
      && |r| == |forms|
      && forall k :: 0 <= k < |forms| ==>
           r[k].id == forms[k].id && r[k].title == forms[k].title && r[k].questions == forms[k].questions
    ensures ValidForms(forms) ==> ValidForms(SubmitForm(forms, submission))
  {
  }

  /**
   * When a form carries the submission's id, the submitted list is appended,
   * verbatim, as the one new last entry of that form's responses; nothing is
   * asked of the responses (question ids, required answers, value kinds), and
   * every other form is left as it was.
   */
  lemma SubmitAppends(forms: seq<Form>, submission: FormSubmission, k: nat)
    requires UniqueFormIds(forms) && k < |forms| && forms[k].id == submission.formId
    ensures var r := SubmitForm(forms, submission);
      && |r| == |forms|
      && r[k].responses == forms[k].responses + [submission.responses]
      && r[k].id == forms[k].id && r[k].title == forms[k].title && r[k].questions == forms[k].questions
      && forall j :: 0 <= j < |forms| && j != k ==> r[j] == forms[j]
  {
    FindForm(forms, k);
  }

  /** A submission changes the store exactly when some form carries its id. */
  lemma SubmitIgnored(forms: seq<Form>, submission: FormSubmission)
    ensures SubmitForm(forms, submission) == forms <==>
      forall k :: 0 <= k < |forms| ==> forms[k].id != submission.formId
  {
    match FindIndex(forms, FormHasId(submission.formId))
    case Some(k) =>
      assert |SubmitForm(forms, submission)[k].responses| == |forms[k].responses| + 1;
    case None =>
  }

  /** One submission, seen from form `k`: its list is appended exactly when it names `k`. */
  lemma SubmitOneAt(forms: seq<Form>, submission: FormSubmission, k: nat)
    requires UniqueFormIds(forms) && k < |forms|
    ensures var r := SubmitForm(forms, submission);
      && |r| == |forms| && UniqueFormIds(r)
      && r[k] == forms[k].(responses := forms[k].responses
           + if submission.formId == forms[k].id then [submission.responses] else [])
  {
    SubmitKeepsShape(forms, submission);
    if submission.formId == forms[k].id {
      SubmitAppends(forms, submission, k);
    } else {
      match FindIndex(forms, FormHasId(submission.formId))
      case Some(j) => assert j != k;
      case None =>
    }
  }

  /** A series of submissions keeps the number of forms and each form's id, title and questions. */
  lemma {:induction false} SubmitAllKeepsShape(forms: seq<Form>, submissions: seq<FormSubmission>)
    ensures var r := SubmitAll(forms, submissions);
      && |r| == |forms|
      && forall k :: 0 <= k < |forms| ==>
           r[k].id == forms[k].id && r[k].title == forms[k].title && r[k].questions == forms[k].questions
    ensures UniqueFormIds(forms) ==> UniqueFormIds(SubmitAll(forms, submissions))
    decreases |submissions|
  {
    if submissions != [] {
      SubmitKeepsShape(forms, submissions[0]);
      SubmitAllKeepsShape(SubmitForm(forms, submissions[0]), submissions[1..]);
    }
  }

  /** `history` extended, one submission at a time, by the lists addressed to form `id`. */
  ghost function Replay(history: seq<seq<FormResponse>>, submissions: seq<FormSubmission>, id: string): seq<seq<FormResponse>>
    decreases |submissions|
  {
    if submissions == [] then history
    else Replay(history + if submissions[0].formId == id then [submissions[0].responses] else [], submissions[1..], id)
  }

  /** Replaying submissions appends exactly the lists submitted to `id`, in order. */
  lemma {:induction false} ReplayAppends(history: seq<seq<FormResponse>>, submissions: seq<FormSubmission>, id: string)
    ensures Replay(history, submissions, id) == history + SubmittedTo(submissions, id)
    decreases |submissions|
  {
    if submissions != [] {
      var here := if submissions[0].formId == id then [submissions[0].responses] else [];
      ReplayAppends(history + here, submissions[1..], id);
      assert (history + here) + SubmittedTo(submissions[1..], id) == history + (here + SubmittedTo(submissions[1..], id));
    }
  }

  /**
   * Responses are append-only: after any series of submissions, each form's
   * responses are its earlier responses followed by the lists submitted to
   * it, in submission order.
   */
  lemma SubmitAllHistory(forms: seq<Form>, submissions: seq<FormSubmission>, k: nat)
    requires UniqueFormIds(forms) && k < |forms|
    ensures |SubmitAll(forms, submissions)| == |forms|
    ensures SubmitAll(forms, submissions)[k].responses
         == forms[k].responses + SubmittedTo(submissions, forms[k].id)
  {
    SubmitAllReplays(forms, submissions, k);
    ReplayAppends(forms[k].responses, submissions, forms[k].id);
  }

  /** The history of form `k` after a series of submissions is their replay. */
  lemma {:induction false} SubmitAllReplays(forms: seq<Form>, submissions: seq<FormSubmission>, k: nat)
    requires UniqueFormIds(forms) && k < |forms|
    ensures |SubmitAll(forms, submissions)| == |forms|
    ensures SubmitAll(forms, submissions)[k].responses == Replay(forms[k].responses, submissions, forms[k].id)
    decreases |submissions|
  {
    SubmitAllKeepsShape(forms, submissions);
    if submissions != [] {
      var next := SubmitForm(forms, submissions[0]);
      SubmitOneAt(forms, submissions[0], k);
      SubmitAllReplays(next, submissions[1..], k);
    }
  }

  /** The in-memory form store. */
  class FormStore {
    var forms: seq<Form>

    ghost predicate Valid()
      reads this
    {
      ValidForms(forms)
    }

    /** A store starts with no forms. */
    constructor ()
      ensures Valid() && forms == []
    {
      forms := [];
    }

    /** `createForm`: build a form from the title and question specs and push it at the end. */
    method CreateForm(title: string, questions: seq<QuestionSpec>, formId: string, questionIds: seq<string>)
      returns (newForm: Form)
      requires Valid()
      requires |questionIds| == |questions| && FreshIds(forms, formId, questionIds)
      modifies this
      ensures Valid()
      ensures newForm == NewForm(formId, title, questions, questionIds)
      ensures forms == old(forms) + [newForm]
    {
      newForm := NewForm(formId, title, questions, questionIds);
      CreateKeepsValid(forms, formId, title, questions, questionIds);
      forms := forms + [newForm];
    }

    /** `submitFormResponse`: append the submitted answers to the form they name, if any. */
    method SubmitFormResponse(submission: FormSubmission)
      requires Valid()
      modifies this
      ensures Valid()
      ensures forms == SubmitForm(old(forms), submission)
    {
      SubmitKeepsShape(forms, submission);
      var found := FindIndex(forms, FormHasId(submission.formId));
      if found.Some? {
        var k := found.value;
        var form := forms[k];
        form := form.(responses := form.responses + [submission.responses]);
        forms := forms[k := form];
      }
    }

    /** `getForm`: the first form with the id, or None. */
    function GetForm(id: string): (r: Option<Form>)
      reads this
      ensures r.None? <==> forall k :: 0 <= k < |forms| ==> forms[k].id != id
      ensures r.Some? ==> r.value.id == id && exists k :: IsFirst(forms, FormHasId(id), k) && r.value == forms[k]
    {
      Find(forms, FormHasId(id))
    }

    /** `getAllForms`: the stored list itself, in insertion order. */
    function GetAllForms(): (r: seq<Form>)
      reads this
      ensures r == forms
    {
      forms
    }
  }

  /** The form scenario: one required short question, one submission. */
  method FeedbackScenario()
  {
    var store := new FormStore();
    assert UsedIds(store.forms) == {};
    var spec := QuestionSpec(Short, "Name", true, None, None);
    var form := store.CreateForm("Feedback", [spec], "f", ["q"]);
    assert |form.questions| == 1 && form.questions[0].id == "q" && form.responses == [];
    FindForm(store.forms, 0);
    var answer := FormResponse(form.questions[0].id, Text("Alice"));
    store.SubmitFormResponse(FormSubmission("f", [answer]));
    var after := store.GetForm("f");
    assert after == Some(store.forms[0]);
    assert after.value.responses == [[answer]];
  }
}
