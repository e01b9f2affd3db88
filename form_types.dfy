/** The records a form is made of (src/types/form.types.ts). */
module FormTypes {
  import opened Wrappers

  /** The closed set of question kinds: 'short' | 'long' | 'number' | 'radio'. */
  datatype QuestionType = Short | Long | Number | Radio

  /** A question as the caller describes it to `createForm`: every field but the id. */
  datatype QuestionSpec = QuestionSpec(
    questionType: QuestionType,
    text: string,
    required: bool,
    placeholder: Option<string>,
    options: Option<seq<string>>)

  /** A question of a stored form. */
  datatype FormQuestion = FormQuestion(
    id: string,
    questionType: QuestionType,
    text: string,
    required: bool,
    placeholder: Option<string>,
    options: Option<seq<string>>)

  /** An answer is either text or a number (`string | number`). */
  datatype ResponseValue = Text(text: string) | Numeric(number: real)

  /** One answer, naming the question it answers. */
  datatype FormResponse = FormResponse(questionId: string, value: ResponseValue)

  /** What the caller submits: the target form and the answers, in order. */
  datatype FormSubmission = FormSubmission(formId: string, responses: seq<FormResponse>)

  /** A form: its questions, fixed at creation, and every submission received so far. */
  datatype Form = Form(
    id: string,
    title: string,
    questions: seq<FormQuestion>,
    responses: seq<seq<FormResponse>>)

  /** `{ ...spec, id }`: the spec's fields with an id added. */
  function WithId(spec: QuestionSpec, id: string): (q: FormQuestion)
    ensures q.id == id && WithoutId(q) == spec
  {
    FormQuestion(id, spec.questionType, spec.text, spec.required, spec.placeholder, spec.options)
  }

  /** The fields of a question other than its id. */
  function WithoutId(q: FormQuestion): QuestionSpec
  {
    QuestionSpec(q.questionType, q.text, q.required, q.placeholder, q.options)
  }
}
