/** The server action behind "suggest tasks": validate the description,
    call the task-suggestion model, and turn its outcome into a form state.
    The model call is a parameter giving its outcome for a description. */
module Actions {
  import opened Common

  /** What `formData.get('jobDescription')` returns: nothing, or a string. */
  datatype FieldValue = Missing | Text(s: string)

  /** What the model call does: throws, or returns a (possibly absent) task
      list. */
  datatype AiOutcome = Throws | Returns(tasks: Option<seq<string>>)

  datatype FormState = FormState(message: string, tasks: Option<seq<string>>, fields: Option<map<string, string>>)

  /** The schema: a string of at least one character. */
  function ValidateDescription(v: FieldValue): Result<string, string> {
    match v
    case Missing => Err("Expected string, received null")
    case Text(s) => if |s| < 1 then Err("Job description cannot be empty.") else Ok(s)
  }

  function GetTasksFromDescription(prevState: FormState, jobDescription: FieldValue, ai: string -> AiOutcome): FormState {
    match ValidateDescription(jobDescription)
    case Err(e) => FormState("Validation error.", None, Some(map["jobDescription" := e]))
    case Ok(description) =>
      match ai(description)
      case Throws => FormState("An error occurred while communicating with the AI.", None, None)
      case Returns(tasks) =>
        if tasks.Some? && |tasks.value| > 0 then FormState("success", Some(tasks.value), None)
        else FormState("Could not generate tasks from the description.", None, None)
  }

  /** A missing or empty description is a validation error carrying the
      field's message and no tasks, and the model is not consulted: any two
      model behaviours give the same state. */
  lemma InvalidDescription(prev: FormState, v: FieldValue, ai1: string -> AiOutcome, ai2: string -> AiOutcome)
    requires v.Missing? || v.s == ""
    ensures GetTasksFromDescription(prev, v, ai1) == GetTasksFromDescription(prev, v, ai2)
    ensures var st := GetTasksFromDescription(prev, v, ai1);
      && st.message == "Validation error."
      && st.tasks.None?
      && st.fields.Some? && "jobDescription" in st.fields.value
      && (v.Text? ==> st.fields.value["jobDescription"] == "Job description cannot be empty.")
  {
  }

  /** For a non-empty description the model is asked with exactly that
      description, and its outcome decides the state. */
  lemma ValidDescription(prev: FormState, d: string, ai: string -> AiOutcome)
    requires d != ""
    ensures var st := GetTasksFromDescription(prev, Text(d), ai);
      && (ai(d).Throws? ==> st == FormState("An error occurred while communicating with the AI.", None, None))
      && (ai(d).Returns? && ai(d).tasks.Some? && ai(d).tasks.value != [] ==>
            st == FormState("success", ai(d).tasks, None))
      && (ai(d).Returns? && (ai(d).tasks.None? || ai(d).tasks.value == []) ==>
            st == FormState("Could not generate tasks from the description.", None, None))
  {
  }

  /** Tasks are reported exactly when the message is "success", and then
      they are a non-empty list the model returned. */
  lemma TasksOnlyOnSuccess(prev: FormState, v: FieldValue, ai: string -> AiOutcome)
    ensures var st := GetTasksFromDescription(prev, v, ai);
      && (st.tasks.Some? <==> st.message == "success")
      && (st.tasks.Some? ==> st.tasks.value != [] && v.Text? && ai(v.s) == Returns(st.tasks))
      && (st.fields.Some? <==> st.message == "Validation error.")
  {
  }
}
