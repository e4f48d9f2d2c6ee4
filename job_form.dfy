/**
 * The add/edit dialog `JobForm.jsx`: its six text fields, the error object
 * `validateForm` fills, the per-field change handler and the prefill from
 * the job being edited.
 */
module JobForm {
  import opened Wrappers
  import opened Strings
  import opened JsObject
  import opened Jobs

  datatype Field = Title | Company | Location | JobType | Tags | Description

  /** The error object: keyed by the fields' property names. */
  type Errors = Entries<Field>

  /** `formData`: every field is text; `tags` is the comma-separated list as typed. */
  datatype FormData = FormData(
    title: string,
    company: string,
    location: string,
    jobType: string,
    tags: string,
    description: string)

  const EmptyForm := FormData("", "", "", "", "", "")

  function Value(form: FormData, f: Field): string {
    match f
    case Title => form.title
    case Company => form.company
    case Location => form.location
    case JobType => form.jobType
    case Tags => form.tags
    case Description => form.description
  }

  /** `{ ...prev, [field]: value }`: that field now holds `v`, every other field is kept. */
  function With(form: FormData, f: Field, v: string): (r: FormData)
    ensures Value(r, f) == v
    ensures forall g :: g != f ==> Value(r, g) == Value(form, g)
  {
    match f
    case Title => form.(title := v)
    case Company => form.(company := v)
    case Location => form.(location := v)
    case JobType => form.(jobType := v)
    case Tags => form.(tags := v)
    case Description => form.(description := v)
  }

  /** What `validateForm` accepts: title, company and location not blank, and a job type chosen. */
  predicate Complete(form: FormData) {
    Trim(JavaScriptSpace, form.title) != [] && Trim(JavaScriptSpace, form.company) != [] && Trim(JavaScriptSpace, form.location) != [] && form.jobType != []
  }

  /**
   * `validateForm`: one error per blank required field, built up field by
   * field; the form is valid exactly when no error was recorded. The job
   * type is checked as it is, without trimming; tags and description are
   * never checked.
   */
  method ValidateForm(form: FormData) returns (errors: Errors, ok: bool)
    ensures Get(errors, Title) == if Trim(JavaScriptSpace, form.title) == [] then Some("Title is required") else None
    ensures Get(errors, Company) == if Trim(JavaScriptSpace, form.company) == [] then Some("Company is required") else None
    ensures Get(errors, Location) == if Trim(JavaScriptSpace, form.location) == [] then Some("Location is required") else None
    ensures Get(errors, JobType) == if form.jobType == [] then Some("Job type is required") else None
    ensures Get(errors, Tags).None? && Get(errors, Description).None?
    ensures ok <==> errors == []
    ensures ok <==> Complete(form)
  {
    errors := [];
    if Trim(JavaScriptSpace, form.title) == [] {
      errors := Set(errors, Title, Some("Title is required"));
    }
    if Trim(JavaScriptSpace, form.company) == [] {
      errors := Set(errors, Company, Some("Company is required"));
    }
    if Trim(JavaScriptSpace, form.location) == [] {
      errors := Set(errors, Location, Some("Location is required"));
    }
    if form.jobType == [] {
      errors := Set(errors, JobType, Some("Job type is required"));
    }
    ok := |Keys(errors)| == 0;
  }

  /** `handleSubmit`: the form goes to `onSubmit` only when it validates. */
  method HandleSubmit(form: FormData) returns (errors: Errors, submitted: Option<FormData>)
    ensures submitted.Some? <==> Complete(form)
    ensures submitted.Some? ==> submitted.value == form && errors == []
    ensures submitted.None? <==> errors != []
    ensures Get(errors, Title) == if Trim(JavaScriptSpace, form.title) == [] then Some("Title is required") else None
    ensures Get(errors, Company) == if Trim(JavaScriptSpace, form.company) == [] then Some("Company is required") else None
    ensures Get(errors, Location) == if Trim(JavaScriptSpace, form.location) == [] then Some("Location is required") else None
    ensures Get(errors, JobType) == if form.jobType == [] then Some("Job type is required") else None
    ensures Get(errors, Tags).None? && Get(errors, Description).None?
  {
    var ok;
    errors, ok := ValidateForm(form);
    submitted := if ok then Some(form) else None;
  }

  /**
   * `handleInputChange`: the field takes the new value; if that field had an
   * error, its error becomes `undefined`. Nothing else changes.
   */
  function InputChange(form: FormData, errors: Errors, f: Field, v: string): (r: (FormData, Errors))
    ensures Value(r.0, f) == v
    ensures forall g :: g != f ==> Value(r.0, g) == Value(form, g)
    ensures !Truthy(Get(r.1, f))
    ensures forall g :: g != f ==> Get(r.1, g) == Get(errors, g)
    ensures !Truthy(Get(errors, f)) ==> r.1 == errors
  {
    (With(form, f, v), if Truthy(Get(errors, f)) then Set(errors, f, None) else errors)
  }

  /** The tags of a job as the form shows them: `job.tags.join(", ")`. */
  function JoinTags(tags: seq<string>): string {
    Join(tags, ", ")
  }

  /**
   * The effect run when the dialog opens: the job's fields (tags joined,
   * description as is) when editing, all fields blank otherwise; the errors
   * are cleared in both cases.
   */
  function Prefill(job: Option<Job>): (r: (FormData, Errors))
    ensures r.1 == []
    ensures job.None? ==> r.0 == EmptyForm
    ensures job.Some? ==>
              var j := job.value;
              r.0 == FormData(j.title, j.company, j.location, j.jobType, JoinTags(j.tags), j.description)
  {
    match job
    case None => (EmptyForm, [])
    case Some(j) => (FormData(j.title, j.company, j.location, j.jobType, JoinTags(j.tags), j.description), [])
  }
}
