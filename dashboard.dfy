/**
 * The employee dashboard's state and handlers: `employees`, `showForm`,
 * `editId`, `form` and `errors`, updated by fetching, typing, validating,
 * submitting, editing and deleting. Each API call is an outcome passed in by
 * the caller; the alerts the screen would raise are returned.
 */
module Dashboard {
  import opened Wrappers
  import opened PageCommon
  import opened EmployeeValidation
  import opened ServerErrors
  import opened DepartmentFilter

  const LoadFailed: string := "Failed to load employees"
  const DeleteFailed: string := "Delete Failed"

  /** A request the screen sends to the employee API. */
  datatype Request = Create(payload: EmployeeForm) | Update(id: string, payload: EmployeeForm) | Delete(id: string)

  /** The outcome of `GET /employees`. */
  datatype ListOutcome = Listed(records: seq<Employee>) | ListFailed

  /** `validateForm` passes: the error object it builds has no key. */
  predicate FormValid(form: EmployeeForm, salaryNumber: JsNumber)
  {
    FormErrors(form, salaryNumber) == NoErrors
  }

  /** The form is valid exactly when every field passes its rule. */
  lemma FormValidIff(form: EmployeeForm, salaryNumber: JsNumber)
    ensures FormValid(form, salaryNumber) <==> forall f :: FieldRule(f, form, salaryNumber) == None
  {
    FormErrorsGet(form, salaryNumber);
    KeyCountZero(FormErrors(form, salaryNumber));
  }

  /** `if (editId)`: an id is set and is not the empty string (which is falsy). */
  predicate IsEditing(editId: Option<string>)
  {
    editId.Some? && editId.value != ""
  }

  class DashboardScreen {
    var employees: seq<Employee>
    var showForm: bool
    var editId: Option<string>
    var form: EmployeeForm
    var errors: FieldErrors

    /** The state the component starts in. */
    constructor ()
      ensures employees == [] && !showForm && editId == None && form == BlankForm && errors == NoErrors
    {
      employees := [];
      showForm := false;
      editId := None;
      form := BlankForm;
      errors := NoErrors;
    }

    /** `fetchEmployees`: a listed result replaces the records; a failure leaves
        them as they were and raises an alert. */
    method FetchEmployees(outcome: ListOutcome) returns (alert: Option<string>)
      modifies this`employees
      ensures outcome.Listed? ==> employees == outcome.records && alert == None
      ensures outcome.ListFailed? ==> employees == old(employees) && alert == Some(LoadFailed)
    {
      match outcome
      case Listed(records) =>
        employees := records;
        alert := None;
      case ListFailed =>
        alert := Some(LoadFailed);
    }

    /** `handleChange`: the typed field takes the new value and its error is
        cleared to ""; every other value and every other error entry stays. */
    method HandleChange(field: Field, value: string)
      modifies this`form, this`errors
      ensures form.Get(field) == value
      ensures forall g | g != field :: form.Get(g) == old(form).Get(g)
      ensures errors.Get(field) == Some("")
      ensures forall g | g != field :: errors.Get(g) == old(errors).Get(g)
    {
      form := form.With(field, value);
      errors := errors.With(field, Some(""));
    }

    /** `validateForm`: the error object becomes the form's errors, and the result
        is whether it has no key. `salaryNumber` is what `Number(form.salary)`
        gives for the current salary text. */
    method ValidateForm(salaryNumber: JsNumber) returns (ok: bool)
      modifies this`errors
      ensures errors == FormErrors(form, salaryNumber)
      ensures ok == FormValid(form, salaryNumber)
    {
      var temp := BuildFormErrors(form, salaryNumber);
      KeyCountZero(temp);
      errors := temp;
      ok := temp.KeyCount() == 0;
    }

    /** `resetForm`: the form closes, edit mode ends, and errors and values are
        blank again. */
    method ResetForm()
      modifies this`showForm, this`editId, this`errors, this`form
      ensures !showForm && editId == None && errors == NoErrors && form == BlankForm
    {
      showForm := false;
      editId := None;
      errors := NoErrors;
      form := BlankForm;
    }

    /** `handleEdit`: the form is filled from the record, its id is captured and
        the form opens; the error object is left as it was. */
    method HandleEdit(emp: Employee)
      modifies this`form, this`editId, this`showForm
      ensures form == EmployeeForm(emp.name, emp.email, emp.department, emp.designation, emp.salary)
      ensures editId == Some(emp.id) && showForm
    {
      form := FormOf(emp);
      editId := Some(emp.id);
      showForm := true;
    }

    /** The "Add Employee" button: it opens the form and nothing else, so values
        and an id left over from an edit stay. */
    method OpenForm()
      modifies this`showForm
      ensures showForm
    {
      showForm := true;
    }

    /** The `catch` of `handleSubmit`: a message that names a field replaces the
        error object by that field's single entry; any other message leaves the
        error object alone and is raised as an alert. */
    method ApplyServerFailure(message: Option<string>) returns (alert: Option<string>)
      modifies this`errors
      ensures ServerFailure(message).FieldError? ==>
                errors == NoErrors.With(ServerFailure(message).field, message) && alert == None
      ensures ServerFailure(message).Alert? ==>
                errors == old(errors) && alert == Some(ServerFailure(message).text)
    {
      var failure := ServerFailure(message);
      if failure.FieldError? {
        errors := NoErrors.With(failure.field, Some(failure.message));
        alert := None;
      } else {
        alert := Some(failure.text);
      }
    }

    /** `handleSubmit` past a passing `validateForm` (the error object is `{}`):
        an update when an id is set, a create otherwise. On success the form is
        reset and the list fetched again; on failure the server's message goes to
        one field (the error object then holds only it) or to an alert. */
    method SubmitValid(written: WriteOutcome, refreshed: ListOutcome)
      returns (request: Request, alert: Option<string>)
      requires errors == NoErrors
      modifies this
      ensures request == if IsEditing(old(editId)) then Update(old(editId).value, old(form)) else Create(old(form))
      ensures written.Written? ==>
                && !showForm && editId == None && errors == NoErrors && form == BlankForm
                && employees == (if refreshed.Listed? then refreshed.records else old(employees))
                && alert == (if refreshed.Listed? then None else Some(LoadFailed))
      ensures written.WriteFailed? ==>
                && form == old(form) && editId == old(editId) && showForm == old(showForm)
                && employees == old(employees)
                && (ServerFailure(written.message).FieldError? ==>
                      errors == NoErrors.With(ServerFailure(written.message).field, written.message)
                      && alert == None)
                && (ServerFailure(written.message).Alert? ==>
                      errors == NoErrors && alert == Some(ServerFailure(written.message).text))
    {
      if IsEditing(editId) {
        request := Update(editId.value, form);
      } else {
        request := Create(form);
      }
      match written
      case Written =>
        ResetForm();
        alert := FetchEmployees(refreshed);
      case WriteFailed(message) =>
        alert := ApplyServerFailure(message);
    }

    /** `handleSubmit`. An invalid form sends nothing and keeps only the new
        errors; a valid one goes on as `SubmitValid` says. */
    method HandleSubmit(salaryNumber: JsNumber, written: WriteOutcome, refreshed: ListOutcome)
      returns (request: Option<Request>, alert: Option<string>)
      modifies this
      ensures !FormValid(old(form), salaryNumber) ==>
                && request == None && alert == None
                && errors == FormErrors(old(form), salaryNumber)
                && form == old(form) && editId == old(editId) && showForm == old(showForm)
                && employees == old(employees)
      ensures FormValid(old(form), salaryNumber) ==>
                request == Some(if IsEditing(old(editId)) then Update(old(editId).value, old(form))
                                else Create(old(form)))
      ensures FormValid(old(form), salaryNumber) && written.Written? ==>
                && !showForm && editId == None && errors == NoErrors && form == BlankForm
                && employees == (if refreshed.Listed? then refreshed.records else old(employees))
                && alert == (if refreshed.Listed? then None else Some(LoadFailed))
      ensures FormValid(old(form), salaryNumber) && written.WriteFailed? ==>
                && form == old(form) && editId == old(editId) && showForm == old(showForm)
                && employees == old(employees)
                && (ServerFailure(written.message).FieldError? ==>
                      errors == NoErrors.With(ServerFailure(written.message).field, written.message)
                      && alert == None)
                && (ServerFailure(written.message).Alert? ==>
                      errors == NoErrors && alert == Some(ServerFailure(written.message).text))
    {
      var ok := ValidateForm(salaryNumber);
      if !ok {
        request, alert := None, None;
        return;
      }
      var sent;
      sent, alert := SubmitValid(written, refreshed);
      request := Some(sent);
    }

    /** `handleDelete`. A declined confirmation sends nothing and changes nothing;
        otherwise a delete is sent and, when it succeeds, the list fetched again. */
    method HandleDelete(id: string, confirmed: bool, deleted: WriteOutcome, refreshed: ListOutcome)
      returns (request: Option<Request>, alert: Option<string>)
      modifies this`employees
      ensures !confirmed ==> request == None && alert == None && employees == old(employees)
      ensures confirmed ==> request == Some(Delete(id))
      ensures confirmed && deleted.Written? ==>
                && employees == (if refreshed.Listed? then refreshed.records else old(employees))
                && alert == (if refreshed.Listed? then None else Some(LoadFailed))
      ensures confirmed && deleted.WriteFailed? ==> employees == old(employees) && alert == Some(DeleteFailed)
    {
      request, alert := None, None;
      if !confirmed {
        return;
      }
      request := Some(Delete(id));
      match deleted
      case Written =>
        alert := FetchEmployees(refreshed);
      case WriteFailed(_) =>
        alert := Some(DeleteFailed);
    }
  }
}
