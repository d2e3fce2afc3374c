/**
 * The employee form of the dashboard and `validateForm`: the five inputs, the
 * rule each one is checked against, in the order and with the messages the
 * screen uses, and the error object the checks build.
 */
module EmployeeValidation {
  import opened Wrappers
  import opened JsStrings
  import PageCommon

  // ---------------------------------------------------------------- data

  /** The five inputs of the employee form, by their `name` attribute. */
  datatype Field = Name | Email | Department | Designation | Salary

  /** The form's values, all strings as the inputs hold them. */
  datatype EmployeeForm = EmployeeForm(
    name: string, email: string, department: string, designation: string, salary: string)
  {
    function Get(f: Field): string
    {
      match f
      case Name => name
      case Email => email
      case Department => department
      case Designation => designation
      case Salary => salary
    }

    /** `{ ...form, [field]: value }`. */
    function With(f: Field, v: string): (r: EmployeeForm)
      ensures r.Get(f) == v
      ensures forall g | g != f :: r.Get(g) == Get(g)
    {
      match f
      case Name => this.(name := v)
      case Email => this.(email := v)
      case Department => this.(department := v)
      case Designation => this.(designation := v)
      case Salary => this.(salary := v)
    }
  }

  const BlankForm := EmployeeForm("", "", "", "", "")

  /** A record as the list endpoint returns it; `id` is the server's `_id`. */
  datatype Employee = Employee(
    id: string, name: string, email: string, department: string, designation: string, salary: string)

  /** The values `handleEdit` copies from a record into the form. */
  function FormOf(e: Employee): EmployeeForm
  {
    EmployeeForm(e.name, e.email, e.department, e.designation, e.salary)
  }

  // ---------------------------------------------------------- validation

  /** What JavaScript's `Number(s)` gives for the salary text; `isNaN(s)` holds
      exactly when it is `NaN`. How a string is converted is not modelled: the
      validator is given `Number(form.salary)` as a parameter, `asNumber`. */
  datatype JsNumber = NaN | Finite(value: real) | PlusInfinity | MinusInfinity

  /** `Number(s) <= 0` (a comparison with `NaN` is false). */
  predicate AtMostZero(n: JsNumber)
  {
    (n.Finite? && n.value <= 0.0) || n.MinusInfinity?
  }

  predicate IsPositive(n: JsNumber)
  {
    (n.Finite? && n.value > 0.0) || n.PlusInfinity?
  }

  // The messages the employee form shows.
  const NameRequired: string := "Name is required"
  const OnlyLetters: string := "Only letters allowed"
  const DepartmentRequired: string := "Department required"
  const RoleRequired: string := "Role required"
  const SalaryRequired: string := "Salary required"
  const OnlyNumbers: string := "Only numbers allowed"
  const MustBePositive: string := "Must be greater than 0"

  /** The name rule: required after `trim()`, then `^[A-Za-z ]+$` on the untrimmed
      text. */
  function NameRule(name: string): (r: Option<string>)
    ensures r == Some(NameRequired) <==> AllSpace(name)
    ensures r == Some(OnlyLetters) <==> !AllSpace(name) && !LettersOrSpaces(name)
    ensures r == None <==> !AllSpace(name) && LettersOrSpaces(name)
  {
    if Trim(name) == "" then Some(NameRequired)
    else if !LettersOrSpaces(name) then Some(OnlyLetters)
    else None
  }

  /** The rule department and designation share: required WITHOUT trimming, then
      `^[A-Za-z ]+$`; `missing` is the field's own "required" message. */
  function LettersRule(value: string, missing: string): (r: Option<string>)
    ensures value == "" ==> r == Some(missing)
    ensures value != "" && !LettersOrSpaces(value) ==> r == Some(OnlyLetters)
    ensures r == None <==> LettersOrSpaces(value)
  {
    if value == "" then Some(missing)
    else if !LettersOrSpaces(value) then Some(OnlyLetters)
    else None
  }

  /** The salary rule, given `Number(salary)`: required, then numeric, then
      positive; a salary passes exactly when it is non-empty and positive. */
  function SalaryRule(salary: string, asNumber: JsNumber): (r: Option<string>)
    ensures salary == "" ==> r == Some(SalaryRequired)
    ensures salary != "" && asNumber.NaN? ==> r == Some(OnlyNumbers)
    ensures salary != "" && !asNumber.NaN? && AtMostZero(asNumber) ==> r == Some(MustBePositive)
    ensures r == None <==> salary != "" && IsPositive(asNumber)
  {
    if salary == "" then Some(SalaryRequired)
    else if asNumber.NaN? then Some(OnlyNumbers)
    else if AtMostZero(asNumber) then Some(MustBePositive)
    else None
  }

  /** The message `validateForm` gives one field, or `None`. */
  function FieldRule(f: Field, form: EmployeeForm, asNumber: JsNumber): Option<string>
  {
    match f
    case Name => NameRule(form.name)
    case Email => PageCommon.EmailRule(form.email)
    case Department => LettersRule(form.department, DepartmentRequired)
    case Designation => LettersRule(form.designation, RoleRequired)
    case Salary => SalaryRule(form.salary, asNumber)
  }

  /** The `errors` object: the message held under each form field's key, `None`
      where the object has no such key. Every key the screen ever writes is the
      `name` of one of the five inputs. */
  datatype FieldErrors = FieldErrors(
    name: Option<string>, email: Option<string>, department: Option<string>,
    designation: Option<string>, salary: Option<string>)
  {
    function Get(f: Field): Option<string>
    {
      match f
      case Name => name
      case Email => email
      case Department => department
      case Designation => designation
      case Salary => salary
    }

    /** `{ ...errors, [field]: message }` (or the key removed, for `None`). */
    function With(f: Field, v: Option<string>): (r: FieldErrors)
      ensures r.Get(f) == v
      ensures forall g | g != f :: r.Get(g) == Get(g)
    {
      match f
      case Name => this.(name := v)
      case Email => this.(email := v)
      case Department => this.(department := v)
      case Designation => this.(designation := v)
      case Salary => this.(salary := v)
    }

    /** `Object.keys(errors).length`. */
    function KeyCount(): (n: nat)
      ensures n <= 5
    {
      (if name.Some? then 1 else 0) + (if email.Some? then 1 else 0)
      + (if department.Some? then 1 else 0) + (if designation.Some? then 1 else 0)
      + (if salary.Some? then 1 else 0)
    }
  }

  /** An error object has no key exactly when no field holds a message. */
  lemma KeyCountZero(e: FieldErrors)
    ensures e.KeyCount() == 0 <==> forall f :: e.Get(f) == None
    ensures e.KeyCount() == 0 <==> e == NoErrors
  {
    if e.KeyCount() != 0 {
      assert e.Get(Name).Some? || e.Get(Email).Some? || e.Get(Department).Some?
          || e.Get(Designation).Some? || e.Get(Salary).Some?;
    }
  }

  /** `{}`. */
  const NoErrors := FieldErrors(None, None, None, None, None)

  /** The error object `validateForm` builds: under each field, the message of
      that field's rule, or no key when the field passes. */
  function FormErrors(form: EmployeeForm, asNumber: JsNumber): FieldErrors
  {
    FieldErrors(NameRule(form.name), PageCommon.EmailRule(form.email),
                LettersRule(form.department, DepartmentRequired),
                LettersRule(form.designation, RoleRequired), SalaryRule(form.salary, asNumber))
  }

  /** Under each field the error object holds that field's rule outcome, so it
      has no key exactly when every field passes. */
  lemma FormErrorsGet(form: EmployeeForm, asNumber: JsNumber)
    ensures forall f :: FormErrors(form, asNumber).Get(f) == FieldRule(f, form, asNumber)
    ensures FormErrors(form, asNumber).KeyCount() == 0 <==> forall f :: FieldRule(f, form, asNumber).None?
  {
    var e := FormErrors(form, asNumber);
    forall f
      ensures e.Get(f) == FieldRule(f, form, asNumber)
    {
      match f
      case Name =>
      case Email =>
      case Department =>
      case Designation =>
      case Salary =>
    }
    KeyCountZero(e);
  }

  /** `validateForm`'s construction of `temp`, one field after the other, each
      field getting the message of the first check it fails. There is no key
      exactly when every field passes. */
  method BuildFormErrors(form: EmployeeForm, asNumber: JsNumber) returns (temp: FieldErrors)
    ensures temp == FormErrors(form, asNumber)
  {
    temp := FieldErrors(None, None, None, None, None);

    if Trim(form.name) == "" {
      temp := temp.(name := Some(NameRequired));
    } else if !LettersOrSpaces(form.name) {
      temp := temp.(name := Some(OnlyLetters));
    }

    if form.email == "" {
      temp := temp.(email := Some(PageCommon.EmailRequired));
    } else if !MatchesEmail(form.email) {
      temp := temp.(email := Some(PageCommon.InvalidEmail));
    }

    if form.department == "" {
      temp := temp.(department := Some(DepartmentRequired));
    } else if !LettersOrSpaces(form.department) {
      temp := temp.(department := Some(OnlyLetters));
    }

    if form.designation == "" {
      temp := temp.(designation := Some(RoleRequired));
    } else if !LettersOrSpaces(form.designation) {
      temp := temp.(designation := Some(OnlyLetters));
    }

    if form.salary == "" {
      temp := temp.(salary := Some(SalaryRequired));
    } else if asNumber.NaN? {
      temp := temp.(salary := Some(OnlyNumbers));
    } else if AtMostZero(asNumber) {
      temp := temp.(salary := Some(MustBePositive));
    }
  }

  /** An empty input always produces an error for its field, so the form cannot
      be submitted. */
  lemma EmptyFieldBlocksSubmit(form: EmployeeForm, f: Field, asNumber: JsNumber)
    requires form.Get(f) == ""
    ensures FormErrors(form, asNumber).Get(f).Some? && FormErrors(form, asNumber).KeyCount() > 0
  {
    FormErrorsGet(form, asNumber);
    match f
    case Name => assert AllSpace(form.name);
    case Email =>
    case Department =>
    case Designation =>
    case Salary =>
  }

  /** The asymmetry between the name and the other letter fields: a value made
      of spaces only is "required" as a name (it is trimmed) but passes as a
      department or a designation (it is non-empty and matches `^[A-Za-z ]+$`). */
  lemma SpacesOnlyValue(s: string, form: EmployeeForm, asNumber: JsNumber)
    requires s != [] && forall i | 0 <= i < |s| :: s[i] == ' '
    requires form.name == s && form.department == s && form.designation == s
    ensures FormErrors(form, asNumber).name == Some(NameRequired)
    ensures FormErrors(form, asNumber).department == None && FormErrors(form, asNumber).designation == None
  {
    assert AllSpace(s);
    assert LettersOrSpaces(s);
  }
}
