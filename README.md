# Employee CRUD front end — a Dafny model of its form logic

The front end has three pages:

- A login page checks an email and a password, posts them, and stores the returned token.
- A registration page checks a name, an email and a password, posts them, and redirects to the login page.
- An employee dashboard lists employee records, filters them by department, and creates, edits and deletes records through a form.

This project models the logic those pages run:

- the validators and the messages they give;
- how the dashboard attributes a server's error message to one form field;
- the department drop-down and the filter it drives;
- the state each page keeps and how its handlers update it.

Each HTTP call is an outcome passed in by the caller. Alerts and navigation targets are returned values.

Layout:

- `wrappers.dfy`: `Option`.
- `js_strings.dfy` (`JsStrings`): the JavaScript string operations the pages use:
  - `trim` and the `\s` class, with ECMAScript's white space and line terminators;
  - `toLowerCase`, on ASCII;
  - `includes`;
  - `length`, in UTF-16 code units;
  - the two regular expressions `^[A-Za-z ]+$` and `\S+@\S+\.\S+`, as predicates.
- `page_common.dfy` (`PageCommon`): what the three pages share:
  - the email rule;
  - the `message || fallback` idiom;
  - the outcome of a request whose success carries no data.
- `employee_validation.dfy` (`EmployeeValidation`): the employee form, its five rules, and the error object `validateForm` builds.
- `server_errors.dfy` (`ServerErrors`): the keyword mapping of a failed create or update.
- `department_filter.dfy` (`DepartmentFilter`): the `departments` and `displayedEmployees` derivations.
- `dashboard.dfy` (`Dashboard`): the `DashboardScreen` class, with fields `employees`, `showForm`, `editId`, `form` and `errors`.
- `login.dfy` (`Login`): the `LoginScreen` class, plus `TokenStore` for `localStorage`'s "token" item.
- `register.dfy` (`Register`): the `RegisterScreen` class.

Modelling choices:

- An `errors` object is a record with one optional message per input of its page. `None` means the key is absent. Every key the pages write is the `name` of one of their inputs.
- `Object.keys(errors).length` is `KeyCount`.
- `{ ...errors, [field]: "" }` stores `Some("")`. The key is present, but the page shows no message for it.
- `Number(form.salary)` is given to the salary rule as a value of `JsNumber` (`NaN`, a finite real, or ±Infinity). `isNaN(form.salary)` holds exactly when that value is `NaN`.
- `if (editId)` tests JavaScript truthiness. An empty id counts as not editing.
- `handleLogin` and `handleRegister` await their request. Each is modelled as two steps:
  - `Submit…` runs up to the request: it clears `serverError`, validates, and sets `loading`.
  - `Settle…` runs from the request's outcome: it stores the token or sets `serverError`, and clears `loading` (the `finally` block).
  - `Handle…` composes the two.
- The dashboard's handlers treat each request as one atomic step.

## Model

| member | source | states |
|---|---|---|
| JsStrings.LeadingSpaces | src/pages/Dashboard.jsx:130 | The count of leading characters `trim()` removes: it fits in the text, every counted character is white space, and the next character is not. |
| JsStrings.TrailingSpaces | src/pages/Dashboard.jsx:130 | The same count at the end of the text: every counted character is white space, and the one before them is not. |
| JsStrings.TrimStart | src/pages/Dashboard.jsx:130 | The suffix after the leading white space does not start with white space. It is empty exactly when the input is all white space. |
| JsStrings.TrimEnd | src/pages/Dashboard.jsx:130 | The prefix before the trailing white space does not end with white space. It is empty exactly when the input is all white space. |
| JsStrings.Trim | src/pages/Dashboard.jsx:130 | `trim()` gives "" exactly when the text is all white space. Otherwise the result starts and ends with a non-space character. |
| JsStrings.ToLower | src/pages/Dashboard.jsx:203 | The lower-cased text has the same length and maps each character through ASCII case folding. |
| JsStrings.ToLowerIdempotent | src/pages/Dashboard.jsx:203-215 | Lower-casing twice is the same as lower-casing once. |
| JsStrings.OccursAtLowered | src/pages/Dashboard.jsx:203-215 | A keyword with no upper-case letter that occurs in a message also occurs, at the same position, in the lower-cased message. |
| JsStrings.Utf16Length | src/pages/Register.jsx:84 | `length` lies between the number of code points and twice that number. It equals the number of code points when no character is outside the Basic Multilingual Plane, and twice that number when every character is. |
| JsStrings.LettersOrSpaces | src/pages/Dashboard.jsx:132 | `^[A-Za-z ]+$`: a non-empty text of ASCII letters and spaces. `NameRule` and `LettersRule` state when it makes a field fail, and `SpacesOnlyValue` shows that spaces alone match. |
| JsStrings.MatchesEmail | src/pages/Login.jsx:70 | `\S+@\S+\.\S+`, unanchored. `EmailMatchShape`, `EmailMatchUnanchored` and `EmailExamples` pin it down, and `PageCommon.EmailRule` ties it to the messages. |
| JsStrings.Contains | src/pages/Dashboard.jsx:203 | `includes`: the word occurs at some position. `OccursAtLowered` and `ServerErrors.MatchedField` state what the keyword search relies on. |
| JsStrings.EmailMatchShape | src/pages/Login.jsx:70 | A text matching `\S+@\S+\.\S+` has at least five characters and contains both '@' and '.'. |
| JsStrings.EmailMatchUnanchored | src/pages/Login.jsx:70 | The pattern is unanchored: any text around a match still matches. |
| JsStrings.EmailExamples | src/pages/Login.jsx:70 | "a@b.co" matches the pattern. "abc" and "" do not. |
| PageCommon.EmailRule | src/pages/Login.jsx:68-71 | "Email is required" exactly for the empty text. "Invalid email format" exactly for a non-empty text that does not match. No message exactly when the text matches. The same check appears at src/pages/Register.jsx:75-78 and src/pages/Dashboard.jsx:136-139. |
| PageCommon.MessageOr | src/pages/Login.jsx:119-122 | `message \|\| fallback`: a non-empty message is kept as it is. An absent or empty message gives the fallback. |
| EmployeeValidation.EmployeeForm.With | src/pages/Dashboard.jsx:109-112 | The named field takes the new value and every other field keeps its value. |
| EmployeeValidation.NameRule | src/pages/Dashboard.jsx:130-133 | "Name is required" exactly when the name is all white space, which is what makes `trim()` give "". "Only letters allowed" exactly when the name has another character and is not all ASCII letters and spaces. No message otherwise. |
| EmployeeValidation.LettersRule | src/pages/Dashboard.jsx:142-151 | Department and designation: the field's own "required" message only for the empty text, since there is no trimming. "Only letters allowed" for a non-empty text that is not all ASCII letters and spaces. No message exactly when it is. |
| EmployeeValidation.SalaryRule | src/pages/Dashboard.jsx:154-159 | "Salary required" for "". Otherwise "Only numbers allowed" when the number is NaN. Otherwise "Must be greater than 0" when it is at most 0. No message exactly when the text is non-empty and the number positive. |
| EmployeeValidation.FieldErrors.With | src/pages/Dashboard.jsx:115-118 | One key is set and every other key keeps its entry. |
| EmployeeValidation.FieldErrors.KeyCount | src/pages/Dashboard.jsx:165 | `Object.keys` counts at most the five fields. |
| EmployeeValidation.KeyCountZero | src/pages/Dashboard.jsx:165 | The object has no key exactly when no field holds a message, that is, exactly when it is `{}`. |
| EmployeeValidation.FormErrors | src/pages/Dashboard.jsx:127-159 | The error object `validateForm` builds. `FormErrorsGet` states each field's entry, and `BuildFormErrors` shows the step-by-step construction gives the same object. |
| EmployeeValidation.FormErrorsGet | src/pages/Dashboard.jsx:125-165 | Under each field, the error object holds that field's rule outcome. So it has no key exactly when every field passes. |
| EmployeeValidation.BuildFormErrors | src/pages/Dashboard.jsx:127-159 | The error object built step by step, each field getting the message of the first check it fails, equals the rules' error object. |
| EmployeeValidation.EmptyFieldBlocksSubmit | src/pages/Dashboard.jsx:130-165 | An empty input always gets an error, so the form is not valid. |
| EmployeeValidation.SpacesOnlyValue | src/pages/Dashboard.jsx:130-151 | A value made only of spaces gets "Name is required" as a name, but passes as a department or a designation. |
| ServerErrors.MatchedField | src/pages/Dashboard.jsx:203-217 | The chosen field's keyword occurs in the lower-cased message, and no keyword earlier in the order email, name, department, role, salary occurs there. No field is chosen exactly when no keyword occurs. "role" stands for the designation field. |
| ServerErrors.ServerFailure | src/pages/Dashboard.jsx:200-220 | A message that matches a field becomes that field's entry, holding the original text. Any other message, an empty one, or no message at all gives an alert with the message or "Something went wrong". |
| ServerErrors.MatchedFieldIgnoresCase | src/pages/Dashboard.jsx:203-215 | A message and its lower-cased form are attributed to the same field. |
| ServerErrors.InvalidEmailDomain | src/pages/Dashboard.jsx:203-204 | "Invalid email domain" goes to the email field, holding that text. |
| DepartmentFilter.DepartmentOptions | src/pages/Dashboard.jsx:292-294 | The drop-down options. `DepartmentOptionsExact` (no duplicates, exactly the non-empty departments) and `DepartmentOptionsOrder` (first-appearance order) determine them. |
| DepartmentFilter.DepartmentOptionsExact | src/pages/Dashboard.jsx:292-294 | The options have no duplicates. A text is an option exactly when it is non-empty and some record has it as its department. |
| DepartmentFilter.FirstIndexOf | src/pages/Dashboard.jsx:292-294 | The position of the first record of a department: no earlier record has it. |
| DepartmentFilter.FirstIndexOfFound | src/pages/Dashboard.jsx:292-294 | The first position is inside the list exactly when some record has the department. |
| DepartmentFilter.FirstIndexOfAppend | src/pages/Dashboard.jsx:292-294 | Appending a record does not move an earlier first appearance. |
| DepartmentFilter.DepartmentOptionsOrder | src/pages/Dashboard.jsx:292-294 | The options are in the order in which their departments first appear among the records, as a `Set` keeps insertion order. |
| DepartmentFilter.InDepartment | src/pages/Dashboard.jsx:300-302 | The `filter` on department equality. `InDepartmentSelects` states that it keeps exactly the matching records, in order. |
| DepartmentFilter.DisplayedEmployees | src/pages/Dashboard.jsx:297-302 | The rows shown for a selection. `DisplayedEmployeesSpec` states "All" gives the whole list and any other selection exactly that department's records. |
| DepartmentFilter.InDepartmentSelects | src/pages/Dashboard.jsx:300-302 | The filter keeps, in order, exactly the records whose department equals the selection. Its i-th record is the one at the i-th kept position. |
| DepartmentFilter.DisplayedEmployeesSpec | src/pages/Dashboard.jsx:297-302 | "All" shows the list as fetched. Any other selection shows exactly the records of that department. |
| Dashboard.DashboardScreen.constructor | src/pages/Dashboard.jsx:45-63 | The dashboard starts with no records, the form hidden, no id, blank values and no errors. |
| Dashboard.DashboardScreen.FetchEmployees | src/pages/Dashboard.jsx:88-100 | A listed result replaces the records. A failure keeps the old records and raises "Failed to load employees". |
| Dashboard.DashboardScreen.HandleChange | src/pages/Dashboard.jsx:106-119 | The typed field takes the value and its error becomes "". Every other value and error entry is unchanged. |
| Dashboard.FormValid | src/pages/Dashboard.jsx:165 | `Object.keys(temp).length === 0`: the error object is `{}`. `FormValidIff` relates it to the five rules, and `ValidateForm` returns it. |
| Dashboard.IsEditing | src/pages/Dashboard.jsx:182 | `if (editId)`: an id is set and is not "". `SubmitValid` and `HandleSubmit` state that it chooses an update over a create. |
| Dashboard.FormValidIff | src/pages/Dashboard.jsx:125-165 | The form is valid, meaning its error object is `{}`, exactly when every field passes its rule. |
| Dashboard.DashboardScreen.ValidateForm | src/pages/Dashboard.jsx:125-166 | `errors` becomes the rules' error object. The result is true exactly when that object is `{}`. |
| Dashboard.DashboardScreen.ResetForm | src/pages/Dashboard.jsx:228-242 | The form is hidden, `editId` is null, `errors` is `{}` and all five values are "". |
| Dashboard.DashboardScreen.HandleEdit | src/pages/Dashboard.jsx:248-262 | The form holds the record's five values, `editId` is the record's id, and the form is shown. |
| Dashboard.DashboardScreen.OpenForm | src/pages/Dashboard.jsx:322-325 | "Add Employee" only shows the form. Values and an id left over from an edit stay. |
| Dashboard.DashboardScreen.ApplyServerFailure | src/pages/Dashboard.jsx:196-220 | A message that names a field replaces `errors` by that field's single entry, holding the message. Any other message leaves `errors` alone and becomes the alert text. |
| Dashboard.DashboardScreen.SubmitValid | src/pages/Dashboard.jsx:179-220 | After validation passes, an update is sent when `editId` is truthy and a create otherwise. On success the form is reset and the list re-fetched; a failed re-fetch keeps the old records. On failure only `errors` and the alert change. |
| Dashboard.DashboardScreen.HandleSubmit | src/pages/Dashboard.jsx:172-222 | An invalid form sends nothing and keeps only the new errors. A valid form sends an update when `editId` is truthy and a create otherwise. On success the form is reset and the list re-fetched. On failure `errors` becomes the message's single field entry, or stays `{}` beside an alert. |
| Dashboard.DashboardScreen.HandleDelete | src/pages/Dashboard.jsx:268-284 | A declined confirmation sends nothing and changes nothing. A confirmed one sends the delete. On success the list is re-fetched; on failure "Delete Failed" is raised. |
| Login.LoginErrors.KeyCount | src/pages/Login.jsx:81 | The object has no key exactly when neither input holds a message. |
| Login.PasswordRule | src/pages/Login.jsx:74-75 | The password is only required: any non-empty text passes, with no length check. |
| Login.LoginErrorsOf | src/pages/Login.jsx:63-81 | The error object has no key exactly when the email matches the pattern and the password is non-empty. |
| Login.BuildLoginErrors | src/pages/Login.jsx:65-75 | The object built step by step equals the rules' error object. |
| Login.StoredText | src/pages/Login.jsx:111 | The text `setItem` stores for the response's token: the token itself, or "undefined" when it is missing. `SettleLogin` states that this text is what the store holds after a success. |
| Login.TokenStore.SetToken | src/pages/Login.jsx:111 | The "token" item holds the value written. |
| Login.LoginScreen.constructor | src/pages/Login.jsx:45-57 | Blank inputs, no errors, no server error, not loading. |
| Login.LoginScreen.OnEmailInput | src/pages/Login.jsx:157-164 | The email takes the value. Only the email's error is cleared to "". |
| Login.LoginScreen.OnPasswordInput | src/pages/Login.jsx:184-194 | The password takes the value. Only the password's error is cleared to "". |
| Login.LoginScreen.Validate | src/pages/Login.jsx:63-82 | `errors` becomes the rules' error object. The result is true exactly when the email matches and the password is non-empty. |
| Login.LoginScreen.SubmitLogin | src/pages/Login.jsx:88-108 | The server error is cleared first. An invalid form sends nothing and leaves `loading` as it was. A valid one sets `loading` and sends the two values. |
| Login.LoginScreen.SettleLogin | src/pages/Login.jsx:105-128 | On success the response's token is stored and the page goes to "/dashboard". On failure the token is untouched and the server error is the message or "Login Failed". `loading` is false either way. |
| Login.LoginScreen.HandleLogin | src/pages/Login.jsx:88-129 | With an invalid form there is no request, the stored token is unchanged and `loading` is not set. A sent form ends with `loading` false and either the token stored or the server's message shown. |
| Register.RegisterForm.With | src/pages/Register.jsx:142-145 | The named field takes the new value and the others keep theirs. |
| Register.RegisterErrors.With | src/pages/Register.jsx:148-151 | One key is set and the others keep their entries. |
| Register.RegisterErrors.KeyCount | src/pages/Register.jsx:91 | The object has no key exactly when no input holds a message. |
| Register.NameRule | src/pages/Register.jsx:70-71 | The name is only required: any non-empty name, spaces included, passes. |
| Register.PasswordRule | src/pages/Register.jsx:82-85 | "Password required" exactly for "". "Minimum 6 characters" exactly for a non-empty password under six UTF-16 code units. No message exactly when it has at least six. |
| Register.PasswordLengthEnough | src/pages/Register.jsx:84 | Six characters always pass. Fewer than six characters, all inside the Basic Multilingual Plane, fail. Three characters outside that plane are six code units and pass. |
| Register.RegisterErrorsOf | src/pages/Register.jsx:64-91 | The error object has no key exactly when the name is non-empty, the email matches, and the password has at least six code units. |
| Register.BuildRegisterErrors | src/pages/Register.jsx:66-85 | The object built step by step equals the rules' error object. |
| Register.SpacesNamePasses | src/pages/Register.jsx:70-71 | A name made only of spaces gets no error here. |
| Register.RegisterScreen.constructor | src/pages/Register.jsx:45-58 | Blank form, no errors, no server error, not loading. |
| Register.RegisterScreen.HandleChange | src/pages/Register.jsx:139-152 | Only the named input's value changes, and only its error is cleared to "". |
| Register.RegisterScreen.Validate | src/pages/Register.jsx:64-92 | `errors` becomes the rules' error object. The result is true exactly when all three inputs pass. |
| Register.RegisterScreen.SubmitRegister | src/pages/Register.jsx:98-115 | The server error is cleared first. An invalid form sends nothing and leaves `loading` as it was. A valid one sets `loading` and sends the form. |
| Register.RegisterScreen.SettleRegister | src/pages/Register.jsx:115-132 | On success the page goes to "/". On failure the server error is the message or "Registration Failed". `loading` is false either way. |
| Register.RegisterScreen.HandleRegister | src/pages/Register.jsx:98-133 | With an invalid form there is no request and `loading` is not set. A sent form ends with `loading` false and either the redirect or the server's message. |

## Left out

- `src/services/api.js` (the axios instance and the interceptor that adds `Authorization: Bearer <token>`), `src/components/Navbar.jsx` (logout) and `src/App.jsx` (the route table) are not part of this model. The pages' requests are outcomes given to the handlers.
- Rendering is not modelled: JSX, icons, CSS, and which error texts are displayed (`errors.email && …`). `window.confirm` is the `confirmed` parameter. `alert` and `navigate` are returned values.
- The dashboard's authentication check on mount (`src/pages/Dashboard.jsx:72-82`) and its initial fetch are left out. They race with each other and depend on the browser lifecycle.
- Concurrency is not modelled. `fetchEmployees` is not awaited after a create, update or delete; the model runs it to completion, in order. No other event can interleave with a handler. Between `Submit…` and `Settle…` on the login and registration pages, typing could change the inputs; this does not change what the model sends, since the request holds the values as sent.
- `Number` and `isNaN` conversion of the salary text is not modelled. Hex, exponents, surrounding white space and "Infinity" are all left to the caller-supplied `JsNumber`.
- `toLowerCase` folds only ASCII letters here. JavaScript also lower-cases non-ASCII letters, which the model leaves as they are. `trim` and `\s` do use the full ECMAScript white-space set.
- Dashboard.DashboardScreen.HandleEdit: record fields are strings in the model. If the server returns `salary` as a number, a salary of 0 would be falsy in `!form.salary` and rejected as "Salary required". The model cannot show that.
- A server `error` field that is not a string is not modelled. On the dashboard, `toLowerCase` would throw on it inside the `catch`.
- Login.StoredText: only a string or missing token is modelled. A missing token is stored as the text "undefined", as `localStorage.setItem` would store it; a token of another type is not modelled.
- `selectedDept` is the `selected` parameter of `DepartmentFilter.DisplayedEmployees`. Its setter is the drop-down's `onChange` in the JSX.
- `departments` and `displayedEmployees` are recomputed on every render. They are the functions `DepartmentFilter.DepartmentOptions` and `DepartmentFilter.DisplayedEmployees` applied to `employees`, not members of the screen class.
- HTTP status codes and the REST API's own behaviour are not modelled. `localStorage` persistence beyond the "token" item is not modelled either.
