/**
 * The register screen of `mobile/app/register.jsx`: its `formData` and
 * `errors` component state, `validateForm`, the guard of `handleRegister`
 * and `updateFormData`.
 */
module Register {
  import opened Common
  import opened Validation

  datatype Field = Name | Email | Password | ConfirmPassword

  /** `formData`. */
  datatype Form = Form(name: string, email: string, password: string, confirmPassword: string)
  {
    function Get(f: Field): string
    {
      match f
      case Name => name
      case Email => email
      case Password => password
      case ConfirmPassword => confirmPassword
    }

    /** `{ ...prev, [field]: value }`. */
    function Set(f: Field, v: string): (r: Form)
      ensures r.Get(f) == v
      ensures forall g :: g != f ==> r.Get(g) == Get(g)
    {
      match f
      case Name => this.(name := v)
      case Email => this.(email := v)
      case Password => this.(password := v)
      case ConfirmPassword => this.(confirmPassword := v)
    }
  }

  /** The argument `handleRegister` passes to the auth store's `register`. */
  datatype RegisterRequest = RegisterRequest(name: string, email: string, password: string)

  /** "required" when the trimmed name is empty, else at least 2 characters once trimmed. */
  function NameError(name: string): (e: Option<ErrorMessage>)
    ensures e == Some(NameRequired) <==> Blank(name)
    ensures e == Some(NameTooShort) <==> |Trim(name)| == 1
    ensures e == None <==> |Trim(name)| >= 2
  {
    if Trim(name) == [] then Some(NameRequired)
    else if |Trim(name)| < 2 then Some(NameTooShort)
    else None
  }

  /** "please confirm" when empty, else it must equal the password. */
  function ConfirmError(password: string, confirm: string): (e: Option<ErrorMessage>)
    ensures e == Some(ConfirmRequired) <==> confirm == []
    ensures e == Some(PasswordsDiffer) <==> confirm != [] && confirm != password
    ensures e == None <==> confirm != [] && confirm == password
  {
    if confirm == [] then Some(ConfirmRequired)
    else if password != confirm then Some(PasswordsDiffer)
    else None
  }

  function FieldError(form: Form, f: Field): Option<ErrorMessage>
  {
    match f
    case Name => NameError(form.name)
    case Email => EmailError(form.email)
    case Password => PasswordError(form.password)
    case ConfirmPassword => ConfirmError(form.password, form.confirmPassword)
  }

  /** The `newErrors` object that the four if/else chains of `validateForm` build, field after field. */
  function FormErrors(form: Form): map<Field, ErrorMessage>
  {
    var afterName := AddError(map[], Name, NameError(form.name));
    var afterEmail := AddError(afterName, Email, EmailError(form.email));
    var afterPassword := AddError(afterEmail, Password, PasswordError(form.password));
    AddError(afterPassword, ConfirmPassword, ConfirmError(form.password, form.confirmPassword))
  }

  /** Each field has an entry exactly when its rule fails, holding that rule's message. */
  lemma FormErrorsPerField(form: Form, f: Field)
    ensures f in FormErrors(form) <==> FieldError(form, f).Some?
    ensures f in FormErrors(form) ==> FormErrors(form)[f] == FieldError(form, f).value
  {
    var n, e, p, c := NameError(form.name), EmailError(form.email), PasswordError(form.password),
      ConfirmError(form.password, form.confirmPassword);
    var afterName := AddError(map[], Name, n);
    var afterEmail := AddError(afterName, Email, e);
    var afterPassword := AddError(afterEmail, Password, p);
    assert FormErrors(form) == AddError(afterPassword, ConfirmPassword, c);
    AddErrorAt(afterPassword, ConfirmPassword, c, f);
    AddErrorAt(afterEmail, Password, p, f);
    AddErrorAt(afterName, Email, e, f);
    AddErrorAt(map[], Name, n, f);
  }

  /**
   * The form passes exactly when the trimmed name has two characters, the
   * raw e-mail matches the pattern, the password has six characters and
   * the confirmation repeats it.
   */
  lemma FormValidIff(form: Form)
    ensures FormErrors(form) == map[] <==>
      && |Trim(form.name)| >= 2
      && MatchesEmailRegex(form.email)
      && |form.password| >= 6
      && form.confirmPassword == form.password
  {
    var errs := FormErrors(form);
    if errs == map[] {
      assert Name !in errs && Email !in errs && Password !in errs && ConfirmPassword !in errs;
    } else {
      var f :| f in errs;
    }
  }

  /** The register screen's component state. */
  class RegisterScreen {
    var form: Form
    var errors: map<Field, Option<ErrorMessage>>

    constructor ()
      ensures form == Form("", "", "", "") && errors == map[]
    {
      form := Form("", "", "", "");
      errors := map[];
    }

    /** `validateForm`: the errors found replace the shown ones; true when there are none. */
    method ValidateForm() returns (valid: bool)
      modifies this`errors
      ensures errors == Shown(FormErrors(form))
      ensures valid <==> FormErrors(form) == map[]
    {
      var newErrors: map<Field, ErrorMessage> := map[];
      newErrors := CheckField(newErrors, Name, Trim(form.name) == [], NameRequired, |Trim(form.name)| < 2, NameTooShort);
      newErrors := CheckField(newErrors, Email, Trim(form.email) == [], EmailRequired, !ValidateEmail(form.email), EmailInvalid);
      newErrors := CheckField(newErrors, Password, form.password == [], PasswordRequired, |form.password| < 6, PasswordTooShort);
      newErrors := CheckField(newErrors, ConfirmPassword, form.confirmPassword == [], ConfirmRequired,
                              form.password != form.confirmPassword, PasswordsDiffer);
      assert newErrors == FormErrors(form);
      errors := Shown(newErrors);
      valid := |newErrors| == 0;
    }

    /** `handleRegister` up to the call: `register` receives these fields only after validation passed. */
    method HandleRegister() returns (request: Option<RegisterRequest>)
      modifies this`errors
      ensures errors == Shown(FormErrors(form))
      ensures request.Some? <==> FormErrors(form) == map[]
      ensures request.Some? ==> request.value == RegisterRequest(form.name, form.email, form.password)
    {
      var valid := ValidateForm();
      if !valid {
        return None;
      }
      request := Some(RegisterRequest(form.name, form.email, form.password));
    }

    /** `updateFormData(field, value)`: that field takes the value and its shown error, if any, becomes null. */
    method UpdateFormData(field: Field, value: string)
      modifies this
      ensures form == old(form).Set(field, value)
      ensures forall g :: g != field ==> form.Get(g) == old(form).Get(g)
      ensures errors == if Truthy(old(errors), field) then old(errors)[field := None] else old(errors)
      ensures forall g :: g != field ==> (g in errors <==> g in old(errors)) && (g in errors ==> errors[g] == old(errors)[g])
    {
      form := form.Set(field, value);
      if Truthy(errors, field) {
        errors := errors[field := None];
      }
    }
  }
}

/**
 * The login screen of `mobile/app/login.jsx`: `validateForm`, the guard of
 * `handleLogin`, the decision of `handleForgotPassword` and `updateFormData`.
 * Its `validateEmail` is the same function as the register screen's.
 */
module Login {
  import opened Common
  import opened Validation

  datatype Field = Email | Password

  /** `formData`, which `handleLogin` passes to `login` as it is. */
  datatype Form = Form(email: string, password: string)
  {
    function Get(f: Field): string
    {
      match f
      case Email => email
      case Password => password
    }

    /** `{ ...prev, [field]: value }`. */
    function Set(f: Field, v: string): (r: Form)
      ensures r.Get(f) == v
      ensures forall g :: g != f ==> r.Get(g) == Get(g)
    {
      match f
      case Email => this.(email := v)
      case Password => this.(password := v)
    }
  }

  function FieldError(form: Form, f: Field): Option<ErrorMessage>
  {
    match f
    case Email => EmailError(form.email)
    case Password => PasswordError(form.password)
  }

  /** The `newErrors` object that the two if/else chains of `validateForm` build: only e-mail and password are checked. */
  function FormErrors(form: Form): map<Field, ErrorMessage>
  {
    AddError(AddError(map[], Email, EmailError(form.email)), Password, PasswordError(form.password))
  }

  /** Each field has an entry exactly when its rule fails, holding that rule's message. */
  lemma FormErrorsPerField(form: Form, f: Field)
    ensures f in FormErrors(form) <==> FieldError(form, f).Some?
    ensures f in FormErrors(form) ==> FormErrors(form)[f] == FieldError(form, f).value
  {
  }

  /** The form passes exactly when the raw e-mail matches the pattern and the password has six characters. */
  lemma FormValidIff(form: Form)
    ensures FormErrors(form) == map[] <==> MatchesEmailRegex(form.email) && |form.password| >= 6
  {
    var errs := FormErrors(form);
    if errs == map[] {
      assert Email !in errs && Password !in errs;
    } else {
      var f :| f in errs;
    }
  }

  /** What `handleForgotPassword` shows. */
  datatype ForgotOutcome = EmailRequiredAlert | InvalidEmailAlert | ResetPrompt(email: string)

  /** `handleForgotPassword`: the first failing check decides; otherwise the reset prompt names the address. */
  function ForgotPassword(email: string): (o: ForgotOutcome)
    ensures o == EmailRequiredAlert <==> Blank(email)
    ensures o == InvalidEmailAlert <==> !Blank(email) && !MatchesEmailRegex(email)
    ensures o.ResetPrompt? <==> MatchesEmailRegex(email)
    ensures o.ResetPrompt? ==> o.email == email
  {
    ValidEmailNotBlank(email);
    ValidateEmailMatchesRegex(email);
    if Trim(email) == [] then EmailRequiredAlert
    else if !ValidateEmail(email) then InvalidEmailAlert
    else ResetPrompt(email)
  }

  /** The reset link is offered for exactly the addresses the login form's e-mail rule accepts. */
  lemma ForgotPasswordAgreesWithEmailRule(email: string)
    ensures ForgotPassword(email).ResetPrompt? <==> EmailError(email) == None
    ensures ForgotPassword(email) == EmailRequiredAlert <==> EmailError(email) == Some(EmailRequired)
  {
  }

  /** The login screen's component state. */
  class LoginScreen {
    var form: Form
    var errors: map<Field, Option<ErrorMessage>>

    constructor ()
      ensures form == Form("", "") && errors == map[]
    {
      form := Form("", "");
      errors := map[];
    }

    /** `validateForm`: the errors found replace the shown ones; true when there are none. */
    method ValidateForm() returns (valid: bool)
      modifies this`errors
      ensures errors == Shown(FormErrors(form))
      ensures valid <==> FormErrors(form) == map[]
    {
      var newErrors: map<Field, ErrorMessage> := map[];
      newErrors := CheckField(newErrors, Email, Trim(form.email) == [], EmailRequired, !ValidateEmail(form.email), EmailInvalid);
      newErrors := CheckField(newErrors, Password, form.password == [], PasswordRequired, |form.password| < 6, PasswordTooShort);
      assert newErrors == FormErrors(form);
      errors := Shown(newErrors);
      valid := |newErrors| == 0;
    }

    /** `handleLogin` up to the call: `login` receives the form only after validation passed. */
    method HandleLogin() returns (request: Option<Form>)
      modifies this`errors
      ensures errors == Shown(FormErrors(form))
      ensures request.Some? <==> FormErrors(form) == map[]
      ensures request.Some? ==> request.value == form
    {
      var valid := ValidateForm();
      if !valid {
        return None;
      }
      request := Some(form);
    }

    /** `updateFormData(field, value)`: that field takes the value and its shown error, if any, becomes null. */
    method UpdateFormData(field: Field, value: string)
      modifies this
      ensures form == old(form).Set(field, value)
      ensures forall g :: g != field ==> form.Get(g) == old(form).Get(g)
      ensures errors == if Truthy(old(errors), field) then old(errors)[field := None] else old(errors)
      ensures forall g :: g != field ==> (g in errors <==> g in old(errors)) && (g in errors ==> errors[g] == old(errors)[g])
    {
      form := form.Set(field, value);
      if Truthy(errors, field) {
        errors := errors[field := None];
      }
    }
  }
}
