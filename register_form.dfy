/** The sign-up form: four fields validated with the shared validator (the
    password through the strength check, the confirmation against the
    password), errors cleared field by field, and a call to the session
    store's `register` only when validation passes. */
module RegisterForm {
  import opened Strings
  import opened FormValidation
  import AuthProvider

  const NameField := "name"
  const EmailField := "email"
  const PasswordField := "password"
  const ConfirmField := "confirmPassword"
  const Mismatch := "Passwords do not match"
  const RegistrationFailed := "Registration failed. Please try again."

  /** `passwordValidation`: a password without strength message passes, any
      other gets that message as its verdict. */
  function PasswordValidation(value: string): (v: Verdict)
    ensures v == Flag(true) <==> ValidatePasswordStrength(value).None?
    ensures v.Text? ==> v.message == ValidatePasswordStrength(value).value
  {
    var result := ValidatePasswordStrength(value);
    if result.None? then Flag(true) else Text(result.value)
  }

  /** The confirmation callback, `value === password || "Passwords do not match"`. */
  function ConfirmValidation(password: string, value: string): (r: Verdict)
  {
    if value == password then Flag(true) else Text(Mismatch)
  }

  /** `validationRules`, rebuilt with the password the form currently holds. */
  function RegisterRules(password: string): (r: map<string, Rule>)
  {
    map[
      NameField := Rule(true, Some(2), None, None, None),
      EmailField := Rule(true, None, None, Some((s: string) => MatchesEmail(s)), None),
      PasswordField := Rule(true, None, None, None, Some((s: string) => PasswordValidation(s))),
      ConfirmField := Rule(true, None, None, None, Some((s: string) => ConfirmValidation(password, s)))]
  }

  predicate HasFields(values: map<string, string>)
  {
    NameField in values && EmailField in values && PasswordField in values && ConfirmField in values
  }

  function Errors(values: map<string, string>): (r: map<string, string>)
    requires HasFields(values)
  {
    FormErrors(values, RegisterRules(values[PasswordField]))
  }

  /** The message each rule gives on its own. */
  lemma FieldMessages(values: map<string, string>)
    requires HasFields(values)
    ensures var rules := RegisterRules(values[PasswordField]);
      var name, email, password, confirm :=
        values[NameField], values[EmailField], values[PasswordField], values[ConfirmField];
      && ValidateField(name, rules[NameField]) ==
           (if name == "" then Some(RequiredMessage) else if |name| < 2 then Some(MinLengthMessage(2)) else None)
      && ValidateField(email, rules[EmailField]) ==
           (if email == "" then Some(RequiredMessage) else if !MatchesEmail(email) then Some(FormatMessage) else None)
      && ValidateField(password, rules[PasswordField]) ==
           (if password == "" then Some(RequiredMessage) else ValidatePasswordStrength(password))
      && ValidateField(confirm, rules[ConfirmField]) ==
           (if confirm == "" then Some(RequiredMessage) else if confirm != password then Some(Mismatch) else None)
  {
  }

  /** What validating the form reports, field by field: every message is
      non-empty, so every failing field is listed. */
  lemma RegisterErrors(values: map<string, string>)
    requires HasFields(values)
    ensures Errors(values).Keys <= {NameField, EmailField, PasswordField, ConfirmField}
    ensures var errors, rules := Errors(values), RegisterRules(values[PasswordField]);
      forall k :: k in rules ==>
        (k in errors <==> ValidateField(values[k], rules[k]).Some?) &&
        (k in errors ==> errors[k] == ValidateField(values[k], rules[k]).value)
  {
    var rules := RegisterRules(values[PasswordField]);
    FieldMessages(values);
    var password := values[PasswordField];
    if password != "" && ValidatePasswordStrength(password).Some? {
      assert ValidatePasswordStrength(password).value[..|StrengthPrefix|] == StrengthPrefix;
    }
    assert MinLengthMessage(2)[0] == 'M';
  }

  /** The form passes exactly when the name has at least two characters, the
      address matches, the password meets all five requirements and the
      confirmation repeats it. */
  lemma PassesIff(values: map<string, string>)
    requires HasFields(values)
    ensures Errors(values) == map[] <==>
      && |values[NameField]| >= 2
      && MatchesEmail(values[EmailField])
      && values[PasswordField] != "" && (forall q :: Met(q, values[PasswordField]))
      && values[ConfirmField] == values[PasswordField]
  {
    RegisterErrors(values);
    FieldMessages(values);
    var rules := RegisterRules(values[PasswordField]);
    if Errors(values) == map[] {
      assert NameField !in Errors(values) && EmailField !in Errors(values);
      assert PasswordField !in Errors(values) && ConfirmField !in Errors(values);
    } else {
      var k :| k in Errors(values);
    }
  }

  /** A non-empty confirmation that differs from the password draws exactly
      "Passwords do not match". */
  lemma MismatchMessage(values: map<string, string>)
    requires HasFields(values)
    requires values[ConfirmField] != "" && values[ConfirmField] != values[PasswordField]
    ensures ConfirmField in Errors(values) && Errors(values)[ConfirmField] == Mismatch
  {
    RegisterErrors(values);
    FieldMessages(values);
  }

  /** The state of one `RegisterForm`. */
  class Controller {
    var values: map<string, string>
    var errors: map<string, string>
    var isSubmitting: bool
    var registerError: string
    /** The arguments of every `register` call made, in order. */
    var calls: seq<(string, string, string)>

    ghost predicate Valid()
      reads this
    {
      HasFields(values) && forall k :: k in errors ==> errors[k] != ""
    }

    constructor ()
      ensures Valid()
      ensures values == map[NameField := "", EmailField := "", PasswordField := "", ConfirmField := ""]
      ensures errors == map[] && !isSubmitting && registerError == "" && calls == []
    {
      values := map[NameField := "", EmailField := "", PasswordField := "", ConfirmField := ""];
      errors := map[];
      isSubmitting := false;
      registerError := "";
      calls := [];
    }

    /** `handleChange`: the named field takes the typed value and loses its
        error, if it had one. */
    method HandleChange(name: string, value: string)
      requires Valid()
      modifies this`values, this`errors
      ensures Valid()
      ensures values == old(values)[name := value]
      ensures errors == old(errors) - {name}
    {
      values := values[name := value];
      if name in errors && errors[name] != "" {
        errors := errors - {name};
      }
    }

    /** The synchronous part of `handleSubmit`: the banner is cleared, the
        errors replaced by a fresh validation, and `register` called with
        name, address and password only when that found nothing. */
    method BeginSubmit() returns (called: bool)
      requires Valid() && !isSubmitting
      modifies this
      ensures Valid() && values == old(values) && registerError == ""
      ensures errors == Errors(values)
      ensures called <==> errors == map[]
      ensures called ==>
        isSubmitting && calls == old(calls) + [(values[NameField], values[EmailField], values[PasswordField])]
      ensures !called ==> !isSubmitting && calls == old(calls)
    {
      registerError := "";
      var newErrors := ValidateForm(values, RegisterRules(values[PasswordField]));
      errors := newErrors;
      called := |newErrors| == 0;
      if called {
        isSubmitting := true;
        calls := calls + [(values[NameField], values[EmailField], values[PasswordField])];
      }
    }

    /** The `register` call settles: an `Error` shows its own message, any
        other rejection a fixed one. */
    method SettleSubmit(rejection: Option<AuthProvider.Rejection>)
      requires Valid() && isSubmitting
      modifies this`isSubmitting, this`registerError
      ensures Valid() && !isSubmitting
      ensures rejection.None? ==> registerError == old(registerError)
      ensures rejection.Some? && rejection.value.ErrorObject? ==> registerError == rejection.value.message
      ensures rejection.Some? && rejection.value.OtherValue? ==> registerError == RegistrationFailed
    {
      if rejection.Some? {
        if rejection.value.ErrorObject? {
          registerError := rejection.value.message;
        } else {
          registerError := RegistrationFailed;
        }
      }
      isSubmitting := false;
    }
  }
}
