/** The sign-in form: two fields validated with the shared validator, errors
    cleared field by field as the user types, and a call to the session
    store's `login` only when validation passes. */
module LoginForm {
  import opened Strings
  import opened FormValidation
  import AuthProvider

  const EmailField := "email"
  const PasswordField := "password"
  const LoginFailed := "Invalid email or password. Please try again."

  /** `validationRules`: the address is required and must look like an
      email address; the password is only required. */
  function LoginRules(): (r: map<string, Rule>)
  {
    map[
      EmailField := Rule(true, None, None, Some((s: string) => MatchesEmail(s)), None),
      PasswordField := Rule(true, None, None, None, None)]
  }

  /** The field values the form always holds. */
  predicate HasFields(values: map<string, string>)
  {
    EmailField in values && PasswordField in values
  }

  /** What validating the form reports, field by field. */
  lemma LoginErrors(values: map<string, string>)
    requires HasFields(values)
    ensures FormErrors(values, LoginRules()).Keys <= {EmailField, PasswordField}
    ensures var errors := FormErrors(values, LoginRules());
      && (EmailField in errors <==> values[EmailField] == "" || !MatchesEmail(values[EmailField]))
      && (EmailField in errors ==>
            errors[EmailField] == if values[EmailField] == "" then RequiredMessage else FormatMessage)
      && (PasswordField in errors <==> values[PasswordField] == "")
      && (PasswordField in errors ==> errors[PasswordField] == RequiredMessage)
  {
    var rules := LoginRules();
    var errors := FormErrors(values, rules);
    var email, password := values[EmailField], values[PasswordField];
    assert ValidateField(email, rules[EmailField]) ==
      if email == "" then Some(RequiredMessage) else if !MatchesEmail(email) then Some(FormatMessage) else None;
    assert ValidateField(password, rules[PasswordField]) == if password == "" then Some(RequiredMessage) else None;
  }

  /** A form that passes validation never meets "Invalid credentials": the
      store signs in and names the user after a non-empty local part. */
  lemma PassingLoginSignsIn(values: map<string, string>)
    requires HasFields(values) && FormErrors(values, LoginRules()) == map[]
    ensures AuthProvider.LoginOutcome(values[EmailField], values[PasswordField]).SignedIn?
    ensures AuthProvider.LoginOutcome(values[EmailField], values[PasswordField]).user.name != ""
  {
    LoginErrors(values);
    assert EmailField !in FormErrors(values, LoginRules());
    assert PasswordField !in FormErrors(values, LoginRules());
    EmailHasLocalPart(values[EmailField]);
  }

  /** The state of one `LoginForm`. */
  class Controller {
    var values: map<string, string>
    var errors: map<string, string>
    var isSubmitting: bool
    var loginError: string
    /** The arguments of every `login` call made, in order. */
    var calls: seq<(string, string)>

    ghost predicate Valid()
      reads this
    {
      HasFields(values) && forall k :: k in errors ==> errors[k] != ""
    }

    constructor ()
      ensures Valid()
      ensures values == map[EmailField := "", PasswordField := ""]
      ensures errors == map[] && !isSubmitting && loginError == "" && calls == []
    {
      values := map[EmailField := "", PasswordField := ""];
      errors := map[];
      isSubmitting := false;
      loginError := "";
      calls := [];
    }

    /** `handleChange`: the named field takes the typed value and loses its
        error, if it had one. */
    method HandleChange(name: string, value: string)
      requires Valid()
      modifies this`values, this`errors
      ensures Valid()
      ensures values == old(values)[name := value]
      ensures errors == old(errors) - {name}
    {
      values := values[name := value];
      if name in errors && errors[name] != "" {
        errors := errors - {name};
      }
    }

    /** The synchronous part of `handleSubmit`: the banner is cleared, the
        errors replaced by a fresh validation, and `login` called only when
        that found nothing. The button is disabled while a call is out. */
    method BeginSubmit() returns (called: bool)
      requires Valid() && !isSubmitting
      modifies this
      ensures Valid() && values == old(values) && loginError == ""
      ensures errors == FormErrors(values, LoginRules())
      ensures called <==> errors == map[]
      ensures called ==> isSubmitting && calls == old(calls) + [(values[EmailField], values[PasswordField])]
      ensures !called ==> !isSubmitting && calls == old(calls)
    {
      loginError := "";
      var newErrors := ValidateForm(values, LoginRules());
      errors := newErrors;
      called := |newErrors| == 0;
      if called {
        isSubmitting := true;
        calls := calls + [(values[EmailField], values[PasswordField])];
      }
    }

    /** The `login` call settles. Whatever it was rejected with, the banner
        shows one fixed message. */
    method SettleSubmit(rejection: Option<AuthProvider.Rejection>)
      requires Valid() && isSubmitting
      modifies this`isSubmitting, this`loginError
      ensures Valid() && !isSubmitting
      ensures loginError == if rejection.Some? then LoginFailed else old(loginError)
    {
      if rejection.Some? {
        loginError := LoginFailed;
      }
      isSubmitting := false;
    }
  }

  /** "jane@example.com" matches the email pattern, with its '@' at 4 and
      its last '.' at 12. */
  lemma JaneAddress()
    ensures MatchesEmail("jane@example.com")
  {
    assert EmailSplit("jane@example.com", 4, 12);
  }

  /** The form and the store together: a submission that passes validation
      signs the user in, stores the identity and leaves no banner. */
  method SignInThroughForm(form: Controller, session: AuthProvider.Session)
    requires form.Valid() && !form.isSubmitting && session.Valid()
    requires form.values[EmailField] == "jane@example.com" && form.values[PasswordField] == "secret"
    modifies form, session
  {
    JaneAddress();
    LoginErrors(form.values);
    var called := form.BeginSubmit();
    assert called;
    session.BeginCall();
    var error := session.FinishLogin("jane@example.com", "secret");
    assert error == None;
    form.SettleSubmit(None);
    assert form.loginError == "" && !form.isSubmitting && !session.isLoading;
    assert session.user.Some? && session.storage[AuthProvider.StorageKey] == session.user.value;
  }
}
