/** The rule-based form validator: one rule set per field, rules consulted
    in a fixed order with the first failure reported, a whole-form pass that
    keeps only the fields with a message, the email pattern, and the
    password-strength check that reports every unmet requirement. */
module FormValidation {
  import opened Strings

  /** What a caller-supplied `validate` callback returns: `boolean | string`. */
  datatype Verdict = Flag(ok: bool) | Text(message: string)

  /** A `ValidationRule`: every part optional. A length bound of 0 is falsy
      in JavaScript, so `Some(0)` disables the bound just as `None` does. */
  datatype Rule = Rule(
    required: bool,
    minLength: Option<int>,
    maxLength: Option<int>,
    pattern: Option<string -> bool>,
    validate: Option<string -> Verdict>)

  const RequiredMessage := "This field is required"
  const FormatMessage := "Invalid format"
  const InvalidValueMessage := "Invalid value"

  function MinLengthMessage(n: int): (r: string)
  {
    "Minimum length is " + IntToString(n) + " characters"
  }

  function MaxLengthMessage(n: int): (r: string)
  {
    "Maximum length is " + IntToString(n) + " characters"
  }

  /** The five parts of a rule, in the order `validateField` consults them. */
  datatype Check = RequiredCheck | MinLengthCheck | MaxLengthCheck | PatternCheck | CustomCheck

  const CheckOrder: seq<Check> := [RequiredCheck, MinLengthCheck, MaxLengthCheck, PatternCheck, CustomCheck]

  /** A length bound is in force when it is present and truthy (non-zero). */
  predicate Active(bound: Option<int>)
  {
    bound.Some? && bound.value != 0
  }

  /** Part `c` of `rule` is present and rejects `value`. */
  predicate Fails(c: Check, value: string, rule: Rule)
  {
    match c
    case RequiredCheck => rule.required && value == ""
    case MinLengthCheck => Active(rule.minLength) && |value| < rule.minLength.value
    case MaxLengthCheck => Active(rule.maxLength) && |value| > rule.maxLength.value
    case PatternCheck => rule.pattern.Some? && !rule.pattern.value(value)
    case CustomCheck => rule.validate.Some? && rule.validate.value(value) != Flag(true)
  }

  /** The message a failing part produces. */
  function Complaint(c: Check, value: string, rule: Rule): (r: string)
    requires Fails(c, value, rule)
  {
    match c
    case RequiredCheck => RequiredMessage
    case MinLengthCheck => MinLengthMessage(rule.minLength.value)
    case MaxLengthCheck => MaxLengthMessage(rule.maxLength.value)
    case PatternCheck => FormatMessage
    case CustomCheck =>
      match rule.validate.value(value)
      case Text(m) => m
      case Flag(_) => InvalidValueMessage
  }

  /** "The first failing part wins", over any list of parts. */
  function FirstComplaint(checks: seq<Check>, value: string, rule: Rule): (r: Option<string>)
  {
    if checks == [] then None
    else if Fails(checks[0], value, rule) then Some(Complaint(checks[0], value, rule))
    else FirstComplaint(checks[1..], value, rule)
  }

  /** `FirstComplaint` over `CheckOrder`, unfolded into five cases. */
  lemma FirstComplaintInCheckOrder(value: string, rule: Rule)
    ensures FirstComplaint(CheckOrder, value, rule) ==
      if Fails(RequiredCheck, value, rule) then Some(Complaint(RequiredCheck, value, rule))
      else if Fails(MinLengthCheck, value, rule) then Some(Complaint(MinLengthCheck, value, rule))
      else if Fails(MaxLengthCheck, value, rule) then Some(Complaint(MaxLengthCheck, value, rule))
      else if Fails(PatternCheck, value, rule) then Some(Complaint(PatternCheck, value, rule))
      else if Fails(CustomCheck, value, rule) then Some(Complaint(CustomCheck, value, rule))
      else None
  {
    var o := CheckOrder;
    assert o[4..][1..] == [];
    assert o[3..][1..] == o[4..];
    assert o[2..][1..] == o[3..];
    assert o[1..][1..] == o[2..];
    assert FirstComplaint(o[4..], value, rule) ==
      if Fails(CustomCheck, value, rule) then Some(Complaint(CustomCheck, value, rule)) else None;
    assert FirstComplaint(o[3..], value, rule) ==
      if Fails(PatternCheck, value, rule) then Some(Complaint(PatternCheck, value, rule))
      else FirstComplaint(o[4..], value, rule);
    assert FirstComplaint(o[2..], value, rule) ==
      if Fails(MaxLengthCheck, value, rule) then Some(Complaint(MaxLengthCheck, value, rule))
      else FirstComplaint(o[3..], value, rule);
    assert FirstComplaint(o[1..], value, rule) ==
      if Fails(MinLengthCheck, value, rule) then Some(Complaint(MinLengthCheck, value, rule))
      else FirstComplaint(o[2..], value, rule);
  }

  /** `validateField`: `None` is the source's `null`. The result is the
      message of the first failing part in `CheckOrder`, and `None` exactly
      when no part fails. */
  function ValidateField(value: string, rule: Rule): (r: Option<string>)
    ensures r == FirstComplaint(CheckOrder, value, rule)
    ensures r == None <==> forall c :: !Fails(c, value, rule)
  {
    FirstComplaintInCheckOrder(value, rule);
    if rule.required && value == "" then
      Some(RequiredMessage)
    else if Active(rule.minLength) && |value| < rule.minLength.value then
      Some(MinLengthMessage(rule.minLength.value))
    else if Active(rule.maxLength) && |value| > rule.maxLength.value then
      Some(MaxLengthMessage(rule.maxLength.value))
    else if rule.pattern.Some? && !rule.pattern.value(value) then
      Some(FormatMessage)
    else if rule.validate.Some? then
      match rule.validate.value(value)
      case Text(m) => Some(m)
      case Flag(false) => Some(InvalidValueMessage)
      case Flag(true) => None
    else
      None
  }

  /** Two rules judge part `c` of `value` alike. */
  predicate Agree(c: Check, value: string, r1: Rule, r2: Rule)
  {
    && Fails(c, value, r1) == Fails(c, value, r2)
    && (Fails(c, value, r1) ==> Complaint(c, value, r1) == Complaint(c, value, r2))
  }

  lemma {:induction false} FirstComplaintStopsAt(checks: seq<Check>, value: string, r1: Rule, r2: Rule, i: nat)
    requires i < |checks| && Fails(checks[i], value, r1)
    requires forall j :: 0 <= j <= i ==> Agree(checks[j], value, r1, r2)
    ensures FirstComplaint(checks, value, r1) == FirstComplaint(checks, value, r2)
  {
    assert Agree(checks[0], value, r1, r2);
    if i > 0 && !Fails(checks[0], value, r1) {
      forall j | 0 <= j <= i - 1 ensures Agree(checks[1..][j], value, r1, r2) {
        assert checks[1..][j] == checks[j + 1];
      }
      FirstComplaintStopsAt(checks[1..], value, r1, r2, i - 1);
    }
  }

  /** Short circuit: once part `i` fails, the parts after it are never
      consulted, so two rules that agree up to and including part `i` give the
      same result whatever their later parts say. */
  lemma LaterPartsNotConsulted(value: string, r1: Rule, r2: Rule, i: nat)
    requires i < |CheckOrder| && Fails(CheckOrder[i], value, r1)
    requires forall j :: 0 <= j <= i ==> Agree(CheckOrder[j], value, r1, r2)
    ensures ValidateField(value, r1) == ValidateField(value, r2)
  {
    FirstComplaintStopsAt(CheckOrder, value, r1, r2, i);
  }

  /** `validateForm` keeps a message only when it is truthy: present and not
      the empty string. */
  predicate Reported(r: Option<string>)
  {
    r.Some? && r.value != ""
  }

  /** The errors `validateForm` returns: one entry per rule key whose value
      draws a non-empty message. */
  function FormErrors(values: map<string, string>, rules: map<string, Rule>): (r: map<string, string>)
    requires rules.Keys <= values.Keys
  {
    map k | k in rules.Keys && Reported(ValidateField(values[k], rules[k])) :: ValidateField(values[k], rules[k]).value
  }

  /** `validateForm`: a loop over the keys of the rule set that fills a fresh
      dictionary. Every rule key is examined; no other key is. */
  method ValidateForm(values: map<string, string>, rules: map<string, Rule>) returns (errors: map<string, string>)
    requires rules.Keys <= values.Keys
    ensures errors.Keys <= rules.Keys
    ensures forall k :: k in rules ==> (k in errors <==> Reported(ValidateField(values[k], rules[k])))
    ensures forall k :: k in errors ==> ValidateField(values[k], rules[k]) == Some(errors[k])
    ensures errors == FormErrors(values, rules)
  {
    errors := map[];
    var pending := rules.Keys;
    while pending != {}
      invariant pending <= rules.Keys
      invariant errors.Keys <= rules.Keys - pending
      invariant forall k :: k in rules.Keys - pending ==> (k in errors <==> Reported(ValidateField(values[k], rules[k])))
      invariant forall k :: k in errors ==> ValidateField(values[k], rules[k]) == Some(errors[k])
      decreases pending
    {
      var key :| key in pending;
      var error := ValidateField(values[key], rules[key]);
      if error.Some? && error.value != "" {
        errors := errors[key := error.value];
      }
      pending := pending - {key};
    }
  }

  // ---------------------------------------------------------------------
  // emailPattern: /^[a-zA-Z0-9._%+-]+@[a-zA-Z0-9.-]+\.[a-zA-Z]{2,}$/

  predicate IsAsciiLetter(c: char)
  {
    'a' <= c <= 'z' || 'A' <= c <= 'Z'
  }

  predicate IsLocalChar(c: char)
  {
    IsAsciiLetter(c) || IsDigit(c) || c == '.' || c == '_' || c == '%' || c == '+' || c == '-'
  }

  predicate IsDomainChar(c: char)
  {
    IsAsciiLetter(c) || IsDigit(c) || c == '.' || c == '-'
  }

  /** The split the email pattern needs: a non-empty local part before
      position `at` (which holds '@'), a non-empty domain part up to position
      `dot` (which holds '.'), and at least two letters after it. */
  predicate EmailSplit(s: string, at: int, dot: int)
  {
    && 1 <= at && at + 2 <= dot && dot + 3 <= |s|
    && s[at] == '@' && s[dot] == '.'
    && (forall i :: 0 <= i < at ==> IsLocalChar(s[i]))
    && (forall i :: at < i < dot ==> IsDomainChar(s[i]))
    && (forall i :: dot < i < |s| ==> IsAsciiLetter(s[i]))
  }

  /** `emailPattern.test(s)`: the pattern is anchored at both ends, so it
      matches exactly when some split of that shape exists. */
  predicate MatchesEmail(s: string)
  {
    exists at, dot | 0 <= at < |s| && 0 <= dot < |s| :: EmailSplit(s, at, dot)
  }

  /** An address the pattern accepts has a non-empty part before its first
      '@', and that part is everything up to the '@'. */
  lemma EmailHasLocalPart(s: string)
    requires MatchesEmail(s)
    ensures 1 <= |BeforeFirst(s, '@')| < |s|
    ensures s[|BeforeFirst(s, '@')|] == '@'
  {
    var at, dot :| 0 <= at < |s| && 0 <= dot < |s| && EmailSplit(s, at, dot);
    BeforeFirstIsPrefix(s, '@', at);
  }

  // ---------------------------------------------------------------------
  // validatePasswordStrength

  /** The five independent password checks, in the order they are listed. */
  datatype Requirement = MinEight | Uppercase | Lowercase | Number | Special

  const RequirementOrder: seq<Requirement> := [MinEight, Uppercase, Lowercase, Number, Special]

  function Rank(q: Requirement): (r: nat)
  {
    match q
    case MinEight => 0
    case Uppercase => 1
    case Lowercase => 2
    case Number => 3
    case Special => 4
  }

  predicate IsSpecial(c: char)
  {
    c == '@' || c == '$' || c == '!' || c == '%' || c == '*' || c == '?' || c == '&'
  }

  /** Whether `p` meets `q`; the character classes are the regular
      expressions `[A-Z]`, `[a-z]`, `\d` and `[@$!%*?&]`, all ASCII. */
  predicate Met(q: Requirement, p: string)
  {
    match q
    case MinEight => |p| >= 8
    case Uppercase => exists i :: 0 <= i < |p| && 'A' <= p[i] <= 'Z'
    case Lowercase => exists i :: 0 <= i < |p| && 'a' <= p[i] <= 'z'
    case Number => exists i :: 0 <= i < |p| && IsDigit(p[i])
    case Special => exists i :: 0 <= i < |p| && IsSpecial(p[i])
  }

  function Phrase(q: Requirement): (r: string)
  {
    match q
    case MinEight => "at least 8 characters"
    case Uppercase => "an uppercase letter"
    case Lowercase => "a lowercase letter"
    case Number => "a number"
    case Special => "a special character"
  }

  const StrengthPrefix := "Password must contain "

  /** `checks.filter((check) => !check.test)` */
  function Unmet(qs: seq<Requirement>, p: string): (r: seq<Requirement>)
  {
    if qs == [] then []
    else if Met(qs[0], p) then Unmet(qs[1..], p)
    else [qs[0]] + Unmet(qs[1..], p)
  }

  function Phrases(qs: seq<Requirement>): (r: seq<string>)
    ensures |r| == |qs| && forall i :: 0 <= i < |qs| ==> r[i] == Phrase(qs[i])
  {
    if qs == [] then [] else [Phrase(qs[0])] + Phrases(qs[1..])
  }

  /** The filter keeps exactly the unmet requirements and keeps them in the
      order of the list it filters. */
  lemma {:induction false} UnmetExactly(qs: seq<Requirement>, p: string)
    requires forall i, j :: 0 <= i < j < |qs| ==> Rank(qs[i]) < Rank(qs[j])
    ensures forall q :: q in Unmet(qs, p) <==> q in qs && !Met(q, p)
    ensures forall i, j :: 0 <= i < j < |Unmet(qs, p)| ==> Rank(Unmet(qs, p)[i]) < Rank(Unmet(qs, p)[j])
  {
    if qs != [] {
      UnmetExactly(qs[1..], p);
      var rest := Unmet(qs[1..], p);
      forall q | q in rest ensures Rank(qs[0]) < Rank(q) {
        var k :| 0 <= k < |qs[1..]| && qs[1..][k] == q;
        assert qs[k + 1] == q;
      }
    }
  }

  /** `validatePasswordStrength`: no message for the empty password or for a
      password meeting all five requirements; otherwise the prefix followed by
      the phrase of every unmet requirement, in check order, joined by ", ". */
  function ValidatePasswordStrength(p: string): (r: Option<string>)
    ensures r == None <==> p == "" || forall q :: Met(q, p)
    ensures r.Some? ==> r.value == StrengthPrefix + Join(Phrases(Unmet(RequirementOrder, p)), ", ")
  {
    if p == "" then None
    else
      var failed := Unmet(RequirementOrder, p);
      UnmetExactly(RequirementOrder, p);
      if |failed| == 0 then
        assert forall q :: Met(q, p) by {
          forall q ensures Met(q, p) {
            assert q in RequirementOrder by { assert q == RequirementOrder[Rank(q)]; }
          }
        }
        None
      else
        assert failed[0] in failed;
        Some(StrengthPrefix + Join(Phrases(failed), ", "))
  }

  /** A requirement is named in the message exactly when the password misses
      it, and the named ones come in check order. */
  lemma StrengthNamesEveryFailure(p: string)
    requires p != ""
    ensures forall q :: q in Unmet(RequirementOrder, p) <==> !Met(q, p)
    ensures forall i, j :: 0 <= i < j < |Unmet(RequirementOrder, p)| ==>
      Rank(Unmet(RequirementOrder, p)[i]) < Rank(Unmet(RequirementOrder, p)[j])
  {
    UnmetExactly(RequirementOrder, p);
    forall q ensures q in RequirementOrder {
      assert q == RequirementOrder[Rank(q)];
    }
  }

  /** A password meeting all five requirements draws no message. */
  lemma StrongPasswordExample()
    ensures ValidatePasswordStrength("Abcdef1!") == None
  {
    var strong := "Abcdef1!";
    assert Met(Uppercase, strong) by { assert 'A' <= strong[0] <= 'Z'; }
    assert Met(Lowercase, strong) by { assert 'a' <= strong[1] <= 'z'; }
    assert Met(Number, strong) by { assert IsDigit(strong[6]); }
    assert Met(Special, strong) by { assert IsSpecial(strong[7]); }
    forall q ensures Met(q, strong) {
      match q
      case MinEight =>
      case Uppercase =>
      case Lowercase =>
      case Number =>
      case Special =>
    }
  }

  lemma WeakPasswordUnmet()
    ensures Unmet(RequirementOrder, "abc") == [MinEight, Uppercase, Number, Special]
  {
    var weak := "abc";
    assert Met(Lowercase, weak) by { assert 'a' <= weak[0] <= 'z'; }
    var order := RequirementOrder;
    assert order[4..] == [Special] && order[4..][1..] == [];
    assert Unmet(order[4..], weak) == [Special];
    assert order[3..][1..] == order[4..];
    assert Unmet(order[3..], weak) == [Number, Special];
    assert order[2..][1..] == order[3..];
    assert Unmet(order[2..], weak) == [Number, Special];
    assert order[1..][1..] == order[2..];
    assert Unmet(order[1..], weak) == [Uppercase, Number, Special];
  }

  lemma WeakPasswordPhrases()
    ensures Join(Phrases([MinEight, Uppercase, Number, Special]), ", ") ==
      Phrase(MinEight) + ", " + Phrase(Uppercase) + ", " + Phrase(Number) + ", " + Phrase(Special)
  {
    var phrases := Phrases([MinEight, Uppercase, Number, Special]);
    assert phrases[1..][1..][1..] == [Phrase(Special)];
    assert Join(phrases[1..][1..], ", ") == Phrase(Number) + ", " + Phrase(Special);
  }

  /** The second example: "abc" draws every length, case, digit and symbol
      requirement it misses, in check order. */
  lemma WeakPasswordExample()
    ensures ValidatePasswordStrength("abc") == Some(StrengthPrefix +
      (Phrase(MinEight) + ", " + Phrase(Uppercase) + ", " + Phrase(Number) + ", " + Phrase(Special)))
  {
    WeakPasswordUnmet();
    WeakPasswordPhrases();
    assert !Met(MinEight, "abc");
  }
}
