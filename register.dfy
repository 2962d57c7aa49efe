/** The sign-up form's rules (src/pages/Register.tsx): the ordered
    validation that stops at the first failing rule, the email pattern, the
    password-strength score and its labels, and what a valid form submits. */
module Registration {
  import opened Js
  import opened JsText

  datatype Form = Form(username: string, email: string, password: string, confirmPassword: string, acceptTerms: bool)

  /** The rules, each named after the message shown when it fails. */
  datatype Rule =
    | UsernameRequired | UsernameTooShort | EmailRequired | EmailInvalid
    | PasswordRequired | PasswordTooShort | PasswordMismatch | TermsRequired

  /** The order the rules are checked in. */
  const Rules: seq<Rule> := [UsernameRequired, UsernameTooShort, EmailRequired, EmailInvalid,
                             PasswordRequired, PasswordTooShort, PasswordMismatch, TermsRequired]

  // --------------------------------------------------------------- email

  /** `[^\s@]`. */
  predicate Plain(c: char) {
    !IsSpace(c) && c != '@'
  }

  /** `[^\s@]+`. */
  predicate PlainRun(t: string) {
    |t| > 0 && forall k :: 0 <= k < |t| ==> Plain(t[k])
  }

  /** `/^[^\s@]+@[^\s@]+\.[^\s@]+$/.test(s)`: the text splits as a plain run,
      `@`, a plain run, `.`, a plain run. */
  predicate EmailPattern(s: string) {
    exists i, j :: 0 <= i < j < |s| && s[i] == '@' && s[j] == '.'
      && PlainRun(s[..i]) && PlainRun(s[i + 1..j]) && PlainRun(s[j + 1..])
  }

  /** The pattern in plain words: no white space, exactly one `@`, something
      before it, and after it a `.` with something on each side. */
  predicate EmailShape(s: string) {
    && (forall k :: 0 <= k < |s| ==> !IsSpace(s[k]))
    && exists i :: 0 < i < |s| && s[i] == '@'
         && (forall k :: 0 <= k < |s| && k != i ==> s[k] != '@')
         && (exists j :: i + 1 < j < |s| - 1 && s[j] == '.')
  }

  lemma EmailPatternIff(s: string)
    ensures EmailPattern(s) <==> EmailShape(s)
  {
    if EmailPattern(s) {
      var i, j :| 0 <= i < j < |s| && s[i] == '@' && s[j] == '.'
        && PlainRun(s[..i]) && PlainRun(s[i + 1..j]) && PlainRun(s[j + 1..]);
      PatternShape(s, i, j);
    }
    if EmailShape(s) {
      var i :| 0 < i < |s| && s[i] == '@'
        && (forall k :: 0 <= k < |s| && k != i ==> s[k] != '@')
        && (exists j :: i + 1 < j < |s| - 1 && s[j] == '.');
      var j :| i + 1 < j < |s| - 1 && s[j] == '.';
      ShapePattern(s, i, j);
    }
  }

  /** A split of the pattern has the shape. */
  lemma PatternShape(s: string, i: nat, j: nat)
    requires i < j < |s| && s[i] == '@' && s[j] == '.'
    requires PlainRun(s[..i]) && PlainRun(s[i + 1..j]) && PlainRun(s[j + 1..])
    ensures EmailShape(s)
  {
    forall k | 0 <= k < |s| && k != i ensures Plain(s[k]) {
      if k < i {
        assert s[..i][k] == s[k];
      } else if k < j {
        assert s[i + 1..j][k - i - 1] == s[k];
      } else if k > j {
        assert s[j + 1..][k - j - 1] == s[k];
      }
    }
    assert i + 1 < j < |s| - 1;
  }

  /** The shape splits as the pattern does, around its `@` and a `.` after
      it. */
  lemma ShapePattern(s: string, i: nat, j: nat)
    requires forall k :: 0 <= k < |s| ==> !IsSpace(s[k])
    requires 0 < i < |s| && s[i] == '@' && (forall k :: 0 <= k < |s| && k != i ==> s[k] != '@')
    requires i + 1 < j < |s| - 1 && s[j] == '.'
    ensures EmailPattern(s)
  {
    forall k | 0 <= k < i ensures Plain(s[..i][k]) {
      assert s[..i][k] == s[k];
    }
    var mid, tail := s[i + 1..j], s[j + 1..];
    forall k | 0 <= k < |mid| ensures Plain(mid[k]) {
      assert mid[k] == s[i + 1 + k];
    }
    forall k | 0 <= k < |tail| ensures Plain(tail[k]) {
      assert tail[k] == s[j + 1 + k];
    }
    assert PlainRun(s[..i]) && PlainRun(mid) && PlainRun(tail);
  }

  // ---------------------------------------------------------- validation

  /** Whether `rule` rejects the form. */
  predicate Fails(rule: Rule, f: Form) {
    match rule
    case UsernameRequired => Trim(f.username) == ""
    case UsernameTooShort => |f.username| < 3
    case EmailRequired => Trim(f.email) == ""
    case EmailInvalid => !EmailPattern(f.email)
    case PasswordRequired => f.password == ""
    case PasswordTooShort => |f.password| < 8
    case PasswordMismatch => f.password != f.confirmPassword
    case TermsRequired => !f.acceptTerms
  }

  /** The first of `rules` that rejects the form, trying them in order. */
  function FirstFailing(rules: seq<Rule>, f: Form): Option<Rule> {
    if rules == [] then None
    else if Fails(rules[0], f) then Some(rules[0])
    else FirstFailing(rules[1..], f)
  }

  /** `validateForm()`: the first rule, in the fixed order, that rejects the
      form; none for a valid form. */
  function Validate(f: Form): Option<Rule> {
    FirstFailing(Rules, f)
  }

  lemma {:induction false} FirstFailingSpec(rules: seq<Rule>, f: Form, k: nat)
    requires k < |rules| && Fails(rules[k], f)
    requires forall j :: 0 <= j < k ==> !Fails(rules[j], f)
    ensures FirstFailing(rules, f) == Some(rules[k])
  {
    if k > 0 {
      assert !Fails(rules[0], f);
      FirstFailingSpec(rules[1..], f, k - 1);
    }
  }

  lemma {:induction false} FirstFailingNone(rules: seq<Rule>, f: Form)
    ensures FirstFailing(rules, f).None? <==> forall k :: 0 <= k < |rules| ==> !Fails(rules[k], f)
    ensures FirstFailing(rules, f).Some? ==> FirstFailing(rules, f).value in rules && Fails(FirstFailing(rules, f).value, f)
  {
    if rules != [] && !Fails(rules[0], f) {
      FirstFailingNone(rules[1..], f);
      assert forall k :: 1 <= k < |rules| ==> rules[k] == rules[1..][k - 1];
    }
  }

  /** The reported rule is the first one, in the fixed order, that rejects
      the form. */
  lemma ValidateFirstFailure(f: Form, k: nat)
    requires k < |Rules| && Fails(Rules[k], f)
    requires forall j :: 0 <= j < k ==> !Fails(Rules[j], f)
    ensures Validate(f) == Some(Rules[k])
  {
    FirstFailingSpec(Rules, f, k);
  }

  /** A form is accepted exactly when no rule rejects it, and a rejection
      names a rule that does reject it. */
  lemma ValidateAccepts(f: Form)
    ensures Validate(f).None? <==> forall k :: 0 <= k < |Rules| ==> !Fails(Rules[k], f)
    ensures Validate(f).Some? ==> Fails(Validate(f).value, f)
  {
    FirstFailingNone(Rules, f);
  }

  /** The accepted forms in plain words: the trimmed username is non-empty
      and the raw one has at least three characters, the email has the shape
      of the pattern, the password has at least eight characters and equals
      its confirmation, and the terms are accepted. */
  lemma ValidateMeaning(f: Form)
    ensures Validate(f).None? <==>
      Trim(f.username) != "" && |f.username| >= 3 && EmailShape(f.email)
      && |f.password| >= 8 && f.password == f.confirmPassword && f.acceptTerms
  {
    ValidateAccepts(f);
    EmailPatternIff(f.email);
    ShapedEmailUntrimmed(f.email);
    if Validate(f).None? {
      assert !Fails(Rules[0], f) && !Fails(Rules[1], f) && !Fails(Rules[2], f) && !Fails(Rules[3], f);
      assert !Fails(Rules[4], f) && !Fails(Rules[5], f) && !Fails(Rules[6], f) && !Fails(Rules[7], f);
    }
  }

  /** An email of the pattern's shape has no white space, so trimming
      leaves it as it is, and it is not empty. */
  lemma ShapedEmailUntrimmed(s: string)
    ensures EmailShape(s) ==> Trim(s) == s && s != ""
  {
    if EmailShape(s) {
      TrimNoSpace(s);
    }
  }

  /** On submit only a valid form is sent. The username goes trimmed, so it
      is non-empty with no white space at either end; the email goes exactly
      as typed, since a valid one has no white space to trim; the password
      goes as typed and is at least eight characters and equal to its
      confirmation. */
  function Submission(f: Form): (r: Option<(string, string, string)>)
    ensures r.Some? <==> Validate(f).None?
    ensures r.Some? ==>
      var (name, email, password) := r.value;
      && name == Trim(f.username) && name != "" && !IsSpace(name[0]) && !IsSpace(name[|name| - 1])
      && email == f.email && EmailShape(email)
      && password == f.password == f.confirmPassword && |password| >= 8
  {
    ValidateMeaning(f);
    ShapedEmailUntrimmed(f.email);
    if Validate(f).None? then Some((Trim(f.username), Trim(f.email), f.password)) else None
  }

  /** The length rule counts the untrimmed name, so padding with spaces lets
      a one-letter name through, and it is sent trimmed. */
  lemma PaddedShortUsername(f: Form)
    requires f.username == "  a" && f.email == "a@b.co"
    requires f.password == "password1" == f.confirmPassword && f.acceptTerms
    ensures Validate(f).None? && Submission(f).value.0 == "a"
  {
    PaddedTrim(f.username);
    SampleEmail(f.email);
    ValidateMeaning(f);
  }

  lemma PaddedTrim(u: string)
    requires u == "  a"
    ensures Trim(u) == "a"
  {
    assert Leading(u) == 2 by {
      assert IsSpace(u[0]) && IsSpace(u[1]) && !IsSpace(u[2]);
      assert u[1..][1..] == "a";
    }
    assert u[2..] == "a";
    assert Trailing("a") == 0;
  }

  lemma SampleEmail(e: string)
    requires e == "a@b.co"
    ensures EmailPattern(e) && EmailShape(e)
  {
    assert e[1] == '@' && e[3] == '.';
    assert PlainRun(e[..1]) && PlainRun(e[2..3]) && PlainRun(e[4..]);
    EmailPatternIff(e);
  }

  // ------------------------------------------------------------ strength

  predicate HasLower(p: string) {
    exists k :: 0 <= k < |p| && 'a' <= p[k] <= 'z'
  }

  predicate HasUpper(p: string) {
    exists k :: 0 <= k < |p| && 'A' <= p[k] <= 'Z'
  }

  predicate HasDigit(p: string) {
    exists k :: 0 <= k < |p| && '0' <= p[k] <= '9'
  }

  /** `[^a-zA-Z0-9]`. */
  predicate HasOther(p: string) {
    exists k :: 0 <= k < |p| && !('a' <= p[k] <= 'z') && !('A' <= p[k] <= 'Z') && !('0' <= p[k] <= '9')
  }

  function Point(b: bool): nat {
    if b then 1 else 0
  }

  /** Every character is of one of the four kinds. */
  lemma NonEmptyHasKind(p: string)
    ensures p != "" ==> HasLower(p) || HasUpper(p) || HasDigit(p) || HasOther(p)
  {
    if p != "" {
      var c := p[0];
      assert 'a' <= c <= 'z' ==> HasLower(p);
      assert 'A' <= c <= 'Z' ==> HasUpper(p);
      assert '0' <= c <= '9' ==> HasDigit(p);
      assert !('a' <= c <= 'z') && !('A' <= c <= 'Z') && !('0' <= c <= '9') ==> HasOther(p);
    }
  }

  /** `passwordStrength(p)`: one point each for a length of eight or more,
      a lower-case letter, an upper-case letter, a digit and any other
      character. */
  function Strength(p: string): (r: nat)
    ensures r <= 5
    ensures r == 0 <==> p == ""
    ensures r == 5 <==> |p| >= 8 && HasLower(p) && HasUpper(p) && HasDigit(p) && HasOther(p)
  {
    NonEmptyHasKind(p);
    Point(|p| >= 8) + Point(HasLower(p)) + Point(HasUpper(p)) + Point(HasDigit(p)) + Point(HasOther(p))
  }

  function StrengthText(strength: int): string {
    if strength < 2 then "Weak" else if strength < 4 then "Medium" else "Strong"
  }

  function StrengthColor(strength: int): string {
    if strength < 2 then "bg-destructive" else if strength < 4 then "bg-warning" else "bg-success"
  }

  /** The label and the colour always agree: weak is destructive, medium a
      warning, strong a success. */
  lemma LabelsAgree(strength: int)
    ensures StrengthText(strength) == "Weak" <==> StrengthColor(strength) == "bg-destructive"
    ensures StrengthText(strength) == "Medium" <==> StrengthColor(strength) == "bg-warning"
    ensures StrengthText(strength) == "Strong" <==> StrengthColor(strength) == "bg-success"
  {
  }

  /** A password long enough to pass validation is never rated weak, and a
      strong one has at least three of the four kinds of character. */
  lemma StrengthLabels(p: string)
    ensures |p| >= 8 ==> StrengthText(Strength(p)) != "Weak"
    ensures StrengthText(Strength(p)) == "Strong" ==>
      Point(HasLower(p)) + Point(HasUpper(p)) + Point(HasDigit(p)) + Point(HasOther(p)) >= 3
    ensures p == "" ==> StrengthText(Strength(p)) == "Weak"
  {
    NonEmptyHasKind(p);
  }
}
