/** The checks `handleRegister` runs on the sign-up form before it calls
    `register`, and the payload it sends. */
module RegisterForm {
  import opened Store
  import opened Schema
  import opened JsString
  import Auth

  /** The form state: four text inputs and the selected role. */
  datatype Form = Form(name: string, email: string, password: string, phone: string, role: Role)

  /** The alerts, in the order the checks run. */
  datatype Alert = RequiredFields | InvalidEmail | WeakPassword | InvalidPhone | InvalidName

  function Title(a: Alert): string {
    match a
    case RequiredFields => "Required Fields"
    case InvalidEmail => "Invalid Email"
    case WeakPassword => "Weak Password"
    case InvalidPhone => "Invalid Phone"
    case InvalidName => "Invalid Name"
  }

  function Message(a: Alert): string {
    match a
    case RequiredFields => "Name, Email, and Password are mandatory."
    case InvalidEmail => "Please enter a valid email address."
    case WeakPassword => "Password must be at least 6 characters long."
    case InvalidPhone => "Phone number must be 10 digits."
    case InvalidName => "Full name must be at least 3 characters."
  }

  // ---------------------------------------------------------------------
  // The email pattern

  /** `[^\s@]` */
  predicate EmailChar(c: char) {
    !IsSpace(c) && c != '@'
  }

  /** `s[lo..hi]` is a run of `[^\s@]`. */
  predicate EmailRun(s: string, lo: int, hi: int) {
    forall k :: lo <= k < hi && 0 <= k < |s| ==> EmailChar(s[k])
  }

  /** The pattern's parts at positions `at` ('@') and `dot` ('.'): each of the
      three runs `[^\s@]+` non-empty. */
  predicate EmailSplit(s: string, at: int, dot: int) {
    0 < at && at + 1 < dot && dot + 1 < |s|
    && EmailRun(s, 0, at) && s[at] == '@' && EmailRun(s, at + 1, dot)
    && s[dot] == '.' && EmailRun(s, dot + 1, |s|)
  }

  /** `/^[^\s@]+@[^\s@]+\.[^\s@]+$/.test(s)`. */
  predicate EmailRegex(s: string) {
    exists at, dot | 0 <= at < |s| && 0 <= dot < |s| :: EmailSplit(s, at, dot)
  }

  /** `s[a]` is the only '@' in `s`. */
  predicate OnlyAtSignAt(s: string, a: int) {
    0 <= a < |s| && s[a] == '@' && forall k :: 0 <= k < |s| && k != a ==> s[k] != '@'
  }

  /** The pattern in plain words: no white space, exactly one '@', something
      before it, and after it a '.' that is neither the first nor the last
      character of the domain. */
  predicate EmailShape(s: string) {
    (forall k :: 0 <= k < |s| ==> !IsSpace(s[k]))
    && exists a, j | 0 <= a < |s| && 0 <= j < |s| ::
         OnlyAtSignAt(s, a) && 0 < a && a + 1 < j < |s| - 1 && s[j] == '.'
  }

  lemma EmailRegexShape(s: string)
    ensures EmailRegex(s) <==> EmailShape(s)
  {
    if EmailRegex(s) {
      var at, dot :| 0 <= at < |s| && 0 <= dot < |s| && EmailSplit(s, at, dot);
      assert OnlyAtSignAt(s, at);
    }
    if EmailShape(s) {
      var a, j :| 0 <= a < |s| && 0 <= j < |s| && OnlyAtSignAt(s, a) && 0 < a && a + 1 < j < |s| - 1 && s[j] == '.';
      assert EmailSplit(s, a, j);
    }
  }

  // ---------------------------------------------------------------------
  // The chain of checks

  /** The verdict of each check, `true` where it rejects. */
  datatype Checks = Checks(required: bool, email: bool, password: bool, phone: bool, name: bool)

  /** The five checks on a form, each as the handler writes it. */
  function ChecksOf(form: Form): Checks {
    Checks(
      Blank(form.name) || Blank(form.email) || form.password == [],
      !EmailRegex(Trim(form.email)),
      |form.password| < 6,
      form.phone != [] && |Digits(form.phone)| > 0 && |Digits(form.phone)| != 10,
      |Trim(form.name)| < 3)
  }

  /** Whether the check behind alert `a` rejects. */
  predicate Failed(c: Checks, a: Alert) {
    match a
    case RequiredFields => c.required
    case InvalidEmail => c.email
    case WeakPassword => c.password
    case InvalidPhone => c.phone
    case InvalidName => c.name
  }

  /** Position of each check in the chain. */
  function Rank(a: Alert): nat {
    match a
    case RequiredFields => 0
    case InvalidEmail => 1
    case WeakPassword => 2
    case InvalidPhone => 3
    case InvalidName => 4
  }

  /** The chain of early returns: the first check that rejects, if any. */
  function FirstFailure(c: Checks): Option<Alert> {
    if c.required then Some(RequiredFields)
    else if c.email then Some(InvalidEmail)
    else if c.password then Some(WeakPassword)
    else if c.phone then Some(InvalidPhone)
    else if c.name then Some(InvalidName)
    else None
  }

  /** Every check ranked below `a` passes. */
  lemma EarlierChecksPass(c: Checks, a: Alert)
    ensures (forall b :: Rank(b) < Rank(a) ==> !Failed(c, b)) <==>
            (Rank(a) > 0 ==> !c.required) && (Rank(a) > 1 ==> !c.email)
            && (Rank(a) > 2 ==> !c.password) && (Rank(a) > 3 ==> !c.phone)
  {
    assert Failed(c, RequiredFields) == c.required && Failed(c, InvalidEmail) == c.email;
    assert Failed(c, WeakPassword) == c.password && Failed(c, InvalidPhone) == c.phone;
    if (Rank(a) > 0 ==> !c.required) && (Rank(a) > 1 ==> !c.email)
       && (Rank(a) > 2 ==> !c.password) && (Rank(a) > 3 ==> !c.phone) {
      forall b | Rank(b) < Rank(a) ensures !Failed(c, b) {
        match b
        case RequiredFields =>
        case InvalidEmail =>
        case WeakPassword =>
        case InvalidPhone =>
        case InvalidName =>
      }
    }
  }

  /** The alert reported is the lowest-ranked failing check's, and there is
      none exactly when every check passes. */
  lemma FirstFailureIsFirst(c: Checks)
    ensures forall a :: FirstFailure(c) == Some(a) <==> Failed(c, a) && forall b :: Rank(b) < Rank(a) ==> !Failed(c, b)
    ensures FirstFailure(c).None? <==> forall a :: !Failed(c, a)
  {
    forall a ensures FirstFailure(c) == Some(a) <==> Failed(c, a) && forall b :: Rank(b) < Rank(a) ==> !Failed(c, b) {
      EarlierChecksPass(c, a);
    }
    if FirstFailure(c).None? {
      forall a ensures !Failed(c, a) {
        match a
        case RequiredFields =>
        case InvalidEmail =>
        case WeakPassword =>
        case InvalidPhone =>
        case InvalidName =>
      }
    }
  }

  datatype Outcome = Rejected(alert: Alert) | Submitted(payload: Auth.RegisterArgs)

  /** The payload: name and email trimmed, password and role as entered, the
      phone trimmed or left out when it trims to nothing. */
  function Payload(form: Form): Auth.RegisterArgs {
    Auth.RegisterArgs(Trim(form.name), Trim(form.email), form.password, form.role,
                      if Trim(form.phone) == [] then None else Some(Trim(form.phone)))
  }

  /** `handleRegister`: the alert of the first failing check, or the payload
      passed to `register` when every check passes. */
  function HandleRegister(form: Form): (r: Outcome)
    ensures r.Rejected? ==> Failed(ChecksOf(form), r.alert)
    ensures r.Rejected? ==> forall b :: Rank(b) < Rank(r.alert) ==> !Failed(ChecksOf(form), b)
    ensures r.Submitted? ==> r.payload == Payload(form) && forall a :: !Failed(ChecksOf(form), a)
  {
    FirstFailureIsFirst(ChecksOf(form));
    match FirstFailure(ChecksOf(form))
    case Some(a) => Rejected(a)
    case None => Submitted(Payload(form))
  }

  /** A submitted name is the trimmed input, at least three characters long,
      and trimming it again changes nothing. */
  lemma SubmittedName(form: Form)
    requires HandleRegister(form).Submitted?
    ensures Payload(form).name == Trim(form.name) && |Trim(form.name)| >= 3 && Trim(Trim(form.name)) == Trim(form.name)
  {
  }

  /** A submitted email is the trimmed input, stable under trimming, and of the
      accepted shape: one '@', text before it, and a '.' inside the domain. */
  lemma SubmittedEmail(form: Form)
    requires HandleRegister(form).Submitted?
    ensures Payload(form).email == Trim(form.email) && Trim(Trim(form.email)) == Trim(form.email)
    ensures EmailShape(Trim(form.email))
  {
    assert !Failed(ChecksOf(form), InvalidEmail);
    TrimIdempotent(form.email);
    EmailRegexShape(Trim(form.email));
  }

  /** A submitted password is the input as typed, at least six characters
      long, sent with the chosen role. */
  lemma SubmittedPassword(form: Form)
    requires HandleRegister(form).Submitted?
    ensures HandleRegister(form).payload.password == form.password
    ensures |HandleRegister(form).payload.password| >= 6
    ensures HandleRegister(form).payload.role == form.role
  {
  }

  /** The phone sent is absent exactly when the input is blank; otherwise it is
      the trimmed input, which holds no digits or exactly ten. */
  lemma SubmittedPhone(form: Form)
    requires HandleRegister(form).Submitted?
    ensures Payload(form).phone.None? <==> Blank(form.phone)
    ensures Payload(form).phone.Some? ==>
              Payload(form).phone.value == Trim(form.phone) && (|Digits(form.phone)| == 0 || |Digits(form.phone)| == 10)
  {
  }
}
