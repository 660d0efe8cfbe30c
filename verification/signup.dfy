/** The sign-up form (`src/app/signup/page.tsx`): password rules, the order
    in which the submission is checked, and what a new account is given. */
module Signup {
  import opened Wrappers
  import opened Text

  const LengthMessage: string := "Password must be 8-20 characters long."
  const DigitMessage: string := "Password must contain a number."
  const SymbolMessage: string := "Password must contain a symbol."
  const MismatchMessage: string := "Passwords do not match"
  const CreatedMessage: string := "Account created successfully"
  const OnboardingRoute: string := "/login?onboarding=true"

  /** The characters of the symbol class `[!@#$%^&*]`. */
  const Symbols: set<char> := {'!', '@', '#', '$', '%', '^', '&', '*'}
  const Digits: set<char> := {'0', '1', '2', '3', '4', '5', '6', '7', '8', '9'}

  /** `/[...]/.test(s)` for a character class: a scan from the left. */
  function ContainsAny(s: string, chars: set<char>): (r: bool)
    ensures r <==> exists i :: 0 <= i < |s| && s[i] in chars
  {
    if |s| == 0 then false
    else if s[0] in chars then true
    else
      assert forall i :: 1 <= i < |s| ==> s[i] == s[1..][i - 1];
      ContainsAny(s[1..], chars)
  }

  /** `validatePassword`: the first rule broken, or None when all hold. The
      rules are checked in order: length 8 to 20, a digit, a symbol. */
  function ValidatePassword(p: string): (r: Option<string>)
    ensures r.None? <==>
      8 <= |p| <= 20 && (exists i :: 0 <= i < |p| && p[i] in Digits) && (exists i :: 0 <= i < |p| && p[i] in Symbols)
    ensures r == Some(LengthMessage) <==> !(8 <= |p| <= 20)
    ensures r == Some(DigitMessage) <==> 8 <= |p| <= 20 && forall i :: 0 <= i < |p| ==> p[i] !in Digits
    ensures r == Some(SymbolMessage) <==>
      8 <= |p| <= 20 && (exists i :: 0 <= i < |p| && p[i] in Digits) && forall i :: 0 <= i < |p| ==> p[i] !in Symbols
  {
    if |p| < 8 || |p| > 20 then Some(LengthMessage)
    else if !ContainsAny(p, Digits) then Some(DigitMessage)
    else if !ContainsAny(p, Symbols) then Some(SymbolMessage)
    else None
  }

  /** The display name a new account gets: `email.split("@")[0]`. */
  function DisplayNameFor(email: string): (r: string)
    ensures r <= email && '@' !in r
    ensures |r| < |email| ==> email[|r|] == '@'
  {
    BeforeFirst(email, '@')
  }

  /** For an address `local@domain`, the display name is `local`. */
  lemma {:induction false} DisplayNameIsLocalPart(local: string, domain: string)
    requires '@' !in local
    ensures DisplayNameFor(local + "@" + domain) == local
    decreases |local|
  {
    var e := local + "@" + domain;
    if |local| > 0 {
      assert e[0] == local[0] && e[1..] == local[1..] + "@" + domain;
      DisplayNameIsLocalPart(local[1..], domain);
      assert [local[0]] + local[1..] == local;
    } else {
      assert e[0] == '@';
    }
  }

  /** The message shown for a failure code of the authentication or the
      document service. */
  function ErrorMessage(code: string): (r: string)
    ensures code == "auth/email-already-in-use" ==> r == "Email already in use"
    ensures code == "auth/weak-password" ==> r == "Password is too weak"
    ensures code !in {"auth/email-already-in-use", "auth/weak-password"} ==> r == "Registration failed"
  {
    if code == "auth/weak-password" then "Password is too weak"
    else if code == "auth/email-already-in-use" then "Email already in use"
    else "Registration failed"
  }

  /** The form's three fields. */
  datatype Form = Form(email: string, password: string, confirmPassword: string)

  /** The outcome of one remote step: success, or an error with its code. */
  datatype Step = Ok | Fails(code: string)

  /** `createUserWithEmailAndPassword`: a new account with its id and address,
      or an error code. */
  datatype Creation = Created(uid: string, email: string) | Refused(code: string)

  /** The document `users/{uid}` written for a new account. */
  datatype UserDoc = UserDoc(uid: string, email: string, name: string, createdAt: string, bio: string, image: string)

  datatype Notice = ErrorNotice(text: string) | SuccessNotice(text: string)

  /** Everything a submission leaves behind. */
  datatype Submission = Submission(
    notice: Notice,
    account: Option<string>,        // the id of the account created, if any
    displayName: Option<string>,    // the display name set on it, if any
    doc: Option<UserDoc>,           // the profile document written, if any
    navigate: Option<string>)       // where the page goes next, if anywhere

  /** `handleSubmit`. The services are the parameters: the account creation,
      the profile update, the document write; `now` is the clock's ISO time. */
  function HandleSubmit(form: Form, create: Creation, profile: Step, write: Step, now: string): (r: Submission)
    // the form is checked before anything is sent, password rules first
    ensures ValidatePassword(form.password).Some? ==>
      r == Submission(ErrorNotice(ValidatePassword(form.password).value), None, None, None, None)
    ensures ValidatePassword(form.password).None? && form.password != form.confirmPassword ==>
      r == Submission(ErrorNotice(MismatchMessage), None, None, None, None)
    // success needs the form and all three steps
    ensures r.notice.SuccessNotice? <==>
      ValidatePassword(form.password).None? && form.password == form.confirmPassword
      && create.Created? && profile.Ok? && write.Ok?
    ensures r.navigate.Some? <==> r.notice.SuccessNotice?
    ensures r.navigate.Some? ==> r.navigate.value == OnboardingRoute
    // a failing service shows the message for its code
    ensures create.Refused? && ValidatePassword(form.password).None? && form.password == form.confirmPassword ==>
      r.notice == ErrorNotice(ErrorMessage(create.code)) && r.account.None?
    // a failing profile or document step shows its message and leaves the
    // created account behind
    ensures create.Created? && ValidatePassword(form.password).None? && form.password == form.confirmPassword
            && !(profile.Ok? && write.Ok?) ==>
      r.account == Some(create.uid)
      && r.notice == ErrorNotice(ErrorMessage(if profile.Fails? then profile.code else write.code))
    // what the new account is given
    ensures r.displayName.Some? ==> r.displayName.value == DisplayNameFor(form.email)
    ensures r.doc.Some? ==> create.Created? && r.doc.value == UserDoc(create.uid, create.email, DisplayNameFor(form.email), now, "", "")
    ensures r.doc.Some? <==> r.notice.SuccessNotice?
    ensures r.doc.Some? ==> r.displayName.Some? && r.account.Some?
  {
    var passwordError := ValidatePassword(form.password);
    if passwordError.Some? then
      Submission(ErrorNotice(passwordError.value), None, None, None, None)
    else if form.password != form.confirmPassword then
      Submission(ErrorNotice(MismatchMessage), None, None, None, None)
    else
      match create
      case Refused(code) => Submission(ErrorNotice(ErrorMessage(code)), None, None, None, None)
      case Created(uid, email) =>
        var name := DisplayNameFor(form.email);
        match profile
        case Fails(code) => Submission(ErrorNotice(ErrorMessage(code)), Some(uid), None, None, None)
        case Ok =>
          match write
          case Fails(code) => Submission(ErrorNotice(ErrorMessage(code)), Some(uid), Some(name), None, None)
          case Ok =>
            Submission(SuccessNotice(CreatedMessage), Some(uid), Some(name),
                       Some(UserDoc(uid, email, name, now, "", "")), Some(OnboardingRoute))
  }

  /** A submission leaves an account without its profile document exactly
      when the form passed, the account was created and a later step failed;
      every other submission either creates both or neither. */
  lemma OrphanedAccount(form: Form, create: Creation, profile: Step, write: Step, now: string)
    ensures var r := HandleSubmit(form, create, profile, write, now);
      r.account.Some? && r.doc.None? <==>
        ValidatePassword(form.password).None? && form.password == form.confirmPassword
        && create.Created? && !(profile.Ok? && write.Ok?)
    ensures var r := HandleSubmit(form, create, profile, write, now);
      r.account.None? ==> r.doc.None? && r.displayName.None?
  {
  }
}
