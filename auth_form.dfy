/** The sign-up and login forms (src/AuthForm.jsx). `validateRegister` is a
    chain of early returns whose only effect is to set the error text; it
    is modelled as a function giving that text, or `None` where the source
    returns `true`. The form fields are always strings. */
module AuthForm {
  import opened Js
  import opened Patterns
  import Server

  datatype FormData = FormData(name: string, email: string, password: string, confirmPassword: string)

  /** The checks of `validateRegister`, in the order they run. */
  datatype Check = AllFieldsFilled | NameLetters | EmailShape | PasswordsMatch | PasswordStrong

  const CheckOrder: seq<Check> := [AllFieldsFilled, NameLetters, EmailShape, PasswordsMatch, PasswordStrong]

  predicate Passes(f: FormData, c: Check) {
    match c
    case AllFieldsFilled => f.name != "" && f.email != "" && f.password != "" && f.confirmPassword != ""
    case NameLetters => NamePattern(f.name)
    case EmailShape => EmailFormat(f.email)
    case PasswordsMatch => f.password == f.confirmPassword
    case PasswordStrong => PasswordPattern(f.password)
  }

  function Message(c: Check): string {
    match c
    case AllFieldsFilled => "All fields are required."
    case NameLetters => "Name can only contain alphabetic characters and spaces."
    case EmailShape => "Please enter a valid email address."
    case PasswordsMatch => "Password and Confirm Password do not match."
    case PasswordStrong => "Password must be 8+ chars and include a letter, number, and symbol."
  }

  /** `validateRegister`: the error it sets, or `None` when it returns true. */
  function ValidateRegister(f: FormData): Option<string> {
    if f.name == "" || f.email == "" || f.password == "" || f.confirmPassword == "" then
      Some("All fields are required.")
    else if !NamePattern(f.name) then
      Some("Name can only contain alphabetic characters and spaces.")
    else if !EmailFormat(f.email) then
      Some("Please enter a valid email address.")
    else if f.password != f.confirmPassword then
      Some("Password and Confirm Password do not match.")
    else if !PasswordPattern(f.password) then
      Some("Password must be 8+ chars and include a letter, number, and symbol.")
    else None
  }

  /** The messages are pairwise distinct, so each names one check. */
  lemma MessagesDistinct(c: Check, d: Check)
    ensures Message(c) == Message(d) <==> c == d
  {
  }

  /** The message shown is that of the first check, in `CheckOrder`, that
      fails. */
  lemma FirstFailingCheckReported(f: FormData, k: nat)
    requires k < |CheckOrder|
    ensures ValidateRegister(f) == Some(Message(CheckOrder[k]))
        <==> !Passes(f, CheckOrder[k]) && forall j :: 0 <= j < k ==> Passes(f, CheckOrder[j])
  {
    var c := CheckOrder[k];
    var first: nat;
    if !Passes(f, AllFieldsFilled) {
      first := 0;
    } else if !Passes(f, NameLetters) {
      first := 1;
    } else if !Passes(f, EmailShape) {
      first := 2;
    } else if !Passes(f, PasswordsMatch) {
      first := 3;
    } else if !Passes(f, PasswordStrong) {
      first := 4;
    } else {
      assert ValidateRegister(f) == None;
      return;
    }
    assert ValidateRegister(f) == Some(Message(CheckOrder[first]));
    MessagesDistinct(CheckOrder[first], c);
    assert CheckOrder[first] == c <==> first == k;
  }

  /** The form is accepted exactly when every check passes. */
  lemma AcceptedIffAllChecksPass(f: FormData)
    ensures ValidateRegister(f) == None <==> forall c :: Passes(f, c)
  {
    if ValidateRegister(f) == None {
      forall c ensures Passes(f, c) {
      }
    } else if Passes(f, AllFieldsFilled) && Passes(f, NameLetters) && Passes(f, EmailShape) && Passes(f, PasswordsMatch) {
      assert !Passes(f, PasswordStrong);
    }
  }

  /** A mismatched confirmation is reported even when the password is
      also weak: matching is checked before strength. */
  lemma MismatchReportedBeforeStrength(f: FormData)
    requires Passes(f, AllFieldsFilled) && NamePattern(f.name) && EmailFormat(f.email)
    requires f.password != f.confirmPassword && !PasswordPattern(f.password)
    ensures ValidateRegister(f) == Some("Password and Confirm Password do not match.")
  {
  }

  /** The register request the form posts: name, e-mail and password. */
  function RegisterPayload(f: FormData): (body: map<string, Js.Json>)
    ensures body.Keys == {"name", "email", "password"}
    ensures body["name"] == JStr(f.name) && body["email"] == JStr(f.email)
      && body["password"] == JStr(f.password)
  {
    map["name" := JStr(f.name), "email" := JStr(f.email), "password" := JStr(f.password)]
  }

  /** A form the client accepts passes all three server checks, so the
      server answers either 409 (address taken) or 201 (registered). */
  lemma ClientAcceptedPassesServerChecks(f: FormData, accounts: seq<Server.Account>)
    requires ValidateRegister(f) == None
    ensures var body := RegisterPayload(f);
      && Server.ValidateNameFormat(Get(body, "name"))
      && Server.ValidateEmailFormat(Get(body, "email"))
      && Server.ValidatePasswordStrength(Get(body, "password"))
    ensures Server.RegisterStatus(Server.Register(accounts, RegisterPayload(f)).response) in {201, 409}
  {
    var body := RegisterPayload(f);
    assert Get(body, "name") == Some(JStr(f.name));
    assert Get(body, "email") == Some(JStr(f.email));
    assert Get(body, "password") == Some(JStr(f.password));
  }

  // ---------------------------------------------------------------------
  // Login submit: the e-mail is checked before anything is sent.

  datatype LoginStep = LoginRejected(message: string) | LoginSent(email: string, password: string)

  function HandleLogin(f: FormData): (r: LoginStep)
    ensures r.LoginSent? <==> EmailFormat(f.email)
    ensures r.LoginSent? ==> r.email == f.email && r.password == f.password
    ensures r.LoginRejected? ==> r.message == Message(EmailShape)
  {
    if !EmailFormat(f.email) then LoginRejected("Please enter a valid email address.")
    else LoginSent(f.email, f.password)
  }
}
