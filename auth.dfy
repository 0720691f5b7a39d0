/** The signup and login forms: which error message is shown and whether the
    submit button is enabled. A Python string is truthy exactly when it is
    non-empty. */
module AuthForms {
  import opened Wrappers
  import opened EmailValidation

  /** The three messages the signup form can show, in precedence order. */
  datatype SignupError = InvalidEmail | PasswordMismatch | PasswordTooShort

  /** Minimum password length on signup. */
  const MinPasswordLength: nat := 6

  /** The text `st.error` shows for each rule. */
  function Message(e: SignupError): string {
    match e
    case InvalidEmail => "Please enter a valid email address."
    case PasswordMismatch => "Passwords do not match."
    case PasswordTooShort => "Password must be at least 6 characters."
  }

  /** The three texts differ, so the one shown names the rule broken. */
  lemma MessagesDistinct(e1: SignupError, e2: SignupError)
    ensures Message(e1) == Message(e2) <==> e1 == e2
  {
    if e1 != e2 {
      assert |Message(e1)| != |Message(e2)|;
    }
  }

  /** The first applicable signup message, or `None` when none applies. */
  function SignupVerdict(email: string, password: string, verify: string): Option<SignupError> {
    if email != "" && !ValidateEmail(email) then Some(InvalidEmail)
    else if password != "" && verify != "" && password != verify then Some(PasswordMismatch)
    else if password != "" && |password| < MinPasswordLength then Some(PasswordTooShort)
    else None
  }

  /** `error_msg`: the message the signup form shows, or `None`. A shown
      message is never empty, so `if error_msg` displays exactly the text of
      the first broken rule. */
  function ErrorMessage(email: string, password: string, verify: string): (msg: Option<string>)
    ensures msg.None? <==> SignupVerdict(email, password, verify).None?
    ensures msg.Some? ==> msg.value != ""
    ensures forall e :: msg == Some(Message(e)) <==> SignupVerdict(email, password, verify) == Some(e)
  {
    match SignupVerdict(email, password, verify)
    case None => None
    case Some(e) =>
      assert forall e' :: Message(e') == Message(e) <==> e' == e by {
        forall e' { MessagesDistinct(e', e); }
      }
      Some(Message(e))
  }

  /** `can_create`: the Create Account button is enabled. */
  predicate CanCreate(email: string, password: string, verify: string) {
    email != "" && password != "" && verify != "" && ErrorMessage(email, password, verify).None?
  }

  /** The login form's only message is the email format one, so login reuses
      `InvalidEmail` and never yields the two password errors. */
  function LoginVerdict(email: string): Option<SignupError> {
    if email != "" && !ValidateEmail(email) then Some(InvalidEmail) else None
  }

  /** `can_login`: the Log In button is enabled. */
  predicate CanLogin(email: string, password: string) {
    email != "" && password != "" && LoginVerdict(email).None?
  }

  /** Each message is shown exactly when its own rule is broken and no
      earlier rule is. */
  lemma SignupPrecedence(email: string, password: string, verify: string)
    ensures SignupVerdict(email, password, verify) == Some(InvalidEmail)
      <==> email != "" && !ValidateEmail(email)
    ensures SignupVerdict(email, password, verify) == Some(PasswordMismatch)
      <==> (email == "" || ValidateEmail(email)) && password != "" && verify != "" && password != verify
    ensures SignupVerdict(email, password, verify) == Some(PasswordTooShort)
      <==> && (email == "" || ValidateEmail(email))
           && !(password != "" && verify != "" && password != verify)
           && 0 < |password| < MinPasswordLength
    ensures SignupVerdict(email, password, verify) == None
      <==> && (email == "" || ValidateEmail(email))
           && !(password != "" && verify != "" && password != verify)
           && (password == "" || |password| >= MinPasswordLength)
  {
  }

  /** The Create Account button is enabled exactly for a well-formed email and
      two equal passwords of at least six characters. */
  lemma CanCreateIff(email: string, password: string, verify: string)
    ensures CanCreate(email, password, verify)
      <==> ValidateEmail(email) && password == verify && |password| >= MinPasswordLength
  {
    ValidateEmailRejects();
  }

  /** Login has no length or confirmation rule: any non-empty password goes
      with a well-formed email. */
  lemma CanLoginIff(email: string, password: string)
    ensures CanLogin(email, password) <==> ValidateEmail(email) && password != ""
  {
    ValidateEmailRejects();
  }

  /** A matching three-letter password is too short; two six-letter passwords
      that differ are a mismatch; the email message wins over both. */
  lemma SignupExamples()
    ensures SignupVerdict("", "abc", "abc") == Some(PasswordTooShort)
    ensures SignupVerdict("", "abcdef", "abcdeg") == Some(PasswordMismatch)
    ensures SignupVerdict("a@b.c", "abc", "xyz") == Some(InvalidEmail)
    ensures !CanCreate("your.email@example.com", "abc", "abc")
    ensures CanCreate("your.email@example.com", "abcdef", "abcdef")
  {
    ValidateEmailRejects();
    ValidateEmailAccepts();
  }
}
