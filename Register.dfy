/** The registration form of src/components/Auth/Register.jsx: the field
    handlers and the ordered password checks run before the sign-up call.
    The sign-up itself is outside the model; `HandleSubmit` returns the call
    it would make. */
module RegisterPage {
  import opened Wrappers

  datatype FormData = FormData(email: string, password: string, confirmPassword: string, username: string)

  const MismatchMessage := "Les mots de passe ne correspondent pas"
  const TooShortMessage := "Le mot de passe doit contenir au moins 6 caractères"
  const MinPasswordLength := 6

  /** The first failing check, in the order the form runs them: the two
      entries must match, then the password needs at least six characters. */
  function PasswordProblem(password: string, confirmPassword: string): (problem: Option<string>)
    ensures problem == Some(MismatchMessage) <==> password != confirmPassword
    ensures problem == Some(TooShortMessage) <==> password == confirmPassword && |password| < MinPasswordLength
    ensures problem.None? <==> password == confirmPassword && |password| >= MinPasswordLength
  {
    if password != confirmPassword then Some(MismatchMessage)
    else if |password| < MinPasswordLength then Some(TooShortMessage)
    else None
  }

  /** When both checks fail the mismatch is the one reported. */
  lemma MismatchReportedFirst(password: string, confirmPassword: string)
    requires password != confirmPassword && |password| < MinPasswordLength
    ensures PasswordProblem(password, confirmPassword) == Some(MismatchMessage)
  {
  }

  /** Six characters are enough: the length check is strict. */
  lemma SixCharactersAccepted(password: string)
    requires |password| == 6
    ensures PasswordProblem(password, password).None?
  {
  }

  /** The arguments of the sign-up call: the username is not passed. */
  datatype SignUpCall = SignUpCall(email: string, password: string)

  class Register {
    var form: FormData
    var passwordError: string

    constructor()
      ensures form == FormData("", "", "", "") && passwordError == ""
    {
      form := FormData("", "", "", "");
      passwordError := "";
    }

    /** `handleSubmit`: on a failed check the message is shown and no call is
      made; otherwise the message is cleared and sign-up is called with the
      e-mail and the password. */
    method HandleSubmit() returns (call: Option<SignUpCall>)
      modifies this`passwordError
      ensures call.Some? <==> PasswordProblem(form.password, form.confirmPassword).None?
      ensures call.Some? ==> call.value == SignUpCall(form.email, form.password) && passwordError == ""
      ensures call.None? ==> passwordError == PasswordProblem(form.password, form.confirmPassword).value
    {
      if form.password != form.confirmPassword {
        passwordError := MismatchMessage;
        return None;
      }
      if |form.password| < MinPasswordLength {
        passwordError := TooShortMessage;
        return None;
      }
      passwordError := "";
      call := Some(SignUpCall(form.email, form.password));
    }

    method SetUsername(value: string)
      modifies this`form
      ensures form == old(form).(username := value)
    {
      form := form.(username := value);
    }

    method SetEmail(value: string)
      modifies this`form
      ensures form == old(form).(email := value)
    {
      form := form.(email := value);
    }

    method SetPassword(value: string)
      modifies this`form
      ensures form == old(form).(password := value)
    {
      form := form.(password := value);
    }

    method SetConfirmPassword(value: string)
      modifies this`form
      ensures form == old(form).(confirmPassword := value)
    {
      form := form.(confirmPassword := value);
    }
  }
}
