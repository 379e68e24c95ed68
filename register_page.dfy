/** The sign-up page: five text fields, a completeness check, a password
    confirmation, and the call that registers the new user with the session
    service. */
module RegisterPage {
  import opened Wrappers
  import opened Text
  import opened Models
  import Session

  const DefaultPromo := "A1"

  /** How a submission ends: the toast shown, or the navigation home. */
  datatype Outcome = MissingFields | PasswordsDiffer | Refused | Registered

  /** `validateForm()`: every name and the email must be non-empty once
      trimmed, and the two password fields non-empty as typed. */
  predicate Complete(firstName: string, lastName: string, email: string, password: string, confirm: string)
  {
    Trim(firstName) != "" && Trim(lastName) != "" && Trim(email) != "" && password != "" && confirm != ""
  }

  /** The record `onSubmit` hands to `register`: trimmed names and email,
      the password as typed, the default promo, id 0 (the service replaces
      it) and nothing else. */
  function Applicant(firstName: string, lastName: string, email: string, password: string): (r: User)
    ensures r.firstName == Trim(firstName) && r.lastName == Trim(lastName) && r.email == Trim(email)
    ensures r.password == Some(password) && r.promo == Some(DefaultPromo)
    ensures r.id == 0 && r.avatarUrl.None? && r.description.None? && r.links.None?
  {
    User(0, Trim(email), Some(password), Trim(firstName), Trim(lastName), Some(DefaultPromo), None, None, None)
  }

  /** A complete form yields an applicant whose names and email carry no
      white space at either end and are not empty. */
  lemma CompleteApplicantIsClean(firstName: string, lastName: string, email: string, password: string, confirm: string)
    requires Complete(firstName, lastName, email, password, confirm)
    ensures var u := Applicant(firstName, lastName, email, password);
      && u.firstName != "" && !IsSpace(u.firstName[0]) && !IsSpace(u.firstName[|u.firstName| - 1])
      && u.lastName != "" && !IsSpace(u.lastName[0]) && !IsSpace(u.lastName[|u.lastName| - 1])
      && u.email != "" && !IsSpace(u.email[0]) && !IsSpace(u.email[|u.email| - 1])
      && u.password.Some? && u.password.value != ""
  {
  }

  class RegisterForm {
    var firstName: string
    var lastName: string
    var email: string
    var password: string
    var confirmPassword: string

    constructor ()
      ensures firstName == "" && lastName == "" && email == "" && password == "" && confirmPassword == ""
    {
      firstName, lastName, email, password, confirmPassword := "", "", "", "", "";
    }

    /** `validateForm()`: false exactly when a required field is empty
        (a name or the email counting as empty when it is all white space). */
    function ValidateForm(): (r: bool)
      reads this
      ensures !r <==> IsBlank(firstName) || IsBlank(lastName) || IsBlank(email) || password == "" || confirmPassword == ""
    {
      Complete(firstName, lastName, email, password, confirmPassword)
    }

    /** `onSubmit()` with `Date.now()` passed in as `now`: an incomplete
        form and differing passwords stop before the service is called and
        change nothing; otherwise the applicant is registered, and the page
        goes home only if the service accepted it. An accepted applicant is
        then the session and can log in with the trimmed email and the
        password as typed. */
    method OnSubmit(auth: Session.AuthService, now: int) returns (outcome: Outcome)
      modifies auth
      ensures outcome == MissingFields <==> !ValidateForm()
      ensures outcome == PasswordsDiffer <==> ValidateForm() && password != confirmPassword
      ensures outcome in {MissingFields, PasswordsDiffer} ==> unchanged(auth)
      ensures outcome == Refused <==>
        ValidateForm() && password == confirmPassword && Session.EmailTaken(old(auth.Users()), Trim(email))
      ensures outcome == Refused ==> unchanged(auth)
      ensures outcome == Registered ==>
        var u := Applicant(firstName, lastName, email, password).(id := now);
        && auth.storedUsers == Some(old(auth.Users()) + [u])
        && auth.currentUser == Some(Session.Redact(u))
        && Session.FindLogin(auth.Users(), Trim(email), password) == Some(|old(auth.Users())|)
    {
      if !ValidateForm() {
        return MissingFields;
      }
      if password != confirmPassword {
        return PasswordsDiffer;
      }
      var applicant := Applicant(firstName, lastName, email, password);
      var success := auth.Register(applicant, now);
      if success {
        Session.RegisterThenLogin(old(auth.Users()), applicant.(id := now), password);
        outcome := Registered;
      } else {
        outcome := Refused;
      }
    }
  }
}
