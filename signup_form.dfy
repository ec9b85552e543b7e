/** The sign-up form of frontend/src/components/SignupForm.tsx: the
    password checks made before any request, then sign-up, automatic login
    with the e-mail as user name, and the stored token. */
module SignupForm {
  import opened Wrappers
  import opened Strings
  import opened ErrorHandler
  import opened Client
  import AuthStore

  /** The data of a successful login. */
  datatype LoginData = LoginData(accessToken: string)

  const Mismatch := "Passwords do not match"
  const TooShort := "Password must be at least 6 characters"
  const DashboardPath := "/dashboard"

  /** Why the form is refused before sending, if it is: the two passwords
      are compared first, then the length in UTF-16 code units. */
  function PasswordProblem(password: string, confirmPassword: string): Option<string> {
    if password != confirmPassword then Some(Mismatch)
    else if Utf16Length(password) < 6 then Some(TooShort)
    else None
  }

  /** The form is sent exactly when the passwords match and are at least six
      code units long; a mismatch is reported whatever the length; any six
      characters pass. */
  lemma PasswordRules(password: string, confirmPassword: string)
    ensures PasswordProblem(password, confirmPassword).None? <==>
      password == confirmPassword && Utf16Length(password) >= 6
    ensures password != confirmPassword ==> PasswordProblem(password, confirmPassword) == Some(Mismatch)
    ensures password == confirmPassword && Utf16Length(password) < 6 ==>
      PasswordProblem(password, confirmPassword) == Some(TooShort)
    ensures password == confirmPassword && |password| >= 6 ==> PasswordProblem(password, confirmPassword).None?
  {
  }

  class SignupFormState {
    var fullName: string
    var email: string
    var password: string
    var confirmPassword: string
    var error: string
    var loading: bool
    var navigations: seq<string>

    constructor (fullName: string, email: string, password: string, confirmPassword: string)
      ensures this.fullName == fullName && this.email == email
      ensures this.password == password && this.confirmPassword == confirmPassword
      ensures error == "" && !loading && navigations == []
    {
      this.fullName, this.email, this.password, this.confirmPassword := fullName, email, password, confirmPassword;
      error, loading, navigations := "", false, [];
    }

    /** `handleSignup`: the error is cleared first; a refused password sets
        its message and sends nothing; otherwise sign-up is posted, then the
        login with the e-mail as user name, and the token is stored before
        moving to the dashboard. A failed request keeps its error text. */
    method HandleSignup(store: AuthStore.SessionStore, signupReply: Response<()>, loginReply: Response<LoginData>)
      returns (requests: seq<Request>)
      modifies this, store
      ensures PasswordProblem(password, confirmPassword).Some? ==>
        && requests == [] && error == PasswordProblem(password, confirmPassword).value
        && store.items == old(store.items) && loading == old(loading) && navigations == old(navigations)
      ensures PasswordProblem(password, confirmPassword).None? ==>
        && !loading
        && (signupReply.Failure? ==>
              requests == [SignupRequest(fullName, email, password)]
              && error == GetErrorMessage(signupReply.error)
              && store.items == old(store.items) && navigations == old(navigations))
        && (signupReply.Success? ==>
              requests == [SignupRequest(fullName, email, password), LoginRequest(email, password)])
        && (signupReply.Success? && loginReply.Failure? ==>
              error == GetErrorMessage(loginReply.error)
              && store.items == old(store.items) && navigations == old(navigations))
        && (signupReply.Success? && loginReply.Success? ==>
              && error == ""
              && store.items == (if store.hasWindow
                                 then old(store.items)[AuthStore.TokenKey := loginReply.data.accessToken]
                                 else old(store.items))
              && navigations == old(navigations) + [DashboardPath])
      ensures fullName == old(fullName) && email == old(email)
      ensures password == old(password) && confirmPassword == old(confirmPassword)
    {
      error := "";
      requests := [];
      if password != confirmPassword {
        error := Mismatch;
        return;
      }
      if Utf16Length(password) < 6 {
        error := TooShort;
        return;
      }
      loading := true;
      requests := [SignupRequest(fullName, email, password)];
      match signupReply {
        case Failure(err) =>
          error := GetErrorMessage(err);
        case Success(_) =>
          requests := requests + [LoginRequest(email, password)];
          match loginReply {
            case Failure(err) =>
              error := GetErrorMessage(err);
            case Success(data) =>
              store.SetToken(data.accessToken);
              navigations := navigations + [DashboardPath];
          }
      }
      loading := false;
    }
  }
}
