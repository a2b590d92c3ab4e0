/** Sign-up and sign-in on both front ends. There is no credential check
    anywhere: an account is found by exact email, and the "password hash"
    stored at sign-up is the password itself. */

/** Email lookups shared by the four screens. */
module Accounts {
  import opened Wrappers
  import opened Entities
  import Seqs

  function HasEmail(email: string): User -> bool {
    (u: User) => u.email == Some(email)
  }

  /** `users.some(u => u.email === email)`: exact, case-sensitive. */
  predicate EmailTaken(users: seq<User>, email: string) {
    Seqs.Exists(users, HasEmail(email))
  }

  /** `users.find(u => u.email === email)`. */
  function AccountFor(users: seq<User>, email: string): (r: Option<User>)
    ensures r.None? <==> !EmailTaken(users, email)
    ensures r.Some? ==> r.value.email == Some(email)
    ensures r.Some? ==> exists i :: 0 <= i < |users| && users[i] == r.value
                                    && forall j :: 0 <= j < i ==> users[j].email != Some(email)
  {
    Seqs.Find(users, HasEmail(email))
  }

  /** The sign-up form of both front ends. */
  datatype SignUpForm = SignUpForm(email: string, password: string, firstName: string,
                                   lastName: string, university: string)

  /** `{...formData, passwordHash: formData.password}`. */
  datatype NewUser = NewUser(email: string, password: string, firstName: string, lastName: string,
                             university: string, passwordHash: string)

  function NewUserFrom(f: SignUpForm): (r: NewUser)
    ensures r.passwordHash == f.password
    ensures r.email == f.email && r.password == f.password && r.firstName == f.firstName
            && r.lastName == f.lastName && r.university == f.university
  {
    NewUser(f.email, f.password, f.firstName, f.lastName, f.university, f.password)
  }
}

/** frontend-web/src/pages/Register.js, `handleSubmit`. */
module WebRegister {
  import opened Wrappers
  import opened Entities
  import opened Accounts

  const DuplicateEmail := "Email already registered"
  const DefaultFailure := "Registration failed. Please try again."

  /** `Registered` carries the request posted and the account the server
      returned, which becomes the signed-in user. */
  datatype Outcome = Rejected(message: string) | Registered(request: NewUser, signedIn: User) | Failed(message: string)

  function FailureText(message: string): string {
    if message != "" then message else DefaultFailure
  }

  function Submit(form: SignUpForm, users: Fetch<seq<User>>, created: Fetch<User>): (r: Outcome)
    ensures users.Fetched? && EmailTaken(users.value, form.email) ==> r == Rejected(DuplicateEmail)
    ensures r.Registered? <==> users.Fetched? && !EmailTaken(users.value, form.email) && created.Fetched?
    ensures r.Registered? ==> r.request == NewUserFrom(form) && r.request.passwordHash == form.password
                              && r.signedIn == created.value
    ensures users.FetchFailed? ==> r == Failed(FailureText(users.message))
    ensures users.Fetched? && !EmailTaken(users.value, form.email) && created.FetchFailed? ==>
      r == Failed(FailureText(created.message))
    ensures r.Failed? ==>
      (users.FetchFailed? && r.message == FailureText(users.message))
      || (created.FetchFailed? && r.message == FailureText(created.message))
    ensures r.Failed? ==> r.message != ""
  {
    match users
    case FetchFailed(m) => Failed(FailureText(m))
    case Fetched(all) =>
      if EmailTaken(all, form.email) then Rejected(DuplicateEmail)
      else
        match created
        case FetchFailed(m) => Failed(FailureText(m))
        case Fetched(u) => Registered(NewUserFrom(form), u)
  }
}

/** frontend-mobile/app/register.js, `handleRegister`. */
module MobileRegister {
  import opened Wrappers
  import opened Js
  import opened Text
  import opened Entities
  import opened Accounts

  /** The parts of an axios error the handler reads. */
  datatype ErrorResponse = ErrorResponse(dataMessage: Option<string>, statusText: string, status: nat)
  datatype AxiosError = AxiosError(message: string, code: Option<string>, response: Option<ErrorResponse>)

  datatype Remote<+T> = Ok(value: T) | Err(error: AxiosError)

  /** The alert text chosen in the `catch` block. The connection message
      embeds the attempted URL and troubleshooting steps; it is kept as a
      tag here. */
  datatype Failure = CannotConnect | ServerFailure(text: string) | OtherFailure(text: string)

  /** The classification, branch for branch. */
  function Classify(e: AxiosError): (r: Failure)
    ensures r.CannotConnect? <==>
      e.message == "Network Error" || e.code == Some("ECONNREFUSED") || e.code == Some("ERR_NETWORK")
      || e.response.None?
    ensures r.ServerFailure? ==>
      var resp := e.response.value;
      r.text == (if TextTruthy(resp.dataMessage) then resp.dataMessage.value
                 else if resp.statusText != "" then resp.statusText
                 else "Server error: " + Decimal(resp.status))
    ensures !r.OtherFailure?
  {
    if e.message == "Network Error" || e.code == Some("ECONNREFUSED") || e.code == Some("ERR_NETWORK")
       || e.response.None? then
      CannotConnect
    else if e.response.Some? then
      var resp := e.response.value;
      ServerFailure(if TextTruthy(resp.dataMessage) then resp.dataMessage.value
                    else if resp.statusText != "" then resp.statusText
                    else "Server error: " + Decimal(resp.status))
    else if e.message != "" then
      OtherFailure(e.message)
    else
      OtherFailure("Registration failed")
  }

  /** A server reply always yields a non-empty alert text. */
  lemma ServerFailureNonEmpty(e: AxiosError)
    requires Classify(e).ServerFailure?
    ensures Classify(e).text != ""
  {
    var resp := e.response.value;
    if !TextTruthy(resp.dataMessage) && resp.statusText == "" {
      assert Classify(e).text[0] == 'S';
    }
  }

  const MissingFields := "Please fill in all fields"
  const DuplicateEmail := "Email already registered"

  datatype Outcome =
    | Rejected(message: string)
    | Registered(request: NewUser, signedIn: User)
    | Failed(failure: Failure)

  predicate AllFilled(f: SignUpForm) {
    f.email != "" && f.password != "" && f.firstName != "" && f.lastName != "" && f.university != ""
  }

  /** An empty field stops everything before any request; a taken email
      stops before the account is created. */
  function HandleRegister(form: SignUpForm, users: Remote<seq<User>>, created: Remote<User>): (r: Outcome)
    ensures !AllFilled(form) ==> r == Rejected(MissingFields)
    ensures AllFilled(form) && users.Ok? && EmailTaken(users.value, form.email) ==> r == Rejected(DuplicateEmail)
    ensures r.Registered? <==>
      AllFilled(form) && users.Ok? && !EmailTaken(users.value, form.email) && created.Ok?
    ensures r.Registered? ==> r.request == NewUserFrom(form) && r.request.passwordHash == form.password
                              && r.signedIn == created.value
    ensures AllFilled(form) && users.Err? ==> r == Failed(Classify(users.error))
    ensures AllFilled(form) && users.Ok? && !EmailTaken(users.value, form.email) && created.Err? ==>
      r == Failed(Classify(created.error))
    ensures r.Failed? ==> !r.failure.OtherFailure?
  {
    if !AllFilled(form) then Rejected(MissingFields)
    else
      match users
      case Err(e) => Failed(Classify(e))
      case Ok(all) =>
        if EmailTaken(all, form.email) then Rejected(DuplicateEmail)
        else
          match created
          case Err(e) => Failed(Classify(e))
          case Ok(u) => Registered(NewUserFrom(form), u)
  }
}

/** frontend-web/src/pages/Login.js, `handleSubmit`. */
module WebLogin {
  import opened Wrappers
  import opened Entities
  import opened Accounts

  const NoAccount := "Invalid email or password"
  const DefaultFailure := "Login failed. Please try again."

  datatype Outcome = SignedIn(user: User) | LoginError(message: string)

  /** The first account with exactly this email is signed in; the password
      plays no part. */
  function Submit(users: Fetch<seq<User>>, email: string, password: string): (r: Outcome)
    ensures r.SignedIn? <==> users.Fetched? && EmailTaken(users.value, email)
    ensures r.SignedIn? ==> Some(r.user) == AccountFor(users.value, email)
    ensures users.Fetched? && !EmailTaken(users.value, email) ==> r == LoginError(NoAccount)
    ensures users.FetchFailed? ==>
      r == LoginError(if users.message != "" then users.message else DefaultFailure)
  {
    match users
    case FetchFailed(m) => LoginError(if m != "" then m else DefaultFailure)
    case Fetched(all) =>
      match AccountFor(all, email)
      case None => LoginError(NoAccount)
      case Some(u) => SignedIn(u)
  }

  /** Any password signs in the same account. */
  lemma PasswordIgnored(users: Fetch<seq<User>>, email: string, p1: string, p2: string)
    ensures Submit(users, email, p1) == Submit(users, email, p2)
  {
  }
}

/** frontend-mobile/app/login.js, `handleLogin`. */
module MobileLogin {
  import opened Wrappers
  import opened Entities
  import opened Accounts

  const MissingFields := "Please fill in all fields"
  const NoAccount := "Invalid email or password"
  const DefaultFailure := "Login failed"

  datatype Outcome = SignedIn(user: User) | LoginError(message: string)

  /** Empty fields are refused before any lookup; otherwise the first
      account with exactly this email is signed in, whatever the password. */
  function HandleLogin(users: Fetch<seq<User>>, email: string, password: string): (r: Outcome)
    ensures email == "" || password == "" ==> r == LoginError(MissingFields)
    ensures r.SignedIn? <==> email != "" && password != "" && users.Fetched? && EmailTaken(users.value, email)
    ensures r.SignedIn? ==> Some(r.user) == AccountFor(users.value, email)
    ensures email != "" && password != "" && users.Fetched? && !EmailTaken(users.value, email) ==>
      r == LoginError(NoAccount)
    ensures email != "" && password != "" && users.FetchFailed? ==>
      r == LoginError(if users.message != "" then users.message else DefaultFailure)
  {
    if email == "" || password == "" then LoginError(MissingFields)
    else
      match users
      case FetchFailed(m) => LoginError(if m != "" then m else DefaultFailure)
      case Fetched(all) =>
        match AccountFor(all, email)
        case None => LoginError(NoAccount)
        case Some(u) => SignedIn(u)
  }

  /** Two non-empty passwords sign in the same account. */
  lemma PasswordIgnored(users: Fetch<seq<User>>, email: string, p1: string, p2: string)
    requires p1 != "" && p2 != ""
    ensures HandleLogin(users, email, p1) == HandleLogin(users, email, p2)
  {
  }
}

/** The two front ends' sign-up and sign-in flows compared. */
module FlowsAgree {
  import opened Wrappers
  import opened Entities
  import opened Accounts
  import WebRegister
  import MobileRegister
  import WebLogin
  import MobileLogin

  /** With every field filled and both requests answered, the web and mobile
      sign-ups register the same request and sign in the same account, or
      both refuse the same taken email. */
  lemma RegisterFlowsAgree(form: SignUpForm, users: seq<User>, created: User)
    requires MobileRegister.AllFilled(form)
    ensures var web := WebRegister.Submit(form, Fetched(users), Fetched(created));
            var mobile := MobileRegister.HandleRegister(form, MobileRegister.Ok(users), MobileRegister.Ok(created));
            && (web.Registered? <==> mobile.Registered?)
            && (web.Registered? ==> web.request == mobile.request && web.signedIn == mobile.signedIn)
            && (web.Rejected? <==> mobile.Rejected?)
            && (web.Rejected? ==> web.message == mobile.message)
  {
  }

  /** With both fields filled, the web and mobile sign-ins sign in the same
      account, and refuse an unknown email with the same text. */
  lemma LoginFlowsAgree(users: Fetch<seq<User>>, email: string, password: string)
    requires email != "" && password != ""
    ensures var web := WebLogin.Submit(users, email, password);
            var mobile := MobileLogin.HandleLogin(users, email, password);
            && (web.SignedIn? <==> mobile.SignedIn?)
            && (web.SignedIn? ==> web.user == mobile.user)
            && (users.Fetched? && web.LoginError? ==> mobile.LoginError? && web.message == mobile.message)
  {
  }
}
