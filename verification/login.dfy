/** The login presenter (`core/presenters/LoginPresenter.kt`): how the three login entry
    points prepare their call, and how the answer to that call is classified into a stored
    session or a failure reason shown to the user. */
module Login {
  import opened Common
  import Api

  /** The entry point's kind; it changes how a 401 is read. */
  datatype LoginType = Social | LoginPassword

  /** The failure reasons the view can show (`LoginFailType`). */
  datatype LoginFailType = ConnectionProblem | TooManyAttempts | EmailAlreadyUsed | EmailPasswordInvalid

  /** Credentials handed back to the view after a password login (`model/AuthData`). */
  datatype AuthData = AuthData(login: string, password: string)

  /** The token request a login entry point sends. */
  datatype AuthCall =
    | PasswordCall(login: string, password: string)
    | CodeCall(code: string)
    | NativeCodeCall(code: string, socialType: string)

  /** What executing the call produced: it threw, or an HTTP answer with an optional body. */
  datatype CallOutcome =
    | CallThrew
    | CallAnswered(successful: bool, code: int, body: Option<Api.AuthSession>)

  /** The presenter's verdict: a session to store and the data for the view, or a reason. */
  datatype LoginOutcome =
    | LoginSucceeded(stored: Api.AuthSession, authData: Option<AuthData>)
    | LoginFailed(reason: LoginFailType)

  /** A prepared login: the call, the data reported on success, and the entry point's kind. */
  datatype Attempt = Attempt(call: AuthCall, authData: Option<AuthData>, loginType: LoginType)

  const TooManyRequestsCode: int := 429
  const UnauthorizedCode: int := 401

  /** Kotlin's `String.trim()`. */
  function KotlinTrim(s: string): string
  {
    Trim(s, IsKotlinWhitespace)
  }

  /** `s` has no whitespace at either end. */
  predicate IsTrimmed(s: string)
  {
    |s| > 0 ==> !IsKotlinWhitespace(s[0]) && !IsKotlinWhitespace(s[|s| - 1])
  }

  /** `t` is `raw` with only whitespace removed around it. */
  ghost predicate IsTrimmedFrom(raw: string, t: string)
  {
    exists k :: 0 <= k <= |raw| - |t| && IsTrimOf(raw, IsKotlinWhitespace, k, t)
  }

  /** `login(rawLogin, rawPassword)`: the login is trimmed, the password is sent untouched,
      and the same pair is what the view receives on success. */
  function PrepareLogin(rawLogin: string, rawPassword: string): (a: Attempt)
    ensures a.call.PasswordCall? && a.loginType == LoginPassword
    ensures a.call.password == rawPassword
    ensures IsTrimmed(a.call.login) && IsTrimmedFrom(rawLogin, a.call.login)
    ensures a.authData == Some(AuthData(a.call.login, a.call.password))
  {
    var login := KotlinTrim(rawLogin);
    Attempt(PasswordCall(login, rawPassword), Some(AuthData(login, rawPassword)), LoginPassword)
  }

  /** `loginWithCode(rawCode)`: the code is trimmed; no credentials go back to the view. */
  function PrepareCodeLogin(rawCode: string): (a: Attempt)
    ensures a.call.CodeCall? && a.loginType == Social && a.authData.None?
    ensures IsTrimmed(a.call.code) && IsTrimmedFrom(rawCode, a.call.code)
  {
    Attempt(CodeCall(KotlinTrim(rawCode)), None, Social)
  }

  /** `loginWithNativeProviderCode(nativeCode, type)`: as the code login, for a provider's SDK code. */
  function PrepareNativeCodeLogin(nativeCode: string, socialType: string): (a: Attempt)
    ensures a.call.NativeCodeCall? && a.call.socialType == socialType
    ensures a.loginType == Social && a.authData.None?
    ensures IsTrimmed(a.call.code) && IsTrimmedFrom(nativeCode, a.call.code)
  {
    Attempt(NativeCodeCall(KotlinTrim(nativeCode), socialType), None, Social)
  }

  /** Trimming is stable: a trimmed login submitted again is sent as is. */
  lemma PrepareLoginStable(rawLogin: string, rawPassword: string)
    ensures PrepareLogin(PrepareLogin(rawLogin, rawPassword).call.login, rawPassword)
            == PrepareLogin(rawLogin, rawPassword)
  {
    TrimIdempotent(rawLogin, IsKotlinWhitespace);
  }

  /** `doRequest`: classify the answer to a login call. */
  function DoRequest(outcome: CallOutcome, authData: Option<AuthData>, loginType: LoginType): (o: LoginOutcome)
    // success exactly for an HTTP success that carries a body; the body is stored as is
    ensures o.LoginSucceeded? <==> outcome.CallAnswered? && outcome.successful && outcome.body.Some?
    ensures o.LoginSucceeded? ==> o.stored == outcome.body.value && o.authData == authData
    // a throw, or an HTTP success without a body, is a connection problem
    ensures o == LoginFailed(ConnectionProblem) <==>
              outcome.CallThrew? || (outcome.successful && outcome.body.None?)
    // 429 wins over every other failure code, for either kind of login
    ensures o == LoginFailed(TooManyAttempts) <==>
              outcome.CallAnswered? && !outcome.successful && outcome.code == TooManyRequestsCode
    // 401 means the e-mail is taken only for a social login
    ensures o == LoginFailed(EmailAlreadyUsed) <==>
              outcome.CallAnswered? && !outcome.successful && outcome.code == UnauthorizedCode
              && loginType == Social
    // every other failed answer reads as bad credentials
    ensures o == LoginFailed(EmailPasswordInvalid) <==>
              outcome.CallAnswered? && !outcome.successful && outcome.code != TooManyRequestsCode
              && !(outcome.code == UnauthorizedCode && loginType == Social)
  {
    match outcome
    case CallThrew => LoginFailed(ConnectionProblem)
    case CallAnswered(successful, code, body) =>
      if successful then
        if body.Some? then LoginSucceeded(body.value, authData) else LoginFailed(ConnectionProblem)
      else if code == TooManyRequestsCode then LoginFailed(TooManyAttempts)
      else if code == UnauthorizedCode && loginType == Social then LoginFailed(EmailAlreadyUsed)
      else LoginFailed(EmailPasswordInvalid)
  }

  /** A password login that succeeds hands the view the trimmed login and the raw password. */
  lemma PasswordLoginReportsCredentials(rawLogin: string, rawPassword: string, s: Api.AuthSession)
    ensures var a := PrepareLogin(rawLogin, rawPassword);
            DoRequest(CallAnswered(true, 200, Some(s)), a.authData, a.loginType)
            == LoginSucceeded(s, Some(AuthData(KotlinTrim(rawLogin), rawPassword)))
  {
  }

  /** A password login never reads a 401 as "e-mail already used". */
  lemma PasswordLoginNeverEmailUsed(outcome: CallOutcome, authData: Option<AuthData>)
    ensures DoRequest(outcome, authData, LoginPassword) != LoginFailed(EmailAlreadyUsed)
  {
  }
}
