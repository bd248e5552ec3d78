/** The auth interactor (`domain/auth/interactor/AuthInteractor.kt`): what each auth flow
    emits, and the analytics event it reports — "registered" when a social account was
    created moments ago, "logged in" otherwise. */
module Auth {
  import opened Common

  datatype Credentials = Credentials(login: string, password: string)

  datatype RegistrationCredentials = RegistrationCredentials(
    firstName: string, lastName: string, email: string, password: string)

  /** The analytics event of a successful auth. */
  datatype AuthEvent = Registered | LoggedIn

  /** What the analytics report is computed from (`domain/auth/model/AuthData`). */
  datatype AuthData =
    | CredentialsData(login: string, password: string, isRegistration: bool)
    | SocialData(socialType: string)

  /** One analytics report: the event and its `source` parameter. */
  datatype Report = Report(event: AuthEvent, source: string)

  /** The profile lookup a social report makes: it failed, or it found an optional user whose
      optional join date is in epoch milliseconds. */
  datatype ProfileLookup = LookupFailed | LookupFound(user: Option<User>)

  datatype User = User(joinDate: Option<int>)

  /** `MINUTES_TO_CONSIDER_REGISTRATION`. */
  const MinutesToConsiderRegistration: int := 5
  /** `AppConstants.MILLIS_IN_1MINUTE`. */
  const MillisInOneMinute: int := 60000
  /** `AmplitudeAnalytic.Auth.VALUE_SOURCE_EMAIL`. */
  const SourceEmail: string := "email"

  /** `reportAuthAnalytics`: the report for one successful auth; `now` is the clock reading. */
  function AnalyticsReport(data: AuthData, now: int, lookup: ProfileLookup): (r: Report)
    // credentials report their own flag, from the e-mail source
    ensures data.CredentialsData? ==>
              r.source == SourceEmail && (r.event == Registered <==> data.isRegistration)
    // social auth reports the provider as source, and "registered" only for a join date
    // strictly less than five minutes before now
    ensures data.SocialData? ==> r.source == data.socialType
    ensures data.SocialData? ==>
              (r.event == Registered <==>
                 lookup.LookupFound? && lookup.user.Some? && lookup.user.value.joinDate.Some?
                 && now - lookup.user.value.joinDate.value < MinutesToConsiderRegistration * MillisInOneMinute)
  {
    match data
    case CredentialsData(_, _, isRegistration) =>
      Report(if isRegistration then Registered else LoggedIn, SourceEmail)
    case SocialData(socialType) =>
      var event :=
        match lookup
        case LookupFailed => LoggedIn
        case LookupFound(user) =>
          if user.Some? && user.value.joinDate.Some? then
            if now - user.value.joinDate.value < MinutesToConsiderRegistration * MillisInOneMinute
            then Registered else LoggedIn
          else LoggedIn;
      Report(event, socialType)
  }

  /** The registration window is strict: a join date exactly five minutes old is a login. */
  lemma RegistrationWindowBoundary(socialType: string, joined: int)
    ensures AnalyticsReport(SocialData(socialType), joined + 5 * 60000,
                            LookupFound(Some(User(Some(joined))))).event == LoggedIn
    ensures AnalyticsReport(SocialData(socialType), joined + 5 * 60000 - 1,
                            LookupFound(Some(User(Some(joined))))).event == Registered
  {
  }

  /** Outcome of a flow that emits a value and, on success, one analytics report. */
  datatype Emission<T> = Emitted(value: T, report: Option<Report>) | Failed(error: Error)

  /** `authWithCredentials`: the password login; on success it emits the very credentials it
      was given and reports a login (never a registration) from the e-mail source. */
  function AuthWithCredentials(credentials: Credentials, auth: Completion): (r: Emission<Credentials>)
    ensures auth.Errored? ==> r == Failed(auth.error)
    ensures auth.Completed? ==> r.Emitted? && r.value == credentials
    ensures r.Emitted? ==> r.report == Some(Report(LoggedIn, SourceEmail))
  {
    match auth
    case Errored(e) => Failed(e)
    case Completed =>
      var data := CredentialsData(credentials.login, credentials.password, false);
      // a credentials report reads neither the clock nor the profile
      Emitted(credentials, Some(AnalyticsReport(data, 0, LookupFailed)))
  }

  /** `authWithNativeCode` and `authWithCode`: a social login; on success it completes and
      reports the provider, and a failing profile lookup never fails the login. */
  function AuthWithSocial(socialType: string, auth: Completion, now: int,
                          lookup: ProfileLookup): (r: Emission<()>)
    ensures auth.Errored? <==> r.Failed?
    ensures auth.Errored? ==> r == Failed(auth.error)
    ensures r.Emitted? ==> r.report.Some? && r.report.value.source == socialType
    ensures r.Emitted? && lookup.LookupFailed? ==> r.report.value.event == LoggedIn
    // a found profile reports a registration exactly when it joined less than five minutes ago
    ensures r.Emitted? ==>
              (r.report.value.event == Registered <==>
                 lookup.LookupFound? && lookup.user.Some? && lookup.user.value.joinDate.Some?
                 && now - lookup.user.value.joinDate.value < MinutesToConsiderRegistration * MillisInOneMinute)
  {
    match auth
    case Errored(e) => Failed(e)
    case Completed => Emitted((), Some(AnalyticsReport(SocialData(socialType), now, lookup)))
  }

  /** `createAccount`: on success it emits the e-mail and password the account was made with,
      and reports nothing. */
  function CreateAccount(credentials: RegistrationCredentials, created: Completion): (r: Emission<Credentials>)
    ensures created.Errored? ==> r == Failed(created.error)
    ensures created.Completed? ==>
              r == Emitted(Credentials(credentials.email, credentials.password), None)
  {
    match created
    case Errored(e) => Failed(e)
    case Completed => Emitted(Credentials(credentials.email, credentials.password), None)
  }

  /** Logging in with the credentials an account was just created with reports a login: the
      password flow never reports a registration. */
  lemma SignUpThenLoginReportsLogin(credentials: RegistrationCredentials)
    ensures var c := CreateAccount(credentials, Completed);
            c.Emitted? &&
            AuthWithCredentials(c.value, Completed)
              == Emitted(Credentials(credentials.email, credentials.password),
                         Some(Report(LoggedIn, SourceEmail)))
  {
  }
}
