# Stepik Android client: decision logic in Dafny

This project models the decision logic of the Stepik Android client. The client is a set
of small, branch-heavy rules spread over its networking, presenter, interactor, repository
and adapter classes. Each rule is written here as a pure function, plus two methods with
loops, over immutable data. The rules are stated and proved in Dafny.

| file | module | models |
|---|---|---|
| `common.dfy` | `Common` | Shared vocabulary: `Option`, Rx-style `Result`/`Completion`, `PagedList`, `DataSourceType`. String helpers with proved contracts: Java and Kotlin `trim`, `split` with its inverse `Join`, `indexOf`, substring search, decimal rendering with its inverse parser. |
| `api.dfy` | `Api` | `web/ApiImpl.java`: token staleness, the `Authorization` value, CSRF extraction from a cookie string, the empty-id sentinel, and the logged-client interceptor as one decision. |
| `login.dfy` | `Login` | `core/presenters/LoginPresenter.kt`: input trimming of the three entry points, and how the answer to a login call is classified. |
| `auth.dfy` | `Auth` | `domain/auth/interactor/AuthInteractor.kt`: what each auth flow emits, and the registered/logged-in analytics event. |
| `step_quiz.dfy` | `StepQuiz` | `domain/step_quiz/interactor/StepQuizInteractor.kt`: attempt resumption, submission selection, polling until evaluation ends, and submission restrictions. |
| `user_courses.dfy` | `UserCourses` | `data/user_courses/repository/UserCoursesRepositoryImpl.kt`: the cache/remote source policy and the cache writes. The cache is a row list whose map view is `View`. |
| `course_list.dfy` | `CourseList` | `domain/course_list/interactor/CourseListInteractor.kt`: the request each entry point sends, and the position-wise zip of courses with their statistics. |
| `store_management.dfy` | `StoreManagement` | `view/fragments/StoreManagementFragment.kt`: whether the clear-cache button is enabled, and its KB/MB label. |
| `my_courses.dfy` | `MyCourses` | `view/adapters/MyCoursesAdapter.java`: the download indicators of a course row, the cached/loading state machine, and the card destination. |
| `unit_progress.dfy` | `UnitProgress` | `core/LocalProgressOfUnitManager.java`: when a unit is marked passed, and how a unit's progress is refreshed. |
| `profile_links.dfy` | `ProfileLinks` | `view/profile_links/ui/delegate/ProfileLinksAdapterDelegate.kt`: provider icons, the click URL, and the view-type test. |
| `highlight.dfy` | `Highlight` | `view/base/ui/widget/block/HighlightScriptBlock.kt`: the `<code` trigger and the constant script header. |

The model is functional throughout.

- **Inputs instead of effects.** Clocks, network answers, the cookie jar and the profile fetch are parameters. The same goes for the score parser, the repositories and the folder sizes.
- **Outputs instead of state changes.** Each store or database is a value the operation returns. So are posted events and requested logouts.
- **Interceptor.** `Api.Intercept` maps everything the interceptor reads to everything it does before the request proceeds: the headers added in order, the session and profile stored, whether the refresh endpoint was called, and whether a logout was requested.

In `ApiImpl.java:204-228` the logout call sits inside the `try` that first reads the error body of a failed refresh. If that read throws, no logout is requested. `Api.Intercept` therefore has an `errorBodyReadable` input.

## Model

| member | source | states |
|---|---|---|
| `Api.NeedsUpdate` | app/src/main/java/org/stepic/droid/web/ApiImpl.java:832-845 | No stored session is never stale. A stored timestamp of -1 is always stale. Otherwise the session is stale iff `now - timestamp > (expires_in - 50) * 1000`. |
| `Api.StalenessBoundary` | app/src/main/java/org/stepic/droid/web/ApiImpl.java:841-844 | The comparison is strict: exactly at the margin the token is fresh, one millisecond later it is stale. |
| `Api.StalenessMonotone` | app/src/main/java/org/stepic/droid/web/ApiImpl.java:176-182 | Once stale, stale at every later clock reading. So the re-check under the writer lock agrees with the first check. |
| `Api.AuthHeaderValue` | app/src/main/java/org/stepic/droid/web/ApiImpl.java:815-830 | `""` exactly when no session is stored. Otherwise the token type, one space, then the access token. |
| `Api.ParsePair` | app/src/main/java/org/stepic/droid/web/ApiImpl.java:389-398 | The name is the trimmed text before the first `=` and the value the trimmed text after it. A pair with no `=`, or whose name trims to nothing, yields no cookie. |
| `Api.CsrfFromCookies` | app/src/main/java/org/stepic/droid/web/ApiImpl.java:400-415 | The value of the first `;`-separated pair named after the CSRF cookie. `""` (never null) when no pair has that name. |
| `Api.CsrfExample` | app/src/main/java/org/stepic/droid/web/ApiImpl.java:400-415 | `sessionid=abc; csrftoken=xyz` yields `xyz`: the first pair does not match, and the second is trimmed before matching. |
| `Api.CourseIdsFilter` | app/src/main/java/org/stepic/droid/web/ApiImpl.java:517-523 | A null or empty id array becomes `[0]`. A non-empty one passes through unchanged. |
| `Api.CourseIdsFilterReactive` | app/src/main/java/org/stepic/droid/web/ApiImpl.java:525-531 | An empty id array becomes `[0]`. A non-empty one passes through unchanged. |
| `Api.CourseIdsFiltersAgree` | app/src/main/java/org/stepic/droid/web/ApiImpl.java:517-531 | Both entry points normalise a present array alike, and normalising is idempotent. |
| `Api.AnonymousDecision` | app/src/main/java/org/stepic/droid/web/ApiImpl.java:150-175 | No token, no refresh, no logout. With no cookie string only the user agent is sent. Cookie, Referer and CSRF headers exactly when a cookie string exists, in the order User-Agent, Cookie, Referer, CSRF. The fetched profile is stored exactly when a cookie string exists and no profile was stored. |
| `Api.SessionDecision` | app/src/main/java/org/stepic/droid/web/ApiImpl.java:176-248 | A fresh session sends its own token and stores nothing. A stale one calls the refresh; a successful body is stored and its token sent; otherwise no token is sent, and a logout is requested only for a read 401 error. |
| `Api.Intercept` | app/src/main/java/org/stepic/droid/web/ApiImpl.java:144-264 | The user agent is always first. The anonymous path adds no token, sends only the user agent when there is no cookie string, adds Cookie/Referer/CSRF exactly when one exists, and stores the fetched profile exactly when a cookie string exists and no profile was stored. The refresh is called iff the session is stale. A fresh session sends its own token. A session is stored iff the refresh body is present and successful, and then its token is sent. A failed refresh sends no token. Logout iff the refresh answer is an unsuccessful 401 whose error body was read. |
| `Api.StaleTokenNeverSent` | app/src/main/java/org/stepic/droid/web/ApiImpl.java:176-248 | For a stale session, any Authorization header carries the refreshed token, and only after a successful refresh. |
| `Api.SuccessfulStatusNeverLogsOut` | app/src/main/java/org/stepic/droid/web/ApiImpl.java:201-224 | A 2xx refresh answer never forces a logout, whatever its body. |
| `Api.CookieBootstrapExample` | app/src/main/java/org/stepic/droid/web/ApiImpl.java:150-175 | An anonymous request with the cookie string `sessionid=abc; csrftoken=xyz` carries exactly User-Agent, Cookie, Referer and the CSRF header `xyz`. |
| `Common.JoinSplit` | app/src/main/java/org/stepic/droid/web/ApiImpl.java:403 | Splitting the cookie string at `;` loses nothing: joining the pieces gives it back. |
| `Login.PrepareLogin` | app/src/main/java/org/stepic/droid/core/presenters/LoginPresenter.kt:22-25 | The login is whitespace-trimmed and the password sent raw. The same pair is the AuthData handed back. |
| `Login.PrepareCodeLogin` | app/src/main/java/org/stepic/droid/core/presenters/LoginPresenter.kt:27-30 | The code is trimmed. The login is social. No AuthData. |
| `Login.PrepareNativeCodeLogin` | app/src/main/java/org/stepic/droid/core/presenters/LoginPresenter.kt:32-37 | The native code is trimmed and the provider type is kept. The login is social. No AuthData. |
| `Login.PrepareLoginStable` | app/src/main/java/org/stepic/droid/core/presenters/LoginPresenter.kt:22-25 | Submitting an already trimmed login again sends the same request. |
| `Login.DoRequest` | app/src/main/java/org/stepic/droid/core/presenters/LoginPresenter.kt:40-75 | Success iff an HTTP success with a body, which is stored along with the given AuthData. A throw, or a success without a body, is a connection problem. 429 is too many attempts, checked first. 401 means "e-mail already used" only for social login. Every other failure is "invalid e-mail/password". Each case is stated in both directions. |
| `Login.PasswordLoginReportsCredentials` | app/src/main/java/org/stepic/droid/core/presenters/LoginPresenter.kt:52-58 | A successful password login hands the view the trimmed login and the raw password. |
| `Login.PasswordLoginNeverEmailUsed` | app/src/main/java/org/stepic/droid/core/presenters/LoginPresenter.kt:64-70 | A password login never yields "e-mail already used". |
| `Auth.AnalyticsReport` | app/src/main/java/org/stepik/android/domain/auth/interactor/AuthInteractor.kt:54-81 | Credentials report their own flag, with source "email". Social auth reports its provider as source, and REGISTERED iff the profile lookup found a join date less than five minutes ago (strict). |
| `Auth.RegistrationWindowBoundary` | app/src/main/java/org/stepik/android/domain/auth/interactor/AuthInteractor.kt:66-74 | A join date exactly five minutes old is a login; one millisecond younger is a registration. |
| `Auth.AuthWithCredentials` | app/src/main/java/org/stepik/android/domain/auth/interactor/AuthInteractor.kt:29-33 | On success it emits exactly the given credentials and reports LOGGED_ID from "email". Otherwise it fails with the auth error. |
| `Auth.AuthWithSocial` | app/src/main/java/org/stepik/android/domain/auth/interactor/AuthInteractor.kt:35-47 | It fails only when the auth fails. On success it reports the provider, and REGISTERED exactly when the profile lookup found a join date less than five minutes before now; LOGGED_ID otherwise, including when the lookup failed. |
| `Auth.CreateAccount` | app/src/main/java/org/stepik/android/domain/auth/interactor/AuthInteractor.kt:49-52 | On success it emits the e-mail and password of the registration, and reports nothing. |
| `Auth.SignUpThenLoginReportsLogin` | app/src/main/java/org/stepik/android/domain/auth/interactor/AuthInteractor.kt:29-52 | Logging in with freshly created credentials emits them and reports a login, never a registration. |
| `StepQuiz.GetAttempt` | app/src/main/java/org/stepik/android/domain/step_quiz/interactor/StepQuizInteractor.kt:25-30 | The first stored attempt if its status is "active". Otherwise (none, or the first is not active) the created attempt. A lookup error propagates. |
| `StepQuiz.ResumedAttemptIsActive` | app/src/main/java/org/stepik/android/domain/step_quiz/interactor/StepQuizInteractor.kt:25-30 | When creation does not yield an active attempt, an active attempt results iff the first stored attempt is active. |
| `StepQuiz.GetSubmission` | app/src/main/java/org/stepik/android/domain/step_quiz/interactor/StepQuizInteractor.kt:36-39 | The first submission of the attempt, or empty exactly when there is none. |
| `StepQuiz.FirstSettled` | app/src/main/java/org/stepik/android/domain/step_quiz/interactor/StepQuizInteractor.kt:44-50 | Reference reading of the poll stream. Polls that find nothing or an evaluating submission are skipped. The first other poll decides, by its error or its non-evaluating first submission. |
| `StepQuiz.CreateSubmission` | app/src/main/java/org/stepik/android/domain/step_quiz/interactor/StepQuizInteractor.kt:41-50 | The submission sent is for the attempt and carries the reply. A creation error is the result. Otherwise the loop's result is the reference reading of the polls. |
| `StepQuiz.PollingStopsAtFirstSettled` | app/src/main/java/org/stepik/android/domain/step_quiz/interactor/StepQuizInteractor.kt:44-50 | If polls `0..k-1` keep waiting and poll `k` does not, poll `k` decides and later polls are ignored. |
| `StepQuiz.GetStepRestrictions` | app/src/main/java/org/stepik/android/domain/step_quiz/interactor/StepQuizInteractor.kt:52-72 | The count is the number of the step's submissions. The limit is the step's maximum if it is restricted, else -1. The policy is the section's, or NoDiscount when the section or policy is absent. |
| `UserCourses.SaveOne` | app/src/main/java/org/stepik/android/data/user_courses/repository/UserCoursesRepositoryImpl.kt:51 | Saving one row updates the map view at its course, and keeps course ids unique. |
| `UserCourses.SaveAll` | app/src/main/java/org/stepik/android/data/user_courses/repository/UserCoursesRepositoryImpl.kt:21-23 | Saving a list gives the map view of the rows applied in list order, and keeps course ids unique. |
| `UserCourses.LastSavedWins` | app/src/main/java/org/stepik/android/data/user_courses/repository/UserCoursesRepositoryImpl.kt:21-23 | After a list is saved, each of its courses holds the list's last row for that course. |
| `UserCourses.UntouchedKeep` | app/src/main/java/org/stepik/android/data/user_courses/repository/UserCoursesRepositoryImpl.kt:21-23 | Saving a list leaves every course it does not mention as it was. |
| `UserCourses.Remove` | app/src/main/java/org/stepik/android/data/user_courses/repository/UserCoursesRepositoryImpl.kt:53-54 | Removing a course deletes exactly that key from the map view. |
| `UserCourses.Lookup` | app/src/main/java/org/stepik/android/data/user_courses/repository/UserCoursesRepositoryImpl.kt:47-48 | Finds a row iff the course is in the map view, and returns that row. |
| `UserCourses.GetUserCourses` | app/src/main/java/org/stepik/android/data/user_courses/repository/UserCoursesRepositoryImpl.kt:20-40 | CACHE answers the cache as one default page and writes nothing. A remote page is answered and saved. A remote error on page 1 falls back to the cache. On any other page the error propagates. |
| `UserCourses.CacheSourceIgnoresRemote` | app/src/main/java/org/stepik/android/data/user_courses/repository/UserCoursesRepositoryImpl.kt:29-31 | With CACHE, the answer does not depend on the remote at all. |
| `UserCourses.GetUserCoursesFailsOnlyOnLaterPages` | app/src/main/java/org/stepik/android/data/user_courses/repository/UserCoursesRepositoryImpl.kt:33-38 | An error reaches the caller iff the source is remote, the remote failed, and the page is not 1. |
| `UserCourses.ToggleUserCourseAsWritten` | app/src/main/java/org/stepik/android/data/user_courses/repository/UserCoursesRepositoryImpl.kt:42-45 | As written: the error of a failed toggle is passed on, a completed toggle succeeds, and the cache is never changed, because the write built in `doOnComplete` is dropped unsubscribed. |
| `UserCourses.ToggleAsWrittenLosesRow` | app/src/main/java/org/stepik/android/data/user_courses/repository/UserCoursesRepositoryImpl.kt:42-45 | After a completed toggle of an uncached course, the as-written version still has no row for it; the intended version reads back the toggled row. |
| `UserCourses.ToggleUserCourse` | app/src/main/java/org/stepik/android/data/user_courses/repository/UserCoursesRepositoryImpl.kt:42-45 | As intended: the row is written, as an insert-or-replace by course id, only after the remote toggle completes. A failure leaves the cache untouched. |
| `UserCourses.AddUserCourse` | app/src/main/java/org/stepik/android/data/user_courses/repository/UserCoursesRepositoryImpl.kt:50-51 | Adding a row updates exactly its course in the map view. |
| `UserCourses.RemoveUserCourse` | app/src/main/java/org/stepik/android/data/user_courses/repository/UserCoursesRepositoryImpl.kt:53-54 | Removal is by course id, and every other course stays. |
| `UserCourses.GetUserCourse` | app/src/main/java/org/stepik/android/data/user_courses/repository/UserCoursesRepositoryImpl.kt:47-48 | Reads the cache only. Succeeds iff the course has a row, and returns that row. |
| `UserCourses.AddThenGet` | app/src/main/java/org/stepik/android/data/user_courses/repository/UserCoursesRepositoryImpl.kt:47-51 | A row just added is what reading its course returns. |
| `UserCourses.RemoveThenGet` | app/src/main/java/org/stepik/android/data/user_courses/repository/UserCoursesRepositoryImpl.kt:47-54 | A removed course reads as an error, and other courses read as before. |
| `UserCourses.FailedToggleKeepsCache` | app/src/main/java/org/stepik/android/data/user_courses/repository/UserCoursesRepositoryImpl.kt:42-45 | After a failed toggle, every read of the cache is unchanged. |
| `CourseList.SavedCoursesRequest` | app/src/main/java/org/stepik/android/domain/course_list/interactor/CourseListInteractor.kt:26-28 | Saved courses are requested by their ids with CACHE as the primary source. |
| `CourseList.ObtainCourseListItems` | app/src/main/java/org/stepik/android/domain/course_list/interactor/CourseListInteractor.kt:40-55 | One item per course, item i pairing course i with statistics i, and page/hasNext/hasPrev copied. It succeeds iff the statistics arrived and are at least as many as the courses. |
| `CourseList.ZipUnzip` | app/src/main/java/org/stepik/android/domain/course_list/interactor/CourseListInteractor.kt:40-55 | The items give back the courses in order, and the leading statistics they were paired with. |
| `CourseList.GetCourseListItems` | app/src/main/java/org/stepik/android/domain/course_list/interactor/CourseListInteractor.kt:36-38 | A repository error propagates. A fetched page is zipped with the statistics fetched for that page, so item i pairs course i with statistics entry i; the result is an error only when the statistics fail or run short. Items keep the page's paging metadata. |
| `CourseList.GetCourseListItemsByIds` | app/src/main/java/org/stepik/android/domain/course_list/interactor/CourseListInteractor.kt:30-31 | The courses are fetched by id from the repository's default source. Its error propagates; a fetched page is zipped with the statistics fetched for it. |
| `CourseList.GetCourseListItemsByQuery` | app/src/main/java/org/stepik/android/domain/course_list/interactor/CourseListInteractor.kt:33-34 | The courses are fetched for the query. Its error propagates; a fetched page is zipped with the statistics fetched for it. |
| `CourseList.OverloadsShareZip` | app/src/main/java/org/stepik/android/domain/course_list/interactor/CourseListInteractor.kt:30-38 | Both overloads go through the same zip: the same page of courses gives the same items. |
| `StoreManagement.SetUpClearCacheButton` | app/src/main/java/org/stepic/droid/view/fragments/StoreManagementFragment.kt:141-166 | Enabled iff the two folder sizes sum above 0, else the "empty" label. Above 1024 KB the label is a numeral n plus the MB suffix, with n·1024 ≤ total < (n+1)·1024. Otherwise it is the exact total plus the KB suffix. The numeral has no leading zeros. |
| `StoreManagement.LabelsStayInRange` | app/src/main/java/org/stepic/droid/view/fragments/StoreManagementFragment.kt:150-159 | An MB label never shows 0, and a KB label shows 1 to 1024. |
| `StoreManagement.MegabyteBoundary` | app/src/main/java/org/stepic/droid/view/fragments/StoreManagementFragment.kt:152-159 | 1024 KB is labelled `1024` + KB, and 1025 KB is `1` + MB. |
| `Common.ParseNatToString` | app/src/main/java/org/stepic/droid/view/fragments/StoreManagementFragment.kt:154 | The decimal rendering of a size reads back as that size. |
| `MyCourses.BindRow` | app/src/main/java/org/stepic/droid/view/adapters/MyCoursesAdapter.java:95-154 | Outside the enrolled table the button and all indicators are gone. In it the button is visible and exactly one indicator shows: after-load if cached, progress if loading, pre-load otherwise. The button removes the download iff cached, and starts one iff idle. |
| `MyCourses.Apply` | app/src/main/java/org/stepic/droid/view/adapters/MyCoursesAdapter.java:105-144 | Removing sets both flags false. Starting sets loading and clears cached. |
| `MyCourses.Click` | app/src/main/java/org/stepic/droid/view/adapters/MyCoursesAdapter.java:102-146 | A click with no bound action changes nothing. A bound action writes the flags its listener sets: removing a download clears both flags, starting one sets loading only. Either way the flags stay consistent. |
| `MyCourses.ClicksKeepConsistent` | app/src/main/java/org/stepic/droid/view/adapters/MyCoursesAdapter.java:97-101 | From a consistent state, no sequence of clicks produces cached ∧ loading. |
| `MyCourses.IdleClicksEndLoading` | app/src/main/java/org/stepic/droid/view/adapters/MyCoursesAdapter.java:120-146 | Clicking an idle course any positive number of times leaves it loading and not cached. |
| `MyCourses.LoadingIsStable` | app/src/main/java/org/stepic/droid/view/adapters/MyCoursesAdapter.java:121-127 | A loading row has no action, so clicks leave it as it is. |
| `MyCourses.CardDestination` | app/src/main/java/org/stepic/droid/view/adapters/MyCoursesAdapter.java:84-93 | The card opens the enrolled description iff `enrollment != 0`. |
| `UnitProgress.MarkPassedIfInDb` | app/src/main/java/org/stepic/droid/core/LocalProgressOfUnitManager.java:49 | A stored progress record becomes passed. A missing one is not created. Other records are unchanged. |
| `UnitProgress.CheckUnitAsPassed` | app/src/main/java/org/stepic/droid/core/LocalProgressOfUnitManager.java:35-62 | The unit is marked and its update event posted iff the step exists, every step of its lesson is custom-passed, and the lesson has a unit. Otherwise the database is unchanged. |
| `UnitProgress.ScoreOfProgress` | app/src/main/java/org/stepic/droid/core/LocalProgressOfUnitManager.java:94-99 | No progress gives no score. A present progress gives exactly what parsing its score text gives. |
| `UnitProgress.UpdateUnitProgress` | app/src/main/java/org/stepic/droid/core/LocalProgressOfUnitManager.java:64-92 | A missing unit, an I/O error or a null progress changes nothing. Otherwise the progress is stored by id and nothing else changes. A score event for the unit is posted iff the score parses. |
| `UnitProgress.MarkPassedIdempotent` | app/src/main/java/org/stepic/droid/core/LocalProgressOfUnitManager.java:49 | Marking the same record twice is marking it once. |
| `ProfileLinks.ResolveProfileLinkDrawable` | app/src/main/java/org/stepik/android/view/profile_links/ui/delegate/ProfileLinksAdapterDelegate.kt:38-50 | facebook, instagram, twitter and vk each get their icon iff the provider is exactly that string. Every other provider gets the web icon. |
| `ProfileLinks.DistinctProvidersDistinctIcons` | app/src/main/java/org/stepik/android/view/profile_links/ui/delegate/ProfileLinksAdapterDelegate.kt:38-50 | Two different providers share an icon only when both are unknown and get the web icon. |
| `ProfileLinks.CapitalisedProviderIsWeb` | app/src/main/java/org/stepik/android/view/profile_links/ui/delegate/ProfileLinksAdapterDelegate.kt:38-50 | Matching is case-sensitive: `Facebook` and `VK` get the web icon. |
| `ProfileLinks.ClickUrl` | app/src/main/java/org/stepik/android/view/profile_links/ui/delegate/ProfileLinksAdapterDelegate.kt:29 | A click passes the bound item's URL, or `""` when no item is bound. |
| `ProfileLinks.IsForViewType` | app/src/main/java/org/stepik/android/view/profile_links/ui/delegate/ProfileLinksAdapterDelegate.kt:16-17 | The delegate accepts every item at every position. |
| `Highlight.IsEnabled` | app/src/main/java/org/stepik/android/view/base/ui/widget/block/HighlightScriptBlock.kt:9-10 | Enabled iff `<code` occurs in the content as a substring. |
| `Highlight.EmptyIsNotEnabled` | app/src/main/java/org/stepik/android/view/base/ui/widget/block/HighlightScriptBlock.kt:9-10 | Empty content is never enabled. |
| `Highlight.EnabledWidens` | app/src/main/java/org/stepik/android/view/base/ui/widget/block/HighlightScriptBlock.kt:9-10 | Text added before or after enabled content keeps it enabled. |
| `Highlight.UpperCaseTagIsNotEnabled` | app/src/main/java/org/stepik/android/view/base/ui/widget/block/HighlightScriptBlock.kt:9-10 | The test is case-sensitive: `<CODE>` alone is not enabled. |

`Highlight.Header` is a constant, the trim-indented script header of lines 4-7. Being a constant, it cannot depend on the content.

## Findings

| source | as written | input that shows it | evidently intended | confidence | as-written member | corrected member |
|---|---|---|---|---|---|---|
| app/src/main/java/org/stepik/android/data/user_courses/repository/UserCoursesRepositoryImpl.kt:45 | `.doOnComplete { userCoursesCacheDataSource.saveUserCourses(listOf(userCourse)) }` builds the cache write as a `Completable` and drops it without subscribing, so the write does not run when the cache source builds it lazily, as the profile cache source does with `Completable.fromAction` | toggle a course that has no cached row, with the server accepting the toggle: `getUserCourse` for that course still fails | `.andThen(userCoursesCacheDataSource.saveUserCourses(listOf(userCourse)))`, so the toggled row is cached once the server accepted it | medium, not executed: the user-course cache source is not part of this model, and its laziness is inferred from the other cache sources | `UserCourses.ToggleUserCourseAsWritten` | `UserCourses.ToggleUserCourse` |

## Left out

- Network and cookie plumbing is not modelled:
  - OkHttp/Retrofit client construction and the Gson converters.
  - The web-view `CookieManager` and the anonymous bootstrap call `updateCookieForBaseUrl`; the cookie string they produce is an input.
  - Saving `Set-Cookie` headers from the response.
  - The user-agent provider; its value is configuration.
- Concurrency is not modelled:
  - The `RWLocks.AuthLock` read/write upgrade and downgrade, and the "one refresh in flight" guarantee. The interceptor's re-check under the writer lock is taken to see the same store and clock; `Api.StalenessMonotone` shows a later clock cannot make it disagree.
  - Rx scheduling, the one-second polling interval, and the thread pool and main handler. Polls are a finite sequence of answers.
- Exceptions the source lets escape are not modelled. Such a call fails or crashes instead of returning:
  - An `IOException` from the anonymous bootstrap call `updateCookieForBaseUrl` (`ApiImpl.java:157`, declared at line 800). It propagates out of the interceptor; the model only has a present or absent cookie string.
  - An `IOException` from the cookie-authenticated profile fetch in the anonymous path. It propagates out of the interceptor; the model only has a present or absent profile body.
  - A null body, or an empty progress list, in `updateUnitProgress`. `.body().getProgresses().get(0)` throws there; only `IOException` is caught.
- Api.ParsePair: the model reads a pair with no `=`, or with an empty name, as "no cookie". `HttpCookie.parse` throws for such a pair, and the exception escapes from `getCsrfTokenFromCookies` and the interceptor.
  - Also left out of `HttpCookie.parse`: its quote stripping, cookie attributes, `set-cookie:` prefixes, version-1 comma lists, and reserved-name checks.
  - The split keeps trailing empty pieces, which Java's `split` drops. This changes nothing, because an empty piece never matches.
- Api.CsrfFromCookies: inherits the `Api.ParsePair` simplification above.
- Api.NeedsUpdate: does not model the integer width of `(expires_in - 50) * 1000`. The declared type of `expires_in` is not part of this model; with 32-bit arithmetic the product would wrap for very long lifetimes.
- StoreManagement.SetUpClearCacheButton: does not model 64-bit overflow of the summed folder sizes.
  - Folder sizing (`FileUtil`) is file-system I/O, so the sizes are inputs.
  - The label resources are parameters.
- MyCourses.Click: describes a freshly inflated row. A recycled row view keeps the click listener of an earlier bind, because the loading and non-enrolled branches do not clear it; such a stale listener is not modelled.
  - The cleaner, the download manager, the database write and `notifyDataSetChanged` are side effects, reduced to the flags they set.
- UserCourses.GetUserCourses: the cache source is taken to always succeed, and a failing cache write is not modelled. The cache data source is not part of this model; it is assumed to insert or replace rows keyed by course id, and to list rows in storage order.
- CourseList.GetCourseListItemsByIds: the repository's default primary source for a by-id request is not part of this model, so it is left abstract as "no source given".
- UnitProgress.UpdateUnitProgress: score parsing (`StringUtil.safetyParseString`, to a floating-point `Double`) is an abstract parser.
  - `DatabaseManager` is not part of this model. Its lookups are taken as "first row that matches", and `addProgress` as insert-or-replace by progress id.
- The following are left out as side-effect collaborators: analytics, Timber logging, Toasts, screen navigation, the logout manager's internals and social SDK logouts. A requested logout is a flag of `Api.Intercept`'s decision.
- Basic credentials (section 2 of RFC 7617) and URL encoding are computed inside library calls, so they are not modelled.
- `StepQuizInteractor.createAttempt` only delegates to the repository, so it is not modelled.
- Constants defined outside the files modelled here are assumed:
  - `AppConstants.MILLIS_IN_1MINUTE` = 60000.
  - `AmplitudeAnalytic.Auth.VALUE_SOURCE_EMAIL` = `"email"`.
  - The default metadata of `PagedList(list)` is page 1, with no next or previous page.
  - The header names are an enumeration.
  - The `Submission.Status` and `DiscountingPolicyType` values are enumerations.
