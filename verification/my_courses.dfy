/** The course row of the "my courses" list (`view/adapters/MyCoursesAdapter.java`,
    `getView`): which download indicators a row shows, what its load button does, and where a
    click on the card leads. A course carries two flags, cached and loading; the adapter
    relies on their never both being set. */
module MyCourses {
  import opened Common

  /** `DatabaseManager.Table`: the list the adapter renders. */
  datatype Table = Enrolled | Featured

  /** `View.VISIBLE`, `View.INVISIBLE`, `View.GONE`. */
  datatype Visibility = Visible | Invisible | Gone

  /** The two download flags of a course. */
  datatype LoadState = LoadState(cached: bool, loading: bool)

  /** What the load button does when clicked. */
  datatype LoadAction =
    | RemoveDownload   // the cleaner removes the course's files
    | StartDownload    // the download manager starts fetching the course

  /** The load button and the three indicators of a row, and the action bound to the button
      (none when no listener is set). */
  datatype Row = Row(loadButton: Visibility, preLoad: Visibility, whenLoad: Visibility,
                     afterLoad: Visibility, action: Option<LoadAction>)

  /** The documented invariant: a course is never cached and loading at once. */
  predicate Consistent(s: LoadState)
  {
    !(s.cached && s.loading)
  }

  /** The three download indicators: suggest a download, download in progress, downloaded. */
  datatype Indicator = PreLoad | WhenLoad | AfterLoad

  /** The indicator that is on screen (visible), if exactly one is. */
  function ShownIndicator(r: Row): Option<Indicator>
  {
    if r.preLoad == Visible && r.whenLoad != Visible && r.afterLoad != Visible then Some(PreLoad)
    else if r.preLoad != Visible && r.whenLoad == Visible && r.afterLoad != Visible then Some(WhenLoad)
    else if r.preLoad != Visible && r.whenLoad != Visible && r.afterLoad == Visible then Some(AfterLoad)
    else None
  }

  /** `getView`'s load part for one course of the given table. */
  function BindRow(table: Table, s: LoadState): (r: Row)
    // outside the enrolled list nothing of the download UI takes space
    ensures table != Enrolled ==>
              r.loadButton == Gone && r.preLoad == Gone && r.whenLoad == Gone && r.afterLoad == Gone
    ensures table == Enrolled ==> r.loadButton == Visible
    // in the enrolled list exactly one indicator shows, chosen by the flags
    ensures table == Enrolled && s.cached ==> ShownIndicator(r) == Some(AfterLoad)
    ensures table == Enrolled && !s.cached && s.loading ==> ShownIndicator(r) == Some(WhenLoad)
    ensures table == Enrolled && !s.cached && !s.loading ==> ShownIndicator(r) == Some(PreLoad)
    // the button removes a download, starts one, or (while loading) is not bound
    ensures r.action == Some(RemoveDownload) <==> table == Enrolled && s.cached
    ensures r.action == Some(StartDownload) <==> table == Enrolled && !s.cached && !s.loading
  {
    if table == Enrolled then
      if s.cached then Row(Visible, Gone, Invisible, Visible, Some(RemoveDownload))
      else if s.loading then Row(Visible, Gone, Visible, Gone, None)
      else Row(Visible, Visible, Invisible, Gone, Some(StartDownload))
    else Row(Gone, Gone, Gone, Gone, None)
  }

  /** The flags a load-button action writes. */
  function Apply(action: LoadAction, s: LoadState): (t: LoadState)
    ensures Consistent(t)
    ensures action == RemoveDownload ==> !t.cached && !t.loading
    ensures action == StartDownload ==> !t.cached && t.loading
  {
    match action
    case RemoveDownload => LoadState(false, false)
    case StartDownload => LoadState(false, true)
  }

  /** A click on the load button of a freshly bound row. */
  function Click(table: Table, s: LoadState): (t: LoadState)
    ensures BindRow(table, s).action.None? ==> t == s
    ensures BindRow(table, s).action.Some? ==> Consistent(t)
    // a bound action sets the flags its listener writes
    ensures BindRow(table, s).action.Some? ==> t == Apply(BindRow(table, s).action.value, s)
  {
    match BindRow(table, s).action
    case None => s
    case Some(a) => Apply(a, s)
  }

  /** The flags after `n` clicks on the load button, the row being re-bound after each. */
  function Clicks(table: Table, s: LoadState, n: nat): LoadState
    decreases n
  {
    if n == 0 then s else Clicks(table, Click(table, s), n - 1)
  }

  /** Clicking never produces a course that is cached and loading: from a consistent state
      every sequence of clicks stays consistent. */
  lemma {:induction false} ClicksKeepConsistent(table: Table, s: LoadState, n: nat)
    requires Consistent(s)
    ensures Consistent(Clicks(table, s, n))
    decreases n
  {
    if n > 0 {
      ClicksKeepConsistent(table, Click(table, s), n - 1);
    }
  }

  /** From an idle course, clicks only ever lead to "loading": the download is never cancelled
      from the row, and a course becomes cached only by other means. */
  lemma {:induction false} IdleClicksEndLoading(s: LoadState, n: nat)
    requires !s.cached && !s.loading
    requires n >= 1
    ensures Clicks(Enrolled, s, n) == LoadState(false, true)
    decreases n
  {
    if n > 1 {
      LoadingIsStable(n - 1);
    }
  }

  /** A loading row has no bound action: further clicks change nothing. */
  lemma {:induction false} LoadingIsStable(n: nat)
    ensures Clicks(Enrolled, LoadState(false, true), n) == LoadState(false, true)
    decreases n
  {
    if n > 0 {
      LoadingIsStable(n - 1);
    }
  }

  /** Where a click on the course card leads. */
  datatype Destination = EnrolledDescription | NotEnrolledDescription

  /** The card's click listener: the enrolled description exactly for a non-zero enrollment. */
  function CardDestination(enrollment: int): (d: Destination)
    ensures d == EnrolledDescription <==> enrollment != 0
  {
    if enrollment != 0 then EnrolledDescription else NotEnrolledDescription
  }
}
