/** The user-courses repository (`data/user_courses/repository/UserCoursesRepositoryImpl.kt`):
    which source a page of user courses is read from, when the remote answer is written to the
    cache, and the single-entry cache operations. The cache table is a list of rows keyed by
    course id; `View` is the map a reader of the table observes. */
module UserCourses {
  import opened Common

  /** `UserCourse`: the learner's relation to one course. */
  datatype UserCourse = UserCourse(id: int, course: int, isFavorite: bool, isArchived: bool)

  /** The cache table, in storage order. */
  type Cache = seq<UserCourse>

  /** The cache as a map from course id to its row; the first row of a course wins. */
  function View(c: Cache): (m: map<int, UserCourse>)
    ensures forall i :: 0 <= i < |c| ==> c[i].course in m
    decreases |c|
  {
    if |c| == 0 then map[]
    else
      var rest := View(c[1..]);
      assert forall i :: 1 <= i < |c| ==> c[i] == c[1..][i - 1];
      rest[c[0].course := c[0]]
  }

  /** No course has two rows. */
  predicate WellFormed(c: Cache)
  {
    forall i, j :: 0 <= i < j < |c| ==> c[i].course != c[j].course
  }

  /** Insert-or-replace of one row: the row of the same course is overwritten in place, a new
      course is appended. */
  function SaveOne(c: Cache, u: UserCourse): (r: Cache)
    ensures View(r) == View(c)[u.course := u]
    ensures forall i :: 0 <= i < |r| ==> r[i] in c || r[i] == u
    ensures WellFormed(c) ==> WellFormed(r)
    decreases |c|
  {
    if |c| == 0 then [u]
    else if c[0].course == u.course then
      assert View(c) == View(c[1..])[c[0].course := c[0]];
      [u] + c[1..]
    else
      var rest := SaveOne(c[1..], u);
      assert ([c[0]] + rest)[1..] == rest;
      assert forall i :: 1 <= i < |c| ==> c[i] == c[1..][i - 1];
      [c[0]] + rest
  }

  /** The map the cache is meant to hold after a list of rows is saved, one after another. */
  function UpdateAll(m: map<int, UserCourse>, us: seq<UserCourse>): map<int, UserCourse>
    decreases |us|
  {
    if |us| == 0 then m else UpdateAll(m[us[0].course := us[0]], us[1..])
  }

  /** `saveUserCourses`: every row of the list is saved, in list order. */
  function SaveAll(c: Cache, us: seq<UserCourse>): (r: Cache)
    ensures View(r) == UpdateAll(View(c), us)
    ensures WellFormed(c) ==> WellFormed(r)
    decreases |us|
  {
    if |us| == 0 then c else SaveAll(SaveOne(c, us[0]), us[1..])
  }

  /** After a batch is saved, the cache holds, for every course of the batch, the batch's last
      row for that course. */
  lemma {:induction false} LastSavedWins(m: map<int, UserCourse>, us: seq<UserCourse>, i: int)
    requires 0 <= i < |us|
    requires forall j :: i < j < |us| ==> us[j].course != us[i].course
    ensures us[i].course in UpdateAll(m, us) && UpdateAll(m, us)[us[i].course] == us[i]
    decreases |us|
  {
    if i == 0 {
      UntouchedKeep(m[us[0].course := us[0]], us[1..], us[0].course);
    } else {
      forall j | i - 1 < j < |us| - 1
        ensures us[1..][j].course != us[1..][i - 1].course
      {
        assert us[1..][j] == us[j + 1];
      }
      LastSavedWins(m[us[0].course := us[0]], us[1..], i - 1);
    }
  }

  /** Saving a batch leaves every course the batch does not mention as it was. */
  lemma {:induction false} UntouchedKeep(m: map<int, UserCourse>, us: seq<UserCourse>, k: int)
    requires k in m
    requires forall j :: 0 <= j < |us| ==> us[j].course != k
    ensures k in UpdateAll(m, us) && UpdateAll(m, us)[k] == m[k]
    decreases |us|
  {
    if |us| > 0 {
      assert forall j :: 0 <= j < |us| - 1 ==> us[1..][j] == us[j + 1];
      UntouchedKeep(m[us[0].course := us[0]], us[1..], k);
    }
  }

  /** Every row of the course `id` removed. */
  function Remove(c: Cache, id: int): (r: Cache)
    ensures View(r) == View(c) - {id}
    ensures forall i :: 0 <= i < |r| ==> r[i].course != id && r[i] in c
    ensures WellFormed(c) ==> WellFormed(r)
    decreases |c|
  {
    if |c| == 0 then []
    else
      var rest := Remove(c[1..], id);
      assert View(c) == View(c[1..])[c[0].course := c[0]];
      assert forall i :: 1 <= i < |c| ==> c[i] == c[1..][i - 1];
      if c[0].course == id then rest
      else
        assert ([c[0]] + rest)[1..] == rest;
        [c[0]] + rest
  }

  /** The row of course `id`, if the cache has one. */
  function Lookup(c: Cache, id: int): (r: Option<UserCourse>)
    ensures r.Some? <==> id in View(c)
    ensures r.Some? ==> r.value == View(c)[id] && r.value.course == id
    decreases |c|
  {
    if |c| == 0 then None
    else if c[0].course == id then Some(c[0])
    else Lookup(c[1..], id)
  }

  /** What a repository call answers, and the cache after it. */
  datatype Answer<+T> = Answer(result: Result<T>, cache: Cache)

  /** The list the cache source emits: the whole table as one default page. */
  function CachePage(c: Cache): (p: PagedList<UserCourse>)
    ensures p.list == c && p.page == 1 && !p.hasNext && !p.hasPrev
  {
    SinglePage(c)
  }

  /** `getUserCourses(page, sourceType)`; `remote` is what the remote source answers for the
      page when it is asked. */
  function GetUserCourses(page: int, sourceType: DataSourceType, cache: Cache,
                          remote: Result<PagedList<UserCourse>>): (a: Answer<PagedList<UserCourse>>)
    // the cache source answers from the cache, and nothing is written
    ensures sourceType == Cache ==> a == Answer(Ok(CachePage(cache)), cache)
    // a remote page that arrives is answered and saved
    ensures sourceType == Remote && remote.Ok? ==>
              a.result == remote && View(a.cache) == UpdateAll(View(cache), remote.value.list)
    // a remote failure on the first page falls back to the cache
    ensures sourceType == Remote && remote.Err? && page == 1 ==>
              a == Answer(Ok(CachePage(cache)), cache)
    // on any other page the failure is propagated
    ensures sourceType == Remote && remote.Err? && page != 1 ==>
              a == Answer(Err(remote.error), cache)
    ensures WellFormed(cache) ==> WellFormed(a.cache)
  {
    match sourceType
    case Cache => Answer(Ok(CachePage(cache)), cache)
    case Remote =>
      match remote
      case Ok(p) => Answer(Ok(p), SaveAll(cache, p.list))
      case Err(e) => if page == 1 then Answer(Ok(CachePage(cache)), cache) else Answer(Err(e), cache)
  }

  /** The cache source never looks at the remote answer. */
  lemma CacheSourceIgnoresRemote(page: int, cache: Cache, r1: Result<PagedList<UserCourse>>,
                                 r2: Result<PagedList<UserCourse>>)
    ensures GetUserCourses(page, Cache, cache, r1) == GetUserCourses(page, Cache, cache, r2)
  {
  }

  /** Only a remote failure on a later page reaches the caller as an error. */
  lemma GetUserCoursesFailsOnlyOnLaterPages(page: int, sourceType: DataSourceType, cache: Cache,
                                            remote: Result<PagedList<UserCourse>>)
    ensures GetUserCourses(page, sourceType, cache, remote).result.Err? <==>
              sourceType == Remote && remote.Err? && page != 1
  {
  }

  /** `toggleUserCourse` as written: the completion callback builds the cache write and drops
      it unsubscribed, so a lazily built write never runs and the cache is left as it was. */
  function ToggleUserCourseAsWritten(u: UserCourse, remote: Completion, cache: Cache): (a: Answer<()>)
    ensures remote.Errored? ==> a.result == Err(remote.error)
    ensures remote.Completed? ==> a.result.Ok?
    ensures a.cache == cache
  {
    match remote
    case Errored(e) => Answer(Err(e), cache)
    case Completed => Answer(Ok(()), cache)
  }

  /** The toggle as written loses the row: after toggling a course that has no cached row, a
      read of that course still fails, although the server accepted the toggle. */
  lemma ToggleAsWrittenLosesRow(u: UserCourse)
    ensures GetUserCourse(u.course, ToggleUserCourseAsWritten(u, Completed, []).cache).Err?
    ensures GetUserCourse(u.course, ToggleUserCourse(u, Completed, []).cache) == Ok(u)
  {
  }

  /** `toggleUserCourse` as intended: the row is written to the cache once the remote toggle
      completed (the write chained with `andThen`), and a failed toggle writes nothing. */
  function ToggleUserCourse(u: UserCourse, remote: Completion, cache: Cache): (a: Answer<()>)
    ensures remote.Errored? ==> a == Answer(Err(remote.error), cache)
    ensures remote.Completed? ==> a.result.Ok? && View(a.cache) == View(cache)[u.course := u]
    ensures WellFormed(cache) ==> WellFormed(a.cache)
  {
    match remote
    case Errored(e) => Answer(Err(e), cache)
    case Completed => Answer(Ok(()), SaveAll(cache, [u]))
  }

  /** `addUserCourse`: the row alone is saved. */
  function AddUserCourse(u: UserCourse, cache: Cache): (r: Cache)
    ensures View(r) == View(cache)[u.course := u]
    ensures WellFormed(cache) ==> WellFormed(r)
  {
    SaveAll(cache, [u])
  }

  /** `removeUserCourse`: the course's row is removed, every other row stays. */
  function RemoveUserCourse(courseId: int, cache: Cache): (r: Cache)
    ensures View(r) == View(cache) - {courseId}
    ensures WellFormed(cache) ==> WellFormed(r)
  {
    Remove(cache, courseId)
  }

  /** `getUserCourse`: read from the cache only; a course without a row is an error. */
  function GetUserCourse(courseId: int, cache: Cache): (r: Result<UserCourse>)
    ensures r.Ok? <==> courseId in View(cache)
    ensures r.Ok? ==> r.value == View(cache)[courseId] && r.value.course == courseId
  {
    match Lookup(cache, courseId)
    case Some(u) => Ok(u)
    case None => Err(Error("no user course for the course id"))
  }

  /** A row just added is what a read of its course returns. */
  lemma AddThenGet(u: UserCourse, cache: Cache)
    ensures GetUserCourse(u.course, AddUserCourse(u, cache)) == Ok(u)
  {
  }

  /** A course just removed cannot be read, and the other courses read as before. */
  lemma RemoveThenGet(courseId: int, other: int, cache: Cache)
    requires other != courseId
    ensures GetUserCourse(courseId, RemoveUserCourse(courseId, cache)).Err?
    ensures GetUserCourse(other, RemoveUserCourse(courseId, cache)) == GetUserCourse(other, cache)
  {
  }

  /** A failed toggle leaves every read of the cache as it was. */
  lemma FailedToggleKeepsCache(u: UserCourse, e: Error, cache: Cache, id: int)
    ensures GetUserCourse(id, ToggleUserCourse(u, Errored(e), cache).cache) == GetUserCourse(id, cache)
  {
  }
}
