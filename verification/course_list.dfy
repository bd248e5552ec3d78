/** The course-list interactor (`domain/course_list/interactor/CourseListInteractor.kt`):
    which request each entry point sends to the course repository, and how a page of courses
    is zipped, position by position, with the statistics fetched for it. */
module CourseList {
  import opened Common

  /** `Course`; only its id matters here. */
  datatype Course = Course(id: int)

  /** What `CourseStatsInteractor.getCourseStats` yields for one course; kept opaque. */
  datatype CourseStats = CourseStats(course: int, review: Option<int>, learnersCount: int)

  /** `CourseListItem.Data`: a course with its statistics. */
  datatype Item = Item(course: Course, courseStats: CourseStats)

  /** A request to the course repository: courses by ids, with an optional primary source
      (none means the repository's default), or by a catalogue query. */
  datatype CoursesRequest =
    | ByIds(ids: seq<int>, primarySource: Option<DataSourceType>)
    | ByQuery(query: string)

  /** The repository and the statistics interactor, as the answers they give. */
  type Repository = CoursesRequest -> Result<PagedList<Course>>
  type StatsSource = PagedList<Course> -> Result<seq<CourseStats>>

  /** `getSavedCourses(courseIds)`: the saved courses are read from the cache first. */
  function SavedCoursesRequest(courseIds: seq<int>): (q: CoursesRequest)
    ensures q.ByIds? && q.ids == courseIds && q.primarySource == Some(Cache)
  {
    ByIds(courseIds, Some(Cache))
  }

  /** `obtainCourseListItem`: item i pairs course i with statistics entry i, and the paging
      metadata is copied. Reading a statistics entry past the end of the list throws inside
      the mapping, which reaches the caller as an error. */
  function ObtainCourseListItems(courses: PagedList<Course>, stats: Result<seq<CourseStats>>)
    : (r: Result<PagedList<Item>>)
    ensures stats.Err? ==> r == Err(stats.error)
    ensures stats.Ok? ==> (r.Ok? <==> |courses.list| <= |stats.value|)
    ensures r.Ok? ==> |r.value.list| == |courses.list|
    ensures r.Ok? ==> forall i :: 0 <= i < |r.value.list| ==>
                        r.value.list[i] == Item(courses.list[i], stats.value[i])
    ensures r.Ok? ==> r.value.page == courses.page && r.value.hasNext == courses.hasNext
                      && r.value.hasPrev == courses.hasPrev
  {
    match stats
    case Err(e) => Err(e)
    case Ok(s) =>
      if |courses.list| <= |s| then
        Ok(PagedList(Zip(courses.list, s), courses.page, courses.hasNext, courses.hasPrev))
      else Err(Error("course statistics index out of bounds"))
  }

  /** Position-wise pairing of the courses with the first `|courses|` statistics. */
  function Zip(courses: seq<Course>, stats: seq<CourseStats>): (items: seq<Item>)
    requires |courses| <= |stats|
    ensures |items| == |courses|
    ensures forall i :: 0 <= i < |items| ==> items[i] == Item(courses[i], stats[i])
  {
    seq(|courses|, i requires 0 <= i < |courses| => Item(courses[i], stats[i]))
  }

  function Courses(items: seq<Item>): (cs: seq<Course>)
    ensures |cs| == |items| && forall i :: 0 <= i < |items| ==> cs[i] == items[i].course
  {
    seq(|items|, i requires 0 <= i < |items| => items[i].course)
  }

  function Stats(items: seq<Item>): (ss: seq<CourseStats>)
    ensures |ss| == |items| && forall i :: 0 <= i < |items| ==> ss[i] == items[i].courseStats
  {
    seq(|items|, i requires 0 <= i < |items| => items[i].courseStats)
  }

  /** The zip loses nothing: the items give back the courses in order, and the statistics
      they were paired with. */
  lemma ZipUnzip(courses: PagedList<Course>, stats: seq<CourseStats>)
    requires |courses.list| <= |stats|
    ensures var r := ObtainCourseListItems(courses, Ok(stats));
            r.Ok? && Courses(r.value.list) == courses.list
            && Stats(r.value.list) == stats[..|courses.list|]
  {
  }

  /** The shared tail of both `getCourseListItems` overloads: fetch the page, then zip it
      with the statistics fetched for it. */
  function GetCourseListItems(request: CoursesRequest, repo: Repository, statsOf: StatsSource)
    : (r: Result<PagedList<Item>>)
    ensures repo(request).Err? ==> r == Err(repo(request).error)
    ensures r.Ok? ==> repo(request).Ok? && Courses(r.value.list) == repo(request).value.list
    ensures r.Ok? ==> r.value.page == repo(request).value.page
                      && r.value.hasNext == repo(request).value.hasNext
                      && r.value.hasPrev == repo(request).value.hasPrev
    // a fetched page is zipped with the statistics fetched for that very page
    ensures repo(request).Ok? ==>
              r == ObtainCourseListItems(repo(request).value, statsOf(repo(request).value))
  {
    match repo(request)
    case Err(e) => Err(e)
    case Ok(courses) => ObtainCourseListItems(courses, statsOf(courses))
  }

  /** `getCourseListItems(vararg courseId)`: the ids go to the repository's default source. */
  function GetCourseListItemsByIds(courseIds: seq<int>, repo: Repository, statsOf: StatsSource)
    : (r: Result<PagedList<Item>>)
    ensures r.Ok? ==> repo(ByIds(courseIds, None)).Ok?
                      && Courses(r.value.list) == repo(ByIds(courseIds, None)).value.list
    ensures repo(ByIds(courseIds, None)).Err? ==> r == Err(repo(ByIds(courseIds, None)).error)
    ensures repo(ByIds(courseIds, None)).Ok? ==>
              r == ObtainCourseListItems(repo(ByIds(courseIds, None)).value,
                                         statsOf(repo(ByIds(courseIds, None)).value))
  {
    GetCourseListItems(ByIds(courseIds, None), repo, statsOf)
  }

  /** `getCourseListItems(courseListQuery)`. */
  function GetCourseListItemsByQuery(query: string, repo: Repository, statsOf: StatsSource)
    : (r: Result<PagedList<Item>>)
    ensures r.Ok? ==> repo(ByQuery(query)).Ok? && Courses(r.value.list) == repo(ByQuery(query)).value.list
    ensures repo(ByQuery(query)).Err? ==> r == Err(repo(ByQuery(query)).error)
    ensures repo(ByQuery(query)).Ok? ==>
              r == ObtainCourseListItems(repo(ByQuery(query)).value, statsOf(repo(ByQuery(query)).value))
  {
    GetCourseListItems(ByQuery(query), repo, statsOf)
  }

  /** The two overloads differ only in the request: for the same page of courses they give the
      same items. */
  lemma OverloadsShareZip(courseIds: seq<int>, query: string, repo: Repository, statsOf: StatsSource)
    requires repo(ByIds(courseIds, None)) == repo(ByQuery(query))
    ensures GetCourseListItemsByIds(courseIds, repo, statsOf)
            == GetCourseListItemsByQuery(query, repo, statsOf)
  {
  }
}
