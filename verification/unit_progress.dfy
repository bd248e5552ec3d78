/** The local unit-progress manager (`core/LocalProgressOfUnitManager.java`): when a unit's
    progress is marked passed after one of its steps is passed, and how a unit's progress is
    refreshed from the server. The database is a value; the events posted to the UI bus are
    returned. */
module UnitProgress {
  import opened Common

  /** `Step`: its lesson and whether the learner has passed it locally. */
  datatype Step = Step(id: int, lesson: int, isCustomPassed: bool)

  /** `Unit`: the lesson it wraps and the id of its progress record. */
  datatype Unit = Unit(id: int, lesson: int, progress: string)

  /** `Progress`: the server's record; `score` is the score as text. */
  datatype Progress = Progress(id: string, isPassed: bool, score: string)

  /** The tables the manager reads and writes. */
  datatype Database = Database(steps: seq<Step>, units: seq<Unit>, progresses: map<string, Progress>)

  /** The events posted to the UI bus. */
  datatype Event = UnitProgressUpdate(unitId: int) | UnitScoreUpdate(unitId: int, score: real)

  /** The database after an operation and the event it posted, if any. */
  datatype Effect = Effect(db: Database, event: Option<Event>)

  /** `getStepById`: the first step with the id. */
  function StepById(db: Database, stepId: int): (r: Option<Step>)
    ensures r.None? <==> forall i :: 0 <= i < |db.steps| ==> db.steps[i].id != stepId
    ensures r.Some? ==> r.value in db.steps && r.value.id == stepId
  {
    match FirstIndexWhere(db.steps, (s: Step) => s.id == stepId)
    case None => None
    case Some(i) => Some(db.steps[i])
  }

  /** `getStepsOfLesson`: the lesson's steps, in table order. */
  function StepsOfLesson(steps: seq<Step>, lesson: int): (r: seq<Step>)
    ensures forall s :: s in r <==> s in steps && s.lesson == lesson
    decreases |steps|
  {
    if |steps| == 0 then []
    else if steps[0].lesson == lesson then [steps[0]] + StepsOfLesson(steps[1..], lesson)
    else StepsOfLesson(steps[1..], lesson)
  }

  /** `getUnitByLessonId`: the first unit of the lesson. */
  function UnitByLesson(db: Database, lesson: int): (r: Option<Unit>)
    ensures r.None? <==> forall i :: 0 <= i < |db.units| ==> db.units[i].lesson != lesson
    ensures r.Some? ==> r.value in db.units && r.value.lesson == lesson
  {
    match FirstIndexWhere(db.units, (u: Unit) => u.lesson == lesson)
    case None => None
    case Some(i) => Some(db.units[i])
  }

  /** `getUnitById`: the first unit with the id. */
  function UnitById(db: Database, unitId: int): (r: Option<Unit>)
    ensures r.None? <==> forall i :: 0 <= i < |db.units| ==> db.units[i].id != unitId
    ensures r.Some? ==> r.value in db.units && r.value.id == unitId
  {
    match FirstIndexWhere(db.units, (u: Unit) => u.id == unitId)
    case None => None
    case Some(i) => Some(db.units[i])
  }

  /** Every step of the lesson is passed locally (the reference reading of the guard loop). */
  ghost predicate LessonPassed(db: Database, lesson: int)
  {
    forall s :: s in db.steps && s.lesson == lesson ==> s.isCustomPassed
  }

  /** `markProgressAsPassedIfInDb`: a stored progress record becomes passed; a missing one is
      not created. */
  function MarkPassedIfInDb(progresses: map<string, Progress>, id: string): (r: map<string, Progress>)
    ensures r.Keys == progresses.Keys
    ensures id in r ==> r[id].isPassed && r[id] == progresses[id].(isPassed := true)
    ensures forall k :: k in r && k != id ==> r[k] == progresses[k]
  {
    if id in progresses then progresses[id := progresses[id].(isPassed := true)] else progresses
  }

  /** `checkUnitAsPassed(stepId)`: the unit of the step's lesson is marked passed, and the UI
      told so, only when the step exists, every step of its lesson is passed, and the lesson
      has a unit. */
  method CheckUnitAsPassed(db: Database, stepId: int) returns (e: Effect)
    ensures e.event.Some? <==>
              && StepById(db, stepId).Some?
              && LessonPassed(db, StepById(db, stepId).value.lesson)
              && UnitByLesson(db, StepById(db, stepId).value.lesson).Some?
    ensures e.event.None? ==> e.db == db
    ensures e.event.Some? ==>
              var unit := UnitByLesson(db, StepById(db, stepId).value.lesson).value;
              && e.event.value == UnitProgressUpdate(unit.id)
              && e.db == db.(progresses := MarkPassedIfInDb(db.progresses, unit.progress))
  {
    var step := StepById(db, stepId);
    if step.None? {
      return Effect(db, None);
    }
    var lessonSteps := StepsOfLesson(db.steps, step.value.lesson);
    var i := 0;
    while i < |lessonSteps|
      invariant 0 <= i <= |lessonSteps|
      invariant forall k :: 0 <= k < i ==> lessonSteps[k].isCustomPassed
    {
      if !lessonSteps[i].isCustomPassed {
        assert lessonSteps[i] in db.steps && lessonSteps[i].lesson == step.value.lesson;
        return Effect(db, None);
      }
      i := i + 1;
    }
    assert forall s :: s in lessonSteps ==> s.isCustomPassed;
    var unit := UnitByLesson(db, step.value.lesson);
    if unit.None? {
      return Effect(db, None);
    }
    var progresses := MarkPassedIfInDb(db.progresses, unit.value.progress);
    e := Effect(db.(progresses := progresses), Some(UnitProgressUpdate(unit.value.id)));
  }

  /** What the progress request for a unit produced: an I/O error, or the first progress of
      the answer, which may be null. */
  datatype FetchOutcome = FetchFailed | Fetched(progress: Option<Progress>)

  /** `getScoreOfProgress`: the score of a progress record, when there is one and its text
      parses; `parse` is the client's lenient number parser. */
  function ScoreOfProgress(progress: Option<Progress>, parse: string -> Option<real>): (r: Option<real>)
    ensures progress.None? ==> r.None?
    ensures r.Some? ==> progress.Some? && parse(progress.value.score) == r
    ensures progress.Some? ==> r == parse(progress.value.score)
  {
    match progress
    case None => None
    case Some(p) => parse(p.score)
  }

  /** `updateUnitProgress(unitId)`: a fetched progress is stored (replacing the record with
      the same id), and its score is posted when it parses. `fetch` is the answer to the
      request made for the unit's progress, when the unit exists. */
  function UpdateUnitProgress(db: Database, unitId: int, fetch: FetchOutcome,
                              parse: string -> Option<real>): (e: Effect)
    // a missing unit, an I/O error, or a null progress changes nothing and posts nothing
    ensures UnitById(db, unitId).None? || fetch.FetchFailed? || fetch.progress.None? ==>
              e == Effect(db, None)
    // otherwise the progress is stored, and only the progress table changes
    ensures UnitById(db, unitId).Some? && fetch.Fetched? && fetch.progress.Some? ==>
              var p := fetch.progress.value;
              e.db.steps == db.steps && e.db.units == db.units
              && e.db.progresses.Keys == db.progresses.Keys + {p.id}
              && e.db.progresses[p.id] == p
              && forall k :: k in db.progresses && k != p.id ==> e.db.progresses[k] == db.progresses[k]
    // a score is posted exactly when the stored progress's score parses
    ensures e.event.Some? <==>
              UnitById(db, unitId).Some? && fetch.Fetched? && fetch.progress.Some?
              && parse(fetch.progress.value.score).Some?
    ensures e.event.Some? ==>
              e.event.value == UnitScoreUpdate(unitId, parse(fetch.progress.value.score).value)
  {
    if UnitById(db, unitId).None? then Effect(db, None)
    else
      match fetch
      case FetchFailed => Effect(db, None)
      case Fetched(None) => Effect(db, None)
      case Fetched(Some(p)) =>
        var stored := db.(progresses := db.progresses[p.id := p]);
        match ScoreOfProgress(Some(p), parse)
        case None => Effect(stored, None)
        case Some(score) => Effect(stored, Some(UnitScoreUpdate(unitId, score)))
  }

  /** Marking is idempotent: marking the same record again changes nothing. */
  lemma MarkPassedIdempotent(progresses: map<string, Progress>, id: string)
    ensures MarkPassedIfInDb(MarkPassedIfInDb(progresses, id), id) == MarkPassedIfInDb(progresses, id)
  {
  }
}
