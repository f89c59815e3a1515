/** The home page: the courses it lists under the enrolled/all and level filters, its
    level buttons and counters, and the per-course progress and exam status it loads
    for the user's enrollments. */
module HomePage {
  import opened Wrappers
  import opened Sequences
  import opened CoursesService

  datatype CourseFilter = AllCourses | EnrolledOnly

  /** The level filter's value that selects every level. */
  const AllLevels := "all"

  /** `coursesToShow`. */
  function CoursesToShow(filter: CourseFilter, allCourses: seq<Course>, enrolled: seq<Course>): (r: seq<Course>)
    ensures filter == EnrolledOnly ==> r == enrolled
    ensures filter == AllCourses ==> r == allCourses
  {
    if filter == EnrolledOnly then enrolled else allCourses
  }

  predicate MatchesLevel(level: string, c: Course) {
    level == AllLevels || c.nivel == level
  }

  /** `filteredCourses`: the courses of the selected level, or all of them. */
  function FilteredCourses(courses: seq<Course>, level: string): (r: seq<Course>)
    ensures |r| <= |courses|
    ensures forall i :: 0 <= i < |r| ==> MatchesLevel(level, r[i])
    ensures forall c :: c in r <==> c in courses && MatchesLevel(level, c)
  {
    if courses == [] then []
    else
      var init := courses[..|courses| - 1];
      var last := courses[|courses| - 1];
      assert courses == init + [last];
      FilteredCourses(init, level) + if MatchesLevel(level, last) then [last] else []
  }

  /** Filtering keeps the order: it distributes over concatenation. */
  lemma {:induction false} FilteredCoursesAppend(a: seq<Course>, b: seq<Course>, level: string)
    ensures FilteredCourses(a + b, level) == FilteredCourses(a, level) + FilteredCourses(b, level)
    decreases |b|
  {
    if b == [] {
      assert a + b == a;
    } else {
      var init := b[..|b| - 1];
      assert (a + b)[..|a + b| - 1] == a + init;
      assert (a + b)[|a + b| - 1] == b[|b| - 1];
      FilteredCoursesAppend(a, init, level);
    }
  }

  /** With the level "all" nothing is filtered out. */
  lemma {:induction false} AllLevelsKeepsEverything(courses: seq<Course>)
    ensures FilteredCourses(courses, AllLevels) == courses
  {
    if courses != [] {
      var init := courses[..|courses| - 1];
      AllLevelsKeepsEverything(init);
      assert courses == init + [courses[|courses| - 1]];
    }
  }

  function Nivel(c: Course): string { c.nivel }

  /** `levels`: "all" followed by each level of the listed courses once, in order of
      first occurrence. */
  function Levels(courses: seq<Course>): (r: seq<string>)
    ensures |r| >= 1 && r[0] == AllLevels
    ensures forall x :: x in r[1..] <==> exists i :: 0 <= i < |courses| && courses[i].nivel == x
    ensures NoDuplicates(r[1..])
    ensures forall i, j :: 1 <= i < j < |r| ==>
      r[i] in Map(Nivel, courses) && r[j] in Map(Nivel, courses) &&
      FirstIndex(Map(Nivel, courses), r[i]) < FirstIndex(Map(Nivel, courses), r[j])
  {
    var levels := Distinct(Map(Nivel, courses));
    assert forall x :: x in Map(Nivel, courses) <==> exists i :: 0 <= i < |courses| && courses[i].nivel == x;
    assert ([AllLevels] + levels)[1..] == levels;
    LevelsInFirstOccurrenceOrder(Map(Nivel, courses));
    [AllLevels] + levels
  }

  /** The distinct levels behind "all" keep the order of their first occurrence. */
  lemma LevelsInFirstOccurrenceOrder(levels: seq<string>)
    ensures forall i, j :: 1 <= i < j < |[AllLevels] + Distinct(levels)| ==>
      ([AllLevels] + Distinct(levels))[i] in levels && ([AllLevels] + Distinct(levels))[j] in levels &&
      FirstIndex(levels, ([AllLevels] + Distinct(levels))[i]) < FirstIndex(levels, ([AllLevels] + Distinct(levels))[j])
  {
    var r := [AllLevels] + Distinct(levels);
    forall i, j | 1 <= i < j < |r|
      ensures r[i] in levels && r[j] in levels && FirstIndex(levels, r[i]) < FirstIndex(levels, r[j])
    {
      assert r[i] == Distinct(levels)[i - 1] && r[j] == Distinct(levels)[j - 1];
      DistinctFirstOccurrenceOrder(levels, i - 1, j - 1);
    }
  }

  /** Every level button but "all" selects at least one listed course. */
  lemma LevelButtonsSelectSomething(courses: seq<Course>, k: nat)
    requires 1 <= k < |Levels(courses)|
    ensures |FilteredCourses(courses, Levels(courses)[k])| > 0
  {
    var x := Levels(courses)[k];
    assert x in Levels(courses)[1..] by { assert Levels(courses)[1..][k - 1] == x; }
    var i :| 0 <= i < |courses| && courses[i].nivel == x;
    assert courses[i] in FilteredCourses(courses, x);
  }

  /** Total video minutes of the courses: the `reduce` behind `stats.totalHours`. */
  function TotalMinutes(courses: seq<Course>): int {
    if courses == [] then 0 else TotalMinutes(courses[..|courses| - 1]) + courses[|courses| - 1].duracionVideoMinutos
  }

  datatype Stats = Stats(totalCourses: nat, enrolledCourses: nat, totalHours: int, avgRating: real)

  /** `stats`. The rating is a placeholder: 4.5 whenever there are courses. */
  function ComputeStats(allCourses: seq<Course>, enrolled: seq<Course>): (s: Stats)
    ensures s.totalCourses == |allCourses| && s.enrolledCourses == |enrolled|
    ensures s.totalHours == TotalMinutes(allCourses)
    ensures s.avgRating == 4.5 <==> |allCourses| > 0
    ensures s.avgRating == 0.0 <==> |allCourses| == 0
  {
    Stats(|allCourses|, |enrolled|, TotalMinutes(allCourses), if |allCourses| > 0 then 4.5 else 0.0)
  }

  /** The minutes of two lists add up. */
  lemma {:induction false} TotalMinutesAppend(a: seq<Course>, b: seq<Course>)
    ensures TotalMinutes(a + b) == TotalMinutes(a) + TotalMinutes(b)
    decreases |b|
  {
    if b == [] {
      assert a + b == a;
    } else {
      var init := b[..|b| - 1];
      assert (a + b)[..|a + b| - 1] == a + init;
      TotalMinutesAppend(a, init);
    }
  }

  /** Courses of non-negative length give a non-negative total. */
  lemma {:induction false} TotalMinutesNonNegative(courses: seq<Course>)
    requires forall i :: 0 <= i < |courses| ==> courses[i].duracionVideoMinutos >= 0
    ensures TotalMinutes(courses) >= 0
  {
    if courses != [] {
      TotalMinutesNonNegative(courses[..|courses| - 1]);
    }
  }

  /** The course shown for an enrollment: its embedded course, active, with no roles
      and the enrollment date as both creation and publication date. */
  function EnrolledCourseOf(e: CourseEnrollment): (c: Course)
    ensures c.id == e.curso.id && c.activo && c.roles == []
    ensures c.titulo == e.curso.titulo && c.nivel == e.curso.nivel
    ensures c.fechaCreacion == c.fechaPublicacion == Some(e.fechaInscripcion)
  {
    Course(e.curso.id, e.curso.titulo, e.curso.descripcion, e.curso.portada, e.curso.nivel,
           e.curso.totalClases, e.curso.duracionVideoMinutos, Some(e.curso.calificacionPromedio),
           [], true, Some(e.fechaInscripcion), Some(e.fechaInscripcion))
  }

  /** The enrollments fetched, a failed fetch counting as none. */
  function EnrollmentsOrNone(fetched: Result<seq<CourseEnrollment>, HttpError>): (r: seq<CourseEnrollment>)
    ensures fetched.Failure? ==> r == []
    ensures fetched.Success? ==> r == fetched.value
  {
    if fetched.Success? then fetched.value else []
  }

  /** `isEnrolled` for a course id. */
  predicate IsEnrolled(enrolled: seq<Course>, id: string) {
    exists i :: 0 <= i < |enrolled| && enrolled[i].id == id
  }

  /** A course is listed as enrolled exactly when one of the enrollments is in it. */
  lemma IsEnrolledIff(enrollments: seq<CourseEnrollment>, id: string)
    ensures IsEnrolled(Map(EnrolledCourseOf, enrollments), id) <==>
      exists i :: 0 <= i < |enrollments| && enrollments[i].curso.id == id
  {
    var enrolled := Map(EnrolledCourseOf, enrollments);
    if IsEnrolled(enrolled, id) {
      var i :| 0 <= i < |enrolled| && enrolled[i].id == id;
      assert enrollments[i].curso.id == id;
    }
    if exists i :: 0 <= i < |enrollments| && enrollments[i].curso.id == id {
      var i :| 0 <= i < |enrollments| && enrollments[i].curso.id == id;
      assert enrolled[i].id == id;
    }
  }

  // ---------------------------------------------------------------------------
  // Per-enrollment progress and exam status

  function Completado(v: VideoProgress): bool { v.completado }

  /** The progress shown for a course: the enrollment's own percentage when present;
      otherwise, with both the video records and the summary, completed videos over
      the summary's lesson count (0 without lessons); otherwise 0. No data gives 0. */
  function ProgressPercent(data: Option<CourseProgressData>): (r: real)
    ensures data.None? ==> r == 0.0
    ensures data.Some? && data.value.inscripcion.Some? && data.value.inscripcion.value.progresoPorcentaje.Some? ==>
      r == data.value.inscripcion.value.progresoPorcentaje.value
    ensures (data.Some? && !(data.value.inscripcion.Some? && data.value.inscripcion.value.progresoPorcentaje.Some?) &&
             (data.value.progresosVideos.None? || data.value.resumen.None?)) ==> r == 0.0
    ensures (data.Some? && !(data.value.inscripcion.Some? && data.value.inscripcion.value.progresoPorcentaje.Some?) &&
             data.value.progresosVideos.Some? && data.value.resumen.Some?) ==>
      var total := data.value.resumen.value.totalLecciones.GetOr(0);
      var completed := CountIf(Completado, data.value.progresosVideos.value);
      (total > 0 ==> r * (total as real) == 100.0 * (completed as real)) &&
      (total <= 0 ==> r == 0.0)
  {
    match data
    case None => 0.0
    case Some(d) =>
      if d.inscripcion.Some? && d.inscripcion.value.progresoPorcentaje.Some? then
        d.inscripcion.value.progresoPorcentaje.value
      else if d.progresosVideos.Some? && d.resumen.Some? then
        var total := d.resumen.value.totalLecciones.GetOr(0);
        var completed := CountIf(Completado, d.progresosVideos.value);
        if total > 0 then (completed as real) / (total as real) * 100.0 else 0.0
      else 0.0
  }

  /** Without a percentage from the backend, the computed one is a percentage as long
      as no more videos are completed than the summary has lessons. */
  lemma ComputedProgressBounds(d: CourseProgressData)
    requires !(d.inscripcion.Some? && d.inscripcion.value.progresoPorcentaje.Some?)
    requires d.progresosVideos.Some? && d.resumen.Some?
    requires CountIf(Completado, d.progresosVideos.value) <= d.resumen.value.totalLecciones.GetOr(0)
    ensures 0.0 <= ProgressPercent(Some(d)) <= 100.0
  {
    var total := d.resumen.value.totalLecciones.GetOr(0);
    var completed := CountIf(Completado, d.progresosVideos.value);
    if total > 0 {
      var q := (completed as real) / (total as real);
      assert q * (total as real) == completed as real;
      assert q <= 1.0;
    }
  }

  /** What the exam check answers for a course. */
  datatype ExamResult = ExamResult(aprobado: bool, puntaje: string)

  datatype ExamStatus = ExamStatus(aprobado: bool, puntaje: Option<string>)

  /** The exam status shown: approved, with the score, only for an approved result. */
  function ExamStatusOf(result: Option<ExamResult>): (s: ExamStatus)
    ensures s.aprobado <==> result.Some? && result.value.aprobado
    ensures s.aprobado ==> s.puntaje == Some(result.value.puntaje)
    ensures !s.aprobado ==> s.puntaje.None?
  {
    if result.Some? && result.value.aprobado then ExamStatus(true, Some(result.value.puntaje))
    else ExamStatus(false, None)
  }

  /** What one enrollment contributes: its progress and exam status, or 0 and not
      approved when the exam check fails, since both requests are awaited together.
      (The progress request cannot fail: the service turns every failure into null.) */
  function EnrollmentOutcome(progress: Result<ProgressResponse, HttpError>,
                             exam: Result<Option<ExamResult>, HttpError>): (r: (real, ExamStatus))
    ensures exam.Failure? ==> r == (0.0, ExamStatus(false, None))
    ensures exam.Success? ==> r == (ProgressPercent(CoursesService.GetCourseProgress(progress)), ExamStatusOf(exam.value))
    ensures r.1.aprobado ==> exam.Success? && exam.value.Some? && exam.value.value.aprobado
  {
    if exam.Failure? then (0.0, ExamStatus(false, None))
    else (ProgressPercent(CoursesService.GetCourseProgress(progress)), ExamStatusOf(exam.value))
  }

  function EnrolledCourseId(e: CourseEnrollment): string { e.curso.id }

  /** The `Promise.all` over the enrollments: per enrolled course id, the progress
      and the exam status of that course. */
  method FetchPerEnrollment(es: seq<CourseEnrollment>,
                            progressOf: string -> Result<ProgressResponse, HttpError>,
                            examOf: string -> Result<Option<ExamResult>, HttpError>)
    returns (progressMap: map<string, real>, examStatusMap: map<string, ExamStatus>)
    ensures forall id :: id in progressMap <==> id in Map(EnrolledCourseId, es)
    ensures forall id :: id in examStatusMap <==> id in Map(EnrolledCourseId, es)
    ensures forall id :: id in progressMap ==> progressMap[id] == EnrollmentOutcome(progressOf(id), examOf(id)).0
    ensures forall id :: id in examStatusMap ==> examStatusMap[id] == EnrollmentOutcome(progressOf(id), examOf(id)).1
  {
    progressMap := map[];
    examStatusMap := map[];
    var k := 0;
    while k < |es|
      invariant 0 <= k <= |es|
      invariant forall id :: id in progressMap <==> id in Map(EnrolledCourseId, es[..k])
      invariant forall id :: id in examStatusMap <==> id in Map(EnrolledCourseId, es[..k])
      invariant forall id :: id in progressMap ==> progressMap[id] == EnrollmentOutcome(progressOf(id), examOf(id)).0
      invariant forall id :: id in examStatusMap ==> examStatusMap[id] == EnrollmentOutcome(progressOf(id), examOf(id)).1
    {
      var id := es[k].curso.id;
      var outcome := EnrollmentOutcome(progressOf(id), examOf(id));
      progressMap := progressMap[id := outcome.0];
      examStatusMap := examStatusMap[id := outcome.1];
      assert es[..k + 1] == es[..k] + [es[k]];
      MapAppend(EnrolledCourseId, es[..k], [es[k]]);
      k := k + 1;
    }
    assert es[..k] == es;
  }

  /** The page's state. The backend is passed to `LoadCourses` as its answers: the
      courses for the user's role, the enrollments, and per course id the progress
      response and the exam check. */
  class HomePageState {
    var allCourses: seq<Course>
    var enrolledCourses: seq<Course>
    var courseProgress: map<string, real>
    var examStatus: map<string, ExamStatus>
    var isLoading: bool
    var error: Option<string>
    var selectedLevel: string
    var courseFilter: CourseFilter

    /** The initial state: loading, nothing listed, both filters on "all". */
    constructor ()
      ensures allCourses == [] && enrolledCourses == [] && courseProgress == map[] && examStatus == map[]
      ensures isLoading && error.None? && selectedLevel == AllLevels && courseFilter == AllCourses
    {
      allCourses := [];
      enrolledCourses := [];
      courseProgress := map[];
      examStatus := map[];
      isLoading := true;
      error := None;
      selectedLevel := AllLevels;
      courseFilter := AllCourses;
    }

    /** The cards shown. */
    function ShownCourses(): seq<Course>
      reads this
    {
      FilteredCourses(CoursesToShow(courseFilter, allCourses, enrolledCourses), selectedLevel)
    }

    /** `loadCourses`. A failed role query (the only uncaught failure) records its
        message, or a generic one for a non-`Error` throw, and changes nothing else;
        otherwise the lists and both maps are replaced, keyed by the enrollments'
        course ids. Loading ends either way. */
    method LoadCourses(byRole: Result<seq<Course>, Option<string>>,
                       enrollments: Result<seq<CourseEnrollment>, HttpError>,
                       progressOf: string -> Result<ProgressResponse, HttpError>,
                       examOf: string -> Result<Option<ExamResult>, HttpError>)
      modifies this
      ensures !isLoading
      ensures selectedLevel == old(selectedLevel) && courseFilter == old(courseFilter)
      ensures byRole.Failure? ==>
        error == Some(byRole.error.GetOr("Error desconocido al cargar los cursos")) &&
        allCourses == old(allCourses) && enrolledCourses == old(enrolledCourses) &&
        courseProgress == old(courseProgress) && examStatus == old(examStatus)
      ensures byRole.Success? ==>
        var es := EnrollmentsOrNone(enrollments);
        error.None? && allCourses == byRole.value &&
        enrolledCourses == Map(EnrolledCourseOf, es) &&
        (forall id :: id in courseProgress <==> id in Map(EnrolledCourseId, es)) &&
        (forall id :: id in examStatus <==> id in Map(EnrolledCourseId, es)) &&
        (forall id :: id in courseProgress ==> courseProgress[id] == EnrollmentOutcome(progressOf(id), examOf(id)).0) &&
        (forall id :: id in examStatus ==> examStatus[id] == EnrollmentOutcome(progressOf(id), examOf(id)).1)
    {
      error := None;
      isLoading := true;
      if byRole.Failure? {
        error := Some(byRole.error.GetOr("Error desconocido al cargar los cursos"));
        isLoading := false;
        return;
      }
      var es := EnrollmentsOrNone(enrollments);
      allCourses := byRole.value;
      enrolledCourses := Map(EnrolledCourseOf, es);
      var progressMap, examStatusMap := FetchPerEnrollment(es, progressOf, examOf);
      courseProgress := progressMap;
      examStatus := examStatusMap;
      isLoading := false;
    }
  }
}
