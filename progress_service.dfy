/** The progress service: per-course aggregation of the per-video progress records,
    the error policy of saving progress and marking a lesson completed, and the lookup
    of one course's progress through the user's enrollments. */
module ProgressService {
  import opened Wrappers
  import opened Sequences
  import CoursesService

  /** A per-video record as `getUserProgress` reads it: the aggregation reads the
      snake-case fields, not the camel-case ones of the service's declared type. */
  datatype VideoRecord = VideoRecord(
    curso: string,
    leccion_titulo: string,
    segundo_actual: real,
    duracion_total: real,
    porcentaje_visto: real,
    completado: bool)

  datatype LessonProgress = LessonProgress(
    lessonTitle: string,
    currentSecond: real,
    totalDuration: real,
    percentageWatched: real,
    completed: bool)

  datatype CourseProgress = CourseProgress(
    courseId: string,
    courseTitle: string,
    totalLessons: nat,
    completedLessons: nat,
    progressPercentage: real,
    lessons: seq<LessonProgress>)

  function Curso(r: VideoRecord): string { r.curso }

  predicate Completed(r: VideoRecord) { r.completado }

  /** The lesson entry pushed for a record. */
  function ToLesson(r: VideoRecord): LessonProgress {
    LessonProgress(r.leccion_titulo, r.segundo_actual, r.duracion_total, r.porcentaje_visto, r.completado)
  }

  /** The records of course `c`, in input order. Defined from the end so that the
      aggregation loop extends it one record at a time. */
  function RecordsOf(records: seq<VideoRecord>, c: string): (r: seq<VideoRecord>)
    ensures |r| <= |records|
    ensures forall i :: 0 <= i < |r| ==> r[i].curso == c
  {
    if records == [] then []
    else
      var init := records[..|records| - 1];
      var last := records[|records| - 1];
      RecordsOf(init, c) + (if last.curso == c then [last] else [])
  }

  lemma {:induction false} RecordsOfAbsent(records: seq<VideoRecord>, c: string)
    requires c !in Map(Curso, records)
    ensures RecordsOf(records, c) == []
  {
    if records != [] {
      var init := records[..|records| - 1];
      assert records == init + [records[|records| - 1]];
      MapAppend(Curso, init, [records[|records| - 1]]);
      RecordsOfAbsent(init, c);
    }
  }

  /** The course ids in order of first occurrence: the keys of the grouping `Map`. */
  function CourseIds(records: seq<VideoRecord>): seq<string> {
    Distinct(Map(Curso, records))
  }

  /** `completed / total * 100`, or 0 without lessons. */
  function Percentage(completed: nat, total: nat): (p: real)
    ensures total == 0 ==> p == 0.0
    ensures completed <= total ==> 0.0 <= p <= 100.0
    ensures total > 0 ==> p * (total as real) == (completed as real) * 100.0
  {
    if total > 0 then
      PercentageBounds(completed, total);
      (completed as real) / (total as real) * 100.0
    else 0.0
  }

  lemma PercentageBounds(completed: nat, total: nat)
    requires total > 0
    ensures completed <= total ==> (completed as real) / (total as real) <= 1.0
    ensures (completed as real) / (total as real) * 100.0 * (total as real) == (completed as real) * 100.0
  {
    var q := (completed as real) / (total as real);
    assert q * (total as real) == completed as real;
  }

  /** The entry for course `c` before the percentage pass. */
  function Tally(records: seq<VideoRecord>, c: string): CourseProgress {
    var mine := RecordsOf(records, c);
    CourseProgress(c, c, |mine|, CountIf(Completed, mine), 0.0, Map(ToLesson, mine))
  }

  /** The finished entry for course `c`: one lesson per record of the course, in input
      order, the counts of those records and of the completed ones, and the
      percentage. */
  function Entry(records: seq<VideoRecord>, c: string): (e: CourseProgress)
    ensures e.courseId == c && e.courseTitle == c
    ensures e.totalLessons == |e.lessons| == |RecordsOf(records, c)|
    ensures e.completedLessons <= e.totalLessons
    ensures 0.0 <= e.progressPercentage <= 100.0
  {
    WithPercentage(Tally(records, c))
  }

  /** An entry with its percentage set from its counts. */
  function WithPercentage(cp: CourseProgress): CourseProgress {
    cp.(progressPercentage := Percentage(cp.completedLessons, cp.totalLessons))
  }

  lemma RecordsOfAppend(prefix: seq<VideoRecord>, p: VideoRecord, c: string)
    ensures RecordsOf(prefix + [p], c) == RecordsOf(prefix, c) + if p.curso == c then [p] else []
  {
    var s := prefix + [p];
    assert s[..|s| - 1] == prefix && s[|s| - 1] == p;
  }

  /** A course's entry when its first record is met. */
  function NewEntry(c: string): CourseProgress {
    CourseProgress(c, c, 0, 0, 0.0, [])
  }

  /** The entry after one more record of its course: one more lesson, pushed at the
      end, and one more completed lesson when the record is completed. */
  function Bump(cp: CourseProgress, p: VideoRecord): CourseProgress {
    cp.(totalLessons := cp.totalLessons + 1,
        completedLessons := cp.completedLessons + (if p.completado then 1 else 0),
        lessons := cp.lessons + [ToLesson(p)])
  }

  /** The grouping `Map` after the first pass over `records`. */
  ghost function Tallies(records: seq<VideoRecord>): map<string, CourseProgress> {
    map c | c in CourseIds(records) :: Tally(records, c)
  }

  lemma TallyAppendFields(prefix: seq<VideoRecord>, p: VideoRecord, c: string)
    ensures c != p.curso ==> Tally(prefix + [p], c) == Tally(prefix, c)
    ensures c == p.curso ==>
      var t, u := Tally(prefix, c), Tally(prefix + [p], c);
      u.courseId == c && u.courseTitle == c && u.progressPercentage == 0.0 &&
      u.totalLessons == t.totalLessons + 1 &&
      u.completedLessons == t.completedLessons + (if p.completado then 1 else 0) &&
      u.lessons == t.lessons + [ToLesson(p)]
  {
    RecordsOfAppend(prefix, p, c);
    var mine := RecordsOf(prefix, c);
    if c == p.curso {
      assert RecordsOf(prefix + [p], c) == mine + [p];
      assert (mine + [p])[..|mine|] == mine;
      assert CountIf(Completed, mine + [p]) == CountIf(Completed, mine) + (if p.completado then 1 else 0);
      MapAppend(ToLesson, mine, [p]);
    } else {
      assert RecordsOf(prefix + [p], c) == mine + [];
      assert mine + [] == mine;
    }
  }

  lemma TallyAppend(prefix: seq<VideoRecord>, p: VideoRecord, c: string)
    ensures Tally(prefix + [p], c) == if c == p.curso then Bump(Tally(prefix, c), p) else Tally(prefix, c)
  {
    TallyAppendFields(prefix, p, c);
  }

  /** One more record changes only its own course's entry, creating it when the
      course is new. */
  lemma CourseIdsAppend(prefix: seq<VideoRecord>, p: VideoRecord)
    ensures forall c :: c in CourseIds(prefix + [p]) <==> c in CourseIds(prefix) || c == p.curso
  {
    MapAppend(Curso, prefix, [p]);
    DistinctAppend(Map(Curso, prefix), p.curso);
  }

  /** The tally a course has when its record is met: the one so far, or a new entry
      when the course has not occurred yet. */
  lemma TallySoFar(prefix: seq<VideoRecord>, c: string)
    ensures Tally(prefix, c) == if c in Tallies(prefix) then Tallies(prefix)[c] else NewEntry(c)
  {
    if c !in Tallies(prefix) {
      RecordsOfAbsent(prefix, c);
    }
  }

  lemma TalliesAppendAt(prefix: seq<VideoRecord>, p: VideoRecord, c: string)
    requires c in Tallies(prefix + [p])
    ensures c != p.curso ==> c in Tallies(prefix) && Tallies(prefix + [p])[c] == Tallies(prefix)[c]
    ensures c == p.curso ==> Tallies(prefix + [p])[c] == Bump(Tally(prefix, c), p)
  {
    CourseIdsAppend(prefix, p);
    TallyAppend(prefix, p, c);
  }

  lemma TalliesKeys(prefix: seq<VideoRecord>, p: VideoRecord)
    ensures Tallies(prefix + [p]).Keys == Tallies(prefix).Keys + {p.curso}
  {
    CourseIdsAppend(prefix, p);
  }

  lemma TalliesAppend(prefix: seq<VideoRecord>, p: VideoRecord)
    ensures Tallies(prefix + [p]) == Tallies(prefix)[p.curso := Bump(Tally(prefix, p.curso), p)]
  {
    var m1, m2 := Tallies(prefix), Tallies(prefix + [p]);
    TalliesKeys(prefix, p);
    CourseIdsAppend(prefix, p);
    TalliesAppendAt(prefix, p, p.curso);
    forall c | c in m2 && c != p.curso
      ensures c in m1 && m2[c] == m1[c]
    {
      TalliesAppendAt(prefix, p, c);
    }
    MapUpdate(m1, m2, p.curso, Bump(Tally(prefix, p.curso), p));
  }

  /** A map that agrees with `m1` off `k`, has `k` in addition, and maps `k` to `v` is
      `m1` updated at `k`. */
  lemma MapUpdate<K, V>(m1: map<K, V>, m2: map<K, V>, k: K, v: V)
    requires m2.Keys == m1.Keys + {k} && m2[k] == v
    requires forall c :: c in m2 && c != k ==> c in m1 && m2[c] == m1[c]
    ensures m2 == m1[k := v]
  {
  }

  /** One step of the grouping: record `i` adds its course at the end of the key
      order when it is new, and bumps its course's entry, created empty when new. */
  lemma GroupStep(records: seq<VideoRecord>, i: nat)
    requires i < |records|
    ensures var p, prefix := records[i], records[..i];
      CourseIds(records[..i + 1]) ==
        (if p.curso in Tallies(prefix) then CourseIds(prefix) else CourseIds(prefix) + [p.curso])
    ensures var p, prefix, m := records[i], records[..i], Tallies(records[..i]);
      Tallies(records[..i + 1]) == m[p.curso := Bump(if p.curso in m then m[p.curso] else NewEntry(p.curso), p)]
  {
    var p, prefix := records[i], records[..i];
    assert records[..i + 1] == prefix + [p];
    MapAppend(Curso, prefix, [p]);
    DistinctAppend(Map(Curso, prefix), p.curso);
    TalliesAppend(prefix, p);
    TallySoFar(prefix, p.curso);
  }

  /** The first `forEach`: groups the records by course into the `Map`, creating a
      course's entry at its first record and bumping it at every record. */
  method GroupByCourse(records: seq<VideoRecord>) returns (order: seq<string>, groups: map<string, CourseProgress>)
    ensures order == CourseIds(records)
    ensures groups == Tallies(records)
  {
    order := [];
    groups := map[];
    var i := 0;
    while i < |records|
      invariant 0 <= i <= |records|
      invariant order == CourseIds(records[..i])
      invariant groups == Tallies(records[..i])
    {
      var p := records[i];
      GroupStep(records, i);
      var cp: CourseProgress;
      if p.curso in groups {
        cp := groups[p.curso];
      } else {
        order := order + [p.curso];
        cp := NewEntry(p.curso);
      }
      groups := groups[p.curso := Bump(cp, p)];
      i := i + 1;
    }
    assert records[..i] == records;
  }

  /** The second `forEach`: sets every entry's percentage from its counts. */
  method SetPercentages(order: seq<string>, groups: map<string, CourseProgress>) returns (updated: map<string, CourseProgress>)
    requires NoDuplicates(order)
    requires forall c :: c in groups <==> c in order
    ensures updated.Keys == groups.Keys
    ensures forall c :: c in groups ==> updated[c] == WithPercentage(groups[c])
  {
    updated := groups;
    var k := 0;
    while k < |order|
      invariant 0 <= k <= |order|
      invariant updated.Keys == groups.Keys
      invariant forall m :: 0 <= m < k ==> updated[order[m]] == WithPercentage(groups[order[m]])
      invariant forall m :: k <= m < |order| ==> updated[order[m]] == groups[order[m]]
    {
      var cp := updated[order[k]];
      updated := updated[order[k] := cp.(progressPercentage := Percentage(cp.completedLessons, cp.totalLessons))];
      k := k + 1;
    }
    forall c | c in groups
      ensures updated[c] == WithPercentage(groups[c])
    {
      var m :| 0 <= m < |order| && order[m] == c;
    }
  }

  /** `getUserProgress` over the fetched records (a failed fetch gives none, and so no
      entries): one entry per distinct course, in order of first occurrence. The
      grouping `Map` is a map plus the sequence of its keys in insertion order. */
  method GetUserProgress(records: seq<VideoRecord>) returns (progress: seq<CourseProgress>)
    ensures |progress| == |CourseIds(records)|
    ensures forall k :: 0 <= k < |progress| ==> progress[k] == Entry(records, CourseIds(records)[k])
  {
    var order, groups := GroupByCourse(records);
    groups := SetPercentages(order, groups);
    // `Array.from(map.values())`, in insertion order.
    progress := seq(|order|, m requires 0 <= m < |order| => groups[order[m]]);
  }

  /** Every record is counted under exactly one entry: the lesson totals add up to the
      number of records. */
  function TotalLessons(entries: seq<CourseProgress>): nat {
    if entries == [] then 0 else TotalLessons(entries[..|entries| - 1]) + entries[|entries| - 1].totalLessons
  }

  /** The number of records of the courses in `ids`. */
  function RecordsCount(records: seq<VideoRecord>, ids: seq<string>): nat {
    if ids == [] then 0 else RecordsCount(records, ids[..|ids| - 1]) + |RecordsOf(records, ids[|ids| - 1])|
  }

  lemma {:induction false} RecordsCountAppendRecord(records: seq<VideoRecord>, p: VideoRecord, ids: seq<string>)
    requires NoDuplicates(ids)
    ensures RecordsCount(records + [p], ids) == RecordsCount(records, ids) + if p.curso in ids then 1 else 0
  {
    assert (records + [p])[..|records|] == records;
    if ids != [] {
      var init := ids[..|ids| - 1];
      assert ids == init + [ids[|ids| - 1]];
      RecordsCountAppendRecord(records, p, init);
    }
  }

  lemma {:induction false} RecordsCountAppendId(records: seq<VideoRecord>, ids: seq<string>, c: string)
    ensures RecordsCount(records, ids + [c]) == RecordsCount(records, ids) + |RecordsOf(records, c)|
  {
    assert (ids + [c])[..|ids|] == ids;
  }

  lemma {:induction false} RecordsCountAll(records: seq<VideoRecord>)
    ensures RecordsCount(records, CourseIds(records)) == |records|
  {
    if records != [] {
      var init := records[..|records| - 1];
      var p := records[|records| - 1];
      assert records == init + [p];
      RecordsCountAll(init);
      MapAppend(Curso, init, [p]);
      DistinctAppend(Map(Curso, init), p.curso);
      var ids := CourseIds(init);
      RecordsCountAppendRecord(init, p, ids);
      if p.curso !in Map(Curso, init) {
        RecordsCountAppendId(records, ids, p.curso);
        RecordsOfAbsent(init, p.curso);
        assert RecordsOf(records, p.curso) == [p];
      }
    }
  }

  lemma {:induction false} TotalsMatchCounts(records: seq<VideoRecord>, ids: seq<string>)
    ensures TotalLessons(seq(|ids|, k requires 0 <= k < |ids| => Entry(records, ids[k]))) == RecordsCount(records, ids)
  {
    if ids != [] {
      var init := ids[..|ids| - 1];
      TotalsMatchCounts(records, init);
      var s := seq(|ids|, k requires 0 <= k < |ids| => Entry(records, ids[k]));
      assert s[..|s| - 1] == seq(|init|, k requires 0 <= k < |init| => Entry(records, init[k]));
    }
  }

  /** The entries' lesson totals add up to the number of records: each record is
      counted once, under its own course. */
  lemma TotalLessonsIsRecordCount(records: seq<VideoRecord>, progress: seq<CourseProgress>)
    requires |progress| == |CourseIds(records)|
    requires forall k :: 0 <= k < |progress| ==> progress[k] == Entry(records, CourseIds(records)[k])
    ensures TotalLessons(progress) == |records|
  {
    var ids := CourseIds(records);
    assert progress == seq(|ids|, k requires 0 <= k < |ids| => Entry(records, ids[k]));
    TotalsMatchCounts(records, ids);
    RecordsCountAll(records);
  }

  /** The entries are one per course: their ids are distinct, every record's course has
      one, and they come in the order the courses first occur in the records. */
  lemma EntriesPerCourse(records: seq<VideoRecord>, progress: seq<CourseProgress>)
    requires |progress| == |CourseIds(records)|
    requires forall k :: 0 <= k < |progress| ==> progress[k] == Entry(records, CourseIds(records)[k])
    ensures forall k, m :: 0 <= k < m < |progress| ==> progress[k].courseId != progress[m].courseId
    ensures forall i :: 0 <= i < |records| ==> exists k :: 0 <= k < |progress| && progress[k].courseId == records[i].curso
    ensures forall k :: 0 <= k < |progress| ==> progress[k].courseId in Map(Curso, records)
    ensures forall k, m :: 0 <= k < m < |progress| ==>
      FirstIndex(Map(Curso, records), progress[k].courseId) < FirstIndex(Map(Curso, records), progress[m].courseId)
  {
    var names := Map(Curso, records);
    var ids := Distinct(names);
    assert forall k :: 0 <= k < |progress| ==> progress[k].courseId == ids[k];
    forall i | 0 <= i < |records|
      ensures exists k :: 0 <= k < |progress| && progress[k].courseId == records[i].curso
    {
      assert names[i] == records[i].curso;
      assert names[i] in ids;
      var k :| 0 <= k < |ids| && ids[k] == names[i];
      assert progress[k].courseId == records[i].curso;
    }
    forall k, m | 0 <= k < m < |progress|
      ensures FirstIndex(names, progress[k].courseId) < FirstIndex(names, progress[m].courseId)
    {
      DistinctFirstOccurrenceOrder(names, k, m);
    }
  }

  // ---------------------------------------------------------------------------
  // Saving progress

  /** The body `saveVideoProgress` puts. */
  datatype ProgressPayload = ProgressPayload(
    usuarioId: string,
    cursoId: string,
    leccionId: string,
    segundoActual: real,
    duracionTotal: real)

  /** The service-level save: the payload it puts and its outcome, a failed put being
      rethrown. */
  function PutVideoProgress(userId: string, courseId: string, lessonId: string,
                            currentSecond: real, totalDuration: real,
                            put: Result<(), HttpError>): (r: (ProgressPayload, Result<(), HttpError>))
    ensures r.0 == ProgressPayload(userId, courseId, lessonId, currentSecond, totalDuration)
    ensures r.1 == put
  {
    (ProgressPayload(userId, courseId, lessonId, currentSecond, totalDuration), put)
  }

  /** `progressService.saveVideoProgress`: the same put, but a failure is swallowed so
      that playback goes on. */
  function SaveVideoProgress(userId: string, courseId: string, lessonId: string,
                             currentSecond: real, totalDuration: real,
                             put: Result<(), HttpError>): (r: (ProgressPayload, Result<(), HttpError>))
    ensures r.0 == PutVideoProgress(userId, courseId, lessonId, currentSecond, totalDuration, put).0
    ensures r.1.Success?
  {
    (PutVideoProgress(userId, courseId, lessonId, currentSecond, totalDuration, put).0, Success(()))
  }

  /** `markLessonCompleted`: saves the lesson's total duration as the current second
      too, and rethrows a failure. */
  function MarkLessonCompleted(userId: string, courseId: string, lessonId: string,
                               totalDuration: real,
                               put: Result<(), HttpError>): (r: (ProgressPayload, Result<(), HttpError>))
    ensures r.0.segundoActual == r.0.duracionTotal == totalDuration
    ensures r.0.usuarioId == userId && r.0.cursoId == courseId && r.0.leccionId == lessonId
    ensures r.1 == put
  {
    PutVideoProgress(userId, courseId, lessonId, totalDuration, totalDuration, put)
  }

  /** A lesson marked completed has watched all of it: in the saved payload the
      current second reaches the duration. */
  lemma MarkedLessonFullyWatched(userId: string, courseId: string, lessonId: string,
                                 totalDuration: real, put: Result<(), HttpError>)
    ensures var p := MarkLessonCompleted(userId, courseId, lessonId, totalDuration, put).0;
      p.segundoActual >= p.duracionTotal
  {
  }

  // ---------------------------------------------------------------------------
  // One course's progress

  /** `enrollments.find(e => e.cursoId === courseId)`, as an index. */
  function FindEnrollment(enrollments: seq<CoursesService.CourseEnrollment>, courseId: string): (r: Option<nat>)
    ensures r.None? <==> forall i :: 0 <= i < |enrollments| ==> enrollments[i].cursoId != courseId
    ensures r.Some? ==> r.value < |enrollments| && enrollments[r.value].cursoId == courseId
    ensures r.Some? ==> forall j :: 0 <= j < r.value ==> enrollments[j].cursoId != courseId
  {
    if enrollments == [] then None
    else if enrollments[0].cursoId == courseId then Some(0)
    else
      match FindEnrollment(enrollments[1..], courseId)
      case None => None
      case Some(k) => Some(k + 1)
  }

  /** `progressService.getCourseProgress`: the progress of the first enrollment in the
      course when it has a non-empty id; null when there is none, when its id is
      empty, and when either fetch fails. `progressOf` is the enrollment-progress
      endpoint. */
  function GetCourseProgress<D>(courseId: string,
                                enrollments: Result<seq<CoursesService.CourseEnrollment>, HttpError>,
                                progressOf: string -> Result<D, HttpError>): (r: Option<D>)
    ensures enrollments.Failure? ==> r.None?
    ensures enrollments.Success? && FindEnrollment(enrollments.value, courseId).None? ==> r.None?
    ensures r.Some? <==>
      enrollments.Success? && FindEnrollment(enrollments.value, courseId).Some? &&
      enrollments.value[FindEnrollment(enrollments.value, courseId).value].id != "" &&
      progressOf(enrollments.value[FindEnrollment(enrollments.value, courseId).value].id).Success?
    ensures r.Some? ==>
      r.value == progressOf(enrollments.value[FindEnrollment(enrollments.value, courseId).value].id).value
  {
    if enrollments.Failure? then None
    else
      match FindEnrollment(enrollments.value, courseId)
      case None => None
      case Some(k) =>
        var e := enrollments.value[k];
        if e.id == "" then None
        else
          match progressOf(e.id)
          case Failure(_) => None
          case Success(d) => Some(d)
  }
}
