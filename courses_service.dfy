/** The client-side logic of the courses service: the Fisher–Yates shuffle, the
    transformation of the backend's exam into the quiz the components take, the
    choice of the authentication token, the formatting of an exam attempt and the
    null rule of the course-progress lookup. HTTP calls are replaced by their
    outcomes, passed in as parameters. */
module CoursesService {
  import opened Wrappers
  import opened Sequences
  import opened QuizModel

  // ---------------------------------------------------------------------------
  // Backend records

  /** A catalog course. */
  datatype Course = Course(
    id: string,
    titulo: string,
    descripcion: string,
    portada: string,
    nivel: string,
    totalClases: int,
    duracionVideoMinutos: int,
    calificacionPromedio: Option<string>,
    roles: seq<string>,
    activo: bool,
    fechaCreacion: Option<string>,
    fechaPublicacion: Option<string>)

  /** The course summary embedded in an enrollment. */
  datatype EnrolledCourse = EnrolledCourse(
    id: string,
    titulo: string,
    descripcion: string,
    nivel: string,
    portada: string,
    calificacionPromedio: string,
    totalClases: int,
    duracionVideoMinutos: int)

  datatype CourseEnrollment = CourseEnrollment(
    id: string,
    usuarioId: string,
    cursoId: string,
    fechaInscripcion: string,
    activo: bool,
    curso: EnrolledCourse)

  /** One question of the backend's exam. The transformation reads the required flag
      from `es_requerida`. */
  datatype RawQuestion = RawQuestion(
    nombre: string,
    titulo: string,
    tipo: string,
    descripcion: Option<string>,
    opciones: Option<seq<Choice>>,
    respuesta_correcta: AnswerKey,
    es_requerida: Option<bool>)

  datatype RawExam = RawExam(
    id: string,
    titulo: string,
    descripcion: string,
    preguntas: seq<RawQuestion>,
    intentosMaximos: Option<int>,
    duracionMinutos: Option<int>)

  // ---------------------------------------------------------------------------
  // Shuffle

  /** `shuffleArray`: Fisher–Yates on a copy. The random index of each step is any
      `j` in `0 .. i`; the input, a value, is never touched. The result is a
      permutation of the input, and inputs of length 0 or 1 come back unchanged. */
  method ShuffleArray<T>(input: seq<T>) returns (shuffled: seq<T>)
    ensures |shuffled| == |input|
    ensures multiset(shuffled) == multiset(input)
    ensures |input| <= 1 ==> shuffled == input
  {
    var a := new T[|input|](k requires 0 <= k < |input| => input[k]);
    assert a[..] == input;
    var i := a.Length - 1;
    while i > 0
      invariant -1 <= i < a.Length || (a.Length == 0 && i == -1)
      invariant multiset(a[..]) == multiset(input)
      invariant a.Length <= 1 ==> a[..] == input
    {
      var j :| 0 <= j <= i;
      ghost var before := a[..];
      a[i], a[j] := a[j], a[i];
      assert a[..] == before[i := before[j]][j := before[i]];
      SwapPermutes(before, i, j);
      i := i - 1;
    }
    shuffled := a[..];
  }

  lemma SwapPermutes<T>(s: seq<T>, i: nat, j: nat)
    requires i < |s| && j < |s|
    ensures multiset(s[i := s[j]][j := s[i]]) == multiset(s)
  {
    if i != j {
      var t := s[i := s[j]];
      assert multiset(t) == multiset(s) - multiset{s[i]} + multiset{s[j]};
      assert multiset(t[j := s[i]]) == multiset(t) - multiset{t[j]} + multiset{s[i]};
    }
  }

  // ---------------------------------------------------------------------------
  // Exam transformation

  /** What the transformation keeps of a question, with the order of the choices
      forgotten: the fields and the multiset of choices. */
  datatype QuestionShape = QuestionShape(
    kind: string,
    name: string,
    title: string,
    description: Option<string>,
    isRequired: bool,
    choices: multiset<Choice>,
    correctAnswer: AnswerKey)

  function ShapeOf(q: Question): QuestionShape {
    QuestionShape(q.kind, q.name, q.title, q.description, q.isRequired, multiset(q.choices), q.correctAnswer)
  }

  /** The shape the element built from `p` must have: `tipo`, `nombre`, `titulo`,
      `descripcion`, `es_requerida` and `respuesta_correcta` renamed, and the options
      as choices (none when `opciones` is absent). */
  function RawShape(p: RawQuestion): QuestionShape {
    QuestionShape(p.tipo, p.nombre, p.titulo, p.descripcion, p.es_requerida.GetOr(false),
                  multiset(p.opciones.GetOr([])), p.respuesta_correcta)
  }

  datatype ExamError = ExamNotFound | ExamTransport(cause: HttpError)

  /** The message of the error thrown when the course has no exam. */
  const ExamNotFoundMessage := "Examen no encontrado para este curso"

  /** The quiz built from the backend's exam list: it fails on an empty list and uses
      only the first exam otherwise. The quiz has a single page named "page1", whose
      elements are the exam's questions in shuffled order, each renamed and with its
      options shuffled. */
  method GetExamByCourseId(response: Result<Option<seq<RawExam>>, HttpError>) returns (r: Result<Quiz, ExamError>)
    ensures response.Failure? ==> r == Failure(ExamTransport(response.error))
    ensures response.Success? && response.value.GetOr([]) == [] ==> r == Failure(ExamNotFound)
    ensures response.Success? && response.value.GetOr([]) != [] ==>
      var exam := response.value.value[0];
      r.Success? &&
      r.value.id == exam.id && r.value.title == exam.titulo && r.value.description == exam.descripcion &&
      r.value.maxAttempts == exam.intentosMaximos && r.value.durationMinutes == exam.duracionMinutos &&
      |r.value.pages| == 1 && r.value.pages[0].name == "page1" && r.value.pages[0].elements.Some? &&
      |r.value.pages[0].elements.value| == |exam.preguntas| &&
      multiset(Map(ShapeOf, r.value.pages[0].elements.value)) == multiset(Map(RawShape, exam.preguntas))
  {
    if response.Failure? {
      return Failure(ExamTransport(response.error));
    }
    var exams := response.value.GetOr([]);
    if exams == [] {
      return Failure(ExamNotFound);
    }
    var exam := exams[0];
    var shuffledQuestions := ShuffleArray(exam.preguntas);
    // `shuffledQuestions.map(...)`, whose callback shuffles the options.
    var elements: seq<Question> := [];
    var k := 0;
    while k < |shuffledQuestions|
      invariant 0 <= k <= |shuffledQuestions|
      invariant |elements| == k
      invariant forall m :: 0 <= m < k ==> ShapeOf(elements[m]) == RawShape(shuffledQuestions[m])
    {
      var p := shuffledQuestions[k];
      var choices: seq<Choice> := [];
      if p.opciones.Some? {
        choices := ShuffleArray(p.opciones.value);
      }
      elements := elements + [Question(p.tipo, p.nombre, p.titulo, p.descripcion,
                                       p.es_requerida.GetOr(false), choices, p.respuesta_correcta)];
      k := k + 1;
    }
    assert Map(ShapeOf, elements) == Map(RawShape, shuffledQuestions);
    MapPermutation(RawShape, shuffledQuestions, exam.preguntas);
    r := Success(Quiz(exam.id, exam.titulo, exam.descripcion, [Page("page1", Some(elements))],
                      exam.intentosMaximos, exam.duracionMinutos));
  }

  /** Shuffling the questions does not change the score of any set of answers. */
  lemma TransformedScoreIgnoresOrder(elements: seq<Question>, shuffled: seq<Question>, answers: Answers)
    requires multiset(elements) == multiset(shuffled)
    ensures Score(elements, answers) == Score(shuffled, answers)
  {
    ScoreIgnoresOrder(elements, shuffled, answers);
  }

  // ---------------------------------------------------------------------------
  // Authentication token and headers

  type Storage = map<string, string>

  const SessionTokenKey := "lms_session_token"
  const TokenKey := "lms_token"

  /** `getAuthToken`: the backend session token when it is stored and non-empty,
      otherwise the older token as stored (possibly empty, possibly absent). */
  function GetAuthToken(storage: Storage): (r: Option<string>)
    ensures SessionTokenKey in storage && storage[SessionTokenKey] != "" ==> r == Some(storage[SessionTokenKey])
    ensures !(SessionTokenKey in storage && storage[SessionTokenKey] != "") ==>
      (r.Some? <==> TokenKey in storage) && (r.Some? ==> r.value == storage[TokenKey])
  {
    if SessionTokenKey in storage && storage[SessionTokenKey] != "" then Some(storage[SessionTokenKey])
    else if TokenKey in storage then Some(storage[TokenKey])
    else None
  }

  const MissingTokenMessage := "Token de autenticación no encontrado"

  /** `getAuthHeaders`: throws without a non-empty token, otherwise sends it as a
      bearer token with the JSON content headers. */
  function GetAuthHeaders(storage: Storage): (r: Result<seq<(string, string)>, string>)
    ensures r.Failure? <==> GetAuthToken(storage).GetOr("") == ""
    ensures r.Failure? ==> r.error == MissingTokenMessage
    ensures r.Success? ==>
      |r.value| == 3 && r.value[0].0 == "Authorization" &&
      StartsWith(r.value[0].1, "Bearer ") && r.value[0].1[7..] == GetAuthToken(storage).value
  {
    var token := GetAuthToken(storage).GetOr("");
    if token == "" then Failure(MissingTokenMessage)
    else Success([("Authorization", "Bearer " + token),
                  ("Content-Type", "application/json"),
                  ("Accept", "application/json")])
  }

  /** When both tokens are stored and non-empty, the session token is the one sent. */
  lemma SessionTokenWins(storage: Storage)
    requires SessionTokenKey in storage && storage[SessionTokenKey] != ""
    requires TokenKey in storage && storage[TokenKey] != ""
    ensures GetAuthHeaders(storage).Success?
    ensures GetAuthHeaders(storage).value[0].1 == "Bearer " + storage[SessionTokenKey]
  {
  }

  // ---------------------------------------------------------------------------
  // Exam attempt

  datatype AttemptAnswer = AttemptAnswer(preguntaId: string, respuesta: string)

  /** The body posted to the exam's answer endpoint. */
  datatype AttemptRequest = AttemptRequest(
    examId: string,
    usuarioId: string,
    puntaje: int,
    aprobado: bool,
    completado: bool,
    respuestas: seq<AttemptAnswer>)

  /** `Object.entries(answers).map(...)`: one entry per answer, keyed by question name
      with the value unchanged. The enumeration order of the entries is not modelled:
      each step takes any key not yet taken. */
  method FormatAnswers(answers: map<string, string>) returns (formatted: seq<AttemptAnswer>)
    ensures |formatted| == |answers|
    ensures forall i :: 0 <= i < |formatted| ==>
      formatted[i].preguntaId in answers && answers[formatted[i].preguntaId] == formatted[i].respuesta
    ensures forall i, j :: 0 <= i < j < |formatted| ==> formatted[i].preguntaId != formatted[j].preguntaId
    ensures forall k :: k in answers ==> exists i :: 0 <= i < |formatted| && formatted[i].preguntaId == k
  {
    var remaining := answers.Keys;
    formatted := [];
    while remaining != {}
      invariant remaining <= answers.Keys
      invariant |formatted| + |remaining| == |answers|
      invariant forall i :: 0 <= i < |formatted| ==>
        formatted[i].preguntaId in answers && formatted[i].preguntaId !in remaining &&
        answers[formatted[i].preguntaId] == formatted[i].respuesta
      invariant forall i, j :: 0 <= i < j < |formatted| ==> formatted[i].preguntaId != formatted[j].preguntaId
      invariant forall k :: k in answers && k !in remaining ==>
        exists i :: 0 <= i < |formatted| && formatted[i].preguntaId == k
      decreases |remaining|
    {
      var k :| k in remaining;
      ghost var before := formatted;
      formatted := formatted + [AttemptAnswer(k, answers[k])];
      remaining := remaining - {k};
      assert formatted[|before|].preguntaId == k;
      assert forall i :: 0 <= i < |before| ==> formatted[i] == before[i];
    }
  }

  /** `submitExamAttempt`: the request it posts (always marked completed) and its
      outcome; a failed post is rethrown. */
  method SubmitExamAttempt(userId: string, examId: string, answers: map<string, string>,
                           score: int, passed: bool, post: Result<(), HttpError>)
    returns (request: AttemptRequest, outcome: Result<(), HttpError>)
    ensures request.examId == examId && request.usuarioId == userId
    ensures request.puntaje == score && request.aprobado == passed && request.completado
    ensures |request.respuestas| == |answers|
    ensures forall i :: 0 <= i < |request.respuestas| ==>
      request.respuestas[i].preguntaId in answers &&
      answers[request.respuestas[i].preguntaId] == request.respuestas[i].respuesta
    ensures forall i, j :: 0 <= i < j < |request.respuestas| ==>
      request.respuestas[i].preguntaId != request.respuestas[j].preguntaId
    ensures forall k :: k in answers ==>
      exists i :: 0 <= i < |request.respuestas| && request.respuestas[i].preguntaId == k
    ensures outcome == post
  {
    var formatted := FormatAnswers(answers);
    request := AttemptRequest(examId, userId, score, passed, true, formatted);
    outcome := post;
  }

  // ---------------------------------------------------------------------------
  // Course progress

  datatype VideoProgress = VideoProgress(
    leccionId: string,
    segundoActual: int,
    duracionTotal: int,
    completado: bool)

  datatype Inscripcion = Inscripcion(progresoPorcentaje: Option<real>)

  /** The summary block, of which the home page reads `totalLecciones`. */
  datatype Resumen = Resumen(totalLecciones: Option<int>)

  datatype CourseProgressData = CourseProgressData(
    inscripcion: Option<Inscripcion>,
    progresosVideos: Option<seq<VideoProgress>>,
    resumen: Option<Resumen>)

  /** The progress endpoint's answer: its `success` flag and its data. */
  datatype ProgressResponse = ProgressResponse(success: bool, data: CourseProgressData)

  /** `getCourseProgress`: the data when the backend reports success; null when it
      reports failure and when the call fails. */
  function GetCourseProgress(response: Result<ProgressResponse, HttpError>): (r: Option<CourseProgressData>)
    ensures r.Some? <==> response.Success? && response.value.success
    ensures r.Some? ==> r.value == response.value.data
  {
    match response
    case Failure(_) => None
    case Success(resp) => if resp.success then Some(resp.data) else None
  }
}
