/** The `/api/projects` handlers: GET lists the projects, POST creates one.
    Both try the hosted database first and fall back to the JSON file. The
    database is an oracle: its answer to the handler's queries is a parameter,
    and whether it is consulted at all depends on the configured client. */
module ProjectsApi {
  import opened Wrappers
  import opened Text
  import opened Slug
  import opened Records
  import opened FileStore

  /** A JSON response body. */
  datatype Payload =
    | ProjectPayload(project: Project)
    | ProjectsPayload(projects: seq<Project>)
    | ErrorPayload(error: string)

  datatype Response = Response(status: int, payload: Payload)

  /** What a handler leaves behind: the JSON file and the response. */
  datatype Outcome = Outcome(file: JsonFile, response: Response)

  const MissingFieldsError := "Missing required fields"
  const DuplicateTitleError := "Project with this title already exists"
  const CreateFailedError := "Failed to create project"

  // ---------------------------------------------------------------------------
  // GET

  /** The database's answer to `select * order by created_at desc`: an
      exception, an error (or no data), or the rows in the order returned. */
  datatype ListAnswer = ListThrew | ListFailed | ListRows(rows: seq<DatabaseProject>)

  /** `GET /api/projects` */
  function Get(env: SupabaseEnv, file: JsonFile, answer: ListAnswer): (r: Response)
    ensures r.status == 200 && r.payload.ProjectsPayload?
    ensures SupabaseClient(env).Some? && answer.ListRows? ==>
      && |r.payload.projects| == |answer.rows|
      && forall i | 0 <= i < |answer.rows| :: r.payload.projects[i] == FormatProject(answer.rows[i])
    ensures !(SupabaseClient(env).Some? && answer.ListRows?) ==>
      r.payload.projects == ReadProjects(file)
  {
    if SupabaseClient(env).Some? && answer.ListRows? then
      Response(200, ProjectsPayload(seq(|answer.rows|, i requires 0 <= i < |answer.rows| => FormatProject(answer.rows[i]))))
    else
      Response(200, ProjectsPayload(ReadProjects(file)))
  }

  /** Without a configured client, GET serves the JSON file whatever the
      database would have answered. */
  lemma GetUnconfiguredIgnoresDatabase(env: SupabaseEnv, file: JsonFile, a: ListAnswer, b: ListAnswer)
    requires !IsSupabaseConfigured(env)
    ensures Get(env, file, a) == Get(env, file, b) == Response(200, ProjectsPayload(ReadProjects(file)))
  {
  }

  // ---------------------------------------------------------------------------
  // POST

  /** The fields POST takes from the request body; absent fields are `None`. */
  datatype CreateBody = CreateBody(
    title: Option<string>,
    category: Option<string>,
    description: Option<string>,
    completion: Option<string>,
    details: Option<seq<string>>,
    images: Option<seq<string>>)

  /** The request body: not JSON at all, or the fields above. */
  datatype CreateRequest = Unparsable | Parsed(body: CreateBody)

  /** The database's answer to the duplicate check (`ilike` on the title). */
  datatype CheckAnswer = CheckFailed | CheckFound(matches: nat)

  /** The database's answer to the insert: an error (or no row), or the row it stored. */
  datatype InsertAnswer = InsertFailed | InsertReturned(row: DatabaseProject)

  /** The database's answers to POST's queries, or an exception thrown by them. */
  datatype CreateAnswer = CreateThrew | CreateAnswered(check: CheckAnswer, insert: InsertAnswer)

  /** `title`, `category`, `description` and `completion` are all truthy. */
  predicate HasRequiredFields(b: CreateBody) {
    Truthy(b.title) && Truthy(b.category) && Truthy(b.description) && Truthy(b.completion)
  }

  /** The record POST builds (`newProject`), stamped with `now`. */
  function NewProject(b: CreateBody, now: string): (p: Project)
    requires HasRequiredFields(b) && b.details.Some?
    ensures p.id == GenerateId(p.title) && IsSlug(p.id)
    ensures p.title == b.title.value && p.category == b.category.value
    ensures p.description == b.description.value && p.completion == b.completion.value
    ensures p.details == NonBlank(b.details.value)
    ensures b.images.Some? ==> p.images == b.images.value
    ensures b.images.None? ==> p.images == []
    ensures p.createdAt == p.updatedAt == now
  {
    Project(GenerateId(b.title.value), b.title.value, b.category.value, b.description.value,
            b.completion.value, NonBlank(b.details.value), b.images.GetOr([]), now, now)
  }

  /** The row POST inserts into the hosted table (`supabaseProject`). */
  function InsertRow(b: CreateBody, now: string): (row: DatabaseProject)
    requires HasRequiredFields(b) && b.details.Some?
    ensures FormatProject(row) == NewProject(b, now)
  {
    DatabaseProject(GenerateId(b.title.value), b.title.value, b.category.value, b.description.value,
                    b.completion.value, NonBlank(b.details.value), b.images.GetOr([]), now, now)
  }

  /** The inserted row, renamed by `formatProject`, is the record the JSON path
      would have stored: both paths create the same project. */
  lemma InsertRowMatchesNewProject(b: CreateBody, now: string)
    requires HasRequiredFields(b) && b.details.Some?
    ensures FormatProject(InsertRow(b, now)) == NewProject(b, now)
    ensures InsertRow(b, now) == ToDatabaseProject(NewProject(b, now))
  {
  }

  /** `projects.find(p => p.title.toLowerCase() === title.toLowerCase())` */
  function FindByTitle(projects: seq<Project>, title: string): (r: Option<Project>)
    ensures r.Some? ==> r.value in projects && Lower(r.value.title) == Lower(title)
    ensures r.None? <==> forall i | 0 <= i < |projects| :: Lower(projects[i].title) != Lower(title)
    decreases |projects|
  {
    if projects == [] then None
    else if Lower(projects[0].title) == Lower(title) then Some(projects[0])
    else FindByTitle(projects[1..], title)
  }

  /** The database part of POST: a response, or `None` to fall through to the
      JSON file. */
  function DatabaseCreate(env: SupabaseEnv, answer: CreateAnswer): (r: Option<Response>)
    ensures r.Some? <==>
      && SupabaseClient(env).Some? && answer.CreateAnswered? && answer.check.CheckFound?
      && (answer.check.matches > 0 || answer.insert.InsertReturned?)
    ensures r.Some? && answer.check.matches > 0 ==> r.value == Response(400, ErrorPayload(DuplicateTitleError))
    ensures r.Some? && answer.check.matches == 0 ==>
      answer.insert.InsertReturned? && r.value == Response(201, ProjectPayload(FormatProject(answer.insert.row)))
  {
    if SupabaseClient(env).None? then None
    else match answer
      case CreateThrew => None
      case CreateAnswered(check, insert) =>
        match check
        case CheckFailed => None
        case CheckFound(n) =>
          if n > 0 then Some(Response(400, ErrorPayload(DuplicateTitleError)))
          else match insert
            case InsertFailed => None
            case InsertReturned(row) => Some(Response(201, ProjectPayload(FormatProject(row))))
  }

  /** The JSON part of POST: reject a title already present ignoring case,
      otherwise append and rewrite the file. */
  function JsonCreate(file: JsonFile, p: Project): (out: Outcome)
    ensures out.response.status in {201, 400, 500}
    ensures out.response.status != 201 ==> out.file == file
    ensures out.response.status == 400 <==> FindByTitle(ReadProjects(file), p.title).Some?
    ensures out.response.status == 201 ==>
      && out.response.payload == ProjectPayload(p)
      && out.file == file.(state := Stored(ReadProjects(file) + [p]))
    ensures out.response.status == 500 <==> FindByTitle(ReadProjects(file), p.title).None? && file.writeFault
  {
    var projects := ReadProjects(file);
    if FindByTitle(projects, p.title).Some? then
      Outcome(file, Response(400, ErrorPayload(DuplicateTitleError)))
    else
      match WriteProjects(file, projects + [p])
      case Err(_) => Outcome(file, Response(500, ErrorPayload(CreateFailedError)))
      case Ok(written) => Outcome(written, Response(201, ProjectPayload(p)))
  }

  /** `POST /api/projects`, at time `now`. */
  function Post(env: SupabaseEnv, file: JsonFile, answer: CreateAnswer, request: CreateRequest, now: string): (out: Outcome)
    ensures out.response.status in {201, 400, 500}
    ensures out.file != file ==>
      && request.Parsed? && HasRequiredFields(request.body) && request.body.details.Some?
      && out.response.status == 201
      && out.file.state == Stored(ReadProjects(file) + [NewProject(request.body, now)])
  {
    match request
    case Unparsable => Outcome(file, Response(500, ErrorPayload(CreateFailedError)))
    case Parsed(b) =>
      if !HasRequiredFields(b) then Outcome(file, Response(400, ErrorPayload(MissingFieldsError)))
      else if b.details.None? then Outcome(file, Response(500, ErrorPayload(CreateFailedError)))
      else
        match DatabaseCreate(env, answer)
        case Some(r) => Outcome(file, r)
        case None => JsonCreate(file, NewProject(b, now))
  }

  /** POST as it behaves with only the JSON file: an independent statement of
      the fallback path, for comparison with `Post`. */
  function PostWithoutDatabase(file: JsonFile, request: CreateRequest, now: string): Outcome {
    if request.Unparsable? then Outcome(file, Response(500, ErrorPayload(CreateFailedError)))
    else if !HasRequiredFields(request.body) then Outcome(file, Response(400, ErrorPayload(MissingFieldsError)))
    else if request.body.details.None? then Outcome(file, Response(500, ErrorPayload(CreateFailedError)))
    else
      var p := NewProject(request.body, now);
      if exists q | q in ReadProjects(file) :: Lower(q.title) == Lower(p.title) then
        Outcome(file, Response(400, ErrorPayload(DuplicateTitleError)))
      else if file.writeFault then Outcome(file, Response(500, ErrorPayload(CreateFailedError)))
      else Outcome(file.(state := Stored(ReadProjects(file) + [p])), Response(201, ProjectPayload(p)))
  }

  /** The database answers on which POST falls through to the JSON file. */
  predicate FallsThrough(answer: CreateAnswer) {
    || answer.CreateThrew?
    || answer.check.CheckFailed?
    || (answer.check.matches == 0 && answer.insert.InsertFailed?)
  }

  /** An unconfigured database, an exception, a failed check and a failed
      insert all give exactly the file-only behaviour. */
  lemma PostFallbackTransparent(env: SupabaseEnv, file: JsonFile, answer: CreateAnswer, request: CreateRequest, now: string)
    requires !IsSupabaseConfigured(env) || FallsThrough(answer)
    ensures Post(env, file, answer, request, now) == PostWithoutDatabase(file, request, now)
  {
    if request.Parsed? && HasRequiredFields(request.body) && request.body.details.Some? {
      var p := NewProject(request.body, now);
      var found := FindByTitle(ReadProjects(file), p.title);
      if found.Some? {
        assert found.value in ReadProjects(file);
      }
    }
  }

  /** A missing or empty required field gives 400 before anything else is
      looked at: the file is untouched and the database is not consulted. */
  lemma PostMissingFields(env: SupabaseEnv, file: JsonFile, answer: CreateAnswer, b: CreateBody, now: string)
    requires !HasRequiredFields(b)
    ensures Post(env, file, answer, Parsed(b), now) == Outcome(file, Response(400, ErrorPayload(MissingFieldsError)))
  {
  }

  /** A body without a `details` array makes `.filter` throw: 500, not 400. */
  lemma PostMissingDetails(env: SupabaseEnv, file: JsonFile, answer: CreateAnswer, b: CreateBody, now: string)
    requires HasRequiredFields(b) && b.details.None?
    ensures Post(env, file, answer, Parsed(b), now) == Outcome(file, Response(500, ErrorPayload(CreateFailedError)))
  {
  }

  /** A duplicate reported by the database is final: 400, the JSON file is not read or written. */
  lemma PostDatabaseDuplicate(env: SupabaseEnv, file: JsonFile, n: nat, insert: InsertAnswer, b: CreateBody, now: string)
    requires IsSupabaseConfigured(env) && n > 0
    requires HasRequiredFields(b) && b.details.Some?
    ensures Post(env, file, CreateAnswered(CheckFound(n), insert), Parsed(b), now)
      == Outcome(file, Response(400, ErrorPayload(DuplicateTitleError)))
  {
  }

  /** What the JSON path creates: the slug id, equal timestamps, the non-blank
      details in order, and `[]` for absent images; appended at the end of the
      file with nothing else changed. */
  lemma PostJsonCreates(env: SupabaseEnv, file: JsonFile, answer: CreateAnswer, b: CreateBody, now: string)
    requires !IsSupabaseConfigured(env) || FallsThrough(answer)
    requires HasRequiredFields(b) && b.details.Some?
    requires FindByTitle(ReadProjects(file), b.title.value).None? && !file.writeFault
    ensures var out := Post(env, file, answer, Parsed(b), now);
      && out.response.status == 201
      && out.response.payload.ProjectPayload?
      && var p := out.response.payload.project;
      && p.id == GenerateId(b.title.value) && p.createdAt == p.updatedAt == now
      && p.details == NonBlank(b.details.value)
      && (b.images.None? ==> p.images == [])
      && (b.images.Some? ==> p.images == b.images.value)
      && out.file == file.(state := Stored(ReadProjects(file) + [p]))
  {
  }

  /** A title equal ignoring case to a stored one is refused and the file kept. */
  lemma PostJsonDuplicate(env: SupabaseEnv, file: JsonFile, answer: CreateAnswer, b: CreateBody, now: string, i: nat)
    requires !IsSupabaseConfigured(env) || FallsThrough(answer)
    requires HasRequiredFields(b) && b.details.Some?
    requires i < |ReadProjects(file)| && Lower(ReadProjects(file)[i].title) == Lower(b.title.value)
    ensures Post(env, file, answer, Parsed(b), now) == Outcome(file, Response(400, ErrorPayload(DuplicateTitleError)))
  {
  }

  /** A failed write surfaces as 500 with the file as it was. */
  lemma PostJsonWriteFails(env: SupabaseEnv, file: JsonFile, answer: CreateAnswer, b: CreateBody, now: string)
    requires !IsSupabaseConfigured(env) || FallsThrough(answer)
    requires HasRequiredFields(b) && b.details.Some? && file.writeFault
    requires FindByTitle(ReadProjects(file), b.title.value).None?
    ensures Post(env, file, answer, Parsed(b), now) == Outcome(file, Response(500, ErrorPayload(CreateFailedError)))
  {
  }

  /** Creating a title and then one differing only in case: the second is refused. */
  lemma PostCaseInsensitiveTwice(env: SupabaseEnv, file: JsonFile, answer: CreateAnswer, b1: CreateBody, b2: CreateBody, now1: string, now2: string)
    requires !IsSupabaseConfigured(env) || FallsThrough(answer)
    requires HasRequiredFields(b1) && b1.details.Some?
    requires HasRequiredFields(b2) && b2.details.Some?
    requires Lower(b1.title.value) == Lower(b2.title.value)
    requires !file.readFault
    requires Post(env, file, answer, Parsed(b1), now1).response.status == 201
    ensures var second := Post(env, Post(env, file, answer, Parsed(b1), now1).file, answer, Parsed(b2), now2);
      second.response == Response(400, ErrorPayload(DuplicateTitleError))
  {
    var first := Post(env, file, answer, Parsed(b1), now1);
    var p := NewProject(b1, now1);
    assert first == JsonCreate(file, p);
    var stored := ReadProjects(first.file);
    assert stored[|stored| - 1] == p;
  }

  /** An unreadable or unparsable file reads as empty, so the next
      successful create rewrites the file with the new record alone: earlier
      records are lost. */
  lemma PostAfterReadFaultDropsRecords(env: SupabaseEnv, file: JsonFile, answer: CreateAnswer, b: CreateBody, now: string)
    requires !IsSupabaseConfigured(env) || FallsThrough(answer)
    requires HasRequiredFields(b) && b.details.Some?
    requires (file.readFault || file.state.Unparsable?) && !file.writeFault
    ensures Post(env, file, answer, Parsed(b), now).file.state == Stored([NewProject(b, now)])
  {
    assert ReadProjects(file) + [NewProject(b, now)] == [NewProject(b, now)];
  }

  /** A corrupt file is repaired by the create that follows it: the rewritten
      file parses, so the same title sent again is refused. */
  lemma PostRepairsUnparsableFile(env: SupabaseEnv, file: JsonFile, answer: CreateAnswer, b: CreateBody, now1: string, now2: string)
    requires !IsSupabaseConfigured(env) || FallsThrough(answer)
    requires HasRequiredFields(b) && b.details.Some?
    requires file.state.Unparsable? && !file.readFault && !file.writeFault
    ensures var first := Post(env, file, answer, Parsed(b), now1);
      && first.response.status == 201
      && ReadProjects(first.file) == [NewProject(b, now1)]
      && Post(env, first.file, answer, Parsed(b), now2).response == Response(400, ErrorPayload(DuplicateTitleError))
  {
    PostAfterReadFaultDropsRecords(env, file, answer, b, now1);
    PostJsonCreates(env, file, answer, b, now1);
    PostCaseInsensitiveTwice(env, file, answer, b, b, now1, now2);
  }

  /** With the database configured and answering, a new title is inserted
      there: the stored row, renamed, is returned with 201 and the JSON file
      is neither read nor written. */
  lemma PostDatabaseCreates(env: SupabaseEnv, file: JsonFile, row: DatabaseProject, b: CreateBody, now: string)
    requires IsSupabaseConfigured(env)
    requires HasRequiredFields(b) && b.details.Some?
    ensures Post(env, file, CreateAnswered(CheckFound(0), InsertReturned(row)), Parsed(b), now)
      == Outcome(file, Response(201, ProjectPayload(FormatProject(row))))
  {
  }

  /** Create checks titles, not ids: a title that differs from a stored one
      (ignoring case) but has the same slug is accepted, and the file then
      holds two records with one id. `GenerateIdNotInjective` shows such
      titles exist. */
  lemma PostAllowsSharedIds(env: SupabaseEnv, file: JsonFile, answer: CreateAnswer, b: CreateBody, now: string, i: nat)
    requires !IsSupabaseConfigured(env) || FallsThrough(answer)
    requires HasRequiredFields(b) && b.details.Some? && !file.readFault && !file.writeFault
    requires FindByTitle(ReadProjects(file), b.title.value).None?
    requires i < |ReadProjects(file)| && ReadProjects(file)[i].id == GenerateId(b.title.value)
    ensures var out := Post(env, file, answer, Parsed(b), now);
      && out.response.status == 201
      && var stored := ReadProjects(out.file);
      && |stored| == |ReadProjects(file)| + 1
      && stored[i].id == stored[|stored| - 1].id
  {
  }
}
