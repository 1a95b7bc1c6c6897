/** The JSON file the projects fall back to, as an abstract store: what is on
    disk (no file, text that does not parse, or a stored list) and two
    environment faults, one that makes every read fail and one that makes
    every write fail. */
module FileStore {
  import opened Wrappers
  import opened Records

  /** What `data/projects.json` holds. */
  datatype FileState = Missing | Unparsable | Stored(projects: seq<Project>)

  /** The file and the I/O faults that persist across calls (a directory that
      cannot be read, a disk that refuses writes). */
  datatype JsonFile = JsonFile(state: FileState, readFault: bool, writeFault: bool)

  /** The error `writeProjectsToJSON` re-throws. */
  datatype WriteError = WriteFailed

  /** `readProjectsFromJSON`: never fails; a missing file or any read or parse
      error reads as no projects. */
  function ReadProjects(f: JsonFile): (projects: seq<Project>)
    ensures f.state.Missing? || f.state.Unparsable? || f.readFault ==> projects == []
    ensures f.state.Stored? && !f.readFault ==> projects == f.state.projects
  {
    if f.readFault then []
    else match f.state
      case Missing => []
      case Unparsable => []
      case Stored(ps) => ps
  }

  /** `writeProjectsToJSON`: replaces the whole file with the serialised list,
      whatever was there before, or fails and reports it. */
  function WriteProjects(f: JsonFile, projects: seq<Project>): (r: Result<JsonFile, WriteError>)
    ensures r.Err? <==> f.writeFault
    ensures r.Ok? ==> r.value == f.(state := Stored(projects))
  {
    if f.writeFault then Err(WriteFailed) else Ok(f.(state := Stored(projects)))
  }

  /** A successful write is read back exactly, whatever the file held before:
      a missing or unparsable file is replaced by valid JSON. */
  lemma ReadAfterWrite(f: JsonFile, projects: seq<Project>)
    requires !f.readFault && !f.writeFault
    ensures WriteProjects(f, projects).Ok?
    ensures ReadProjects(WriteProjects(f, projects).value) == projects
  {
  }

  /** Rewriting what was just read leaves a stored list as it was: no field
      or record is lost or reordered. */
  lemma RewriteUnchanged(f: JsonFile)
    requires f.state.Stored? && !f.readFault && !f.writeFault
    ensures WriteProjects(f, ReadProjects(f)) == Ok(f)
  {
  }
}
