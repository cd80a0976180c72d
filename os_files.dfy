/** The part of the operating system the cache talks to: a flat map from path
    to file, the wall clock `time.time()`, the working directory `os.getcwd()`
    and the paths that `open(path, 'w')` refuses. */
module OsFiles {
  import opened JsonValue

  /** What a file holds: a document `json.load` can read back, or text it
      rejects. */
  datatype Content = Parsed(value: Json) | Unparsable

  /** A file: its content and `os.path.getmtime`, in whole seconds. */
  datatype Entry = Entry(content: Content, mtime: int)

  type Files = map<string, Entry>

  /** The exceptions the cache lets through: FileNotFoundError from `open`
      for reading, JSONDecodeError from `json.load`, OSError from `open` for
      writing. */
  datatype Error = NotFound | ParseError | WriteError

  datatype Result<T> = Ok(value: T) | Err(error: Error)

  datatype Outcome = Pass | Fail(error: Error)

  datatype Option<T> = None | Some(value: T)

  /** `os.path.join(dir, name)` for two components: an absolute `name` wins,
      otherwise one separator goes between them unless `dir` is empty or
      already ends in one. */
  function JoinPath(dir: string, name: string): (r: string)
    ensures |name| <= |r| && r[|r| - |name|..] == name
    ensures name != [] && name[0] == '/' ==> r == name
    ensures (name == [] || name[0] != '/') ==> dir <= r
  {
    if name != [] && name[0] == '/' then name
    else if dir == [] || dir[|dir| - 1] == '/' then dir + name
    else dir + "/" + name
  }

  /** `open(path, 'w')` followed by `json.dump(d, handle)` at time `now`: the
      file at `path` is created or truncated and then holds `d`, stamped `now`. */
  function Dump(files: Files, path: string, d: Json, now: int): (r: Files)
    ensures r.Keys == files.Keys + {path}
    ensures r[path] == Entry(Parsed(d), now)
    ensures forall q :: q in files && q != path ==> r[q] == files[q]
  {
    files[path := Entry(Parsed(d), now)]
  }

  /** A save that the OS may refuse: a path in `unwritable` (a missing
      directory, no permission) raises before anything is written. */
  function Saved(files: Files, unwritable: set<string>, path: string, d: Json, now: int): Files {
    if path in unwritable then files else Dump(files, path, d, now)
  }

  /** The machine the caches run on. Every CacheJson object holds a reference
      to one, so two objects on the same path see the same file. */
  class FileSystem {
    var files: Files
    var clock: int
    /** The working directory when the class was defined. */
    const cwd: string
    const unwritable: set<string>

    constructor (cwd: string, unwritable: set<string>, files: Files, clock: int)
      ensures this.cwd == cwd && this.unwritable == unwritable
      ensures this.files == files && this.clock == clock
    {
      this.cwd := cwd;
      this.unwritable := unwritable;
      this.files := files;
      this.clock := clock;
    }

    /** Time passes; no file changes. */
    method Advance(dt: nat)
      modifies this`clock
      ensures clock == old(clock) + dt
    {
      clock := clock + dt;
    }
  }
}
