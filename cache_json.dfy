/** CacheJSON: one JSON value kept in one flat file, judged stale by the
    file's modification time and a fixed time-to-live of `length` seconds.
    The first half is the class itself over the abstract machine of module
    OsFiles; the second half follows several caches sharing that machine
    through a run of writes and waiting, which is where the freshness and
    last-writer properties are proved. */
module JsonCache {
  import opened JsonValue
  import opened OsFiles

  /** The class-level defaults. */
  const DefaultLength := 3600
  const DefaultFile := "cache.json"

  /** The class-level `file_path`: computed once, from the class-level `file`
      and the working directory at the time the class is defined. */
  function DefaultFilePath(cwd: string): string {
    JoinPath(cwd, DefaultFile)
  }

  /** Python truthiness of an optional string argument: `None` and `""` are
      false. */
  predicate Given(arg: Option<string>) {
    arg.Some? && arg.value != ""
  }

  /** The staleness rule: a missing file is expired whatever `length` is;
      a present one is expired once `mtime + length` is strictly below `now`. */
  function Expired(files: Files, path: string, length: int, now: int): bool {
    if path in files then files[path].mtime + length < now else true
  }

  class CacheJson {
    /** The machine whose files and clock the cache uses. */
    const fs: FileSystem
    /** The TTL in seconds. No argument or method of the class sets it. */
    const length: int := DefaultLength
    var data: Json
    var file: string
    var filePath: string

    /** Each argument replaces its class default only when it is truthy;
        `file` never feeds into `filePath`. Nothing on disk is touched. */
    constructor (fs: FileSystem, file: Option<string>, data: Json, filePath: Option<string>)
      ensures this.fs == fs && length == 3600
      ensures this.data == (if Truthy(data) then data else JNull)
      ensures this.file == (if Given(file) then file.value else DefaultFile)
      ensures this.filePath == (if Given(filePath) then filePath.value else DefaultFilePath(fs.cwd))
    {
      this.fs := fs;
      this.data := JNull;
      this.file := DefaultFile;
      this.filePath := DefaultFilePath(fs.cwd);
      new;
      if Truthy(data) {
        this.data := data;
      }
      if Given(file) {
        this.file := file.value;
      }
      if Given(filePath) {
        this.filePath := filePath.value;
      }
    }

    /** The cache is valid exactly when reading it would find a file. */
    function IsValid(): (r: bool)
      reads this, fs
      ensures r <==> Load() != Err(NotFound)
    {
      filePath in fs.files
    }

    /** A missing file is always expired; a present one is expired exactly
        when its age exceeds `length`. */
    function IsExpired(): (r: bool)
      reads this, fs
      ensures !IsValid() ==> r
      ensures IsValid() ==> (r <==> fs.clock - fs.files[filePath].mtime > length)
    {
      Expired(fs.files, filePath, length, fs.clock)
    }

    /** Reads the file: FileNotFoundError when it is missing, JSONDecodeError
        when its text is not JSON, otherwise the stored document. The field
        `data` is neither read nor written. */
    function Load(): (r: Result<Json>)
      reads this, fs
      ensures r == Err(NotFound) <==> filePath !in fs.files
      ensures r == Err(ParseError) <==> filePath in fs.files && fs.files[filePath].content == Unparsable
      ensures r.Ok? ==> filePath in fs.files && fs.files[filePath].content == Parsed(r.value)
      ensures r != Err(WriteError)
    {
      if filePath !in fs.files then Err(NotFound)
      else match fs.files[filePath].content
        case Unparsable => Err(ParseError)
        case Parsed(d) => Ok(d)
    }

    /** `None` without an error when the file is missing; otherwise whatever
        `Load` gives, so a corrupt file still raises. */
    function Get(): (r: Result<Json>)
      reads this, fs
      ensures !IsValid() ==> r == Ok(JNull)
      ensures r.Err? <==> Load() == Err(ParseError)
      ensures IsValid() ==> r == Load()
    {
      if IsValid() then Load() else Ok(JNull)
    }

    /** Writes `data` to the file at `filePath`, stamped with the current
        time, or raises if the OS refuses the path; no other file changes. */
    method Save() returns (r: Outcome)
      modifies fs`files
      ensures r == (if filePath in fs.unwritable then Fail(WriteError) else Pass)
      ensures fs.files == Saved(old(fs.files), fs.unwritable, filePath, data, fs.clock)
    {
      if filePath in fs.unwritable {
        r := Fail(WriteError);
      } else {
        fs.files := Dump(fs.files, filePath, data, fs.clock);
        r := Pass;
      }
    }

    /** Assigns `data` first and saves second, so the field changes even when
        the write fails. After a successful write the file reads back `d`
        and is fresh; after a failed one the file is as it was. */
    method Set(d: Json) returns (r: Outcome)
      modifies this`data, fs`files
      ensures data == d
      ensures r == (if filePath in fs.unwritable then Fail(WriteError) else Pass)
      ensures fs.files == Saved(old(fs.files), fs.unwritable, filePath, d, fs.clock)
      ensures r.Pass? ==> IsValid() && Load() == Ok(d) && Get() == Ok(d) && !IsExpired()
      ensures r.Fail? ==> Get() == old(Get()) && IsExpired() == old(IsExpired())
    {
      data := d;
      r := Save();
    }
  }

  /** Two caches on one machine and one path agree on everything the disk
      decides, whatever their own `data` fields hold. */
  lemma SamePathSameView(a: CacheJson, b: CacheJson)
    requires a.fs == b.fs && a.filePath == b.filePath
    ensures a.IsValid() == b.IsValid() && a.IsExpired() == b.IsExpired()
    ensures a.Load() == b.Load() && a.Get() == b.Get()
  {
  }

  /** A cache with no file behind it: invalid, expired, `get` gives `None`
      and `load` raises FileNotFoundError. */
  lemma MissingFile(c: CacheJson)
    requires c.filePath !in c.fs.files
    ensures !c.IsValid() && c.IsExpired()
    ensures c.Get() == Ok(JNull) && c.Load() == Err(NotFound)
  {
  }

  /** The TTL comparison is strict: at exactly `mtime + length` the file is
      still fresh, one second later it is stale. */
  lemma ExpiryBoundary(files: Files, path: string, length: int, now: int)
    requires path in files
    ensures files[path].mtime + length == now ==> !Expired(files, path, length, now)
    ensures files[path].mtime + length == now - 1 ==> Expired(files, path, length, now)
  {
  }

  /** A fresh cache on the default path, driven the way a caller is meant
      to: expired at first, fresh after `set` and still fresh `length`
      seconds later, `get` returns the value, and one second more makes it
      expired again. */
  method FirstUse(fs: FileSystem, d: Json) returns (before: bool, after: bool, got: Result<Json>, atTtl: bool, pastTtl: bool)
    requires DefaultFilePath(fs.cwd) !in fs.files && DefaultFilePath(fs.cwd) !in fs.unwritable
    modifies fs`files, fs`clock
    ensures before && !after && got == Ok(d)
    ensures !atTtl && pastTtl
  {
    var cache := new CacheJson(fs, None, JNull, None);
    before := cache.IsExpired();
    var _ := cache.Set(d);
    after := cache.IsExpired();
    got := cache.Get();
    fs.Advance(DefaultLength);
    atTtl := cache.IsExpired();
    fs.Advance(1);
    pastTtl := cache.IsExpired();
  }

  /** One cache writes, another on the same path reads: the reader gets the
      written value although its own `data` was never set. */
  method SharedFile(fs: FileSystem, path: string, d: Json) returns (readerData: Json, got: Result<Json>)
    requires path != "" && path !in fs.unwritable
    modifies fs`files
    ensures readerData == JNull && got == Ok(d)
  {
    var writer := new CacheJson(fs, None, JNull, Some(path));
    var reader := new CacheJson(fs, None, JNull, Some(path));
    var _ := writer.Set(d);
    readerData := reader.data;
    got := reader.Get();
  }

  // ---------------------------------------------------------------------
  // Several caches sharing one machine, as values: each step is a `set` on
  // some path by some cache, or time passing. Queries change nothing, so
  // they need no step of their own.

  datatype Step = SetAt(path: string, d: Json) | Wait(dt: nat)

  datatype World = World(files: Files, clock: int)

  function Apply(w: World, unwritable: set<string>, s: Step): World {
    match s
    case SetAt(p, d) => World(Saved(w.files, unwritable, p, d, w.clock), w.clock)
    case Wait(dt) => World(w.files, w.clock + dt)
  }

  function Run(w: World, unwritable: set<string>, steps: seq<Step>): World
    decreases |steps|
  {
    if steps == [] then w else Run(Apply(w, unwritable, steps[0]), unwritable, steps[1..])
  }

  /** `Set` on a cache is the step `SetAt` on the world of its machine. */
  method SetStep(c: CacheJson, d: Json) returns (r: Outcome)
    modifies c`data, c.fs`files
    ensures World(c.fs.files, c.fs.clock)
      == Apply(World(old(c.fs.files), old(c.fs.clock)), c.fs.unwritable, SetAt(c.filePath, d))
  {
    r := c.Set(d);
  }

  /** Time passing on a machine is the step `Wait` on its world. */
  method WaitStep(fs: FileSystem, dt: nat)
    modifies fs`clock
    ensures World(fs.files, fs.clock) == Apply(World(old(fs.files), old(fs.clock)), fs.unwritable, Wait(dt))
  {
    fs.Advance(dt);
  }

  /** The value of the last `set` on path `p` in `steps`, if any. */
  function LastSet(steps: seq<Step>, p: string): Option<Json>
    decreases |steps|
  {
    if steps == [] then None
    else match LastSet(steps[1..], p)
      case Some(d) => Some(d)
      case None => if steps[0].SetAt? && steps[0].path == p then Some(steps[0].d) else None
  }

  /** The clock never runs backwards. */
  lemma {:induction false} ClockNeverGoesBack(w: World, unwritable: set<string>, steps: seq<Step>)
    ensures Run(w, unwritable, steps).clock >= w.clock
    decreases |steps|
  {
    if steps != [] {
      ClockNeverGoesBack(Apply(w, unwritable, steps[0]), unwritable, steps[1..]);
    }
  }

  /** A file nobody (successfully) sets is left exactly as it was. */
  lemma {:induction false} Untouched(w: World, unwritable: set<string>, steps: seq<Step>, p: string)
    requires LastSet(steps, p) == None || p in unwritable
    ensures p in Run(w, unwritable, steps).files <==> p in w.files
    ensures p in w.files ==> Run(w, unwritable, steps).files[p] == w.files[p]
    decreases |steps|
  {
    if steps != [] {
      Untouched(Apply(w, unwritable, steps[0]), unwritable, steps[1..], p);
    }
  }

  /** The disk holds the value of the last `set` on a path, whichever cache
      made it. */
  lemma {:induction false} LastWriteWins(w: World, unwritable: set<string>, steps: seq<Step>, p: string)
    requires p !in unwritable && LastSet(steps, p).Some?
    ensures p in Run(w, unwritable, steps).files
    ensures Run(w, unwritable, steps).files[p].content == Parsed(LastSet(steps, p).value)
    decreases |steps|
  {
    var next := Apply(w, unwritable, steps[0]);
    if LastSet(steps[1..], p).Some? {
      LastWriteWins(next, unwritable, steps[1..], p);
    } else {
      Untouched(next, unwritable, steps[1..], p);
    }
  }

  /** Once stale, a file stays stale until someone writes it again: time
      only moves forward and nothing else touches the file. */
  lemma StaleStaysStale(w: World, unwritable: set<string>, steps: seq<Step>, p: string, length: int)
    requires LastSet(steps, p) == None || p in unwritable
    requires Expired(w.files, p, length, w.clock)
    ensures Expired(Run(w, unwritable, steps).files, p, length, Run(w, unwritable, steps).clock)
  {
    Untouched(w, unwritable, steps, p);
    ClockNeverGoesBack(w, unwritable, steps);
  }

  /** A successful `set` restarts the TTL: from then on, as long as no one
      writes the path again, the file is fresh exactly while no more than
      `length` seconds have passed since that `set`. */
  lemma FreshExactlyWithinTtl(w: World, unwritable: set<string>, p: string, d: Json, rest: seq<Step>, length: int)
    requires p !in unwritable && LastSet(rest, p) == None
    ensures var r := Run(w, unwritable, [SetAt(p, d)] + rest);
      !Expired(r.files, p, length, r.clock) <==> r.clock - w.clock <= length
  {
    var steps := [SetAt(p, d)] + rest;
    assert steps[1..] == rest;
    var next := Apply(w, unwritable, SetAt(p, d));
    assert Run(w, unwritable, steps) == Run(next, unwritable, rest);
    Untouched(next, unwritable, rest, p);
  }
}
