# CacheJSON, modelled in Dafny

`CacheJSON` (cache_json.py) keeps one JSON value in one flat file. It treats the file as stale once its modification time plus a fixed time-to-live (`length`, 3600 seconds) lies strictly in the past. A missing file is always expired. `get` returns `None` for a missing file, and `set` overwrites the file. The model separates three parts:

- `json_value.dfy`, module `JsonValue`: the JSON documents `json.load` produces, and Python truthiness on them. The constructor's `if data:`, `if file:` and `if file_path:` guards use this truthiness.
- `os_files.dfy`, module `OsFiles`: the machine underneath. A `FileSystem` object holds three things. The first is a map from path to file, where a file is a parsed document or unparsable text, plus its mtime. The second is the clock, which stands for `time.time()`. The third is the working directory at class-definition time, for `os.getcwd()`. It also fixes the set of paths that `open(path, 'w')` refuses. `Dump` is `open(…, 'w')` plus `json.dump`.
- `cache_json.dfy`, module `JsonCache`: the class `CacheJson`, with the fields `data`, `file` and `filePath`, the constant `length`, and a reference to its `FileSystem`. Two objects on the same path therefore share the file.
  - The constructor, `Save` and `Set` are methods that change state.
  - `IsValid`, `IsExpired`, `Load` and `Get` are functions that read it.
  - A second part follows several caches on one machine through a run of `set`s and waiting (`Step`, `World`, `Run`). That is where the properties spanning several operations are proved.

Python's `None` is `JNull`. So `get` on a missing file returns `Ok(JNull)`, and so does `load` of a file holding `null`. Python does not tell these apart either. Exceptions become `Err(NotFound)` for FileNotFoundError, `Err(ParseError)` for JSONDecodeError and `Fail(WriteError)` for an OSError from `open` for writing.

Behaviours of the code a caller might not expect:
- There is no time-to-live argument. No argument or method of the class sets `length`.
- `get` and `load` never store what they read into `data`.
- A `file` argument changes the field `file` but not `filePath`. `filePath` keeps the class default, which was computed from `'cache.json'` and the working directory when the class was defined.
- `set` assigns `data` before writing, so `data` changes even when the write raises.
- The docstring of `is_expired` lists a `length` parameter that the method does not take.

## Model

| member | source | states |
|---|---|---|
| `JsonCache.CacheJson.constructor` | cache_json.py:45-70 | `length` is 3600. Each argument replaces its class default (`None`, `'cache.json'`, cwd joined with `'cache.json'`) only when it is truthy. So `data=0`, `''`, `[]` or `{}` leaves `data` as `None`. `filePath` does not depend on `file`. The file system is not touched |
| `JsonCache.CacheJson.IsValid` | cache_json.py:101-110 | valid exactly when `load` would not raise FileNotFoundError, i.e. a file exists at `filePath` |
| `JsonCache.CacheJson.IsExpired` | cache_json.py:82-99 | a missing file is expired whatever `length` is. A present file is expired exactly when its age `now - mtime` exceeds `length` |
| `JsonCache.CacheJson.Load` | cache_json.py:77-80 | FileNotFoundError exactly when the file is missing. JSONDecodeError exactly when it is present and unparsable. Otherwise the stored document. Never a write error, and `data` is not changed |
| `JsonCache.CacheJson.Get` | cache_json.py:112-124 | `None` without error when the file is missing. Fails exactly when `load` hits a corrupt file. Otherwise exactly what `load` reads |
| `JsonCache.CacheJson.Save` | cache_json.py:72-75 | the file at `filePath` now holds `data`, stamped with the current time, and every other path is unchanged. If the OS refuses the path, it raises and nothing changes |
| `JsonCache.CacheJson.Set` | cache_json.py:126-136 | `data == d` even if the write fails. The file map is the old one with only `filePath` rewritten. After a successful write, `IsValid`, `Load() == Get() == d` and not expired. After a failed write, `get` and `is_expired` answer as before |
| `OsFiles.Dump` | cache_json.py:74-75 | writing creates or overwrites exactly the entry at the path, with the document and the current time, and keeps every other entry |
| `OsFiles.JoinPath` | cache_json.py:48 | `os.path.join`: the result ends with the name, is the name when the name is absolute, and otherwise starts with the directory |
| `JsonCache.SamePathSameView` | cache_json.py:77-124 | two caches on one machine and one path give the same `is_valid`, `is_expired`, `load` and `get`, whatever their `data` fields hold: the file, not the field, is authoritative |
| `JsonCache.MissingFile` | cache_json.py:96-124 | with no file: not valid, expired, `get` is `None` and `load` raises FileNotFoundError |
| `JsonCache.ExpiryBoundary` | cache_json.py:97 | `mtime + length == now` is not expired, and `mtime + length == now - 1` is expired (strict `<`) |
| `JsonCache.FirstUse` | cache_json.py:155-163 | a default cache with no file is expired. After `set(d)` it is not expired and `get` returns `d`. It is still fresh exactly `length` seconds later, and expired one second after that |
| `JsonCache.SharedFile` | cache_json.py:72-80 | after one cache `set`s `d` on a path, a second cache on that path, whose `data` is still `None`, gets `d` |
| `JsonCache.SetStep` | cache_json.py:126-136 | `set` on a cache changes its machine exactly as the run step `SetAt(filePath, d)` does, so the run lemmas below speak about the class |
| `JsonCache.WaitStep` | cache_json.py:97 | time passing on the machine (`time.time()` growing) is exactly the run step `Wait` |
| `JsonCache.Untouched` | cache_json.py:72-75 | a path that no step successfully `set`s keeps exactly the file (content and mtime) it had, or stays missing |
| `JsonCache.LastWriteWins` | cache_json.py:126-136 | after any run, the file at a writable path holds the value of the last `set` on it, whichever cache made it |
| `JsonCache.StaleStaysStale` | cache_json.py:82-99 | a stale or missing file stays expired through any run that does not write it |
| `JsonCache.FreshExactlyWithinTtl` | cache_json.py:96-97 | after a successful `set`, with no later write to the path, the file is fresh exactly while at most `length` seconds have passed since that `set` |

## Left out

- `__str__` (cache_json.py:138-147): it only formats `data` with Python's `str()` for debugging.
- The `__main__` block and example.py: the HTTP fetch through `requests` and the printing. `FirstUse` keeps only the calls they make on the cache.
- JSON text: `json.dump` then `json.load` is taken to be the identity on `Json`, and a file's text is either a parsed document or "unparsable". Floating-point numbers, and values `json.dump` cannot serialise, are not modelled.
- Real time and real files: the clock is an integer number of seconds, and mtimes are whole seconds. Directories, symbolic links and files that exist but cannot be read are not modelled. `os.path.exists` is true for exactly the paths in the map.
- The clock only moves forward: `Wait` and `FileSystem.Advance` take a non-negative number of seconds. `StaleStaysStale` depends on this. With a wall clock set backwards, a stale file turns fresh again in the source.
- Paths are raw map keys compared as strings. In the source, `cache.json`, `./cache.json` and the working directory joined with `cache.json` name one file, and a relative path is resolved against the working directory at each call. The model treats them as distinct keys, and it freezes the working directory at class definition.
- Assigning `length`, `file_path` or `data` on an instance or on the class from outside it. In Python these are class attributes that any caller may reassign, and an instance that has not overridden one reads the class value at each use. The model fixes `length` at 3600 and copies the class defaults into each object when it is constructed.
- `OsFiles.JoinPath`: models `os.path.join` with two components only.
- Interrupted or non-atomic writes and races between processes. The model is sequential, and every write completes or is refused before anything is written.
