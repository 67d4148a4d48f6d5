# flyhostel sensors and data helpers in Dafny

This project models the sequential core of the flyhostel monitoring code:

- **The sensor supervisor** (`flyhostel/sensors/sensor.py`). The `Sensor` thread polls an
  environmental sensor over a serial line. It merges each parsed answer with a brightness value
  taken from a camera snapshot, stores the result, and appends the stored reading to a
  tab-separated log when the throttle allows. It issues a reboot after three consecutive answers
  that fail to parse; a failed exchange itself raises and ends the supervisor. Here one `loop()` call plus the counter bookkeeping of `run()` is a pure step
  function, `Supervisor.Step`, over integer time. The stored reading, the failure counter, a
  count of reboot commands, the log lines and a phase (running, crashed, stopped) make up the
  state.
- **The results downloader's path logic** (`flyhostel/data/__init__.py`). This covers pattern
  filtering of remote files, `sanitize_path`, the per-session pattern generators with six-digit
  session padding, the `/./` split of the remote folder, the source/destination pairs handed to
  the Dropbox sync, and the session range built from the command line.
- **imgstore chunk bookkeeping** (`flyhostel/quantification/imgstore.py`). This covers index file
  names built from chunk numbers, chunk numbers parsed back from globbed names, and the
  frame-number and frame-time arrays of all chunks flattened in order.
- **Trajectory file discovery** (`flyhostel/quantification/trajectorytools.py`). The trajectory
  map's paths are returned sorted by key, without the "original" files.

Python's string operations are modelled with CPython's semantics: leftmost non-overlapping
`replace`, `split` and `in` (module `Strings`), `str`, `int` and `zfill` (module `Decimal`),
`os.path.join` and `os.path.basename` (module `Paths`), and `sorted` as a stable insertion sort
(module `Sorting`).

Inputs stand in for everything the code reads from the outside world:

- the serial exchange becomes a `Poll` value;
- the camera snapshot becomes an `Artifact` (missing, or its mtime and an opaque brightness);
- the clock becomes `now`, one integer per cycle;
- `strftime` becomes a function parameter `render`;
- a regular-expression match becomes a function returning matched, not matched or raised;
- the Dropbox listing, the glob result and the loaded `.npz` arrays become sequences and maps.

Behaviour of the code that a reader may not expect:

- A transport failure (a non-zero code from the serial exchange) raises in `communicate`, and
  `run` only catches `KeyboardInterrupt`. That failure therefore ends the supervisor, modelled
  as the `Crashed` phase, instead of being counted as a failure.
- `os.system("reboot")` does not end the loop. The counter keeps growing, so a longer failure
  streak issues no second reboot until a success resets it.
- The write gate compares the clock with the timestamp the successful exchange has just set.
  With one clock value per cycle, a successful cycle therefore never writes. A write does not
  move that timestamp, so once the gate is open every failed cycle writes the stored reading
  again. The log is not spaced by the throttle interval.
- The sentinel from `reset()` has `camera_light` 0, not `None`.

## Model

| member | source | states |
|---|---|---|
| Readings.Reset | flyhostel/sensors/sensor.py:68-78 | before any success the stored reading has timestamp 0, camera brightness 0 and an empty date, and its log line shows an empty date and six zeros |
| Readings.Line | flyhostel/sensors/sensor.py:153-165 | a log line starts with the date and a tab and ends in a newline |
| Readings.LineShape | flyhostel/sensors/sensor.py:153-165 | a log line has exactly six tabs and ends in its only newline when the date rendering holds neither character |
| Readings.LineRoundTrip | flyhostel/sensors/sensor.py:153-165 | splitting a written line on tabs and reading the numbers back gives the seven values in column order: date, temperature, humidity, light, camera light, pressure, altitude |
| Supervisor.Start | flyhostel/sensors/sensor.py:35-48 | start-up succeeds when a port is given or the device report lists the sensor; a given port is used as is, otherwise the port is the one the report lists for the sensor label, and a missing sensor is the only failure; it begins with the sentinel reading, zero counter and empty log |
| Supervisor.Detect | flyhostel/sensors/sensor.py:80-88 | returns the port mapped to "Environmental sensor", and fails exactly when that label is absent |
| Supervisor.CameraLight | flyhostel/sensors/sensor.py:91-102 | brightness is available iff the snapshot exists and its age is at most 300, so age 300 still counts; when available it is the snapshot's brightness |
| Supervisor.Communicate | flyhostel/sensors/sensor.py:104-120 | raises exactly on a transport failure; otherwise returns the parse status, keeps the stored reading on a non-zero status, and on status 0 replaces it wholesale with the answer stamped `now`, `render(now)` and that cycle's camera value |
| Supervisor.GateOpensAfterThrottle | flyhostel/sensors/sensor.py:51-57 | the write gate opens only when more than `freq` seconds separate the clock from the stored timestamp (so it is shut at exactly `freq`), and stays open as the clock advances |
| Supervisor.Loop | flyhostel/sensors/sensor.py:126-133 | after the exchange, appends the line of whatever is stored iff a log file is set and the clock is strictly past the stored timestamp plus the throttle |
| Supervisor.NextCount | flyhostel/sensors/sensor.py:142-146 | the counter is zero exactly after status 0 and grows by exactly one on every other status |
| Supervisor.Step | flyhostel/sensors/sensor.py:136-151 | a crashed or stopped supervisor does nothing more; an interrupt stops it; the log gains at most one line, at the end |
| Supervisor.Run | flyhostel/sensors/sensor.py:136-165 | over any run a crashed or stopped supervisor stays as it is, the old log is a prefix of the new one, and the log gains at most one line per event |
| Supervisor.RunConsistent | flyhostel/sensors/sensor.py:112-118 | the stored reading is always the sentinel or a reading whose date is the rendering of its timestamp |
| Supervisor.SuccessNeverWrites | flyhostel/sensors/sensor.py:51-57 | with a non-negative throttle and one clock reading per cycle, a successful cycle writes nothing, because the gate reads the timestamp that exchange just set; it clears the counter and issues no reboot |
| Supervisor.StartupFailureLogsSentinel | flyhostel/sensors/sensor.py:51-78 | from start-up with a log file, a first answer that fails to parse logs the sentinel line iff the clock is past `freq`, because the sentinel's timestamp is 0 |
| Supervisor.FailureWritesStored | flyhostel/sensors/sensor.py:126-133 | a failed parse keeps the stored reading, adds one to the counter, and writes the stored reading whenever the gate is open |
| Supervisor.FailuresWriteBackToBack | flyhostel/sensors/sensor.py:130-131 | once the gate is open, two failed cycles one second apart both write the same stored reading |
| Supervisor.TransportFailureCrashes | flyhostel/sensors/sensor.py:104-108 | a transport failure ends the run: nothing is counted or written, and later events change nothing |
| Supervisor.FailureStreak | flyhostel/sensors/sensor.py:139-148 | a streak of n parse failures adds n to the counter, keeps the reading, and reboots once iff the streak carries the counter across 3 |
| Supervisor.RebootOnceFromStart | flyhostel/sensors/sensor.py:18 | from start-up, three or more parse failures issue exactly one reboot, fewer issue none, and the sentinel stays stored |
| Data.MatchFilesToPatterns | flyhostel/data/__init__.py:16-31 | the nested loop keeps, in input order, exactly the files some pattern matches, each once, with the folder removed; never more entries than files |
| Data.KeptFilesConcat | flyhostel/data/__init__.py:17-27 | files are judged independently and in order: filtering a concatenation concatenates the filtered parts |
| Data.KeptFilesLength | flyhostel/data/__init__.py:24-27 | at most one entry per input file |
| Data.RaisedIsNoMatch | flyhostel/data/__init__.py:20-29 | a pattern whose match raises gives the same result as one that does not match |
| Data.RemoveLeadingFolder | flyhostel/data/__init__.py:22 | a file that is the folder followed by a folder-free remainder is kept as that remainder |
| Paths.SanitizePath | flyhostel/data/__init__.py:34-37 | the result has no `//`, equals the path with each run of slashes shrunk to one, keeps every non-slash character in order, is no longer, and is the path itself when it had no `//` |
| Paths.CollapseIdempotent | flyhostel/data/__init__.py:34-37 | sanitizing a sanitized path changes nothing |
| Paths.CollapseReplace | flyhostel/data/__init__.py:35-36 | one `replace("//", "/")` pass leaves the final sanitized form unchanged, which is why the loop may repeat it |
| Data.Sync | flyhostel/data/__init__.py:34-45 | both paths handed to the transfer are what `sanitize_path` makes of them, which is the reference `Collapse` of each: free of `//` and keeping the non-slash characters |
| Data.FileTypeOf | flyhostel/data/__init__.py:75-78 | only "analysis" and "imgstore_meta" are known file types; any other key fails |
| Data.ListFilesOneSession | flyhostel/data/__init__.py:81-84 | yields 7 analysis paths or 4 imgstore paths, each under the folder; every analysis path names `session_` plus the padded session, and the three imgstore chunk files name the padded session |
| Data.AnalysisPatterns | flyhostel/data/__init__.py:48-60 | seven paths, each under the folder and each naming `session_` followed by the session |
| Data.ImgstoreMetaPatterns | flyhostel/data/__init__.py:63-72 | four paths with the metadata file under the folder; for a relative session the three chunk files also lie under the folder and name the session |
| Data.Patterns | flyhostel/data/__init__.py:75-78 | the generator picked by file type gives 7 or 4 paths, all under the folder for a relative session |
| Decimal.ParseZFillStr | flyhostel/data/__init__.py:82 | `str(n).zfill(w)` reads back as n for every integer and width: padding adds only zeros after any sign |
| Data.SessionFiles | flyhostel/data/__init__.py:119 | the generator's count times the number of sessions, all under the shown folder |
| Data.SessionFilesSingle | flyhostel/data/__init__.py:119 | one session contributes exactly its generator's paths |
| Data.SessionFilesConcat | flyhostel/data/__init__.py:119 | the per-session lists are chained in session order: listing two runs of sessions gives the first run's paths followed by the second's |
| Data.FolderDisplay | flyhostel/data/__init__.py:100 | the shown folder is never longer than the folder, and is the folder itself when it has no `/./` |
| Data.Subfolder | flyhostel/data/__init__.py:101-105 | without `/./` the sub-folder is empty |
| Data.SubfolderIsSecondPiece | flyhostel/data/__init__.py:101-105 | with two or more `/./`, the sub-folder is the piece between the first and the second |
| Data.FolderWithOneDotSegment | flyhostel/data/__init__.py:100-105 | with exactly one `/./` the displayed folder joins the two sides with `/` and the sub-folder is the part after it |
| Data.TwoDotSegmentsDropTail | flyhostel/data/__init__.py:100-129 | with two `/./` the shown folder keeps all three pieces, but the sub-folder is only the middle one, so every destination is rootdir joined with that middle piece and the last piece is dropped |
| Data.DotSegmentCanRemain | flyhostel/data/__init__.py:100-107 | the folder `/././` keeps a `/./` after one replacement, so the assertion on the displayed folder fails |
| Data.AnalysisFolder | flyhostel/data/__init__.py:108-111 | only version 1 yields a folder, the shown one; version 2 fails on the misspelt join and every other version on the unbound name |
| Data.SyncArgs | flyhostel/data/__init__.py:128-131 | one pair per kept file, in order: `Dropbox:` + displayed folder + `/` + file, and rootdir joined with sub-folder and the file without leading slashes |
| Data.DestinationUnderRoot | flyhostel/data/__init__.py:129 | when the sub-folder is relative, every destination starts with rootdir, whatever the kept file |
| Data.AbsoluteSubfolderDropsRoot | flyhostel/data/__init__.py:128-129 | when the sub-folder is absolute, every destination is that sub-folder joined with the kept file: rootdir plays no part |
| Data.AbsoluteSubfolderEscapesRoot | flyhostel/data/__init__.py:97-129 | the folder `/a/.//b` passes both assertions, but its sub-folder `/b` is absolute, so the destination of a kept file `x` is `/b/x`, outside rootdir `/r` |
| Data.DownloadResults | flyhostel/data/__init__.py:92-131 | fails unless rootdir and folder are absolute; a `/./` left in the shown folder fails next; version 2 fails on the misspelt join before the file type is looked up, an unknown file type fails next, and any other version but 1 then fails on the unbound folder; every other call succeeds, syncing nothing exactly when no candidate file (listing or session paths) is kept, and otherwise handing `sync` the `SyncArgs` pairs of the kept files; a plan has at most one pair per listed file when built from the Dropbox listing, takes every source from the shown folder and, for a relative sub-folder, puts every destination under rootdir |
| Data.SessionsArg | flyhostel/data/__init__.py:167-171 | no sessions stays none; anything but two numbers fails; two numbers a, b give a, a+1, ..., b-1 |
| ImgStore.ChunkOfPath | flyhostel/quantification/imgstore.py:45 | a name without `.npz` is read as the integer of its base name |
| ImgStore.GlobbedChunkName | flyhostel/quantification/imgstore.py:36-47 | a globbed `<folder>/<stem>.npz` name whose stem holds no `/` or `.` is read as the integer of that stem, whatever the folder |
| ImgStore.ChunkRoundTrip | flyhostel/quantification/imgstore.py:44-56 | the chunk number parsed from the base name of the index file built for chunk n, in any folder, is n |
| ImgStore.ChunkFileNameInjective | flyhostel/quantification/imgstore.py:50-56 | different chunk numbers name different index files |
| ImgStore.ParseChunks | flyhostel/quantification/imgstore.py:44-47 | succeeds iff every globbed name parses, giving one chunk per file in file order |
| ImgStore.NamedIndexFiles | flyhostel/quantification/imgstore.py:50-56 | one index file per given chunk number, in order, each parsing back to its number |
| ImgStore.IndexFiles | flyhostel/quantification/imgstore.py:35-56 | explicit numbers are kept exactly, with the files named after them; otherwise it succeeds exactly when every globbed name parses, the files are the globbed ones sorted by string order, and each chunk is the number parsed from its file |
| ImgStore.Dedup | flyhostel/quantification/imgstore.py:60-62 | the files keyed into the dict: each file once, none missing, none added |
| ImgStore.LoadAll | flyhostel/quantification/imgstore.py:60-62 | loading succeeds iff every index file exists |
| ImgStore.ReadStoreMetadata | flyhostel/quantification/imgstore.py:31-72 | with explicit numbers the stored chunk list is exactly those numbers and reading succeeds iff all their index files exist |
| ImgStore.ReadGlobbed | flyhostel/quantification/imgstore.py:35-47 | without chunk numbers, reading succeeds iff every globbed name parses and loads, with one chunk per file of the sorted glob, parsed from its name |
| ImgStore.ReadFrames | flyhostel/quantification/imgstore.py:58-72 | on success every listed index file loaded, and the frame arrays are those of the listed files, each taken once, flattened in order |
| ImgStore.AppendChunk | flyhostel/quantification/imgstore.py:58-69 | one more chunk number appends its frames, or leaves the frames unchanged when the number was already listed; the chunk list grows either way |
| ImgStore.Frames | flyhostel/quantification/imgstore.py:64-69 | flattening one file gives that file's arrays |
| ImgStore.FramesConcat | flyhostel/quantification/imgstore.py:64-69 | flattening two runs of files concatenates their flattened arrays, in order |
| ImgStore.FramesAppend | flyhostel/quantification/imgstore.py:64-69 | the flattened frames follow first-occurrence file order; a repeated file adds nothing |
| Sorting.SortBy | flyhostel/quantification/trajectorytools.py:11 | `sorted` returns a permutation of its input, ordered by the comparison |
| Sorting.StrLeConnected | flyhostel/quantification/imgstore.py:36-43 | Python's string order compares any two paths either way round, so the globbed files can be sorted |
| Trajectories.SortedKeptEntries | flyhostel/quantification/trajectorytools.py:10-13 | the kept items in ascending key order: none contains "original", each kept item appears as often as in the input, and nothing else appears |
| Trajectories.KeepEntriesCount | flyhostel/quantification/trajectorytools.py:13 | the filter keeps every item whose path lacks "original" as often as it occurs, and drops the others |
| Trajectories.GetTrajectoryFiles | flyhostel/quantification/trajectorytools.py:7-14 | returns one path per item without "original", in ascending key order, each a value of the input map |

## Left out

- The camera capture loop (`flyhostel/sensors/camera.py`) runs `libcamera-jpeg` forever in a thread. Only the snapshot it leaves behind is modelled, as the `Artifact` input.
- Serial I/O (`utils.talk`, `safe_json_load`, port opening, baud rate, the 5-second timeout) is not part of this model. The `Poll` input stands for its outcome.
- A successful answer is assumed to carry the five numeric fields. A payload lacking one would make `write` raise `KeyError`, and a non-dict payload on a parse failure would make line 110 raise; neither is modelled.
- Sensor values and the snapshot brightness are Python floats (`cv2.imread(...).mean()`). The model uses integers rendered with `str`, and float formatting is not modelled.
- `time.time()` is called up to three times per cycle. The model uses one integer `now` per cycle.
- Supervisor.SuccessNeverWrites: with `freq` 0 the program does write after a success, because the `time.time()` in `must_update` is later than the one that stamped the reading. With one clock reading per cycle the model cannot see this, so the lemma's promise holds for the program only with a positive throttle.
- `strftime` is the parameter `render`, and calendar logic is not modelled.
- Reading `FREQUENCY` from the configuration file, with its fallback of 60, is replaced by `Config.freq`.
- `os.system("reboot")` is a counter of reboot commands; its effect on the machine is outside the model.
- Two more exceptions escape `run` and would end the supervisor like a transport failure: `cv2.imread` returns `None` for an empty or unreadable snapshot, so `im.mean()` raises, and opening the log file for appending can fail. Neither is modelled: the snapshot is either missing or has a brightness, and appending to the log always succeeds.
- Thread start, `print`, `verbose` and logging are not modelled. `KeyboardInterrupt` is the `Interrupt` event. As launched, `run` executes in the `Sensor` thread, and Python delivers `KeyboardInterrupt` only to the main thread, so the program never actually reaches `Stopped`.
- Dropbox `list_folder` is the `listing` input. The transfers (`sync_`), the `sync_args.pickle` dump, `ncores` and `joblib` dispatch are left out: they are I/O.
- Regular-expression semantics are not modelled; the match is a function parameter that may report a raised error.
- Version 2 of `download_results` calls the misspelt `os.path.jon` and is modelled as that error. Other versions except 1 leave `analysis_folder` unbound and are modelled as an error too.
- `argparse` handling in `get_parser` and `main` is not modelled beyond the two-number session range.
- `_read_store_metadata` (YAML) and the other store metadata fields are left out. `np.load` is a map from path to the two arrays, and a missing key in a loaded file is not modelled.
- `glob` is the `globbed` input. Its pattern restriction to `*.npz` is not modelled.
- `frame_time` holds floating-point timestamps in the store. `ChunkIndex.frameTime` uses integers, because flattening never looks at the values.
- `load_trajectories` and `concatenate.get_trajectories` are foreign library calls. The trajectory map is an input given as its items, with integer keys.
- Decimal.ParseInt: Python's `int()` also accepts surrounding whitespace, underscores between digits and non-ASCII digits. These are treated as parse errors here.
