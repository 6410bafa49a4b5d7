# Verified model of the ucgmsim job scheduler, parameter dictionary and file layouts

This project is a Dafny model of five pieces of the ucgmsim plotting and simulation utilities.
For each piece it proves the behaviour the code promises.

- **The perspective-animation renderer's scheduler** (`plot/plot_srf_perspective.py`).
  - A coordinator hands jobs to pull-based workers from a FIFO queue (`msg_list`).
  - It counts the generator jobs still outstanding (`msg_deps`) and the workers not yet stopped (`nproc`).
  - It records, per worker, the last entry sent (`in_progress`).
  - Finishing `load_xyts` fans out one `load_xyts_ts` shard per worker. Finishing a shard enqueues a `timeslice` render job for each dynamic frame whose timestep falls in that shard.
  - An empty queue yields Wait while generators are outstanding, and Stop once none are.
  - Workers run what they are sent and log sleeps and render jobs.
  - At the end of an animated run, the frame files are renumbered so that the movie opens and closes on copies of its first and last frames.
  - Scheduler files:
    - `scheduler.dfy` holds the coordinator: the `Coordinator` class with `HandleRequest`, the books as a value, the resolver, the initial queue, the shard partition, and the loop's progress measure.
    - `worker.dfy` holds the worker loop.
    - `renumber.dfy` holds the renumbering loops over a map from frame index to image.
- **`DotDictify` and `load_params`** (`qcore/utils.py`), in `dotdict.dfy`.
  - A dictionary whose plain-dict values are wrapped on insertion.
  - A lookup of a missing key inserts an empty child.
  - Attribute access is the same pair of operations (`__setattr__`, `__getattr__`).
  - Parameter files are merged left to right at the top level.
- **The simulation directory structure** (`qcore/simulation_structure.py`), in `simstructure.dfy`: realisation names, the fault a realisation belongs to, and the `Srf`/`Stoch`/`Sim_params` locations and paths.
- **The NZ National Seismic Hazard Model fault file** (`qcore/nhm.py`), in `nhm.dfy`:
  - the fixed-row parser `load_nhm`;
  - the line layout of `NHMFault.write`;
  - the record shaping of `sample_2012`;
  - a round trip from `write` back through `load_nhm`: a new file that `write` creates with the header and one fault loads as that fault, with both rate sigmas 0. It is proved for a fault that `write` can lay out unambiguously (`Writable`), and for header lines without a newline:
    - each formatted number is one word that parses back to itself;
    - the second and third numbers on a line are narrower than their ten-character column;
    - the name is already stripped and holds no newline;
    - the tectonic and fault types are single words.
- **The header of a station-value file** (`plot/plot_stations.py`), in `stations.dfy`:
  - the six header lines: title, legend, colour palette and station marker, palette range, column count and column labels;
  - the property scans that overwrite defaults.

Shared modules:

- `whitespace.dfy` defines `split()` and `strip()` without arguments once, for a given whitespace predicate. Python 3 text and Python 2 byte strings differ only in that predicate.
- `pybytes.dfy` models Python 2 byte-string `split()` and `strip()`, whose whitespace is the six ASCII bytes space, tab, newline, carriage return, vertical tab and form feed. The station-file header uses them.
- `pystr.dfy` models the Python 3 string operations the other parsers use:
  - `split()`, `split(c)`, `strip()`, `join`;
  - right-aligned padding;
  - `str(int)`.
- `seqs.dfy` holds generic sequence facts.
- `wrappers.dfy` holds `Option` and `Result`. An exception raised by the source is an `Err`.

Opaque things are parameters of the model rather than code:

- **Numbers.** IEEE doubles are Dafny `real`s. `float(s)` and `int(s)` are parameters `parse` and `parseInt`, returning `None` where Python raises. The fixed-width number formats of `write` are a parameter `Formats`.
- **The file system.** `os.path.exists` and `os.path.abspath` are parameters.
- **Random draws.** They are a `Draws` value.
- **Magnitude physics.** It is a `Physics` value.
- **`xpos`.** The timestep shown by dynamic frame i, `int(round(i / framerate / dt))`, is a parameter `xpos`.

## Model

| member | source | states |
|---|---|---|
| Scheduler.Coordinator.HandleRequest | plot/plot_srf_perspective.py:461-506 | One loop iteration for the requesting worker. The new books and the reply are exactly `Serve` of the old books: resolve the acknowledged job, synthesise Wait/Stop on an empty queue, dequeue the head into the requester's slot. The class invariant (`Inv`) is kept. |
| Scheduler.Coordinator.constructor | plot/plot_srf_perspective.py:424-458 | Once the set-up has succeeded, the initial books: the set-up queue, one generator outstanding exactly when an animation has an XYTS file, every worker running, every slot empty (Wait, standing for `None`). |
| Scheduler.ServeKeepsInv | plot/plot_srf_perspective.py:461-506 | Serving a running worker preserves the invariant: the queue holds only real jobs of an n-way split; `msg_deps` equals the generators queued plus those in slots; exactly `workers - nproc` slots hold Stop; no worker is stopped while generators are outstanding. The lemma also proves that a generator is only acknowledged while `nproc` equals the spawned worker count, so the shard stride is right. |
| Scheduler.ServeRecords | plot/plot_srf_perspective.py:493-506 | Given an extended queue of jobs whose generators `msg_deps` accounts for, the Wait, Stop and dequeue branches all leave books satisfying the invariant. |
| Scheduler.RecordKeepsInv | plot/plot_srf_perspective.py:503-506 | Overwriting the requester's slot with the reply adjusts the generator and Stop counts by what left and what arrived; other slots are untouched. |
| Scheduler.StopOnlyWhenDone | plot/plot_srf_perspective.py:493-500 | Stop is sent only when the queue is empty and no generator is outstanding. `nproc` drops by one exactly when Stop is sent. |
| Scheduler.AllWorkersStopped | plot/plot_srf_perspective.py:458-461 | When the loop ends (`nproc == 0`), every worker's slot holds Stop: each worker received exactly one Stop. |
| Scheduler.WaitOnlyWhileGeneratorInFlight | plot/plot_srf_perspective.py:493-501 | A worker is sent Wait (`None`) only while some other worker holds a generator (`load_xyts` or a `load_xyts_ts` shard). Finishing that generator extends the queue or lowers `msg_deps`, so waiting workers are not left waiting for nothing. |
| Scheduler.ServeProgress | plot/plot_srf_perspective.py:461-506 | Termination measure of the coordinator loop: the jobs queued, plus those still to be generated from the slots, plus `nproc`. It is positive while workers run, every reply other than Wait lowers it by exactly one, and a Wait leaves it unchanged. So at most that many replies other than Wait are sent before `nproc` reaches 0. |
| Scheduler.ResolveWork | plot/plot_srf_perspective.py:467-490 | The jobs the resolver enqueues on acknowledging a job, each with what it later generates, are exactly the work that job was counted as leading to: all shards and their frames for `load_xyts`, a shard's frames for `load_xyts_ts`, nothing otherwise. |
| Scheduler.ResolveDependencies | plot/plot_srf_perspective.py:467-491 | The resolver appends `Resolve(finished)` to the queue and changes the generator count by `Delta`. That is +n-1 for `load_xyts`, -1 for a shard, and 0 otherwise. |
| Scheduler.ResolveJobs | plot/plot_srf_perspective.py:467-491 | What the resolver enqueues is only real jobs keyed for an n-way split. It enqueues n generators when `load_xyts` finishes, and none otherwise. |
| Scheduler.FanOut | plot/plot_srf_perspective.py:476-478 | Finishing `load_xyts` yields exactly n shard jobs: shard j has start j and stride n, and all n are generators. |
| Scheduler.ShardMembership | plot/plot_srf_perspective.py:481-485 | `x in range(start, nt, n)` holds exactly when 0 <= x < nt and x mod n == start, for start < n. |
| Scheduler.FramesWhereBetween | plot/plot_srf_perspective.py:482-490 | The render jobs of the frame loop number only frames first..first+k-1. |
| Scheduler.FramesWhereCount | plot/plot_srf_perspective.py:482-490 | Frame first+i appears exactly once if i < k and its test holds, and never otherwise. |
| Scheduler.ShardJobsFrames | plot/plot_srf_perspective.py:480-490 | A shard enqueues render jobs only for dynamic frames, numbered `frames`..`frames+frames_sr-1`. |
| Scheduler.ShardJobsCount | plot/plot_srf_perspective.py:480-490 | A shard enqueues dynamic frame i once exactly when xpos(i) lies in the shard's range, and not at all otherwise. |
| Scheduler.AllShardsFrames | plot/plot_srf_perspective.py:480-491 | All shards together enqueue only dynamic frame numbers. |
| Scheduler.AllShardsCount | plot/plot_srf_perspective.py:480-491 | After shards 0..s-1, dynamic frame i has been enqueued once if xpos(i) is in 0..nt-1 and falls in one of those shards, and never otherwise. |
| Scheduler.PartitionCoverage | plot/plot_srf_perspective.py:480-491 | Once all n shards have completed, frame `frames+i` is enqueued exactly once when 0 <= xpos(i) < nt and never otherwise, and no static frame number 0..frames-1 is enqueued. |
| Scheduler.FrameJobs | plot/plot_srf_perspective.py:436-452 | The set-up frame loops enqueue `count` render jobs numbered first, first+1, ... in order, none of them generators. |
| Scheduler.EnqueueFrames | plot/plot_srf_perspective.py:436-452 | The loop appends exactly `FrameJobs(first, count)` to the queue. |
| Scheduler.BuildInitialQueue | plot/plot_srf_perspective.py:424-453 | An animation fails with ZeroDivisionError exactly when a frame loop divides by zero: a single camera-move frame (`frames - 1` is 0), camera-move frames with no fade-out frames (`t_frames` is 0), or a single fade-out frame (`t_frames - 1` is 0). Otherwise the set-up queue holds only real jobs and no shard. Its generator count is `msg_deps`: 1 for an animation with an XYTS file, 0 otherwise. The static frame count is still + fade for an animation and unbound otherwise. |
| Scheduler.AnimatedQueue | plot/plot_srf_perspective.py:433-453 | The animated queue is the optional `load_xyts` followed by frames 0..still+fade-1 in order, and it holds as many generators as its head. |
| Worker.RunWorker | plot/plot_srf_perspective.py:559-577 | The worker handles replies in order up to the first Stop, which ends the loop. Its logbook and the jobs it ran are those of the handled prefix. |
| Worker.LogbookAppend | plot/plot_srf_perspective.py:560-574 | The logbook of two runs of replies is the first's followed by the second's. |
| Worker.LogbookLength | plot/plot_srf_perspective.py:564-574 | One logbook entry per Wait or render job, none for anything else. |
| Worker.LogbookRendered | plot/plot_srf_perspective.py:572-574 | A frame is logged as rendered exactly when its render job was among the replies handled. |
| Worker.ExecutedJobs | plot/plot_srf_perspective.py:565-576 | The worker ran exactly the real jobs among the replies; Wait and unknown entries run nothing. |
| Renumber.RenumberFrames | plot/plot_srf_perspective.py:518-533 | Succeeds exactly when frames 0..frames-1 all exist. The result holds `start` copies of frame 0, then the original frames shifted up by `start`, then `end` copies of the last frame. So the descending move loop never reads a frame it has already overwritten. |
| Renumber.MoveStep | plot/plot_srf_perspective.py:525-528 | Moving frame j-1 up by `start` advances the directory from one stage of the descending move loop to the next. |
| Renumber.FinishRunAsWritten | plot/plot_srf_perspective.py:513-539 | As written, a still (non-animated) run always fails: the dynamic frames are added to a counter bound only for animations. |
| Renumber.FinishRun | plot/plot_srf_perspective.py:513-539 | As intended, a still run keeps its image. An animation succeeds exactly when every frame exists, and is then renumbered as `RenumberFrames` states. |
| DotDict.DotDictify.FromMap | qcore/utils.py:16-21 | Constructing from a dict stores every key through `__setitem__`, so plain-dict values are wrapped. Well-formed input yields a valid (clean) mapping. |
| DotDict.Make | qcore/utils.py:16-23 | The constructor fails with TypeError exactly when the argument is neither `None` nor a dict. Otherwise it holds the (wrapped) entries, empty for `None`. |
| DotDict.DotDictify.SetItem | qcore/utils.py:25-28 | Stores the value under the key, wrapping a plain dict and leaving anything else unchanged; every other entry is unchanged. Validity is kept for well-formed values. |
| DotDict.DotDictify.GetItem | qcore/utils.py:30-35 | A present key returns its stored value, even `None`, and changes nothing. A missing key inserts a fresh empty `DotDictify` under that key only, and returns it. |
| DotDict.DotDictify.Update | qcore/utils.py:70 | `dict.update`: the other mapping's entries replace these key by key, without wrapping. |
| DotDict.WrapClean | qcore/utils.py:25-28 | After storing a well-formed value, no plain dict is reachable through nested mappings. |
| DotDict.Wrap | qcore/utils.py:25-28 | What `__setitem__` stores is never a plain dict: a plain dict becomes a `DotDictify` with the same keys, and anything else is stored unchanged, so storing a stored value again changes nothing. |
| DotDict.WrapKeepsData | qcore/utils.py:25-28 | Storing a value keeps its data: forgetting which mappings are plain dicts and which are `DotDictify`, the stored value equals the given one at every depth, with the same keys, scalars and `None`s. |
| DotDict.LoadParams | qcore/utils.py:66-71 | The loop over the files computes the left-to-right merge `Merged`. |
| DotDict.MergedErr | qcore/utils.py:66-71 | A document that is neither a dict nor `None` makes the load fail. |
| DotDict.MergedOk | qcore/utils.py:66-71 | Documents that are all dicts or `None` load without error. |
| DotDict.MergedLastWins | qcore/utils.py:66-71 | A top-level key holds the value from the last document that has it, wholesale: a shallow merge. |
| DotDict.MergedAbsent | qcore/utils.py:66-71 | A key no document has is not in the result. |
| DotDict.MergedClean | qcore/utils.py:66-71 | Merging well-formed documents leaves no plain dict reachable through nested mappings. |
| SimStructure.FaultOf | qcore/simulation_structure.py:8-9 | The fault is the longest prefix without '_': the text before the first '_', or the whole name. |
| SimStructure.RealisationNumber | qcore/simulation_structure.py:12-13 | The realisation name is `fault + "_REL" + str(n)`, with a '0' added only for one-digit non-negative n. |
| SimStructure.FaultOfRealisation | qcore/simulation_structure.py:8-13 | Round trip: for a fault name without '_', the fault of `get_realisation_name(fault, n)` is the fault. |
| SimStructure.Location | qcore/simulation_structure.py:16-28 | `os.path.join(fault, sub, r + ext)`: under the fault's directory, unless the realisation name is absolute. |
| SimStructure.Locations | qcore/simulation_structure.py:16-28 | The three locations are `fault/Srf/r.srf`, `fault/Stoch/r.stoch` and `fault/Sim_params/r.yaml`, sharing the fault directory. |
| SimStructure.RelativeLocation | qcore/simulation_structure.py:16-28 | A location under a non-empty fault without a trailing '/' is `fault/sub/r+ext`. |
| SimStructure.SourcePath | qcore/simulation_structure.py:31-40 | A path is `root/Data/Sources/` followed by the location, or the location itself when that is absolute. |
| SimStructure.SourcesDir | qcore/simulation_structure.py:31-40 | Joining `Data` and `Sources` onto the root gives the directory prefix `root/Data/Sources/`. |
| SimStructure.Paths | qcore/simulation_structure.py:31-40 | Each `get_*_path` is `root/Data/Sources/` followed by the matching `get_*_location`, for a relative name. An absolute name escapes the tree. |
| Nhm.LoadNhm | qcore/nhm.py:211-272 | The load skips `skiprows` lines, splits the rest at blank lines and parses each entry in order, storing faults by name. The first entry that does not parse aborts it. |
| Nhm.CollectErr | qcore/nhm.py:228-270 | A load fails exactly when some entry does not parse. |
| Nhm.CollectFirstErr | qcore/nhm.py:228-270 | The first entry that does not parse decides the error. |
| Nhm.CollectLastWins | qcore/nhm.py:228-270 | The fault stored under a name is the last one parsed with that name. |
| Nhm.CollectAbsent | qcore/nhm.py:228-270 | A name no entry carries is not loaded. |
| Nhm.TypesReadFirst | qcore/nhm.py:235 | Row 1 is unpacked first: if it does not hold exactly two words, the entry fails on that, however short the entry is. |
| Nhm.EarlierRowDecides | qcore/nhm.py:235-236 | Row 2, when present but not two numbers, decides the error before any later row is looked for. |
| Nhm.ParsedRows | qcore/nhm.py:235-267 | A parsed entry's fields sit at fixed rows: 0 the name; 1 exactly two types; 2, 3, 6, 8, 9 and 10 pairs; 7 a triple; 4 and 5 single numbers. Row 11 is not read. The trace is the numbers of rows 12 onward taken two by two, in order: flattened, it is exactly those numbers. |
| Nhm.OddTraceRejected | qcore/nhm.py:265-267 | An odd number of trace numbers cannot be reshaped into points, and the entry is rejected. |
| Nhm.ParseRowsOk | qcore/nhm.py:235-268 | Rows carrying a fault's fields at those positions and its trace's numbers from row 12 on parse to exactly that fault. |
| Nhm.Floats | qcore/nhm.py:232-233 | `list(map(float, tokens))` succeeds exactly when every token converts, and then gives each token's number in order. |
| Nhm.Pairs | qcore/nhm.py:265-267 | Reshaping an even-length list into pairs halves its length. |
| Nhm.PairsFlatten | qcore/nhm.py:265-267 | Reshaping a flattened trace into pairs gives the trace back. |
| Nhm.FlattenPairs | qcore/nhm.py:265-267 | Flattening the pairs of an even-length list of numbers gives the numbers back. |
| Nhm.StripAll | qcore/nhm.py:230 | Each row is its line stripped, position by position. |
| Nhm.FindBlank | qcore/nhm.py:229 | Finds the first "\n\n" separator, if any: none occurs before it. |
| Nhm.SplitBlank | qcore/nhm.py:229 | `split("\n\n")` returns at least one piece, and the pieces joined at "\n\n" give the text back. No piece holds "\n\n", and no piece but the last ends in "\n", so each cut is at the leftmost separator that remains. |
| Nhm.SplitBlankJoin | qcore/nhm.py:229 | Conversely, splitting pieces joined at "\n\n" gives them back, when no piece holds "\n\n" and none but the last ends in "\n". |
| Nhm.DefaultSkipRowsCount | qcore/nhm.py:211 | The default skip count, 15, is the header's 14 lines plus one. |
| Nhm.SkipsHeader | qcore/nhm.py:191-194 | Skipping one line more than a header, whose lines hold no newline, leaves exactly what follows the blank line `write` puts after it. |
| Nhm.DropLinesLines | qcore/nhm.py:226 | `readlines()[k:]` joined back, for k written lines, gives what follows them. |
| Nhm.Write | qcore/nhm.py:183-208 | The text written is the optional 14-line header, a blank line, then the entry's lines, each ending in a newline. |
| Nhm.WriteLines | qcore/nhm.py:194-206 | The line-by-line writes append exactly the lines, each with its newline. |
| Nhm.WritePoints | qcore/nhm.py:207-208 | The trace loop appends one line per point, in stored order. |
| Nhm.HeaderLines | qcore/nhm.py:14-28 | The header is 14 lines, the first carrying the creation date. |
| Nhm.FixedLines | qcore/nhm.py:195-206 | An entry has 12 fixed lines: name, types, nine field lines and the point count. |
| Nhm.PointLines | qcore/nhm.py:207-208 | One point line per trace point, in stored order. |
| Nhm.WriteLayout | qcore/nhm.py:195-208 | An entry is 12 + len(trace) lines, with point i on line 12 + i. Its text does not depend on the two rate sigmas, which are written as 0. |
| Nhm.ColPad | qcore/nhm.py:197-208 | A ten-column field is its text right-aligned with spaces to width 10. |
| Nhm.FixedRowsReadBack | qcore/nhm.py:195-206 | The stripped fixed lines of a writable fault read back as its fields, with 0 for both rate sigmas. |
| Nhm.RowsReadBack | qcore/nhm.py:195-267 | For a `Writable` fault (see the Nhm.EntryReadsBack line under Left out), the rows of a written entry parse to the fault with both rate sigmas 0. |
| Nhm.TraceReadBack | qcore/nhm.py:207-267 | The written trace rows, with or without an empty last row, read back as the trace's numbers in order. |
| Nhm.WideColumnGlued | qcore/nhm.py:197-206 | A second number that fills its ten-character column is not padded. It runs into the first, so the row holds one word where the reader unpacks two, and reading the row fails. |
| Nhm.EntryReadsBack | qcore/nhm.py:183-268 | Round trip for a `Writable` fault: a written entry, with or without a final newline, parses back to the fault with both rate sigmas 0. |
| Nhm.LinesJoin | qcore/nhm.py:195-208 | What `write` emits for the lines of an entry is those lines joined at newlines, followed by a final newline. |
| Nhm.LinesNoBlank | qcore/nhm.py:195-208 | Lines without a newline, all but the first non-empty, hold no "\n\n". |
| Nhm.EntrySplitsAlone | qcore/nhm.py:195-208 | What `write` emits for a `Writable` entry holds no "\n\n", so `split("\n\n")` keeps it whole as one entry. |
| Nhm.WrittenFileLoads | qcore/nhm.py:183-270 | `load_nhm` of a new file that `write` created with the header and one `Writable` fault, with header lines free of newlines, gives exactly that fault under its name, with both rate sigmas 0. |
| Nhm.SampleReadsBack | qcore/nhm.py:159-268 | When sampling succeeds and the sample is `Writable`, it survives writing and re-reading unchanged, since its sigmas are already 0. |
| Nhm.Sample2012 | qcore/nhm.py:88-181 | Fails exactly when scaling is asked for and the type combination has no relation, and then with the TypeError of raising a tuple. On success: every sigma is 0; `dtop_min == dtop_max == dtop`, the uniform draw between min and max; name, types, `dip_dir`, rake and trace are copied; mw is unchanged without scaling. |
| Nhm.TopDepthInRange | qcore/nhm.py:99 | A uniform draw in [0, 1) puts the top depth in [dtop_min, dtop_max], below the maximum when they differ. |
| Nhm.SampledRecurrence | qcore/nhm.py:150-157 | The recurrence interval times a positive moment rate is the moment. With a non-positive rate it is the input's interval. |
| Nhm.ScalingRelationAsWritten | qcore/nhm.py:109-139 | As written: a relation exists exactly for the four named combinations, and any other combination raises TypeError. |
| Nhm.ScalingRelation | qcore/nhm.py:109-139 | As intended: the same relations, and a ValueError naming both types for any other combination. |
| Nhm.RaiseTupleIsTypeError | qcore/nhm.py:136-139 | For ACTIVE_SHALLOW with REVERSE_FAULTING, the code as written raises TypeError, not the ValueError it builds. |
| Stations.ScanPaletteProperties | plot/plot_stations.py:98-106 | Transparency, foreground and background come from the last `t-`, `fg-` and `bg-` items respectively. |
| Stations.LastValueSnoc | plot/plot_stations.py:100-106 | A later matching item overrides the value found so far, and any other item leaves it unchanged. |
| Stations.LastValueNone | plot/plot_stations.py:91-106 | The default stays exactly when no item has the prefix. |
| Stations.LastValueFound | plot/plot_stations.py:100-106 | A value found is the suffix of an item with the prefix that no later item overrides. |
| Stations.NoColonNoProperties | plot/plot_stations.py:97-108 | A token without ':' has no properties: the IndexError leaves the defaults. |
| Stations.ColonProperties | plot/plot_stations.py:99 | A token with ':' has at least one property. |
| Stations.ScanStationProperties | plot/plot_stations.py:114-122 | Shape is the character after the last `shape-` and grid the text after the last `g-`, among the items reached. A bare `shape-` raises IndexError, which ends the scan there. |
| Stations.FirstBare | plot/plot_stations.py:117-118 | The position of the first bare `shape-` item: none earlier, and that one is bare. |
| Stations.ReachedAll | plot/plot_stations.py:114-122 | Without a bare `shape-` item the scan reaches every item. |
| Stations.ReachedCut | plot/plot_stations.py:114-122 | A bare `shape-` item cuts off itself and everything after it. |
| Stations.ReadPalette | plot/plot_stations.py:88-122 | The palette is: the name before ':', made absolute when it names a file; its properties; inverted exactly when `invert` is among them. A marker is present exactly when line 3 has a second token; its size is the text before ':' and its shape and grid come from the scan. |
| Stations.ReadRange | plot/plot_stations.py:126-144 | Fails exactly when a given number does not convert, or when the maximum must come from the data and the data's 99.5th percentile is not positive. Otherwise: min and max are the first two tokens, else max from the data and min -max or 0; inc is the third token, else max/6; tick is the fourth, else 2 × inc. |
| Stations.ReadColumns | plot/plot_stations.py:147-161 | Fails exactly when line 5 gives no integer, or when line 6 gives labels whose number differs from ncol. Otherwise ncol is the first token, the label colour the second or 'black', and the labels those of line 6. |
| Stations.LabelsKept | plot/plot_stations.py:155-157 | A label line with ',' keeps all its labels, even empty ones. |
| Stations.BlankLabels | plot/plot_stations.py:155-157 | A blank label line gives no labels. |
| Stations.Head | plot/plot_stations.py:79 | The header is the first six lines, each stripped of byte whitespace. |
| Stations.ReadHeader | plot/plot_stations.py:78-161 | Succeeds exactly when six lines exist, line 3 names a palette, line 4 converts (or the data gives a maximum), and line 5 converts and agrees with line 6. It then returns the title, legend, palette, range and columns as the per-line readers state. |
| Whitespace.Tokens | plot/plot_stations.py:88 | `str.split()` for a whitespace predicate: every token is a non-empty run without whitespace, and a text that starts with a non-whitespace character has it as the first character of the first token. |
| Whitespace.LStrip | plot/plot_stations.py:79 | `lstrip()` for a whitespace predicate removes exactly the leading whitespace: the result is a suffix, what was cut is all whitespace, and the result does not start with whitespace. |
| Whitespace.RStrip | plot/plot_stations.py:79 | `rstrip()` for a whitespace predicate removes exactly the trailing whitespace: the result is a prefix, what was cut is all whitespace, and the result does not end with whitespace. |
| Whitespace.Agree | plot/plot_stations.py:79-88 | `split()` and `strip()` depend only on how the characters present are classified: two whitespace predicates that agree on every character of a text give the same tokens and the same stripped text. |
| PyBytes.AgreesWithText | plot/plot_stations.py:79-88 | On text holding no character that only Python 3 treats as whitespace (such as '\x1c' or U+00A0), the byte-string `split()` and `strip()` equal the Python 3 ones. |
| PyStr.Tokens | qcore/nhm.py:233 | `str.split()`: every token is a non-empty run without whitespace. |
| PyStr.TokensStrip | qcore/nhm.py:230-233 | Stripping a row does not change its tokens. |
| PyStr.Split | qcore/simulation_structure.py:9 | `str.split(c)` is never empty, and no piece contains c. |
| PyStr.SplitJoin | qcore/nhm.py:229 | Splitting what was joined on a separator the parts lack gives the parts back. |
| PyStr.JoinSplit | qcore/nhm.py:229-230 | Joining the pieces of a split gives the original back. |
| PyStr.SplitHead | qcore/simulation_structure.py:9 | `s.split(c)[0]` is the text before the first c, or all of s. |
| PyStr.PadLeft | qcore/simulation_structure.py:13 | Right alignment with a fill character: the width is at least the requested one, and the text is unchanged after the fill. |

## Left out

- MPI plumbing (Spawn, recv/send, gather, Disconnect): one coordinator step per request, with the requester's id as an input. The gathered reports are not modelled.
- The job bodies `load_xyts`, `load_xyts_ts` and `timeslice`: GMT, numpy and file-system work. They are tags with their payloads.
- Per-frame floating-point values (azimuth, tilt, scale, transparency), slip-rate decimation and palette rounding in `plot/plot_srf_perspective.py`. The `xpos` rounding is the parameter `xpos`.
- Scheduler.ResolveDependencies: does not model the ZeroDivisionError of `min(float(i), t_frames) / t_frames` (plot/plot_srf_perspective.py:486) when `t_frames` is 0. The model enqueues the render job instead. A set-up that succeeds with `t_frames` 0 has no camera-move frames either, so this arises only for an animation of dynamic frames alone.
- The palette maximum that finishing `load_xyts` stores in the shared metadata (`gmt.xyv_cpt_range`, plot/plot_srf_perspective.py:472) is GMT work on a file. The resolver models only the queue and the generator count.
- Nhm.LoadNhm: `text` is the file as Python 3 text mode reads it, decoded and with universal newlines already applied. Decoding and newline translation are not modelled.
- The worker's `sleep`, its timings and the message for an unknown entry: a log entry records only what was done.
- Scheduler.Coordinator.constructor: requires an animation's set-up to succeed. In the source a failing set-up raises before the workers are spawned, so no coordinator loop runs; `BuildInitialQueue` models that failure.
- Scheduler.Coordinator.HandleRequest: requires that the requester has not been sent Stop. In the source a worker that received Stop has left its loop and never asks again.
- Scheduler.ServeProgress: bounds the replies other than Wait, not the Wait replies. Termination also needs every worker holding a generator to finish it and ask again. That depends on the workers' own jobs and on MPI delivering the request, which are not part of this model.
- Renumber.RenumberFrames: a frame file is an opaque value. `copy` and `move` are map updates, so file contents, names and the movie encoding are not modelled.
- DotDict: a nested `DotDictify` is a value inside its parent, not a shared object. Aliasing is not captured: a change made through a child returned by `__getitem__` does not reach the parent.
- `load_yaml`, `dump_yaml` (PyYAML), `setup_dir` and `load_py_cfg`: parameter documents are given as values.
- `qcore/siteamp_models.py`: floating-point numerics (logarithms, interpolation, CSV coefficient tables) with no exact integer or string content to model.
- Nhm.Write: the fixed-width number formats `{:10.3f}`, `{:10.3e}` and `{:10.5f}` are the parameter `Formats`.
- Nhm.EntryReadsBack: proved only for faults meeting `Writable`. It needs each formatted number to be one word that parses back to itself, the second and third numbers on a line to be under ten characters, a stripped name without a newline, and one-word types. Outside those conditions the file may not read back. A recurrence interval of -1 is formatted as `-1.000e+00`, ten characters, and `WideColumnGlued` shows that its row then no longer splits into two numbers.
- Nhm.SkipsHeader: stated for header lines without a newline. That the literal header lines hold no newline is not proved.
- Nhm.WrittenFileLoads: proved for a `Writable` fault, as Nhm.EntryReadsBack is, and for header lines without a newline, as Nhm.SkipsHeader is. A file holding several faults, or a fault appended to an existing file, is not covered.
- Nhm.Sample2012: the truncated-normal and uniform draws are inputs (`Draws`). The width, `log10`/`sin` maths, the moment and `mag_scaling` are the parameter `Physics`. The unused `mw_old` and `mom` of the subduction branch are not modelled.
- Stations: the data percentile, the two-significant-figure rounding and the minimum are the inputs `dataMax` and `dataNegative`. `dataMax` is None where the rounding's `log10` of a non-positive percentile makes `int` raise. Failures of `np.loadtxt` or of the percentile on empty data are not modelled.
- Stations.ReadPalette: a line 3 with a single token reads without error but leaves the station size, shape and grid unbound. The NameError this causes when the plotting after the header tests `grid` (plot/plot_stations.py:212) is outside the header and not modelled.
- Stations: `os.path.exists`, `os.path.abspath`, `float` and `int` are parameters. The integer default transparency 0 is `None`.
- GMT rendering and the multiprocessing `Pool` in `plot/plot_stations.py`.

## Findings

| source | as written | input that shows it | evidently intended | confidence | as-written member | corrected member |
|---|---|---|---|---|---|---|
| plot/plot_srf_perspective.py:514 | `frames += frames_sr` runs for every run, but `frames` is bound only on the animated path (line 435), so a still run raises NameError after its image has been rendered | a run without `--animate` | add the dynamic frames only for an animation; a still run moves its image out | not executed | Renumber.FinishRunAsWritten | Renumber.FinishRun |
| qcore/nhm.py:136-139 | `raise (ValueError, msg)` raises a tuple, which Python 3 rejects with TypeError, so the message is lost | `sample_2012()` with scaling on a fault of tectonic type ACTIVE_SHALLOW and fault type REVERSE_FAULTING | `raise ValueError(msg)` naming both types | not executed | Nhm.ScalingRelationAsWritten | Nhm.ScalingRelation |
