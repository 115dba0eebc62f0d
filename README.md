# CTBB pipeline: a Dafny model of the job queue, the scheduler, the worker and the library diff

The CTBB pipeline reconstructs CT scans in batches on a library directory. A submitter
(`flush_jobs_to_queue`) writes one line `path,dose,kernel,slice_thickness` per job into the
library's queue file. A singleton daemon (`ctbb_daemon`) repeatedly re-reads the queue,
pairs free GPU devices with the queue's head items and starts one worker per pair. The
worker (`ctbb_queue_item`) holds its device's lock while it runs a fixed sequence of
stages: fetch the raw data, create the study directory, simulate the reduced dose,
assemble the PRM parameter file, reconstruct, and clean up. Each later stage runs only
while the stages before it succeeded. Clean-up sorts the study directory's files and
appends one line to the `done` or the `error` ledger, unless one of its moves raises
first (see Findings). The diff tool lists the
reconstructions a configuration asks for, looks for each expected image, and queues again
the jobs whose image is missing. It first rewrites paths when the library has been moved.

The model has one module per component:

- `Text`: Python's `str.split(sep)`, `str.splitlines()`, `strip`, `'%d' % n`, and the
  line format `'%s\n'` the queue file is written in. Round-trip lemmas relate split and
  join, and `splitlines` and the written lines.
- `Paths`: `os.path.join`, `dirname` and `basename` on plain strings.
- `PipelineLibrary`: the shared state of a library, as class `Library`. It holds:
  - the named locks, as a map from name to held;
  - the queue file and the two ledgers, as strings;
  - the directories, as sets of file names;
  - the text files the worker writes;
  - a ghost trace of events (lock operations, queue accesses, process starts, stage
    entries, ledger appends).

  The lock discipline is stated over that trace. `QueueGuarded` says every queue access
  happens while the queue lock is held. `Holds` says a lock is held at a given point.
- `Jobs`: the job record, its queue line, and the cross product cases × doses × slice
  thicknesses × kernels with empty cases skipped.
- `Worker`: `ctbb_queue_item.py`. The five-valued status. Parsing. The per-stage status
  mappings. The PRM text and the file names. The clean-up sort and the ledgers. Class
  `QueueItem` with the fields the source sets, and its stage methods. The `__main__`
  driver, proved against a reference run (`StageOutcomes`, `FirstFailure`, `Attempted`).
- `Scheduler`: `ctbb_pipeline_daemon.py`. Class `Daemon` (devices, in-memory queue) with
  the `run` loop, `pop_queue_item`, `refresh_queue` and `get_empty_devices`. The dispatch
  pairing, against a reference (`Commands`). The startup singleton check.
- `Launch`: `flush_jobs_to_queue`. The four nested loops, and the normal, high and other
  priority updates under the queue lock.
- `Diff`: `ctbb_pipeline_diff.py`. Relocation, the raw path rewrite, the desired list,
  the missing filter and the append of the missing jobs.

Collaborators that are not part of this model enter as parameters:

- Worker: `Worker.Collaborators` holds the located case id, the dose-reduction exit code,
  the PRM template (or its I/O failure), the reconstruction's exit code and the files it
  writes.
- Daemon: the number of CUDA devices.
- Diff: the case list reader and the library's case-id table.

Behaviour of the code that the model keeps, although the program's own structure suggests
otherwise in places:

- `refresh_queue` is `f.read().splitlines()` (`ctbb_pipeline_daemon.py:104-106`). Empty
  lines of the queue file are kept as empty items, and the daemon parses and drops no line.
  The worker is the first to parse an item (`ctbb_queue_item.py:43-48`).
- The error ledger line is `qi_raw:str(status)` (`ctbb_queue_item.py:177`). `qi_status` is
  an `Enum` (`ctbb_queue_item.py:19-24`), and `str` of an `Enum` member is its qualified
  name, e.g. `qi_status.NO_RAW` (`Worker.StatusText`), not its number.
- In the diff, the case id is looked up (`ctbb_pipeline_diff.py:64`) before the
  empty-entry test (`ctbb_pipeline_diff.py:66-67`). So a case entry without an id, the
  empty entry included, aborts the run with a KeyError, and the `continue` for empty
  entries only skips empty entries that have an id.
- `flush_jobs_to_queue` (`ctbb_pipeline_launch.py:24-25`) and the daemon
  (`ctbb_pipeline_daemon.py:73`) take the queue lock before they touch the queue file.
  The diff appends its missing jobs to that file without it
  (`ctbb_pipeline_diff.py:117-119`; see Findings). The model's `Diff.DiffMain` does the
  same.
- The diff rewrites a relocated raw path with `split("raw/")[1]`
  (`ctbb_pipeline_diff.py:89`), which keeps only the text between the first and a second
  `raw/` (see Findings). `Diff.DiffMain` uses this rewrite.
- The driver calls `clean_up` unconditionally after the last stage
  (`ctbb_queue_item.py:243-244`), and `clean_up` ends with the ledger line that records
  the run (`ctbb_queue_item.py:164-179`), so each run is meant to leave one line. But
  `clean_up` raises before that line when a study file matches both `*.std*` and `*.log`
  (`ctbb_queue_item.py:149-153`; see Findings). `Worker.RunQueueItem` models that path: the
  device lock is still released and no ledger line is written.

## Model

| member | source | states |
|---|---|---|
| Text.Split | CTBB_Pipeline/scripts/ctbb_queue_item.py:43 | `split(',')`: one more part than there are separators, no part holds the separator, joining the parts with it gives the line back |
| Text.SplitJoin | CTBB_Pipeline/scripts/ctbb_queue_item.py:43 | splitting the join of separator-free parts gives exactly those parts |
| Text.SplitLines | CTBB_Pipeline/scripts/ctbb_pipeline_daemon.py:104-106 | `str.splitlines()`: the lines without their terminators, `\r\n` counting as one, no extra line after a final terminator, empty lines kept |
| Text.Serialize | CTBB_Pipeline/scripts/ctbb_pipeline_daemon.py:99-101 | the text `for item in items: f.write('%s\n' % item)` writes: each item followed by a newline, in order |
| Text.SplitLinesSerialize | CTBB_Pipeline/scripts/ctbb_pipeline_daemon.py:99-106 | reading back with `splitlines` a file written as `item\n` per item gives the same items, for items without line breaks |
| Text.SplitLinesAppend | CTBB_Pipeline/scripts/ctbb_pipeline_launch.py:41-44 | a text ending in a line break is read line by line independently of what is appended after it |
| Text.StripLeft | CTBB_Pipeline/scripts/ctbb_queue_item.py:138 | `lstrip(chars)`: result is a suffix, all removed characters are in the set, the result does not start with one |
| Text.StripRight | CTBB_Pipeline/scripts/ctbb_queue_item.py:138 | `rstrip(chars)`: result is a prefix, all removed characters are in the set, the result does not end with one |
| Text.Decimal | CTBB_Pipeline/scripts/ctbb_pipeline_daemon.py:61 | `'%d' % i` is a non-empty string of digits, a single digit exactly when i < 10 |
| Text.DecimalInjective | CTBB_Pipeline/scripts/ctbb_pipeline_daemon.py:61 | different numbers have different decimal texts |
| Paths.Join | CTBB_Pipeline/scripts/ctbb_pipeline_diff.py:49 | `os.path.join(a, b)`: `b` when it is absolute, `a + b` when `a` is empty or ends in `/`, `a/b` otherwise |
| Paths.Basename | CTBB_Pipeline/scripts/ctbb_pipeline_diff.py:49 | `basename` is a slash-free suffix of the path that follows a slash when shorter than the path |
| Paths.Dirname | CTBB_Pipeline/scripts/ctbb_pipeline_diff.py:39-40 | `dirname` is a prefix of the path |
| Paths.BasenameJoin | CTBB_Pipeline/scripts/ctbb_pipeline_diff.py:49 | the basename of `join(dir, name)` is the name joined on |
| Paths.DirnameJoin | CTBB_Pipeline/scripts/ctbb_pipeline_diff.py:49 | the dirname of `join(dir, name)` is `dir` when `dir` has no trailing slash |
| Paths.DirnameOfJoinedName | CTBB_Pipeline/scripts/ctbb_pipeline_diff.py:39-49 | a name joined onto any path's dirname has that dirname as its own dirname |
| PipelineLibrary.Library.constructor | CTBB_Pipeline/scripts/ctbb_pipeline_daemon.py:28 | a library at `path` has its raw and recon directories at `path/raw` and `path/recon`, with the given lock, queue, ledger and directory state |
| PipelineLibrary.Library.Lock | CTBB_Pipeline/scripts/ctbb_queue_item.py:56 | `mutex.lock()`: the named lock becomes held, nothing else changes, and the acquisition is recorded |
| PipelineLibrary.Library.Unlock | CTBB_Pipeline/scripts/ctbb_queue_item.py:60 | `mutex.unlock()`: the named lock becomes free and the release is recorded |
| PipelineLibrary.Library.ReadQueueFile | CTBB_Pipeline/scripts/ctbb_pipeline_daemon.py:105-106 | reading the queue file returns its contents and records a queue read |
| PipelineLibrary.Library.WriteQueueFile | CTBB_Pipeline/scripts/ctbb_pipeline_daemon.py:99 | opening the queue file with `'w'` replaces its contents and records the rewrite |
| PipelineLibrary.Library.AppendQueueFile | CTBB_Pipeline/scripts/ctbb_pipeline_launch.py:42-44 | a write to the queue file opened with `'a'` appends exactly the text written |
| PipelineLibrary.Library.AppendLedgerFile | CTBB_Pipeline/scripts/ctbb_queue_item.py:168-169 | appending to a ledger extends that ledger by the line and leaves the other ledger unchanged |
| PipelineLibrary.Library.MakeDirs | CTBB_Pipeline/scripts/ctbb_queue_item.py:64-65 | `makedirs` unless `isdir`: a missing directory is created empty, an existing one keeps its files (only the named directory is tracked, not its parents) |
| PipelineLibrary.Library.AddFiles | CTBB_Pipeline/scripts/ctbb_queue_item.py:186-189 | files a process writes into a directory are added to that directory's names |
| PipelineLibrary.Library.WriteText | CTBB_Pipeline/scripts/ctbb_queue_item.py:104 | copying the template creates the PRM file with exactly the template text |
| PipelineLibrary.Library.AppendText | CTBB_Pipeline/scripts/ctbb_queue_item.py:117 | a write to a text file opened with `'a'` appends the text to its old contents |
| PipelineLibrary.Library.CheckState | CTBB_Pipeline/scripts/ctbb_pipeline_daemon.py:120 | `mutex(name).check_state()`: whether the named lock is currently held |
| PipelineLibrary.Holds | CTBB_Pipeline/scripts/ctbb_queue_item.py:55-60 | after a sequence of lock operations, a lock is held exactly when its last acquire or release is an acquire |
| PipelineLibrary.QueueGuarded | CTBB_Pipeline/scripts/ctbb_pipeline_launch.py:24-62 | the queue discipline the daemon and the submitter keep: every read, rewrite or append of the queue file happens while the queue lock is held |
| PipelineLibrary.Bracketed | CTBB_Pipeline/scripts/ctbb_queue_item.py:55-60 | taking a lock, doing work that does not touch it, and releasing it holds the lock at every point in between and not after |
| PipelineLibrary.GuardedAppend | CTBB_Pipeline/scripts/ctbb_pipeline_daemon.py:72-87 | pieces that each access the queue only under the queue lock still do so when run in sequence |
| PipelineLibrary.GuardedBracket | CTBB_Pipeline/scripts/ctbb_pipeline_launch.py:24-62 | any queue access between taking and releasing the queue lock happens under it |
| PipelineLibrary.SpawnsBracket | CTBB_Pipeline/scripts/ctbb_pipeline_daemon.py:73-87 | processes started between taking and releasing a lock are started while it is held |
| Jobs.JobItem | CTBB_Pipeline/scripts/ctbb_pipeline_launch.py:34 | `'%s,%s,%s,%s' % (c, dose, kernel, st)`: the queue line of a job without its newline |
| Jobs.Items | CTBB_Pipeline/scripts/ctbb_pipeline_launch.py:34 | the queue lines of a list of jobs, one per job and in job order |
| Jobs.KernelJobs | CTBB_Pipeline/scripts/ctbb_pipeline_launch.py:33-34 | the kernel loop: the k-th job has the k-th kernel and the case, dose and slice thickness given |
| Jobs.StJobs | CTBB_Pipeline/scripts/ctbb_pipeline_launch.py:32-34 | the slice-thickness loop yields len(sts)·len(kernels) jobs |
| Jobs.DoseJobs | CTBB_Pipeline/scripts/ctbb_pipeline_launch.py:31-34 | the dose loop yields len(doses)·len(sts)·len(kernels) jobs |
| Jobs.CrossProduct | CTBB_Pipeline/scripts/ctbb_pipeline_launch.py:28-34 | the case loop yields (non-empty cases)·len(doses)·len(sts)·len(kernels) jobs |
| Jobs.StJobsAt | CTBB_Pipeline/scripts/ctbb_pipeline_launch.py:32-34 | nesting order: job j·len(kernels)+k has slice thickness j and kernel k |
| Jobs.DoseJobsBlock | CTBB_Pipeline/scripts/ctbb_pipeline_launch.py:31-34 | nesting order: dose i owns the i-th block of len(sts)·len(kernels) consecutive jobs |
| Jobs.KernelJobsMembers | CTBB_Pipeline/scripts/ctbb_pipeline_launch.py:33-34 | a job is produced by the kernel loop exactly when its case, dose and slice thickness are the loop's and its kernel is listed |
| Jobs.StJobsMembers | CTBB_Pipeline/scripts/ctbb_pipeline_launch.py:32-34 | a job is produced by the slice-thickness loop exactly when its slice thickness and kernel are listed |
| Jobs.DoseJobsMembers | CTBB_Pipeline/scripts/ctbb_pipeline_launch.py:31-34 | a job is produced by the dose loop exactly when its dose, slice thickness and kernel are listed |
| Jobs.CrossProductMembers | CTBB_Pipeline/scripts/ctbb_pipeline_launch.py:28-34 | a job is produced exactly when its case is a non-empty listed case and its dose, slice thickness and kernel are listed |
| Jobs.EmptyCasesContributeNothing | CTBB_Pipeline/scripts/ctbb_pipeline_launch.py:29-30 | an empty case entry adds no job and does not count as a case |
| Worker.Parse | CTBB_Pipeline/scripts/ctbb_queue_item.py:43-48 | a line with fewer than three commas has no job (IndexError); otherwise fields 1 to 4 are path, dose, kernel, slice thickness, none holding a comma |
| Worker.ParseJobItem | CTBB_Pipeline/scripts/ctbb_queue_item.py:43-48 | the submitter's line `path,dose,kernel,st` of a comma-free job parses back into that job |
| Worker.QueueItem.constructor | CTBB_Pipeline/scripts/ctbb_queue_item.py:40-48 | `qi_raw` is the line verbatim, the four fields are its parsed fields, and case id, study directory and PRM path are unset |
| Worker.StatusText | CTBB_Pipeline/scripts/ctbb_queue_item.py:19-24 | `str(status)` of the `qi_status` Enum member: `qi_status.SUCCESS`, `qi_status.NO_RAW`, … (the qualified member name) |
| Worker.RawStatus | CTBB_Pipeline/scripts/ctbb_queue_item.py:72-75 | SUCCESS exactly when the located case id is truthy, NO_RAW otherwise |
| Worker.DoseStatus | CTBB_Pipeline/scripts/ctbb_queue_item.py:80-83 | SUCCESS exactly when the exit code is 0, DOSE_REDUCTION_ERROR otherwise |
| Worker.PrmStatus | CTBB_Pipeline/scripts/ctbb_queue_item.py:103-130 | SUCCESS exactly when the template copy and appends succeed, PRM_CREATION_ERROR on IOError |
| Worker.ReconStatus | CTBB_Pipeline/scripts/ctbb_queue_item.py:139-141 | SUCCESS exactly when the exit code is 0, RECONSTRUCTION_ERROR otherwise |
| Worker.QueueItem.Enter | CTBB_Pipeline/scripts/ctbb_queue_item.py:55-57 | `__enter__` takes the device lock |
| Worker.QueueItem.Exit | CTBB_Pipeline/scripts/ctbb_queue_item.py:59-60 | `__exit__` releases the device lock |
| Worker.QueueItem.GetRawData | CTBB_Pipeline/scripts/ctbb_queue_item.py:69-75 | stores the located case id and returns its status |
| Worker.CaseDirName | CTBB_Pipeline/scripts/ctbb_queue_item.py:63 | `'%s_k%s_st%s' % (case_id, kernel, slice_thickness)`: the study directory's own name |
| Worker.StudyPath | CTBB_Pipeline/scripts/ctbb_queue_item.py:63 | `join(recon_dir, dose, '%s_k%s_st%s' % (case_id, kernel, st))`: the study directory, which is also the PRM directory |
| Worker.PrmName | CTBB_Pipeline/scripts/ctbb_queue_item.py:99 | `'%s_d%s_k%s_st%s.prm' % (case_id, dose, kernel, st)` |
| Worker.PrmPath | CTBB_Pipeline/scripts/ctbb_queue_item.py:95-99 | `prm_filepath`: the PRM name joined onto the study directory |
| Worker.ImageName | CTBB_Pipeline/scripts/ctbb_queue_item.py:110 | `recon_file`, `'%s_d%s_k%s_st%s.img' % (case_id, dose, kernel, st)`: the image the PRM file names |
| Worker.PrmEntries | CTBB_Pipeline/scripts/ctbb_queue_item.py:107-124 | the seven `printout` pairs in order: `RawDataDir:` → `join(raw_dir, dose)`, `RawDataFile:` → case id, `OutputDir:` → study directory, `OutputFile:` → image name, `ReconKernel:`, `SliceThickness:`, `AdaptiveFiltration:` → `1.0` |
| Worker.EntryLine | CTBB_Pipeline/scripts/ctbb_queue_item.py:113-115 | `a + "\t" + str(b)`: a `printout` line before its newline |
| Worker.PrmText | CTBB_Pipeline/scripts/ctbb_queue_item.py:104-124 | the final PRM file: the copied template followed by each entry line and a newline |
| Worker.QueueItem.InitializeStudy | CTBB_Pipeline/scripts/ctbb_queue_item.py:62-67 | the study directory is `<recon>/<dose>/<case>_k<kernel>_st<st>`, created with its `log/` and `img/` subdirectories when missing |
| Worker.QueueItem.SimulateReducedDose | CTBB_Pipeline/scripts/ctbb_queue_item.py:77-83 | the status of the dose-reduction exit code |
| Worker.QueueItem.MakeFinalPrm | CTBB_Pipeline/scripts/ctbb_queue_item.py:85-132 | with a template: `prm_filepath` is `<study>/<case>_d<dose>_k<kernel>_st<st>.prm` and the file holds the PRM text; on IOError: PRM_CREATION_ERROR, `prm_filepath` and the text files unchanged |
| Worker.PrmTextReadsBack | CTBB_Pipeline/scripts/ctbb_queue_item.py:103-124 | the PRM file read as lines is the template's lines followed by one `key\tvalue` line per entry in order, each splitting back on tab into its key and value |
| Worker.EntryLinePlain | CTBB_Pipeline/scripts/ctbb_queue_item.py:113-115 | a `printout` line of a plain key and value is one line that splits on tab into the key and the value |
| Worker.Printout | CTBB_Pipeline/scripts/ctbb_queue_item.py:113-115 | `printout` appends `key\tvalue\n` to the file |
| Worker.PrintEntry | CTBB_Pipeline/scripts/ctbb_queue_item.py:117-124 | the k-th `printout` extends the file by the k-th entry line after the lines of the entries before it |
| Worker.WritePrmFile | CTBB_Pipeline/scripts/ctbb_queue_item.py:104-124 | the PRM file is the template followed by the seven entry lines in order |
| Worker.QueueItem.DispatchRecon | CTBB_Pipeline/scripts/ctbb_queue_item.py:134-143 | called with `prm_filepath` the PRM path inside the study directory: the command is `ctbb_recon -v --timing --device=<ordinal> <prm>`; `<prm>.stdout`, `<prm>.stderr` and the reconstruction's outputs land in the study directory; status from the exit code |
| Worker.ReconFiles | CTBB_Pipeline/scripts/ctbb_queue_item.py:138 | the files the reconstruction leaves in the study: `<prm>.stdout`, `<prm>.stderr` and what it writes itself |
| Worker.DeviceOrdinal | CTBB_Pipeline/scripts/ctbb_queue_item.py:138 | `device.name.strip('dev')`: the name with `d`, `e` and `v` removed from both ends |
| Worker.ReconCommand | CTBB_Pipeline/scripts/ctbb_queue_item.py:138 | `'ctbb_recon -v --timing --device=%s %s' % (ordinal, prm_filepath)` |
| Worker.DeviceOrdinalOfName | CTBB_Pipeline/scripts/ctbb_queue_item.py:138 | `strip('dev')` of the daemon's device name `dev<N>` is exactly the digits of N |
| Worker.CleanedDirs | CTBB_Pipeline/scripts/ctbb_queue_item.py:149-160 | the directories after a clean-up whose moves go through: the study keeps its non-artifacts, `log/` and `img/` gain the log and other image artifacts |
| Worker.DoublyMatched | CTBB_Pipeline/scripts/ctbb_queue_item.py:149-150 | some study file is in both the `*.std*` and the `*.log` glob, such as `x.stdout.log` |
| Worker.LogMovesAsWritten | CTBB_Pipeline/scripts/ctbb_queue_item.py:149-151 | `stdouts + logs`: the `*.std*` glob followed by the `*.log` glob, a file matching both listed twice |
| Worker.ImageMovesAsWritten | CTBB_Pipeline/scripts/ctbb_queue_item.py:156-158 | `imgs + meta`: the `*.img` glob followed by the `*.prm` glob of what is left in the study |
| Worker.MovedCount | CTBB_Pipeline/scripts/ctbb_queue_item.py:151-160 | how many moves of a list go through before `shutil.move` meets a file no longer present and raises; never more than the list |
| Worker.SortArtifacts | CTBB_Pipeline/scripts/ctbb_queue_item.py:149-160 | the study's files are partitioned into log artifacts (`*.std*`, `*.log`), other image artifacts (`*.img`, `*.prm`) and the rest |
| Worker.CleanUpSorts | CTBB_Pipeline/scripts/ctbb_queue_item.py:149-160 | the sorted clean-up, which is the result when no move raises: the study keeps exactly its non-artifact files, `log/` gains exactly the log artifacts, `img/` exactly the other image artifacts, and no other directory changes |
| Worker.SubdirsDistinct | CTBB_Pipeline/scripts/ctbb_queue_item.py:149-160 | the study, its `log/` and its `img/` directories are three different directories |
| Worker.QueueItem.MoveArtifacts | CTBB_Pipeline/scripts/ctbb_queue_item.py:147-160 | the moves of the source's `stdouts+logs` and `imgs+meta` lists go through exactly when no study file matches both `*.std*` and `*.log`, and then give the sorted directories; otherwise they stop part-way, having moved only log artifacts (every `*.std*` file among them) and no image |
| Worker.DoubleMoveFails | CTBB_Pipeline/scripts/ctbb_queue_item.py:149-153 | as written, a file `a.stdout.log` is in both glob results and its second move fails |
| Worker.MovedAllDistinct | CTBB_Pipeline/scripts/ctbb_queue_item.py:151-153 | a list of moves without repeats goes through exactly when every file in it is present |
| Worker.Glob | CTBB_Pipeline/scripts/ctbb_queue_item.py:149-150 | `glob` of one pattern: exactly the listed names that match it, each once when the listing has no repeats |
| Worker.Listing | CTBB_Pipeline/scripts/ctbb_queue_item.py:149-150 | the names of the study directory, each exactly once, in an order left open |
| Worker.MoveFiles | CTBB_Pipeline/scripts/ctbb_queue_item.py:151-153 | `for f in moves: shutil.move(f, dst)`: files move one at a time until one is no longer present, where the move raises; the moved prefix has left the source directory and joined the target |
| Worker.LogsLeftBehind | CTBB_Pipeline/scripts/ctbb_queue_item.py:149-153 | every `*.log` file is still present after the `*.std*` moves exactly when no file matches both patterns |
| Worker.LogMovesRaiseOnDoubleMatch | CTBB_Pipeline/scripts/ctbb_queue_item.py:149-153 | the log moves all go through exactly when no study file matches both patterns; every `*.std*` file is moved before any move raises; only log artifacts move; when all go through, exactly the log artifacts move |
| Worker.ImageMovesGoThrough | CTBB_Pipeline/scripts/ctbb_queue_item.py:156-160 | the image moves never raise and move exactly the `*.img` and `*.prm` files left in the study |
| Worker.CleanedByMoves | CTBB_Pipeline/scripts/ctbb_queue_item.py:149-160 | the log moves followed by the image moves end in the sorted directories |
| Worker.PartlyCleaned | CTBB_Pipeline/scripts/ctbb_queue_item.py:149-153 | what a clean-up whose log moves raised leaves: some log artifacts, every `*.std*` file among them, moved to `log/`, nothing else moved |
| Worker.RaisedCleanUpMovesNoImage | CTBB_Pipeline/scripts/ctbb_queue_item.py:149-160 | a clean-up that raised leaves `img/` unchanged and every image artifact still in the study directory |
| Worker.StdFileLoggedWhenCleanUpRaises | CTBB_Pipeline/scripts/ctbb_queue_item.py:149-153 | a clean-up that raised has still moved every `*.std*` file of the study to `log/` |
| Worker.LedgerOf | CTBB_Pipeline/scripts/ctbb_queue_item.py:164-179 | `done` for SUCCESS, `error` for any other status |
| Worker.LedgerLine | CTBB_Pipeline/scripts/ctbb_queue_item.py:164-179 | `'%s\n' % qi_raw` on SUCCESS, `'%s:%s\n' % (qi_raw, str(status))` otherwise |
| Worker.QueueItem.RecordStatus | CTBB_Pipeline/scripts/ctbb_queue_item.py:164-179 | SUCCESS appends `qi_raw\n` to `done`, any other status `qi_raw:<status>\n` to `error`; the other ledger is unchanged; that ledger's lock is taken and released around the append |
| Worker.QueueItem.CleanUp | CTBB_Pipeline/scripts/ctbb_queue_item.py:145-181 | when no move raises: the artifact sort, then exactly one ledger line under that ledger's lock; when a move raises: the partial sort, no ledger line and no ledger lock taken |
| Worker.LedgerWrittenOnceUnderItsLock | CTBB_Pipeline/scripts/ctbb_queue_item.py:164-179 | a run whose clean-up goes through appends to a ledger exactly once, the line of its final status, while holding that ledger's lock |
| Worker.NoLedgerLineWhenCleanUpRaises | CTBB_Pipeline/scripts/ctbb_queue_item.py:149-179 | a run whose clean-up raises appends to no ledger and takes no ledger lock |
| Worker.StageOutcomes | CTBB_Pipeline/scripts/ctbb_queue_item.py:213-240 | the reference run: raw fetch, dose reduction only when the dose is not `'100'`, PRM assembly, reconstruction, each with the status it returns |
| Worker.FirstFailure | CTBB_Pipeline/scripts/ctbb_queue_item.py:213-244 | the status of running those stages in order while the status is SUCCESS: the first non-SUCCESS one, SUCCESS if none |
| Worker.Attempted | CTBB_Pipeline/scripts/ctbb_queue_item.py:213-244 | the stages entered: every stage up to and including the first failure; never more than the stages, and always the first |
| Worker.Thread | CTBB_Pipeline/scripts/ctbb_queue_item.py:213-240 | `exit_status` after each `if exit_status == SUCCESS` step of `__main__`, the dose step also guarded by `str(dose) != '100'` |
| Worker.GatedStages | CTBB_Pipeline/scripts/ctbb_queue_item.py:226-240 | the guarded stages `__main__` enters for a threaded run: dose reduction, PRM assembly, reconstruction, each when the status before it is SUCCESS |
| Worker.LedgerEvents | CTBB_Pipeline/scripts/ctbb_queue_item.py:164-179 | the ledger step of `clean_up`: lock the status's ledger, append its line, unlock |
| Worker.AllSucceed | CTBB_Pipeline/scripts/ctbb_queue_item.py:213-244 | when every stage succeeds, every stage is attempted and the final status is SUCCESS |
| Worker.FailureSticks | CTBB_Pipeline/scripts/ctbb_queue_item.py:213-244 | when stage i is the first failure, stages after it are skipped and the final status is stage i's |
| Worker.FirstFailureIsFirst | CTBB_Pipeline/scripts/ctbb_queue_item.py:213-244 | the final status is the first failure's, and exactly the stages up to it are attempted |
| Worker.StageRunCases | CTBB_Pipeline/scripts/ctbb_queue_item.py:213-244 | the stages attempted and the final status for every combination of raw data, dose, dose-reduction exit, PRM I/O and reconstruction exit |
| Worker.DoseReductionRunsOnce | CTBB_Pipeline/scripts/ctbb_queue_item.py:228-230 | dose reduction is attempted once when the dose is not `'100'` and raw data was found, never otherwise |
| Worker.GatingOfLaterStages | CTBB_Pipeline/scripts/ctbb_queue_item.py:228-240 | the PRM is assembled exactly when raw data was found and the dose reduction, if any, succeeded; reconstruction runs exactly when the PRM was also assembled |
| Worker.ThreadMatchesStages | CTBB_Pipeline/scripts/ctbb_queue_item.py:213-244 | threading `exit_status` through the `if` chain gives the first failure's status and attempts exactly the reference stages |
| Worker.StagedDirs | CTBB_Pipeline/scripts/ctbb_queue_item.py:62-143 | the directories when the clean-up starts: the PRM file added when it was assembled, the reconstruction's files when it ran |
| Worker.RunTexts | CTBB_Pipeline/scripts/ctbb_queue_item.py:104-124 | the text files after a run: the PRM path mapped to the PRM text when it was assembled, unchanged otherwise |
| Worker.WorkerEvents | CTBB_Pipeline/scripts/ctbb_queue_item.py:210-247 | the reference events of one worker: device lock, the stage entries, the ledger step when the clean-up went through, device unlock |
| Worker.QueueItem.DoseStage | CTBB_Pipeline/scripts/ctbb_queue_item.py:228-230 | dose reduction runs only after success and for a dose other than `'100'` |
| Worker.QueueItem.PrmStage | CTBB_Pipeline/scripts/ctbb_queue_item.py:234-235 | PRM assembly runs only after success; its directory and text effects happen only then and with a template |
| Worker.QueueItem.ReconStage | CTBB_Pipeline/scripts/ctbb_queue_item.py:239-240 | reconstruction runs only after success, on the PRM file just written |
| Worker.QueueItem.RunGatedStages | CTBB_Pipeline/scripts/ctbb_queue_item.py:226-241 | the three gated stages leave the reference final status and enter exactly the reference stages |
| Worker.QueueItem.RunStages | CTBB_Pipeline/scripts/ctbb_queue_item.py:213-241 | raw fetch, study creation (always) and the gated stages, with their directory and file effects |
| Worker.QueueItem.Process | CTBB_Pipeline/scripts/ctbb_queue_item.py:213-244 | the body of the `with` block: the reference status; clean-up always runs, and writes one ledger line exactly when its moves go through |
| Worker.QueueItem.Run | CTBB_Pipeline/scripts/ctbb_queue_item.py:210-247 | the `with` block: device lock taken before the first stage and released after clean-up |
| Worker.WorkerEventsThreaded | CTBB_Pipeline/scripts/ctbb_queue_item.py:210-247 | the events of the straight-line `with` block are the reference run's events |
| Worker.DeviceHeldThroughout | CTBB_Pipeline/scripts/ctbb_queue_item.py:210-247 | the device lock is held from the first stage until after the clean-up, and released at the end, whether or not the clean-up raised |
| Worker.ReconOutputLogged | CTBB_Pipeline/scripts/ctbb_queue_item.py:138-153 | a run that reconstructs and whose clean-up goes through leaves `<prm>.stdout` and `<prm>.stderr` in `log/` and not in the study directory |
| Worker.ReconOutputStaged | CTBB_Pipeline/scripts/ctbb_queue_item.py:134-143 | a run that reconstructs has `<prm>.stdout` and `<prm>.stderr`, both matching `*.std*`, in the study directory when the clean-up starts |
| Worker.ReconOutputLoggedWhenCleanUpRaises | CTBB_Pipeline/scripts/ctbb_queue_item.py:138-153 | even when the clean-up raises, the reconstruction's `<prm>.stdout` and `<prm>.stderr` have gone to `log/` |
| Worker.StudyDirsExist | CTBB_Pipeline/scripts/ctbb_queue_item.py:62-67 | the study directory and its `log/` and `img/` subdirectories exist when the clean-up starts |
| Worker.CleanUpRaisesExactly | CTBB_Pipeline/scripts/ctbb_queue_item.py:145-153 | a run's clean-up raises exactly when a file matching both log patterns was in the study before the run or is among the reconstruction's outputs |
| Worker.RunQueueItem | CTBB_Pipeline/scripts/ctbb_queue_item.py:194-247 | a malformed line changes nothing; otherwise the status is the first failure's, with the reference events and PRM text; when the clean-up goes through, one ledger line and the sorted directories; when it raises, no ledger line and the partial sort; the device lock is released either way |
| Scheduler.DeviceName | CTBB_Pipeline/scripts/ctbb_pipeline_daemon.py:61 | `'dev%d' % i`: the lock name of the i-th device |
| Scheduler.DeviceNames | CTBB_Pipeline/scripts/ctbb_pipeline_daemon.py:60-61 | n devices are named `dev0` … `dev{n-1}` in order |
| Scheduler.DeviceNameInjective | CTBB_Pipeline/scripts/ctbb_pipeline_daemon.py:61 | different device numbers give different lock names |
| Scheduler.DeviceNamesDistinct | CTBB_Pipeline/scripts/ctbb_pipeline_daemon.py:60-61 | the device lock names are pairwise different |
| Scheduler.DeviceNamesAreNotControlLocks | CTBB_Pipeline/scripts/ctbb_pipeline_daemon.py:60-61 | no device lock is named `queue` or `daemon` |
| Scheduler.Daemon.GetDevices | CTBB_Pipeline/scripts/ctbb_pipeline_daemon.py:52-61 | appends the n device names in order |
| Scheduler.Daemon.LoadQueue | CTBB_Pipeline/scripts/ctbb_pipeline_daemon.py:34-36 | reads the queue under the queue lock and releases it |
| Scheduler.Daemon.constructor | CTBB_Pipeline/scripts/ctbb_pipeline_daemon.py:26-36 | the devices are `dev0` … `dev{n-1}`, the queue is the file's lines, read under the queue lock |
| Scheduler.StartupGuarded | CTBB_Pipeline/scripts/ctbb_pipeline_daemon.py:34-36 | the startup read of the queue happens under the queue lock |
| Scheduler.Daemon.Enter | CTBB_Pipeline/scripts/ctbb_pipeline_daemon.py:38-40 | `__enter__` takes the daemon lock |
| Scheduler.Daemon.Exit | CTBB_Pipeline/scripts/ctbb_pipeline_daemon.py:42-44 | `__exit__` releases the daemon lock |
| Scheduler.Daemon.RefreshQueue | CTBB_Pipeline/scripts/ctbb_pipeline_daemon.py:104-106 | the queue becomes the `splitlines` of the file, empty lines included; a second refresh with no write in between gives the same queue |
| Scheduler.RewriteQueue | CTBB_Pipeline/scripts/ctbb_pipeline_daemon.py:99-101 | the queue file becomes the items, each followed by a newline |
| Scheduler.Daemon.PopQueueItem | CTBB_Pipeline/scripts/ctbb_pipeline_daemon.py:93-102 | returns the old head, keeps the old tail, and the file is the tail, one line per item |
| Scheduler.RefreshAfterRewrite | CTBB_Pipeline/scripts/ctbb_pipeline_daemon.py:99-106 | refreshing after a rewrite with a tail of the queue gives that tail back |
| Scheduler.Free | CTBB_Pipeline/scripts/ctbb_pipeline_daemon.py:115-124 | `get_empty_devices`: the devices whose lock `check_state` reports free, in device order, never more than the devices |
| Scheduler.FreeMembers | CTBB_Pipeline/scripts/ctbb_pipeline_daemon.py:115-124 | a device is offered exactly when it is a known device whose lock is not held |
| Scheduler.FreeAppend | CTBB_Pipeline/scripts/ctbb_pipeline_daemon.py:118-122 | the filter keeps device order |
| Scheduler.FreeIgnoresOtherLocks | CTBB_Pipeline/scripts/ctbb_pipeline_daemon.py:120 | only the devices' own locks decide which are free; taking the queue lock changes nothing |
| Scheduler.Daemon.GetEmptyDevices | CTBB_Pipeline/scripts/ctbb_pipeline_daemon.py:115-124 | returns the free devices in device order |
| Scheduler.WorkerCommand | CTBB_Pipeline/scripts/ctbb_pipeline_daemon.py:111 | `'python3 %s/ctbb_queue_item.py %s %s %s' % (run_dir, qi, dev.name, library_path)` |
| Scheduler.WorkerCommandArgs | CTBB_Pipeline/scripts/ctbb_pipeline_daemon.py:111 | the worker command splits on spaces into `python3`, the script path, the item, the device and the library |
| Scheduler.Daemon.ProcessQueueItem | CTBB_Pipeline/scripts/ctbb_pipeline_daemon.py:109-113 | starts exactly one worker with that command |
| Scheduler.Spawned | CTBB_Pipeline/scripts/ctbb_pipeline_daemon.py:109-113 | the commands of the worker processes started in a trace, in order |
| Scheduler.DispatchTrace | CTBB_Pipeline/scripts/ctbb_pipeline_daemon.py:79-85 | the dispatch loop takes and releases no lock |
| Scheduler.Commands | CTBB_Pipeline/scripts/ctbb_pipeline_daemon.py:79-85 | min(K, N) workers, the k-th for the k-th queue head on the k-th free device |
| Scheduler.SpawnedStep | CTBB_Pipeline/scripts/ctbb_pipeline_daemon.py:80-85 | each free device starts one worker while the queue lasts, none after |
| Scheduler.DispatchPairs | CTBB_Pipeline/scripts/ctbb_pipeline_daemon.py:79-85 | the workers the loop starts are exactly `Commands`, in order |
| Scheduler.Daemon.DispatchOne | CTBB_Pipeline/scripts/ctbb_pipeline_daemon.py:80-85 | the i-th free device pops the i-th head if the queue is not yet exhausted |
| Scheduler.Daemon.DispatchAll | CTBB_Pipeline/scripts/ctbb_pipeline_daemon.py:79-85 | the queue shrinks by min(K, N) and the file then holds exactly the rest |
| Scheduler.Daemon.Iterate | CTBB_Pipeline/scripts/ctbb_pipeline_daemon.py:73-89 | one pass: refresh and dispatch under the queue lock, then the recon list refresh; the in-memory queue matches the file |
| Scheduler.IterationGuarded | CTBB_Pipeline/scripts/ctbb_pipeline_daemon.py:73-87 | every queue access of a pass happens under the queue lock, and a pass never touches the daemon lock |
| Scheduler.RunStep | CTBB_Pipeline/scripts/ctbb_pipeline_daemon.py:72-89 | the lock discipline holds after any number of passes |
| Scheduler.Daemon.Run | CTBB_Pipeline/scripts/ctbb_pipeline_daemon.py:69-91 | passes continue while the queue is not empty; an empty queue makes no pass; every queue access is under the queue lock |
| Scheduler.Daemon.Serve | CTBB_Pipeline/scripts/ctbb_pipeline_daemon.py:147-148 | `with ctbb_daemon(...)`: `run` between taking and releasing the daemon lock |
| Scheduler.DaemonHeldThroughout | CTBB_Pipeline/scripts/ctbb_pipeline_daemon.py:38-44 | the daemon lock is held for every step of `run` and free afterwards |
| Scheduler.DaemonMain | CTBB_Pipeline/scripts/ctbb_pipeline_daemon.py:132-158 | a daemon starts exactly when the daemon lock is free; otherwise nothing changes and nothing is dispatched |
| Launch.QueueLines | CTBB_Pipeline/scripts/ctbb_pipeline_launch.py:34 | each job becomes one line `c,dose,kernel,st\n`, in job order |
| Launch.ConcatQueueLines | CTBB_Pipeline/scripts/ctbb_pipeline_launch.py:42-44 | writing the queue strings one by one writes the job items in the queue file's line format |
| Launch.KernelLines | CTBB_Pipeline/scripts/ctbb_pipeline_launch.py:33-34 | the kernel loop builds the lines of the kernel jobs |
| Launch.StLines | CTBB_Pipeline/scripts/ctbb_pipeline_launch.py:32-34 | the slice-thickness loop builds the lines of its jobs |
| Launch.DoseLines | CTBB_Pipeline/scripts/ctbb_pipeline_launch.py:31-34 | the dose loop builds the lines of its jobs |
| Launch.BuildQueueStrings | CTBB_Pipeline/scripts/ctbb_pipeline_launch.py:28-34 | the queue strings are the lines of the cross product, empty cases skipped |
| Launch.WriteLines | CTBB_Pipeline/scripts/ctbb_pipeline_launch.py:42-44 | the queue file is extended by the strings in order |
| Launch.WriteByPriority | CTBB_Pipeline/scripts/ctbb_pipeline_launch.py:38-60 | normal: old contents then new lines; high: new lines then old contents; any other priority: file unchanged |
| Launch.FlushEvents | CTBB_Pipeline/scripts/ctbb_pipeline_launch.py:38-60 | no priority branch takes or releases a lock |
| Launch.FlushGuarded | CTBB_Pipeline/scripts/ctbb_pipeline_launch.py:24-62 | on every priority branch the queue is accessed only under the queue lock |
| Launch.FlushWithPriority | CTBB_Pipeline/scripts/ctbb_pipeline_launch.py:16-62 | the queue file per priority, the queue lock taken first and released last |
| Launch.FlushJobsToQueue | CTBB_Pipeline/scripts/ctbb_pipeline_launch.py:16-62 | with the fixed `'normal'` priority, the cross product's lines are appended under the queue lock |
| Launch.NormalFlushReadsBack | CTBB_Pipeline/scripts/ctbb_pipeline_launch.py:41-44 | the daemon then reads the old items followed by the new jobs' lines, and the worker parses each line into its job |
| Launch.HighFlushReadsBack | CTBB_Pipeline/scripts/ctbb_pipeline_launch.py:48-56 | after a high-priority flush the daemon reads the new jobs first, then the old items |
| Launch.FlushKeepsLinesWhole | CTBB_Pipeline/scripts/ctbb_pipeline_launch.py:34-56 | a queue file that ends a line still does after a flush, so later appends start a new line |
| Diff.LibraryRoot | CTBB_Pipeline/scripts/ctbb_pipeline_diff.py:39 | `library_root`: `dirname(dirname(library_filepath))` |
| Diff.Relocated | CTBB_Pipeline/scripts/ctbb_pipeline_diff.py:40-55 | `relocated_flag`: the library root differs from `dirname` of the case list path |
| Diff.CaseListPath | CTBB_Pipeline/scripts/ctbb_pipeline_diff.py:42-50 | the case list read: on relocation, its basename joined onto the library root, else the configured path |
| Diff.RelocationSettles | CTBB_Pipeline/scripts/ctbb_pipeline_diff.py:39-55 | once the case list path is moved to the library's root, it no longer counts as relocated |
| Diff.FindFrom | CTBB_Pipeline/scripts/ctbb_pipeline_diff.py:89 | the first index at or after `i` where `raw/` occurs, None when there is none; the index found is an occurrence and none comes before it |
| Diff.SecondField | CTBB_Pipeline/scripts/ctbb_pipeline_diff.py:89 | `s.split(sep)[1]`: the text between the first and the second `sep`, or to the end; None (IndexError) without any `sep` |
| Diff.ContainsRaw | CTBB_Pipeline/scripts/ctbb_pipeline_diff.py:89 | the raw path holds a `raw/` for `split("raw/")[1]` to cut at |
| Diff.RelocatedRawAsWritten | CTBB_Pipeline/scripts/ctbb_pipeline_diff.py:88-90 | the rewrite as written: `join(library_root, 'raw', path.split("raw/")[1])`, None (IndexError) without `raw/` |
| Diff.AfterFirst | CTBB_Pipeline/scripts/ctbb_pipeline_diff.py:89 | everything after the first `sep`, a suffix of the input; None without any `sep` |
| Diff.RelocatedRaw | CTBB_Pipeline/scripts/ctbb_pipeline_diff.py:88-90 | the corrected rewrite behind the first Finding: `join(library_root, 'raw', <everything after the first raw/>)` |
| Diff.RawRewriteAsWrittenDropsTail | CTBB_Pipeline/scripts/ctbb_pipeline_diff.py:89 | as written, on `/raw/a/raw/b` the rewrite keeps only `a/`, where the text after the first `raw/` is `a/raw/b` |
| Diff.RelocatedRawKeepsTail | CTBB_Pipeline/scripts/ctbb_pipeline_diff.py:88-90 | a relocated raw path is `<root>/raw/` followed by everything after its first `raw/` |
| Diff.RawRewriteAsWrittenKeepsSingleTail | CTBB_Pipeline/scripts/ctbb_pipeline_diff.py:88-90 | where the path holds no second `raw/`, the source's rewrite gives `<root>/raw/<rest>`, the same as the intended one |
| Diff.JoinKeepsTail | CTBB_Pipeline/scripts/ctbb_pipeline_diff.py:90 | the rewritten path ends with, and is longer than, the kept relative part |
| Diff.ImagePath | CTBB_Pipeline/scripts/ctbb_pipeline_diff.py:79-84 | `img_series_filepath`: `join(library.path, 'recon', dose, '{}_k{}_st{}'.format(id, kernel, st), 'img', '{}_d{}_k{}_st{}.img'.format(id, dose, kernel, st))` |
| Diff.ImageOf | CTBB_Pipeline/scripts/ctbb_pipeline_diff.py:79-84 | the `img_series_filepath` of an entry, from its id, dose, kernel and slice thickness |
| Diff.ImagePathIsWorkerImage | CTBB_Pipeline/scripts/ctbb_pipeline_diff.py:79-84 | the expected image path is the worker's `img/` directory of the study joined with the worker's image name |
| Diff.EntryImage | CTBB_Pipeline/scripts/ctbb_pipeline_diff.py:73-84 | an entry's image path is that of its job and pipeline id |
| Diff.RawFor | CTBB_Pipeline/scripts/ctbb_pipeline_diff.py:74-90 | the raw path of an entry: `str(c)` as is, or on relocation the source's rewrite of it, None where that raises |
| Diff.EntryOf | CTBB_Pipeline/scripts/ctbb_pipeline_diff.py:72-92 | the dictionary `d` of one job: its raw path (rewritten on relocation, None where that raises), slice thickness, pipeline id, dose and kernel |
| Diff.EntriesOf | CTBB_Pipeline/scripts/ctbb_pipeline_diff.py:68-92 | the entries of a case's jobs in loop order, None as soon as one raises; as many entries as jobs |
| Diff.CaseStep | CTBB_Pipeline/scripts/ctbb_pipeline_diff.py:63-92 | one pass of the case loop: KeyError (None) for a case without an id, nothing for an empty case, else its entries appended |
| Diff.DesiredList | CTBB_Pipeline/scripts/ctbb_pipeline_diff.py:63-92 | `recon_list_desired`: the case loop's passes in case order |
| Diff.UnknownCaseFails | CTBB_Pipeline/scripts/ctbb_pipeline_diff.py:63-67 | a case entry without a library id aborts the diff (KeyError) |
| Diff.RawForFails | CTBB_Pipeline/scripts/ctbb_pipeline_diff.py:88-90 | the raw path of an entry is missing (IndexError) exactly when the library is relocated and the path holds no `raw/` |
| Diff.EntriesOfEach | CTBB_Pipeline/scripts/ctbb_pipeline_diff.py:68-92 | when every job of a case has an entry, the case's entries exist, one per job and in job order |
| Diff.DescribesAppend | CTBB_Pipeline/scripts/ctbb_pipeline_diff.py:63-92 | entries describing two lists of jobs, appended, describe the appended jobs |
| Diff.CaseEntriesAre | CTBB_Pipeline/scripts/ctbb_pipeline_diff.py:68-92 | a case with an id, and with `raw/` in its path when relocated, has one entry per dose, slice thickness and kernel job, each carrying that job's fields, the case's id and its raw path as is or rewritten |
| Diff.DesiredStep | CTBB_Pipeline/scripts/ctbb_pipeline_diff.py:63-92 | one pass of the case loop extends a desired list describing the earlier cases' jobs to one describing the jobs up to this case |
| Diff.DesiredIsCrossProduct | CTBB_Pipeline/scripts/ctbb_pipeline_diff.py:63-92 | for every configuration whose cases all have ids (and, when relocated, `raw/` in their non-empty paths), the desired list exists and its k-th entry describes the k-th job of the launch cross product: same fields and order, the case's id, and the raw path as is or rewritten by `split("raw/")[1]` |
| Diff.CaseWithoutRawFails | CTBB_Pipeline/scripts/ctbb_pipeline_diff.py:88-90 | when relocated, a non-empty case whose path holds no `raw/` yields no entries (IndexError), provided there is at least one dose, slice thickness and kernel |
| Diff.RelocatedWithoutRawFails | CTBB_Pipeline/scripts/ctbb_pipeline_diff.py:63-90 | when relocated, any non-empty case without `raw/` in its path aborts the whole diff (IndexError), whatever the other cases are |
| Diff.Exists | CTBB_Pipeline/scripts/ctbb_pipeline_diff.py:97 | `os.path.exists(p)`: `basename(p)` is listed in the directory `dirname(p)` |
| Diff.PresentEntries | CTBB_Pipeline/scripts/ctbb_pipeline_diff.py:96-97 | an entry is present exactly when its image path exists |
| Diff.Missing | CTBB_Pipeline/scripts/ctbb_pipeline_diff.py:95-100 | `missing_cases`: the desired entries whose image is not present, in order |
| Diff.MissingMembers | CTBB_Pipeline/scripts/ctbb_pipeline_diff.py:95-100 | an entry is missing exactly when it is desired and its image does not exist |
| Diff.MissingMembersIn | CTBB_Pipeline/scripts/ctbb_pipeline_diff.py:95-100 | the missing filter keeps exactly the desired entries not present |
| Diff.MissingAppend | CTBB_Pipeline/scripts/ctbb_pipeline_diff.py:95-100 | the filter keeps order |
| Diff.ImageNameShape | CTBB_Pipeline/scripts/ctbb_pipeline_diff.py:79-84 | the image name is a plain file name the worker's clean-up sorts into `img/` |
| Diff.ImageFoundInImgDir | CTBB_Pipeline/scripts/ctbb_pipeline_diff.py:79-84 | the expected image exists exactly when the worker's image name is among the files of the study's `img/` directory |
| Diff.ReconstructedImageIsFound | CTBB_Pipeline/scripts/ctbb_pipeline_diff.py:97 | an image a worker reconstructed, in a run whose clean-up goes through, is found by the diff, so that job is not missing |
| Diff.ImageMissedWhenCleanUpRaises | CTBB_Pipeline/scripts/ctbb_pipeline_diff.py:95-100 | an image left behind by a clean-up that raised is not found by the diff, so that job is reported missing again |
| Diff.ResubmitsSameJob | CTBB_Pipeline/scripts/ctbb_pipeline_diff.py:108-109 | without relocation, re-queuing an entry queues the job it came from |
| Diff.AppendMissingAsWritten | CTBB_Pipeline/scripts/ctbb_pipeline_diff.py:117-119 | as written: the lines are appended with no lock taken |
| Diff.UnlockedAppendIsUnguarded | CTBB_Pipeline/scripts/ctbb_pipeline_diff.py:117-119 | as written, any non-empty append touches the queue without holding the queue lock |
| Diff.AppendMissing | CTBB_Pipeline/scripts/ctbb_pipeline_diff.py:117-119 | the same append under the queue lock, which is then guarded |
| Diff.EntryFor | CTBB_Pipeline/scripts/ctbb_pipeline_diff.py:73-92 | the kernel loop body: the job's entry, with the raw path rewritten by the source's `split("raw/")[1]` on relocation |
| Diff.CaseEntries | CTBB_Pipeline/scripts/ctbb_pipeline_diff.py:68-92 | the entries of one case, in loop order, or failure as soon as one rewrite fails |
| Diff.CaseStepOf | CTBB_Pipeline/scripts/ctbb_pipeline_diff.py:63-92 | one pass of the case loop: KeyError without an id, nothing for an empty case, else the case's entries appended, or failure |
| Diff.BuildDesired | CTBB_Pipeline/scripts/ctbb_pipeline_diff.py:63-92 | the loop builds the reference desired list |
| Diff.FindMissing | CTBB_Pipeline/scripts/ctbb_pipeline_diff.py:95-100 | the loop keeps, in order, the entries whose image does not exist |
| Diff.JobOf | CTBB_Pipeline/scripts/ctbb_pipeline_diff.py:109 | the job a missing entry is queued as: its raw path, dose, kernel and slice thickness |
| Diff.JobsOf | CTBB_Pipeline/scripts/ctbb_pipeline_diff.py:108-109 | the jobs of the missing entries, one per entry and in order |
| Diff.MissingLines | CTBB_Pipeline/scripts/ctbb_pipeline_diff.py:106-109 | one queue line `path,dose,kernel,st\n` per missing entry, in order |
| Diff.DiffMain | CTBB_Pipeline/scripts/ctbb_pipeline_diff.py:39-119 | with nothing missing (or an abort) the queue is untouched; otherwise the missing jobs' lines are appended in order with no lock taken, an access the queue lock does not guard |

## Left out

- Logging, printing, the log files and their final copy into the study or library log directory: no behaviour depends on them.
- The lock library's implementation and the cross-process race between checking and creating a lock: a lock is one boolean per name. `lock()` on a held lock would wait for another process, so the model sets it directly.
- `subprocess.call`, `subprocess.Popen` and `time.sleep(5)`: a started process is an event carrying its command, and a finished one is represented by its exit code and the files it writes, which are inputs.
- The CUDA device query and device attributes: the device count `n` is a parameter.
- `locate_raw_data`, `locate_reduced_dose_data`, `__get_case_list__`, `pype.case_list` and `load_config`: foreign code, represented by their results (`Worker.Collaborators`, the `ids` map, the `caseListOf` function, the lists of doses, slice thicknesses and kernels).
- `refresh_recon_list` is only recorded as an event: its effect lies in the library code, which is not part of this model.
- `pype.study_directory` is represented by the study path and its `log/` and `img/` subdirectories.
- The order of a directory listing, which `glob` follows, is left open (`Worker.Listing`); every contract holds for every order. A move onto a name already in the target directory replaces that file, so the target is a set union.
- Exceptions other than those modelled (the IndexError of a short line, the IOError of the PRM copy, the KeyError and IndexError of the diff), and the `except NameError` traceback handlers.
- The `__main__` of the launch script (configuration parsing and the PRM template flush) and the metrics and QA document scripts: outside the modelled core.
- Scheduler.Daemon.Run: the `while` loop is bounded by a `fuel` count of passes, because whether it ever ends depends on other processes emptying the queue. The contract states what holds when fuel runs out before the queue empties.
- Launch.FlushJobsToQueue: the priority is fixed to `'normal'` as in the source; the high and other branches are modelled and proved in `Launch.FlushWithPriority`.
- PipelineLibrary.Library.MakeDirs: only the named directory is added; the parent directories `os.makedirs` also creates, such as `<recon>/<dose>`, are not tracked, because no modelled operation lists them.
- PipelineLibrary.Library.constructor: the `raw` and `recon` subdirectories, the `.proc` ledgers and the lock directory are the layout of the library collaborator `ctbb_pipeline_library`, which is not part of this model; the model fixes them under the library root. Its `path` stands both for the argument the diff passes (`library_filepath`, `ctbb_pipeline_diff.py:39`) and for the collaborator's `library.path` the diff reads back (`ctbb_pipeline_diff.py:79`), which assumes `ctbb_pipeline_library` stores its argument unchanged.
- Worker.RunQueueItem: the library's `texts` keep a file's contents at the path it was written to; the clean-up's moves carry file names between directories but not those contents, so the PRM text stays keyed at `<study>/<name>.prm` after the PRM file has moved to `img/`.
- Diff.DiffMain: `abspath(library_root)` is taken to be `library_root`, because absolute paths depend on the working directory.
- The diff's `img_series_filepath` is derived from the entry (`Diff.ImageOf`) rather than stored in it, and the final `cat` of the queue file is output only.

## Findings

| source | as written | input that shows it | evidently intended | confidence | as-written member | corrected member |
|---|---|---|---|---|---|---|
| CTBB_Pipeline/scripts/ctbb_pipeline_diff.py:89 | `split("raw/")[1]` keeps only the text between the first and the second `raw/` | raw path `/raw/a/raw/b`: rewritten tail `a/` instead of `a/raw/b` | keep everything after the first `raw/` | not executed | Diff.RawRewriteAsWrittenDropsTail | Diff.RelocatedRawKeepsTail |
| CTBB_Pipeline/scripts/ctbb_pipeline_diff.py:117-119 | the missing jobs are appended to the queue file with no queue lock, while a running daemon rewrites that file under the lock | any non-empty list of missing entries | append under the queue lock, like `flush_jobs_to_queue` | not executed | Diff.UnlockedAppendIsUnguarded | Diff.AppendMissing |
| CTBB_Pipeline/scripts/ctbb_queue_item.py:149-153 | a file matching both `*.std*` and `*.log` is listed twice and moved twice; the second move finds it gone and raises, which ends `clean_up` before its ledger line | study file `a.stdout.log` | move each log artifact once | not executed | Worker.DoubleMoveFails | Worker.MovedAllDistinct |
