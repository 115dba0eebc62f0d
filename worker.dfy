/** The worker that runs one queue item (ctbb_queue_item.py): it parses the job line,
    holds the device lock for its whole run, drives the job through its stages while the
    status stays SUCCESS, sorts the study directory's artifacts and records the outcome
    in the "done" or "error" ledger. The library collaborator's answers (is there raw
    data, the exit codes of dose reduction and reconstruction, the PRM template) are
    inputs. */
module Worker {
  import opened Wrappers
  import opened Text
  import opened Paths
  import opened Jobs
  import opened PipelineLibrary

  /** `qi_status`. */
  datatype Status = Success | NoRaw | DoseReductionError | PrmCreationError | ReconstructionError

  /** `str(status)` of the Enum member, as the error ledger receives it. */
  function StatusText(s: Status): string
  {
    match s
    case Success => "qi_status.SUCCESS"
    case NoRaw => "qi_status.NO_RAW"
    case DoseReductionError => "qi_status.DOSE_REDUCTION_ERROR"
    case PrmCreationError => "qi_status.PRM_CREATION_ERROR"
    case ReconstructionError => "qi_status.RECONSTRUCTION_ERROR"
  }

  /** How a worker run ends: the line did not parse, the clean-up raised after the stages
      ran, or the final status was recorded in a ledger. */
  datatype Outcome = Malformed | Raised(status: Status) | Recorded(status: Status)

  /** What `locate_raw_data` returns: `None`, or the case id (an md5 hash). */
  datatype CaseId = NotFound | Found(id: string)
  {
    /** Python truthiness: `None` and the empty string are false. */
    predicate Truthy()
    {
      Found? && id != ""
    }

    /** `'%s' % case_id`. */
    function Text(): string
    {
      if Found? then id else "None"
    }
  }

  /** The answers of the code the worker calls but that is not modelled. */
  datatype Collaborators = Collaborators(
    located: CaseId,              // locate_raw_data(filepath)
    doseExit: int,                // locate_reduced_dose_data(filepath, dose)
    prmTemplate: Option<string>,  // contents of <raw_dir>/<basename(filepath)>.prmb (ctbb_queue_item.py:90-91);
                                  // None when copying it raises IOError
    reconExit: int,               // exit code of ctbb_recon
    reconOutputs: set<string>)    // names of the files ctbb_recon writes into the study directory

  /** `qi.split(',')` and the four assignments of `__init__`; None when the line has fewer
      than four fields, where the source raises IndexError before taking any lock. Fields
      after the fourth are ignored. */
  function Parse(qi: string): (r: Option<Job>)
    ensures r.None? <==> Count(qi, ',') < 3
    ensures r.Some? ==> ',' !in r.value.path && ',' !in r.value.dose && ',' !in r.value.kernel && ',' !in r.value.sliceThickness
  {
    var f := Split(qi, ',');
    if |f| < 4 then None
    else
      Some(Job(f[0], f[1], f[2], f[3]))
  }

  /** The line a submitter writes parses back into the job it was made from. */
  lemma ParseJobItem(j: Job)
    requires ',' !in j.path && ',' !in j.dose && ',' !in j.kernel && ',' !in j.sliceThickness
    ensures Parse(JobItem(j)) == Some(j)
  {
    var tail := j.kernel + [','] + j.sliceThickness;
    assert JobItem(j) == j.path + [','] + (j.dose + [','] + tail);
    SplitNoSep(j.sliceThickness, ',');
    SplitPrefix(j.kernel, ',', j.sliceThickness);
    SplitPrefix(j.dose, ',', tail);
    SplitPrefix(j.path, ',', j.dose + [','] + tail);
  }

  // ---- status of each stage ----

  /** `get_raw_data`: NO_RAW exactly when the located case id is falsy. */
  function RawStatus(located: CaseId): (s: Status)
    ensures s == Success <==> located.Truthy()
    ensures s == Success || s == NoRaw
  {
    if located.Truthy() then Success else NoRaw
  }

  /** `simulate_reduced_dose`: DOSE_REDUCTION_ERROR exactly when the exit code is non-zero. */
  function DoseStatus(exitCode: int): (s: Status)
    ensures s == Success <==> exitCode == 0
    ensures s == Success || s == DoseReductionError
  {
    if exitCode != 0 then DoseReductionError else Success
  }

  /** `make_final_prm`: PRM_CREATION_ERROR exactly when copying the template raises IOError. */
  function PrmStatus(template: Option<string>): (s: Status)
    ensures s == Success <==> template.Some?
    ensures s == Success || s == PrmCreationError
  {
    if template.None? then PrmCreationError else Success
  }

  /** `dispatch_recon`: RECONSTRUCTION_ERROR exactly when the exit code is non-zero. */
  function ReconStatus(exitCode: int): (s: Status)
    ensures s == Success <==> exitCode == 0
    ensures s == Success || s == ReconstructionError
  {
    if exitCode != 0 then ReconstructionError else Success
  }

  // ---- names ----

  /** `'%s_k%s_st%s' % (case_id, kernel, slice_thickness)`. */
  function CaseDirName(caseText: string, j: Job): string
  {
    caseText + "_k" + j.kernel + "_st" + j.sliceThickness
  }

  /** `<recon_dir>/<dose>/<case>_k<kernel>_st<st>`: the study directory, also the PRM directory. */
  function StudyPath(reconDir: string, caseText: string, j: Job): string
  {
    Join(Join(reconDir, j.dose), CaseDirName(caseText, j))
  }

  /** `'%s_d%s_k%s_st%s' % (case_id, dose, kernel, slice_thickness)`. */
  function RunName(caseText: string, j: Job): string
  {
    caseText + "_d" + j.dose + "_k" + j.kernel + "_st" + j.sliceThickness
  }

  function PrmName(caseText: string, j: Job): string
  {
    RunName(caseText, j) + ".prm"
  }

  function ImageName(caseText: string, j: Job): string
  {
    RunName(caseText, j) + ".img"
  }

  function PrmPath(reconDir: string, caseText: string, j: Job): string
  {
    Join(StudyPath(reconDir, caseText, j), PrmName(caseText, j))
  }

  function LogDir(study: string): string
  {
    Join(study, "log")
  }

  function ImgDir(study: string): string
  {
    Join(study, "img")
  }

  // ---- the PRM file ----

  /** The seven `key\tvalue` entries `make_final_prm` appends, in the order it writes them. */
  function PrmEntries(rawDir: string, caseText: string, study: string, j: Job): seq<(string, string)>
  {
    [("RawDataDir:", Join(rawDir, j.dose)),
     ("RawDataFile:", caseText),
     ("OutputDir:", study),
     ("OutputFile:", ImageName(caseText, j)),
     ("ReconKernel:", j.kernel),
     ("SliceThickness:", j.sliceThickness),
     ("AdaptiveFiltration:", "1.0")]
  }

  /** `a + "\t" + str(b)`: what `printout` writes before the newline. */
  function EntryLine(key: string, value: string): string
  {
    key + "\t" + value
  }

  function EntryLines(entries: seq<(string, string)>): (lines: seq<string>)
    ensures |lines| == |entries|
    ensures forall k :: 0 <= k < |entries| ==> lines[k] == EntryLine(entries[k].0, entries[k].1)
  {
    if |entries| == 0 then [] else [EntryLine(entries[0].0, entries[0].1)] + EntryLines(entries[1..])
  }

  /** The template followed by one `printout` line per entry. */
  function PrmText(template: string, entries: seq<(string, string)>): string
  {
    template + Serialize(EntryLines(entries))
  }

  predicate PlainField(s: string)
  {
    NoLineBreak(s) && '\t' !in s
  }

  /** One `printout` line holds no line break and splits on its tab into key and value. */
  lemma EntryLinePlain(key: string, value: string)
    requires PlainField(key) && PlainField(value)
    ensures NoLineBreak(EntryLine(key, value))
    ensures Split(EntryLine(key, value), '\t') == [key, value]
  {
    var line := key + "\t" + value;
    forall i | 0 <= i < |line| ensures !IsLineBreak(line[i]) {
      if i < |key| {
        assert line[i] == key[i];
      } else if i > |key| {
        assert line[i] == value[i - |key| - 1];
      }
    }
    assert JoinWith([value], '\t') == value;
    assert line == JoinWith([key, value], '\t');
    SplitJoin([key, value], '\t');
  }

  /** Reading the PRM file back line by line gives the template's lines, then one line per
      entry, each splitting on its tab into the key and the value. */
  lemma PrmTextReadsBack(template: string, entries: seq<(string, string)>)
    requires EndsLine(template)
    requires forall k :: 0 <= k < |entries| ==> PlainField(entries[k].0) && PlainField(entries[k].1)
    ensures SplitLines(PrmText(template, entries)) == SplitLines(template) + EntryLines(entries)
    ensures forall k :: 0 <= k < |entries| ==> Split(EntryLines(entries)[k], '\t') == [entries[k].0, entries[k].1]
  {
    var lines := EntryLines(entries);
    forall k | 0 <= k < |entries|
      ensures NoLineBreak(lines[k]) && Split(lines[k], '\t') == [entries[k].0, entries[k].1]
    {
      EntryLinePlain(entries[k].0, entries[k].1);
    }
    SplitLinesAppend(template, Serialize(lines));
    SplitLinesSerialize(lines);
  }

  // ---- the reconstruction command ----

  /** `device.name.strip('dev')`: the ordinal handed to the reconstruction. */
  function DeviceOrdinal(device: string): string
  {
    Strip(device, {'d', 'e', 'v'})
  }

  /** `'ctbb_recon -v --timing --device=%s %s' % (ordinal, prm_filepath)`. */
  function ReconCommand(device: string, prmPath: string): string
  {
    "ctbb_recon -v --timing --device=" + DeviceOrdinal(device) + " " + prmPath
  }

  // ---- clean-up ----

  /** `glob` skips names starting with '.' unless the pattern does. */
  predicate Hidden(name: string)
  {
    |name| > 0 && name[0] == '.'
  }

  /** The names the four patterns of `clean_up` match: `*.std*`, `*.log`, `*.img`, `*.prm`. */
  predicate MatchesStd(name: string)
  {
    !Hidden(name) && HasInfix(name, ".std")
  }

  predicate MatchesLog(name: string)
  {
    !Hidden(name) && HasSuffix(name, ".log")
  }

  predicate MatchesImg(name: string)
  {
    !Hidden(name) && HasSuffix(name, ".img")
  }

  predicate MatchesPrm(name: string)
  {
    !Hidden(name) && HasSuffix(name, ".prm")
  }

  /** Matched by `*.std*` or by `*.log`. */
  predicate IsLogArtifact(name: string)
  {
    MatchesStd(name) || MatchesLog(name)
  }

  /** Matched by `*.img` or by `*.prm`. */
  predicate IsImageArtifact(name: string)
  {
    MatchesImg(name) || MatchesPrm(name)
  }

  /** Where the files of a study directory go: logs first, then images among what is left
      (the image globs run after the log files have been moved), the rest stays. */
  function SortArtifacts(files: set<string>): (r: (set<string>, set<string>, set<string>))
    ensures r.0 + r.1 + r.2 == files
    ensures r.0 * r.1 == {} && r.0 * r.2 == {} && r.1 * r.2 == {}
    ensures forall f :: f in r.0 <==> f in files && IsLogArtifact(f)
    ensures forall f :: f in r.1 <==> f in files && IsImageArtifact(f) && !IsLogArtifact(f)
  {
    var logs := set f | f in files && IsLogArtifact(f);
    var imgs := set f | f in files && IsImageArtifact(f) && !IsLogArtifact(f);
    (logs, imgs, files - logs - imgs)
  }

  function FilesIn(dirs: map<string, set<string>>, p: string): set<string>
  {
    if p in dirs then dirs[p] else {}
  }

  function WithDir(dirs: map<string, set<string>>, p: string): map<string, set<string>>
  {
    if p in dirs then dirs else dirs[p := {}]
  }

  /** The directories once `initialize_study` has run: the study directory with its `log`
      and `img` subdirectories. */
  function InitDirs(dirs: map<string, set<string>>, study: string): map<string, set<string>>
  {
    WithDir(WithDir(WithDir(dirs, study), LogDir(study)), ImgDir(study))
  }

  function AddTo(dirs: map<string, set<string>>, p: string, names: set<string>): map<string, set<string>>
  {
    dirs[p := FilesIn(dirs, p) + names]
  }

  /** The directories after the moves of `clean_up`. */
  function CleanedDirs(dirs: map<string, set<string>>, study: string): map<string, set<string>>
  {
    var sorted := SortArtifacts(FilesIn(dirs, study));
    dirs[study := sorted.2]
        [LogDir(study) := FilesIn(dirs, LogDir(study)) + sorted.0]
        [ImgDir(study) := FilesIn(dirs, ImgDir(study)) + sorted.1]
  }

  /** The ledger a status is recorded in. */
  function LedgerOf(s: Status): string
  {
    if s == Success then DoneLedger else ErrorLedger
  }

  /** `"%s\n" % qi_raw` on success, `"%s:%s\n" % (qi_raw, str(status))` otherwise. */
  function LedgerLine(qi: string, s: Status): string
  {
    if s == Success then qi + "\n" else qi + ":" + StatusText(s) + "\n"
  }

  // ---- the stage sequence, as a reference ----

  /** The gated stages in order, each with the status it returns when it runs. */
  function StageOutcomes(dose: string, c: Collaborators): seq<(Stage, Status)>
  {
    [(FetchRaw, RawStatus(c.located))]
    + (if dose != "100" then [(SimulateDose, DoseStatus(c.doseExit))] else [])
    + [(AssemblePrm, PrmStatus(c.prmTemplate)), (Reconstruct, ReconStatus(c.reconExit))]
  }

  /** The status of running the stages one after another while the status is SUCCESS. */
  function FirstFailure(outs: seq<(Stage, Status)>): Status
  {
    if |outs| == 0 then Success
    else if outs[0].1 != Success then outs[0].1
    else FirstFailure(outs[1..])
  }

  /** The stages that run: every stage up to and including the first that fails. */
  function Attempted(outs: seq<(Stage, Status)>): (r: seq<Stage>)
    ensures |r| <= |outs|
    ensures |outs| > 0 ==> |r| >= 1 && r[0] == outs[0].0
  {
    if |outs| == 0 then []
    else [outs[0].0] + (if outs[0].1 != Success then [] else Attempted(outs[1..]))
  }

  function StagesOf(outs: seq<(Stage, Status)>): (r: seq<Stage>)
    ensures |r| == |outs|
    ensures forall k :: 0 <= k < |outs| ==> r[k] == outs[k].0
  {
    if |outs| == 0 then [] else [outs[0].0] + StagesOf(outs[1..])
  }

  lemma {:induction false} AllSucceed(outs: seq<(Stage, Status)>)
    requires forall k :: 0 <= k < |outs| ==> outs[k].1 == Success
    ensures FirstFailure(outs) == Success && Attempted(outs) == StagesOf(outs)
  {
    if |outs| > 0 {
      AllSucceed(outs[1..]);
    }
  }

  lemma {:induction false} FailureSticks(outs: seq<(Stage, Status)>, i: nat)
    requires i < |outs|
    requires forall j :: 0 <= j < i ==> outs[j].1 == Success
    requires outs[i].1 != Success
    ensures FirstFailure(outs) == outs[i].1 && Attempted(outs) == StagesOf(outs[..i + 1])
  {
    var first := outs[..i + 1];
    assert first[0] == outs[0];
    if i == 0 {
      assert StagesOf(first) == [outs[0].0];
    } else {
      FailureSticks(outs[1..], i - 1);
      assert outs[1..][..i] == first[1..];
    }
  }

  /** The stage-by-stage semantics: the final status is SUCCESS when every stage succeeds,
      and otherwise the status of the first stage that fails, after which no stage runs. */
  lemma FirstFailureIsFirst(outs: seq<(Stage, Status)>, i: nat)
    requires i <= |outs|
    requires forall j :: 0 <= j < i ==> outs[j].1 == Success
    requires i < |outs| ==> outs[i].1 != Success
    ensures i == |outs| ==> FirstFailure(outs) == Success && Attempted(outs) == StagesOf(outs)
    ensures i < |outs| ==> FirstFailure(outs) == outs[i].1 && Attempted(outs) == StagesOf(outs[..i + 1])
  {
    if i == |outs| {
      AllSucceed(outs);
    } else {
      FailureSticks(outs, i);
    }
  }

  /** What a run does, case by case: the stages it runs and the status it ends with. */
  lemma StageRunCases(dose: string, c: Collaborators)
    ensures Attempted(StageOutcomes(dose, c)) ==
      [FetchRaw] + (if !c.located.Truthy() then [] else
        (if dose != "100" then [SimulateDose] else [])
        + (if dose != "100" && c.doseExit != 0 then [] else
             [AssemblePrm] + (if c.prmTemplate.None? then [] else [Reconstruct])))
    ensures FirstFailure(StageOutcomes(dose, c)) ==
      if !c.located.Truthy() then NoRaw
      else if dose != "100" && c.doseExit != 0 then DoseReductionError
      else if c.prmTemplate.None? then PrmCreationError
      else if c.reconExit != 0 then ReconstructionError
      else Success
  {
    var raw := (FetchRaw, RawStatus(c.located));
    var prm, rec := (AssemblePrm, PrmStatus(c.prmTemplate)), (Reconstruct, ReconStatus(c.reconExit));
    var tail := [prm] + [rec];
    RunCons(rec, []);
    RunCons(prm, [rec]);
    var rest := tail;
    if dose != "100" {
      rest := [(SimulateDose, DoseStatus(c.doseExit))] + tail;
      RunCons((SimulateDose, DoseStatus(c.doseExit)), tail);
    }
    assert StageOutcomes(dose, c) == [raw] + rest;
    RunCons(raw, rest);
  }

  /** One stage in front of others: it runs, and the others run only when it succeeds. */
  lemma RunCons(x: (Stage, Status), rest: seq<(Stage, Status)>)
    ensures Attempted([x] + rest) == [x.0] + (if x.1 != Success then [] else Attempted(rest))
    ensures FirstFailure([x] + rest) == if x.1 != Success then x.1 else FirstFailure(rest)
  {
    assert ([x] + rest)[1..] == rest;
  }

  /** A full-dose job never runs the dose reduction; any other job runs it exactly once
      when raw data was found. */
  lemma DoseReductionRunsOnce(dose: string, c: Collaborators)
    ensures multiset(Attempted(StageOutcomes(dose, c)))[SimulateDose] ==
              if dose != "100" && c.located.Truthy() then 1 else 0
  {
    StageRunCases(dose, c);
  }

  /** The reconstruction runs exactly when raw data, dose reduction and PRM assembly all
      succeeded, the PRM is assembled exactly when the stages before it succeeded, and the
      raw data is always looked for. */
  lemma GatingOfLaterStages(dose: string, c: Collaborators)
    ensures var ran := Attempted(StageOutcomes(dose, c));
      && (Reconstruct in ran <==>
           c.located.Truthy() && (dose == "100" || c.doseExit == 0) && c.prmTemplate.Some?)
      && (AssemblePrm in ran <==> c.located.Truthy() && (dose == "100" || c.doseExit == 0))
      && ran[0] == FetchRaw
  {
    StageRunCases(dose, c);
  }

  // ---- the events of one run ----

  function StageEvent(s: Stage, reconCmd: string): seq<Event>
  {
    if s == Reconstruct then [Enter(Reconstruct), Call(reconCmd)] else [Enter(s)]
  }

  /** The events of the gated stages after the first; only the reconstruction runs a command. */
  function StageEvents(stages: seq<Stage>, reconCmd: string): (r: seq<Event>)
    ensures forall k :: 0 <= k < |r| ==> r[k].Enter? || r[k].Call?
  {
    if |stages| == 0 then []
    else StageEvents(stages[..|stages| - 1], reconCmd) + StageEvent(stages[|stages| - 1], reconCmd)
  }

  lemma StageEventsSnoc(stages: seq<Stage>, s: Stage, reconCmd: string)
    ensures StageEvents(stages + [s], reconCmd) == StageEvents(stages, reconCmd) + StageEvent(s, reconCmd)
  {
    assert (stages + [s])[..|stages|] == stages;
  }

  lemma {:induction false} StageEventsAppend(a: seq<Stage>, b: seq<Stage>, reconCmd: string)
    ensures StageEvents(a + b, reconCmd) == StageEvents(a, reconCmd) + StageEvents(b, reconCmd)
    decreases |b|
  {
    if |b| == 0 {
      assert a + b == a;
    } else {
      var n := |b| - 1;
      assert a + b == (a + b[..n]) + [b[n]];
      StageEventsSnoc(a + b[..n], b[n], reconCmd);
      StageEventsAppend(a, b[..n], reconCmd);
    }
  }

  /** The events of the gated stages, stage by stage. */
  lemma GatedStageEvents(p: Progress, dose: string, reconCmd: string)
    ensures StageEvents(GatedStages(p, dose), reconCmd)
      == (if p.afterRaw == Success && dose != "100" then StageEvent(SimulateDose, reconCmd) else [])
       + (if p.afterDose == Success then StageEvent(AssemblePrm, reconCmd) else [])
       + (if p.afterPrm == Success then StageEvent(Reconstruct, reconCmd) else [])
  {
    var x := if p.afterRaw == Success && dose != "100" then [SimulateDose] else [];
    var y := if p.afterDose == Success then [AssemblePrm] else [];
    var z := if p.afterPrm == Success then [Reconstruct] else [];
    StageEventsAppend(x + y, z, reconCmd);
    StageEventsAppend(x, y, reconCmd);
    assert StageEvents([SimulateDose], reconCmd) == StageEvent(SimulateDose, reconCmd);
    assert StageEvents([AssemblePrm], reconCmd) == StageEvent(AssemblePrm, reconCmd);
    assert StageEvents([Reconstruct], reconCmd) == StageEvent(Reconstruct, reconCmd);
  }

  function LedgerEvents(qi: string, s: Status): seq<Event>
  {
    [Acquire(LedgerOf(s)), AppendLedger(LedgerOf(s), LedgerLine(qi, s)), Release(LedgerOf(s))]
  }

  /** What one worker does between taking the device lock and releasing it, with the lock
      operations at both ends; the ledger line is written when the clean-up's moves went
      through (`recorded`). */
  function WorkerEvents(device: string, qi: string, dose: string, c: Collaborators, reconCmd: string, recorded: bool): seq<Event>
  {
    var outs := StageOutcomes(dose, c);
    [Acquire(device)] + StageTrace(outs, reconCmd) + (if recorded then LedgerEvents(qi, FirstFailure(outs)) else []) + [Release(device)]
  }

  /** The stage events of a run: fetching raw data, creating the study, the later gated
      stages and the clean-up. */
  function StageTrace(outs: seq<(Stage, Status)>, reconCmd: string): (r: seq<Event>)
    requires |outs| > 0
    ensures forall k :: 0 <= k < |r| ==> r[k].Enter? || r[k].Call?
  {
    var a := [Enter(FetchRaw), Enter(InitializeStudy)];
    var b := StageEvents(Attempted(outs)[1..], reconCmd);
    var r := a + b + [Enter(CleanUp)];
    assert forall k :: 0 <= k < |r| ==> r[k] == (if k < 2 then a[k] else if k < 2 + |b| then b[k - 2] else Enter(CleanUp));
    r
  }

  /** The events of the guarded straight-line code of `__main__`, appended to what came
      before, are the reference events of a run. */
  lemma WorkerEventsThreaded(o: seq<Event>, device: string, qi: string, dose: string, c: Collaborators, reconCmd: string, recorded: bool)
    ensures o + [Acquire(device)] + [Enter(FetchRaw)] + [Enter(InitializeStudy)]
              + StageEvents(GatedStages(Thread(dose, c), dose), reconCmd) + [Enter(CleanUp)]
              + (if recorded then LedgerEvents(qi, Thread(dose, c).final) else []) + [Release(device)]
            == o + WorkerEvents(device, qi, dose, c, reconCmd, recorded)
  {
    ThreadMatchesStages(dose, c);
    var outs := StageOutcomes(dose, c);
    var a: seq<Event> := [Enter(FetchRaw), Enter(InitializeStudy)];
    var mid := StageEvents(GatedStages(Thread(dose, c), dose), reconCmd);
    var ledger := if recorded then LedgerEvents(qi, Thread(dose, c).final) else [];
    var t := StageTrace(outs, reconCmd);
    var h := o + [Acquire(device)];
    assert t == a + mid + [Enter(CleanUp)];
    assert h + [Enter(FetchRaw)] + [Enter(InitializeStudy)] == h + a;
    AppendAssoc(h, a, mid);
    AppendAssoc(h, a + mid, [Enter(CleanUp)]);
    assert h + a + mid + [Enter(CleanUp)] == h + t;
    AppendAssoc(o, [Acquire(device)], t);
    AppendAssoc(o, [Acquire(device)] + t, ledger);
    AppendAssoc(o, [Acquire(device)] + t + ledger, [Release(device)]);
  }

  /** The device lock is held from before the first stage until after the ledger line is
      written, and released at the end. */
  lemma DeviceHeldThroughout(device: string, qi: string, dose: string, c: Collaborators, reconCmd: string, recorded: bool)
    requires device != DoneLedger && device != ErrorLedger
    ensures var t := WorkerEvents(device, qi, dose, c, reconCmd, recorded);
      && t[0] == Acquire(device) && t[|t| - 1] == Release(device)
      && (forall k :: 1 <= k < |t| ==> Holds(t[..k], device))
      && !Holds(t, device)
  {
    var outs := StageOutcomes(dose, c);
    var p := StageTrace(outs, reconCmd);
    var middle := p + (if recorded then LedgerEvents(qi, FirstFailure(outs)) else []);
    forall i | 0 <= i < |middle| ensures !middle[i].IsLockOp(device) {
      if i < |p| {
        assert middle[i] == p[i];
      }
    }
    assert WorkerEvents(device, qi, dose, c, reconCmd, recorded) == [Acquire(device)] + middle + [Release(device)];
    Bracketed(device, middle);
  }

  /** A run whose clean-up goes through writes exactly one ledger line: the item's line with
      its final status, in the ledger that status selects, while that ledger's lock is held. */
  lemma LedgerWrittenOnceUnderItsLock(device: string, qi: string, dose: string, c: Collaborators, reconCmd: string)
    ensures var t := WorkerEvents(device, qi, dose, c, reconCmd, true);
      var s := FirstFailure(StageOutcomes(dose, c));
      && (forall k :: 0 <= k < |t| && t[k].AppendLedger? ==>
            t[k] == AppendLedger(LedgerOf(s), LedgerLine(qi, s)) && Holds(t[..k], t[k].ledger))
      && AppendLedger(LedgerOf(s), LedgerLine(qi, s)) in t
  {
    var outs := StageOutcomes(dose, c);
    var s := FirstFailure(outs);
    var t := WorkerEvents(device, qi, dose, c, reconCmd, true);
    var q := [Acquire(device)] + StageTrace(outs, reconCmd);
    var n := |q|;
    assert t == q + LedgerEvents(qi, s) + [Release(device)];
    forall k | 0 <= k < |t| && k != n + 1 ensures !t[k].AppendLedger? {
      if k < n {
        assert t[k] == q[k];
      }
    }
    assert t[..n + 1] == q + [Acquire(LedgerOf(s))];
    assert t[n + 1] == AppendLedger(LedgerOf(s), LedgerLine(qi, s));
  }

  /** A run whose clean-up raises writes no ledger line and never takes a ledger lock: the
      item is in neither ledger. */
  lemma NoLedgerLineWhenCleanUpRaises(device: string, qi: string, dose: string, c: Collaborators, reconCmd: string)
    requires device != DoneLedger && device != ErrorLedger
    ensures var t := WorkerEvents(device, qi, dose, c, reconCmd, false);
      forall k :: 0 <= k < |t| ==> !t[k].AppendLedger? && !t[k].IsLockOp(DoneLedger) && !t[k].IsLockOp(ErrorLedger)
  {
    var outs := StageOutcomes(dose, c);
    var p := StageTrace(outs, reconCmd);
    var t := WorkerEvents(device, qi, dose, c, reconCmd, false);
    assert t == [Acquire(device)] + p + [Release(device)];
    forall k | 0 <= k < |t| ensures !t[k].AppendLedger? && !t[k].IsLockOp(DoneLedger) && !t[k].IsLockOp(ErrorLedger) {
      if 0 < k < |t| - 1 {
        assert t[k] == p[k - 1];
      }
    }
  }

  // ---- clean-up, as the source writes it ----

  /** `listing` names every file of `files` once, in some order. */
  predicate Lists(listing: seq<string>, files: set<string>)
  {
    Distinct(listing) && Elems(listing) == files
  }

  predicate Distinct(s: seq<string>)
  {
    forall i, j :: 0 <= i < j < |s| ==> s[i] != s[j]
  }

  function Elems(s: seq<string>): set<string>
  {
    set f | f in s
  }

  /** The names of `files` a pattern matches. */
  function Matching(files: set<string>, matches: string -> bool): set<string>
  {
    set f | f in files && matches(f)
  }

  /** `glob` of one pattern over a directory listing: the matching names, in listing order. */
  function Glob(listing: seq<string>, matches: string -> bool): (r: seq<string>)
    ensures forall f :: f in r <==> f in listing && matches(f)
    ensures Distinct(listing) ==> Distinct(r)
  {
    if |listing| == 0 then []
    else
      var f := listing[0];
      var rest := Glob(listing[1..], matches);
      assert Distinct(listing) ==> f !in listing[1..];
      (if matches(f) then [f] else []) + rest
  }

  /** The list `stdouts + logs` that `clean_up` moves to `log/` one file at a time. */
  function LogMovesAsWritten(listing: seq<string>): seq<string>
  {
    Glob(listing, MatchesStd) + Glob(listing, MatchesLog)
  }

  /** The list `imgs + meta` that `clean_up` then moves to `img/`. */
  function ImageMovesAsWritten(listing: seq<string>): seq<string>
  {
    Glob(listing, MatchesImg) + Glob(listing, MatchesPrm)
  }

  /** How many of `moves` go through, one after another, out of a directory holding
      `present`: they stop at the first file that is no longer there, where `shutil.move`
      raises. */
  function MovedCount(present: set<string>, moves: seq<string>): (n: nat)
    ensures n <= |moves|
  {
    if |moves| == 0 || moves[0] !in present then 0
    else 1 + MovedCount(present - {moves[0]}, moves[1..])
  }

  /** Some file of the study matches both `*.std*` and `*.log` (say `x.stdout.log`). */
  predicate DoublyMatched(files: set<string>)
  {
    Matching(files, MatchesStd) * Matching(files, MatchesLog) != {}
  }

  /** A log file whose name matches both patterns is listed twice, and its second move
      raises. */
  lemma DoubleMoveFails()
    ensures LogMovesAsWritten(["a.stdout.log"]) == ["a.stdout.log", "a.stdout.log"]
    ensures MovedCount({"a.stdout.log"}, LogMovesAsWritten(["a.stdout.log"])) == 1
  {
    var f := "a.stdout.log";
    HasInfixAt(f, ".std", 1);
    assert HasSuffix(f, ".log");
    assert [f][1..] == [];
    assert [f, f][1..] == [f];
  }

  /** A list of moves without repeats goes through exactly when every file in it is
      present. */
  lemma {:induction false} MovedAllDistinct(present: set<string>, moves: seq<string>)
    requires Distinct(moves)
    ensures MovedCount(present, moves) == |moves| <==> Elems(moves) <= present
  {
    if |moves| > 0 {
      var f, rest := moves[0], moves[1..];
      assert moves == [f] + rest;
      assert Elems(moves) == {f} + Elems(rest);
      assert Distinct(rest) by {
        forall i, j | 0 <= i < j < |rest| ensures rest[i] != rest[j] {
          assert rest[i] == moves[i + 1] && rest[j] == moves[j + 1];
        }
      }
      assert f !in Elems(rest) by {
        forall k | 0 <= k < |rest| ensures rest[k] != f {
          assert rest[k] == moves[k + 1];
        }
      }
      MovedAllDistinct(present - {f}, rest);
    }
  }

  /** Moves that all go through are followed by the next ones out of what they left. */
  lemma {:induction false} MovedCountAppend(present: set<string>, a: seq<string>, b: seq<string>)
    requires MovedCount(present, a) == |a|
    ensures MovedCount(present, a + b) == |a| + MovedCount(present - Elems(a), b)
  {
    if |a| == 0 {
      assert a + b == b;
      assert Elems(a) == {};
      assert present - {} == present;
    } else {
      var f := a[0];
      assert (a + b)[0] == f && (a + b)[1..] == a[1..] + b;
      MovedCountAppend(present - {f}, a[1..], b);
      assert a == [f] + a[1..];
      assert Elems(a) == {f} + Elems(a[1..]);
      assert present - {f} - Elems(a[1..]) == present - Elems(a);
    }
  }

  lemma DistinctAppend(a: seq<string>, b: seq<string>)
    requires Distinct(a) && Distinct(b) && Elems(a) * Elems(b) == {}
    ensures Distinct(a + b)
  {
    forall i, j | 0 <= i < j < |a + b| ensures (a + b)[i] != (a + b)[j] {
      if j < |a| {
        assert (a + b)[i] == a[i] && (a + b)[j] == a[j];
      } else if i < |a| {
        var x, y := a[i], b[j - |a|];
        assert (a + b)[i] == x && (a + b)[j] == y;
        assert x in a && y in b;
        assert x in Elems(a) && y in Elems(b);
        assert x !in Elems(a) * Elems(b);
      } else {
        assert (a + b)[i] == b[i - |a|];
      }
    }
  }

  /** A glob over a listing of `files` lists each matching file once. */
  lemma GlobLists(files: set<string>, listing: seq<string>, matches: string -> bool)
    requires Lists(listing, files)
    ensures Lists(Glob(listing, matches), Matching(files, matches))
  {
  }

  /** The `*.log` files are all still there after the `*.std*` files have gone exactly when
      no file matches both patterns. */
  lemma LogsLeftBehind(files: set<string>)
    ensures Matching(files, MatchesLog) <= files - Matching(files, MatchesStd) <==> !DoublyMatched(files)
  {
    var std, lg := Matching(files, MatchesStd), Matching(files, MatchesLog);
    if DoublyMatched(files) {
      var f :| f in std * lg;
      assert f in lg && f !in files - std;
    } else {
      forall f | f in lg ensures f in files - std {
        assert f !in std * lg;
      }
    }
  }

  /** The log moves of `clean_up` over a listing of the study: they raise exactly when a
      file matches both patterns; every `*.std*` file is moved before that happens, and only
      log artifacts are ever moved; when none raises, all the log artifacts are moved. */
  lemma LogMovesRaiseOnDoubleMatch(files: set<string>, listing: seq<string>)
    requires Lists(listing, files)
    ensures var moves := LogMovesAsWritten(listing); var n := MovedCount(files, moves);
      && (n == |moves| <==> !DoublyMatched(files))
      && Matching(files, MatchesStd) <= Elems(moves[..n]) <= SortArtifacts(files).0
      && (n == |moves| ==> Elems(moves) == SortArtifacts(files).0)
  {
    var std, lg := Glob(listing, MatchesStd), Glob(listing, MatchesLog);
    GlobLists(files, listing, MatchesStd);
    GlobLists(files, listing, MatchesLog);
    MovedAllDistinct(files, std);
    MovedCountAppend(files, std, lg);
    var rest := files - Elems(std);
    var m := MovedCount(rest, lg);
    MovedAllDistinct(rest, lg);
    LogsLeftBehind(files);
    PrefixElems(std, lg, m);
  }

  /** The files of `a + b[..m]` are those of `a` and of `b[..m]`, and lie among those of
      `a + b`. */
  lemma PrefixElems(a: seq<string>, b: seq<string>, m: nat)
    requires m <= |b|
    ensures (a + b)[..|a| + m] == a + b[..m]
    ensures Elems(a + b[..m]) == Elems(a) + Elems(b[..m])
    ensures Elems(a) + Elems(b[..m]) <= Elems(a) + Elems(b)
    ensures Elems(a + b) == Elems(a) + Elems(b)
  {
    assert (a + b)[..|a| + m] == a + b[..m];
    forall f | f in b[..m] ensures f in b {
      var k :| 0 <= k < m && b[..m][k] == f;
      assert b[k] == f;
    }
  }

  /** The image moves that follow cannot raise: a name ends in `.img` or in `.prm`, not
      both, and each is listed once. */
  lemma ImageMovesGoThrough(files: set<string>, listing: seq<string>)
    requires Lists(listing, files)
    ensures MovedCount(files, ImageMovesAsWritten(listing)) == |ImageMovesAsWritten(listing)|
    ensures Elems(ImageMovesAsWritten(listing)) == Matching(files, IsImageArtifact)
  {
    var im, pr := Glob(listing, MatchesImg), Glob(listing, MatchesPrm);
    forall f | f in Elems(im) ensures f !in Elems(pr) {
      assert f[|f| - 1] == 'g';
    }
    DistinctAppend(im, pr);
    assert Elems(im + pr) == Elems(im) + Elems(pr);
    MovedAllDistinct(files, im + pr);
  }

  /** What a clean-up whose log moves raised leaves behind: some of the study's log
      artifacts, among them every `*.std*` file, have gone to `log/`; nothing else has
      moved and no other directory has changed. */
  predicate PartlyCleaned(before: map<string, set<string>>, after: map<string, set<string>>, study: string)
  {
    var files, kept := FilesIn(before, study), FilesIn(after, study);
    && kept <= files
    && files - kept <= SortArtifacts(files).0
    && Matching(files, MatchesStd) * kept == {}
    && after == before[study := kept][LogDir(study) := FilesIn(before, LogDir(study)) + (files - kept)]
  }

  // ---- clean-up, as modelled ----

  /** The study directory and its two subdirectories are three different paths. */
  lemma SubdirsDistinct(study: string)
    ensures LogDir(study) != study && ImgDir(study) != study && LogDir(study) != ImgDir(study)
  {
    var l, i := LogDir(study), ImgDir(study);
    assert |l| == |i| && |l| > |study|;
    assert l[|l| - 3] == 'l' && i[|i| - 3] == 'i';
  }

  /** After `clean_up` the study directory keeps only what is neither a log nor an image
      artifact; every log artifact is in `log/`, every other image artifact in `img/`, and no
      other directory changes. */
  lemma CleanUpSorts(dirs: map<string, set<string>>, study: string)
    ensures var d := CleanedDirs(dirs, study); var files := FilesIn(dirs, study);
      && (forall f :: f in FilesIn(d, study) <==> f in files && !IsLogArtifact(f) && !IsImageArtifact(f))
      && (forall f :: f in FilesIn(d, LogDir(study)) <==> f in FilesIn(dirs, LogDir(study)) || (f in files && IsLogArtifact(f)))
      && (forall f :: f in FilesIn(d, ImgDir(study)) <==>
            f in FilesIn(dirs, ImgDir(study)) || (f in files && IsImageArtifact(f) && !IsLogArtifact(f)))
      && (forall p :: p != study && p != LogDir(study) && p != ImgDir(study) ==> FilesIn(d, p) == FilesIn(dirs, p))
  {
    SubdirsDistinct(study);
  }

  /** The two rounds of moves, the log artifacts to `log/` and then the image artifacts
      left to `img/`, end where the sorted clean-up does. */
  lemma CleanedByMoves(d0: map<string, set<string>>, study: string, logs: set<string>, imgs: set<string>)
    requires logs == SortArtifacts(FilesIn(d0, study)).0
    requires imgs == Matching(FilesIn(d0, study) - logs, IsImageArtifact)
    ensures var files := FilesIn(d0, study);
      var d1 := d0[study := files - logs][LogDir(study) := FilesIn(d0, LogDir(study)) + logs];
      d1[study := FilesIn(d1, study) - imgs][ImgDir(study) := FilesIn(d1, ImgDir(study)) + imgs] == CleanedDirs(d0, study)
  {
    SubdirsDistinct(study);
    var files := FilesIn(d0, study);
    var sorted := SortArtifacts(files);
    assert imgs == sorted.1;
    assert files - logs - imgs == sorted.2;
  }

  /** A clean-up that raised has moved no image: `img/` is as it was, and every image
      artifact that is not also a log artifact is still in the study directory. */
  lemma RaisedCleanUpMovesNoImage(before: map<string, set<string>>, after: map<string, set<string>>, study: string)
    requires PartlyCleaned(before, after, study)
    ensures FilesIn(after, ImgDir(study)) == FilesIn(before, ImgDir(study))
    ensures SortArtifacts(FilesIn(before, study)).1 <= FilesIn(after, study)
  {
    SubdirsDistinct(study);
  }

  // ---- one run ----

  /** The status after each step of `__main__`, threaded through the `if exit_status ==
      SUCCESS` guards as the source writes them. */
  datatype Progress = Progress(afterRaw: Status, afterDose: Status, afterPrm: Status, final: Status)

  function Thread(dose: string, c: Collaborators): Progress
  {
    var r := RawStatus(c.located);
    var d := if r == Success && dose != "100" then DoseStatus(c.doseExit) else r;
    var m := if d == Success then PrmStatus(c.prmTemplate) else d;
    var f := if m == Success then ReconStatus(c.reconExit) else m;
    Progress(r, d, m, f)
  }

  /** The gated stages after the first that a threaded run enters. */
  function GatedStages(p: Progress, dose: string): seq<Stage>
  {
    (if p.afterRaw == Success && dose != "100" then [SimulateDose] else [])
    + (if p.afterDose == Success then [AssemblePrm] else [])
    + (if p.afterPrm == Success then [Reconstruct] else [])
  }

  /** The guarded straight-line code of `__main__` agrees with the stage-by-stage reference:
      it ends with the status of the first failing stage and enters exactly the stages up
      to that one. */
  lemma ThreadMatchesStages(dose: string, c: Collaborators)
    ensures Thread(dose, c).final == FirstFailure(StageOutcomes(dose, c))
    ensures Attempted(StageOutcomes(dose, c)) == [FetchRaw] + GatedStages(Thread(dose, c), dose)
  {
    StageRunCases(dose, c);
  }

  /** The files the reconstruction leaves next to the PRM file: its captured output and
      what it writes itself. */
  function ReconFiles(caseText: string, j: Job, outputs: set<string>): set<string>
  {
    {PrmName(caseText, j) + ".stdout", PrmName(caseText, j) + ".stderr"} + outputs
  }

  /** The directories after the gated stages, before the clean-up. */
  function StagedDirs(d1: map<string, set<string>>, study: string, caseText: string, j: Job, c: Collaborators): map<string, set<string>>
  {
    var p := Thread(j.dose, c);
    var d2 := if p.afterDose == Success && c.prmTemplate.Some? then AddTo(d1, study, {PrmName(caseText, j)}) else d1;
    if p.afterPrm == Success then AddTo(d2, study, ReconFiles(caseText, j, c.reconOutputs)) else d2
  }

  /** The directories of a run of job `j` when its clean-up starts. */
  function StagedRunDirs(dirs: map<string, set<string>>, reconDir: string, j: Job, c: Collaborators): map<string, set<string>>
  {
    var caseText := c.located.Text();
    var study := StudyPath(reconDir, caseText, j);
    StagedDirs(InitDirs(dirs, study), study, caseText, j, c)
  }

  /** The study directory and its two subdirectories exist when the clean-up starts. */
  lemma StudyDirsExist(dirs: map<string, set<string>>, reconDir: string, j: Job, c: Collaborators)
    ensures var d, study := StagedRunDirs(dirs, reconDir, j, c), StudyPath(reconDir, c.located.Text(), j);
      study in d && LogDir(study) in d && ImgDir(study) in d
  {
  }

  /** The clean-up of that run raises: a file of its study matches both log patterns. */
  predicate CleanUpRaises(dirs: map<string, set<string>>, reconDir: string, j: Job, c: Collaborators)
  {
    DoublyMatched(FilesIn(StagedRunDirs(dirs, reconDir, j, c), StudyPath(reconDir, c.located.Text(), j)))
  }

  /** The directories after a whole run of job `j` whose clean-up goes through. */
  function RunDirs(dirs: map<string, set<string>>, reconDir: string, j: Job, c: Collaborators): map<string, set<string>>
  {
    CleanedDirs(StagedRunDirs(dirs, reconDir, j, c), StudyPath(reconDir, c.located.Text(), j))
  }

  /** The text files after a run of job `j`: the PRM file, when it was assembled. */
  function RunTexts(texts: map<string, string>, rawDir: string, reconDir: string, j: Job, c: Collaborators): map<string, string>
  {
    var caseText := c.located.Text();
    var study := StudyPath(reconDir, caseText, j);
    if Thread(j.dose, c).afterDose == Success && c.prmTemplate.Some? then
      texts[PrmPath(reconDir, caseText, j) := PrmText(c.prmTemplate.value, PrmEntries(rawDir, caseText, study, j))]
    else texts
  }

  /** A run that reaches the reconstruction has its captured output in the study
      directory when the clean-up starts, under names that match `*.std*`. */
  lemma ReconOutputStaged(dirs: map<string, set<string>>, reconDir: string, j: Job, c: Collaborators)
    requires Reconstruct in Attempted(StageOutcomes(j.dose, c))
    requires !Hidden(c.located.Text())
    ensures var files := FilesIn(StagedRunDirs(dirs, reconDir, j, c), StudyPath(reconDir, c.located.Text(), j));
      var out := PrmName(c.located.Text(), j) + ".stdout";
      var err := PrmName(c.located.Text(), j) + ".stderr";
      out in Matching(files, MatchesStd) && err in Matching(files, MatchesStd)
  {
    var caseText := c.located.Text();
    var prm := PrmName(caseText, j);
    ThreadMatchesStages(j.dose, c);
    assert Thread(j.dose, c).afterPrm == Success;
    assert prm[0] == caseText[0];
    var out, err := prm + ".stdout", prm + ".stderr";
    assert out == prm + ".std" + "out" && err == prm + ".std" + "err";
    HasInfixBetween(prm, ".std", "out");
    HasInfixBetween(prm, ".std", "err");
    assert out[0] == prm[0] && err[0] == prm[0];
  }

  /** A run that reaches the reconstruction and whose clean-up goes through leaves the
      reconstruction's captured output in the study's `log/` directory, and none of it in
      the study directory itself. */
  lemma ReconOutputLogged(dirs: map<string, set<string>>, reconDir: string, j: Job, c: Collaborators)
    requires Reconstruct in Attempted(StageOutcomes(j.dose, c))
    requires !Hidden(c.located.Text())
    ensures var study := StudyPath(reconDir, c.located.Text(), j);
      var out := PrmName(c.located.Text(), j) + ".stdout";
      var err := PrmName(c.located.Text(), j) + ".stderr";
      var d := RunDirs(dirs, reconDir, j, c);
      && out in FilesIn(d, LogDir(study)) && err in FilesIn(d, LogDir(study))
      && out !in FilesIn(d, study) && err !in FilesIn(d, study)
  {
    ReconOutputStaged(dirs, reconDir, j, c);
    CleanUpSorts(StagedRunDirs(dirs, reconDir, j, c), StudyPath(reconDir, c.located.Text(), j));
  }

  /** A clean-up that raised has still moved every `*.std*` file of the study to `log/`. */
  lemma StdFileLoggedWhenCleanUpRaises(before: map<string, set<string>>, after: map<string, set<string>>, study: string, f: string)
    requires PartlyCleaned(before, after, study)
    requires f in Matching(FilesIn(before, study), MatchesStd)
    ensures f in FilesIn(after, LogDir(study)) && f !in FilesIn(after, study)
  {
    SubdirsDistinct(study);
    var files, kept := FilesIn(before, study), FilesIn(after, study);
    assert f !in Matching(files, MatchesStd) * kept;
    assert f in files - kept;
    assert FilesIn(after, LogDir(study)) == FilesIn(before, LogDir(study)) + (files - kept);
  }

  /** Even when the clean-up raises, the reconstruction's captured output has gone to
      `log/`: the `*.std*` files are moved before any move can fail. */
  lemma ReconOutputLoggedWhenCleanUpRaises(dirs: map<string, set<string>>, reconDir: string, j: Job, c: Collaborators,
                                           after: map<string, set<string>>)
    requires Reconstruct in Attempted(StageOutcomes(j.dose, c))
    requires !Hidden(c.located.Text())
    requires PartlyCleaned(StagedRunDirs(dirs, reconDir, j, c), after, StudyPath(reconDir, c.located.Text(), j))
    ensures var study := StudyPath(reconDir, c.located.Text(), j);
      var out := PrmName(c.located.Text(), j) + ".stdout";
      var err := PrmName(c.located.Text(), j) + ".stderr";
      && out in FilesIn(after, LogDir(study)) && err in FilesIn(after, LogDir(study))
      && out !in FilesIn(after, study) && err !in FilesIn(after, study)
  {
    var study := StudyPath(reconDir, c.located.Text(), j);
    var d3 := StagedRunDirs(dirs, reconDir, j, c);
    ReconOutputStaged(dirs, reconDir, j, c);
    StdFileLoggedWhenCleanUpRaises(d3, after, study, PrmName(c.located.Text(), j) + ".stdout");
    StdFileLoggedWhenCleanUpRaises(d3, after, study, PrmName(c.located.Text(), j) + ".stderr");
  }

  /** Adding names that do not end in `.log` cannot make a file match both log patterns. */
  lemma DoublyMatchedIgnores(files: set<string>, extra: set<string>)
    requires forall f :: f in extra ==> !MatchesLog(f)
    ensures DoublyMatched(files + extra) == DoublyMatched(files)
  {
    if DoublyMatched(files + extra) {
      var f :| f in Matching(files + extra, MatchesStd) * Matching(files + extra, MatchesLog);
      assert f in Matching(files, MatchesStd) * Matching(files, MatchesLog);
    }
    if DoublyMatched(files) {
      var f :| f in Matching(files, MatchesStd) * Matching(files, MatchesLog);
      assert f in Matching(files + extra, MatchesStd) * Matching(files + extra, MatchesLog);
    }
  }

  /** The clean-up of a run raises exactly when a file matching both log patterns was in
      the study directory before the run, or is among what the reconstruction wrote, if it
      ran: the PRM file and the captured output never match `*.log`. */
  lemma CleanUpRaisesExactly(dirs: map<string, set<string>>, reconDir: string, j: Job, c: Collaborators)
    ensures CleanUpRaises(dirs, reconDir, j, c) <==>
      DoublyMatched(FilesIn(dirs, StudyPath(reconDir, c.located.Text(), j))
                    + (if Reconstruct in Attempted(StageOutcomes(j.dose, c)) then c.reconOutputs else {}))
  {
    var ct := c.located.Text();
    var study := StudyPath(reconDir, ct, j);
    var prm := PrmName(ct, j);
    ThreadMatchesStages(j.dose, c);
    var p := Thread(j.dose, c);
    SubdirsDistinct(study);
    var before := FilesIn(dirs, study);
    var outputs := if p.afterPrm == Success then c.reconOutputs else {};
    var own := (if p.afterDose == Success && c.prmTemplate.Some? then {prm} else {})
             + (if p.afterPrm == Success then {prm + ".stdout", prm + ".stderr"} else {});
    assert FilesIn(StagedRunDirs(dirs, reconDir, j, c), study) == before + outputs + own;
    forall f | f in own ensures !MatchesLog(f) {
      assert f[|f| - 1] != 'g';
    }
    DoublyMatchedIgnores(before + outputs, own);
    assert Reconstruct in Attempted(StageOutcomes(j.dose, c)) <==> p.afterPrm == Success;
  }

  // ---- the reconstruction's device ----

  /** The device a daemon hands out, `dev<N>`, gives the reconstruction the ordinal `N`. */
  lemma DeviceOrdinalOfName(n: nat)
    ensures DeviceOrdinal("dev" + Decimal(n)) == Decimal(n)
  {
    var digits := Decimal(n);
    DigitsUnstripped(digits);
    StripLeftPrefix("dev", digits);
  }

  lemma DigitsUnstripped(digits: string)
    requires |digits| >= 1 && forall k :: 0 <= k < |digits| ==> IsDigit(digits[k])
    ensures StripLeft(digits, {'d', 'e', 'v'}) == digits && StripRight(digits, {'d', 'e', 'v'}) == digits
  {
    var first, last := digits[0], digits[|digits| - 1];
    assert IsDigit(first) && IsDigit(last);
    StripLeftStops(digits, {'d', 'e', 'v'});
    StripRightStops(digits, {'d', 'e', 'v'});
  }

  lemma StripLeftStops(s: string, chars: set<char>)
    requires |s| > 0 && s[0] !in chars
    ensures StripLeft(s, chars) == s
  {
  }

  lemma StripRightStops(s: string, chars: set<char>)
    requires |s| > 0 && s[|s| - 1] !in chars
    ensures StripRight(s, chars) == s
  {
  }

  lemma {:induction false} StripLeftPrefix(p: string, s: string)
    requires forall k :: 0 <= k < |p| ==> p[k] in {'d', 'e', 'v'}
    ensures StripLeft(p + s, {'d', 'e', 'v'}) == StripLeft(s, {'d', 'e', 'v'})
  {
    if |p| > 0 {
      assert (p + s)[1..] == p[1..] + s;
      StripLeftPrefix(p[1..], s);
    } else {
      assert p + s == s;
    }
  }

  // ---- the queue item ----

  /** The names of a directory in the order `os.listdir` gives them, which `glob` keeps:
      each name once, in an order the model leaves open. */
  method Listing(files: set<string>) returns (listing: seq<string>)
    ensures Lists(listing, files)
  {
    listing := [];
    var rest := files;
    while rest != {}
      invariant Distinct(listing)
      invariant Elems(listing) * rest == {} && Elems(listing) + rest == files
      decreases |rest|
    {
      var f :| f in rest;
      assert f !in Elems(listing);
      listing := listing + [f];
      rest := rest - {f};
    }
  }

  lemma RewriteSame(d: map<string, set<string>>, a: string, b: string)
    requires a in d && b in d
    ensures d[a := d[a]][b := d[b]] == d
  {
  }

  lemma RewriteTwice(d: map<string, set<string>>, a: string, b: string,
                     x: set<string>, y: set<string>, x2: set<string>, y2: set<string>)
    requires a != b
    ensures d[a := x][b := y][a := x2][b := y2] == d[a := x2][b := y2]
  {
  }

  /** `for f in moves: shutil.move(f, ...)` from directory `src` to directory `dst`: the
      files are moved one at a time, until one is no longer in `src` and the move raises
      (false), with the moves before it done. */
  method MoveFiles(lib: Library, src: string, dst: string, moves: seq<string>) returns (ok: bool)
    requires src != dst && src in lib.dirs && dst in lib.dirs
    modifies lib`dirs
    ensures var n := MovedCount(FilesIn(old(lib.dirs), src), moves);
      && ok == (n == |moves|)
      && lib.dirs == old(lib.dirs)[src := FilesIn(old(lib.dirs), src) - Elems(moves[..n])]
                                  [dst := FilesIn(old(lib.dirs), dst) + Elems(moves[..n])]
  {
    ghost var d0, p0 := lib.dirs, FilesIn(lib.dirs, src);
    ghost var n := MovedCount(p0, moves);
    var i := 0;
    assert moves[i..] == moves && Elems(moves[..i]) == {} && p0 - {} == p0;
    assert FilesIn(d0, dst) + {} == d0[dst];
    RewriteSame(d0, src, dst);
    while i < |moves|
      invariant i <= n
      invariant MovedCount(p0 - Elems(moves[..i]), moves[i..]) == n - i
      invariant lib.dirs == d0[src := p0 - Elems(moves[..i])][dst := FilesIn(d0, dst) + Elems(moves[..i])]
    {
      var f := moves[i];
      ghost var moved := Elems(moves[..i]);
      assert FilesIn(lib.dirs, src) == p0 - moved && FilesIn(lib.dirs, dst) == FilesIn(d0, dst) + moved;
      if f !in FilesIn(lib.dirs, src) {
        return false;
      }
      lib.dirs := lib.dirs[src := FilesIn(lib.dirs, src) - {f}][dst := FilesIn(lib.dirs, dst) + {f}];
      assert moves[..i + 1] == moves[..i] + [f];
      assert Elems(moves[..i + 1]) == moved + {f};
      assert moves[i..][0] == f && moves[i..][1..] == moves[i + 1..];
      ghost var left, gone := p0 - (moved + {f}), FilesIn(d0, dst) + (moved + {f});
      assert p0 - moved - {f} == left && FilesIn(d0, dst) + moved + {f} == gone;
      RewriteTwice(d0, src, dst, p0 - moved, FilesIn(d0, dst) + moved, left, gone);
      assert lib.dirs == d0[src := left][dst := gone];
      i := i + 1;
    }
    return true;
  }

  /** `printout(f, a, b)`: one `a<TAB>b` line appended to the file at `path`. */
  method Printout(lib: Library, path: string, key: string, value: string)
    modifies lib`texts
    ensures lib.texts == old(lib.texts)[path := (if path in old(lib.texts) then old(lib.texts)[path] else "") + EntryLine(key, value) + "\n"]
  {
    ghost var before := if path in lib.texts then lib.texts[path] else "";
    lib.AppendText(path, EntryLine(key, value) + "\n");
    assert before + (EntryLine(key, value) + "\n") == before + EntryLine(key, value) + "\n";
  }

  /** The `printout` of entry `k`, after those before it. */
  method PrintEntry(lib: Library, path: string, entries: seq<(string, string)>, k: nat,
                    ghost before: map<string, string>, ghost template: string)
    requires k < |entries|
    requires lib.texts == before[path := template + Serialize(EntryLines(entries)[..k])]
    modifies lib`texts
    ensures lib.texts == before[path := template + Serialize(EntryLines(entries)[..k + 1])]
  {
    ghost var lines := EntryLines(entries);
    ghost var x := template + Serialize(lines[..k]);
    Printout(lib, path, entries[k].0, entries[k].1);
    SerializeSnoc(lines, k);
    assert template + Serialize(lines[..k + 1]) == x + lines[k] + "\n";
    assert lib.texts == before[path := x][path := x + lines[k] + "\n"];
  }

  /** The final PRM file: the template copied, then one `printout` per entry, in order. */
  method WritePrmFile(lib: Library, path: string, template: string, entries: seq<(string, string)>)
    requires |entries| == 7
    modifies lib`texts
    ensures lib.texts == old(lib.texts)[path := PrmText(template, entries)]
  {
    ghost var before := lib.texts;
    lib.WriteText(path, template);
    assert EntryLines(entries)[..0] == [] && template + "" == template;
    PrintEntry(lib, path, entries, 0, before, template);
    PrintEntry(lib, path, entries, 1, before, template);
    PrintEntry(lib, path, entries, 2, before, template);
    PrintEntry(lib, path, entries, 3, before, template);
    PrintEntry(lib, path, entries, 4, before, template);
    PrintEntry(lib, path, entries, 5, before, template);
    PrintEntry(lib, path, entries, 6, before, template);
    assert EntryLines(entries)[..7] == EntryLines(entries);
  }

  class QueueItem {
    const qiRaw: string
    const filepath: string
    const dose: string
    const kernel: string
    const sliceThickness: string
    /** Name of the device lock (`dev<N>`). */
    const device: string
    const lib: Library
    var caseId: CaseId
    var studyDir: Option<string>
    var prmFilepath: Option<string>

    function Fields(): Job
    {
      Job(filepath, dose, kernel, sliceThickness)
    }

    /** `__init__`: keeps the line verbatim and its first four fields. */
    constructor (qi: string, device: string, lib: Library)
      requires Parse(qi).Some?
      ensures qiRaw == qi && Fields() == Parse(qi).value
      ensures this.device == device && this.lib == lib
      ensures caseId == NotFound && studyDir == None && prmFilepath == None
    {
      qiRaw := qi;
      var j := Parse(qi).value;
      filepath, dose, kernel, sliceThickness := j.path, j.dose, j.kernel, j.sliceThickness;
      this.device := device;
      this.lib := lib;
      caseId := NotFound;
      studyDir := None;
      prmFilepath := None;
    }

    /** `__enter__`. */
    method Enter()
      modifies lib`locks, lib`events
      ensures lib.locks == old(lib.locks)[device := true]
      ensures lib.events == old(lib.events) + [Acquire(device)]
    {
      lib.Lock(device);
    }

    /** `__exit__`. */
    method Exit()
      modifies lib`locks, lib`events
      ensures lib.locks == old(lib.locks)[device := false]
      ensures lib.events == old(lib.events) + [Release(device)]
    {
      lib.Unlock(device);
    }

    method GetRawData(located: CaseId) returns (s: Status)
      modifies this`caseId, lib`events
      ensures caseId == located && s == RawStatus(located)
      ensures lib.events == old(lib.events) + [Event.Enter(Stage.FetchRaw)]
    {
      lib.Record(Event.Enter(Stage.FetchRaw));
      caseId := located;
      s := Success;
      if !caseId.Truthy() {
        s := NoRaw;
      }
    }

    method InitializeStudy()
      modifies this`studyDir, lib`dirs, lib`events
      ensures studyDir == Some(StudyPath(lib.reconDir, caseId.Text(), Fields()))
      ensures lib.dirs == InitDirs(old(lib.dirs), studyDir.value)
      ensures lib.events == old(lib.events) + [Event.Enter(Stage.InitializeStudy)]
    {
      lib.Record(Event.Enter(Stage.InitializeStudy));
      var p := StudyPath(lib.reconDir, caseId.Text(), Fields());
      lib.MakeDirs(p);
      lib.MakeDirs(LogDir(p));
      lib.MakeDirs(ImgDir(p));
      studyDir := Some(p);
    }

    method SimulateReducedDose(exitCode: int) returns (s: Status)
      modifies lib`events
      ensures s == DoseStatus(exitCode)
      ensures lib.events == old(lib.events) + [Event.Enter(Stage.SimulateDose)]
    {
      lib.Record(Event.Enter(Stage.SimulateDose));
      s := Success;
      if exitCode != 0 {
        s := DoseReductionError;
      }
    }

    /** The copy of the template fails exactly when `template` is None; then no PRM file is
        written and `prm_filepath` keeps its value. */
    method MakeFinalPrm(template: Option<string>) returns (s: Status)
      requires studyDir.Some?
      modifies this`prmFilepath, lib`dirs, lib`texts, lib`events
      ensures s == PrmStatus(template)
      ensures template.Some? ==>
        var study := StudyPath(lib.reconDir, caseId.Text(), Fields());
        && prmFilepath == Some(PrmPath(lib.reconDir, caseId.Text(), Fields()))
        && lib.texts == old(lib.texts)[prmFilepath.value :=
             PrmText(template.value, PrmEntries(lib.rawDir, caseId.Text(), study, Fields()))]
        && lib.dirs == AddTo(WithDir(old(lib.dirs), study), study, {PrmName(caseId.Text(), Fields())})
      ensures template.None? ==>
        && prmFilepath == old(prmFilepath) && lib.texts == old(lib.texts)
        && lib.dirs == WithDir(old(lib.dirs), StudyPath(lib.reconDir, caseId.Text(), Fields()))
      ensures lib.events == old(lib.events) + [Event.Enter(Stage.AssemblePrm)]
    {
      lib.Record(Event.Enter(Stage.AssemblePrm));
      var prmDir := StudyPath(lib.reconDir, caseId.Text(), Fields());
      lib.MakeDirs(prmDir);
      var name := PrmName(caseId.Text(), Fields());
      var path := Join(prmDir, name);
      if template.None? {
        s := PrmCreationError;
      } else {
        WritePrmFile(lib, path, template.value, PrmEntries(lib.rawDir, caseId.Text(), prmDir, Fields()));
        lib.AddFiles(prmDir, {name});
        prmFilepath := Some(path);
        s := Success;
      }
    }

    /** Runs the reconstruction on this item's device; its captured output goes next to
        the PRM file, in the study directory. */
    method DispatchRecon(exitCode: int, outputs: set<string>) returns (s: Status, command: string)
      requires studyDir == Some(StudyPath(lib.reconDir, caseId.Text(), Fields()))
      requires prmFilepath == Some(PrmPath(lib.reconDir, caseId.Text(), Fields()))
      modifies lib`dirs, lib`events
      ensures s == ReconStatus(exitCode)
      ensures command == ReconCommand(device, prmFilepath.value)
      ensures lib.dirs == AddTo(old(lib.dirs), studyDir.value, ReconFiles(caseId.Text(), Fields(), outputs))
      ensures lib.events == old(lib.events) + [Event.Enter(Stage.Reconstruct), Call(command)]
    {
      lib.Record(Event.Enter(Stage.Reconstruct));
      command := "ctbb_recon -v --timing --device=" + Strip(device, {'d', 'e', 'v'}) + " " + prmFilepath.value;
      var name := PrmName(caseId.Text(), Fields());
      lib.AddFiles(studyDir.value, {name + ".stdout", name + ".stderr"} + outputs);
      lib.Record(Call(command));
      s := Success;
      if exitCode != 0 {
        s := ReconstructionError;
      }
    }

    /** `if exit_status == SUCCESS and dose != 100: simulate_reduced_dose()`. */
    method DoseStage(c: Collaborators, s0: Status) returns (s: Status)
      modifies lib`events
      ensures s == (if s0 == Success && dose != "100" then DoseStatus(c.doseExit) else s0)
      ensures lib.events == old(lib.events) + (if s0 == Success && dose != "100" then StageEvent(SimulateDose, "") else [])
    {
      s := s0;
      if s == Success && dose != "100" {
        s := SimulateReducedDose(c.doseExit);
      } else {
        assert lib.events == old(lib.events) + [];
      }
    }

    /** `if exit_status == SUCCESS: make_final_prm()`. */
    method PrmStage(c: Collaborators, s0: Status) returns (s: Status)
      requires studyDir == Some(StudyPath(lib.reconDir, caseId.Text(), Fields()))
      requires studyDir.value in lib.dirs
      modifies this`prmFilepath, lib`dirs, lib`texts, lib`events
      ensures s == (if s0 == Success then PrmStatus(c.prmTemplate) else s0)
      ensures lib.events == old(lib.events) + (if s0 == Success then StageEvent(AssemblePrm, "") else [])
      ensures lib.dirs == if s0 == Success && c.prmTemplate.Some? then
        AddTo(old(lib.dirs), studyDir.value, {PrmName(caseId.Text(), Fields())}) else old(lib.dirs)
      ensures lib.texts == if s0 == Success && c.prmTemplate.Some? then
        old(lib.texts)[PrmPath(lib.reconDir, caseId.Text(), Fields()) :=
          PrmText(c.prmTemplate.value, PrmEntries(lib.rawDir, caseId.Text(), studyDir.value, Fields()))]
        else old(lib.texts)
      ensures s == Success ==> prmFilepath == Some(PrmPath(lib.reconDir, caseId.Text(), Fields()))
    {
      s := s0;
      if s == Success {
        assert WithDir(lib.dirs, studyDir.value) == lib.dirs;
        s := MakeFinalPrm(c.prmTemplate);
      } else {
        assert lib.events == old(lib.events) + [];
      }
    }

    /** `if exit_status == SUCCESS: dispatch_recon()`. */
    method ReconStage(c: Collaborators, s0: Status) returns (s: Status)
      requires studyDir == Some(StudyPath(lib.reconDir, caseId.Text(), Fields()))
      requires s0 == Success ==> prmFilepath == Some(PrmPath(lib.reconDir, caseId.Text(), Fields()))
      modifies lib`dirs, lib`events
      ensures s == (if s0 == Success then ReconStatus(c.reconExit) else s0)
      ensures lib.events == old(lib.events) + (if s0 == Success then StageEvent(Reconstruct, ReconCommand(device, prmFilepath.value)) else [])
      ensures lib.dirs == if s0 == Success then
        AddTo(old(lib.dirs), studyDir.value, ReconFiles(caseId.Text(), Fields(), c.reconOutputs)) else old(lib.dirs)
    {
      s := s0;
      if s == Success {
        var command;
        s, command := DispatchRecon(c.reconExit, c.reconOutputs);
      } else {
        assert lib.events == old(lib.events) + [];
      }
    }

    /** The guarded middle of `__main__`: dose reduction (only below full dose), PRM
        assembly and reconstruction, each run only while the status is still SUCCESS. */
    method RunGatedStages(c: Collaborators, s0: Status) returns (s: Status)
      requires caseId == c.located && s0 == RawStatus(c.located)
      requires studyDir == Some(StudyPath(lib.reconDir, caseId.Text(), Fields()))
      requires studyDir.value in lib.dirs
      modifies this`prmFilepath, lib`dirs, lib`texts, lib`events
      ensures s == Thread(dose, c).final
      ensures lib.events == old(lib.events)
        + StageEvents(GatedStages(Thread(dose, c), dose), ReconCommand(device, PrmPath(lib.reconDir, caseId.Text(), Fields())))
      ensures lib.dirs == StagedDirs(old(lib.dirs), studyDir.value, caseId.Text(), Fields(), c)
      ensures lib.texts == RunTexts(old(lib.texts), lib.rawDir, lib.reconDir, Fields(), c)
    {
      ghost var p, ct, j := Thread(dose, c), caseId.Text(), Fields();
      ghost var cmd := ReconCommand(device, PrmPath(lib.reconDir, ct, j));
      ghost var e0, t1, d1, study := lib.events, lib.texts, lib.dirs, studyDir.value;
      assert j.dose == dose && c.located.Text() == ct;
      var s1 := DoseStage(c, s0);
      assert s1 == p.afterDose;
      ghost var a := if s0 == Success && dose != "100" then StageEvent(SimulateDose, cmd) else [];
      ghost var e1 := lib.events;
      assert e1 == e0 + a;
      var s2 := PrmStage(c, s1);
      ghost var b := if s1 == Success then StageEvent(AssemblePrm, cmd) else [];
      ghost var e2 := lib.events;
      assert e2 == e1 + b;
      assert s2 == Success ==> prmFilepath == Some(PrmPath(lib.reconDir, ct, j));
      assert lib.texts == RunTexts(t1, lib.rawDir, lib.reconDir, j, c);
      ghost var d2 := if p.afterDose == Success && c.prmTemplate.Some? then AddTo(d1, study, {PrmName(ct, j)}) else d1;
      assert lib.dirs == d2;
      s := ReconStage(c, s2);
      ghost var r := if s2 == Success then StageEvent(Reconstruct, cmd) else [];
      assert lib.events == e2 + r;
      assert lib.dirs == StagedDirs(d1, study, ct, j, c);
      GatedStageEvents(p, dose, cmd);
      AppendAssoc(e0, a, b);
      AppendAssoc(e0, a + b, r);
    }

    /** The stages of `__main__` before the clean-up: the raw data lookup, the study
        directories, then the gated stages. */
    method RunStages(c: Collaborators) returns (s: Status)
      modifies this`caseId, this`studyDir, this`prmFilepath, lib`dirs, lib`texts, lib`events
      ensures s == Thread(dose, c).final
      ensures studyDir == Some(StudyPath(lib.reconDir, c.located.Text(), Fields()))
      ensures lib.events == old(lib.events) + [Event.Enter(Stage.FetchRaw)] + [Event.Enter(Stage.InitializeStudy)]
        + StageEvents(GatedStages(Thread(dose, c), dose), ReconCommand(device, PrmPath(lib.reconDir, c.located.Text(), Fields())))
      ensures lib.dirs == StagedDirs(InitDirs(old(lib.dirs), studyDir.value), studyDir.value, c.located.Text(), Fields(), c)
      ensures lib.texts == RunTexts(old(lib.texts), lib.rawDir, lib.reconDir, Fields(), c)
    {
      s := GetRawData(c.located);
      InitializeStudy();
      s := RunGatedStages(c, s);
    }

    /** The body of the `with` block of `__main__`: the stages in order, each guarded by the
        status so far, then the clean-up with the final status. `ok` is false where the
        clean-up raises; the exception then leaves the block with no ledger line written. */
    method Process(c: Collaborators) returns (s: Status, ok: bool)
      modifies this`caseId, this`studyDir, this`prmFilepath
      modifies lib`dirs, lib`texts, lib`events, lib`locks, lib`doneLedger, lib`errorLedger
      ensures s == Thread(dose, c).final
      ensures ok == !CleanUpRaises(old(lib.dirs), lib.reconDir, Fields(), c)
      ensures lib.events == old(lib.events) + [Event.Enter(Stage.FetchRaw)] + [Event.Enter(Stage.InitializeStudy)]
        + StageEvents(GatedStages(Thread(dose, c), dose), ReconCommand(device, PrmPath(lib.reconDir, c.located.Text(), Fields())))
        + [Event.Enter(Stage.CleanUp)] + (if ok then LedgerEvents(qiRaw, s) else [])
      ensures lib.locks == if ok then old(lib.locks)[LedgerOf(s) := true][LedgerOf(s) := false] else old(lib.locks)
      ensures lib.doneLedger == old(lib.doneLedger) + (if ok && s == Success then LedgerLine(qiRaw, s) else "")
      ensures lib.errorLedger == old(lib.errorLedger) + (if ok && s != Success then LedgerLine(qiRaw, s) else "")
      ensures ok ==> lib.dirs == RunDirs(old(lib.dirs), lib.reconDir, Fields(), c)
      ensures !ok ==> PartlyCleaned(StagedRunDirs(old(lib.dirs), lib.reconDir, Fields(), c), lib.dirs,
                                    StudyPath(lib.reconDir, c.located.Text(), Fields()))
      ensures lib.texts == RunTexts(old(lib.texts), lib.rawDir, lib.reconDir, Fields(), c)
    {
      s := RunStages(c);
      StudyDirsExist(old(lib.dirs), lib.reconDir, Fields(), c);
      ok := CleanUp(s);
    }

    /** The `with` block of `__main__`: the device lock is taken on entry and released on
        exit, around the stages and the clean-up, also when the clean-up raises. */
    method Run(c: Collaborators) returns (s: Status, ok: bool)
      modifies this`caseId, this`studyDir, this`prmFilepath
      modifies lib`dirs, lib`texts, lib`events, lib`locks, lib`doneLedger, lib`errorLedger
      ensures s == Thread(dose, c).final
      ensures ok == !CleanUpRaises(old(lib.dirs), lib.reconDir, Fields(), c)
      ensures lib.events == old(lib.events) + [Acquire(device)] + [Event.Enter(Stage.FetchRaw)] + [Event.Enter(Stage.InitializeStudy)]
        + StageEvents(GatedStages(Thread(dose, c), dose), ReconCommand(device, PrmPath(lib.reconDir, c.located.Text(), Fields())))
        + [Event.Enter(Stage.CleanUp)] + (if ok then LedgerEvents(qiRaw, s) else []) + [Release(device)]
      ensures lib.locks == if ok then old(lib.locks)[device := true][LedgerOf(s) := true][LedgerOf(s) := false][device := false]
                           else old(lib.locks)[device := true][device := false]
      ensures lib.doneLedger == old(lib.doneLedger) + (if ok && s == Success then LedgerLine(qiRaw, s) else "")
      ensures lib.errorLedger == old(lib.errorLedger) + (if ok && s != Success then LedgerLine(qiRaw, s) else "")
      ensures ok ==> lib.dirs == RunDirs(old(lib.dirs), lib.reconDir, Fields(), c)
      ensures !ok ==> PartlyCleaned(StagedRunDirs(old(lib.dirs), lib.reconDir, Fields(), c), lib.dirs,
                                    StudyPath(lib.reconDir, c.located.Text(), Fields()))
      ensures lib.texts == RunTexts(old(lib.texts), lib.rawDir, lib.reconDir, Fields(), c)
    {
      Enter();
      s, ok := Process(c);
      Exit();
    }

    /** `clean_up`: sorts the artifacts into `log/` and `img/`, then appends the item's line
        to the ledger its status selects, under that ledger's lock. False where a log move
        raises: nothing after it runs. */
    method CleanUp(s: Status) returns (ok: bool)
      requires studyDir.Some?
      requires studyDir.value in lib.dirs && LogDir(studyDir.value) in lib.dirs && ImgDir(studyDir.value) in lib.dirs
      modifies lib`dirs, lib`locks, lib`events, lib`doneLedger, lib`errorLedger
      ensures ok == !DoublyMatched(FilesIn(old(lib.dirs), studyDir.value))
      ensures ok ==> lib.dirs == CleanedDirs(old(lib.dirs), studyDir.value)
      ensures !ok ==> PartlyCleaned(old(lib.dirs), lib.dirs, studyDir.value)
      ensures lib.doneLedger == old(lib.doneLedger) + (if ok && s == Success then LedgerLine(qiRaw, s) else "")
      ensures lib.errorLedger == old(lib.errorLedger) + (if ok && s != Success then LedgerLine(qiRaw, s) else "")
      ensures lib.locks == if ok then old(lib.locks)[LedgerOf(s) := true][LedgerOf(s) := false] else old(lib.locks)
      ensures lib.events == old(lib.events) + [Event.Enter(Stage.CleanUp)] + (if ok then LedgerEvents(qiRaw, s) else [])
    {
      lib.Record(Event.Enter(Stage.CleanUp));
      ok := MoveArtifacts();
      if ok {
        RecordStatus(s);
      } else {
        assert lib.events == old(lib.events) + [Event.Enter(Stage.CleanUp)] + [];
      }
    }

    /** The moves of `clean_up`: the `*.std*` and then the `*.log` files into `log/`, then
        the `*.img` and then the `*.prm` files into `img/`, each pair of globs taken just
        before its moves. False where a log move raises; the image moves then never run. */
    method MoveArtifacts() returns (ok: bool)
      requires studyDir.Some?
      requires studyDir.value in lib.dirs && LogDir(studyDir.value) in lib.dirs && ImgDir(studyDir.value) in lib.dirs
      modifies lib`dirs
      ensures ok == !DoublyMatched(FilesIn(old(lib.dirs), studyDir.value))
      ensures ok ==> lib.dirs == CleanedDirs(old(lib.dirs), studyDir.value)
      ensures !ok ==> PartlyCleaned(old(lib.dirs), lib.dirs, studyDir.value)
    {
      var p := studyDir.value;
      SubdirsDistinct(p);
      ghost var d0, files := lib.dirs, FilesIn(lib.dirs, p);
      ghost var logs := SortArtifacts(files).0;
      var listing := Listing(FilesIn(lib.dirs, p));
      var logMoves := LogMovesAsWritten(listing);
      ok := MoveFiles(lib, p, LogDir(p), logMoves);
      LogMovesRaiseOnDoubleMatch(files, listing);
      ghost var moved := Elems(logMoves[..MovedCount(files, logMoves)]);
      assert lib.dirs == d0[p := files - moved][LogDir(p) := FilesIn(d0, LogDir(p)) + moved];
      if !ok {
        assert files - (files - moved) == moved;
        return;
      }
      assert logMoves[..|logMoves|] == logMoves && moved == logs;
      var rest := Listing(FilesIn(lib.dirs, p));
      var imageMoves := ImageMovesAsWritten(rest);
      ImageMovesGoThrough(FilesIn(lib.dirs, p), rest);
      // the image moves cannot raise
      var imagesMoved := MoveFiles(lib, p, ImgDir(p), imageMoves);
      assert imageMoves[..|imageMoves|] == imageMoves;
      CleanedByMoves(d0, p, logs, Matching(files - logs, IsImageArtifact));
    }

    /** The end of `clean_up`: the item's line, alone or with its status, appended to the
        `done` or the `error` ledger under that ledger's lock. */
    method RecordStatus(s: Status)
      modifies lib`locks, lib`events, lib`doneLedger, lib`errorLedger
      ensures lib.doneLedger == old(lib.doneLedger) + (if s == Success then LedgerLine(qiRaw, s) else "")
      ensures lib.errorLedger == old(lib.errorLedger) + (if s == Success then "" else LedgerLine(qiRaw, s))
      ensures lib.locks == old(lib.locks)[LedgerOf(s) := true][LedgerOf(s) := false]
      ensures lib.events == old(lib.events) + LedgerEvents(qiRaw, s)
    {
      if s == Success {
        lib.Lock(DoneLedger);
        lib.AppendLedgerFile(DoneLedger, qiRaw + "\n");
        lib.Unlock(DoneLedger);
      } else {
        lib.Lock(ErrorLedger);
        lib.AppendLedgerFile(ErrorLedger, qiRaw + ":" + StatusText(s) + "\n");
        lib.Unlock(ErrorLedger);
      }
    }
  }

  /** The worker's `__main__`: one queue item run on `device` against the library. A line
      with fewer than four fields fails in `__init__`, before the device lock is taken, and
      changes nothing. A clean-up that raises ends the worker with the device lock released
      and no ledger line written. */
  method RunQueueItem(lib: Library, qi: string, device: string, c: Collaborators) returns (outcome: Outcome)
    modifies lib`dirs, lib`texts, lib`events, lib`locks, lib`doneLedger, lib`errorLedger
    ensures Parse(qi).None? ==> outcome == Malformed && unchanged(lib)
    ensures Parse(qi).Some? ==>
      var j := Parse(qi).value;
      var s := FirstFailure(StageOutcomes(j.dose, c));
      var recorded := !CleanUpRaises(old(lib.dirs), lib.reconDir, j, c);
      && outcome == (if recorded then Recorded(s) else Raised(s))
      && lib.events == old(lib.events) + WorkerEvents(device, qi, j.dose, c, ReconCommand(device, PrmPath(lib.reconDir, c.located.Text(), j)), recorded)
      && lib.locks == (if recorded then old(lib.locks)[device := true][LedgerOf(s) := true][LedgerOf(s) := false][device := false]
                       else old(lib.locks)[device := true][device := false])
      && lib.doneLedger == old(lib.doneLedger) + (if recorded && s == Success then LedgerLine(qi, s) else "")
      && lib.errorLedger == old(lib.errorLedger) + (if recorded && s != Success then LedgerLine(qi, s) else "")
      && (recorded ==> lib.dirs == RunDirs(old(lib.dirs), lib.reconDir, j, c))
      && (!recorded ==> PartlyCleaned(StagedRunDirs(old(lib.dirs), lib.reconDir, j, c), lib.dirs, StudyPath(lib.reconDir, c.located.Text(), j)))
      && lib.texts == RunTexts(old(lib.texts), lib.rawDir, lib.reconDir, j, c)
  {
    var parsed := Parse(qi);
    if parsed.None? {
      return Malformed;
    }
    var j := parsed.value;
    var item := new QueueItem(qi, device, lib);
    var s, ok := item.Run(c);
    outcome := if ok then Recorded(s) else Raised(s);
    WorkerEventsThreaded(old(lib.events), device, qi, j.dose, c, ReconCommand(device, PrmPath(lib.reconDir, c.located.Text(), j)), ok);
    ThreadMatchesStages(j.dose, c);
  }
}
