/** The library diff (`ctbb_pipeline_diff.py`): it lists the reconstructions a
    configuration asks for, looks for each one's image where the worker puts it, and
    queues again the jobs whose image is missing. When the library has been moved since
    the jobs ran, it first points the case list and the raw data paths at the library's
    new root. */
module Diff {
  import opened Text
  import opened Paths
  import opened Jobs
  import opened PipelineLibrary
  import opened Wrappers
  import Worker
  import Launch

  // ---- relocation ----

  /** `dirname(dirname(library_path))`: the directory above the library's parent. */
  function LibraryRoot(libraryPath: string): string
  {
    Dirname(Dirname(libraryPath))
  }

  /** The library and the case list no longer share a root directory. */
  predicate Relocated(libraryPath: string, caseList: string)
  {
    LibraryRoot(libraryPath) != Dirname(caseList)
  }

  /** The case list actually read: on relocation, the file of the same name in the
      library's root. */
  function CaseListPath(libraryPath: string, caseList: string): string
  {
    if Relocated(libraryPath, caseList) then Join(LibraryRoot(libraryPath), Basename(caseList)) else caseList
  }

  /** Once the case list has been moved into the library's root, the next diff of the same
      library no longer sees a relocation. */
  lemma RelocationSettles(libraryPath: string, caseList: string)
    requires Basename(caseList) != ""
    ensures !Relocated(libraryPath, CaseListPath(libraryPath, caseList))
  {
    if Relocated(libraryPath, caseList) {
      DirnameOfJoinedName(Dirname(libraryPath), Basename(caseList));
    }
  }

  // ---- the raw path rewrite ----

  /** `t` occurs in `s` starting at index `k`. */
  predicate OccursAt(s: string, t: string, k: nat)
  {
    k + |t| <= |s| && s[k..k + |t|] == t
  }

  /** Index of the first occurrence of `t` in `s` at or after `i`. */
  function FindFrom(s: string, t: string, i: nat): (r: Option<nat>)
    requires |t| > 0 && i <= |s|
    ensures r.Some? ==> i <= r.value && OccursAt(s, t, r.value)
    ensures r.Some? ==> forall k :: i <= k < r.value ==> !OccursAt(s, t, k)
    ensures r.None? ==> forall k :: i <= k ==> !OccursAt(s, t, k)
    decreases |s| - i
  {
    if i + |t| > |s| then None
    else if OccursAt(s, t, i) then Some(i)
    else FindFrom(s, t, i + 1)
  }

  /** `s.split(sep)[1]` as written: the text between the first and the second occurrence
      of `sep` (or the end); None where Python raises IndexError. */
  function SecondField(s: string, sep: string): Option<string>
    requires |sep| > 0
  {
    match FindFrom(s, sep, 0)
    case None => None
    case Some(i) =>
      match FindFrom(s, sep, i + |sep|)
      case None => Some(s[i + |sep|..])
      case Some(j) => Some(s[i + |sep|..j])
  }

  /** The path holds a "raw/" for `split("raw/")[1]` to cut at. */
  predicate ContainsRaw(path: string)
  {
    FindFrom(path, "raw/", 0).Some?
  }

  /** `s.split(sep, 1)[1]`: everything after the first occurrence of `sep`. */
  function AfterFirst(s: string, sep: string): (r: Option<string>)
    requires |sep| > 0
    ensures r.Some? ==> HasSuffix(s, r.value)
  {
    match FindFrom(s, sep, 0)
    case None => None
    case Some(i) => Some(s[i + |sep|..])
  }

  /** The raw path rewrite of the source: `<root>/raw/` followed by `split("raw/")[1]`. */
  function RelocatedRawAsWritten(root: string, raw: string): Option<string>
  {
    match SecondField(raw, "raw/")
    case None => None
    case Some(base) => Some(Join(Join(root, "raw"), base))
  }

  /** The raw path rewrite evidently intended: the new root's `raw/` followed by everything
      after the first "raw/" of the old path. */
  function RelocatedRaw(root: string, raw: string): Option<string>
  {
    match AfterFirst(raw, "raw/")
    case None => None
    case Some(base) => Some(Join(Join(root, "raw"), base))
  }

  /** A raw path `<prefix>raw/<rest>`, where `<prefix>raw/` holds no earlier "raw/", is moved to
      `<root>/raw/<rest>` with all of `<rest>` kept. */
  lemma RelocatedRawKeepsTail(root: string, prefix: string, rest: string)
    requires !HasInfix(prefix + "raw", "raw/")
    ensures RelocatedRaw(root, prefix + "raw/" + rest) == Some(Join(Join(root, "raw"), rest))
  {
    var s := prefix + "raw/" + rest;
    var t := prefix + "raw";
    forall k | 0 <= k < |prefix| ensures !OccursAt(s, "raw/", k) {
      assert s[k..k + 4] == t[k..k + 4];
      if OccursAt(s, "raw/", k) {
        HasInfixAt(t, "raw/", k);
      }
    }
    assert OccursAt(s, "raw/", |prefix|);
    assert s[|prefix| + 4..] == rest;
  }

  /** Where the rest of the path holds no second "raw/", the rewrite as written keeps all
      of it too, and so agrees with the intended one. */
  lemma RawRewriteAsWrittenKeepsSingleTail(root: string, prefix: string, rest: string)
    requires !HasInfix(prefix + "raw", "raw/") && !HasInfix(rest, "raw/")
    ensures RelocatedRawAsWritten(root, prefix + "raw/" + rest) == Some(Join(Join(root, "raw"), rest))
    ensures RelocatedRawAsWritten(root, prefix + "raw/" + rest) == RelocatedRaw(root, prefix + "raw/" + rest)
  {
    var s := prefix + "raw/" + rest;
    var t := prefix + "raw";
    var n := |prefix| + 4;
    forall k | 0 <= k < |prefix| ensures !OccursAt(s, "raw/", k) {
      assert s[k..k + 4] == t[k..k + 4];
      if OccursAt(s, "raw/", k) {
        HasInfixAt(t, "raw/", k);
      }
    }
    assert OccursAt(s, "raw/", |prefix|);
    forall k | n <= k ensures !OccursAt(s, "raw/", k) {
      if OccursAt(s, "raw/", k) {
        assert s[k..k + 4] == rest[k - n..k - n + 4];
        HasInfixAt(rest, "raw/", k - n);
      }
    }
    assert s[n..] == rest;
    RelocatedRawKeepsTail(root, prefix, rest);
  }

  /** The rewrite as written drops whatever follows a second "raw/": the case file
      "/raw/a/raw/b" is sent to `<root>/raw/a/` instead of `<root>/raw/a/raw/b`. */
  lemma RawRewriteAsWrittenDropsTail(root: string)
    ensures SecondField("/raw/a/raw/b", "raw/") == Some("a/")
    ensures AfterFirst("/raw/a/raw/b", "raw/") == Some("a/raw/b")
    ensures RelocatedRawAsWritten(root, "/raw/a/raw/b") != RelocatedRaw(root, "/raw/a/raw/b") || Join(root, "raw") == ""
  {
    var s := "/raw/a/raw/b";
    assert !OccursAt(s, "raw/", 0) by { assert s[0] == '/'; }
    assert OccursAt(s, "raw/", 1);
    assert FindFrom(s, "raw/", 0) == Some(1);
    assert !OccursAt(s, "raw/", 5) by { assert s[5] == 'a'; }
    assert !OccursAt(s, "raw/", 6) by { assert s[6] == '/'; }
    assert OccursAt(s, "raw/", 7);
    assert FindFrom(s, "raw/", 5) == Some(7);
    assert s[5..7] == "a/" by { assert s[5] == 'a' && s[6] == '/'; }
    assert s[5..] == "a/raw/b";
    var dir := Join(root, "raw");
    if dir != "" {
      JoinKeepsTail(dir, "a/");
      JoinKeepsTail(dir, "a/raw/b");
    }
  }

  /** A relative component joined on shows at the end of the joined path. */
  lemma JoinKeepsTail(dir: string, name: string)
    requires |name| > 0 && name[0] != '/' && dir != ""
    ensures HasSuffix(Join(dir, name), name) && |Join(dir, name)| > |name|
  {
    var p := Join(dir, name);
    if dir[|dir| - 1] == '/' {
      assert p == dir + name;
      assert p[|p| - |name|..] == name;
    } else {
      assert p == (dir + "/") + name;
      assert p[|p| - |name|..] == name;
    }
  }

  // ---- the list of desired reconstructions ----

  /** One entry of `recon_list_desired`; its `img_series_filepath` is `ImageOf` below. */
  datatype Desired = Desired(raw: string, sliceThickness: string, pipelineId: string, dose: string, kernel: string)

  /** `img_series_filepath`: `<library>/recon/<dose>/<id>_k<kernel>_st<st>/img/<id>_d<dose>_k<kernel>_st<st>.img`. */
  function ImagePath(libPath: string, id: string, j: Job): string
  {
    Join(Join(Join(Join(Join(libPath, "recon"), j.dose), id + "_k" + j.kernel + "_st" + j.sliceThickness), "img"),
         id + "_d" + j.dose + "_k" + j.kernel + "_st" + j.sliceThickness + ".img")
  }

  /** The diff looks for the image exactly where the worker's clean-up files it. */
  lemma ImagePathIsWorkerImage(libPath: string, id: string, j: Job)
    ensures ImagePath(libPath, id, j)
         == Join(Worker.ImgDir(Worker.StudyPath(Join(libPath, "recon"), id, j)), Worker.ImageName(id, j))
  {
  }

  /** The entry of job `j` of a case with pipeline id `id`, with raw path `raw`. */
  function Entry(raw: string, j: Job, id: string): Desired
  {
    Desired(raw, j.sliceThickness, id, j.dose, j.kernel)
  }

  /** The image an entry stands for, named after its case's pipeline id, dose, kernel and
      slice thickness. */
  function ImageOf(libPath: string, d: Desired): string
  {
    ImagePath(libPath, d.pipelineId, Job(d.raw, d.dose, d.kernel, d.sliceThickness))
  }

  /** The entry of a job names the image of that job. */
  lemma EntryImage(libPath: string, raw: string, j: Job, id: string)
    ensures ImageOf(libPath, Entry(raw, j, id)) == ImagePath(libPath, id, j)
  {
  }

  /** The raw path an entry gets: the job's own, or on relocation the source's rewrite of
      it, which fails where the path holds no "raw/". */
  function RawFor(root: string, path: string, relocated: bool): Option<string>
  {
    if relocated then RelocatedRawAsWritten(root, path) else Some(path)
  }

  /** The rewrite fails exactly on a path with no "raw/" in it. */
  lemma RawForFails(root: string, path: string, relocated: bool)
    ensures RawFor(root, path, relocated).None? <==> relocated && !ContainsRaw(path)
  {
  }

  /** The entry for job `j` of a case with pipeline id `id`; None when the relocated raw
      path has no "raw/" to cut at. */
  function EntryOf(j: Job, id: string, root: string, relocated: bool): Option<Desired>
  {
    var raw := RawFor(root, j.path, relocated);
    if raw.None? then None else Some(Entry(raw.value, j, id))
  }

  /** The entries for a list of jobs of one case, in order; None as soon as one fails. */
  function EntriesOf(jobs: seq<Job>, id: string, root: string, relocated: bool): (r: Option<seq<Desired>>)
    ensures r.Some? ==> |r.value| == |jobs|
  {
    if |jobs| == 0 then Some([])
    else
      var n := |jobs| - 1;
      var prefix := EntriesOf(jobs[..n], id, root, relocated);
      var e := EntryOf(jobs[n], id, root, relocated);
      if prefix.None? || e.None? then None
      else Some(prefix.value + [e.value])
  }

  /** One pass of the case loop: the entries of case `c` appended to those of the cases
      before it. The pipeline id is looked up before the empty-entry test, so a case entry
      without an id, the empty one included, raises KeyError (None). */
  function CaseStep(prefix: Option<seq<Desired>>, c: string, ids: map<string, string>, doses: seq<string>,
                    sts: seq<string>, kernels: seq<string>, root: string, relocated: bool): Option<seq<Desired>>
  {
    if prefix.None? || c !in ids then None
    else if c == "" then prefix
    else
      var more := EntriesOf(DoseJobs(c, doses, sts, kernels), ids[c], root, relocated);
      if more.None? then None else Some(prefix.value + more.value)
  }

  /** `recon_list_desired`: case by case, the entries of every dose, slice thickness and
      kernel. */
  function DesiredList(cases: seq<string>, ids: map<string, string>, doses: seq<string>, sts: seq<string>,
                       kernels: seq<string>, root: string, relocated: bool): Option<seq<Desired>>
  {
    if |cases| == 0 then Some([])
    else
      var n := |cases| - 1;
      CaseStep(DesiredList(cases[..n], ids, doses, sts, kernels, root, relocated), cases[n],
               ids, doses, sts, kernels, root, relocated)
  }

  /** A case entry the library has no id for makes the whole diff fail. */
  lemma {:induction false} UnknownCaseFails(cases: seq<string>, ids: map<string, string>, doses: seq<string>, sts: seq<string>,
                                            kernels: seq<string>, root: string, relocated: bool, i: nat)
    requires i < |cases| && cases[i] !in ids
    ensures DesiredList(cases, ids, doses, sts, kernels, root, relocated).None?
  {
    var n := |cases| - 1;
    if i < n {
      UnknownCaseFails(cases[..n], ids, doses, sts, kernels, root, relocated, i);
    }
  }

  /** When every job has its entry, the entries are those of the jobs, in order. */
  lemma {:induction false} EntriesOfEach(jobs: seq<Job>, id: string, root: string, relocated: bool)
    requires forall k :: 0 <= k < |jobs| ==> EntryOf(jobs[k], id, root, relocated).Some?
    ensures var r := EntriesOf(jobs, id, root, relocated);
      r.Some? && forall k :: 0 <= k < |jobs| ==> EntryOf(jobs[k], id, root, relocated) == Some(r.value[k])
  {
    if |jobs| > 0 {
      var n := |jobs| - 1;
      assert forall k :: 0 <= k < n ==> jobs[..n][k] == jobs[k];
      EntriesOfEach(jobs[..n], id, root, relocated);
    }
  }

  /** Entry `d` is the one the diff builds for job `j`: the job's fields, its case's
      pipeline id, and its raw path as `RawFor` gives it. */
  predicate Describes(d: Desired, j: Job, ids: map<string, string>, root: string, relocated: bool)
  {
    && j.path in ids
    && RawFor(root, j.path, relocated).Some?
    && d == Entry(RawFor(root, j.path, relocated).value, j, ids[j.path])
  }

  /** Lists that describe their jobs entry by entry still do when concatenated. */
  lemma DescribesAppend(pj: seq<Job>, cj: seq<Job>, pr: seq<Desired>, more: seq<Desired>,
                        ids: map<string, string>, root: string, relocated: bool)
    requires |pr| == |pj| && |more| == |cj|
    requires forall k :: 0 <= k < |pj| ==> Describes(pr[k], pj[k], ids, root, relocated)
    requires forall k :: 0 <= k < |cj| ==> Describes(more[k], cj[k], ids, root, relocated)
    ensures forall k :: 0 <= k < |pj + cj| ==> Describes((pr + more)[k], (pj + cj)[k], ids, root, relocated)
  {
    forall k | 0 <= k < |pj + cj| ensures Describes((pr + more)[k], (pj + cj)[k], ids, root, relocated) {
      if k >= |pj| {
        assert (pj + cj)[k] == cj[k - |pj|] && (pr + more)[k] == more[k - |pj|];
      }
    }
  }

  /** The entries of one non-empty case with a pipeline id describe the case's jobs, one
      each, in order. */
  lemma CaseEntriesAre(c: string, ids: map<string, string>, doses: seq<string>, sts: seq<string>, kernels: seq<string>,
                       root: string, relocated: bool)
    requires c in ids && (!relocated || ContainsRaw(c))
    ensures var cj := DoseJobs(c, doses, sts, kernels);
      var more := EntriesOf(cj, ids[c], root, relocated);
      && more.Some? && |more.value| == |cj|
      && forall i :: 0 <= i < |cj| ==> Describes(more.value[i], cj[i], ids, root, relocated)
  {
    var cj := DoseJobs(c, doses, sts, kernels);
    RawForFails(root, c, relocated);
    forall i | 0 <= i < |cj| ensures cj[i].path == c {
      DoseJobsMembers(c, doses, sts, kernels, cj[i]);
    }
    EntriesOfEach(cj, ids[c], root, relocated);
  }

  /** `r` lists, entry by entry, what the diff builds for `jobs`. */
  predicate AllDescribe(r: seq<Desired>, jobs: seq<Job>, ids: map<string, string>, root: string, relocated: bool)
  {
    |r| == |jobs| && forall k :: 0 <= k < |jobs| ==> Describes(r[k], jobs[k], ids, root, relocated)
  }

  /** Every case entry has a pipeline id and, on relocation, every non-empty one holds a
      "raw/" to cut at. */
  predicate Resolvable(cases: seq<string>, ids: map<string, string>, relocated: bool)
  {
    forall i :: 0 <= i < |cases| ==> cases[i] in ids && (relocated && cases[i] != "" ==> ContainsRaw(cases[i]))
  }

  /** The desired list is the cross product of the configuration, in its nesting order:
      the k-th entry describes the k-th job, with its raw path as is or, on relocation,
      moved by the source's rewrite, and so names the image of that job. */
  lemma {:induction false} DesiredIsCrossProduct(cases: seq<string>, ids: map<string, string>, doses: seq<string>,
                                                 sts: seq<string>, kernels: seq<string>, root: string, relocated: bool)
    requires Resolvable(cases, ids, relocated)
    ensures var r := DesiredList(cases, ids, doses, sts, kernels, root, relocated);
      r.Some? && AllDescribe(r.value, CrossProduct(cases, doses, sts, kernels), ids, root, relocated)
  {
    if |cases| > 0 {
      var n := |cases| - 1;
      assert forall i :: 0 <= i < n ==> cases[..n][i] == cases[i];
      DesiredIsCrossProduct(cases[..n], ids, doses, sts, kernels, root, relocated);
      DesiredStep(cases, ids, doses, sts, kernels, root, relocated);
    }
  }

  /** The case loop's step keeps the desired list describing the cross product. */
  lemma DesiredStep(cases: seq<string>, ids: map<string, string>, doses: seq<string>,
                    sts: seq<string>, kernels: seq<string>, root: string, relocated: bool)
    requires |cases| > 0
    requires var c := cases[|cases| - 1]; c in ids && (relocated && c != "" ==> ContainsRaw(c))
    requires var r := DesiredList(cases[..|cases| - 1], ids, doses, sts, kernels, root, relocated);
      r.Some? && AllDescribe(r.value, CrossProduct(cases[..|cases| - 1], doses, sts, kernels), ids, root, relocated)
    ensures var r := DesiredList(cases, ids, doses, sts, kernels, root, relocated);
      r.Some? && AllDescribe(r.value, CrossProduct(cases, doses, sts, kernels), ids, root, relocated)
  {
    var n := |cases| - 1;
    var c := cases[n];
    if c != "" {
      var pr := DesiredList(cases[..n], ids, doses, sts, kernels, root, relocated).value;
      var pj := CrossProduct(cases[..n], doses, sts, kernels);
      var cj := DoseJobs(c, doses, sts, kernels);
      CaseEntriesAre(c, ids, doses, sts, kernels, root, relocated);
      var more := EntriesOf(cj, ids[c], root, relocated).value;
      assert DesiredList(cases, ids, doses, sts, kernels, root, relocated) == Some(pr + more);
      assert CrossProduct(cases, doses, sts, kernels) == pj + cj;
      DescribesAppend(pj, cj, pr, more, ids, root, relocated);
    }
  }

  /** On relocation, a non-empty case path with no "raw/" in it makes the whole diff fail
      (`split("raw/")[1]` raises IndexError), as soon as the configuration lists at least
      one dose, slice thickness and kernel. */
  lemma {:induction false} RelocatedWithoutRawFails(cases: seq<string>, ids: map<string, string>, doses: seq<string>,
                                                    sts: seq<string>, kernels: seq<string>, root: string, i: nat)
    requires i < |cases| && cases[i] != "" && !ContainsRaw(cases[i])
    requires |doses| > 0 && |sts| > 0 && |kernels| > 0
    ensures DesiredList(cases, ids, doses, sts, kernels, root, true).None?
  {
    var n := |cases| - 1;
    if i < n {
      assert cases[..n][i] == cases[i];
      RelocatedWithoutRawFails(cases[..n], ids, doses, sts, kernels, root, i);
    } else {
      if cases[n] in ids {
        CaseWithoutRawFails(cases[n], ids[cases[n]], doses, sts, kernels, root);
      }
    }
  }

  /** The entries of a case path with no "raw/" in it cannot be relocated. */
  lemma CaseWithoutRawFails(c: string, id: string, doses: seq<string>, sts: seq<string>, kernels: seq<string>, root: string)
    requires !ContainsRaw(c)
    requires |doses| > 0 && |sts| > 0 && |kernels| > 0
    ensures EntriesOf(DoseJobs(c, doses, sts, kernels), id, root, true).None?
  {
    var cj := DoseJobs(c, doses, sts, kernels);
    assert |sts| * |kernels| > 0;
    assert |cj| > 0;
    DoseJobsMembers(c, doses, sts, kernels, cj[0]);
    RawForFails(root, c, true);
    assert EntryOf(cj[0], id, root, true).None?;
    EntriesSnoc(cj, 0, id, root, true);
    EntriesNoneExtends(cj, 1, id, root, true);
  }

  // ---- the missing list ----

  /** `os.path.exists(p)` in the directory model: `p`'s name is listed in its directory. */
  predicate Exists(dirs: map<string, set<string>>, p: string)
  {
    Basename(p) in Worker.FilesIn(dirs, Dirname(p))
  }

  /** The desired entries whose image exists. */
  function PresentEntries(desired: seq<Desired>, libPath: string, dirs: map<string, set<string>>): (r: set<Desired>)
    ensures forall k :: 0 <= k < |desired| ==> (desired[k] in r <==> Exists(dirs, ImageOf(libPath, desired[k])))
  {
    set d | d in desired && Exists(dirs, ImageOf(libPath, d))
  }

  /** `missing_cases`: the desired entries not among `present`, in order. */
  function Missing(desired: seq<Desired>, present: set<Desired>): seq<Desired>
  {
    if |desired| == 0 then []
    else
      var d := desired[|desired| - 1];
      Missing(desired[..|desired| - 1], present) + (if d in present then [] else [d])
  }

  /** An entry is missing exactly when it is desired and its image does not exist. */
  lemma MissingMembers(desired: seq<Desired>, libPath: string, dirs: map<string, set<string>>, d: Desired)
    ensures d in Missing(desired, PresentEntries(desired, libPath, dirs)) <==> d in desired && !Exists(dirs, ImageOf(libPath, d))
  {
    MissingMembersIn(desired, PresentEntries(desired, libPath, dirs), d);
  }

  lemma {:induction false} MissingMembersIn(desired: seq<Desired>, present: set<Desired>, d: Desired)
    ensures d in Missing(desired, present) <==> d in desired && d !in present
  {
    if |desired| > 0 {
      var n := |desired| - 1;
      MissingMembersIn(desired[..n], present, d);
      assert desired == desired[..n] + [desired[n]];
    }
  }

  /** The filter keeps order: what is missing from a concatenation is what is missing from
      its first part followed by what is missing from its second. */
  lemma {:induction false} MissingAppend(a: seq<Desired>, b: seq<Desired>, present: set<Desired>)
    ensures Missing(a + b, present) == Missing(a, present) + Missing(b, present)
    decreases |b|
  {
    if |b| == 0 {
      assert a + b == a;
    } else {
      var n := |b| - 1;
      assert (a + b)[..|a + b| - 1] == a + b[..n];
      assert (a + b)[|a + b| - 1] == b[n];
      MissingAppend(a, b[..n], present);
    }
  }

  /** An image name is a plain file name that `clean_up` sorts as an image. */
  lemma ImageNameShape(id: string, j: Job)
    requires id != "" && id[0] != '.' && !HasInfix(Worker.ImageName(id, j), ".std")
    requires '/' !in id && '/' !in j.dose && '/' !in j.kernel && '/' !in j.sliceThickness
    ensures var name := Worker.ImageName(id, j);
      '/' !in name && |name| > 0 && Worker.IsImageArtifact(name) && !Worker.IsLogArtifact(name)
  {
    var name := Worker.ImageName(id, j);
    var run := Worker.RunName(id, j);
    assert name == run + ".img";
    assert '/' !in run;
    assert name[0] == id[0];
    assert HasSuffix(name, ".img");
    assert !HasSuffix(name, ".log") by { assert name[|name| - 2] == 'm'; }
  }

  lemma ImgDirShape(study: string)
    ensures var img := Worker.ImgDir(study); |img| > 0 && img[|img| - 1] != '/'
  {
    var img := Worker.ImgDir(study);
    assert img[|img| - 1] == 'g';
  }

  /** The diff finds the image of job `j` exactly when the study's `img/` directory lists
      the worker's image name. */
  lemma ImageFoundInImgDir(dirs: map<string, set<string>>, libPath: string, id: string, j: Job)
    requires id != "" && id[0] != '.' && !HasInfix(Worker.ImageName(id, j), ".std")
    requires '/' !in id && '/' !in j.dose && '/' !in j.kernel && '/' !in j.sliceThickness
    ensures Exists(dirs, ImagePath(libPath, id, j))
        <==> Worker.ImageName(id, j) in Worker.FilesIn(dirs, Worker.ImgDir(Worker.StudyPath(Join(libPath, "recon"), id, j)))
  {
    var img := Worker.ImgDir(Worker.StudyPath(Join(libPath, "recon"), id, j));
    var name := Worker.ImageName(id, j);
    ImageNameShape(id, j);
    ImgDirShape(Worker.StudyPath(Join(libPath, "recon"), id, j));
    BasenameJoin(img, name);
    DirnameJoin(img, name);
    ImagePathIsWorkerImage(libPath, id, j);
  }

  /** A worker run that reconstructed an image of job `j`, and whose clean-up went through,
      leaves it where the diff looks, so the diff does not report that job missing. */
  lemma ReconstructedImageIsFound(dirs: map<string, set<string>>, libPath: string, id: string, j: Job, c: Worker.Collaborators)
    requires c.located == Worker.Found(id)
    requires Reconstruct in Worker.Attempted(Worker.StageOutcomes(j.dose, c))
    requires Worker.ImageName(id, j) in c.reconOutputs
    requires id != "" && id[0] != '.' && !HasInfix(Worker.ImageName(id, j), ".std")
    requires '/' !in id && '/' !in j.dose && '/' !in j.kernel && '/' !in j.sliceThickness
    ensures Exists(Worker.RunDirs(dirs, Join(libPath, "recon"), j, c), ImagePath(libPath, id, j))
  {
    var study := Worker.StudyPath(Join(libPath, "recon"), id, j);
    var name := Worker.ImageName(id, j);
    Worker.ThreadMatchesStages(j.dose, c);
    var d3 := Worker.StagedDirs(Worker.InitDirs(dirs, study), study, id, j, c);
    assert name in Worker.FilesIn(d3, study);
    ImageNameShape(id, j);
    Worker.CleanUpSorts(d3, study);
    ImageFoundInImgDir(Worker.RunDirs(dirs, Join(libPath, "recon"), j, c), libPath, id, j);
  }

  /** A worker run whose clean-up raised has moved no image, so an image of job `j` that was
      not in `img/` before is still not where the diff looks: the diff reports the job
      missing and queues it again. */
  lemma ImageMissedWhenCleanUpRaises(dirs: map<string, set<string>>, libPath: string, id: string, j: Job,
                                     c: Worker.Collaborators, after: map<string, set<string>>)
    requires c.located == Worker.Found(id)
    requires id != "" && id[0] != '.' && !HasInfix(Worker.ImageName(id, j), ".std")
    requires '/' !in id && '/' !in j.dose && '/' !in j.kernel && '/' !in j.sliceThickness
    requires var study := Worker.StudyPath(Join(libPath, "recon"), id, j);
      && Worker.ImageName(id, j) !in Worker.FilesIn(dirs, Worker.ImgDir(study))
      && Worker.PartlyCleaned(Worker.StagedRunDirs(dirs, Join(libPath, "recon"), j, c), after, study)
    ensures !Exists(after, ImagePath(libPath, id, j))
  {
    var study := Worker.StudyPath(Join(libPath, "recon"), id, j);
    Worker.SubdirsDistinct(study);
    var d3 := Worker.StagedRunDirs(dirs, Join(libPath, "recon"), j, c);
    assert Worker.FilesIn(d3, Worker.ImgDir(study)) == Worker.FilesIn(dirs, Worker.ImgDir(study));
    Worker.RaisedCleanUpMovesNoImage(d3, after, study);
    ImageFoundInImgDir(after, libPath, id, j);
  }

  // ---- queueing the missing jobs ----

  /** The job a desired entry is queued as. */
  function JobOf(d: Desired): Job
  {
    Job(d.raw, d.dose, d.kernel, d.sliceThickness)
  }

  function JobsOf(ds: seq<Desired>): (r: seq<Job>)
    ensures |r| == |ds|
    ensures forall k :: 0 <= k < |ds| ==> r[k] == JobOf(ds[k])
  {
    if |ds| == 0 then [] else JobsOf(ds[..|ds| - 1]) + [JobOf(ds[|ds| - 1])]
  }

  /** Without relocation a missing entry is queued as the very job it was made from, so
      the diff writes the same line the submission tool wrote for it. */
  lemma ResubmitsSameJob(j: Job, id: string, root: string)
    ensures EntryOf(j, id, root, false).Some?
    ensures JobOf(EntryOf(j, id, root, false).value) == j
  {
  }

  /** The append of the source: the lines are written to the queue file without taking the
      queue lock. */
  method AppendMissingAsWritten(lib: Library, lines: seq<string>)
    modifies lib`queueFile, lib`events
    ensures lib.queueFile == old(lib.queueFile) + Launch.Concat(lines)
    ensures lib.events == old(lib.events) + Launch.WriteEvents(lines)
  {
    Launch.WriteLines(lib, lines);
  }

  /** Those writes are not guarded by the queue lock, unlike every other access to the
      queue file: a daemon rewriting the queue at the same time can lose them. */
  lemma UnlockedAppendIsUnguarded(lines: seq<string>)
    requires |lines| > 0
    ensures !QueueGuarded(Launch.WriteEvents(lines))
  {
    var t := Launch.WriteEvents(lines);
    assert t[0].TouchesQueue() && t[..0] == [];
  }

  /** The append evidently intended: the same writes, under the queue lock. */
  method AppendMissing(lib: Library, lines: seq<string>)
    modifies lib`locks, lib`queueFile, lib`events
    ensures lib.queueFile == old(lib.queueFile) + Launch.Concat(lines)
    ensures lib.locks == old(lib.locks)[QueueLock := false]
    ensures lib.events == old(lib.events) + ([Acquire(QueueLock)] + Launch.WriteEvents(lines) + [Release(QueueLock)])
    ensures QueueGuarded([Acquire(QueueLock)] + Launch.WriteEvents(lines) + [Release(QueueLock)])
  {
    ghost var e0, l0 := lib.events, lib.locks;
    lib.Lock(QueueLock);
    Launch.WriteLines(lib, lines);
    lib.Unlock(QueueLock);
    UpdateTwice(l0, QueueLock, true, false);
    ghost var w := Launch.WriteEvents(lines);
    AppendAssoc(e0, [Acquire(QueueLock)], w);
    AppendAssoc(e0, [Acquire(QueueLock)] + w, [Release(QueueLock)]);
    GuardedBracket(w);
  }

  // ---- the loops of `__main__` ----

  /** The body of the kernel loop: the raw path, moved to the new root on relocation, and
      the entry built from it. */
  method EntryFor(j: Job, id: string, root: string, relocated: bool) returns (e: Option<Desired>)
    ensures e == EntryOf(j, id, root, relocated)
  {
    var raw := j.path;
    if relocated {
      var moved := RelocatedRawAsWritten(root, j.path);
      if moved.None? {
        return None;
      }
      raw := moved.value;
    }
    e := Some(Entry(raw, j, id));
  }

  lemma EntriesSnoc(jobs: seq<Job>, k: nat, id: string, root: string, relocated: bool)
    requires k < |jobs|
    ensures var prefix, e := EntriesOf(jobs[..k], id, root, relocated), EntryOf(jobs[k], id, root, relocated);
      EntriesOf(jobs[..k + 1], id, root, relocated) == if prefix.None? || e.None? then None else Some(prefix.value + [e.value])
  {
    assert jobs[..k + 1][..k] == jobs[..k];
  }

  /** The entries of one case: the dose, slice thickness and kernel loops, walked over the
      case's jobs in the order `DoseJobs` lists them. */
  method CaseEntries(jobs: seq<Job>, id: string, root: string, relocated: bool)
    returns (r: Option<seq<Desired>>)
    ensures r == EntriesOf(jobs, id, root, relocated)
  {
    var entries: seq<Desired> := [];
    var k := 0;
    while k < |jobs|
      invariant 0 <= k <= |jobs|
      invariant EntriesOf(jobs[..k], id, root, relocated) == Some(entries)
    {
      var e := EntryFor(jobs[k], id, root, relocated);
      EntriesSnoc(jobs, k, id, root, relocated);
      if e.None? {
        EntriesNoneExtends(jobs, k + 1, id, root, relocated);
        return None;
      }
      entries := entries + [e.value];
      k := k + 1;
    }
    assert jobs[..k] == jobs;
    r := Some(entries);
  }

  /** A failing entry fails every longer list of entries. */
  lemma {:induction false} EntriesNoneExtends(jobs: seq<Job>, k: nat, id: string, root: string, relocated: bool)
    requires k <= |jobs| && EntriesOf(jobs[..k], id, root, relocated).None?
    ensures EntriesOf(jobs, id, root, relocated).None?
    decreases |jobs| - k
  {
    if k < |jobs| {
      assert jobs[..k + 1][..k] == jobs[..k];
      EntriesNoneExtends(jobs, k + 1, id, root, relocated);
    } else {
      assert jobs[..k] == jobs;
    }
  }

  /** The case loop building `recon_list_desired`. */
  method BuildDesired(cases: seq<string>, ids: map<string, string>, doses: seq<string>, sts: seq<string>,
                      kernels: seq<string>, root: string, relocated: bool) returns (r: Option<seq<Desired>>)
    ensures r == DesiredList(cases, ids, doses, sts, kernels, root, relocated)
  {
    var desired: seq<Desired> := [];
    var k := 0;
    while k < |cases|
      invariant 0 <= k <= |cases|
      invariant DesiredList(cases[..k], ids, doses, sts, kernels, root, relocated) == Some(desired)
    {
      DesiredSnoc(cases, k, ids, doses, sts, kernels, root, relocated);
      var step := CaseStepOf(desired, cases[k], ids, doses, sts, kernels, root, relocated);
      if step.None? {
        DesiredNoneExtends(cases, k + 1, ids, doses, sts, kernels, root, relocated);
        return None;
      }
      desired := step.value;
      k := k + 1;
    }
    assert cases[..k] == cases;
    r := Some(desired);
  }

  /** The body of the loop over the cases: the case's id, then its dose, slice thickness and
      kernel entries, appended to what the earlier cases gave. */
  method CaseStepOf(prefix: seq<Desired>, c: string, ids: map<string, string>, doses: seq<string>,
                    sts: seq<string>, kernels: seq<string>, root: string, relocated: bool)
    returns (r: Option<seq<Desired>>)
    ensures r == CaseStep(Some(prefix), c, ids, doses, sts, kernels, root, relocated)
  {
    if c !in ids {
      return None;
    }
    if c == "" {
      return Some(prefix);
    }
    var more := CaseEntries(DoseJobs(c, doses, sts, kernels), ids[c], root, relocated);
    if more.None? {
      return None;
    }
    r := Some(prefix + more.value);
  }

  lemma DesiredSnoc(cases: seq<string>, k: nat, ids: map<string, string>, doses: seq<string>,
                    sts: seq<string>, kernels: seq<string>, root: string, relocated: bool)
    requires k < |cases|
    ensures DesiredList(cases[..k + 1], ids, doses, sts, kernels, root, relocated)
         == CaseStep(DesiredList(cases[..k], ids, doses, sts, kernels, root, relocated), cases[k],
                     ids, doses, sts, kernels, root, relocated)
  {
    assert cases[..k + 1][..k] == cases[..k];
  }

  lemma {:induction false} DesiredNoneExtends(cases: seq<string>, k: nat, ids: map<string, string>, doses: seq<string>,
                                              sts: seq<string>, kernels: seq<string>, root: string, relocated: bool)
    requires k <= |cases| && DesiredList(cases[..k], ids, doses, sts, kernels, root, relocated).None?
    ensures DesiredList(cases, ids, doses, sts, kernels, root, relocated).None?
    decreases |cases| - k
  {
    if k < |cases| {
      assert cases[..k + 1][..k] == cases[..k];
      DesiredNoneExtends(cases, k + 1, ids, doses, sts, kernels, root, relocated);
    } else {
      assert cases[..k] == cases;
    }
  }

  /** The loop building `missing_cases`. */
  method FindMissing(lib: Library, desired: seq<Desired>) returns (missing: seq<Desired>)
    ensures missing == Missing(desired, PresentEntries(desired, lib.path, lib.dirs))
  {
    ghost var present := PresentEntries(desired, lib.path, lib.dirs);
    missing := [];
    var k := 0;
    while k < |desired|
      invariant 0 <= k <= |desired|
      invariant missing == Missing(desired[..k], present)
    {
      MissingSnoc(desired, k, present);
      var d := desired[k];
      var found := Exists(lib.dirs, ImageOf(lib.path, d));
      assert found == (d in present);
      if !found {
        missing := missing + [d];
      }
      k := k + 1;
    }
    assert desired[..k] == desired;
  }

  lemma MissingSnoc(desired: seq<Desired>, k: nat, present: set<Desired>)
    requires k < |desired|
    ensures Missing(desired[..k + 1], present)
         == Missing(desired[..k], present) + (if desired[k] in present then [] else [desired[k]])
  {
    assert desired[..k + 1][..k] == desired[..k];
  }

  /** The loop building `queue_strings`. */
  method MissingLines(missing: seq<Desired>) returns (lines: seq<string>)
    ensures lines == Launch.QueueLines(JobsOf(missing))
  {
    lines := [];
    var k := 0;
    while k < |missing|
      invariant 0 <= k <= |missing|
      invariant lines == Launch.QueueLines(JobsOf(missing[..k]))
    {
      assert missing[..k + 1][..k] == missing[..k];
      ghost var js := JobsOf(missing[..k + 1]);
      assert js[..k] == JobsOf(missing[..k]);
      var m := missing[k];
      lines := lines + [JobItem(Job(m.raw, m.dose, m.kernel, m.sliceThickness)) + "\n"];
      k := k + 1;
    }
    assert missing[..k] == missing;
  }

  /** `__main__` after the argument check: the (possibly relocated) case list is read by
      `caseListOf`, the missing reconstructions are listed, and when there are any their
      jobs are appended to the queue, one line each, in order, without the queue lock.
      None where the source raises. */
  method DiffMain(lib: Library, caseList: string, caseListOf: string -> seq<string>, ids: map<string, string>,
                  doses: seq<string>, sts: seq<string>, kernels: seq<string>) returns (missing: Option<seq<Desired>>)
    modifies lib`queueFile, lib`events
    ensures var relocated := Relocated(lib.path, caseList);
      var cases := caseListOf(CaseListPath(lib.path, caseList));
      var desired := DesiredList(cases, ids, doses, sts, kernels, LibraryRoot(lib.path), relocated);
      missing == (if desired.None? then None else Some(Missing(desired.value, PresentEntries(desired.value, lib.path, lib.dirs))))
    ensures missing.Some? && missing.value != [] ==>
      && lib.queueFile == old(lib.queueFile) + Serialize(Items(JobsOf(missing.value)))
      && lib.events == old(lib.events) + Launch.WriteEvents(Launch.QueueLines(JobsOf(missing.value)))
      && !QueueGuarded(Launch.WriteEvents(Launch.QueueLines(JobsOf(missing.value))))
    ensures missing.None? || missing.value == [] ==>
      lib.queueFile == old(lib.queueFile) && lib.events == old(lib.events)
  {
    var root := LibraryRoot(lib.path);
    var relocated := root != Dirname(caseList);
    var path := caseList;
    if relocated {
      path := Join(root, Basename(caseList));
    }
    var cases := caseListOf(path);
    var desired := BuildDesired(cases, ids, doses, sts, kernels, root, relocated);
    if desired.None? {
      return None;
    }
    var m := FindMissing(lib, desired.value);
    missing := Some(m);
    if m != [] {
      var lines := MissingLines(m);
      Launch.ConcatQueueLines(JobsOf(m));
      AppendMissingAsWritten(lib, lines);
      UnlockedAppendIsUnguarded(lines);
    }
  }
}
