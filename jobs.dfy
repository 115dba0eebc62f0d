/** Job descriptors and the queue-line format they travel in, and the cross product of
    cases, doses, slice thicknesses and kernels from which both the submission tool and
    the library diff build their jobs. */
module Jobs {
  import opened Text

  /** One job: a raw data file and the reconstruction settings to apply to it. */
  datatype Job = Job(path: string, dose: string, kernel: string, sliceThickness: string)

  /** `'%s,%s,%s,%s' % (path, dose, kernel, st)`: a queue line without its newline. */
  function JobItem(j: Job): string
  {
    j.path + "," + j.dose + "," + j.kernel + "," + j.sliceThickness
  }

  /** The queue lines of a list of jobs, newline excluded, in order. */
  function Items(jobs: seq<Job>): (items: seq<string>)
    ensures |items| == |jobs|
    ensures forall k :: 0 <= k < |jobs| ==> items[k] == JobItem(jobs[k])
  {
    if |jobs| == 0 then [] else Items(jobs[..|jobs| - 1]) + [JobItem(jobs[|jobs| - 1])]
  }

  /** The jobs of one case, dose and slice thickness: one per kernel, in kernel order. */
  function KernelJobs(c: string, dose: string, st: string, kernels: seq<string>): (r: seq<Job>)
    ensures |r| == |kernels|
    ensures forall k :: 0 <= k < |kernels| ==> r[k] == Job(c, dose, kernels[k], st)
  {
    if |kernels| == 0 then []
    else KernelJobs(c, dose, st, kernels[..|kernels| - 1]) + [Job(c, dose, kernels[|kernels| - 1], st)]
  }

  /** The jobs of one case and dose: slice thickness outside, kernel inside. */
  function StJobs(c: string, dose: string, sts: seq<string>, kernels: seq<string>): (r: seq<Job>)
    ensures |r| == |sts| * |kernels|
  {
    if |sts| == 0 then []
    else StJobs(c, dose, sts[..|sts| - 1], kernels) + KernelJobs(c, dose, sts[|sts| - 1], kernels)
  }

  /** The jobs of one case: dose, then slice thickness, then kernel. */
  function DoseJobs(c: string, doses: seq<string>, sts: seq<string>, kernels: seq<string>): (r: seq<Job>)
    ensures |r| == |doses| * (|sts| * |kernels|)
  {
    if |doses| == 0 then []
    else DoseJobs(c, doses[..|doses| - 1], sts, kernels) + StJobs(c, doses[|doses| - 1], sts, kernels)
  }

  /** The number of non-empty entries of a case list. */
  function NonEmpty(cases: seq<string>): nat
  {
    if |cases| == 0 then 0
    else NonEmpty(cases[..|cases| - 1]) + (if cases[|cases| - 1] == "" then 0 else 1)
  }

  /** All jobs for a case list, case by case in list order; empty entries give none. */
  function CrossProduct(cases: seq<string>, doses: seq<string>, sts: seq<string>, kernels: seq<string>): (r: seq<Job>)
    ensures |r| == NonEmpty(cases) * (|doses| * (|sts| * |kernels|))
  {
    if |cases| == 0 then []
    else
      var c := cases[|cases| - 1];
      var prefix := CrossProduct(cases[..|cases| - 1], doses, sts, kernels);
      MulSucc(NonEmpty(cases[..|cases| - 1]), |doses| * (|sts| * |kernels|));
      prefix + (if c == "" then [] else DoseJobs(c, doses, sts, kernels))
  }

  lemma MulSucc(a: nat, b: nat)
    ensures (a + 1) * b == a * b + b
  {
  }

  lemma MulShift(a: nat, n: nat, b: nat, r: nat)
    requires a < n && r < b
    ensures a * b + r < n * b
  {
    MulSucc(a, b);
    assert (a + 1) * b <= n * b by { MulMono(a + 1, n, b); }
  }

  lemma MulMono(a: nat, n: nat, b: nat)
    requires a <= n
    ensures a * b <= n * b
  {
  }

  /** Slice thickness is the outer and kernel the inner loop of one dose's block. */
  lemma {:induction false} StJobsAt(c: string, dose: string, sts: seq<string>, kernels: seq<string>, j: nat, k: nat)
    requires j < |sts| && k < |kernels|
    ensures j * |kernels| + k < |StJobs(c, dose, sts, kernels)|
    ensures StJobs(c, dose, sts, kernels)[j * |kernels| + k] == Job(c, dose, kernels[k], sts[j])
  {
    var n := |sts|;
    var prefix := StJobs(c, dose, sts[..n - 1], kernels);
    MulShift(j, n, |kernels|, k);
    if j < n - 1 {
      MulShift(j, n - 1, |kernels|, k);
      StJobsAt(c, dose, sts[..n - 1], kernels, j, k);
    } else {
      assert j * |kernels| + k == |prefix| + k;
    }
  }

  /** Within one case the jobs run dose by dose: dose i contributes the i-th block of
      |sts| * |kernels| jobs, ordered as StJobsAt says. */
  lemma {:induction false} DoseJobsBlock(c: string, doses: seq<string>, sts: seq<string>, kernels: seq<string>,
                                         i: nat, r: nat)
    requires i < |doses| && r < |sts| * |kernels|
    ensures i * (|sts| * |kernels|) + r < |DoseJobs(c, doses, sts, kernels)|
    ensures DoseJobs(c, doses, sts, kernels)[i * (|sts| * |kernels|) + r] == StJobs(c, doses[i], sts, kernels)[r]
  {
    var n, block := |doses|, |sts| * |kernels|;
    MulShift(i, n, block, r);
    if i < n - 1 {
      MulShift(i, n - 1, block, r);
      DoseJobsBlock(c, doses[..n - 1], sts, kernels, i, r);
    }
  }

  lemma {:induction false} KernelJobsMembers(c: string, dose: string, st: string, kernels: seq<string>, j: Job)
    ensures j in KernelJobs(c, dose, st, kernels) <==> j.path == c && j.dose == dose && j.sliceThickness == st && j.kernel in kernels
  {
    var r := KernelJobs(c, dose, st, kernels);
    if j in r {
      var k :| 0 <= k < |r| && r[k] == j;
      assert kernels[k] == j.kernel;
    }
    if j.path == c && j.dose == dose && j.sliceThickness == st && j.kernel in kernels {
      var k :| 0 <= k < |kernels| && kernels[k] == j.kernel;
      assert r[k] == j;
    }
  }

  lemma {:induction false} StJobsMembers(c: string, dose: string, sts: seq<string>, kernels: seq<string>, j: Job)
    ensures j in StJobs(c, dose, sts, kernels) <==> j.path == c && j.dose == dose && j.sliceThickness in sts && j.kernel in kernels
  {
    if |sts| > 0 {
      var n := |sts|;
      StJobsMembers(c, dose, sts[..n - 1], kernels, j);
      KernelJobsMembers(c, dose, sts[n - 1], kernels, j);
      assert sts == sts[..n - 1] + [sts[n - 1]];
    }
  }

  lemma {:induction false} DoseJobsMembers(c: string, doses: seq<string>, sts: seq<string>, kernels: seq<string>, j: Job)
    ensures j in DoseJobs(c, doses, sts, kernels) <==> j.path == c && j.dose in doses && j.sliceThickness in sts && j.kernel in kernels
  {
    if |doses| > 0 {
      var n := |doses|;
      DoseJobsMembers(c, doses[..n - 1], sts, kernels, j);
      StJobsMembers(c, doses[n - 1], sts, kernels, j);
      assert doses == doses[..n - 1] + [doses[n - 1]];
    }
  }

  /** The jobs are exactly the combinations of a non-empty case entry with a dose, a slice
      thickness and a kernel from the configuration. */
  lemma {:induction false} CrossProductMembers(cases: seq<string>, doses: seq<string>, sts: seq<string>, kernels: seq<string>, j: Job)
    ensures j in CrossProduct(cases, doses, sts, kernels) <==>
              j.path in cases && j.path != "" && j.dose in doses && j.sliceThickness in sts && j.kernel in kernels
  {
    if |cases| > 0 {
      var n := |cases|;
      var init, c := cases[..n - 1], cases[n - 1];
      var prefix := CrossProduct(init, doses, sts, kernels);
      var tail := if c == "" then [] else DoseJobs(c, doses, sts, kernels);
      assert CrossProduct(cases, doses, sts, kernels) == prefix + tail;
      CrossProductMembers(init, doses, sts, kernels, j);
      DoseJobsMembers(c, doses, sts, kernels, j);
      InInitOrLast(cases, j.path);
      assert (j in prefix + tail) == (j in prefix || j in tail);
    }
  }

  lemma InInitOrLast(s: seq<string>, x: string)
    requires |s| > 0
    ensures x in s <==> x in s[..|s| - 1] || x == s[|s| - 1]
  {
    assert s == s[..|s| - 1] + [s[|s| - 1]];
  }

  /** An empty case entry contributes no job. */
  lemma {:induction false} EmptyCasesContributeNothing(cases: seq<string>, doses: seq<string>, sts: seq<string>, kernels: seq<string>)
    ensures CrossProduct(cases + [""], doses, sts, kernels) == CrossProduct(cases, doses, sts, kernels)
    ensures NonEmpty(cases + [""]) == NonEmpty(cases)
  {
    assert (cases + [""])[..|cases|] == cases;
  }
}
