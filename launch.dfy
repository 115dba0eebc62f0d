/** Job submission (`ctbb_pipeline_launch.py`, `flush_jobs_to_queue`): under the queue
    lock, one queue line per combination of a non-empty case, a dose, a slice thickness
    and a kernel is written to the queue file, at its end for "normal" priority and at
    its start for "high" priority. */
module Launch {
  import opened Text
  import opened Jobs
  import opened PipelineLibrary
  import opened Wrappers
  import Worker

  /** `'%s,%s,%s,%s\n' % (c, dose, kernel, st)` for each job, in order. */
  function QueueLines(jobs: seq<Job>): (r: seq<string>)
    ensures |r| == |jobs|
    ensures forall k :: 0 <= k < |jobs| ==> r[k] == JobItem(jobs[k]) + "\n"
  {
    if |jobs| == 0 then [] else QueueLines(jobs[..|jobs| - 1]) + [JobItem(jobs[|jobs| - 1]) + "\n"]
  }

  lemma QueueLinesAppend(a: seq<Job>, b: seq<Job>)
    ensures QueueLines(a + b) == QueueLines(a) + QueueLines(b)
  {
    var l, r := QueueLines(a + b), QueueLines(a) + QueueLines(b);
    forall k | 0 <= k < |l| ensures l[k] == r[k] {
      if k < |a| {
        assert (a + b)[k] == a[k];
      } else {
        assert (a + b)[k] == b[k - |a|];
      }
    }
  }

  /** The text that writing the strings one after another adds to a file. */
  function Concat(texts: seq<string>): string
  {
    if |texts| == 0 then "" else Concat(texts[..|texts| - 1]) + texts[|texts| - 1]
  }

  /** Writing the queue lines of `jobs` one by one writes the items of `jobs` one per line. */
  lemma {:induction false} ConcatQueueLines(jobs: seq<Job>)
    ensures Concat(QueueLines(jobs)) == Serialize(Items(jobs))
  {
    if |jobs| > 0 {
      var n := |jobs| - 1;
      ConcatQueueLines(jobs[..n]);
      var items := Items(jobs);
      assert items[..n] == Items(jobs[..n]);
      assert items[..n + 1] == items;
      SerializeSnoc(items, n);
    }
  }

  /** One `f.write(s)` per string. */
  function WriteEvents(texts: seq<string>): (r: seq<Event>)
    ensures |r| == |texts|
    ensures forall k :: 0 <= k < |r| ==> r[k] == AppendQueue(texts[k])
  {
    if |texts| == 0 then [] else WriteEvents(texts[..|texts| - 1]) + [AppendQueue(texts[|texts| - 1])]
  }

  /** The queue accesses of each priority branch. */
  function FlushEvents(priority: string, lines: seq<string>, existing: string): (r: seq<Event>)
    ensures LockFree(r)
  {
    if priority == "normal" then WriteEvents(lines)
    else if priority == "high" then
      var r := [ReadQueue, WriteQueue("")] + WriteEvents(lines) + [AppendQueue(existing)];
      assert forall k :: 2 <= k < |r| - 1 ==> r[k] == WriteEvents(lines)[k - 2];
      r
    else []
  }

  /** Every queue access of a flush happens under the queue lock, whatever the priority. */
  lemma FlushGuarded(priority: string, lines: seq<string>, existing: string)
    ensures QueueGuarded([Acquire(QueueLock)] + FlushEvents(priority, lines, existing) + [Release(QueueLock)])
  {
    GuardedBracket(FlushEvents(priority, lines, existing));
  }

  /** The innermost loop: one line per kernel. */
  method KernelLines(c: string, dose: string, st: string, kernels: seq<string>) returns (lines: seq<string>)
    ensures lines == QueueLines(KernelJobs(c, dose, st, kernels))
  {
    lines := [];
    var k := 0;
    while k < |kernels|
      invariant 0 <= k <= |kernels|
      invariant lines == QueueLines(KernelJobs(c, dose, st, kernels[..k]))
    {
      assert kernels[..k + 1][..k] == kernels[..k];
      ghost var js := KernelJobs(c, dose, st, kernels[..k + 1]);
      assert js[..k] == KernelJobs(c, dose, st, kernels[..k]);
      lines := lines + [JobItem(Job(c, dose, kernels[k], st)) + "\n"];
      k := k + 1;
    }
    assert kernels[..k] == kernels;
  }

  /** The slice-thickness loop. */
  method StLines(c: string, dose: string, sts: seq<string>, kernels: seq<string>) returns (lines: seq<string>)
    ensures lines == QueueLines(StJobs(c, dose, sts, kernels))
  {
    lines := [];
    var k := 0;
    while k < |sts|
      invariant 0 <= k <= |sts|
      invariant lines == QueueLines(StJobs(c, dose, sts[..k], kernels))
    {
      assert sts[..k + 1][..k] == sts[..k];
      var more := KernelLines(c, dose, sts[k], kernels);
      QueueLinesAppend(StJobs(c, dose, sts[..k], kernels), KernelJobs(c, dose, sts[k], kernels));
      lines := lines + more;
      k := k + 1;
    }
    assert sts[..k] == sts;
  }

  /** The dose loop. */
  method DoseLines(c: string, doses: seq<string>, sts: seq<string>, kernels: seq<string>) returns (lines: seq<string>)
    ensures lines == QueueLines(DoseJobs(c, doses, sts, kernels))
  {
    lines := [];
    var k := 0;
    while k < |doses|
      invariant 0 <= k <= |doses|
      invariant lines == QueueLines(DoseJobs(c, doses[..k], sts, kernels))
    {
      assert doses[..k + 1][..k] == doses[..k];
      var more := StLines(c, doses[k], sts, kernels);
      QueueLinesAppend(DoseJobs(c, doses[..k], sts, kernels), StJobs(c, doses[k], sts, kernels));
      lines := lines + more;
      k := k + 1;
    }
    assert doses[..k] == doses;
  }

  /** The case loop, skipping empty case entries: the queue strings of the cross product. */
  method BuildQueueStrings(cases: seq<string>, doses: seq<string>, sts: seq<string>, kernels: seq<string>)
    returns (lines: seq<string>)
    ensures lines == QueueLines(CrossProduct(cases, doses, sts, kernels))
  {
    lines := [];
    var k := 0;
    while k < |cases|
      invariant 0 <= k <= |cases|
      invariant lines == QueueLines(CrossProduct(cases[..k], doses, sts, kernels))
    {
      assert cases[..k + 1][..k] == cases[..k];
      if cases[k] != "" {
        var more := DoseLines(cases[k], doses, sts, kernels);
        QueueLinesAppend(CrossProduct(cases[..k], doses, sts, kernels), DoseJobs(cases[k], doses, sts, kernels));
        lines := lines + more;
      } else {
        assert CrossProduct(cases[..k + 1], doses, sts, kernels) == CrossProduct(cases[..k], doses, sts, kernels) + [];
      }
      k := k + 1;
    }
    assert cases[..k] == cases;
  }

  /** Writes the strings one after another into the queue file opened for appending. */
  method WriteLines(lib: Library, lines: seq<string>)
    modifies lib`queueFile, lib`events
    ensures lib.queueFile == old(lib.queueFile) + Concat(lines)
    ensures lib.events == old(lib.events) + WriteEvents(lines)
  {
    var k := 0;
    while k < |lines|
      invariant 0 <= k <= |lines|
      invariant lib.queueFile == old(lib.queueFile) + Concat(lines[..k])
      invariant lib.events == old(lib.events) + WriteEvents(lines[..k])
    {
      assert lines[..k + 1][..k] == lines[..k];
      lib.AppendQueueFile(lines[k]);
      k := k + 1;
    }
    assert lines[..k] == lines;
  }

  /** The priority branches of `flush_jobs_to_queue`. */
  method WriteByPriority(lib: Library, lines: seq<string>, priority: string)
    modifies lib`queueFile, lib`events
    ensures lib.queueFile == if priority == "normal" then old(lib.queueFile) + Concat(lines)
                             else if priority == "high" then Concat(lines) + old(lib.queueFile)
                             else old(lib.queueFile)
    ensures lib.events == old(lib.events) + FlushEvents(priority, lines, old(lib.queueFile))
  {
    if priority == "normal" {
      WriteLines(lib, lines);
    } else if priority == "high" {
      var existing := lib.ReadQueueFile();
      lib.WriteQueueFile("");
      WriteLines(lib, lines);
      lib.AppendQueueFile(existing);
      assert "" + Concat(lines) == Concat(lines);
      HighEventsSplit(old(lib.events), lines, existing);
    }
  }

  lemma HighEventsSplit(e0: seq<Event>, lines: seq<string>, existing: string)
    ensures e0 + [ReadQueue] + [WriteQueue("")] + WriteEvents(lines) + [AppendQueue(existing)]
         == e0 + FlushEvents("high", lines, existing)
  {
    var w := WriteEvents(lines);
    AppendAssoc(e0 + [ReadQueue] + [WriteQueue("")], w, [AppendQueue(existing)]);
    AppendAssoc(e0, [ReadQueue], [WriteQueue("")]);
    assert [ReadQueue] + [WriteQueue("")] == [ReadQueue, WriteQueue("")];
    AppendAssoc(e0, [ReadQueue, WriteQueue("")], w + [AppendQueue(existing)]);
    AppendAssoc([ReadQueue, WriteQueue("")], w, [AppendQueue(existing)]);
  }

  /** `flush_jobs_to_queue` for a given priority: "normal" appends the new lines, "high"
      puts them before what the queue held, and any other priority changes nothing. The
      queue lock is held around it in every case. */
  method FlushWithPriority(lib: Library, cases: seq<string>, doses: seq<string>, sts: seq<string>,
                           kernels: seq<string>, priority: string)
    modifies lib`locks, lib`queueFile, lib`events
    ensures var text := Serialize(Items(CrossProduct(cases, doses, sts, kernels)));
      lib.queueFile == if priority == "normal" then old(lib.queueFile) + text
                       else if priority == "high" then text + old(lib.queueFile)
                       else old(lib.queueFile)
    ensures lib.locks == old(lib.locks)[QueueLock := false]
    ensures lib.events == old(lib.events) + ([Acquire(QueueLock)]
              + FlushEvents(priority, QueueLines(CrossProduct(cases, doses, sts, kernels)), old(lib.queueFile))
              + [Release(QueueLock)])
  {
    ghost var e0, l0 := lib.events, lib.locks;
    lib.Lock(QueueLock);
    var lines := BuildQueueStrings(cases, doses, sts, kernels);
    ConcatQueueLines(CrossProduct(cases, doses, sts, kernels));
    WriteByPriority(lib, lines, priority);
    lib.Unlock(QueueLock);
    UpdateTwice(l0, QueueLock, true, false);
    ghost var f := FlushEvents(priority, lines, old(lib.queueFile));
    AppendAssoc(e0, [Acquire(QueueLock)], f);
    AppendAssoc(e0, [Acquire(QueueLock)] + f, [Release(QueueLock)]);
  }

  /** `flush_jobs_to_queue` as it stands: the priority is fixed to "normal". */
  method FlushJobsToQueue(lib: Library, cases: seq<string>, doses: seq<string>, sts: seq<string>, kernels: seq<string>)
    modifies lib`locks, lib`queueFile, lib`events
    ensures lib.queueFile == old(lib.queueFile) + Serialize(Items(CrossProduct(cases, doses, sts, kernels)))
    ensures lib.locks == old(lib.locks)[QueueLock := false]
    ensures lib.events == old(lib.events) + ([Acquire(QueueLock)]
              + WriteEvents(QueueLines(CrossProduct(cases, doses, sts, kernels))) + [Release(QueueLock)])
  {
    FlushWithPriority(lib, cases, doses, sts, kernels, "normal");
  }

  // ---- reading the submitted jobs back ----

  predicate PlainJob(j: Job)
  {
    ',' !in j.path && ',' !in j.dose && ',' !in j.kernel && ',' !in j.sliceThickness
    && NoLineBreak(JobItem(j))
  }

  /** After a normal flush onto a queue file whose last line is complete, re-reading the
      queue gives the old items followed by one item per job, and each of them parses
      back, in the worker, into its job. */
  lemma NormalFlushReadsBack(existing: string, jobs: seq<Job>)
    requires EndsLine(existing)
    requires forall k :: 0 <= k < |jobs| ==> PlainJob(jobs[k])
    ensures SplitLines(existing + Serialize(Items(jobs))) == SplitLines(existing) + Items(jobs)
    ensures forall k :: 0 <= k < |jobs| ==> Worker.Parse(Items(jobs)[k]) == Some(jobs[k])
  {
    SplitLinesAppend(existing, Serialize(Items(jobs)));
    SplitLinesSerialize(Items(jobs));
    forall k | 0 <= k < |jobs| ensures Worker.Parse(Items(jobs)[k]) == Some(jobs[k]) {
      Worker.ParseJobItem(jobs[k]);
    }
  }

  /** After a high-priority flush the new items come first, followed by the old ones. */
  lemma HighFlushReadsBack(existing: string, jobs: seq<Job>)
    requires forall k :: 0 <= k < |jobs| ==> PlainJob(jobs[k])
    ensures SplitLines(Serialize(Items(jobs)) + existing) == Items(jobs) + SplitLines(existing)
  {
    SerializeEnd(Items(jobs));
    SplitLinesAppend(Serialize(Items(jobs)), existing);
    SplitLinesSerialize(Items(jobs));
  }

  /** Both priorities keep a queue file that ends with a complete line so. */
  lemma FlushKeepsLinesWhole(existing: string, jobs: seq<Job>)
    requires EndsLine(existing)
    ensures EndsLine(existing + Serialize(Items(jobs)))
    ensures EndsLine(Serialize(Items(jobs)) + existing)
  {
    var t := Serialize(Items(jobs));
    SerializeEnd(Items(jobs));
    if |t| == 0 {
      assert existing + t == existing && t + existing == existing;
    } else if |existing| > 0 {
      assert (t + existing)[|t + existing| - 1] == existing[|existing| - 1];
      assert (existing + t)[|existing + t| - 1] == t[|t| - 1];
    } else {
      assert existing + t == t && t + existing == t;
    }
  }
}
