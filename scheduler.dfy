/** The scheduler daemon (`ctbb_pipeline_daemon.py`): it keeps an in-memory copy of the
    queue file, and while that copy is not empty it repeatedly takes the queue lock,
    re-reads the queue, hands one queue head to each free device by starting a worker for
    it, and releases the lock. A daemon lock makes it a singleton per library. */
module Scheduler {
  import opened Text
  import opened PipelineLibrary

  function Min(a: nat, b: nat): nat
  {
    if a <= b then a else b
  }

  // ---- device names ----

  /** `'dev%d' % i`: the lock name of the i-th CUDA device. */
  function DeviceName(i: nat): string
  {
    "dev" + Decimal(i)
  }

  /** The lock names of n devices, in device order. */
  function DeviceNames(n: nat): (r: seq<string>)
    ensures |r| == n
    ensures forall i :: 0 <= i < n ==> r[i] == DeviceName(i)
  {
    if n == 0 then [] else DeviceNames(n - 1) + [DeviceName(n - 1)]
  }

  lemma DeviceNameInjective(i: nat, j: nat)
    ensures DeviceName(i) == DeviceName(j) ==> i == j
  {
    assert DeviceName(i)[3..] == Decimal(i);
    assert DeviceName(j)[3..] == Decimal(j);
    if DeviceName(i) == DeviceName(j) {
      DecimalInjective(i, j);
    }
  }

  /** Different devices have different locks. */
  lemma DeviceNamesDistinct(n: nat)
    ensures forall i, j :: 0 <= i < j < n ==> DeviceNames(n)[i] != DeviceNames(n)[j]
  {
    var r := DeviceNames(n);
    forall i, j | 0 <= i < j < n ensures r[i] != r[j] {
      DeviceNameInjective(i, j);
    }
  }

  /** No device lock is the queue or the daemon lock. */
  lemma DeviceNamesAreNotControlLocks(n: nat)
    ensures QueueLock !in DeviceNames(n) && DaemonLock !in DeviceNames(n)
  {
    var r := DeviceNames(n);
    forall i | 0 <= i < n ensures r[i] != QueueLock && r[i] != DaemonLock {
      assert r[i][0] == 'd' && r[i][1] == 'e';
    }
  }

  // ---- free devices ----

  /** `get_empty_devices`: the devices whose lock is not taken, in device order. */
  function Free(devices: seq<string>, locks: map<string, bool>): (r: seq<string>)
    ensures |r| <= |devices|
  {
    if |devices| == 0 then []
    else
      var d := devices[|devices| - 1];
      Free(devices[..|devices| - 1], locks) + (if Held(locks, d) then [] else [d])
  }

  /** A device is offered exactly when it is one of the devices and its lock is free. */
  lemma {:induction false} FreeMembers(devices: seq<string>, locks: map<string, bool>, d: string)
    ensures d in Free(devices, locks) <==> d in devices && !Held(locks, d)
  {
    if |devices| > 0 {
      var n := |devices|;
      FreeMembers(devices[..n - 1], locks, d);
      assert devices == devices[..n - 1] + [devices[n - 1]];
    }
  }

  /** The filter keeps device order: the free devices of a concatenation are those of the
      first part followed by those of the second. */
  lemma {:induction false} FreeAppend(a: seq<string>, b: seq<string>, locks: map<string, bool>)
    ensures Free(a + b, locks) == Free(a, locks) + Free(b, locks)
    decreases |b|
  {
    if |b| == 0 {
      assert a + b == a;
    } else {
      var n := |b|;
      assert (a + b)[..|a + b| - 1] == a + b[..n - 1];
      assert (a + b)[|a + b| - 1] == b[n - 1];
      FreeAppend(a, b[..n - 1], locks);
    }
  }

  /** Only the state of the devices' own locks matters. */
  lemma {:induction false} FreeIgnoresOtherLocks(devices: seq<string>, locks: map<string, bool>, name: string, v: bool)
    requires name !in devices
    ensures Free(devices, locks[name := v]) == Free(devices, locks)
  {
    if |devices| > 0 {
      var n := |devices|;
      assert devices[n - 1] in devices;
      assert forall x :: x in devices[..n - 1] ==> x in devices;
      FreeIgnoresOtherLocks(devices[..n - 1], locks, name, v);
    }
  }

  // ---- the worker command ----

  /** `'python3 %s/ctbb_queue_item.py %s %s %s' % (run_dir, qi, dev.name, library_path)`. */
  function WorkerCommand(runDir: string, qi: string, device: string, libPath: string): string
  {
    JoinWith(["python3", runDir + "/ctbb_queue_item.py", qi, device, libPath], ' ')
  }

  /** The worker started with the command, split on spaces as the daemon does, gets the
      queue item, the device and the library as its three arguments, provided none of
      them contains a space. */
  lemma WorkerCommandArgs(runDir: string, qi: string, device: string, libPath: string)
    requires ' ' !in runDir && ' ' !in qi && ' ' !in device && ' ' !in libPath
    ensures Split(WorkerCommand(runDir, qi, device, libPath), ' ')
         == ["python3", runDir + "/ctbb_queue_item.py", qi, device, libPath]
  {
    var args := ["python3", runDir + "/ctbb_queue_item.py", qi, device, libPath];
    assert ' ' !in args[1];
    SplitJoin(args, ' ');
  }

  // ---- events ----

  /** One `f.write('%s\n' % item)` per item, into the truncated queue file. */
  function AppendLines(items: seq<string>): (r: seq<Event>)
    ensures |r| == |items|
    ensures forall k :: 0 <= k < |r| ==> r[k] == AppendQueue(items[k] + "\n")
  {
    if |items| == 0 then [] else AppendLines(items[..|items| - 1]) + [AppendQueue(items[|items| - 1] + "\n")]
  }

  /** Rewriting the queue file with the remaining items. */
  function PopEvents(rest: seq<string>): seq<Event>
  {
    [WriteQueue("")] + AppendLines(rest)
  }

  /** What the i-th free device adds to the events of the dispatch loop: while the queue
      lasts, popping the i-th queue head (which rewrites the file) and starting a worker
      for it. */
  function DispatchStep(q: seq<string>, free: seq<string>, i: nat, runDir: string, libPath: string): (r: seq<Event>)
    requires i < |free|
    ensures LockFree(r)
  {
    if i < |q| then
      var p := PopEvents(q[i + 1..]);
      var r := p + [Spawn(WorkerCommand(runDir, q[i], free[i], libPath))];
      assert forall k :: 0 <= k < |r| ==> r[k] == if k < |p| then p[k] else Spawn(WorkerCommand(runDir, q[i], free[i], libPath));
      r
    else []
  }

  /** The events of the dispatch loop over the free devices. */
  function DispatchTrace(q: seq<string>, free: seq<string>, runDir: string, libPath: string): (r: seq<Event>)
    ensures LockFree(r)
  {
    if |free| == 0 then []
    else
      var i := |free| - 1;
      var prefix := DispatchTrace(q, free[..i], runDir, libPath);
      var step := DispatchStep(q, free, i, runDir, libPath);
      LockFreeAppend(prefix, step);
      prefix + step
  }

  lemma DispatchTraceStep(q: seq<string>, free: seq<string>, i: nat, runDir: string, libPath: string)
    requires i < |free|
    ensures DispatchTrace(q, free[..i + 1], runDir, libPath) == DispatchTrace(q, free[..i], runDir, libPath) + DispatchStep(q, free, i, runDir, libPath)
  {
    assert free[..i + 1][..i] == free[..i];
  }

  /** The commands of the processes started in `t`, in order. */
  function Spawned(t: seq<Event>): seq<string>
  {
    if |t| == 0 then []
    else Spawned(t[..|t| - 1]) + (if t[|t| - 1].Spawn? then [t[|t| - 1].command] else [])
  }

  lemma {:induction false} SpawnedAppend(a: seq<Event>, b: seq<Event>)
    ensures Spawned(a + b) == Spawned(a) + Spawned(b)
    decreases |b|
  {
    if |b| == 0 {
      assert a + b == a;
    } else {
      assert (a + b)[..|a + b| - 1] == a + b[..|b| - 1];
      SpawnedAppend(a, b[..|b| - 1]);
    }
  }

  lemma {:induction false} SpawnedAppendLines(items: seq<string>)
    ensures Spawned(AppendLines(items)) == []
  {
    if |items| > 0 {
      var n := |items|;
      SpawnedAppendLines(items[..n - 1]);
      SpawnedAppend(AppendLines(items[..n - 1]), [AppendQueue(items[n - 1] + "\n")]);
      assert Spawned([AppendQueue(items[n - 1] + "\n")]) == Spawned([]);
    }
  }

  /** The worker command the i-th free device is given, if any. */
  function CommandStep(q: seq<string>, free: seq<string>, i: nat, runDir: string, libPath: string): seq<string>
    requires i < |free|
  {
    if i < |q| then [WorkerCommand(runDir, q[i], free[i], libPath)] else []
  }

  /** The worker commands one iteration starts: the k-th for the k-th queue head on the
      k-th free device, as many as the shorter of the two lists. */
  function Commands(q: seq<string>, free: seq<string>, runDir: string, libPath: string): (r: seq<string>)
    ensures |r| == Min(|q|, |free|)
    ensures forall k :: 0 <= k < |r| ==> r[k] == WorkerCommand(runDir, q[k], free[k], libPath)
  {
    if |free| == 0 then []
    else Commands(q, free[..|free| - 1], runDir, libPath) + CommandStep(q, free, |free| - 1, runDir, libPath)
  }

  lemma SpawnedStep(q: seq<string>, free: seq<string>, i: nat, runDir: string, libPath: string)
    requires i < |free|
    ensures Spawned(DispatchStep(q, free, i, runDir, libPath)) == CommandStep(q, free, i, runDir, libPath)
  {
    if i < |q| {
      var cmd := WorkerCommand(runDir, q[i], free[i], libPath);
      SpawnedAppend(PopEvents(q[i + 1..]), [Spawn(cmd)]);
      SpawnedAppend([WriteQueue("")], AppendLines(q[i + 1..]));
      SpawnedAppendLines(q[i + 1..]);
      assert Spawned([Spawn(cmd)]) == Spawned([]) + [cmd];
      assert Spawned([WriteQueue("")]) == Spawned([]);
    }
  }

  /** The workers one iteration starts are exactly `Commands`: min(K, N) of them for K
      free devices and N queued items, pairing heads and devices in order; leftover
      devices start nothing. */
  lemma {:induction false} DispatchPairs(q: seq<string>, free: seq<string>, runDir: string, libPath: string)
    ensures Spawned(DispatchTrace(q, free, runDir, libPath)) == Commands(q, free, runDir, libPath)
  {
    if |free| > 0 {
      var i := |free| - 1;
      DispatchPairs(q, free[..i], runDir, libPath);
      SpawnedAppend(DispatchTrace(q, free[..i], runDir, libPath), DispatchStep(q, free, i, runDir, libPath));
      SpawnedStep(q, free, i, runDir, libPath);
    }
  }

  /** One pass of the `run` loop: queue lock, queue re-read, dispatch, unlock, and the
      library's recon list refresh. */
  function IterationEvents(dispatch: seq<Event>): seq<Event>
  {
    [Acquire(QueueLock), ReadQueue] + dispatch + [Release(QueueLock), RefreshReconList]
  }

  lemma IterationEventsSplit(e0: seq<Event>, d: seq<Event>)
    ensures e0 + [Acquire(QueueLock)] + [ReadQueue] + d + [Release(QueueLock)] + [RefreshReconList]
         == e0 + IterationEvents(d)
  {
  }

  /** Every queue access of a pass happens under the queue lock, and a pass leaves the
      daemon lock alone. */
  lemma IterationGuarded(dispatch: seq<Event>)
    requires LockFree(dispatch)
    ensures QueueGuarded(IterationEvents(dispatch))
    ensures !Mentions(IterationEvents(dispatch), DaemonLock)
  {
    var m := [ReadQueue] + dispatch;
    forall k | 0 <= k < |m| ensures !m[k].IsLockOp(QueueLock) {
      if k > 0 { assert m[k] == dispatch[k - 1]; }
    }
    GuardedBracket(m);
    GuardedAppend([Acquire(QueueLock)] + m + [Release(QueueLock)], [RefreshReconList]);
    var t := IterationEvents(dispatch);
    assert t == [Acquire(QueueLock)] + m + [Release(QueueLock)] + [RefreshReconList];
    forall k | 0 <= k < |t| ensures !t[k].IsLockOp(DaemonLock) {
      if 0 < k < |t| - 2 { assert t[k] == m[k - 1]; }
    }
  }

  /** Passes appended to guarded events that leave the daemon lock alone stay so. */
  lemma RunStep(run: seq<Event>, dispatch: seq<Event>)
    requires QueueGuarded(run) && !Mentions(run, DaemonLock) && LockFree(dispatch)
    ensures QueueGuarded(run + IterationEvents(dispatch)) && !Mentions(run + IterationEvents(dispatch), DaemonLock)
  {
    IterationGuarded(dispatch);
    GuardedAppend(run, IterationEvents(dispatch));
    NotMentionsAppend(run, IterationEvents(dispatch), DaemonLock);
  }

  /** The daemon's constructor reads the queue under the queue lock. */
  lemma StartupGuarded()
    ensures QueueGuarded([Acquire(QueueLock), ReadQueue, Release(QueueLock)])
  {
    GuardedBracket([ReadQueue]);
    assert [Acquire(QueueLock)] + [ReadQueue] + [Release(QueueLock)] == [Acquire(QueueLock), ReadQueue, Release(QueueLock)];
  }

  /** Writing back any tail of the queue just read and reading it again gives that tail:
      a pop followed by a refresh reproduces the in-memory queue (k = 1), and rewriting
      the whole queue then refreshing changes nothing (k = 0). */
  lemma RefreshAfterRewrite(file: string, k: nat)
    requires k <= |SplitLines(file)|
    ensures SplitLines(Serialize(SplitLines(file)[k..])) == SplitLines(file)[k..]
  {
    var q := SplitLines(file);
    var rest := q[k..];
    forall i | 0 <= i < |rest| ensures NoLineBreak(rest[i]) {
      assert rest[i] == q[k + i];
    }
    SplitLinesSerialize(rest);
  }

  /** The daemon lock is held from the moment it is taken until it is released, and every
      worker is started while it is held. */
  lemma DaemonHeldThroughout(run: seq<Event>)
    requires !Mentions(run, DaemonLock)
    ensures var t := [Acquire(DaemonLock)] + run + [Release(DaemonLock)];
      && (forall k :: 1 <= k < |t| ==> Holds(t[..k], DaemonLock))
      && !Holds(t, DaemonLock)
      && SpawnsUnder(t, DaemonLock)
  {
    Bracketed(DaemonLock, run);
    SpawnsBracket(DaemonLock, run);
  }

  /** The write-back of `pop_queue_item`: the queue file is truncated, then each item is
      appended with its newline, in order. */
  method RewriteQueue(lib: Library, items: seq<string>)
    modifies lib`queueFile, lib`events
    ensures lib.queueFile == Serialize(items)
    ensures lib.events == old(lib.events) + PopEvents(items)
  {
    lib.WriteQueueFile("");
    ghost var e0 := old(lib.events) + [WriteQueue("")];
    var i := 0;
    while i < |items|
      invariant 0 <= i <= |items|
      invariant lib.queueFile == Serialize(items[..i])
      invariant lib.events == e0 + AppendLines(items[..i])
    {
      SerializeSnoc(items, i);
      assert Serialize(items[..i]) + items[i] + "\n" == Serialize(items[..i]) + (items[i] + "\n");
      lib.AppendQueueFile(items[i] + "\n");
      assert items[..i + 1][..i] == items[..i];
      AppendAssoc(e0, AppendLines(items[..i]), [AppendQueue(items[i] + "\n")]);
      i := i + 1;
    }
    assert items[..i] == items;
    AppendAssoc(old(lib.events), [WriteQueue("")], AppendLines(items));
  }

  class Daemon {
    const lib: Library
    /** The directory holding the worker script. */
    const runDir: string
    var devices: seq<string>
    var queue: seq<string>

    /** `__init__`: names the device locks and reads the queue under the queue lock. */
    constructor (lib: Library, runDir: string, n: nat)
      modifies lib`locks, lib`events
      ensures this.lib == lib && this.runDir == runDir
      ensures devices == DeviceNames(n)
      ensures queue == SplitLines(lib.queueFile)
      ensures lib.locks == old(lib.locks)[QueueLock := true][QueueLock := false]
      ensures lib.events == old(lib.events) + [Acquire(QueueLock), ReadQueue, Release(QueueLock)]
    {
      this.lib := lib;
      this.runDir := runDir;
      devices := [];
      queue := [];
      new;
      GetDevices(n);
      LoadQueue();
    }

    /** The end of `__init__`: `refresh_queue` under the queue lock. */
    method LoadQueue()
      modifies this`queue, lib`locks, lib`events
      ensures queue == SplitLines(lib.queueFile)
      ensures lib.locks == old(lib.locks)[QueueLock := true][QueueLock := false]
      ensures lib.events == old(lib.events) + [Acquire(QueueLock), ReadQueue, Release(QueueLock)]
    {
      lib.Lock(QueueLock);
      RefreshQueue();
      lib.Unlock(QueueLock);
    }

    /** `get_devices`, naming only: one lock `dev<i>` per device, in order. */
    method GetDevices(n: nat)
      modifies this`devices
      ensures devices == old(devices) + DeviceNames(n)
    {
      var i := 0;
      while i < n
        invariant 0 <= i <= n
        invariant devices == old(devices) + DeviceNames(i)
      {
        devices := devices + [DeviceName(i)];
        i := i + 1;
      }
    }

    /** `__enter__`. */
    method Enter()
      modifies lib`locks, lib`events
      ensures lib.locks == old(lib.locks)[DaemonLock := true]
      ensures lib.events == old(lib.events) + [Acquire(DaemonLock)]
    {
      lib.Lock(DaemonLock);
    }

    /** `__exit__`. */
    method Exit()
      modifies lib`locks, lib`events
      ensures lib.locks == old(lib.locks)[DaemonLock := false]
      ensures lib.events == old(lib.events) + [Release(DaemonLock)]
    {
      lib.Unlock(DaemonLock);
    }

    /** `refresh_queue`: the queue becomes the lines of the queue file; blank lines become
        empty items. */
    method RefreshQueue()
      modifies this`queue, lib`events
      ensures queue == SplitLines(lib.queueFile)
      ensures lib.events == old(lib.events) + [ReadQueue]
    {
      var contents := lib.ReadQueueFile();
      queue := SplitLines(contents);
    }

    /** `pop_queue_item`: removes and returns the head, then rewrites the queue file as
        the remaining items, one per line. */
    method PopQueueItem() returns (qi: string)
      requires |queue| > 0
      modifies this`queue, lib`queueFile, lib`events
      ensures qi == old(queue)[0] && queue == old(queue)[1..]
      ensures lib.queueFile == Serialize(queue)
      ensures lib.events == old(lib.events) + PopEvents(queue)
    {
      qi := queue[0];
      queue := queue[1..];
      RewriteQueue(lib, queue);
    }

    /** `process_queue_item`: starts a detached worker for `qi` on `device`. */
    method ProcessQueueItem(qi: string, device: string)
      modifies lib`events
      ensures lib.events == old(lib.events) + [Spawn(WorkerCommand(runDir, qi, device, lib.path))]
    {
      lib.Record(Spawn(WorkerCommand(runDir, qi, device, lib.path)));
    }

    /** `get_empty_devices`. */
    method GetEmptyDevices() returns (free: seq<string>)
      ensures free == Free(devices, lib.locks)
    {
      free := [];
      var i := 0;
      while i < |devices|
        invariant 0 <= i <= |devices|
        invariant free == Free(devices[..i], lib.locks)
      {
        if !lib.CheckState(devices[i]) {
          free := free + [devices[i]];
        }
        assert devices[..i + 1][..i] == devices[..i];
        i := i + 1;
      }
      assert devices[..i] == devices;
    }

    /** The body of the dispatch loop for the i-th free device: with the queue not empty,
        pops its head and starts a worker for it; with the queue empty, does nothing. */
    method DispatchOne(free: seq<string>, i: nat, ghost q: seq<string>)
      requires i < |free| && queue == q[Min(|q|, i)..]
      modifies this`queue, lib`queueFile, lib`events
      ensures queue == q[Min(|q|, i + 1)..]
      ensures lib.queueFile == if i < |q| then Serialize(queue) else old(lib.queueFile)
      ensures lib.events == old(lib.events) + DispatchStep(q, free, i, runDir, lib.path)
    {
      if |queue| > 0 {
        assert i < |q| && q[i..][1..] == q[i + 1..];
        var qi := PopQueueItem();
        ProcessQueueItem(qi, free[i]);
      }
    }

    /** The `for dev in self.get_empty_devices()` loop of `run`: each free device pops the
        queue head and starts a worker for it while the queue is not empty. */
    method DispatchAll(free: seq<string>)
      modifies this`queue, lib`queueFile, lib`events
      ensures var q, m := old(queue), Min(|old(queue)|, |free|);
        && queue == q[m..]
        && lib.queueFile == (if m == 0 then old(lib.queueFile) else Serialize(q[m..]))
        && lib.events == old(lib.events) + DispatchTrace(q, free, runDir, lib.path)
    {
      ghost var q, e0 := queue, lib.events;
      var i := 0;
      while i < |free|
        invariant 0 <= i <= |free|
        invariant queue == q[Min(|q|, i)..]
        invariant lib.queueFile == if Min(|q|, i) == 0 then old(lib.queueFile) else Serialize(queue)
        invariant lib.events == e0 + DispatchTrace(q, free[..i], runDir, lib.path)
      {
        ghost var prefix := DispatchTrace(q, free[..i], runDir, lib.path);
        DispatchOne(free, i, q);
        DispatchTraceStep(q, free, i, runDir, lib.path);
        AppendAssoc(e0, prefix, DispatchStep(q, free, i, runDir, lib.path));
        i := i + 1;
      }
      assert free[..i] == free;
    }

    /** One pass of the `run` loop. Afterwards the in-memory queue is what the queue file
        reads as. */
    method Iterate()
      modifies this`queue, lib`locks, lib`queueFile, lib`events
      ensures var q := SplitLines(old(lib.queueFile));
        var free := Free(devices, old(lib.locks)[QueueLock := true]);
        var m := Min(|q|, |free|);
        && queue == q[m..]
        && lib.queueFile == (if m == 0 then old(lib.queueFile) else Serialize(q[m..]))
        && lib.locks == old(lib.locks)[QueueLock := false]
        && lib.events == old(lib.events) + IterationEvents(DispatchTrace(q, free, runDir, lib.path))
      ensures queue == SplitLines(lib.queueFile)
    {
      ghost var e0, f0, l0 := lib.events, lib.queueFile, lib.locks;
      lib.Lock(QueueLock);
      RefreshQueue();
      ghost var q := queue;
      assert q == SplitLines(f0);
      var free := GetEmptyDevices();
      assert free == Free(devices, l0[QueueLock := true]);
      ghost var d := DispatchTrace(q, free, runDir, lib.path);
      ghost var e1 := lib.events;
      assert e1 == e0 + [Acquire(QueueLock), ReadQueue];
      DispatchAll(free);
      assert lib.events == e1 + d;
      lib.Unlock(QueueLock);
      lib.Record(RefreshReconList);
      UpdateTwice(l0, QueueLock, true, false);
      IterationEventsSplit(e0, d);
      ghost var m := Min(|q|, |free|);
      if m > 0 {
        RefreshAfterRewrite(f0, m);
      }
    }

    /** The `with` block of `__main__`: `run` between taking and releasing the daemon
        lock. */
    method Serve(fuel: nat) returns (ghost run: seq<Event>)
      modifies this`queue, lib`locks, lib`queueFile, lib`events
      ensures lib.events == old(lib.events) + ([Acquire(DaemonLock)] + run + [Release(DaemonLock)])
      ensures QueueGuarded(run) && !Mentions(run, DaemonLock)
      ensures !Held(lib.locks, DaemonLock)
    {
      Enter();
      var passes;
      passes, run := Run(fuel);
      Exit();
      AppendAssoc(old(lib.events), [Acquire(DaemonLock)], run);
      AppendAssoc(old(lib.events), [Acquire(DaemonLock)] + run, [Release(DaemonLock)]);
    }

    /** `run`: passes while the in-memory queue is not empty, for at most `fuel` passes.
        It returns the number of passes made; it stops early only on an empty queue. */
    method Run(fuel: nat) returns (passes: nat, ghost run: seq<Event>)
      modifies this`queue, lib`locks, lib`queueFile, lib`events
      ensures passes <= fuel && (passes < fuel ==> queue == [])
      ensures old(queue) == [] ==> passes == 0
      ensures lib.events == old(lib.events) + run
      ensures QueueGuarded(run) && !Mentions(run, DaemonLock)
      ensures passes == 0 ==> queue == old(queue) && lib.queueFile == old(lib.queueFile) && lib.locks == old(lib.locks)
      ensures passes > 0 ==> queue == SplitLines(lib.queueFile) && lib.locks == old(lib.locks)[QueueLock := false]
    {
      passes := 0;
      run := [];
      while passes < fuel && queue != []
        invariant passes <= fuel
        invariant old(queue) == [] ==> passes == 0
        invariant lib.events == old(lib.events) + run
        invariant QueueGuarded(run) && !Mentions(run, DaemonLock)
        invariant passes == 0 ==> queue == old(queue) && lib.queueFile == old(lib.queueFile) && lib.locks == old(lib.locks)
        invariant passes > 0 ==> queue == SplitLines(lib.queueFile) && lib.locks == old(lib.locks)[QueueLock := false]
        decreases fuel - passes
      {
        ghost var before := lib.events;
        ghost var q := SplitLines(lib.queueFile);
        ghost var free := Free(devices, lib.locks[QueueLock := true]);
        Iterate();
        UpdateTwice(old(lib.locks), QueueLock, false, false);
        ghost var pass := IterationEvents(DispatchTrace(q, free, runDir, lib.path));
        RunStep(run, DispatchTrace(q, free, runDir, lib.path));
        AppendAssoc(old(lib.events), run, pass);
        run := run + pass;
        passes := passes + 1;
      }
    }
  }

  /** `__main__`: a daemon is started only when no daemon holds the library's daemon lock;
      it is constructed, takes the daemon lock, runs, and releases it. */
  method DaemonMain(lib: Library, runDir: string, n: nat, fuel: nat) returns (started: bool, ghost run: seq<Event>)
    modifies lib`locks, lib`queueFile, lib`events
    ensures started == !Held(old(lib.locks), DaemonLock)
    ensures !started ==> lib.events == old(lib.events) && lib.locks == old(lib.locks) && lib.queueFile == old(lib.queueFile)
    ensures started ==>
      && lib.events == old(lib.events) + [Acquire(QueueLock), ReadQueue, Release(QueueLock)]
                       + ([Acquire(DaemonLock)] + run + [Release(DaemonLock)])
      && QueueGuarded(run) && !Mentions(run, DaemonLock)
      && !Held(lib.locks, DaemonLock)
  {
    run := [];
    started := !lib.CheckState(DaemonLock);
    if started {
      var d := new Daemon(lib, runDir, n);
      run := d.Serve(fuel);
    }
  }
}
