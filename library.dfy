/** The state the pipeline's processes share through one library directory: the named
    locks of the lock directory, the queue file, the "done" and "error" ledgers, the
    directory tree under the library and the text files written into it. Every effect
    that matters for ordering is also appended to a ghost trace of events, so that
    properties such as "the queue file is only touched while the queue lock is held"
    can be stated about a run. */
module PipelineLibrary {
  import opened Paths

  /** Names of the locks (and of the ledgers they guard) under `<library>/.proc/mutex`. */
  const QueueLock: string := "queue"
  const DaemonLock: string := "daemon"
  const DoneLedger: string := "done"
  const ErrorLedger: string := "error"

  /** The stages of one queue item's run, in the order the worker attempts them. */
  datatype Stage = FetchRaw | InitializeStudy | SimulateDose | AssemblePrm | Reconstruct | CleanUp

  datatype Event =
    | Acquire(name: string)
    | Release(name: string)
    | ReadQueue
    | WriteQueue(contents: string)          // the queue file rewritten as a whole
    | AppendQueue(text: string)             // text appended to the queue file
    | Spawn(command: string)                // a detached process started (Popen)
    | Call(command: string)                 // a process run to completion (subprocess.call)
    | Enter(stage: Stage)
    | AppendLedger(ledger: string, line: string)
    | RefreshReconList                      // the library's own bookkeeping call
  {
    predicate TouchesQueue()
    {
      ReadQueue? || WriteQueue? || AppendQueue?
    }

    predicate IsLockOp(n: string)
    {
      (Acquire? || Release?) && name == n
    }
  }

  /** Lock `name` is taken in the lock state `locks`; a lock never taken is free. */
  function Held(locks: map<string, bool>, name: string): bool
  {
    name in locks && locks[name]
  }

  /** Some event of `t` acquires or releases lock `n`. */
  predicate Mentions(t: seq<Event>, n: string)
  {
    exists k :: 0 <= k < |t| && t[k].IsLockOp(n)
  }

  /** After the events `t`, the lock `n` is held by the process that produced them:
      its last acquire or release in `t` is an acquire. */
  function Holds(t: seq<Event>, n: string): bool
  {
    if |t| == 0 then false
    else if t[|t| - 1].IsLockOp(n) then t[|t| - 1].Acquire?
    else Holds(t[..|t| - 1], n)
  }

  lemma {:induction false} HoldsMentions(t: seq<Event>, n: string)
    ensures Holds(t, n) ==> Mentions(t, n)
  {
    if |t| > 0 && !t[|t| - 1].IsLockOp(n) {
      HoldsMentions(t[..|t| - 1], n);
      if Holds(t, n) {
        var k :| 0 <= k < |t| - 1 && t[..|t| - 1][k].IsLockOp(n);
        assert t[k].IsLockOp(n);
      }
    }
  }

  /** The lock state after `a + b` is decided by `b` when `b` touches the lock, by `a` otherwise. */
  lemma {:induction false} HoldsAppend(a: seq<Event>, b: seq<Event>, n: string)
    ensures Holds(a + b, n) == if Mentions(b, n) then Holds(b, n) else Holds(a, n)
    decreases |b|
  {
    if |b| == 0 {
      assert a + b == a;
    } else {
      var last := b[|b| - 1];
      assert (a + b)[|a + b| - 1] == last;
      assert (a + b)[..|a + b| - 1] == a + b[..|b| - 1];
      HoldsAppend(a, b[..|b| - 1], n);
      if !last.IsLockOp(n) {
        if Mentions(b, n) {
          var k :| 0 <= k < |b| && b[k].IsLockOp(n);
          assert b[..|b| - 1][k] == b[k];
        }
        if Mentions(b[..|b| - 1], n) {
          var k :| 0 <= k < |b| - 1 && b[..|b| - 1][k].IsLockOp(n);
          assert b[k].IsLockOp(n);
        }
      }
    }
  }

  /** Taking `n`, doing things that leave `n` alone and releasing `n` holds `n` throughout
      and releases it at the end. */
  lemma Bracketed(n: string, m: seq<Event>)
    requires !Mentions(m, n)
    ensures var t := [Acquire(n)] + m + [Release(n)];
      (forall k :: 1 <= k < |t| ==> Holds(t[..k], n)) && !Holds(t, n)
  {
    var t := [Acquire(n)] + m + [Release(n)];
    forall k | 1 <= k < |t| ensures Holds(t[..k], n) {
      var p := m[..k - 1];
      assert t[..k] == [Acquire(n)] + p;
      forall i | 0 <= i < |p| ensures !p[i].IsLockOp(n) {
        assert p[i] == m[i];
      }
      HoldsAppend([Acquire(n)], p, n);
    }
  }

  lemma AppendAssoc(a: seq<Event>, b: seq<Event>, c: seq<Event>)
    ensures a + b + c == a + (b + c)
  {
  }

  lemma UpdateTwice(m: map<string, bool>, n: string, a: bool, b: bool)
    ensures m[n := a][n := b] == m[n := b]
  {
  }

  /** No event of `t` takes or releases any lock. */
  predicate LockFree(t: seq<Event>)
  {
    forall k :: 0 <= k < |t| ==> !t[k].Acquire? && !t[k].Release?
  }

  /** Lock-free pieces stay lock-free when run one after another. */
  lemma LockFreeAppend(a: seq<Event>, b: seq<Event>)
    requires LockFree(a) && LockFree(b)
    ensures LockFree(a + b)
  {
    forall k | 0 <= k < |a + b| ensures !(a + b)[k].Acquire? && !(a + b)[k].Release? {
      if k < |a| {
        assert (a + b)[k] == a[k];
      } else {
        assert (a + b)[k] == b[k - |a|];
      }
    }
  }

  lemma NotMentionsAppend(a: seq<Event>, b: seq<Event>, n: string)
    requires !Mentions(a, n) && !Mentions(b, n)
    ensures !Mentions(a + b, n)
  {
    forall k | 0 <= k < |a + b| ensures !(a + b)[k].IsLockOp(n) {
      if k < |a| {
        assert (a + b)[k] == a[k];
      } else {
        assert (a + b)[k] == b[k - |a|];
      }
    }
  }

  /** Every read, rewrite or append of the queue file in `t` happens while `t` holds the queue lock. */
  predicate QueueGuarded(t: seq<Event>)
  {
    forall k :: 0 <= k < |t| && t[k].TouchesQueue() ==> Holds(t[..k], QueueLock)
  }

  /** Guarded pieces stay guarded when run one after another, whatever ran before. */
  lemma GuardedAppend(a: seq<Event>, b: seq<Event>)
    requires QueueGuarded(a) && QueueGuarded(b)
    ensures QueueGuarded(a + b)
  {
    forall k | 0 <= k < |a + b| && (a + b)[k].TouchesQueue()
      ensures Holds((a + b)[..k], QueueLock)
    {
      if k < |a| {
        assert (a + b)[..k] == a[..k];
      } else {
        var j := k - |a|;
        assert (a + b)[..k] == a + b[..j];
        assert b[j] == (a + b)[k];
        HoldsMentions(b[..j], QueueLock);
        HoldsAppend(a, b[..j], QueueLock);
      }
    }
  }

  /** Every process started in `t` is started while `t` holds lock `n`. */
  predicate SpawnsUnder(t: seq<Event>, n: string)
  {
    forall k :: 0 <= k < |t| && t[k].Spawn? ==> Holds(t[..k], n)
  }

  /** Queue accesses between taking and releasing the queue lock are guarded by it. */
  lemma GuardedBracket(m: seq<Event>)
    requires !Mentions(m, QueueLock)
    ensures QueueGuarded([Acquire(QueueLock)] + m + [Release(QueueLock)])
  {
    Bracketed(QueueLock, m);
    var t := [Acquire(QueueLock)] + m + [Release(QueueLock)];
    assert t[0] == Acquire(QueueLock);
  }

  /** Processes started between taking and releasing lock `n` are started under it. */
  lemma SpawnsBracket(n: string, m: seq<Event>)
    requires !Mentions(m, n)
    ensures SpawnsUnder([Acquire(n)] + m + [Release(n)], n)
  {
    Bracketed(n, m);
    var t := [Acquire(n)] + m + [Release(n)];
    assert t[0] == Acquire(n);
  }

  class Library {
    /** The library root and the subdirectories the library collaborator fixes under it. */
    const path: string
    const rawDir: string
    const reconDir: string

    var locks: map<string, bool>
    var queueFile: string
    var doneLedger: string
    var errorLedger: string
    /** The file names in each directory the model creates or fills, by path. */
    var dirs: map<string, set<string>>
    /** The contents of the text files the model writes other than queue and ledgers. */
    var texts: map<string, string>
    ghost var events: seq<Event>

    constructor (path: string, locks: map<string, bool>, queueFile: string,
                 doneLedger: string, errorLedger: string, dirs: map<string, set<string>>)
      ensures this.path == path && rawDir == Join(path, "raw") && reconDir == Join(path, "recon")
      ensures this.locks == locks && this.queueFile == queueFile
      ensures this.doneLedger == doneLedger && this.errorLedger == errorLedger
      ensures this.dirs == dirs && texts == map[] && events == []
    {
      this.path := path;
      rawDir := Join(path, "raw");
      reconDir := Join(path, "recon");
      this.locks := locks;
      this.queueFile := queueFile;
      this.doneLedger := doneLedger;
      this.errorLedger := errorLedger;
      this.dirs := dirs;
      texts := map[];
      events := [];
    }

    /** `mutex(name).check_state()`: whether the lock's marker is present. */
    function CheckState(name: string): bool
      reads this
    {
      Held(locks, name)
    }

    /** `mutex(name).lock()`. Waiting for another process to release it is not modelled. */
    method Lock(name: string)
      modifies this`locks, this`events
      ensures locks == old(locks)[name := true]
      ensures events == old(events) + [Acquire(name)]
    {
      locks := locks[name := true];
      events := events + [Acquire(name)];
    }

    /** `mutex(name).unlock()`. */
    method Unlock(name: string)
      modifies this`locks, this`events
      ensures locks == old(locks)[name := false]
      ensures events == old(events) + [Release(name)]
    {
      locks := locks[name := false];
      events := events + [Release(name)];
    }

    /** `open(queue).read()`. */
    method ReadQueueFile() returns (contents: string)
      modifies this`events
      ensures contents == queueFile
      ensures events == old(events) + [ReadQueue]
    {
      contents := queueFile;
      events := events + [ReadQueue];
    }

    /** `open(queue, 'w')` followed by writing `contents`. */
    method WriteQueueFile(contents: string)
      modifies this`queueFile, this`events
      ensures queueFile == contents
      ensures events == old(events) + [WriteQueue(contents)]
    {
      queueFile := contents;
      events := events + [WriteQueue(contents)];
    }

    /** `open(queue, 'a')` followed by writing `text`. */
    method AppendQueueFile(text: string)
      modifies this`queueFile, this`events
      ensures queueFile == old(queueFile) + text
      ensures events == old(events) + [AppendQueue(text)]
    {
      queueFile := queueFile + text;
      events := events + [AppendQueue(text)];
    }

    /** `open(<library>/.proc/<ledger>, 'a')` followed by writing `line`. */
    method AppendLedgerFile(ledger: string, line: string)
      requires ledger == DoneLedger || ledger == ErrorLedger
      modifies this`doneLedger, this`errorLedger, this`events
      ensures doneLedger == if ledger == DoneLedger then old(doneLedger) + line else old(doneLedger)
      ensures errorLedger == if ledger == ErrorLedger then old(errorLedger) + line else old(errorLedger)
      ensures events == old(events) + [AppendLedger(ledger, line)]
    {
      if ledger == DoneLedger {
        doneLedger := doneLedger + line;
      } else {
        errorLedger := errorLedger + line;
      }
      events := events + [AppendLedger(ledger, line)];
    }

    method Record(e: Event)
      modifies this`events
      ensures events == old(events) + [e]
    {
      events := events + [e];
    }

    /** `os.makedirs(p)` when `p` is not yet a directory. */
    method MakeDirs(p: string)
      modifies this`dirs
      ensures dirs == if p in old(dirs) then old(dirs) else old(dirs)[p := {}]
    {
      if p !in dirs {
        dirs := dirs[p := {}];
      }
    }

    /** Creates (or truncates) files with the given names in directory `p`. */
    method AddFiles(p: string, names: set<string>)
      modifies this`dirs
      ensures dirs == old(dirs)[p := (if p in old(dirs) then old(dirs)[p] else {}) + names]
    {
      var present := if p in dirs then dirs[p] else {};
      dirs := dirs[p := present + names];
    }

    /** Writes the text file at `p` with the given contents. */
    method WriteText(p: string, contents: string)
      modifies this`texts
      ensures texts == old(texts)[p := contents]
    {
      texts := texts[p := contents];
    }

    /** `open(p, 'a')` followed by writing `text`; a missing file is created. */
    method AppendText(p: string, text: string)
      modifies this`texts
      ensures texts == old(texts)[p := (if p in old(texts) then old(texts)[p] else "") + text]
    {
      var present := if p in texts then texts[p] else "";
      texts := texts[p := present + text];
    }
  }
}
