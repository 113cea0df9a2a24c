/** One running thread: what every run of kernel entries, each followed by the switch point, keeps. */
module KernelRuns {
  import opened PowerOfTwo
  import opened PendingTable
  import opened Threads
  import opened Sched
  import opened Notify
  import opened NotifyRuns

  datatype Entry =
    | YieldEntry
    | StopEntry(t: nat)
    | ContinueEntry(t: nat)
    | KillEntry(t: nat, status: int)
    | CreateEntry(priority: nat)
    | JoinEntry(t: nat)
    | PriorityEntry(priority: nat)
    | NotifyEntry(obj: nat, drop: bool, queue: bool)
    | WaitEntry(obj: nat)

  /** The idle thread is never stopped or killed and never waits. */
  ghost predicate Enabled(n: Notes, hash: Hash, idle: nat, e: Entry)
    requires ValidNotes(n) && |n.table| > 0
  {
    match e
    case StopEntry(t) => t != idle
    case KillEntry(t, _) => t != idle
    case CreateEntry(p) => p <= 255
    case PriorityEntry(p) => p <= 255
    case JoinEntry(t) => t < |n.k.threads| ==> n.k.threads[t].state == Finished
    case NotifyEntry(obj, drop, queue) =>
      IsObject(obj) && (queue && !Wakes(n, obj) ==> Ends(n.table, obj) && NoWrap(n.table, hash, obj))
    case WaitEntry(obj) => IsObject(obj) && Ends(n.table, obj) && n.k.current != idle
    case _ => true
  }

  /** A wait that blocks finds room in the waiter array. */
  ghost predicate Fits(n: Notes, hash: Hash, e: Entry)
    requires ValidNotes(n) && |n.table| > 0
  {
    e.WaitEntry? && Runnable(n.k.threads[n.k.current]) && !Dequeue(n.table, n.size, hash, e.obj).2 ==>
      |n.waiters| < |n.k.threads|
  }

  ghost function Perform(n: Notes, hash: Hash, idle: nat, e: Entry): Notes
    requires ValidNotes(n) && |n.table| > 0 && TableInv(n) && Enabled(n, hash, idle, e)
  {
    match e
    case YieldEntry => n.(k := Yield(n.k))
    case StopEntry(t) => n.(k := Stop(n.k, t).0)
    case ContinueEntry(t) => n.(k := Continue(n.k, t).0)
    case KillEntry(t, status) => n.(k := Kill(n.k, t, status).0)
    case CreateEntry(p) => n.(k := Create(n.k, p))
    case JoinEntry(t) => n.(k := Join(n.k, t).0)
    case PriorityEntry(p) => n.(k := SetPriority(n.k, p))
    case NotifyEntry(obj, drop, queue) => NotifyObject(n, hash, obj, drop, queue).0
    case WaitEntry(obj) => WaitForObject(n, hash, obj).0
  }

  /** Only the current thread may be in the running state. */
  ghost predicate AtMostOneRunning(k: Kernel) {
    forall t :: 0 <= t < |k.threads| && k.threads[t].state == Running ==> t == k.current
  }

  /** After a switch point: exactly the current thread is running and no switch is outstanding. */
  ghost predicate Settled(k: Kernel, idle: nat) {
    && ValidKernel(k)
    && AtMostOneRunning(k)
    && k.threads[k.current].state == Running
    && !k.pending
    && idle < |k.threads| && Runnable(k.threads[idle])
  }

  /** Between a kernel entry and its switch point. */
  ghost predicate Entered(k: Kernel, idle: nat) {
    && ValidKernel(k)
    && AtMostOneRunning(k)
    && (if k.pending then k.next != k.current && Runnable(k.threads[k.next]) else k.threads[k.current].state == Running)
    && idle < |k.threads| && Runnable(k.threads[idle])
  }

  lemma SwitchSettles(k: Kernel, idle: nat)
    requires Entered(k, idle)
    ensures Settled(Switch(k), idle)
  {
  }

  /** With a runnable idle thread a yield always finds somebody to run. */
  lemma YieldEnters(k: Kernel, idle: nat)
    requires ValidKernel(k) && AtMostOneRunning(k) && k.threads[k.current].state != Ready
    requires idle < |k.threads| && Runnable(k.threads[idle])
    ensures Entered(Yield(k), idle)
  {
  }

  lemma ContinueEnters(k: Kernel, idle: nat, t: nat)
    requires Settled(k, idle)
    ensures Entered(Continue(k, t).0, idle)
  {
  }

  lemma StopEnters(k: Kernel, idle: nat, t: nat)
    requires Settled(k, idle) && t != idle
    ensures Entered(Stop(k, t).0, idle)
  {
    if t == k.current {
      YieldEnters(SetState(k, t, Stopped), idle);
    }
  }

  lemma KillEnters(k: Kernel, idle: nat, t: nat, status: int)
    requires Settled(k, idle) && t != idle
    ensures Entered(Kill(k, t, status).0, idle)
  {
    if t == k.current {
      YieldEnters(Killed(k, t, status), idle);
    }
  }

  lemma PriorityEnters(k: Kernel, idle: nat, priority: nat)
    requires Settled(k, idle) && priority <= 255
    ensures Entered(SetPriority(k, priority), idle)
  {
  }

  lemma CreateEnters(k: Kernel, idle: nat, priority: nat)
    requires Settled(k, idle) && priority <= 255
    ensures Entered(Create(k, priority), idle)
  {
  }

  lemma WakeEntry(n: Notes, idle: nat, b: nat, drop: bool)
    requires ValidNotes(n) && Settled(n.k, idle) && b < |n.waiters|
    ensures Entered(WakeWaiter(n, b, drop).k, idle)
  {
  }

  lemma BlockEntry(n: Notes, idle: nat, obj: nat)
    requires ValidNotes(n) && Settled(n.k, idle) && n.k.current != idle
    ensures Entered(Block(n, obj).k, idle)
  {
    var c := n.k.current;
    YieldEnters(n.k.(threads := n.k.threads[c := n.k.threads[c].(state := Waiting, waitObject := obj)]), idle);
  }

  /** Every kernel entry made by a settled kernel leaves at most the current thread running, and the switch
      point settles it again. */
  lemma EntryThenSwitch(n: Notes, hash: Hash, idle: nat, e: Entry)
    requires ValidNotes(n) && |n.table| > 0 && TableInv(n) && Settled(n.k, idle) && Enabled(n, hash, idle, e)
    ensures var m := Perform(n, hash, idle, e);
            Entered(m.k, idle) && Settled(Switch(m.k), idle)
  {
    var m := Perform(n, hash, idle, e);
    match e {
      case YieldEntry => YieldEnters(n.k, idle);
      case StopEntry(t) => StopEnters(n.k, idle, t);
      case ContinueEntry(t) => ContinueEnters(n.k, idle, t);
      case KillEntry(t, status) => KillEnters(n.k, idle, t, status);
      case CreateEntry(p) => CreateEnters(n.k, idle, p);
      case PriorityEntry(p) => PriorityEnters(n.k, idle, p);
      case JoinEntry(t) =>
      case NotifyEntry(obj, drop, queue) =>
        var b := BestWaiter(n.k.threads, n.waiters, obj, |n.waiters|);
        if b != NO_WAITER {
          WakeEntry(n, idle, b, drop);
        }
      case WaitEntry(obj) => BlockEntry(n, idle, obj);
    }
    SwitchSettles(m.k, idle);
  }

  lemma NotifyKeepsTable(n: Notes, hash: Hash, obj: nat, drop: bool, queue: bool)
    requires ValidNotes(n) && |n.table| > 0 && TableInv(n) && Enabled(n, hash, 0, NotifyEntry(obj, drop, queue))
    ensures var m := NotifyObject(n, hash, obj, drop, queue).0;
            |m.table| == |n.table| && TableInv(m) && |m.k.threads| == |n.k.threads|
            && |m.waiters| <= |n.waiters| && forall i :: 0 <= i < |m.waiters| ==> m.waiters[i] in n.waiters
  {
    if queue && !Wakes(n, obj) {
      var p: nat :| |n.table| == Pow2(p);
      QueueCounts(p, n.table, n.size, hash, obj);
      QueueRange(n.table, n.size, hash, obj);
    }
  }

  lemma WaitKeepsTable(n: Notes, hash: Hash, obj: nat)
    requires ValidNotes(n) && |n.table| > 0 && TableInv(n) && IsObject(obj) && Ends(n.table, obj)
    ensures var m := WaitForObject(n, hash, obj).0;
            |m.table| == |n.table| && TableInv(m) && |m.k.threads| == |n.k.threads|
            && (m.waiters == n.waiters || m.waiters == n.waiters + [n.k.current])
  {
    var p: nat :| |n.table| == Pow2(p);
    DequeueCounts(p, n.table, n.size, hash, obj);
    DequeueRange(n.table, n.size, hash, obj);
  }

  lemma PerformKeepsShape(n: Notes, hash: Hash, idle: nat, e: Entry)
    requires ValidNotes(n) && |n.table| > 0 && TableInv(n) && Settled(n.k, idle) && Enabled(n, hash, idle, e) && Fits(n, hash, e)
    ensures var m := Perform(n, hash, idle, e); ValidNotes(m) && |m.table| > 0 && TableInv(m)
  {
    EntryThenSwitch(n, hash, idle, e);
    match e {
      case NotifyEntry(obj, drop, queue) => NotifyKeepsTable(n, hash, obj, drop, queue);
      case WaitEntry(obj) => WaitKeepsTable(n, hash, obj);
      case _ => SameTable(n, Perform(n, hash, idle, e).k);
    }
  }

  lemma SameTable(n: Notes, k: Kernel)
    requires ValidNotes(n) && TableInv(n) && ValidKernel(k) && |k.threads| == |n.k.threads|
    ensures ValidNotes(n.(k := k)) && TableInv(n.(k := k))
  {
  }

  ghost predicate Steady(n: Notes, idle: nat) {
    ValidNotes(n) && |n.table| > 0 && TableInv(n) && Settled(n.k, idle)
  }

  ghost function Round(n: Notes, hash: Hash, idle: nat, e: Entry): (m: Notes)
    requires Steady(n, idle) && Enabled(n, hash, idle, e) && Fits(n, hash, e)
    ensures Steady(m, idle)
  {
    var entered := Perform(n, hash, idle, e);
    EntryThenSwitch(n, hash, idle, e);
    PerformKeepsShape(n, hash, idle, e);
    entered.(k := Switch(entered.k))
  }

  ghost predicate ValidRun(n: Notes, hash: Hash, idle: nat, es: seq<Entry>)
    requires Steady(n, idle)
    decreases |es|
  {
    es == [] || (Enabled(n, hash, idle, es[0]) && Fits(n, hash, es[0]) && ValidRun(Round(n, hash, idle, es[0]), hash, idle, es[1..]))
  }

  ghost function Run(n: Notes, hash: Hash, idle: nat, es: seq<Entry>): (m: Notes)
    requires Steady(n, idle) && ValidRun(n, hash, idle, es)
    ensures Steady(m, idle)
    decreases |es|
  {
    if es == [] then n else Run(Round(n, hash, idle, es[0]), hash, idle, es[1..])
  }

  /** In every run, as long as the waiter array has room, exactly one thread is running after each switch point and it is
      the current one; during the next kernel entry at most the current one is. */
  lemma OneRunningThread(n: Notes, hash: Hash, idle: nat, es: seq<Entry>, e: Entry)
    requires Steady(n, idle) && ValidRun(n, hash, idle, es) && Enabled(Run(n, hash, idle, es), hash, idle, e)
    ensures var m := Run(n, hash, idle, es);
            && (forall t :: 0 <= t < |m.k.threads| ==> (m.k.threads[t].state == Running <==> t == m.k.current))
            && AtMostOneRunning(Perform(m, hash, idle, e).k)
  {
    EntryThenSwitch(Run(n, hash, idle, es), hash, idle, e);
  }
}
