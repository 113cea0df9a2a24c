/** The waiter list across the whole thread life cycle: which runs keep it right and inside its array
    (src/os/kernel/notify.c, sched.c). */
module WaiterRuns {
  import opened Algo
  import opened PendingTable
  import opened Threads
  import opened Sched
  import opened Notify
  import opened NotifyRuns
  import opened KernelRuns

  // ------------------------------------------------------------- one entry

  /** The entry kills a thread that waits for an object. */
  ghost predicate KillsWaiter(n: Notes, e: KernelRuns.Entry) {
    e.KillEntry? && e.t < |n.k.threads| && n.k.threads[e.t].state == Waiting
  }

  /** The same threads wait for the same objects. */
  ghost predicate SameWaiting(a: Kernel, b: Kernel) {
    && |a.threads| == |b.threads|
    && forall t :: 0 <= t < |a.threads| ==>
         (a.threads[t].state == Waiting <==> b.threads[t].state == Waiting) && a.threads[t].waitObject == b.threads[t].waitObject
  }

  lemma SameWaitingKeeps(n: Notes, k: Kernel)
    requires SameWaiting(n.k, k)
    ensures ListInv(n) <==> ListInv(n.(k := k))
  {
  }

  /** After a kill the list is right exactly when the thread was not waiting. */
  lemma KillKeepsListIff(n: Notes, t: nat, status: int)
    requires ValidNotes(n) && ListInv(n)
    ensures ListInv(n.(k := Kill(n.k, t, status).0)) <==> !(t < |n.k.threads| && n.k.threads[t].state == Waiting)
  {
    var k := Kill(n.k, t, status).0;
    if t < |n.k.threads| && n.k.threads[t].state == Waiting {
      assert t in n.waiters && k.threads[t].state == Finished;
    } else {
      SameWaitingKeeps(n, k);
    }
  }

  /** The same with the order of arrival. */
  lemma KillKeepsWaitersIff(w: World, t: nat, status: int)
    requires WaitersInv(w)
    ensures WaitersInv(w.(n := w.n.(k := Kill(w.n.k, t, status).0))) <==>
              !(t < |w.n.k.threads| && w.n.k.threads[t].state == Waiting)
  {
    KillKeepsListIff(w.n, t, status);
  }

  lemma WakeKeepsList(n: Notes, b: nat, drop: bool)
    requires ValidNotes(n) && ListInv(n) && b < |n.waiters|
    ensures ListInv(WakeWaiter(n, b, drop))
  {
    WakeTouchesOne(n, b, drop);
    WithoutMembers(n.waiters, b);
  }

  lemma BlockKeepsList(n: Notes, obj: nat)
    requires ValidNotes(n) && ListInv(n) && obj != 0 && n.k.threads[n.k.current].state != Waiting
    ensures ListInv(Block(n, obj))
  {
    assert n.k.current !in n.waiters;
  }

  lemma StopKeepsWaiting(k: Kernel, t: nat)
    requires ValidKernel(k)
    ensures SameWaiting(k, Stop(k, t).0) && SameWaiting(k, Continue(k, t).0)
  {
  }

  /** A slot that is free for a new thread is no waiting one. */
  lemma CreateKeepsWaiting(n: Notes, priority: nat)
    requires ValidNotes(n) && ListInv(n) && priority <= 255
    ensures SameWaiting(n.k, Create(n.k, priority))
  {
  }

  /** The kernel operations other than kill neither start nor end a wait. */
  lemma LifeKeepsWaiting(n: Notes, hash: Hash, idle: nat, e: KernelRuns.Entry)
    requires Steady(n, idle) && KernelRuns.Enabled(n, hash, idle, e) && ListInv(n)
    requires !e.KillEntry? && !e.NotifyEntry? && !e.WaitEntry?
    ensures SameWaiting(n.k, Perform(n, hash, idle, e).k)
  {
    match e {
      case StopEntry(t) => StopKeepsWaiting(n.k, t);
      case ContinueEntry(t) => StopKeepsWaiting(n.k, t);
      case CreateEntry(p) => CreateKeepsWaiting(n, p);
      case _ =>
    }
  }

  /** The switch point neither starts nor ends a wait. */
  lemma SwitchKeepsWaiting(k: Kernel, idle: nat)
    requires Entered(k, idle)
    ensures SameWaiting(k, Switch(k))
  {
  }

  lemma PerformKeepsList(n: Notes, hash: Hash, idle: nat, e: KernelRuns.Entry)
    requires Steady(n, idle) && KernelRuns.Enabled(n, hash, idle, e) && ListInv(n)
    ensures ListInv(Perform(n, hash, idle, e)) <==> !KillsWaiter(n, e)
  {
    match e {
      case KillEntry(t, status) => KillKeepsListIff(n, t, status);
      case NotifyEntry(obj, drop, queue) =>
        if Wakes(n, obj) {
          WakeKeepsList(n, BestWaiter(n.k.threads, n.waiters, obj, |n.waiters|), drop);
        }
      case WaitEntry(obj) => BlockKeepsList(n, obj);
      case _ =>
        LifeKeepsWaiting(n, hash, idle, e);
        SameWaitingKeeps(n, Perform(n, hash, idle, e).k);
    }
  }

  /** Any kernel entry with its switch point leaves the list right exactly when it does not kill a waiting thread. */
  lemma RoundKeepsListIff(n: Notes, hash: Hash, idle: nat, e: KernelRuns.Entry)
    requires Steady(n, idle) && KernelRuns.Enabled(n, hash, idle, e) && Fits(n, hash, e) && ListInv(n)
    ensures ListInv(Round(n, hash, idle, e)) <==> !KillsWaiter(n, e)
  {
    var m := Perform(n, hash, idle, e);
    PerformKeepsList(n, hash, idle, e);
    EntryThenSwitch(n, hash, idle, e);
    SwitchKeepsWaiting(m.k, idle);
    SameWaitingKeeps(m, Switch(m.k));
  }

  // ------------------------------------------------------------- whole runs

  /** The list is right at the start of the run and after each of its entries. */
  ghost predicate AlwaysRight(n: Notes, hash: Hash, idle: nat, es: seq<KernelRuns.Entry>)
    requires Steady(n, idle) && KernelRuns.ValidRun(n, hash, idle, es)
    decreases |es|
  {
    ListInv(n) && (es == [] || AlwaysRight(Round(n, hash, idle, es[0]), hash, idle, es[1..]))
  }

  ghost predicate KillsNoWaiter(n: Notes, hash: Hash, idle: nat, es: seq<KernelRuns.Entry>)
    requires Steady(n, idle) && KernelRuns.ValidRun(n, hash, idle, es)
    decreases |es|
  {
    es == [] || (!KillsWaiter(n, es[0]) && KillsNoWaiter(Round(n, hash, idle, es[0]), hash, idle, es[1..]))
  }

  /** The list is right throughout a run if and only if the run kills no waiting thread. */
  lemma {:induction false} AlwaysRightIff(n: Notes, hash: Hash, idle: nat, es: seq<KernelRuns.Entry>)
    requires Steady(n, idle) && ListInv(n) && KernelRuns.ValidRun(n, hash, idle, es)
    ensures AlwaysRight(n, hash, idle, es) <==> KillsNoWaiter(n, hash, idle, es)
    decreases |es|
  {
    if es != [] {
      RoundKeepsListIff(n, hash, idle, es[0]);
      if !KillsWaiter(n, es[0]) {
        AlwaysRightIff(Round(n, hash, idle, es[0]), hash, idle, es[1..]);
      }
    }
  }

  /** A list of the waiting threads has room for the caller. */
  lemma RightListFits(n: Notes, hash: Hash, e: KernelRuns.Entry)
    requires ValidNotes(n) && |n.table| > 0 && ListInv(n)
    ensures Fits(n, hash, e)
  {
    var c := n.k.current;
    if Runnable(n.k.threads[c]) {
      assert c !in n.waiters;
      ListBound(n.waiters + [c], |n.k.threads|);
    }
  }

  /** A run of entries that kill no waiting thread; that the waiter array has room is not asked for. */
  ghost predicate CalmRun(n: Notes, hash: Hash, idle: nat, es: seq<KernelRuns.Entry>)
    requires Steady(n, idle) && ListInv(n)
    decreases |es|
  {
    es == [] ||
    (KernelRuns.Enabled(n, hash, idle, es[0]) && !KillsWaiter(n, es[0]) &&
     (RightListFits(n, hash, es[0]); RoundKeepsListIff(n, hash, idle, es[0]); CalmRun(Round(n, hash, idle, es[0]), hash, idle, es[1..])))
  }

  /** In every run that kills no waiting thread the list holds exactly the waiting threads, never outgrows its array, and
      has room for whoever waits next. */
  lemma {:induction false} ListNeverOverflows(n: Notes, hash: Hash, idle: nat, es: seq<KernelRuns.Entry>, e: KernelRuns.Entry)
    requires Steady(n, idle) && ListInv(n) && CalmRun(n, hash, idle, es)
    ensures KernelRuns.ValidRun(n, hash, idle, es)
    ensures var m := KernelRuns.Run(n, hash, idle, es); ListInv(m) && |m.waiters| <= |m.k.threads| && Fits(m, hash, e)
    decreases |es|
  {
    if es == [] {
      RightListFits(n, hash, e);
    } else {
      RightListFits(n, hash, es[0]);
      RoundKeepsListIff(n, hash, idle, es[0]);
      ListNeverOverflows(Round(n, hash, idle, es[0]), hash, idle, es[1..], e);
    }
  }

  /** In every run that kills no waiting thread exactly the current thread is running after each switch point. */
  lemma OneRunningInCalmRuns(n: Notes, hash: Hash, idle: nat, es: seq<KernelRuns.Entry>)
    requires Steady(n, idle) && ListInv(n) && CalmRun(n, hash, idle, es)
    ensures KernelRuns.ValidRun(n, hash, idle, es)
    ensures var m := KernelRuns.Run(n, hash, idle, es);
            forall t :: 0 <= t < |m.k.threads| ==> (m.k.threads[t].state == Running <==> t == m.k.current)
  {
    ListNeverOverflows(n, hash, idle, es, YieldEntry);
    OneRunningThread(n, hash, idle, es, YieldEntry);
  }

  /** What the scan for a waiter asserts of the list, in builds that have assertions. */
  ghost predicate ScanAsserts(n: Notes)
    requires ValidNotes(n)
  {
    forall i :: 0 <= i < |n.waiters| ==> n.k.threads[n.waiters[i]].state == Waiting
  }

  lemma KilledStaysListed(n: Notes, b: nat, status: int)
    requires ValidNotes(n) && b < |n.waiters| && n.k.threads[n.waiters[b]].state == Waiting
    ensures var t := n.waiters[b]; var killed := n.(k := Kill(n.k, t, status).0);
            && killed.k.threads[t] == n.k.threads[t].(state := Finished, exitStatus := status, stackId := NO_STACK)
            && ValidNotes(killed) && !ScanAsserts(killed)
  {
    assert n.waiters[b] in n.waiters;
  }

  /** A killed waiter stays on the list. The scan of the next notification trips over it where assertions are built in;
      where they are not, a notification of its object makes the finished thread ready again, without a stack. */
  lemma KilledWaiterRevives(n: Notes, hash: Hash, b: nat, status: int)
    requires ValidNotes(n) && |n.table| > 0 && b < |n.waiters|
    requires var t := n.waiters[b];
             && t != n.k.current && n.k.threads[t].state == Waiting && IsObject(n.k.threads[t].waitObject)
             && BestWaiter(n.k.threads, n.waiters, n.k.threads[t].waitObject, |n.waiters|) == b
    ensures var t := n.waiters[b];
            var killed := n.(k := Kill(n.k, t, status).0);
            var after := NotifyObject(killed, hash, n.k.threads[t].waitObject, false, false).0;
            && killed.k.threads[t].state == Finished && t in killed.waiters
            && ValidNotes(killed) && !ScanAsserts(killed)
            && after.k.threads[t].state == Ready && after.k.threads[t].stackId == NO_STACK
  {
    var t := n.waiters[b];
    var obj := n.k.threads[t].waitObject;
    var killed := n.(k := Kill(n.k, t, status).0);
    KilledStaysListed(n, b, status);
    SameWaiters(n.k.threads, killed.k.threads, n.waiters, obj, |n.waiters|);
  }

  /** The choice of a waiter looks only at wait objects and priorities. */
  lemma {:induction false} SameWaiters(a: seq<Thread>, b: seq<Thread>, waiters: seq<nat>, obj: nat, n: nat)
    requires |a| == |b| && n <= |waiters| <= 0xFF && forall i :: 0 <= i < |waiters| ==> waiters[i] < |a|
    requires forall t :: 0 <= t < |a| ==> a[t].waitObject == b[t].waitObject && a[t].priority == b[t].priority
    ensures BestWaiter(a, waiters, obj, n) == BestWaiter(b, waiters, obj, n)
  {
    if n > 0 {
      SameWaiters(a, b, waiters, obj, n - 1);
    }
  }
}
