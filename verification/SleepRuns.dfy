/** Sleeping threads: what the end of a sleep does to the thread table (src/os/kernel/timer.c, sched.c). */
module SleepRuns {
  import opened Threads
  import opened Sched
  import opened Notify
  import opened NotifyRuns
  import opened KernelRuns
  import opened WaiterRuns
  import opened PendingTable

  /** os_thread_set_ready as os_run_timer calls it when a sleep or an interval ends: the state is not looked at. */
  function Rouse(k: Kernel, t: nat): Kernel
    requires t < |k.threads|
  {
    SetState(k, t, Ready)
  }

  /** The current thread stays the running one exactly when it is not the one whose timer went off. */
  lemma RouseKeepsSettledIff(k: Kernel, idle: nat, t: nat)
    requires Settled(k, idle) && t < |k.threads|
    ensures Settled(Rouse(k, t), idle) <==> t != k.current
  {
  }

  /** The list of waiting threads stays right exactly when the thread whose timer went off is not on it. */
  lemma RouseKeepsListIff(n: Notes, t: nat)
    requires ValidNotes(n) && ListInv(n) && t < |n.k.threads|
    ensures ListInv(n.(k := Rouse(n.k, t))) <==> n.k.threads[t].state != Waiting
  {
    if n.k.threads[t].state == Waiting {
      assert t in n.waiters && Rouse(n.k, t).threads[t].state == Ready;
    } else {
      SameWaitingKeeps(n, Rouse(n.k, t));
    }
  }

  /** A thread killed in its sleep is made ready when the sleep ends, without a stack. */
  lemma KilledSleeperRevives(k: Kernel, t: nat, status: int)
    requires ValidKernel(k) && t < |k.threads| && k.threads[t].state == Stopped
    ensures var killed := Kill(k, t, status).0;
            && |killed.threads| == |k.threads| && killed.threads[t].state == Finished
            && Runnable(Rouse(killed, t).threads[t]) && Rouse(killed, t).threads[t].stackId == NO_STACK
  {
  }

  // ------------------------------------------------------------- whole runs

  /** The threads with a sleep outstanding. */
  datatype State = State(n: Notes, asleep: set<nat>)

  datatype Op = RoundOp(e: KernelRuns.Entry) | SleepOp | WakeOp(t: nat)

  ghost predicate Asleep(s: State) {
    forall t :: t in s.asleep ==> t < |s.n.k.threads| && s.n.k.threads[t].state == Stopped
  }

  ghost predicate Inv(s: State, idle: nat) {
    Steady(s.n, idle) && ListInv(s.n)
  }

  ghost predicate Enabled(s: State, hash: Hash, idle: nat, op: Op)
    requires Inv(s, idle)
  {
    match op
    case RoundOp(e) => KernelRuns.Enabled(s.n, hash, idle, e) && !KillsWaiter(s.n, e)
    case SleepOp => s.n.k.current != idle
    case WakeOp(t) => t in s.asleep && t < |s.n.k.threads|
  }

  /** os_usleep stops the caller once its timer is armed. */
  ghost function Apply(s: State, hash: Hash, idle: nat, op: Op): State
    requires Inv(s, idle) && Enabled(s, hash, idle, op)
  {
    match op
    case RoundOp(e) => RightListFits(s.n, hash, e); s.(n := Round(s.n, hash, idle, e))
    case SleepOp => State(Round(s.n, hash, idle, StopEntry(s.n.k.current)), s.asleep + {s.n.k.current})
    case WakeOp(t) => State(s.n.(k := Rouse(s.n.k, t)), s.asleep - {t})
  }

  /** A sleeping thread is continued or killed. */
  ghost predicate Disturbs(s: State, op: Op) {
    op.RoundOp? && (op.e.ContinueEntry? || op.e.KillEntry?) && op.e.t in s.asleep
  }

  /** A stopped thread stays stopped unless it is continued or killed. */
  lemma PerformStopped(n: Notes, hash: Hash, idle: nat, e: KernelRuns.Entry, t: nat)
    requires Steady(n, idle) && ListInv(n) && KernelRuns.Enabled(n, hash, idle, e)
    requires t < |n.k.threads| && n.k.threads[t].state == Stopped
    ensures var m := Perform(n, hash, idle, e);
            |m.k.threads| == |n.k.threads| && (m.k.threads[t].state == Stopped <==> !((e.ContinueEntry? || e.KillEntry?) && e.t == t))
  {
    if e.NotifyEntry? && Wakes(n, e.obj) {
      var b := BestWaiter(n.k.threads, n.waiters, e.obj, |n.waiters|);
      assert n.waiters[b] in n.waiters;
      WakeTouchesOne(n, b, e.drop);
    }
  }

  lemma RoundStopped(n: Notes, hash: Hash, idle: nat, e: KernelRuns.Entry, t: nat)
    requires Steady(n, idle) && ListInv(n) && KernelRuns.Enabled(n, hash, idle, e) && Fits(n, hash, e)
    requires t < |n.k.threads| && n.k.threads[t].state == Stopped
    ensures var m := Round(n, hash, idle, e);
            |m.k.threads| == |n.k.threads| && (m.k.threads[t].state == Stopped <==> !((e.ContinueEntry? || e.KillEntry?) && e.t == t))
  {
    PerformStopped(n, hash, idle, e, t);
    EntryThenSwitch(n, hash, idle, e);
  }

  lemma RoundAsleepIff(s: State, hash: Hash, idle: nat, e: KernelRuns.Entry)
    requires Inv(s, idle) && Asleep(s) && Enabled(s, hash, idle, RoundOp(e))
    ensures var r := Apply(s, hash, idle, RoundOp(e)); Inv(r, idle) && (Asleep(r) <==> !Disturbs(s, RoundOp(e)))
  {
    RightListFits(s.n, hash, e);
    RoundKeepsListIff(s.n, hash, idle, e);
    forall t | t in s.asleep
      ensures var m := Round(s.n, hash, idle, e);
              t < |m.k.threads| && (m.k.threads[t].state == Stopped <==> !((e.ContinueEntry? || e.KillEntry?) && e.t == t))
    {
      RoundStopped(s.n, hash, idle, e, t);
    }
  }

  lemma SleepAsleep(s: State, hash: Hash, idle: nat)
    requires Inv(s, idle) && Asleep(s) && Enabled(s, hash, idle, SleepOp)
    ensures var r := Apply(s, hash, idle, SleepOp); Inv(r, idle) && Asleep(r)
  {
    var e := StopEntry(s.n.k.current);
    RoundKeepsListIff(s.n, hash, idle, e);
    EntryThenSwitch(s.n, hash, idle, e);
    forall t | t in s.asleep ensures Round(s.n, hash, idle, e).k.threads[t].state == Stopped {
      RoundStopped(s.n, hash, idle, e, t);
    }
  }

  lemma WakeAsleep(s: State, hash: Hash, idle: nat, t: nat)
    requires Inv(s, idle) && Asleep(s) && Enabled(s, hash, idle, WakeOp(t))
    ensures var r := Apply(s, hash, idle, WakeOp(t)); Inv(r, idle) && Asleep(r)
  {
    RouseKeepsSettledIff(s.n.k, idle, t);
    RouseKeepsListIff(s.n, t);
    SameTable(s.n, Rouse(s.n.k, t));
  }

  /** One step keeps every sleeping thread stopped if and only if it continues or kills none of them. */
  lemma StepAsleepIff(s: State, hash: Hash, idle: nat, op: Op)
    requires Inv(s, idle) && Asleep(s) && Enabled(s, hash, idle, op)
    ensures var r := Apply(s, hash, idle, op); Inv(r, idle) && (Asleep(r) <==> !Disturbs(s, op))
  {
    match op {
      case RoundOp(e) => RoundAsleepIff(s, hash, idle, e);
      case SleepOp => SleepAsleep(s, hash, idle);
      case WakeOp(t) => WakeAsleep(s, hash, idle, t);
    }
  }

  ghost predicate ValidRun(s: State, hash: Hash, idle: nat, ops: seq<Op>)
    requires Inv(s, idle) && Asleep(s)
    decreases |ops|
  {
    ops == [] ||
    (Enabled(s, hash, idle, ops[0]) && !Disturbs(s, ops[0]) &&
     (StepAsleepIff(s, hash, idle, ops[0]); ValidRun(Apply(s, hash, idle, ops[0]), hash, idle, ops[1..])))
  }

  ghost function Run(s: State, hash: Hash, idle: nat, ops: seq<Op>): (r: State)
    requires Inv(s, idle) && Asleep(s) && ValidRun(s, hash, idle, ops)
    ensures Inv(r, idle) && Asleep(r)
    decreases |ops|
  {
    if ops == [] then s
    else
      StepAsleepIff(s, hash, idle, ops[0]);
      Run(Apply(s, hash, idle, ops[0]), hash, idle, ops[1..])
  }

  /** In every run that continues and kills no sleeping thread, every timer that goes off finds its thread stopped, and
      after making it ready still exactly the current thread is running and the list of waiting threads is right. */
  lemma SleepersWakeSafely(s: State, hash: Hash, idle: nat, ops: seq<Op>, t: nat)
    requires Inv(s, idle) && Asleep(s) && ValidRun(s, hash, idle, ops) && t in Run(s, hash, idle, ops).asleep
    ensures var n := Run(s, hash, idle, ops).n;
            && t < |n.k.threads| && n.k.threads[t].state == Stopped
            && Settled(Rouse(n.k, t), idle) && ListInv(n.(k := Rouse(n.k, t)))
  {
    var n := Run(s, hash, idle, ops).n;
    RouseKeepsSettledIff(n.k, idle, t);
    RouseKeepsListIff(n, t);
  }
}
