/** Stack ownership: the allocation bitmap and the threads' stack numbers always agree. */
module StackRuns {
  import opened Threads
  import opened Stacks
  import opened Sched

  /** A thread that is not empty holds stack i. */
  predicate Holds(k: Kernel, t: nat, i: nat) {
    t < |k.threads| && k.threads[t].state != Empty && k.threads[t].stackId == i
  }

  /** No two threads share a stack, and the marked stacks are exactly the ones some thread holds. */
  ghost predicate Owned(k: Kernel) {
    && k.stacks <= 32
    && (forall t: nat, i: nat :: Holds(k, t, i) && i != NO_STACK ==> i < k.stacks && k.bits[i])
    && (forall t: nat, u: nat, i: nat :: Holds(k, t, i) && Holds(k, u, i) && i != NO_STACK ==> t == u)
    && (forall i: nat :: i < 32 && k.bits[i] ==> exists t: nat :: Holds(k, t, i))
    && (forall t: nat :: t < |k.threads| && (k.threads[t].state == Created || k.threads[t].state == Finished) ==>
          k.threads[t].stackId == NO_STACK)
  }

  datatype Op = AllocOp(priority: nat) | ConstructOp(t: nat) | KillOp(t: nat, status: int) | JoinOp(t: nat)
              | StopOp(t: nat) | ContinueOp(t: nat) | YieldOp | SwitchOp

  predicate Enabled(k: Kernel, op: Op) {
    match op
    case AllocOp(p) => p <= 255
    case JoinOp(t) => t < |k.threads| ==> k.threads[t].state == Finished
    // A switch goes to a runnable thread.
    case SwitchOp => k.pending ==> k.next < |k.threads| && Runnable(k.threads[k.next])
    case _ => true
  }

  function Apply(k: Kernel, op: Op): Kernel
    requires ValidKernel(k) && Enabled(k, op)
  {
    match op
    case AllocOp(p) => Alloc(k, p).0
    case ConstructOp(t) => Construct(k, t).0
    case KillOp(t, status) => Kill(k, t, status).0
    case JoinOp(t) => Join(k, t).0
    case StopOp(t) => Stop(k, t).0
    case ContinueOp(t) => Continue(k, t).0
    case YieldOp => Yield(k)
    case SwitchOp => Switch(k)
  }

  /** Same stacks held by the same threads. */
  ghost predicate SameHolders(k: Kernel, j: Kernel) {
    && k.bits == j.bits && k.stacks == j.stacks && |k.threads| == |j.threads|
    && forall t: nat :: t < |k.threads| ==>
         && k.threads[t].stackId == j.threads[t].stackId
         && (k.threads[t].state == Empty <==> j.threads[t].state == Empty)
         && (j.threads[t].state == Created ==> k.threads[t].state == Created)
         && (j.threads[t].state == Finished ==> k.threads[t].state == Finished)
  }

  lemma SameHoldersOwned(k: Kernel, j: Kernel)
    requires Owned(k) && SameHolders(k, j)
    ensures Owned(j)
  {
    forall t: nat, i: nat ensures Holds(j, t, i) <==> Holds(k, t, i) {
    }
    forall i: nat | i < 32 && j.bits[i] ensures exists t: nat :: Holds(j, t, i) {
      var t: nat :| Holds(k, t, i);
      assert Holds(j, t, i);
    }
  }

  /** Releasing a thread frees exactly the stack it held; nothing is freed that was not marked. */
  lemma KillOwned(k: Kernel, t: nat, status: int)
    requires ValidKernel(k) && Owned(k) && t < |k.threads| && k.threads[t].state != Empty && k.threads[t].state != Finished
    ensures Owned(Killed(k, t, status))
    ensures k.threads[t].stackId == NO_STACK || BitSet(k.bits, k.threads[t].stackId)
  {
    var j := Killed(k, t, status);
    assert Holds(k, t, k.threads[t].stackId);
    forall u: nat, i: nat | i != NO_STACK ensures Holds(j, u, i) <==> Holds(k, u, i) && u != t {
    }
    forall i: nat | i < 32 && j.bits[i] ensures exists u: nat :: Holds(j, u, i) {
      assert k.bits[i] && i != k.threads[t].stackId;
      var u: nat :| Holds(k, u, i);
      assert Holds(j, u, i);
    }
  }

  lemma ConstructOwned(k: Kernel, t: nat)
    requires ValidKernel(k) && Owned(k)
    ensures Owned(Construct(k, t).0)
  {
    if t < |k.threads| && k.threads[t].state == Created {
      UndisturbedSearch(k.bits, k.stacks, 0);
      var f := CreateStack(k.bits, [], k.stacks);
      if f.id != STACK_INVALID {
        GiveStack(k, t, f.id);
      }
    }
  }

  /** Giving a free stack to a created thread. */
  lemma GiveStack(k: Kernel, t: nat, id: nat)
    requires ValidKernel(k) && Owned(k) && t < |k.threads| && k.threads[t].state == Created
    requires id < k.stacks && !k.bits[id]
    ensures Owned(k.(threads := k.threads[t := k.threads[t].(stackId := id, state := Ready)], bits := k.bits[id := true]))
  {
    var j := k.(threads := k.threads[t := k.threads[t].(stackId := id, state := Ready)], bits := k.bits[id := true]);
    forall u: nat, i: nat | i != NO_STACK ensures Holds(j, u, i) <==> Holds(k, u, i) || (u == t && i == id) {
      assert Holds(k, t, i) ==> i == NO_STACK;
    }
    forall i: nat | i < 32 && j.bits[i] ensures exists u: nat :: Holds(j, u, i) {
      if i == id {
        assert Holds(j, t, i);
      } else {
        var u: nat :| Holds(k, u, i);
        assert Holds(j, u, i);
      }
    }
  }

  /** A thread that holds no stack may become empty or be filled in anew. */
  lemma StacklessOwned(k: Kernel, t: nat, x: Thread)
    requires Owned(k) && t < |k.threads| && (k.threads[t].state == Empty || k.threads[t].stackId == NO_STACK)
    requires x.stackId == NO_STACK
    ensures Owned(k.(threads := k.threads[t := x]))
  {
    var j := k.(threads := k.threads[t := x]);
    forall u: nat, i: nat | i != NO_STACK ensures Holds(j, u, i) <==> Holds(k, u, i) {
    }
    forall i: nat | i < 32 && j.bits[i] ensures exists u: nat :: Holds(j, u, i) {
      var u: nat :| Holds(k, u, i);
      assert Holds(j, u, i);
    }
  }

  lemma YieldSame(k: Kernel)
    requires ValidKernel(k)
    ensures ValidKernel(Yield(k)) && SameHolders(k, Yield(k))
  {
  }

  lemma StateSame(k: Kernel, t: nat, s: ThreadState)
    requires ValidKernel(k) && t < |k.threads| && k.threads[t].state != Empty && s != Empty && s != Created && s != Finished
    ensures ValidKernel(SetState(k, t, s)) && SameHolders(k, SetState(k, t, s))
  {
  }

  lemma SchedulingOwned(k: Kernel, op: Op)
    requires ValidKernel(k) && Owned(k) && Enabled(k, op) && (op.StopOp? || op.ContinueOp? || op.YieldOp? || op.SwitchOp?)
    ensures ValidKernel(Apply(k, op)) && Owned(Apply(k, op))
  {
    match op {
      case StopOp(t) =>
        if t < |k.threads| && Runnable(k.threads[t]) {
          StateSame(k, t, Stopped);
          YieldSame(SetState(k, t, Stopped));
        }
      case ContinueOp(t) =>
        if t < |k.threads| && k.threads[t].state == Stopped {
          StateSame(k, t, Ready);
          YieldSame(SetState(k, t, Ready));
        }
      case YieldOp => YieldSame(k);
      case SwitchOp => assert SameHolders(k, Switch(k));
    }
    SameHoldersOwned(k, Apply(k, op));
  }

  lemma LifeOwned(k: Kernel, op: Op)
    requires ValidKernel(k) && Owned(k) && Enabled(k, op) && (op.AllocOp? || op.ConstructOp? || op.JoinOp?)
    ensures ValidKernel(Apply(k, op)) && Owned(Apply(k, op))
  {
    match op {
      case AllocOp(p) =>
        var t := FirstEmpty(k.threads, 0);
        if t < |k.threads| {
          StacklessOwned(k, t, Thread(Created, p, p, 0, NO_STACK, 0));
        }
      case ConstructOp(t) => ConstructOwned(k, t);
      case JoinOp(t) =>
        if t < |k.threads| {
          StacklessOwned(k, t, k.threads[t].(state := Empty));
        }
    }
  }

  lemma ApplyOwned(k: Kernel, op: Op)
    requires ValidKernel(k) && Owned(k) && Enabled(k, op)
    ensures ValidKernel(Apply(k, op)) && Owned(Apply(k, op))
  {
    if op.KillOp? {
      var t := op.t;
      if t < |k.threads| && k.threads[t].state != Empty && k.threads[t].state != Finished {
        KillOwned(k, t, op.status);
        YieldSame(Killed(k, t, op.status));
        SameHoldersOwned(Killed(k, t, op.status), Yield(Killed(k, t, op.status)));
      }
    } else if op.AllocOp? || op.ConstructOp? || op.JoinOp? {
      LifeOwned(k, op);
    } else {
      SchedulingOwned(k, op);
    }
  }

  ghost predicate ValidRun(k: Kernel, ops: seq<Op>)
    requires ValidKernel(k)
    decreases |ops|
  {
    ops == [] || (Enabled(k, ops[0]) && ValidKernel(Apply(k, ops[0])) && ValidRun(Apply(k, ops[0]), ops[1..]))
  }

  ghost function Run(k: Kernel, ops: seq<Op>): Kernel
    requires ValidKernel(k) && ValidRun(k, ops)
    decreases |ops|
  {
    if ops == [] then k else Run(Apply(k, ops[0]), ops[1..])
  }

  lemma {:induction false} RunOwned(k: Kernel, ops: seq<Op>)
    requires ValidKernel(k) && Owned(k) && ValidRun(k, ops)
    ensures Owned(Run(k, ops))
    decreases |ops|
  {
    if ops != [] {
      ApplyOwned(k, ops[0]);
      RunOwned(Apply(k, ops[0]), ops[1..]);
    }
  }

  /** From the empty thread table on, in every run no two non-empty threads share a stack and the bitmap is
      exactly the set of stacks they hold: no stack is leaked and none is handed out or freed twice. */
  lemma StacksNeverLeak(k: Kernel, ops: seq<Op>)
    requires ValidKernel(k) && ValidRun(k, ops)
    requires (forall i :: 0 <= i < 32 ==> !k.bits[i]) && forall t :: 0 <= t < |k.threads| ==> k.threads[t].state == Empty
    ensures Owned(Run(k, ops))
  {
    RunOwned(k, ops);
  }
}
