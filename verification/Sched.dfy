/** Thread life cycle, round-robin scheduling and the switch point (src/os/kernel/sched.c,
    src/os/arch/riscv/context_switch_core.c). */
module Sched {
  import opened Threads
  import opened Stacks

  datatype Code = Ok | OutOfRange | OutOfStacks | TaskRunning | Busy | NotAvail | Invalid | OutOfNotifications | OutOfThreads

  /** os_threads, the core state, the request flag of the switch point and the stack bitmap. */
  datatype Kernel = Kernel(threads: seq<Thread>, current: nat, next: nat, pending: bool, bits: Bitmap, stacks: nat)

  predicate ValidKernel(k: Kernel) {
    && 0 < |k.threads| <= 255
    && k.current < |k.threads| && k.next < |k.threads|
    && k.stacks <= 32
    && forall t :: 0 <= t < |k.threads| ==> k.threads[t].priority <= 255 && k.threads[t].basePriority <= 255
  }

  function SetState(k: Kernel, t: nat, s: ThreadState): Kernel
    requires t < |k.threads|
  {
    k.(threads := k.threads[t := k.threads[t].(state := s)])
  }

  /** os_sched_yield. */
  function Yield(k: Kernel): Kernel
    requires ValidKernel(k)
  {
    var (found, candidate) := NextThread(k.threads, k.current);
    if found then k.(next := candidate, pending := true) else k.(pending := false)
  }

  /** The switch point: performs a requested switch. */
  function Switch(k: Kernel): Kernel
    requires ValidKernel(k)
  {
    if !k.pending then k
    else
      var left := if k.threads[k.current].state == Running then SetState(k, k.current, Ready) else k;
      SetState(left.(current := k.next, pending := false), k.next, Running)
  }

  /** os_thread_stop. */
  function Stop(k: Kernel, t: nat): (Kernel, Code)
    requires ValidKernel(k)
  {
    if t >= |k.threads| then (k, Invalid)
    else if !Runnable(k.threads[t]) then (k, NotAvail)
    else
      var stopped := SetState(k, t, Stopped);
      (if t == k.current then Yield(stopped) else stopped, Ok)
  }

  /** os_thread_continue. */
  function Continue(k: Kernel, t: nat): (Kernel, Code)
    requires ValidKernel(k)
  {
    if t >= |k.threads| then (k, Invalid)
    else if k.threads[t].state != Stopped then (k, NotAvail)
    else (Yield(SetState(k, t, Ready)), Ok)
  }

  /** The thread table after a thread has been killed. */
  function Killed(k: Kernel, t: nat, status: int): Kernel
    requires ValidKernel(k) && t < |k.threads|
  {
    k.(threads := k.threads[t := k.threads[t].(state := Finished, exitStatus := status, stackId := NO_STACK)],
       bits := Dispose(k.bits, k.stacks, k.threads[t].stackId))
  }

  /** os_thread_kill. */
  function Kill(k: Kernel, t: nat, status: int): (Kernel, Code)
    requires ValidKernel(k)
  {
    if t >= |k.threads| then (k, Invalid)
    else if k.threads[t].state == Empty || k.threads[t].state == Finished then (k, Invalid)
    else (if t == k.current then Yield(Killed(k, t, status)) else Killed(k, t, status), Ok)
  }

  /** os_setpriority. */
  function SetPriority(k: Kernel, priority: nat): Kernel
    requires ValidKernel(k) && priority <= 255
  {
    var c := k.threads[k.current];
    var raised := if c.priority < priority then priority else c.priority;
    Yield(k.(threads := k.threads[k.current := c.(basePriority := priority, priority := raised)]))
  }

  function FirstEmpty(threads: seq<Thread>, q: nat): (t: nat)
    requires q <= |threads|
    ensures q <= t <= |threads|
    ensures t < |threads| ==> threads[t].state == Empty
    ensures forall i :: q <= i < t ==> threads[i].state != Empty
    decreases |threads| - q
  {
    if q == |threads| || threads[q].state == Empty then q else FirstEmpty(threads, q + 1)
  }

  /** os_thread_alloc: the slot taken, or the table length when it is full. */
  function Alloc(k: Kernel, priority: nat): (Kernel, nat)
    requires ValidKernel(k) && priority <= 255
  {
    var t := FirstEmpty(k.threads, 0);
    if t == |k.threads| then (k, t)
    else (k.(threads := k.threads[t := Thread(Created, priority, priority, 0, NO_STACK, 0)]), t)
  }

  /** os_thread_construct. */
  function Construct(k: Kernel, t: nat): (Kernel, Code)
    requires ValidKernel(k)
  {
    if t >= |k.threads| then (k, OutOfRange)
    else if k.threads[t].state != Created then (k, TaskRunning)
    else
      var f := CreateStack(k.bits, [], k.stacks);
      if f.id == STACK_INVALID then (k, OutOfStacks)
      else (k.(threads := k.threads[t := k.threads[t].(stackId := f.id, state := Ready)], bits := f.bits), Ok)
  }

  /** __os_thread_create. */
  function Create(k: Kernel, priority: nat): Kernel
    requires ValidKernel(k) && priority <= 255
  {
    var (k1, t) := Alloc(k, priority);
    if t < |k.threads| then Construct(k1, t).0 else k1
  }

  /** os_thread_join of a thread that does not exist or has finished. */
  function Join(k: Kernel, t: nat): (Kernel, Code, int)
    requires ValidKernel(k) && (t < |k.threads| ==> k.threads[t].state == Finished)
  {
    if t >= |k.threads| then (k, Invalid, 0) else (SetState(k, t, Empty), Ok, k.threads[t].exitStatus)
  }

  /** The end of a thread touches no other thread, so it does not end a join that came before it. */
  lemma KillWakesNobody(k: Kernel, t: nat, status: int, u: nat)
    requires ValidKernel(k) && u < |k.threads| && u != t
    ensures |Kill(k, t, status).0.threads| == |k.threads| && Kill(k, t, status).0.threads[u] == k.threads[u]
  {
  }

  // ------------------------------------------------------------ the class

  lemma NextSlot(start: nat, x: nat, n: nat)
    requires start < n && x < n
    ensures var y := (x + 1) % n; y < n && Distance(start, y, n) == if Distance(start, x, n) + 1 == n then 0 else Distance(start, x, n) + 1
  {
    if x + 1 == n {
      assert (x + 1) % n == 0;
    } else {
      assert (x + 1) % n == x + 1;
    }
  }

  class Scheduler {
    const threads: array<Thread>
    var current: nat
    var next: nat
    var pendingSwitch: bool
    const pool: StackPool

    ghost function View(): Kernel
      reads this, threads, pool
    {
      Kernel(threads[..], current, next, pendingSwitch, pool.allocations, pool.stacks)
    }

    ghost predicate Valid()
      reads this, threads, pool
    {
      ValidKernel(View())
    }

    constructor (threads: array<Thread>, stacks: nat)
      requires 0 < threads.Length <= 255 && stacks <= 32
      requires forall t :: 0 <= t < threads.Length ==> threads[t].priority <= 255 && threads[t].basePriority <= 255
      ensures Valid() && fresh(pool)
      ensures View() == Kernel(threads[..], 0, 0, false, seq(32, i => false), stacks)
      ensures this.threads == threads
    {
      this.threads := threads;
      current, next, pendingSwitch := 0, 0, false;
      pool := new StackPool(stacks);
    }

    /** os_get_next_thread. The loop runs once more than there are threads. */
    method GetNextThread(currentThread: nat) returns (found: bool, nextThread: nat)
      requires 0 < threads.Length <= 255 && currentThread <= 255
      requires forall t :: 0 <= t < threads.Length ==> threads[t].priority <= 255
      requires currentThread < threads.Length || exists t :: 0 <= t < threads.Length && Runnable(threads[t])
      ensures found == NextThread(threads[..], currentThread).0
      ensures found ==> nextThread == NextThread(threads[..], currentThread).1
      ensures found ==> IsChoice(threads[..], (currentThread + 1) % threads.Length, nextThread)
      ensures !found ==> currentThread < threads.Length
      ensures !found && Runnable(threads[currentThread]) ==>
                IsChoice(threads[..], (currentThread + 1) % threads.Length, currentThread)
    {
      var n := threads.Length;
      var bestPrio: nat := 0x1FF;
      var candidate: nat := currentThread;
      var threadId: nat := (currentThread + 1) % n;
      ghost var start := threadId;
      var loops: nat := n;
      var again := true;
      ghost var j: nat := 0;
      while again
        invariant j <= n + 1 && (again ==> loops == n - j) && (!again ==> j == n + 1 && loops == 255)
        invariant threadId < n && (j < n ==> Distance(start, threadId, n) == j) && (j == n ==> threadId == start)
        invariant Scanned(threads[..], start, j, currentThread, candidate, bestPrio)
        decreases n + 1 - j
      {
        ScanStep(threads[..], start, j, currentThread, candidate, bestPrio, threadId);
        var thread := threads[threadId];
        if (thread.state == Ready || thread.state == Running) && thread.priority < bestPrio {
          candidate := threadId;
          bestPrio := thread.priority;
        }
        NextSlot(start, threadId, n);
        threadId := (threadId + 1) % n;
        again := loops != 0;
        loops := if loops == 0 then 255 else loops - 1;
        j := j + 1;
      }
      assert loops > 0;
      ghost var best := BestFrom(threads[..], start, 0);
      ChoiceIsBest(threads[..], start, candidate);
      ChoiceIsBest(threads[..], start, best);
      found := bestPrio <= 0xFF && candidate != currentThread;
      nextThread := candidate;
    }

    /** os_sched_yield. */
    method SchedYield()
      requires Valid()
      modifies this
      ensures Valid() && View() == Yield(old(View()))
    {
      var found, candidate := GetNextThread(current);
      if found {
        next := candidate;
        pendingSwitch := true;
      } else {
        pendingSwitch := false;
      }
    }

    /** os_riscv_context_switch_prepare with its state update. */
    method ContextSwitch() returns (switched: bool)
      requires Valid()
      modifies this, threads
      ensures Valid() && View() == Switch(old(View())) && switched == old(pendingSwitch)
    {
      if !pendingSwitch {
        return false;
      }
      pendingSwitch := false;
      if threads[current].state == Running {
        threads[current] := threads[current].(state := Ready);
      }
      current := next;
      threads[current] := threads[current].(state := Running);
      return true;
    }

    method ThreadStop(t: nat) returns (rc: Code)
      requires Valid()
      modifies this, threads
      ensures Valid() && (View(), rc) == Stop(old(View()), t)
    {
      if t < threads.Length {
        if threads[t].state == Ready || threads[t].state == Running {
          threads[t] := threads[t].(state := Stopped);
          if t == current {
            SchedYield();
          }
          return Ok;
        }
        return NotAvail;
      }
      return Invalid;
    }

    method ThreadContinue(t: nat) returns (rc: Code)
      requires Valid()
      modifies this, threads
      ensures Valid() && (View(), rc) == Continue(old(View()), t)
    {
      if t < threads.Length {
        if threads[t].state == Stopped {
          threads[t] := threads[t].(state := Ready);
          SchedYield();
          return Ok;
        }
        return NotAvail;
      }
      return Invalid;
    }

    method ThreadKill(t: nat, status: int) returns (rc: Code)
      requires Valid()
      modifies this, threads, pool
      ensures Valid() && (View(), rc) == Kill(old(View()), t, status)
    {
      if t >= threads.Length {
        return Invalid;
      }
      if threads[t].state != Empty && threads[t].state != Finished {
        var stackId := threads[t].stackId;
        threads[t] := threads[t].(state := Finished, exitStatus := status, stackId := NO_STACK);
        pool.DisposeStack(stackId);
        if t == current {
          SchedYield();
        }
        return Ok;
      }
      return Invalid;
    }

    method SetThreadPriority(priority: nat)
      requires Valid() && priority <= 255
      modifies this, threads
      ensures Valid() && View() == SetPriority(old(View()), priority)
    {
      threads[current] := threads[current].(basePriority := priority);
      if threads[current].priority < priority {
        threads[current] := threads[current].(priority := priority);
      }
      assert threads[..] == old(threads[..])[current := threads[current]];
      SchedYield();
    }

    method ThreadAlloc(priority: nat) returns (t: nat)
      requires Valid() && priority <= 255
      modifies threads
      ensures Valid() && (View(), t) == Alloc(old(View()), priority)
    {
      t := 0;
      while t < threads.Length
        invariant 0 <= t <= threads.Length
        invariant threads[..] == old(threads[..])
        invariant FirstEmpty(threads[..], t) == FirstEmpty(threads[..], 0)
      {
        if threads[t].state == Empty {
          threads[t] := Thread(Created, priority, priority, 0, NO_STACK, 0);
          return;
        }
        t := t + 1;
      }
    }

    method ThreadConstruct(t: nat) returns (rc: Code)
      requires Valid()
      modifies threads, pool
      ensures Valid() && (View(), rc) == Construct(old(View()), t)
    {
      if t < threads.Length {
        if threads[t].state == Created {
          ghost var before := View();
          UndisturbedSearch(before.bits, before.stacks, 0);
          var stackId := pool.Create([]);
          if stackId != STACK_INVALID {
            threads[t] := threads[t].(stackId := stackId);
            threads[t] := threads[t].(state := Ready);
            assert threads[..] == old(threads[..])[t := threads[t]];
            return Ok;
          }
          return OutOfStacks;
        }
        return TaskRunning;
      }
      return OutOfRange;
    }

    method ThreadJoin(t: nat) returns (rc: Code, status: int)
      requires Valid() && (t < threads.Length ==> threads[t].state == Finished)
      modifies threads
      ensures Valid() && (View(), rc, status) == Join(old(View()), t)
    {
      rc, status := Invalid, 0;
      if t >= threads.Length {
        return;
      }
      rc := Ok;
      status := threads[t].exitStatus;
      threads[t] := threads[t].(state := Empty);
    }
  }

  /** After j slots: nothing runnable seen yet, or the candidate is preferred to every runnable slot seen. */
  ghost predicate Scanned(threads: seq<Thread>, start: nat, j: nat, current: nat, candidate: nat, bestPrio: nat)
    requires start < |threads|
  {
    if bestPrio == 0x1FF then
      candidate == current
      && forall d :: 0 <= d < |threads| && Distance(start, d, |threads|) < j ==> !Runnable(threads[d])
    else
      candidate < |threads| && Runnable(threads[candidate]) && bestPrio == threads[candidate].priority <= 255
      && Distance(start, candidate, |threads|) < j
      && forall d :: 0 <= d < |threads| && Distance(start, d, |threads|) < j && Runnable(threads[d]) ==>
           Preferred(threads, start, candidate, d)
  }

  lemma ScanStep(threads: seq<Thread>, start: nat, j: nat, current: nat, candidate: nat, bestPrio: nat, x: nat)
    requires start < |threads| && Scanned(threads, start, j, current, candidate, bestPrio)
    requires x < |threads| && (j < |threads| ==> Distance(start, x, |threads|) == j)
    requires threads[x].priority <= 255
    ensures var better := Runnable(threads[x]) && threads[x].priority < bestPrio;
            Scanned(threads, start, j + 1, current, if better then x else candidate,
                    if better then threads[x].priority else bestPrio)
  {
  }
}
