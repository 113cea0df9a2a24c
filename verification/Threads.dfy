/** Thread control blocks and the choice of the next thread (src/os/kernel/runtime.h, sched.c). */
module Threads {

  datatype ThreadState = Empty | Ready | Running | Created | Stopped | Finished | Waiting | Migrating

  /** OS_TASK_NO_STACK as stored in the 8-bit stack_id. */
  const NO_STACK: nat := 0xFF

  /** The members of OS_thread_t that scheduling and notifications use; waitObject is 0 for NULL. */
  datatype Thread = Thread(state: ThreadState, priority: nat, basePriority: nat, waitObject: nat, stackId: nat, exitStatus: int)

  predicate Runnable(t: Thread) {
    t.state == Ready || t.state == Running
  }

  /** Steps from slot `start` to slot x, going round a table of n threads. */
  function Distance(start: nat, x: nat, n: nat): (d: nat)
    requires start < n && x < n
    ensures d < n
    ensures d == 0 <==> x == start
  {
    if x >= start then x - start else x + n - start
  }

  /** Thread x is preferred to thread y: better priority, or the same and earlier in cyclic order from start. */
  predicate Preferred(threads: seq<Thread>, start: nat, x: nat, y: nat)
    requires start < |threads| && x < |threads| && y < |threads|
  {
    || threads[x].priority < threads[y].priority
    || (threads[x].priority == threads[y].priority
        && Distance(start, x, |threads|) <= Distance(start, y, |threads|))
  }

  /** The first runnable thread of best priority in cyclic order from start. */
  ghost predicate IsChoice(threads: seq<Thread>, start: nat, c: nat)
    requires start < |threads|
  {
    && c < |threads|
    && Runnable(threads[c])
    && forall d :: 0 <= d < |threads| && Runnable(threads[d]) ==> Preferred(threads, start, c, d)
  }

  lemma ChoiceUnique(threads: seq<Thread>, start: nat, c: nat, d: nat)
    requires start < |threads| && IsChoice(threads, start, c) && IsChoice(threads, start, d)
    ensures c == d
  {
  }

  /** The preferred runnable thread among slots k, k + 1, ...; |threads| when none is runnable. */
  function BestFrom(threads: seq<Thread>, start: nat, k: nat): (c: nat)
    requires start < |threads| && k <= |threads|
    ensures k <= c <= |threads|
    ensures c < |threads| ==> Runnable(threads[c])
    ensures forall d :: k <= d < |threads| && Runnable(threads[d]) ==> c < |threads| && Preferred(threads, start, c, d)
    decreases |threads| - k
  {
    if k == |threads| then k
    else
      var rest := BestFrom(threads, start, k + 1);
      if Runnable(threads[k]) && (rest == |threads| || Preferred(threads, start, k, rest)) then k else rest
  }

  lemma ChoiceIsBest(threads: seq<Thread>, start: nat, c: nat)
    requires start < |threads|
    ensures IsChoice(threads, start, c) <==> (c < |threads| && c == BestFrom(threads, start, 0))
  {
  }

  /** os_get_next_thread: whether a thread other than the current one is to run, and which. */
  function NextThread(threads: seq<Thread>, current: nat): (r: (bool, nat))
    requires |threads| > 0
    ensures r.0 ==> r.1 < |threads| && r.1 != current && Runnable(threads[r.1])
  {
    var c := BestFrom(threads, (current + 1) % |threads|, 0);
    (c < |threads| && c != current, c)
  }

  /** Of two threads the other one is next when it can run and the current one cannot or has the same priority. */
  lemma OtherIsNext(threads: seq<Thread>, current: nat, other: nat)
    requires |threads| == 2 && current < 2 && other == 1 - current && Runnable(threads[other])
    requires Runnable(threads[current]) ==> threads[other].priority <= threads[current].priority
    ensures NextThread(threads, current) == (true, other)
  {
    assert (current + 1) % 2 == other;
    assert IsChoice(threads, other, other);
    ChoiceIsBest(threads, other, other);
  }
}
