/** A run that lists one thread again and again until the waiter array is full (src/os/kernel/notify.c, sched.c). */
module WaiterOverflow {
  import opened Algo
  import opened PowerOfTwo
  import opened PendingTable
  import opened Threads
  import opened Stacks
  import opened Sched
  import opened Notify
  import opened NotifyRuns
  import opened KernelRuns

  /** The first n stacks are taken. */
  function Taken(n: nat): Bitmap {
    seq(32, i => i < n)
  }

  const OBJECT: nat := 8

  function Machine(first: ThreadState, second: Thread, current: nat, next: nat, bits: Bitmap, waiters: seq<nat>): Notes {
    Notes(Kernel([Thread(first, 1, 1, 0, 0, 0), second], current, next, false, bits, 2), [FREE], 0, waiters)
  }

  /** The second thread runs. */
  function Works(waiters: seq<nat>): Notes {
    Machine(Ready, Thread(Running, 0, 0, 0, 1, 0), 1, 1, Taken(2), waiters)
  }

  function Waits(waiters: seq<nat>): Notes {
    Machine(Running, Thread(Waiting, 0, 0, OBJECT, 1, 0), 0, 0, Taken(2), waiters)
  }

  function Dead(waiters: seq<nat>): Notes {
    Machine(Running, Thread(Finished, 0, 0, OBJECT, NO_STACK, 0), 0, 0, Taken(1), waiters)
  }

  function Gone(waiters: seq<nat>): Notes {
    Machine(Running, Thread(Empty, 0, 0, OBJECT, NO_STACK, 0), 0, 0, Taken(1), waiters)
  }

  function Reborn(waiters: seq<nat>): Notes {
    Machine(Running, Thread(Ready, 0, 0, 0, 1, 0), 0, 0, Taken(2), waiters)
  }

  predicate OnlySecond(waiters: seq<nat>) {
    |waiters| <= 2 && forall i :: 0 <= i < |waiters| ==> waiters[i] == 1
  }

  lemma TableIsRight()
    ensures IsPow2(1) && WellCounted([FREE], 0) && Ends([FREE], OBJECT)
  {
    assert 1 == Pow2(0);
    assert [FREE][1..] == [];
    assert Stops(Keys([FREE]), OBJECT, 0);
  }

  lemma AllSteady(waiters: seq<nat>)
    requires OnlySecond(waiters)
    ensures Steady(Works(waiters), 0) && Steady(Waits(waiters), 0) && Steady(Dead(waiters), 0)
    ensures Steady(Gone(waiters), 0) && Steady(Reborn(waiters), 0)
  {
    TableIsRight();
  }

  lemma WaitRound(hash: Hash, waiters: seq<nat>)
    requires OnlySecond(waiters) && |waiters| < 2 && Steady(Works(waiters), 0)
    ensures var e := WaitEntry(OBJECT);
            && KernelRuns.Enabled(Works(waiters), hash, 0, e) && Fits(Works(waiters), hash, e)
            && Round(Works(waiters), hash, 0, e) == Waits(waiters + [1])
  {
    TableIsRight();
    var n := Works(waiters);
    var threads := n.k.threads[1 := Thread(Waiting, 0, 0, OBJECT, 1, 0)];
    OtherIsNext(threads, 1, 0);
    assert Dequeue([FREE], 0, hash, OBJECT) == ([FREE], 0, false);
    assert threads[0 := threads[0].(state := Running)] == Waits(waiters + [1]).k.threads;
  }

  lemma KillRound(hash: Hash, waiters: seq<nat>)
    requires OnlySecond(waiters) && Steady(Waits(waiters), 0)
    ensures var e := KillEntry(1, 0);
            && KernelRuns.Enabled(Waits(waiters), hash, 0, e) && Round(Waits(waiters), hash, 0, e) == Dead(waiters)
  {
    assert Taken(2)[1 := false] == Taken(1);
  }

  lemma JoinRound(hash: Hash, waiters: seq<nat>)
    requires OnlySecond(waiters) && Steady(Dead(waiters), 0)
    ensures var e := JoinEntry(1);
            && KernelRuns.Enabled(Dead(waiters), hash, 0, e) && Round(Dead(waiters), hash, 0, e) == Gone(waiters)
  {
  }

  lemma CreateRound(hash: Hash, waiters: seq<nat>)
    requires OnlySecond(waiters) && Steady(Gone(waiters), 0)
    ensures var e := CreateEntry(0);
            && KernelRuns.Enabled(Gone(waiters), hash, 0, e) && Round(Gone(waiters), hash, 0, e) == Reborn(waiters)
  {
    var k := Gone(waiters).k;
    assert FirstEmpty(k.threads, 0) == FirstEmpty(k.threads, 1) == 1;
    UndisturbedSearch(Taken(1), 2, 0);
    assert FirstFree(Taken(1), 2, 0) == FirstFree(Taken(1), 2, 1) == 1;
    assert Taken(1)[1 := true] == Taken(2);
  }

  lemma YieldRound(hash: Hash, waiters: seq<nat>)
    requires OnlySecond(waiters) && Steady(Reborn(waiters), 0)
    ensures Round(Reborn(waiters), hash, 0, YieldEntry) == Works(waiters)
  {
    OtherIsNext(Reborn(waiters).k.threads, 0, 1);
  }

  lemma Extend(n: Notes, hash: Hash, e: KernelRuns.Entry, m: Notes, rest: seq<KernelRuns.Entry>)
    requires Steady(n, 0) && KernelRuns.Enabled(n, hash, 0, e) && Fits(n, hash, e) && m == Round(n, hash, 0, e)
    requires KernelRuns.ValidRun(m, hash, 0, rest)
    ensures KernelRuns.ValidRun(n, hash, 0, [e] + rest)
    ensures KernelRuns.Run(n, hash, 0, [e] + rest) == KernelRuns.Run(m, hash, 0, rest)
  {
    assert ([e] + rest)[1..] == rest;
  }

  /** The second thread waits, is killed, joined and created anew, and runs again: everything is as before, but the list
      names it once more. */
  lemma OneMoreEntry(hash: Hash, waiters: seq<nat>, rest: seq<KernelRuns.Entry>) returns (es: seq<KernelRuns.Entry>)
    requires OnlySecond(waiters) && |waiters| < 2 && Steady(Works(waiters), 0) && Steady(Works(waiters + [1]), 0)
    requires KernelRuns.ValidRun(Works(waiters + [1]), hash, 0, rest)
    ensures KernelRuns.ValidRun(Works(waiters), hash, 0, es)
    ensures KernelRuns.Run(Works(waiters), hash, 0, es) == KernelRuns.Run(Works(waiters + [1]), hash, 0, rest)
  {
    var ws := waiters + [1];
    AllSteady(ws);
    WaitRound(hash, waiters);
    KillRound(hash, ws);
    JoinRound(hash, ws);
    CreateRound(hash, ws);
    YieldRound(hash, ws);
    Extend(Reborn(ws), hash, YieldEntry, Works(ws), rest);
    es := [YieldEntry] + rest;
    Extend(Gone(ws), hash, CreateEntry(0), Reborn(ws), es);
    es := [CreateEntry(0)] + es;
    Extend(Dead(ws), hash, JoinEntry(1), Gone(ws), es);
    es := [JoinEntry(1)] + es;
    Extend(Waits(ws), hash, KillEntry(1, 0), Dead(ws), es);
    es := [KillEntry(1, 0)] + es;
    Extend(Works(waiters), hash, WaitEntry(OBJECT), Waits(ws), es);
    es := [WaitEntry(OBJECT)] + es;
  }

  /** What OneMoreEntry does, twice over. */
  lemma TwoMoreEntries(hash: Hash) returns (es: seq<KernelRuns.Entry>)
    ensures Steady(Works([]), 0) && KernelRuns.ValidRun(Works([]), hash, 0, es)
    ensures KernelRuns.Run(Works([]), hash, 0, es) == Works([] + [1] + [1]) && Steady(Works([] + [1] + [1]), 0)
  {
    var none: seq<nat> := [];
    AllSteady(none);
    AllSteady(none + [1]);
    AllSteady(none + [1] + [1]);
    es := OneMoreEntry(hash, none + [1], []);
    es := OneMoreEntry(hash, none, es);
  }

  lemma FullArray(hash: Hash, waiters: seq<nat>)
    requires |waiters| == 2 && Steady(Works(waiters), 0)
    ensures KernelRuns.Enabled(Works(waiters), hash, 0, WaitEntry(OBJECT)) && !Fits(Works(waiters), hash, WaitEntry(OBJECT))
  {
    TableIsRight();
    assert Dequeue([FREE], 0, hash, OBJECT) == ([FREE], 0, false);
  }

  /** Two threads, one of which is killed twice while it waits: the list, right at the start, fills its array with one
      thread, and that thread's next wait would be written behind the array. */
  lemma WaitOverflows(hash: Hash) returns (n: Notes, es: seq<KernelRuns.Entry>)
    ensures Steady(n, 0) && ListInv(n) && KernelRuns.ValidRun(n, hash, 0, es)
    ensures var m := KernelRuns.Run(n, hash, 0, es);
            && KernelRuns.Enabled(m, hash, 0, WaitEntry(OBJECT)) && !Fits(m, hash, WaitEntry(OBJECT))
            && |m.waiters| == |m.k.threads| && m.k.threads[m.k.current].state == Running
  {
    n := Works([]);
    es := TwoMoreEntries(hash);
    FullArray(hash, [] + [1] + [1]);
  }
}
