/** A run of the futex that forgets a blocked thread of priority 255 (src/lib/arch/riscv/mutex.c). */
module FutexWitness {
  import opened Algo
  import opened PowerOfTwo
  import opened PendingTable
  import opened Threads
  import opened Sched
  import opened Notify
  import opened NotifyRuns
  import opened Futex

  /** Two threads of priority 255 and one free slot in the pending table. */
  function Pair(first: ThreadState, second: ThreadState, object2: nat): seq<Thread> {
    [Thread(first, 255, 255, 0, 0, 0), Thread(second, 255, 255, object2, 1, 0)]
  }

  function Machine(threads: seq<Thread>, current: nat, next: nat, pending: bool): Kernel {
    Kernel(threads, current, next, pending, seq(32, i => i < 2), 2)
  }

  function Start(): World {
    World(Notes(Machine(Pair(Running, Ready, 0), 0, 0, false), [FREE], 0, []), 0, [0, 0], [])
  }

  function Preempted(): World {
    Start().(n := Start().n.(k := Machine(Pair(Running, Ready, 0), 0, 1, true)))
  }

  function SecondRuns(): World {
    Start().(n := Start().n.(k := Machine(Pair(Ready, Running, 0), 1, 1, false)))
  }

  function SecondWaits(addr: nat): World {
    World(Notes(Machine(Pair(Ready, Waiting, addr), 1, 0, true), [FREE], 0, [1]), 1, [0, 0], [])
  }

  function FirstRuns(addr: nat): World {
    World(Notes(Machine(Pair(Running, Waiting, addr), 0, 0, false), [FREE], 0, [1]), 1, [0, 0], [])
  }

  lemma StartInv()
    ensures Inv(Start()) && PendingOf(Start().n.table, 1) == 0
  {
    assert 1 == Pow2(0);
    assert [FREE][1..] == [];
  }

  lemma PreemptStep(hash: Hash)
    requires Inv(Start())
    ensures Apply(Start(), hash, YieldStep) == Preempted() && Inv(Preempted())
  {
    OtherIsNext(Pair(Running, Ready, 0), 0, 1);
    StepKeepsInv(Start(), hash, YieldStep);
  }

  lemma FirstSwitch(hash: Hash)
    requires Inv(Preempted())
    ensures Apply(Preempted(), hash, SwitchStep) == SecondRuns() && Inv(SecondRuns())
  {
    assert Pair(Running, Ready, 0)[0 := Pair(Ready, Ready, 0)[0]][1 := Pair(Ready, Running, 0)[1]] == Pair(Ready, Running, 0);
    StepKeepsInv(Preempted(), hash, SwitchStep);
  }

  lemma FreeTable(hash: Hash, addr: nat)
    requires IsObject(addr)
    ensures Ends([FREE], addr) && Dequeue([FREE], 0, hash, addr) == ([FREE], 0, false)
  {
    assert Stops(Keys([FREE]), addr, 0);
  }

  lemma BlockStep(hash: Hash, addr: nat)
    requires Inv(SecondRuns()) && IsObject(addr)
    ensures Ends([FREE], addr) && Apply(SecondRuns(), hash, WaitStep(addr)) == SecondWaits(addr) && Inv(SecondWaits(addr))
  {
    FreeTable(hash, addr);
    BlockEffect(addr);
    assert WaitForObject(SecondRuns().n, hash, addr) == (SecondWaits(addr).n, Ok);
    StepKeepsInv(SecondRuns(), hash, WaitStep(addr));
  }

  lemma BlockEffect(addr: nat)
    requires Inv(SecondRuns())
    ensures Block(SecondRuns().n, addr) == SecondWaits(addr).n
  {
    var threads := Pair(Ready, Waiting, addr);
    assert SecondRuns().n.k.threads[1 := threads[1]] == threads;
    OtherIsNext(threads, 1, 0);
  }

  lemma SecondSwitch(hash: Hash, addr: nat)
    requires Inv(SecondWaits(addr))
    ensures Apply(SecondWaits(addr), hash, SwitchStep) == FirstRuns(addr) && Inv(FirstRuns(addr))
  {
    assert Pair(Ready, Waiting, addr)[0 := Pair(Running, Waiting, addr)[0]] == Pair(Running, Waiting, addr);
    StepKeepsInv(SecondWaits(addr), hash, SwitchStep);
  }

  // ------------------------------------------------------------------ the run

  lemma Extend(s: State, hash: Hash, addr: nat, a: Action, t: State, rest: seq<Action>)
    requires IsObject(addr) && SafeInv(s, addr) && Futex.Enabled(s, hash, addr, a) && t == Do(s, hash, addr, a)
    requires SafeInv(t, addr) && Futex.ValidRun(t, hash, addr, rest)
    ensures Futex.ValidRun(s, hash, addr, [a] + rest) && Futex.Run(s, hash, addr, [a] + rest) == Futex.Run(t, hash, addr, rest)
  {
    assert ([a] + rest)[1..] == rest;
  }

  const FREE_WORD: Word := Word(0, 0xFF, 0)
  const HELD: Word := Word(1, 0, 0)

  function Stage(w: World, first: Pc, second: Pc, word: Word, reserved: set<nat>): State {
    State(w, [first, second], word, reserved, {})
  }

  lemma NotifyForgets(hash: Hash, addr: nat) returns (acts: seq<Action>)
    requires IsObject(addr) && SafeInv(Stage(FirstRuns(addr), NotifyCall, Blocked, HELD.(state := 0), {}), addr)
    ensures Futex.ValidRun(Stage(FirstRuns(addr), NotifyCall, Blocked, HELD.(state := 0), {}), hash, addr, acts)
    ensures var t := Futex.Run(Stage(FirstRuns(addr), NotifyCall, Blocked, HELD.(state := 0), {}), hash, addr, acts);
            t.pcs == [Out, Blocked] && t.word.state == 0 && !NothingLost(t)
  {
    var s := Stage(FirstRuns(addr), NotifyCall, Blocked, HELD.(state := 0), {});
    assert s.pcs[1].Blocked?;
    NotifyForgetsIff(s, hash, addr);
    WakesIff(s, addr);
    NotifyKeeps(s, hash, addr);
    Extend(s, hash, addr, NotifySyscall, Do(s, hash, addr, NotifySyscall), []);
    acts := [NotifySyscall] + [];
  }

  /** The first thread unlocks and notifies while the second is blocked. */
  lemma UnlockForgets(hash: Hash, addr: nat) returns (acts: seq<Action>)
    requires IsObject(addr) && SafeInv(Stage(FirstRuns(addr), Holding, Blocked, HELD, {1}), addr)
    ensures Futex.ValidRun(Stage(FirstRuns(addr), Holding, Blocked, HELD, {1}), hash, addr, acts)
    ensures var t := Futex.Run(Stage(FirstRuns(addr), Holding, Blocked, HELD, {1}), hash, addr, acts);
            t.pcs == [Out, Blocked] && t.word.state == 0 && !NothingLost(t)
  {
    var w := FirstRuns(addr);
    var s0 := Stage(w, Holding, Blocked, HELD, {1});
    var s1 := Stage(w, LoadUnlock, Blocked, HELD, {1});
    var s2 := Stage(w, StoreUnlock(HELD), Blocked, HELD, {0, 1});
    var s3 := Stage(w, NotifyCall, Blocked, HELD.(state := 0), {});
    DoKeeps(s0, hash, addr, CallUnlock);
    assert Do(s0, hash, addr, CallUnlock) == s1;
    DoKeeps(s1, hash, addr, LoadReserved);
    assert Do(s1, hash, addr, LoadReserved) == s2;
    DoKeeps(s2, hash, addr, StoreConditional(false));
    assert Do(s2, hash, addr, StoreConditional(false)) == s3;
    acts := NotifyForgets(hash, addr);
    Extend(s2, hash, addr, StoreConditional(false), s3, acts);
    acts := [StoreConditional(false)] + acts;
    Extend(s1, hash, addr, LoadReserved, s2, acts);
    acts := [LoadReserved] + acts;
    Extend(s0, hash, addr, CallUnlock, s1, acts);
    acts := [CallUnlock] + acts;
  }

  lemma WaitMoves(hash: Hash, addr: nat)
    requires IsObject(addr) && Inv(SecondRuns())
    ensures Ends([FREE], addr) && Inv(SecondWaits(addr))
    ensures AfterWait(Stage(SecondRuns(), Holding, WaitCall, HELD, {1}), hash, addr) == Stage(SecondWaits(addr), Holding, Blocked, HELD, {1})
  {
    BlockStep(hash, addr);
  }

  lemma WaitDone(hash: Hash, addr: nat)
    requires IsObject(addr) && Inv(SecondRuns()) && SafeInv(Stage(SecondRuns(), Holding, WaitCall, HELD, {1}), addr)
    ensures var s2 := Stage(SecondRuns(), Holding, WaitCall, HELD, {1});
            var s3 := Stage(SecondWaits(addr), Holding, Blocked, HELD, {1});
            && Futex.Enabled(s2, hash, addr, WaitSyscall)
            && Do(s2, hash, addr, WaitSyscall) == s3 && SafeInv(s3, addr) && Inv(SecondWaits(addr))
  {
    WaitMoves(hash, addr);
    WaitKeeps(Stage(SecondRuns(), Holding, WaitCall, HELD, {1}), hash, addr);
  }

  lemma SwitchDone(hash: Hash, addr: nat)
    requires IsObject(addr) && Inv(SecondWaits(addr)) && SafeInv(Stage(SecondWaits(addr), Holding, Blocked, HELD, {1}), addr)
    ensures var s3 := Stage(SecondWaits(addr), Holding, Blocked, HELD, {1});
            var s4 := Stage(FirstRuns(addr), Holding, Blocked, HELD, {1});
            && Futex.Enabled(s3, hash, addr, Elsewhere(SwitchStep))
            && Do(s3, hash, addr, Elsewhere(SwitchStep)) == s4 && SafeInv(s4, addr)
  {
    SecondSwitch(hash, addr);
    DoKeeps(Stage(SecondWaits(addr), Holding, Blocked, HELD, {1}), hash, addr, Elsewhere(SwitchStep));
  }

  lemma SwitchBack(hash: Hash, addr: nat) returns (acts: seq<Action>)
    requires IsObject(addr) && Inv(SecondWaits(addr)) && SafeInv(Stage(SecondWaits(addr), Holding, Blocked, HELD, {1}), addr)
    ensures Futex.ValidRun(Stage(SecondWaits(addr), Holding, Blocked, HELD, {1}), hash, addr, acts)
    ensures var t := Futex.Run(Stage(SecondWaits(addr), Holding, Blocked, HELD, {1}), hash, addr, acts);
            t.pcs == [Out, Blocked] && t.word.state == 0 && !NothingLost(t)
  {
    var s3 := Stage(SecondWaits(addr), Holding, Blocked, HELD, {1});
    var s4 := Stage(FirstRuns(addr), Holding, Blocked, HELD, {1});
    SwitchDone(hash, addr);
    acts := UnlockForgets(hash, addr);
    Extend(s3, hash, addr, Elsewhere(SwitchStep), s4, acts);
    acts := [Elsewhere(SwitchStep)] + acts;
  }

  /** The second thread has found the futex taken; it is blocked. */
  lemma SecondBlocks(hash: Hash, addr: nat) returns (acts: seq<Action>)
    requires IsObject(addr) && Inv(SecondRuns()) && SafeInv(Stage(SecondRuns(), Holding, WaitCall, HELD, {1}), addr)
    ensures Futex.ValidRun(Stage(SecondRuns(), Holding, WaitCall, HELD, {1}), hash, addr, acts)
    ensures var t := Futex.Run(Stage(SecondRuns(), Holding, WaitCall, HELD, {1}), hash, addr, acts);
            t.pcs == [Out, Blocked] && t.word.state == 0 && !NothingLost(t)
  {
    var s2 := Stage(SecondRuns(), Holding, WaitCall, HELD, {1});
    var s3 := Stage(SecondWaits(addr), Holding, Blocked, HELD, {1});
    WaitDone(hash, addr);
    acts := SwitchBack(hash, addr);
    Extend(s2, hash, addr, WaitSyscall, s3, acts);
    acts := [WaitSyscall] + acts;
  }

  /** The second thread tries for the futex while the first holds it. */
  lemma SecondTries(hash: Hash, addr: nat) returns (acts: seq<Action>)
    requires IsObject(addr) && Inv(SecondRuns()) && SafeInv(Stage(SecondRuns(), Holding, Out, HELD, {}), addr)
    ensures Futex.ValidRun(Stage(SecondRuns(), Holding, Out, HELD, {}), hash, addr, acts)
    ensures var t := Futex.Run(Stage(SecondRuns(), Holding, Out, HELD, {}), hash, addr, acts);
            t.pcs == [Out, Blocked] && t.word.state == 0 && !NothingLost(t)
  {
    var s0 := Stage(SecondRuns(), Holding, Out, HELD, {});
    var s1 := Stage(SecondRuns(), Holding, LoadLock(false), HELD, {});
    var s2 := Stage(SecondRuns(), Holding, WaitCall, HELD, {1});
    DoKeeps(s0, hash, addr, CallLock);
    assert Do(s0, hash, addr, CallLock) == s1;
    DoKeeps(s1, hash, addr, LoadReserved);
    assert Do(s1, hash, addr, LoadReserved) == s2;
    acts := SecondBlocks(hash, addr);
    Extend(s1, hash, addr, LoadReserved, s2, acts);
    acts := [LoadReserved] + acts;
    Extend(s0, hash, addr, CallLock, s1, acts);
    acts := [CallLock] + acts;
  }

  /** The first thread is preempted while it holds the futex. */
  lemma HolderPreempted(hash: Hash, addr: nat) returns (acts: seq<Action>)
    requires IsObject(addr) && Inv(Start()) && SafeInv(Stage(Start(), Holding, Out, HELD, {}), addr)
    ensures Futex.ValidRun(Stage(Start(), Holding, Out, HELD, {}), hash, addr, acts)
    ensures var t := Futex.Run(Stage(Start(), Holding, Out, HELD, {}), hash, addr, acts);
            t.pcs == [Out, Blocked] && t.word.state == 0 && !NothingLost(t)
  {
    var s0 := Stage(Start(), Holding, Out, HELD, {});
    var s1 := Stage(Preempted(), Holding, Out, HELD, {});
    var s2 := Stage(SecondRuns(), Holding, Out, HELD, {});
    PreemptStep(hash);
    DoKeeps(s0, hash, addr, Elsewhere(YieldStep));
    assert Do(s0, hash, addr, Elsewhere(YieldStep)) == s1;
    FirstSwitch(hash);
    DoKeeps(s1, hash, addr, Elsewhere(SwitchStep));
    assert Do(s1, hash, addr, Elsewhere(SwitchStep)) == s2;
    acts := SecondTries(hash, addr);
    Extend(s1, hash, addr, Elsewhere(SwitchStep), s2, acts);
    Extend(s0, hash, addr, Elsewhere(YieldStep), s1, [Elsewhere(SwitchStep)] + acts);
    acts := [Elsewhere(YieldStep)] + ([Elsewhere(SwitchStep)] + acts);
  }

  /** The first thread finds the futex free. */
  lemma FirstLoads(hash: Hash, addr: nat)
    requires IsObject(addr) && SafeInv(Stage(Start(), Out, Out, FREE_WORD, {}), addr)
    ensures var s := Stage(Start(), Out, Out, FREE_WORD, {}); var s1 := Stage(Start(), LoadLock(false), Out, FREE_WORD, {});
            Futex.Enabled(s, hash, addr, CallLock) && Do(s, hash, addr, CallLock) == s1 && SafeInv(s1, addr)
    ensures var s1 := Stage(Start(), LoadLock(false), Out, FREE_WORD, {});
            var s2 := Stage(Start(), StoreLock(false, FREE_WORD), Out, FREE_WORD, {0});
            Futex.Enabled(s1, hash, addr, LoadReserved) && Do(s1, hash, addr, LoadReserved) == s2 && SafeInv(s2, addr)
  {
    var s := Stage(Start(), Out, Out, FREE_WORD, {});
    var s1 := Stage(Start(), LoadLock(false), Out, FREE_WORD, {});
    DoKeeps(s, hash, addr, CallLock);
    assert Do(s, hash, addr, CallLock) == s1;
    DoKeeps(s1, hash, addr, LoadReserved);
  }

  /** The first thread takes the futex. */
  lemma FirstTakes(hash: Hash, addr: nat)
    requires IsObject(addr) && SafeInv(Stage(Start(), StoreLock(false, FREE_WORD), Out, FREE_WORD, {0}), addr)
    ensures var s2 := Stage(Start(), StoreLock(false, FREE_WORD), Out, FREE_WORD, {0});
            var s3 := Stage(Start(), Holding, Out, HELD, {});
            && Futex.Enabled(s2, hash, addr, StoreConditional(false))
            && Do(s2, hash, addr, StoreConditional(false)) == s3 && SafeInv(s3, addr)
  {
    DoKeeps(Stage(Start(), StoreLock(false, FREE_WORD), Out, FREE_WORD, {0}), hash, addr, StoreConditional(false));
  }

  /** Two threads of priority 255: the first takes the futex and is preempted, the second blocks, the first unlocks; the
      futex is free, the second thread is blocked, and nobody will notify it. */
  lemma LowestPriorityIsForgotten(hash: Hash, addr: nat) returns (s: State, acts: seq<Action>)
    requires IsObject(addr)
    ensures Futex.IsInit(s, addr) && SafeInv(s, addr) && Futex.ValidRun(s, hash, addr, acts)
    ensures var t := Futex.Run(s, hash, addr, acts); t.pcs == [Out, Blocked] && t.word.state == 0 && !NothingLost(t)
  {
    StartInv();
    s := Stage(Start(), Out, Out, FREE_WORD, {});
    PendingAbsent(Start().n.table, addr);
    Futex.InitInv(s, addr);
    FirstLoads(hash, addr);
    FirstTakes(hash, addr);
    var s1 := Stage(Start(), LoadLock(false), Out, FREE_WORD, {});
    var s2 := Stage(Start(), StoreLock(false, FREE_WORD), Out, FREE_WORD, {0});
    var s3 := Stage(Start(), Holding, Out, HELD, {});
    acts := HolderPreempted(hash, addr);
    Extend(s2, hash, addr, StoreConditional(false), s3, acts);
    acts := [StoreConditional(false)] + acts;
    Extend(s1, hash, addr, LoadReserved, s2, acts);
    acts := [LoadReserved] + acts;
    Extend(s, hash, addr, CallLock, s1, acts);
    acts := [CallLock] + acts;
  }
}
