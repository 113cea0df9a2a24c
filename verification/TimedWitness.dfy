/** Two runs in which a timeout stays behind (src/os/kernel/notify.c, timer.c). */
module TimedWitness {
  import opened PowerOfTwo
  import opened Algo
  import opened PendingTable
  import opened Threads
  import opened Sched
  import opened Notify
  import opened TimedWaits
  import N = NotifyRuns
  import T = Timer
  import R = TimerRuns

  const IDLE_SLOT: T.Sleeper := T.Sleeper(HASH_EMPTY, 0, 0, 0, T.Sleep)

  function Armed(thread: nat, timeout: nat): T.Sleeper {
    T.Sleeper(TimeoutKey(thread), 0, timeout, thread, T.Timeout)
  }

  function Machine(threads: seq<Thread>, current: nat, next: nat, pending: bool): Kernel {
    Kernel(threads, current, next, pending, seq(32, i => i < 2), 2)
  }

  /** The operation takes state s to state r. */
  ghost predicate Leads(s: System, hash: T.Hash, op: Op, r: System) {
    Inv(s) && Enabled(s, hash, op) && r == Apply(s, hash, op)
  }

  // ---------------------------------------------- a wait that returns at once

  function Single(state: ThreadState, obj: nat): Kernel {
    Machine([Thread(state, 1, 1, obj, 0, 0)], 0, 0, false)
  }

  function Begin(): System {
    System(N.World(Notes(Single(Running, 0), [FREE], 0, []), 0, [0], []), T.Timers([IDLE_SLOT], [], 0), [false])
  }

  function Pending(obj: nat): System {
    Begin().(w := N.World(Notes(Single(Running, 0), [Entry(obj, 1)], 1, []), 0, [0], [N.Accepted(obj)]))
  }

  function Returned(obj: nat, timeout: nat): System {
    System(N.World(Notes(Single(Running, 0), [FREE], 0, []), 0, [0], [N.Accepted(obj), N.Immediate(obj)]),
           T.Timers([Armed(0, timeout)], [T.Due(timeout, 0)], 0), [true])
  }

  function Untimed(obj: nat, timeout: nat, other: nat): System {
    Returned(obj, timeout).(
      w := N.World(Notes(Single(Waiting, other), [FREE], 0, [0]), 1, [0], [N.Accepted(obj), N.Immediate(obj)]),
      timed := [false])
  }

  lemma BeginIsInit()
    ensures IsInit(Begin()) && Good(Begin())
  {
    assert 1 == Pow2(0);
    InitGood(Begin());
  }

  lemma FreeSlot(hash: T.Hash, obj: nat)
    requires N.IsObject(obj)
    ensures Ends([FREE], obj) && Queue([FREE], 0, hash, obj) == Outcome([Entry(obj, 1)], 1, true)
    ensures Dequeue([FREE], 0, hash, obj) == ([FREE], 0, false)
    ensures Ends([Entry(obj, 1)], obj) && Dequeue([Entry(obj, 1)], 1, hash, obj) == ([FREE], 0, true)
  {
    assert Stops(Keys([FREE]), obj, 0) && Stops(Keys([Entry(obj, 1)]), obj, 0);
    assert [FREE][0 := Entry(obj, 1)] == [Entry(obj, 1)] && [Entry(obj, 1)][0 := FREE] == [FREE];
  }

  lemma QueueOne(hash: T.Hash, obj: nat)
    requires N.Inv(Begin().w) && N.IsObject(obj)
    ensures N.Enabled(Begin().w, hash, N.NotifyStep(obj, false, true)) && !Wakes(Begin().w.n, obj)
    ensures N.Apply(Begin().w, hash, N.NotifyStep(obj, false, true)) == Pending(obj).w
  {
    FreeSlot(hash, obj);
    assert NotifyObject(Begin().w.n, hash, obj, false, true) == (Pending(obj).w.n, Ok);
  }

  lemma Queued(hash: T.Hash, obj: nat)
    requires Good(Begin()) && N.IsObject(obj)
    ensures Leads(Begin(), hash, NotifyOp(obj, false, true), Pending(obj)) && Good(Pending(obj))
  {
    QueueOne(hash, obj);
    StepExactIff(Begin(), hash, NotifyOp(obj, false, true));
  }

  lemma ArmFirst(hash: T.Hash, timeout: nat)
    requires R.OneShotInv(Begin().t) && timeout < T.CLOCK
    ensures R.Enabled(Begin().t, hash, R.Arm(0, timeout, 0, T.Timeout))
    ensures R.Apply(Begin().t, hash, R.Arm(0, timeout, 0, T.Timeout)) == T.Timers([Armed(0, timeout)], [T.Due(timeout, 0)], 0)
  {
    assert Stops(Column(Begin().t.sleepers, T.Key), TimeoutKey(0), 0);
    assert [IDLE_SLOT][0 := Armed(0, timeout)] == [Armed(0, timeout)];
    R.LookupsEnd(Begin().t);
    R.ArmEffect(Begin().t, 0, 0, timeout, 0, T.Timeout);
    assert T.With([], 0, T.Due(timeout, 0)) == [T.Due(timeout, 0)];
  }

  lemma TakeOne(hash: T.Hash, obj: nat, timeout: nat)
    requires N.Inv(Pending(obj).w) && N.IsObject(obj)
    ensures N.Enabled(Pending(obj).w, hash, N.WaitStep(obj))
    ensures N.Apply(Pending(obj).w, hash, N.WaitStep(obj)) == Returned(obj, timeout).w
  {
    FreeSlot(hash, obj);
    assert WaitForObject(Pending(obj).w.n, hash, obj) == (Returned(obj, timeout).w.n, Ok);
  }

  lemma WaitReturns(hash: T.Hash, obj: nat, timeout: nat)
    requires Good(Pending(obj)) && N.IsObject(obj) && 0 < timeout < T.CLOCK
    ensures Leads(Pending(obj), hash, WaitOp(obj, timeout, 0), Returned(obj, timeout)) && Inv(Returned(obj, timeout))
  {
    ArmFirst(hash, timeout);
    TakeOne(hash, obj, timeout);
    assert [false][0 := true] == [true];
    StepExactIff(Pending(obj), hash, WaitOp(obj, timeout, 0));
  }

  lemma BlockAlone(hash: T.Hash, obj: nat, timeout: nat, other: nat)
    requires N.Inv(Returned(obj, timeout).w) && N.IsObject(other)
    ensures N.Enabled(Returned(obj, timeout).w, hash, N.WaitStep(other))
    ensures N.Apply(Returned(obj, timeout).w, hash, N.WaitStep(other)) == Untimed(obj, timeout, other).w
  {
    var w := Returned(obj, timeout).w;
    FreeSlot(hash, other);
    BlockedAlone(w.n, other);
    assert WaitForObject(w.n, hash, other) == (Untimed(obj, timeout, other).w.n, Ok);
    assert w.ticket[0 := 0] == [0];
  }

  lemma BlockedAlone(n: Notes, other: nat)
    requires n == Notes(Single(Running, 0), [FREE], 0, []) && ValidNotes(n)
    ensures Block(n, other) == Notes(Single(Waiting, other), [FREE], 0, [0])
  {
    var threads := Single(Waiting, other).threads;
    assert n.k.threads[0 := threads[0]] == threads;
    assert [] + [0] == [0];
  }

  lemma WaitBlocks(hash: T.Hash, obj: nat, timeout: nat, other: nat)
    requires Inv(Returned(obj, timeout)) && N.IsObject(other)
    ensures Leads(Returned(obj, timeout), hash, WaitOp(other, 0, 0), Untimed(obj, timeout, other))
    ensures Inv(Untimed(obj, timeout, other))
  {
    BlockAlone(hash, obj, timeout, other);
    assert [true][0 := false] == [false];
    N.StepKeepsInv(Returned(obj, timeout).w, hash, N.WaitStep(other));
  }

  lemma ExpiresFirst(s: System, hash: T.Hash, start: nat, end: nat)
    requires Inv(s) && T.Ticks(s.t, start, end) && |s.t.queue| == 1 && T.IsDue(s.t.queue[0].resume, start, end)
    ensures Tick(s, hash, start, end) == Expire(s, hash)
  {
    T.FireDecreases(s.t, start, end);
    T.FireQueue(s.t);
    assert !T.Periodic(s.t.sleepers[s.t.queue[0].slot]);
    var r := Expire(s, hash);
    assert |r.t.queue| == 0;
  }

  lemma TickWakes(hash: T.Hash, obj: nat, timeout: nat, other: nat, end: nat)
    requires Inv(Untimed(obj, timeout, other)) && N.IsObject(other) && timeout <= end
    ensures var r := Untimed(obj, timeout, other);
            Enabled(r, hash, TickOp(0, end)) && Apply(r, hash, TickOp(0, end)).w.n.k.threads[0].state == Running
  {
    var r := Untimed(obj, timeout, other);
    R.LookupsEnd(r.t);
    ExpiresFirst(r, hash, 0, end);
  }

  /** A notification is pending when a thread waits for it with a timeout. The wait returns at once, and the timeout it
      armed later ends a wait of the thread on another object that has none. */
  lemma StaleTimeoutEndsLaterWait(hash: T.Hash, obj: nat, timeout: nat, other: nat, end: nat)
      returns (s: System, a: System, b: System, r: System)
    requires N.IsObject(obj) && N.IsObject(other) && 0 < timeout < T.CLOCK && timeout <= end
    ensures IsInit(s) && Leads(s, hash, NotifyOp(obj, false, true), a) && Leads(a, hash, WaitOp(obj, timeout, 0), b)
    ensures Leads(b, hash, WaitOp(other, 0, 0), r)
    ensures Inv(r) && |r.timed| == 1 && r.w.n.k.threads[0].state == Waiting && !r.timed[0]
    ensures Enabled(r, hash, TickOp(0, end)) && Apply(r, hash, TickOp(0, end)).w.n.k.threads[0].state == Running
  {
    s, a, b, r := Begin(), Pending(obj), Returned(obj, timeout), Untimed(obj, timeout, other);
    BeginIsInit();
    Queued(hash, obj);
    WaitReturns(hash, obj, timeout);
    WaitBlocks(hash, obj, timeout, other);
    TickWakes(hash, obj, timeout, other, end);
  }

  // ------------------------------------------------- a search that is cut off

  function Two(first: ThreadState, object1: nat, second: ThreadState, object2: nat): seq<Thread> {
    [Thread(first, 1, 1, object1, 0, 0), Thread(second, 1, 1, object2, 1, 0)]
  }

  /** Both threads are at work, and both timer slots free. */
  function Awakened(): System {
    System(N.World(Notes(Machine(Two(Running, 0, Ready, 0), 0, 0, false), [FREE], 0, []), 0, [0, 0], []),
           T.Timers([IDLE_SLOT, IDLE_SLOT], [], 0), [false, false])
  }

  function FirstWaits(x: nat, d: nat): System {
    System(N.World(Notes(Machine(Two(Waiting, x, Ready, 0), 0, 1, true), [FREE], 0, [0]), 1, [0, 0], []),
           T.Timers([Armed(0, d), IDLE_SLOT], [T.Due(d, 0)], 0), [true, false])
  }

  function SecondRuns(x: nat, d: nat): System {
    FirstWaits(x, d).(w := N.World(Notes(Machine(Two(Waiting, x, Running, 0), 1, 1, false), [FREE], 0, [0]), 1, [0, 0], []))
  }

  function BothWait(x: nat, d: nat, y: nat, e: nat): System {
    System(N.World(Notes(Machine(Two(Waiting, x, Waiting, y), 1, 1, false), [FREE], 0, [0, 1]), 2, [0, 1], []),
           T.Timers([Armed(0, d), Armed(1, e)], [T.Due(d, 0), T.Due(e, 1)], 0), [true, true])
  }

  function FirstWoken(x: nat, d: nat, y: nat, e: nat): System {
    System(N.World(Notes(Machine(Two(Ready, 0, Waiting, y), 1, 1, false), [FREE], 0, [1]), 2, [0, 1], [N.Accepted(x), N.Woke(x)]),
           T.Timers([Armed(0, d).(key := HASH_EMPTY), Armed(1, e)], [T.Due(e, 1)], 0), [true, true])
  }

  lemma AwakenedIsInit()
    ensures IsInit(Awakened()) && Good(Awakened())
  {
    assert 1 == Pow2(0) && 2 == Pow2(1);
    InitGood(Awakened());
  }

  /** The search in a table of two slots that starts at the first. */
  lemma SlotInTwo(t: T.Timers, hash: T.Hash, u: nat)
    requires |t.sleepers| == 2 && hash(TimeoutKey(u)) == 0
    requires var keys := Column(t.sleepers, T.Key); Stops(keys, TimeoutKey(u), 0) || Stops(keys, TimeoutKey(u), 1)
    ensures Searchable(Column(t.sleepers, T.Key), TimeoutKey(u))
    ensures T.FindSlot(t, hash, u, T.Timeout) == if Stops(Column(t.sleepers, T.Key), TimeoutKey(u), 0) then 0 else 1
  {
    SlotOfTwo(Column(t.sleepers, T.Key), TimeoutKey(u));
  }

  lemma FirstArms(hash: T.Hash, d: nat)
    requires R.OneShotInv(Awakened().t) && d < T.CLOCK && hash(TimeoutKey(0)) == 0
    ensures R.Enabled(Awakened().t, hash, R.Arm(0, d, 0, T.Timeout))
    ensures R.Apply(Awakened().t, hash, R.Arm(0, d, 0, T.Timeout)) == T.Timers([Armed(0, d), IDLE_SLOT], [T.Due(d, 0)], 0)
  {
    var t := Awakened().t;
    assert Stops(Column(t.sleepers, T.Key), TimeoutKey(0), 0);
    SlotInTwo(t, hash, 0);
    R.LookupsEnd(t);
    R.ArmEffect(t, 0, 0, d, 0, T.Timeout);
    assert [IDLE_SLOT, IDLE_SLOT][0 := Armed(0, d)] == [Armed(0, d), IDLE_SLOT];
    assert T.With([], 0, T.Due(d, 0)) == [T.Due(d, 0)];
  }

  lemma FirstBlocks(hash: T.Hash, x: nat, d: nat)
    requires N.Inv(Awakened().w) && N.IsObject(x)
    ensures N.Enabled(Awakened().w, hash, N.WaitStep(x))
    ensures N.Apply(Awakened().w, hash, N.WaitStep(x)) == FirstWaits(x, d).w
  {
    var n, threads := Awakened().w.n, Two(Waiting, x, Ready, 0);
    FreeSlot(hash, x);
    assert n.k.threads[0 := threads[0]] == threads;
    OtherIsNext(threads, 0, 1);
    assert [] + [0] == [0] && [0, 0][0 := 0] == [0, 0];
    assert WaitForObject(n, hash, x) == (FirstWaits(x, d).w.n, Ok);
  }

  lemma FirstStep(hash: T.Hash, x: nat, d: nat)
    requires Good(Awakened()) && N.IsObject(x) && 0 < d < T.CLOCK && hash(TimeoutKey(0)) == 0
    ensures Leads(Awakened(), hash, WaitOp(x, d, 0), FirstWaits(x, d)) && Good(FirstWaits(x, d))
  {
    FirstArms(hash, d);
    FirstBlocks(hash, x, d);
    FreeSlot(hash, x);
    assert [false, false][0 := true] == [true, false];
    StepExactIff(Awakened(), hash, WaitOp(x, d, 0));
  }

  lemma SwitchStep(hash: T.Hash, x: nat, d: nat)
    requires Good(FirstWaits(x, d))
    ensures Leads(FirstWaits(x, d), hash, SwitchOp, SecondRuns(x, d)) && Good(SecondRuns(x, d))
  {
    assert Two(Waiting, x, Ready, 0)[1 := Two(Waiting, x, Running, 0)[1]] == Two(Waiting, x, Running, 0);
    StepExactIff(FirstWaits(x, d), hash, SwitchOp);
  }

  lemma SecondArms(hash: T.Hash, t: T.Timers, d: nat, e: nat)
    requires t == T.Timers([Armed(0, d), IDLE_SLOT], [T.Due(d, 0)], 0) && R.OneShotInv(t)
    requires d < e < T.CLOCK && hash(TimeoutKey(1)) == 0
    ensures R.Enabled(t, hash, R.Arm(0, e, 1, T.Timeout))
    ensures R.Apply(t, hash, R.Arm(0, e, 1, T.Timeout)) == T.Timers([Armed(0, d), Armed(1, e)], [T.Due(d, 0), T.Due(e, 1)], 0)
  {
    var keys := Column(t.sleepers, T.Key);
    assert Stops(keys, TimeoutKey(1), 1) && !Stops(keys, TimeoutKey(1), 0);
    SlotInTwo(t, hash, 1);
    R.LookupsEnd(t);
    R.ArmEffect(t, 1, 0, e, 1, T.Timeout);
    assert [Armed(0, d), IDLE_SLOT][1 := Armed(1, e)] == [Armed(0, d), Armed(1, e)];
    var times := T.Times(t.queue);
    assert times[1..] == [] && LowerBound(times, e) == 1 + LowerBound([], e) == 1;
    assert T.With(t.queue, 1, T.Due(e, 1)) == [T.Due(d, 0), T.Due(e, 1)];
  }

  lemma NoneIsNext(threads: seq<Thread>, current: nat)
    requires |threads| > 0 && forall i :: 0 <= i < |threads| ==> !Runnable(threads[i])
    ensures !NextThread(threads, current).0
  {
  }

  lemma SecondBlocks(hash: T.Hash, x: nat, d: nat, y: nat, e: nat)
    requires N.Inv(SecondRuns(x, d).w) && N.IsObject(y)
    ensures N.Enabled(SecondRuns(x, d).w, hash, N.WaitStep(y))
    ensures N.Apply(SecondRuns(x, d).w, hash, N.WaitStep(y)) == BothWait(x, d, y, e).w
  {
    var n, threads := SecondRuns(x, d).w.n, Two(Waiting, x, Waiting, y);
    FreeSlot(hash, y);
    assert n.k.threads[1 := threads[1]] == threads;
    NoneIsNext(threads, 1);
    assert [0] + [1] == [0, 1] && [0, 0][1 := 1] == [0, 1];
    assert WaitForObject(n, hash, y) == (BothWait(x, d, y, e).w.n, Ok);
  }

  lemma SecondStep(hash: T.Hash, x: nat, d: nat, y: nat, e: nat)
    requires Good(SecondRuns(x, d)) && N.IsObject(y) && 0 < d < e < T.CLOCK && hash(TimeoutKey(1)) == 0
    ensures Leads(SecondRuns(x, d), hash, WaitOp(y, e, 0), BothWait(x, d, y, e)) && Good(BothWait(x, d, y, e))
  {
    SecondArms(hash, SecondRuns(x, d).t, d, e);
    SecondBlocks(hash, x, d, y, e);
    FreeSlot(hash, y);
    assert [true, false][1 := true] == [true, true];
    StepExactIff(SecondRuns(x, d), hash, WaitOp(y, e, 0));
  }

  lemma FirstCancelled(hash: T.Hash, t: T.Timers, d: nat, e: nat)
    requires t == T.Timers([Armed(0, d), Armed(1, e)], [T.Due(d, 0), T.Due(e, 1)], 0) && R.OneShotInv(t)
    requires d < e < T.CLOCK && hash(TimeoutKey(0)) == 0
    ensures R.Enabled(t, hash, R.CancelEvent(0, T.Timeout)) && T.FindSlot(t, hash, 0, T.Timeout) == 0
    ensures R.Apply(t, hash, R.CancelEvent(0, T.Timeout))
            == T.Timers([Armed(0, d).(key := HASH_EMPTY), Armed(1, e)], [T.Due(e, 1)], 0)
  {
    assert Stops(Column(t.sleepers, T.Key), TimeoutKey(0), 0);
    SlotInTwo(t, hash, 0);
    R.LookupsEnd(t);
    var i := R.LookupFinds(t, 0);
    assert i == 0;
    assert T.Without(t.queue, 0) == [T.Due(e, 1)];
    assert t.sleepers[0 := t.sleepers[0].(key := HASH_EMPTY)] == [Armed(0, d).(key := HASH_EMPTY), Armed(1, e)];
  }

  lemma BestOfTwo(threads: seq<Thread>, waiters: seq<nat>, obj: nat)
    requires |waiters| == 2 && waiters[0] < |threads| && waiters[1] < |threads|
    requires threads[waiters[0]].waitObject == obj != threads[waiters[1]].waitObject && threads[waiters[0]].priority < 0xFF
    ensures BestWaiter(threads, waiters, obj, 2) == 0
  {
    assert WaitsOn(threads, waiters, 0, obj);
  }

  lemma FirstAwakes(hash: T.Hash, x: nat, d: nat, y: nat, e: nat)
    requires N.Inv(BothWait(x, d, y, e).w) && N.IsObject(x) && x != y
    ensures N.Enabled(BothWait(x, d, y, e).w, hash, N.NotifyStep(x, false, false))
    ensures Wakes(BothWait(x, d, y, e).w.n, x) && Candidate(BothWait(x, d, y, e).w.n, x) == 0
    ensures N.Apply(BothWait(x, d, y, e).w, hash, N.NotifyStep(x, false, false)) == FirstWoken(x, d, y, e).w
  {
    var n, threads := BothWait(x, d, y, e).w.n, Two(Ready, 0, Waiting, y);
    BestOfTwo(n.k.threads, n.waiters, x);
    assert n.k.threads[0 := threads[0]] == threads;
    assert Without(n.waiters, 0) == [1];
    assert !MustYield(n, 0, false);
    assert NotifyObject(n, hash, x, false, false) == (FirstWoken(x, d, y, e).w.n, Ok);
  }

  lemma ThirdStep(hash: T.Hash, x: nat, d: nat, y: nat, e: nat)
    requires Good(BothWait(x, d, y, e)) && N.IsObject(x) && x != y && 0 < d < e < T.CLOCK && hash(TimeoutKey(0)) == 0
    ensures Leads(BothWait(x, d, y, e), hash, NotifyOp(x, false, false), FirstWoken(x, d, y, e)) && Good(FirstWoken(x, d, y, e))
  {
    FirstAwakes(hash, x, d, y, e);
    FirstCancelled(hash, BothWait(x, d, y, e).t, d, e);
    StepExactIff(BothWait(x, d, y, e), hash, NotifyOp(x, false, false));
  }

  lemma SearchMisses(hash: T.Hash, s: System, y: nat, e: nat)
    requires Good(s) && N.IsObject(y) && hash(TimeoutKey(1)) == 0
    requires |s.t.sleepers| == 2 && !T.Used(s.t.sleepers[0]) && s.t.sleepers[1] == Armed(1, e)
    requires s.w.n.waiters == [1] && s.w.n.k.threads == Two(Ready, 0, Waiting, y)
    ensures Enabled(s, hash, NotifyOp(y, false, false)) && StaysBehind(s, hash, NotifyOp(y, false, false))
  {
    assert WaitsOn(s.w.n.k.threads, s.w.n.waiters, 0, y);
    assert Stops(Column(s.t.sleepers, T.Key), TimeoutKey(1), 0);
    SlotInTwo(s.t, hash, 1);
    assert s.t.sleepers[1].key == TimeoutKey(1);
  }

  /** Two threads whose timeouts have the same hash wait. The first one's notification frees the slot at which the search
      for the second one's timeout then ends, so that the notification of the second leaves its timeout behind. */
  lemma WokenKeepsTimeout(hash: T.Hash, x: nat, d: nat, y: nat, e: nat)
      returns (s: System, a: System, b: System, c: System, r: System)
    requires N.IsObject(x) && N.IsObject(y) && x != y && 0 < d < e < T.CLOCK && hash(TimeoutKey(0)) == hash(TimeoutKey(1)) == 0
    ensures IsInit(s) && Leads(s, hash, WaitOp(x, d, 0), a) && Leads(a, hash, SwitchOp, b)
    ensures Leads(b, hash, WaitOp(y, e, 0), c) && Leads(c, hash, NotifyOp(x, false, false), r)
    ensures Good(r) && Enabled(r, hash, NotifyOp(y, false, false)) && StaysBehind(r, hash, NotifyOp(y, false, false))
  {
    s, a, b, c, r := Awakened(), FirstWaits(x, d), SecondRuns(x, d), BothWait(x, d, y, e), FirstWoken(x, d, y, e);
    AwakenedIsInit();
    FirstStep(hash, x, d);
    SwitchStep(hash, x, d);
    SecondStep(hash, x, d, y, e);
    ThirdStep(hash, x, d, y, e);
    SearchMisses(hash, r, y, e);
  }
}
