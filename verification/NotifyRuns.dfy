/** What every run of waits, notifications, timeouts, preemptions and thread switches keeps. */
module NotifyRuns {
  import opened PowerOfTwo
  import opened Algo
  import opened PendingTable
  import opened Threads
  import opened Sched
  import opened Notify

  /** Something that happened to a notification of an object. */
  datatype Note = Accepted(obj: nat) | Woke(obj: nat) | Immediate(obj: nat)

  /** `ticket` numbers the waits in order of arrival; `log` records the fate of every notification. */
  datatype World = World(n: Notes, clock: nat, ticket: seq<nat>, log: seq<Note>)

  /** A yield comes from a thread or from the timer tick, at any time. */
  datatype Step =
    | NotifyStep(obj: nat, drop: bool, queue: bool) | WaitStep(obj: nat) | TimeOutStep(t: nat) | YieldStep | SwitchStep

  predicate IsObject(obj: nat) {
    obj != 0 && obj != HASH_EMPTY
  }

  ghost predicate Enabled(w: World, hash: Hash, s: Step)
    requires ValidNotes(w.n) && |w.n.table| > 0
  {
    match s
    // Only a thread that is running makes a system call; an interrupt never asks for a priority drop.
    case NotifyStep(obj, drop, queue) =>
      && IsObject(obj)
      && (drop ==> Runnable(w.n.k.threads[w.n.k.current]))
      && (queue && !Wakes(w.n, obj) ==> Ends(w.n.table, obj) && NoWrap(w.n.table, hash, obj))
    case WaitStep(obj) => IsObject(obj) && Ends(w.n.table, obj)
    case TimeOutStep(t) => t < |w.n.k.threads|
    case YieldStep => true
    case SwitchStep => true
  }

  ghost function Apply(w: World, hash: Hash, s: Step): World
    requires Inv(w) && Enabled(w, hash, s)
  {
    match s
    case NotifyStep(obj, drop, queue) =>
      var (n, rc) := NotifyObject(w.n, hash, obj, drop, queue);
      var wakes := Wakes(w.n, obj);
      w.(n := n, log := w.log + if wakes then [Accepted(obj), Woke(obj)] else if queue && rc == Ok then [Accepted(obj)] else [])
    case WaitStep(obj) =>
      var (n, rc) := WaitForObject(w.n, hash, obj);
      if rc == Busy then w
      else if n.waiters == w.n.waiters then w.(n := n, log := w.log + [Immediate(obj)])
      else w.(n := n, clock := w.clock + 1, ticket := w.ticket[w.n.k.current := w.clock])
    case TimeOutStep(t) => w.(n := TimeOut(w.n, t))
    case YieldStep => w.(n := w.n.(k := Yield(w.n.k)))
    case SwitchStep => w.(n := w.n.(k := Switch(w.n.k)))
  }

  // ---------------------------------------------------------- the waiters

  /** The list holds exactly the waiting threads, each once, and exactly they have an object. */
  ghost predicate ListInv(n: Notes) {
    && NoDuplicates(n.waiters)
    && (forall t: nat :: t < |n.k.threads| ==> (t in n.waiters <==> n.k.threads[t].state == Waiting))
    && (forall t: nat :: t < |n.k.threads| ==> (n.k.threads[t].state == Waiting <==> n.k.threads[t].waitObject != 0))
  }

  /** The list holds exactly the waiting threads, each once, in order of arrival. */
  ghost predicate WaitersInv(w: World) {
    var n := w.n;
    && ValidNotes(n)
    && |w.ticket| == |n.k.threads|
    && ListInv(n)
    && (forall i, j :: 0 <= i < j < |n.waiters| ==> w.ticket[n.waiters[i]] < w.ticket[n.waiters[j]])
    && (forall i :: 0 <= i < |n.waiters| ==> w.ticket[n.waiters[i]] < w.clock)
  }

  /** A requested switch goes to a runnable thread other than the current one. */
  ghost predicate SwitchInv(k: Kernel) {
    k.pending ==> k.next < |k.threads| && k.next != k.current && Runnable(k.threads[k.next])
  }

  ghost predicate TableInv(n: Notes) {
    && WellCounted(n.table, n.size)
    && forall i :: 0 <= i < |n.table| ==> n.table[i].pending < COUNT_MODULUS
  }

  ghost predicate Inv(w: World) {
    WaitersInv(w) && SwitchInv(w.n.k) && TableInv(w.n) && |w.n.table| > 0
  }

  lemma WithoutMembers(s: seq<nat>, i: nat)
    requires i < |s| && NoDuplicates(s)
    ensures NoDuplicates(Without(s, i))
    ensures forall x :: x in Without(s, i) <==> x in s && x != s[i]
  {
  }

  /** Taking one waiter off the list and waking its thread keeps the rest of the list as it was. */
  lemma WakeKeepsWaiters(w: World, i: nat, k: Kernel)
    requires WaitersInv(w) && i < |w.n.waiters|
    requires var t := w.n.waiters[i];
             && ValidKernel(k) && |k.threads| == |w.n.k.threads|
             && k.threads[t].state != Waiting && k.threads[t].waitObject == 0
             && forall u :: 0 <= u < |k.threads| && u != t ==>
                  k.threads[u].state == w.n.k.threads[u].state && k.threads[u].waitObject == w.n.k.threads[u].waitObject
    ensures WaitersInv(w.(n := w.n.(k := k, waiters := Without(w.n.waiters, i))))
  {
    WithoutMembers(w.n.waiters, i);
  }

  lemma BlockKeepsWaiters(w: World, obj: nat)
    requires WaitersInv(w) && SwitchInv(w.n.k) && obj != 0 && Runnable(w.n.k.threads[w.n.k.current])
    ensures var v := w.(n := Block(w.n, obj), clock := w.clock + 1, ticket := w.ticket[w.n.k.current := w.clock]);
            WaitersInv(v) && SwitchInv(v.n.k)
  {
    var c := w.n.k.current;
    var v := w.(n := Block(w.n, obj), clock := w.clock + 1, ticket := w.ticket[c := w.clock]);
    assert c !in w.n.waiters;
    assert NoDuplicates(v.n.waiters);
    ListBound(v.n.waiters, |w.n.k.threads|);
  }

  lemma SwitchKeepsInv(w: World)
    requires WaitersInv(w) && SwitchInv(w.n.k)
    ensures WaitersInv(w.(n := w.n.(k := Switch(w.n.k)))) && SwitchInv(Switch(w.n.k))
  {
  }

  lemma WokenKeepsWaiters(w: World, b: nat, drop: bool)
    requires WaitersInv(w) && SwitchInv(w.n.k) && b < |w.n.waiters|
    ensures WaitersInv(w.(n := WakeWaiter(w.n, b, drop))) && SwitchInv(WakeWaiter(w.n, b, drop).k)
  {
    WakeTouchesOne(w.n, b, drop);
    WakeKeepsWaiters(w, b, WakeWaiter(w.n, b, drop).k);
    assert WakeWaiter(w.n, b, drop) == w.n.(k := WakeWaiter(w.n, b, drop).k, waiters := Without(w.n.waiters, b));
  }

  lemma NotifyKeepsWaiters(w: World, hash: Hash, obj: nat, drop: bool, queue: bool)
    requires Inv(w) && Enabled(w, hash, NotifyStep(obj, drop, queue))
    ensures var v := Apply(w, hash, NotifyStep(obj, drop, queue)); WaitersInv(v) && SwitchInv(v.n.k)
  {
    if Wakes(w.n, obj) {
      WokenKeepsWaiters(w, BestWaiter(w.n.k.threads, w.n.waiters, obj, |w.n.waiters|), drop);
    }
  }

  lemma TimeOutKeepsWaiters(w: World, t: nat)
    requires Inv(w) && t < |w.n.k.threads|
    ensures var v := w.(n := TimeOut(w.n, t)); WaitersInv(v) && SwitchInv(v.n.k)
  {
    if w.n.k.threads[t].waitObject != 0 {
      assert t in w.n.waiters;
      var i := IndexOf(w.n.waiters, t);
      WakeKeepsWaiters(w, i, TimeOut(w.n, t).k);
    }
  }

  lemma NotifyKeepsInv(w: World, hash: Hash, obj: nat, drop: bool, queue: bool)
    requires Inv(w) && Enabled(w, hash, NotifyStep(obj, drop, queue))
    ensures Inv(Apply(w, hash, NotifyStep(obj, drop, queue)))
  {
    NotifyKeepsWaiters(w, hash, obj, drop, queue);
    if !Wakes(w.n, obj) && queue {
      var m: nat :| |w.n.table| == Pow2(m);
      QueueCounts(m, w.n.table, w.n.size, hash, obj);
      QueueRange(w.n.table, w.n.size, hash, obj);
    }
  }

  lemma WaitKeepsInv(w: World, hash: Hash, obj: nat)
    requires Inv(w) && Enabled(w, hash, WaitStep(obj))
    ensures Inv(Apply(w, hash, WaitStep(obj)))
  {
    var m: nat :| |w.n.table| == Pow2(m);
    DequeueCounts(m, w.n.table, w.n.size, hash, obj);
    DequeueRange(w.n.table, w.n.size, hash, obj);
    if Runnable(w.n.k.threads[w.n.k.current]) && !Dequeue(w.n.table, w.n.size, hash, obj).2 {
      BlockKeepsWaiters(w, obj);
    }
  }

  lemma StepKeepsInv(w: World, hash: Hash, s: Step)
    requires Inv(w) && Enabled(w, hash, s)
    ensures Inv(Apply(w, hash, s))
  {
    match s {
      case NotifyStep(obj, drop, queue) => NotifyKeepsInv(w, hash, obj, drop, queue);
      case WaitStep(obj) => WaitKeepsInv(w, hash, obj);
      case TimeOutStep(t) => TimeOutKeepsWaiters(w, t);
      case YieldStep =>
      case SwitchStep => SwitchKeepsInv(w);
    }
  }

  lemma QueueRange(t: seq<Entry>, size: nat, hash: Hash, obj: nat)
    requires |t| > 0 && forall i :: 0 <= i < |t| ==> t[i].pending < COUNT_MODULUS
    ensures var o := Queue(t, size, hash, obj);
            |o.table| == |t| && forall i :: 0 <= i < |t| ==> o.table[i].pending < COUNT_MODULUS
  {
  }

  lemma DequeueRange(t: seq<Entry>, size: nat, hash: Hash, obj: nat)
    requires |t| > 0 && forall i :: 0 <= i < |t| ==> t[i].pending < COUNT_MODULUS
    ensures var o := Dequeue(t, size, hash, obj);
            |o.0| == |t| && forall i :: 0 <= i < |t| ==> o.0[i].pending < COUNT_MODULUS
  {
  }

  // ------------------------------------------------------------- whole runs

  ghost predicate ValidRun(w: World, hash: Hash, steps: seq<Step>)
    requires Inv(w)
    decreases |steps|
  {
    steps == [] ||
    (Enabled(w, hash, steps[0]) &&
     (StepKeepsInv(w, hash, steps[0]); ValidRun(Apply(w, hash, steps[0]), hash, steps[1..])))
  }

  ghost function Run(w: World, hash: Hash, steps: seq<Step>): (v: World)
    requires Inv(w) && ValidRun(w, hash, steps)
    ensures Inv(v)
    decreases |steps|
  {
    if steps == [] then w
    else
      StepKeepsInv(w, hash, steps[0]);
      Run(Apply(w, hash, steps[0]), hash, steps[1..])
  }

  ghost predicate IsInit(w: World) {
    && ValidNotes(w.n) && !w.n.k.pending && w.n.waiters == [] && |w.n.table| > 0
    && w.n.size == 0 && (forall i :: 0 <= i < |w.n.table| ==> w.n.table[i] == FREE)
    && |w.ticket| == |w.n.k.threads| && w.log == []
    && forall t :: 0 <= t < |w.n.k.threads| ==> w.n.k.threads[t].state != Waiting && w.n.k.threads[t].waitObject == 0
  }

  lemma InitInv(w: World)
    requires IsInit(w)
    ensures Inv(w)
  {
    AllFree(w.n.table);
  }

  /** In every run the waiter list holds exactly the waiting threads, without duplicates and in order of
      arrival, so it never outgrows its array. */
  lemma WaitersAreWaiting(w: World, hash: Hash, steps: seq<Step>)
    requires IsInit(w) && Inv(w) && ValidRun(w, hash, steps)
    ensures var v := Run(w, hash, steps);
            && WaitersInv(v)
            && |v.n.waiters| <= |v.n.k.threads|
            && (Runnable(v.n.k.threads[v.n.k.current]) ==> |v.n.waiters| < |v.n.k.threads|)
  {
    var v := Run(w, hash, steps);
    var c := v.n.k.current;
    if Runnable(v.n.k.threads[c]) {
      assert c !in v.n.waiters;
      ListBound(v.n.waiters + [c], |v.n.k.threads|);
    }
  }

  /** In every run a notification wakes, of the threads waiting on the object with a priority below 255,
      the one of best priority and among equals the one that has waited longest; and no other thread's
      waiting changes. It wakes nobody exactly when all who wait on the object have priority 255. */
  lemma NotifyWakesBest(w: World, hash: Hash, obj: nat, drop: bool, queue: bool)
    requires Inv(w) && Enabled(w, hash, NotifyStep(obj, drop, queue))
    ensures var threads, v := w.n.k.threads, Apply(w, hash, NotifyStep(obj, drop, queue));
            && (Wakes(w.n, obj) <==>
                  exists t: nat :: t < |threads| && threads[t].state == Waiting && threads[t].waitObject == obj && threads[t].priority < 255)
            && (!Wakes(w.n, obj) ==> v.n.waiters == w.n.waiters && v.n.k == w.n.k)
            && (Wakes(w.n, obj) ==> exists t: nat :: t < |threads| && WokenFirst(w, obj, t) && OnlyWoken(w.n.k, v.n.k, t))
  {
    var n := w.n;
    var b := BestWaiter(n.k.threads, n.waiters, obj, |n.waiters|);
    if b != NO_WAITER {
      var t := n.waiters[b];
      BestIsFirst(w, obj, b);
      WakeTouchesOne(n, b, drop);
    } else {
      forall t: nat | t < |n.k.threads| && n.k.threads[t].state == Waiting && n.k.threads[t].waitObject == obj
        ensures n.k.threads[t].priority >= 255
      {
        assert t in n.waiters;
        var i :| 0 <= i < |n.waiters| && n.waiters[i] == t;
        assert WaitsOn(n.k.threads, n.waiters, i, obj);
      }
    }
  }

  /** Thread t waits on the object and is preferred to all others that do. */
  ghost predicate WokenFirst(w: World, obj: nat, t: nat)
    requires WaitersInv(w) && t < |w.n.k.threads|
  {
    var threads := w.n.k.threads;
    && threads[t].state == Waiting && threads[t].waitObject == obj && threads[t].priority < 255
    && forall u: nat :: u < |threads| && u != t && threads[u].state == Waiting && threads[u].waitObject == obj ==>
         || threads[t].priority < threads[u].priority
         || (threads[t].priority == threads[u].priority && w.ticket[t] < w.ticket[u])
  }

  ghost predicate OnlyWoken(before: Kernel, after: Kernel, t: nat)
    requires t < |before.threads| == |after.threads|
  {
    && after.threads[t].state == (if before.current != t then Ready else Running)
    && after.threads[t].waitObject == 0
    && forall u :: 0 <= u < |before.threads| && u != t ==>
         after.threads[u].state == before.threads[u].state && after.threads[u].waitObject == before.threads[u].waitObject
  }

  lemma BestIsFirst(w: World, obj: nat, b: nat)
    requires WaitersInv(w) && b < |w.n.waiters| && IsBest(w.n.k.threads, w.n.waiters, obj, |w.n.waiters|, b)
    ensures WokenFirst(w, obj, w.n.waiters[b])
  {
    var n := w.n;
    var t := n.waiters[b];
    assert t in n.waiters;
    forall u: nat | u < |n.k.threads| && u != t && n.k.threads[u].state == Waiting && n.k.threads[u].waitObject == obj
      ensures n.k.threads[t].priority < n.k.threads[u].priority
           || (n.k.threads[t].priority == n.k.threads[u].priority && w.ticket[t] < w.ticket[u])
    {
      assert u in n.waiters;
      var i :| 0 <= i < |n.waiters| && n.waiters[i] == u;
      assert WaitsOn(n.k.threads, n.waiters, i, obj);
    }
  }

  lemma WakeTouchesOne(n: Notes, b: nat, drop: bool)
    requires ValidNotes(n) && b < |n.waiters|
    ensures ValidKernel(WakeWaiter(n, b, drop).k) && |WakeWaiter(n, b, drop).k.threads| == |n.k.threads|
    ensures SwitchInv(n.k) ==> SwitchInv(WakeWaiter(n, b, drop).k)
    ensures OnlyWoken(n.k, WakeWaiter(n, b, drop).k, n.waiters[b])
  {
  }

  // ----------------------------------------------------------- conservation

  function Count(log: seq<Note>, x: Note): nat {
    if log == [] then 0 else Count(log[..|log| - 1], x) + if log[|log| - 1] == x then 1 else 0
  }

  /** Every accepted notification of the object has woken a thread, or has let a wait return at once,
      or is still pending. */
  ghost predicate Conserved(w: World, obj: nat) {
    Count(w.log, Accepted(obj)) == Count(w.log, Woke(obj)) + Count(w.log, Immediate(obj)) + PendingOf(w.n.table, obj)
  }

  /** How one more entry in the log changes the three counts of an object. */
  lemma CountThree(log: seq<Note>, e: Note, x: nat)
    ensures Count(log + [e], Accepted(x)) == Count(log, Accepted(x)) + if e == Accepted(x) then 1 else 0
    ensures Count(log + [e], Woke(x)) == Count(log, Woke(x)) + if e == Woke(x) then 1 else 0
    ensures Count(log + [e], Immediate(x)) == Count(log, Immediate(x)) + if e == Immediate(x) then 1 else 0
  {
  }

  lemma WakeConserves(w: World, v: World, obj: nat, x: nat)
    requires Conserved(w, x) && v.n.table == w.n.table && v.log == w.log + [Accepted(obj), Woke(obj)]
    ensures Conserved(v, x)
  {
    CountThree(w.log, Accepted(obj), x);
    CountThree(w.log + [Accepted(obj)], Woke(obj), x);
    assert v.log == w.log + [Accepted(obj)] + [Woke(obj)];
  }

  lemma QueueConserves(w: World, v: World, hash: Hash, obj: nat, x: nat)
    requires Inv(w) && Enabled(w, hash, NotifyStep(obj, false, true)) && !Wakes(w.n, obj) && IsObject(x) && Conserved(w, x)
    requires var o := Queue(w.n.table, w.n.size, hash, obj);
             v.n.table == o.table && v.log == if o.ok then w.log + [Accepted(obj)] else w.log
    ensures Conserved(v, x)
  {
    QueuedPending(w.n.table, w.n.size, hash, obj, x);
    if Queue(w.n.table, w.n.size, hash, obj).ok {
      AcceptConserves(w, v, obj, x);
    }
  }

  /** What queueing a notification of one object does to the count of any. */
  lemma QueuedPending(t: seq<Entry>, size: nat, hash: Hash, obj: nat, x: nat)
    requires IsPow2(|t|) && |t| > 0 && WellCounted(t, size) && Ends(t, obj) && NoWrap(t, hash, obj) && IsObject(obj) && IsObject(x)
    requires forall i :: 0 <= i < |t| ==> t[i].pending < COUNT_MODULUS
    ensures var o := Queue(t, size, hash, obj);
            PendingOf(o.table, x) == PendingOf(t, x) + if o.ok && x == obj then 1 else 0
  {
    var m: nat :| |t| == Pow2(m);
    QueueCounts(m, t, size, hash, obj);
  }

  lemma AcceptConserves(w: World, v: World, obj: nat, x: nat)
    requires Conserved(w, x) && v.log == w.log + [Accepted(obj)]
    requires PendingOf(v.n.table, x) == PendingOf(w.n.table, x) + if x == obj then 1 else 0
    ensures Conserved(v, x)
  {
    CountThree(w.log, Accepted(obj), x);
  }

  /** A notification touches the table only when it is queued. */
  lemma NotifyEffect(w: World, hash: Hash, obj: nat, drop: bool, queue: bool)
    requires Inv(w) && Enabled(w, hash, NotifyStep(obj, drop, queue))
    ensures var v, o := Apply(w, hash, NotifyStep(obj, drop, queue)), Queue(w.n.table, w.n.size, hash, obj);
            if Wakes(w.n, obj) then v.n.table == w.n.table && v.log == w.log + [Accepted(obj), Woke(obj)]
            else if queue then v.n.table == o.table && v.log == if o.ok then w.log + [Accepted(obj)] else w.log
            else v.n.table == w.n.table && v.log == w.log
  {
  }

  lemma NotifyConserves(w: World, hash: Hash, obj: nat, drop: bool, queue: bool, x: nat)
    requires Inv(w) && Enabled(w, hash, NotifyStep(obj, drop, queue)) && IsObject(x) && Conserved(w, x)
    ensures Conserved(Apply(w, hash, NotifyStep(obj, drop, queue)), x)
  {
    var v := Apply(w, hash, NotifyStep(obj, drop, queue));
    NotifyEffect(w, hash, obj, drop, queue);
    if Wakes(w.n, obj) {
      WakeConserves(w, v, obj, x);
    } else if queue {
      QueueConserves(w, v, hash, obj, x);
    }
  }

  lemma WaitConserves(w: World, hash: Hash, obj: nat, x: nat)
    requires Inv(w) && Enabled(w, hash, WaitStep(obj)) && IsObject(x) && Conserved(w, x)
    ensures Conserved(Apply(w, hash, WaitStep(obj)), x)
  {
    var m: nat :| |w.n.table| == Pow2(m);
    DequeueCounts(m, w.n.table, w.n.size, hash, obj);
    CountThree(w.log, Immediate(obj), x);
  }

  lemma StepConserves(w: World, hash: Hash, s: Step, x: nat)
    requires Inv(w) && Enabled(w, hash, s) && IsObject(x) && Conserved(w, x)
    ensures Conserved(Apply(w, hash, s), x)
  {
    match s {
      case NotifyStep(obj, drop, queue) => NotifyConserves(w, hash, obj, drop, queue, x);
      case WaitStep(obj) => WaitConserves(w, hash, obj, x);
      case _ =>
    }
  }

  lemma {:induction false} RunConserves(w: World, hash: Hash, steps: seq<Step>, x: nat)
    requires Inv(w) && ValidRun(w, hash, steps) && IsObject(x) && Conserved(w, x)
    ensures Conserved(Run(w, hash, steps), x)
    decreases |steps|
  {
    if steps != [] {
      StepKeepsInv(w, hash, steps[0]);
      StepConserves(w, hash, steps[0], x);
      RunConserves(Apply(w, hash, steps[0]), hash, steps[1..], x);
    }
  }

  /** In every run, whether or not probe paths are cut, the size counter is the number of occupied slots,
      exactly the occupied slots have a positive count, and notifications of every object are conserved. */
  lemma NotificationsConserved(w: World, hash: Hash, steps: seq<Step>, x: nat)
    requires IsInit(w) && Inv(w) && ValidRun(w, hash, steps) && IsObject(x)
    ensures var v := Run(w, hash, steps); WellCounted(v.n.table, v.n.size) && Conserved(v, x)
  {
    PendingAbsent(w.n.table, x);
    RunConserves(w, hash, steps, x);
  }

  // ------------------------------------------------- pending or waited for

  /** Every stored address is reachable, and nobody who could be woken waits on an object with a pending count. */
  ghost predicate Exclusive(w: World, hash: Hash)
    requires Inv(w)
  {
    && Reachable(w.n.table, hash)
    && forall t :: 0 <= t < |w.n.k.threads| && w.n.k.threads[t].state == Waiting && w.n.k.threads[t].priority < 255 ==>
         PendingOf(w.n.table, w.n.k.threads[t].waitObject) == 0
  }

  /** The step frees no slot on the probe path of another stored address. */
  ghost predicate CutsNothing(w: World, hash: Hash, s: Step)
    requires Inv(w)
  {
    s.WaitStep? && Runnable(w.n.k.threads[w.n.k.current]) ==> !Cuts(w.n.table, hash, s.obj)
  }

  /** Objects are never 0 or HASH_EMPTY. */
  ghost predicate ObjectsInv(w: World) {
    forall t :: 0 <= t < |w.n.k.threads| ==> w.n.k.threads[t].waitObject != HASH_EMPTY
  }

  /** While every stored address is reachable a wait returns at once exactly when a count is pending. */
  lemma WaitReturnsAtOnceIff(w: World, hash: Hash, obj: nat)
    requires Inv(w) && Reachable(w.n.table, hash) && Enabled(w, hash, WaitStep(obj)) && Runnable(w.n.k.threads[w.n.k.current])
    ensures WaitForObject(w.n, hash, obj).0.k == w.n.k <==> PendingOf(w.n.table, obj) > 0
  {
    LookupIsPending(w.n.table, hash, obj);
    var f := Find(w.n.table, hash, obj);
    assert w.n.table[f].address == obj ==> w.n.table[f].pending > 0;
    assert Block(w.n, obj).k.threads[w.n.k.current].state == Waiting;
  }

  lemma NotifyKeepsExclusive(w: World, hash: Hash, obj: nat, drop: bool, queue: bool)
    requires Inv(w) && ObjectsInv(w) && Enabled(w, hash, NotifyStep(obj, drop, queue)) && Exclusive(w, hash)
    ensures Inv(Apply(w, hash, NotifyStep(obj, drop, queue)))
    ensures Exclusive(Apply(w, hash, NotifyStep(obj, drop, queue)), hash) && ObjectsInv(Apply(w, hash, NotifyStep(obj, drop, queue)))
  {
    StepKeepsInv(w, hash, NotifyStep(obj, drop, queue));
    if Wakes(w.n, obj) {
      WakeKeepsExclusive(w, hash, BestWaiter(w.n.k.threads, w.n.waiters, obj, |w.n.waiters|), drop);
    } else if queue {
      QueueKeepsExclusive(w, hash, obj);
    }
  }

  lemma WakeKeepsExclusive(w: World, hash: Hash, b: nat, drop: bool)
    requires Inv(w) && ObjectsInv(w) && Exclusive(w, hash) && b < |w.n.waiters|
    requires drop ==> Runnable(w.n.k.threads[w.n.k.current])
    ensures var k := WakeWaiter(w.n, b, drop).k;
            forall t :: 0 <= t < |k.threads| ==>
              && k.threads[t].waitObject != HASH_EMPTY
              && (k.threads[t].state == Waiting && k.threads[t].priority < 255 ==> PendingOf(w.n.table, k.threads[t].waitObject) == 0)
  {
    WakeTouchesOne(w.n, b, drop);
    WakePriorities(w.n, b, drop);
  }

  lemma QueueKeepsExclusive(w: World, hash: Hash, obj: nat)
    requires Inv(w) && ObjectsInv(w) && Exclusive(w, hash) && !Wakes(w.n, obj)
    requires IsObject(obj) && Ends(w.n.table, obj) && NoWrap(w.n.table, hash, obj)
    ensures var o := Queue(w.n.table, w.n.size, hash, obj);
            && Reachable(o.table, hash)
            && forall t :: 0 <= t < |w.n.k.threads| && w.n.k.threads[t].state == Waiting && w.n.k.threads[t].priority < 255 ==>
                 PendingOf(o.table, w.n.k.threads[t].waitObject) == 0
  {
    var m: nat :| |w.n.table| == Pow2(m);
    QueueCounts(m, w.n.table, w.n.size, hash, obj);
    QueueKeepsReachable(m, w.n.table, w.n.size, hash, obj);
    NotifyWakesBest(w, hash, obj, false, true);
  }

  /** A notification changes the priority of the current thread only. */
  lemma WakePriorities(n: Notes, b: nat, drop: bool)
    requires ValidNotes(n) && b < |n.waiters|
    ensures var k := WakeWaiter(n, b, drop).k;
            && |k.threads| == |n.k.threads|
            && forall u :: 0 <= u < |n.k.threads| && (u != n.k.current || !drop) ==> k.threads[u].priority == n.k.threads[u].priority
  {
  }

  lemma WaitKeepsExclusive(w: World, hash: Hash, obj: nat)
    requires Inv(w) && ObjectsInv(w) && Enabled(w, hash, WaitStep(obj)) && Exclusive(w, hash) && CutsNothing(w, hash, WaitStep(obj))
    ensures Inv(Apply(w, hash, WaitStep(obj)))
    ensures Exclusive(Apply(w, hash, WaitStep(obj)), hash) && ObjectsInv(Apply(w, hash, WaitStep(obj)))
  {
    StepKeepsInv(w, hash, WaitStep(obj));
    if Runnable(w.n.k.threads[w.n.k.current]) {
      if Dequeue(w.n.table, w.n.size, hash, obj).2 {
        TakenKeepsExclusive(w, hash, obj);
      } else {
        BlockedKeepsExclusive(w, hash, obj);
      }
    }
  }

  /** A wait that takes a pending notification changes the table only. */
  lemma TakenKeepsExclusive(w: World, hash: Hash, obj: nat)
    requires Inv(w) && ObjectsInv(w) && Enabled(w, hash, WaitStep(obj)) && Exclusive(w, hash) && CutsNothing(w, hash, WaitStep(obj))
    requires Runnable(w.n.k.threads[w.n.k.current]) && Inv(Apply(w, hash, WaitStep(obj)))
    requires Dequeue(w.n.table, w.n.size, hash, obj).2
    ensures Exclusive(Apply(w, hash, WaitStep(obj)), hash) && ObjectsInv(Apply(w, hash, WaitStep(obj)))
  {
    var m: nat :| |w.n.table| == Pow2(m);
    DequeueCounts(m, w.n.table, w.n.size, hash, obj);
    DequeueKeepsReachableIff(m, w.n.table, w.n.size, hash, obj);
  }

  /** A wait that blocks found nothing pending for its object. */
  lemma BlockedKeepsExclusive(w: World, hash: Hash, obj: nat)
    requires Inv(w) && ObjectsInv(w) && Enabled(w, hash, WaitStep(obj)) && Exclusive(w, hash)
    requires Runnable(w.n.k.threads[w.n.k.current]) && Inv(Apply(w, hash, WaitStep(obj)))
    requires !Dequeue(w.n.table, w.n.size, hash, obj).2
    ensures Exclusive(Apply(w, hash, WaitStep(obj)), hash) && ObjectsInv(Apply(w, hash, WaitStep(obj)))
  {
    var c, after := w.n.k.current, Apply(w, hash, WaitStep(obj)).n;
    assert after.table == w.n.table;
    assert after.k.threads == w.n.k.threads[c := w.n.k.threads[c].(state := Waiting, waitObject := obj)];
    assert PendingOf(w.n.table, obj) == 0 by {
      LookupIsPending(w.n.table, hash, obj);
    }
  }

  lemma TimeOutKeepsExclusive(w: World, hash: Hash, t: nat)
    requires Inv(w) && ObjectsInv(w) && Enabled(w, hash, TimeOutStep(t)) && Exclusive(w, hash)
    ensures var v := Apply(w, hash, TimeOutStep(t)); Inv(v) && Exclusive(v, hash) && ObjectsInv(v)
  {
    StepKeepsInv(w, hash, TimeOutStep(t));
  }

  lemma SwitchKeepsExclusive(w: World, hash: Hash, s: Step)
    requires Inv(w) && ObjectsInv(w) && Exclusive(w, hash) && (s.YieldStep? || s.SwitchStep?)
    ensures Inv(Apply(w, hash, s)) && Exclusive(Apply(w, hash, s), hash) && ObjectsInv(Apply(w, hash, s))
  {
    StepKeepsInv(w, hash, s);
  }

  lemma StepKeepsExclusive(w: World, hash: Hash, s: Step)
    requires Inv(w) && ObjectsInv(w) && Enabled(w, hash, s) && Exclusive(w, hash) && CutsNothing(w, hash, s)
    ensures Inv(Apply(w, hash, s)) && Exclusive(Apply(w, hash, s), hash) && ObjectsInv(Apply(w, hash, s))
  {
    match s {
      case NotifyStep(obj, drop, queue) => NotifyKeepsExclusive(w, hash, obj, drop, queue);
      case WaitStep(obj) => WaitKeepsExclusive(w, hash, obj);
      case TimeOutStep(t) => TimeOutKeepsExclusive(w, hash, t);
      case YieldStep => SwitchKeepsExclusive(w, hash, s);
      case SwitchStep => SwitchKeepsExclusive(w, hash, s);
    }
  }

  ghost predicate RunCutsNothing(w: World, hash: Hash, steps: seq<Step>)
    requires Inv(w) && ValidRun(w, hash, steps)
    decreases |steps|
  {
    steps == [] ||
    (CutsNothing(w, hash, steps[0]) &&
     (StepKeepsInv(w, hash, steps[0]); RunCutsNothing(Apply(w, hash, steps[0]), hash, steps[1..])))
  }

  lemma {:induction false} RunKeepsExclusive(w: World, hash: Hash, steps: seq<Step>)
    requires Inv(w) && ObjectsInv(w) && ValidRun(w, hash, steps) && RunCutsNothing(w, hash, steps) && Exclusive(w, hash)
    ensures Exclusive(Run(w, hash, steps), hash)
    decreases |steps|
  {
    if steps != [] {
      StepKeepsExclusive(w, hash, steps[0]);
      RunKeepsExclusive(Apply(w, hash, steps[0]), hash, steps[1..]);
    }
  }

  /** In every run that cuts no probe path the table stays a map, and no object has both a pending count
      and a waiter of priority below 255. */
  lemma NeverPendingAndWaitedFor(w: World, hash: Hash, steps: seq<Step>)
    requires IsInit(w) && Inv(w) && ValidRun(w, hash, steps) && RunCutsNothing(w, hash, steps)
    ensures Exclusive(Run(w, hash, steps), hash)
  {
    RunKeepsExclusive(w, hash, steps);
  }
}
