/** Waits with a timeout: the notifications and the timers of one kernel together (src/os/kernel/notify.c, timer.c). */
module TimedWaits {
  import opened PowerOfTwo
  import opened Algo
  import opened Threads
  import opened Notify
  import PendingTable
  import N = NotifyRuns
  import T = Timer
  import R = TimerRuns

  /** `timed` says of each thread whether its last wait had a timeout. */
  datatype System = System(w: N.World, t: T.Timers, timed: seq<bool>)

  datatype Op =
    | WaitOp(obj: nat, timeout: nat, now: nat)
    | NotifyOp(obj: nat, drop: bool, queue: bool)
    | TickOp(start: nat, end: nat)
    | YieldOp
    | SwitchOp

  function TimeoutKey(u: nat): nat {
    T.SleeperKey(T.Timeout, u)
  }

  /** A timeout of thread u is armed. */
  ghost predicate Outstanding(t: T.Timers, u: nat) {
    exists i :: 0 <= i < |t.sleepers| && t.sleepers[i].key == TimeoutKey(u)
  }

  /** The timers are timeouts of threads, at most one for each. */
  ghost predicate Owned(t: T.Timers, threads: nat) {
    && (forall i :: 0 <= i < |t.sleepers| && T.Used(t.sleepers[i]) ==>
          t.sleepers[i].thread < threads && t.sleepers[i].kind == T.Timeout && t.sleepers[i].key == TimeoutKey(t.sleepers[i].thread))
    && (forall i, j :: 0 <= i < j < |t.sleepers| && T.Used(t.sleepers[i]) && T.Used(t.sleepers[j]) ==>
          t.sleepers[i].thread != t.sleepers[j].thread)
  }

  ghost predicate Inv(s: System) {
    && N.Inv(s.w)
    && R.OneShotInv(s.t) && IsPow2(|s.t.sleepers|)
    && Owned(s.t, |s.w.n.k.threads|)
    && |s.timed| == |s.w.n.k.threads|
  }

  /** A timeout is outstanding for exactly the threads that wait with one. */
  ghost predicate Exact(s: System)
    requires |s.timed| == |s.w.n.k.threads|
  {
    forall u: nat :: u < |s.timed| ==>
      (Outstanding(s.t, u) <==> s.w.n.k.threads[u].state == Waiting && s.timed[u])
  }

  ghost predicate Good(s: System) {
    Inv(s) && Exact(s)
  }

  /** The thread that a notification of the object wakes. */
  function Candidate(n: Notes, obj: nat): (t: nat)
    requires ValidNotes(n) && Wakes(n, obj)
    ensures t < |n.k.threads|
  {
    n.waiters[BestWaiter(n.k.threads, n.waiters, obj, |n.waiters|)]
  }

  // ------------------------------------------------------------- the table

  lemma Freed(t: T.Timers, freed: T.Timers, i: nat, threads: nat)
    requires Owned(t, threads) && threads <= 0xFF && i < |t.sleepers| && T.Used(t.sleepers[i])
    requires freed.sleepers == t.sleepers[i := t.sleepers[i].(key := HASH_EMPTY)]
    ensures Owned(freed, threads)
    ensures forall u: nat :: u < threads ==> (Outstanding(freed, u) <==> Outstanding(t, u) && u != t.sleepers[i].thread)
  {
    forall u: nat | u < threads && Outstanding(t, u) && u != t.sleepers[i].thread ensures Outstanding(freed, u) {
      var j :| 0 <= j < |t.sleepers| && t.sleepers[j].key == TimeoutKey(u);
      assert freed.sleepers[j].key == TimeoutKey(u);
    }
    forall u: nat | u < threads && Outstanding(freed, u) ensures Outstanding(t, u) && u != t.sleepers[i].thread {
      var j :| 0 <= j < |freed.sleepers| && freed.sleepers[j].key == TimeoutKey(u);
      assert t.sleepers[j].key == TimeoutKey(u);
    }
  }

  lemma Filled(t: T.Timers, filled: T.Timers, i: nat, x: T.Sleeper, threads: nat)
    requires Owned(t, threads) && i < |t.sleepers| && !T.Used(t.sleepers[i]) && filled.sleepers == t.sleepers[i := x]
    requires x.thread < threads <= 0xFF && x.kind == T.Timeout && x.key == TimeoutKey(x.thread) && !Outstanding(t, x.thread)
    ensures Owned(filled, threads)
    ensures forall u: nat :: u < threads ==> (Outstanding(filled, u) <==> Outstanding(t, u) || u == x.thread)
  {
    assert filled.sleepers[i].key == TimeoutKey(x.thread);
    forall u: nat | u < threads && Outstanding(t, u) ensures Outstanding(filled, u) {
      var j :| 0 <= j < |t.sleepers| && t.sleepers[j].key == TimeoutKey(u);
      assert filled.sleepers[j].key == TimeoutKey(u);
    }
    forall u: nat | u < threads && Outstanding(filled, u) && u != x.thread ensures Outstanding(t, u) {
      var j :| 0 <= j < |filled.sleepers| && filled.sleepers[j].key == TimeoutKey(u);
      assert t.sleepers[j].key == TimeoutKey(u);
    }
  }

  /** The search for a thread's timeout ends at that timeout or at a free slot. */
  lemma FoundOrFree(t: T.Timers, hash: T.Hash, u: nat)
    requires IsPow2(|t.sleepers|) && |t.sleepers| > 0 && Searchable(Column(t.sleepers, T.Key), TimeoutKey(u))
    ensures var x := t.sleepers[T.FindSlot(t, hash, u, T.Timeout)]; x.key == TimeoutKey(u) || !T.Used(x)
  {
    var m: nat :| |t.sleepers| == Pow2(m);
    SearchEndsIff(m, Column(t.sleepers, T.Key), hash(TimeoutKey(u)), TimeoutKey(u));
  }

  /** Arming the timeout of a thread that has none. */
  lemma ArmAdds(t: T.Timers, hash: T.Hash, now: nat, timeout: nat, u: nat, threads: nat)
    requires R.OneShotInv(t) && IsPow2(|t.sleepers|) && Owned(t, threads) && u < threads <= 0xFF && !Outstanding(t, u)
    requires R.Enabled(t, hash, R.Arm(now, timeout, u, T.Timeout))
    ensures var r := R.Apply(t, hash, R.Arm(now, timeout, u, T.Timeout));
            && R.OneShotInv(r) && |r.sleepers| == |t.sleepers| && Owned(r, threads)
            && forall v: nat :: v < threads ==> (Outstanding(r, v) <==> Outstanding(t, v) || v == u)
  {
    var op, slot := R.Arm(now, timeout, u, T.Timeout), T.FindSlot(t, hash, u, T.Timeout);
    var x := T.Sleeper(TimeoutKey(u), now, timeout, u, T.Timeout);
    R.LookupsEnd(t);
    R.ApplyKeeps(t, hash, op);
    R.ArmEffect(t, slot, now, timeout, u, T.Timeout);
    FoundOrFree(t, hash, u);
    assert t.sleepers[slot].key != TimeoutKey(u);
    Filled(t, R.Apply(t, hash, op), slot, x, threads);
  }

  /** Cancelling the timeout of a thread whose search finds it, and one whose search ends at a free slot. */
  lemma CancelRemoves(t: T.Timers, hash: T.Hash, u: nat, threads: nat)
    requires R.OneShotInv(t) && IsPow2(|t.sleepers|) && Owned(t, threads) && u < threads <= 0xFF
    requires R.Enabled(t, hash, R.CancelEvent(u, T.Timeout))
    ensures var r, found := R.Apply(t, hash, R.CancelEvent(u, T.Timeout)), T.Used(t.sleepers[T.FindSlot(t, hash, u, T.Timeout)]);
            && R.OneShotInv(r) && |r.sleepers| == |t.sleepers| && Owned(r, threads)
            && forall v: nat :: v < threads ==> (Outstanding(r, v) <==> Outstanding(t, v) && !(found && v == u))
  {
    var op, slot := R.CancelEvent(u, T.Timeout), T.FindSlot(t, hash, u, T.Timeout);
    R.LookupsEnd(t);
    R.ApplyKeeps(t, hash, op);
    FoundOrFree(t, hash, u);
    if T.Used(t.sleepers[slot]) {
      var i := R.LookupFinds(t, slot);
      Freed(t, R.Apply(t, hash, op), slot, threads);
    } else {
      assert R.Apply(t, hash, op) == t;
    }
  }

  lemma ExpireKeeps(s: System, hash: T.Hash)
    requires Inv(s) && T.Shaped(s.t) && s.t.cursor < |s.t.queue|
    ensures var slot := s.t.queue[s.t.cursor].slot; var u := s.t.sleepers[slot].thread;
            && T.Used(s.t.sleepers[slot]) && u < |s.timed|
            && R.OneShotInv(T.Fire(s.t)) && |T.Fire(s.t).sleepers| == |s.t.sleepers| && Owned(T.Fire(s.t), |s.timed|)
            && N.Inv(N.Apply(s.w, hash, N.TimeOutStep(u)))
            && forall v: nat :: v < |s.timed| ==> (Outstanding(T.Fire(s.t), v) <==> Outstanding(s.t, v) && v != u)
  {
    var slot := s.t.queue[s.t.cursor].slot;
    assert R.Named(s.t.sleepers, s.t.queue[s.t.cursor]);
    R.FireKeeps(s.t);
    T.FireSleepers(s.t);
    Freed(s.t, T.Fire(s.t), slot, |s.timed|);
    N.StepKeepsInv(s.w, hash, N.TimeOutStep(s.t.sleepers[slot].thread));
  }

  /** A wait is called by a thread that is not itself waiting. */
  ghost predicate Enabled(s: System, hash: T.Hash, op: Op)
    requires Inv(s)
  {
    var n := s.w.n;
    match op
    case WaitOp(obj, timeout, now) =>
      && N.Enabled(s.w, hash, N.WaitStep(obj)) && Runnable(n.k.threads[n.k.current])
      && (timeout != 0 ==> R.Enabled(s.t, hash, R.Arm(now, timeout, n.k.current, T.Timeout)))
    case NotifyOp(obj, drop, queue) =>
      && N.Enabled(s.w, hash, N.NotifyStep(obj, drop, queue))
      && (Wakes(n, obj) ==> R.Enabled(s.t, hash, R.CancelEvent(Candidate(n, obj), T.Timeout)))
    case TickOp(start, end) => R.Enabled(s.t, hash, R.TickOp(start, end))
    case YieldOp => true
    case SwitchOp => true
  }

  /** One turn of the loop of os_run_timer with a due timeout under the cursor. */
  ghost function Expire(s: System, hash: T.Hash): (r: System)
    requires Inv(s) && T.Shaped(s.t) && s.t.cursor < |s.t.queue|
    ensures Inv(r)
  {
    ExpireKeeps(s, hash);
    s.(w := N.Apply(s.w, hash, N.TimeOutStep(s.t.sleepers[s.t.queue[s.t.cursor].slot].thread)), t := T.Fire(s.t))
  }

  /** os_run_timer. */
  ghost function Tick(s: System, hash: T.Hash, start: nat, end: nat): (r: System)
    requires Inv(s) && T.Ticks(s.t, start, end)
    ensures Inv(r) && r.t == T.RunTimer(s.t, start, end).after
    decreases T.Measure(s.t, start, end)
  {
    if |s.t.queue| == 0 || !T.IsDue(s.t.queue[s.t.cursor].resume, start, end) then s
    else
      T.FireDecreases(s.t, start, end);
      Tick(Expire(s, hash), hash, start, end)
  }

  ghost function Apply(s: System, hash: T.Hash, op: Op): System
    requires Inv(s) && Enabled(s, hash, op)
  {
    var n := s.w.n;
    match op
    case WaitOp(obj, timeout, now) =>
      System(N.Apply(s.w, hash, N.WaitStep(obj)),
             if timeout == 0 then s.t else R.Apply(s.t, hash, R.Arm(now, timeout, n.k.current, T.Timeout)),
             s.timed[n.k.current := timeout != 0])
    case NotifyOp(obj, drop, queue) =>
      s.(w := N.Apply(s.w, hash, N.NotifyStep(obj, drop, queue)),
         t := if Wakes(n, obj) then R.Apply(s.t, hash, R.CancelEvent(Candidate(n, obj), T.Timeout)) else s.t)
    case TickOp(start, end) => R.LookupsEnd(s.t); Tick(s, hash, start, end)
    case YieldOp => s.(w := N.Apply(s.w, hash, N.YieldStep))
    case SwitchOp => s.(w := N.Apply(s.w, hash, N.SwitchStep))
  }

  // ------------------------------------------------------------- the steps

  lemma WaitStates(w: N.World, hash: T.Hash, obj: nat)
    requires N.Inv(w) && N.Enabled(w, hash, N.WaitStep(obj)) && Runnable(w.n.k.threads[w.n.k.current])
    ensures var k, l := w.n.k, N.Apply(w, hash, N.WaitStep(obj)).n.k;
            && |l.threads| == |k.threads|
            && (forall u :: 0 <= u < |k.threads| && u != k.current ==> l.threads[u].state == k.threads[u].state)
            && (l.threads[k.current].state == Waiting <==> !PendingTable.Dequeue(w.n.table, w.n.size, hash, obj).2)
  {
  }

  /** A timeout stays behind: a wait with one returns at once, or a notification wakes a thread whose timeout the search
      does not find. */
  ghost predicate StaysBehind(s: System, hash: T.Hash, op: Op)
    requires Inv(s) && Enabled(s, hash, op)
  {
    var n := s.w.n;
    match op
    case WaitOp(obj, timeout, _) => timeout != 0 && PendingTable.Dequeue(n.table, n.size, hash, obj).2
    case NotifyOp(obj, _, _) =>
      && Wakes(n, obj) && Outstanding(s.t, Candidate(n, obj))
      && !T.Used(s.t.sleepers[T.FindSlot(s.t, hash, Candidate(n, obj), T.Timeout)])
    case _ => false
  }

  lemma WaitExact(s: System, hash: T.Hash, obj: nat, timeout: nat, now: nat)
    requires Good(s) && Enabled(s, hash, WaitOp(obj, timeout, now))
    ensures var op := WaitOp(obj, timeout, now); var r := Apply(s, hash, op);
            Inv(r) && (Exact(r) <==> !StaysBehind(s, hash, op))
  {
    var c := s.w.n.k.current;
    N.StepKeepsInv(s.w, hash, N.WaitStep(obj));
    WaitStates(s.w, hash, obj);
    assert !Outstanding(s.t, c);
    if timeout != 0 {
      ArmAdds(s.t, hash, now, timeout, c, |s.timed|);
    }
  }

  lemma NotifyStates(w: N.World, hash: T.Hash, obj: nat, drop: bool, queue: bool)
    requires N.Inv(w) && N.Enabled(w, hash, N.NotifyStep(obj, drop, queue))
    ensures var k, v := w.n.k, N.Apply(w, hash, N.NotifyStep(obj, drop, queue));
            && N.Inv(v) && |v.n.k.threads| == |k.threads|
            && (forall u :: 0 <= u < |k.threads| && !(Wakes(w.n, obj) && u == Candidate(w.n, obj)) ==>
                  v.n.k.threads[u].state == k.threads[u].state)
            && (Wakes(w.n, obj) ==> v.n.k.threads[Candidate(w.n, obj)].state != Waiting)
  {
    N.StepKeepsInv(w, hash, N.NotifyStep(obj, drop, queue));
    if Wakes(w.n, obj) {
      N.WakeTouchesOne(w.n, BestWaiter(w.n.k.threads, w.n.waiters, obj, |w.n.waiters|), drop);
    }
  }

  /** The notifications gone on to v, with thread c awake, and the timers to t, with c's timeout cancelled if found. */
  lemma WakeExact(s: System, v: N.World, t: T.Timers, c: nat, found: bool)
    requires Good(s) && c < |s.timed|
    requires N.Inv(v) && |v.n.k.threads| == |s.timed| && v.n.k.threads[c].state != Waiting
    requires forall u :: 0 <= u < |s.timed| && u != c ==> v.n.k.threads[u].state == s.w.n.k.threads[u].state
    requires R.OneShotInv(t) && |t.sleepers| == |s.t.sleepers| && Owned(t, |s.timed|)
    requires forall u: nat :: u < |s.timed| ==> (Outstanding(t, u) <==> Outstanding(s.t, u) && !(found && u == c))
    ensures var r := s.(w := v, t := t); Inv(r) && (Exact(r) <==> found || !Outstanding(s.t, c))
  {
    var r := s.(w := v, t := t);
    if !found && Outstanding(s.t, c) {
      assert Outstanding(r.t, c) && r.w.n.k.threads[c].state != Waiting;
    }
  }

  lemma NotifyExact(s: System, hash: T.Hash, obj: nat, drop: bool, queue: bool)
    requires Good(s) && Enabled(s, hash, NotifyOp(obj, drop, queue))
    ensures var op := NotifyOp(obj, drop, queue); var r := Apply(s, hash, op);
            Inv(r) && (Exact(r) <==> !StaysBehind(s, hash, op))
  {
    var v := N.Apply(s.w, hash, N.NotifyStep(obj, drop, queue));
    NotifyStates(s.w, hash, obj, drop, queue);
    if Wakes(s.w.n, obj) {
      var c := Candidate(s.w.n, obj);
      CancelRemoves(s.t, hash, c, |s.timed|);
      WakeExact(s, v, R.Apply(s.t, hash, R.CancelEvent(c, T.Timeout)), c, T.Used(s.t.sleepers[T.FindSlot(s.t, hash, c, T.Timeout)]));
    }
  }

  lemma ExpireExact(s: System, hash: T.Hash)
    requires Good(s) && T.Shaped(s.t) && s.t.cursor < |s.t.queue|
    ensures Good(Expire(s, hash))
  {
    ExpireKeeps(s, hash);
    var u := s.t.sleepers[s.t.queue[s.t.cursor].slot].thread;
    assert Outstanding(s.t, u);
  }

  lemma {:induction false} TickExact(s: System, hash: T.Hash, start: nat, end: nat)
    requires Good(s) && T.Ticks(s.t, start, end)
    ensures Good(Tick(s, hash, start, end))
    decreases T.Measure(s.t, start, end)
  {
    if |s.t.queue| > 0 && T.IsDue(s.t.queue[s.t.cursor].resume, start, end) {
      T.FireDecreases(s.t, start, end);
      ExpireExact(s, hash);
      TickExact(Expire(s, hash), hash, start, end);
    }
  }

  lemma SwitchExact(s: System, hash: T.Hash)
    requires Good(s)
    ensures Good(Apply(s, hash, YieldOp)) && Good(Apply(s, hash, SwitchOp))
  {
    N.StepKeepsInv(s.w, hash, N.YieldStep);
    N.StepKeepsInv(s.w, hash, N.SwitchStep);
  }

  /** One step keeps the timeouts exact if and only if it leaves none behind. */
  lemma StepExactIff(s: System, hash: T.Hash, op: Op)
    requires Good(s) && Enabled(s, hash, op)
    ensures Inv(Apply(s, hash, op)) && (Exact(Apply(s, hash, op)) <==> !StaysBehind(s, hash, op))
  {
    match op {
      case WaitOp(obj, timeout, now) => WaitExact(s, hash, obj, timeout, now);
      case NotifyOp(obj, drop, queue) => NotifyExact(s, hash, obj, drop, queue);
      case TickOp(start, end) =>
        R.LookupsEnd(s.t);
        TickExact(s, hash, start, end);
      case _ => SwitchExact(s, hash);
    }
  }

  ghost predicate ValidRun(s: System, hash: T.Hash, ops: seq<Op>)
    requires Good(s)
    decreases |ops|
  {
    ops == [] ||
    (Enabled(s, hash, ops[0]) && !StaysBehind(s, hash, ops[0]) &&
     (StepExactIff(s, hash, ops[0]); ValidRun(Apply(s, hash, ops[0]), hash, ops[1..])))
  }

  ghost function Run(s: System, hash: T.Hash, ops: seq<Op>): (r: System)
    requires Good(s) && ValidRun(s, hash, ops)
    ensures Good(r)
    decreases |ops|
  {
    if ops == [] then s
    else
      StepExactIff(s, hash, ops[0]);
      Run(Apply(s, hash, ops[0]), hash, ops[1..])
  }

  ghost predicate IsInit(s: System) {
    N.IsInit(s.w) && R.IsInit(s.t) && IsPow2(|s.t.sleepers|) && |s.timed| == |s.w.n.k.threads|
  }

  lemma InitGood(s: System)
    requires IsInit(s)
    ensures Good(s)
  {
    N.InitInv(s.w);
    R.InitKeeps(s.t);
  }

  /** In every run of waits, notifications, ticks, yields and thread switches that leaves no timeout behind, a thread that
      does not wait, or waits without a timeout, has none outstanding, and one that waits with a timeout has exactly one
      queue entry for it, which a lookup finds. */
  lemma WokenHasNoTimeout(s: System, hash: T.Hash, ops: seq<Op>, u: nat)
    requires IsInit(s) && Good(s) && ValidRun(s, hash, ops) && u < |Run(s, hash, ops).timed|
    ensures var r := Run(s, hash, ops);
            && (r.w.n.k.threads[u].state != Waiting || !r.timed[u] ==> !Outstanding(r.t, u))
            && (r.w.n.k.threads[u].state == Waiting && r.timed[u] ==>
                  exists slot: nat :: slot < |r.t.sleepers| && r.t.sleepers[slot].key == TimeoutKey(u) && R.Listed(r.t.queue, slot))
  {
    var r := Run(s, hash, ops);
    if Outstanding(r.t, u) {
      var slot: nat :| slot < |r.t.sleepers| && r.t.sleepers[slot].key == TimeoutKey(u);
      assert R.Listed(r.t.queue, slot);
    }
  }
}
