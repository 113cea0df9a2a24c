/** The futex of src/lib/arch/riscv/mutex.c on top of the kernel's notifications: mutual exclusion and
    no lost wake-up, for any number of threads and any other kernel activity. */
module Futex {
  import opened PowerOfTwo
  import opened PendingTable
  import opened Threads
  import opened Notify
  import opened NotifyRuns

  /** The word LR.W and SC.W work on: state and owner bytes and the untouched upper half. */
  datatype Word = Word(state: nat, owner: nat, high: nat)

  /** Where a thread stands; `try` marks futex_trylock, which does not wait. */
  datatype Pc =
    | Out
    | LoadLock(try: bool)
    | StoreLock(try: bool, loaded: Word)
    | WaitCall
    | Blocked
    | Holding
    | LoadUnlock
    | StoreUnlock(loaded: Word)
    | NotifyCall

  /** `reserved` holds the threads whose reservation no store has broken since their LR.W; `woken` those that a
      notification of the futex has woken and that have been trying for it again ever since. */
  datatype State = State(w: World, pcs: seq<Pc>, word: Word, reserved: set<nat>, woken: set<nat>)

  datatype Action =
    | CallLock | CallTry | LoadReserved | StoreConditional(spurious: bool) | WaitSyscall
    | CallUnlock | NotifySyscall | Elsewhere(step: Step)

  function Me(s: State): nat {
    s.w.n.k.current
  }

  /** Kernel activity other than the futex's own calls; the timeout of any thread may end its wait, also one for the
      futex. */
  predicate Foreign(s: State, addr: nat, step: Step)
    requires Me(s) < |s.pcs| && |s.pcs| == |s.w.n.k.threads|
  {
    match step
    case SwitchStep => true
    case YieldStep => true
    case NotifyStep(obj, drop, queue) => obj != addr
    case TimeOutStep(t) => t < |s.pcs|
    case WaitStep(obj) => obj != addr && (s.pcs[Me(s)].Out? || s.pcs[Me(s)].Holding?)
  }

  ghost predicate Enabled(s: State, hash: Hash, addr: nat, a: Action)
    requires Inv(s.w) && |s.pcs| == |s.w.n.k.threads|
  {
    var pc := s.pcs[Me(s)];
    if a.Elsewhere? then NotifyRuns.Enabled(s.w, hash, a.step) && Foreign(s, addr, a.step)
    else
      && Runnable(s.w.n.k.threads[Me(s)])
      && match a
         case CallLock => pc.Out?
         case CallTry => pc.Out?
         case LoadReserved => pc.LoadLock? || pc.LoadUnlock?
         case StoreConditional(_) => pc.StoreLock? || pc.StoreUnlock?
         // The wait searches the pending table.
         case WaitSyscall => pc.WaitCall? && Ends(s.w.n.table, addr)
         case CallUnlock => pc.Holding?
         case NotifySyscall => pc.NotifyCall?
  }

  function GiveUp(try: bool): Pc {
    if try then Out else WaitCall
  }

  /** lr.w and the test of the loaded word. */
  function AfterLoad(s: State): State
    requires Me(s) < |s.pcs| && (s.pcs[Me(s)].LoadLock? || s.pcs[Me(s)].LoadUnlock?)
  {
    var me := Me(s);
    var pc :=
      match s.pcs[me]
      case LoadLock(try) => if s.word.state != 0 then GiveUp(try) else StoreLock(try, s.word)
      case _ => if s.word.state == 0 || s.word.owner != me then LoadUnlock else StoreUnlock(s.word);
    s.(pcs := s.pcs[me := pc], reserved := s.reserved + {me})
  }

  /** sc.w: fails when the reservation is gone, and possibly otherwise. */
  function AfterStore(s: State, spurious: bool): State
    requires Me(s) < |s.pcs| && (s.pcs[Me(s)].StoreLock? || (s.pcs[Me(s)].StoreUnlock? && s.pcs[Me(s)].loaded.state > 0))
  {
    var me := Me(s);
    var ok := me in s.reserved && !spurious;
    match s.pcs[me]
    case StoreLock(try, loaded) =>
      if ok then s.(word := Word(1, me, loaded.high), reserved := {}, pcs := s.pcs[me := Holding])
      else s.(reserved := s.reserved - {me}, pcs := s.pcs[me := GiveUp(try)])
    case StoreUnlock(loaded) =>
      if ok then s.(word := loaded.(state := loaded.state - 1), reserved := {}, pcs := s.pcs[me := NotifyCall])
      else s.(reserved := s.reserved - {me}, pcs := s.pcs[me := LoadUnlock])
  }

  /** wait_for_object_value(&state, 0, 0, ...): returns at once when the state is 0, else waits. */
  ghost function AfterWait(s: State, hash: Hash, addr: nat): State
    requires Inv(s.w) && |s.pcs| == |s.w.n.k.threads| && IsObject(addr) && Ends(s.w.n.table, addr)
  {
    var me := Me(s);
    if s.word.state == 0 then s.(pcs := s.pcs[me := LoadLock(false)])
    else s.(w := Apply(s.w, hash, WaitStep(addr)), pcs := s.pcs[me := Blocked])
  }

  /** notify_object2(&state, NOTIFY_PRIORITY_DROP): the woken thread tries again. */
  ghost function AfterNotify(s: State, hash: Hash, addr: nat): State
    requires Inv(s.w) && |s.pcs| == |s.w.n.k.threads| && IsObject(addr) && Runnable(s.w.n.k.threads[Me(s)])
  {
    var me := Me(s);
    var n := s.w.n;
    var b := BestWaiter(n.k.threads, n.waiters, addr, |n.waiters|);
    var pcs := if b == NO_WAITER then s.pcs else s.pcs[n.waiters[b] := LoadLock(false)];
    s.(w := Apply(s.w, hash, NotifyStep(addr, true, false)), pcs := pcs[me := Out],
       woken := if b == NO_WAITER then s.woken else s.woken + {n.waiters[b]})
  }

  /** A thread whose wait for the futex is ended by a timeout does not look at the outcome and tries again. */
  ghost function AfterForeign(s: State, hash: Hash, addr: nat, step: Step): State
    requires Inv(s.w) && NotifyRuns.Enabled(s.w, hash, step) && |s.pcs| == |s.w.n.k.threads|
  {
    var pcs := if step.TimeOutStep? && s.w.n.k.threads[step.t].waitObject == addr then s.pcs[step.t := LoadLock(false)] else s.pcs;
    s.(w := Apply(s.w, hash, step), pcs := pcs)
  }

  /** Trying for the futex until it is taken, and not blocked. */
  predicate Retrying(pc: Pc) {
    pc == LoadLock(false) || (pc.StoreLock? && !pc.try) || pc.WaitCall?
  }

  /** A woken thread that has taken the futex or blocked again is not one any more. */
  function Settle(s: State): (r: State)
    ensures s.woken == {} ==> r == s
  {
    var woken := set t | t in s.woken && t < |s.pcs| && Retrying(s.pcs[t]);
    assert s.woken == {} ==> woken == {};
    s.(woken := woken)
  }

  ghost function Do(s: State, hash: Hash, addr: nat, a: Action): State
    requires SafeInv(s, addr) && IsObject(addr) && Enabled(s, hash, addr, a)
  {
    Settle(Moved(s, hash, addr, a))
  }

  ghost function Moved(s: State, hash: Hash, addr: nat, a: Action): State
    requires SafeInv(s, addr) && IsObject(addr) && Enabled(s, hash, addr, a)
  {
    var me := Me(s);
    match a
    case CallLock => s.(pcs := s.pcs[me := LoadLock(false)])
    case CallTry => s.(pcs := s.pcs[me := LoadLock(true)])
    case LoadReserved => AfterLoad(s)
    case StoreConditional(spurious) => AfterStore(s, spurious)
    case WaitSyscall => AfterWait(s, hash, addr)
    case CallUnlock => s.(pcs := s.pcs[me := LoadUnlock])
    case NotifySyscall => AfterNotify(s, hash, addr)
    case Elsewhere(step) => AfterForeign(s, hash, addr, step)
  }

  // --------------------------------------------------------- the invariant

  predicate Holds(pc: Pc) {
    pc.Holding? || pc.LoadUnlock? || pc.StoreUnlock?
  }

  /** At most one thread holds the futex; the state byte says whether one does and the owner byte which. */
  ghost predicate Exclusion(pcs: seq<Pc>, word: Word) {
    && word.state <= 1
    && (forall t: nat :: t < |pcs| && Holds(pcs[t]) ==> word.state == 1 && word.owner == t)
    && (word.state == 1 ==> word.owner < |pcs| && Holds(pcs[word.owner]))
  }

  /** A thread that will store conditionally has the current word at hand while its reservation lasts. */
  ghost predicate Reservations(pcs: seq<Pc>, word: Word, reserved: set<nat>) {
    forall t: nat :: t < |pcs| ==>
      && (pcs[t].StoreLock? && t in reserved ==> pcs[t].loaded == word)
      && (pcs[t].StoreLock? ==> pcs[t].loaded.state == 0)
      && (pcs[t].StoreUnlock? ==> pcs[t].loaded == word)
  }

  /** About to notify, or woken and trying again. */
  predicate Owes(s: State, t: nat)
    requires t < |s.pcs|
  {
    s.pcs[t].NotifyCall? || (t in s.woken && Retrying(s.pcs[t]))
  }

  /** The blocked threads are those waiting on the futex, and nothing is pending for it. */
  ghost predicate BlockedInv(w: World, pcs: seq<Pc>, addr: nat) {
    && |pcs| == |w.n.k.threads|
    && PendingOf(w.n.table, addr) == 0
    && forall t: nat :: t < |pcs| ==> (pcs[t].Blocked? <==> w.n.k.threads[t].waitObject == addr)
  }

  ghost predicate SafeInv(s: State, addr: nat) {
    && Inv(s.w)
    && BlockedInv(s.w, s.pcs, addr)
    && Exclusion(s.pcs, s.word)
    && Reservations(s.pcs, s.word, s.reserved)
  }

  /** While the futex is free and somebody is blocked, somebody is about to notify, or has been woken and is trying again.
      A thread that has just come to the futex does not count: nobody has woken it. */
  ghost predicate NothingLost(s: State) {
    s.word.state == 0 && (exists t: nat :: t < |s.pcs| && s.pcs[t].Blocked?) ==> exists t: nat :: t < |s.pcs| && Owes(s, t)
  }

  /** None of the blocked threads is beyond waking. */
  ghost predicate Wakeable(s: State)
    requires |s.pcs| == |s.w.n.k.threads|
  {
    forall t: nat :: t < |s.pcs| && s.pcs[t].Blocked? ==> s.w.n.k.threads[t].priority < 255
  }

  // ------------------------------------------ what the kernel steps change

  /** Nobody starts or stops waiting on the object, and those who wait keep their priority. */
  ghost predicate SameWaits(a: World, b: World, addr: nat) {
    && |a.n.k.threads| == |b.n.k.threads|
    && PendingOf(b.n.table, addr) == PendingOf(a.n.table, addr)
    && forall t: nat :: t < |a.n.k.threads| ==>
         && (b.n.k.threads[t].waitObject == addr <==> a.n.k.threads[t].waitObject == addr)
         && (a.n.k.threads[t].waitObject == addr ==> b.n.k.threads[t].priority == a.n.k.threads[t].priority)
  }

  lemma NotifyOther(w: World, hash: Hash, obj: nat, drop: bool, queue: bool, addr: nat)
    requires Inv(w) && NotifyRuns.Enabled(w, hash, NotifyStep(obj, drop, queue)) && obj != addr && IsObject(addr)
    ensures SameWaits(w, Apply(w, hash, NotifyStep(obj, drop, queue)), addr)
  {
    NotifyEffect(w, hash, obj, drop, queue);
    if Wakes(w.n, obj) {
      var b := BestWaiter(w.n.k.threads, w.n.waiters, obj, |w.n.waiters|);
      WakeTouchesOne(w.n, b, drop);
      WakePriorities(w.n, b, drop);
    } else if queue {
      var m: nat :| |w.n.table| == Pow2(m);
      QueueCounts(m, w.n.table, w.n.size, hash, obj);
    }
  }

  lemma WaitOther(w: World, hash: Hash, obj: nat, addr: nat)
    requires Inv(w) && NotifyRuns.Enabled(w, hash, WaitStep(obj)) && obj != addr && IsObject(addr)
    ensures SameWaits(w, Apply(w, hash, WaitStep(obj)), addr)
  {
    var m: nat :| |w.n.table| == Pow2(m);
    DequeueCounts(m, w.n.table, w.n.size, hash, obj);
  }

  lemma KernelStep(w: World, hash: Hash, step: Step, addr: nat)
    requires Inv(w) && NotifyRuns.Enabled(w, hash, step) && IsObject(addr)
    requires step.NotifyStep? || step.WaitStep? ==> step.obj != addr
    requires step.TimeOutStep? ==> w.n.k.threads[step.t].waitObject != addr
    ensures Inv(Apply(w, hash, step)) && SameWaits(w, Apply(w, hash, step), addr)
  {
    StepKeepsInv(w, hash, step);
    match step {
      case NotifyStep(obj, drop, queue) => NotifyOther(w, hash, obj, drop, queue, addr);
      case WaitStep(obj) => WaitOther(w, hash, obj, addr);
      case _ =>
    }
  }

  /** With nothing pending for it the caller of wait is blocked on the object, and nobody else is affected. */
  lemma WaitBlocks(w: World, hash: Hash, addr: nat)
    requires Inv(w) && NotifyRuns.Enabled(w, hash, WaitStep(addr)) && PendingOf(w.n.table, addr) == 0
    requires Runnable(w.n.k.threads[w.n.k.current])
    ensures var v := Apply(w, hash, WaitStep(addr)); var me := w.n.k.current;
            && Inv(v) && |v.n.k.threads| == |w.n.k.threads| && PendingOf(v.n.table, addr) == 0
            && v.n.k.threads[me].waitObject == addr
            && forall t: nat :: t < |w.n.k.threads| ==>
                 && v.n.k.threads[t].priority == w.n.k.threads[t].priority
                 && (t != me ==> v.n.k.threads[t].waitObject == w.n.k.threads[t].waitObject)
  {
    StepKeepsInv(w, hash, WaitStep(addr));
    var offs := Find(w.n.table, hash, addr);
    if w.n.table[offs].address == addr {
      PendingPositive(w.n.table, offs, addr);
    }
  }

  /** A notification of the object wakes the chosen waiter and nobody else, or nobody when none can be woken. */
  lemma NotifyFutex(w: World, hash: Hash, addr: nat)
    requires Inv(w) && IsObject(addr) && Runnable(w.n.k.threads[w.n.k.current])
    ensures var v := Apply(w, hash, NotifyStep(addr, true, false));
            var b := BestWaiter(w.n.k.threads, w.n.waiters, addr, |w.n.waiters|);
            && Inv(v) && |v.n.k.threads| == |w.n.k.threads| && v.n.table == w.n.table
            && forall t: nat :: t < |w.n.k.threads| ==>
                 && v.n.k.threads[t].waitObject == (if b != NO_WAITER && t == w.n.waiters[b] then 0 else w.n.k.threads[t].waitObject)
                 && (t != w.n.k.current ==> v.n.k.threads[t].priority == w.n.k.threads[t].priority)
  {
    StepKeepsInv(w, hash, NotifyStep(addr, true, false));
    NotifyEffect(w, hash, addr, true, false);
    var b := BestWaiter(w.n.k.threads, w.n.waiters, addr, |w.n.waiters|);
    if b != NO_WAITER {
      WakeTouchesOne(w.n, b, true);
      WakePriorities(w.n, b, true);
    }
  }

  // ----------------------------------------------------- every step keeps it

  /** A step of one thread that neither touches the word nor enters or leaves the holders or the blocked. */
  lemma LocalStep(s: State, addr: nat, me: nat, pc: Pc, reserved: set<nat>)
    requires SafeInv(s, addr) && me < |s.pcs|
    requires Holds(pc) <==> Holds(s.pcs[me])
    requires !pc.Blocked? && !s.pcs[me].Blocked?
    requires reserved <= s.reserved + {me}
    requires pc.StoreLock? ==> pc.loaded == s.word && pc.loaded.state == 0
    requires pc.StoreUnlock? ==> pc.loaded == s.word
    ensures SafeInv(s.(pcs := s.pcs[me := pc], reserved := reserved), addr)
  {
  }

  lemma LoadKeeps(s: State, addr: nat)
    requires SafeInv(s, addr) && (s.pcs[Me(s)].LoadLock? || s.pcs[Me(s)].LoadUnlock?)
    ensures SafeInv(AfterLoad(s), addr)
  {
    var me := Me(s);
    LocalStep(s, addr, me, AfterLoad(s).pcs[me], s.reserved + {me});
  }

  lemma StoreFails(s: State, addr: nat)
    requires SafeInv(s, addr) && (s.pcs[Me(s)].StoreLock? || s.pcs[Me(s)].StoreUnlock?)
    ensures SafeInv(AfterStore(s, true), addr)
  {
  }

  lemma StoreLockSucceeds(s: State, addr: nat)
    requires SafeInv(s, addr) && s.pcs[Me(s)].StoreLock? && Me(s) in s.reserved
    ensures SafeInv(AfterStore(s, false), addr)
  {
  }

  lemma StoreUnlockSucceeds(s: State, addr: nat)
    requires SafeInv(s, addr) && s.pcs[Me(s)].StoreUnlock? && Me(s) in s.reserved
    ensures SafeInv(AfterStore(s, false), addr)
  {
  }

  lemma WaitKeeps(s: State, hash: Hash, addr: nat)
    requires SafeInv(s, addr) && IsObject(addr) && Enabled(s, hash, addr, WaitSyscall)
    ensures SafeInv(AfterWait(s, hash, addr), addr)
  {
    var me := Me(s);
    if s.word.state == 0 {
      LocalStep(s, addr, me, LoadLock(false), s.reserved);
    } else {
      WaitBlocks(s.w, hash, addr);
    }
  }

  lemma NotifyKeeps(s: State, hash: Hash, addr: nat)
    requires SafeInv(s, addr) && IsObject(addr) && Enabled(s, hash, addr, NotifySyscall)
    ensures SafeInv(AfterNotify(s, hash, addr), addr)
  {
    if Wakes(s.w.n, addr) {
      NotifyOneKeeps(s, hash, addr);
    } else {
      NotifyFutex(s.w, hash, addr);
    }
  }

  lemma NotifyOneKeeps(s: State, hash: Hash, addr: nat)
    requires SafeInv(s, addr) && IsObject(addr) && Enabled(s, hash, addr, NotifySyscall) && Wakes(s.w.n, addr)
    ensures SafeInv(AfterNotify(s, hash, addr), addr)
  {
    NotifyFutex(s.w, hash, addr);
    var woken := BlockedWoken(s, addr);
    NotifyPcs(s, AfterNotify(s, hash, addr), woken);
  }

  /** The thread a notification of the futex wakes is a blocked one. */
  lemma BlockedWoken(s: State, addr: nat) returns (woken: nat)
    requires SafeInv(s, addr) && Wakes(s.w.n, addr)
    ensures woken == s.w.n.waiters[BestWaiter(s.w.n.k.threads, s.w.n.waiters, addr, |s.w.n.waiters|)]
    ensures woken < |s.pcs| && s.pcs[woken].Blocked?
  {
    var n := s.w.n;
    var b := BestWaiter(n.k.threads, n.waiters, addr, |n.waiters|);
    assert WaitsOn(n.k.threads, n.waiters, b, addr);
    woken := n.waiters[b];
  }

  lemma NotifyPcs(s: State, t: State, woken: nat)
    requires Me(s) < |s.pcs| && woken < |s.pcs| && s.pcs[woken].Blocked? && s.pcs[Me(s)].NotifyCall?
    requires Exclusion(s.pcs, s.word) && Reservations(s.pcs, s.word, s.reserved)
    requires t.pcs == s.pcs[woken := LoadLock(false)][Me(s) := Out] && t.word == s.word && t.reserved == s.reserved
    ensures Exclusion(t.pcs, t.word) && Reservations(t.pcs, t.word, t.reserved)
  {
  }

  /** Somebody can be woken exactly when somebody blocked has a priority below 255. */
  lemma WakesIff(s: State, addr: nat)
    requires SafeInv(s, addr) && IsObject(addr)
    ensures Wakes(s.w.n, addr) <==> exists t: nat :: t < |s.pcs| && s.pcs[t].Blocked? && s.w.n.k.threads[t].priority < 255
  {
    var n := s.w.n;
    if Wakes(n, addr) {
      var woken := BlockedWoken(s, addr);
      assert s.pcs[woken].Blocked? && n.k.threads[woken].priority < 255;
    } else {
      forall t: nat | t < |s.pcs| && s.pcs[t].Blocked? ensures n.k.threads[t].priority >= 255 {
        assert t in n.waiters;
        var i :| 0 <= i < |n.waiters| && n.waiters[i] == t;
        assert WaitsOn(n.k.threads, n.waiters, i, addr);
      }
    }
  }

  /** The notification after an unlock that forgets the blocked threads: the futex is free, all who are blocked have
      priority 255, nobody else is about to notify and nobody has been woken. */
  ghost predicate Forgets(s: State)
    requires |s.pcs| == |s.w.n.k.threads|
  {
    && s.word.state == 0
    && (exists t: nat :: t < |s.pcs| && s.pcs[t].Blocked?)
    && (forall t: nat :: t < |s.pcs| && t != Me(s) ==> !Owes(s, t))
    && (forall t: nat :: t < |s.pcs| && s.pcs[t].Blocked? ==> s.w.n.k.threads[t].priority >= 255)
  }

  lemma SettleKeeps(s: State, addr: nat)
    ensures SafeInv(Settle(s), addr) <==> SafeInv(s, addr)
    ensures NothingLost(Settle(s)) <==> NothingLost(s)
  {
    var r := Settle(s);
    assert forall t: nat :: t < |s.pcs| ==> (Owes(r, t) <==> Owes(s, t));
  }

  lemma NotifyForgetsIff(s: State, hash: Hash, addr: nat)
    requires SafeInv(s, addr) && IsObject(addr) && Enabled(s, hash, addr, NotifySyscall)
    ensures !NothingLost(AfterNotify(s, hash, addr)) <==> Forgets(s)
  {
    var t, me := AfterNotify(s, hash, addr), Me(s);
    WakesIff(s, addr);
    if Wakes(s.w.n, addr) {
      var woken := BlockedWoken(s, addr);
      assert Owes(t, woken);
    } else {
      assert t.pcs == s.pcs[me := Out];
      assert forall u: nat :: u < |s.pcs| && u != me ==> t.pcs[u] == s.pcs[u] && (Owes(t, u) <==> Owes(s, u));
    }
  }

  lemma TimeOutKeeps(s: State, hash: Hash, addr: nat, t: nat)
    requires SafeInv(s, addr) && IsObject(addr) && t < |s.pcs| && s.w.n.k.threads[t].waitObject == addr
    ensures SafeInv(AfterForeign(s, hash, addr, TimeOutStep(t)), addr)
  {
    StepKeepsInv(s.w, hash, TimeOutStep(t));
  }

  lemma MovedKeeps(s: State, hash: Hash, addr: nat, a: Action)
    requires SafeInv(s, addr) && IsObject(addr) && Enabled(s, hash, addr, a)
    ensures SafeInv(Moved(s, hash, addr, a), addr)
  {
    var me := Me(s);
    match a {
      case CallLock => LocalStep(s, addr, me, LoadLock(false), s.reserved);
      case CallTry => LocalStep(s, addr, me, LoadLock(true), s.reserved);
      case LoadReserved => LoadKeeps(s, addr);
      case StoreConditional(spurious) =>
        if me in s.reserved && !spurious {
          if s.pcs[me].StoreLock? { StoreLockSucceeds(s, addr); } else { StoreUnlockSucceeds(s, addr); }
        } else {
          StoreFails(s, addr);
        }
      case WaitSyscall => WaitKeeps(s, hash, addr);
      case CallUnlock => LocalStep(s, addr, me, LoadUnlock, s.reserved);
      case NotifySyscall => NotifyKeeps(s, hash, addr);
      case Elsewhere(step) =>
        if step.TimeOutStep? && s.w.n.k.threads[step.t].waitObject == addr {
          TimeOutKeeps(s, hash, addr, step.t);
        } else {
          KernelStep(s.w, hash, step, addr);
        }
    }
  }

  /** Every step of any thread, and any preemption, timeout and other kernel activity, keeps the futex safe. */
  lemma DoKeeps(s: State, hash: Hash, addr: nat, a: Action)
    requires SafeInv(s, addr) && IsObject(addr) && Enabled(s, hash, addr, a)
    ensures SafeInv(Do(s, hash, addr, a), addr)
  {
    MovedKeeps(s, hash, addr, a);
    SettleKeeps(Moved(s, hash, addr, a), addr);
  }

  /** Who is blocked after a step other than a notification was blocked before it or found the futex taken, and who owes
      before it still does, unless it takes the futex. */
  lemma OthersOwe(s: State, hash: Hash, addr: nat, a: Action)
    requires SafeInv(s, addr) && IsObject(addr) && Enabled(s, hash, addr, a) && !a.NotifySyscall?
    ensures var r := Moved(s, hash, addr, a);
            && |r.pcs| == |s.pcs|
            && (r.word.state == 0 && s.word.state == 0 ==>
                  forall t: nat :: t < |s.pcs| ==> (Owes(s, t) ==> Owes(r, t)) && (r.pcs[t].Blocked? ==> s.pcs[t].Blocked?))
            && (r.word.state == 0 && s.word.state != 0 ==> Owes(r, Me(s)))
  {
  }

  lemma OthersLoseNothing(s: State, hash: Hash, addr: nat, a: Action)
    requires SafeInv(s, addr) && IsObject(addr) && Enabled(s, hash, addr, a) && !a.NotifySyscall? && NothingLost(s)
    ensures NothingLost(Moved(s, hash, addr, a))
  {
    var r := Moved(s, hash, addr, a);
    OthersOwe(s, hash, addr, a);
    if r.word.state == 0 && s.word.state == 0 {
      if b: nat :| b < |r.pcs| && r.pcs[b].Blocked? {
        assert s.pcs[b].Blocked?;
        var t: nat :| t < |s.pcs| && Owes(s, t);
        assert Owes(r, t);
      }
    }
  }

  /** A step loses a wake-up if and only if it is a notification that forgets the blocked threads. */
  lemma StepLosesIff(s: State, hash: Hash, addr: nat, a: Action)
    requires SafeInv(s, addr) && IsObject(addr) && Enabled(s, hash, addr, a) && NothingLost(s)
    ensures SafeInv(Do(s, hash, addr, a), addr)
    ensures !NothingLost(Do(s, hash, addr, a)) <==> a.NotifySyscall? && Forgets(s)
  {
    DoKeeps(s, hash, addr, a);
    SettleKeeps(Moved(s, hash, addr, a), addr);
    if a.NotifySyscall? {
      NotifyForgetsIff(s, hash, addr);
    } else {
      OthersLoseNothing(s, hash, addr, a);
    }
  }

  /** A thread that blocks has a priority below 255. */
  ghost predicate WaitsBelow(s: State, a: Action)
    requires |s.pcs| == |s.w.n.k.threads| && Me(s) < |s.pcs|
  {
    a.WaitSyscall? && s.word.state != 0 ==> s.w.n.k.threads[Me(s)].priority < 255
  }

  lemma DoKeepsWakeable(s: State, hash: Hash, addr: nat, a: Action)
    requires SafeInv(s, addr) && IsObject(addr) && Enabled(s, hash, addr, a) && Wakeable(s) && WaitsBelow(s, a)
    ensures SafeInv(Do(s, hash, addr, a), addr) && Wakeable(Do(s, hash, addr, a))
  {
    DoKeeps(s, hash, addr, a);
    match a {
      case WaitSyscall =>
        if s.word.state != 0 { WaitBlocks(s.w, hash, addr); }
      case NotifySyscall => NotifyFutex(s.w, hash, addr);
      case Elsewhere(step) =>
        if !(step.TimeOutStep? && s.w.n.k.threads[step.t].waitObject == addr) {
          KernelStep(s.w, hash, step, addr);
        }
      case _ =>
    }
  }

  // ------------------------------------------------------------- whole runs

  ghost predicate ValidRun(s: State, hash: Hash, addr: nat, acts: seq<Action>)
    requires SafeInv(s, addr) && IsObject(addr)
    decreases |acts|
  {
    acts == [] ||
    (Enabled(s, hash, addr, acts[0]) &&
     (DoKeeps(s, hash, addr, acts[0]); ValidRun(Do(s, hash, addr, acts[0]), hash, addr, acts[1..])))
  }

  ghost function Run(s: State, hash: Hash, addr: nat, acts: seq<Action>): State
    requires SafeInv(s, addr) && IsObject(addr) && ValidRun(s, hash, addr, acts)
    decreases |acts|
  {
    if acts == [] then s
    else
      DoKeeps(s, hash, addr, acts[0]);
      Run(Do(s, hash, addr, acts[0]), hash, addr, acts[1..])
  }

  lemma {:induction false} RunKeeps(s: State, hash: Hash, addr: nat, acts: seq<Action>)
    requires SafeInv(s, addr) && IsObject(addr) && ValidRun(s, hash, addr, acts)
    ensures SafeInv(Run(s, hash, addr, acts), addr)
    decreases |acts|
  {
    if acts != [] {
      DoKeeps(s, hash, addr, acts[0]);
      RunKeeps(Do(s, hash, addr, acts[0]), hash, addr, acts[1..]);
    }
  }

  /** After futex_init, with nobody at the futex and nothing pending for it. */
  ghost predicate IsInit(s: State, addr: nat) {
    && Inv(s.w) && |s.pcs| == |s.w.n.k.threads|
    && s.word.state == 0 && s.word.owner == 0xFF && s.woken == {}
    && PendingOf(s.w.n.table, addr) == 0
    && forall t: nat :: t < |s.pcs| ==> s.pcs[t].Out? && s.w.n.k.threads[t].waitObject != addr
  }

  lemma InitInv(s: State, addr: nat)
    requires IsInit(s, addr)
    ensures SafeInv(s, addr) && NothingLost(s) && Wakeable(s)
  {
  }

  /** In every run, preempted between any two steps, at most one thread holds the futex; the state byte is 1 exactly while
      one does, and then the owner byte names it, so the assertion in the unlock never fails. */
  lemma MutualExclusion(s: State, hash: Hash, addr: nat, acts: seq<Action>)
    requires IsObject(addr) && IsInit(s, addr) && SafeInv(s, addr) && ValidRun(s, hash, addr, acts)
    ensures var t := Run(s, hash, addr, acts);
            && (forall a: nat, b: nat :: a < |t.pcs| && b < |t.pcs| && Holds(t.pcs[a]) && Holds(t.pcs[b]) ==> a == b)
            && (t.word.state == 1 <==> exists a: nat :: a < |t.pcs| && Holds(t.pcs[a]))
            && (forall a: nat :: a < |t.pcs| && Holds(t.pcs[a]) ==> t.word.owner == a)
            && (t.word.state == 0 || t.word.state == 1)
  {
    RunKeeps(s, hash, addr, acts);
  }

  /** No wake-up is lost at the start of the run or after any of its steps. */
  ghost predicate AlwaysKept(s: State, hash: Hash, addr: nat, acts: seq<Action>)
    requires SafeInv(s, addr) && IsObject(addr) && ValidRun(s, hash, addr, acts)
    decreases |acts|
  {
    NothingLost(s) && (acts == [] || (DoKeeps(s, hash, addr, acts[0]); AlwaysKept(Do(s, hash, addr, acts[0]), hash, addr, acts[1..])))
  }

  ghost predicate NeverForgets(s: State, hash: Hash, addr: nat, acts: seq<Action>)
    requires SafeInv(s, addr) && IsObject(addr) && ValidRun(s, hash, addr, acts)
    decreases |acts|
  {
    acts == [] ||
    (!(acts[0].NotifySyscall? && Forgets(s)) &&
     (DoKeeps(s, hash, addr, acts[0]); NeverForgets(Do(s, hash, addr, acts[0]), hash, addr, acts[1..])))
  }

  /** A run never loses a wake-up if and only if none of its notifications forgets the blocked threads. */
  lemma {:induction false} AlwaysKeptIff(s: State, hash: Hash, addr: nat, acts: seq<Action>)
    requires SafeInv(s, addr) && IsObject(addr) && ValidRun(s, hash, addr, acts) && NothingLost(s)
    ensures AlwaysKept(s, hash, addr, acts) <==> NeverForgets(s, hash, addr, acts)
    decreases |acts|
  {
    if acts != [] {
      StepLosesIff(s, hash, addr, acts[0]);
      if NothingLost(Do(s, hash, addr, acts[0])) {
        AlwaysKeptIff(Do(s, hash, addr, acts[0]), hash, addr, acts[1..]);
      }
    }
  }

  ghost predicate RunWaitsBelow(s: State, hash: Hash, addr: nat, acts: seq<Action>)
    requires SafeInv(s, addr) && IsObject(addr) && ValidRun(s, hash, addr, acts)
    decreases |acts|
  {
    acts == [] ||
    (WaitsBelow(s, acts[0]) &&
     (DoKeeps(s, hash, addr, acts[0]); RunWaitsBelow(Do(s, hash, addr, acts[0]), hash, addr, acts[1..])))
  }

  lemma {:induction false} RunLosesNothing(s: State, hash: Hash, addr: nat, acts: seq<Action>)
    requires SafeInv(s, addr) && IsObject(addr) && ValidRun(s, hash, addr, acts) && RunWaitsBelow(s, hash, addr, acts)
    requires Wakeable(s) && NothingLost(s)
    ensures SafeInv(Run(s, hash, addr, acts), addr) && NothingLost(Run(s, hash, addr, acts))
    decreases |acts|
  {
    if acts != [] {
      StepLosesIff(s, hash, addr, acts[0]);
      DoKeepsWakeable(s, hash, addr, acts[0]);
      RunLosesNothing(Do(s, hash, addr, acts[0]), hash, addr, acts[1..]);
    }
  }

  /** In every run in which threads block below priority 255, for every blocked thread the futex is held, or another thread
      is about to notify, or another thread has been woken by a notification and is trying for it again. */
  lemma NobodyIsForgotten(s: State, hash: Hash, addr: nat, acts: seq<Action>, blocked: nat)
    requires IsObject(addr) && IsInit(s, addr) && SafeInv(s, addr)
    requires ValidRun(s, hash, addr, acts) && RunWaitsBelow(s, hash, addr, acts)
    requires blocked < |Run(s, hash, addr, acts).pcs| && Run(s, hash, addr, acts).pcs[blocked].Blocked?
    ensures var t := Run(s, hash, addr, acts);
            exists a: nat :: a < |t.pcs| && a != blocked && if t.word.state == 1 then Holds(t.pcs[a]) else Owes(t, a)
  {
    InitInv(s, addr);
    RunLosesNothing(s, hash, addr, acts);
    var t := Run(s, hash, addr, acts);
    if t.word.state == 1 {
      assert Holds(t.pcs[t.word.owner]);
    } else {
      var a: nat :| a < |t.pcs| && Owes(t, a);
      assert a != blocked;
    }
  }
}
