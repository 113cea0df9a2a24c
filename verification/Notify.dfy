/** Waiting for objects and notifying them (src/os/kernel/notify.c). */
module Notify {
  import opened PowerOfTwo
  import opened Algo
  import opened PendingTable
  import opened Threads
  import opened Sched

  /** os_find_notified_thread_waiter's answer when nobody can be woken. */
  const NO_WAITER: nat := 0xFF

  /** The kernel with the table of pending notifications and the list of waiting threads. */
  datatype Notes = Notes(k: Kernel, table: seq<Entry>, size: nat, waiters: seq<nat>)

  ghost predicate ValidNotes(n: Notes) {
    && ValidKernel(n.k)
    && IsPow2(|n.table|)
    && |n.waiters| <= |n.k.threads|
    && forall i :: 0 <= i < |n.waiters| ==> n.waiters[i] < |n.k.threads|
  }

  function PriorityAt(threads: seq<Thread>, waiters: seq<nat>, w: nat): nat
    requires w == NO_WAITER || (w < |waiters| && waiters[w] < |threads|)
  {
    if w < |waiters| && waiters[w] < |threads| then threads[waiters[w]].priority else 0xFF
  }

  predicate WaitsOn(threads: seq<Thread>, waiters: seq<nat>, w: nat, obj: nat)
    requires w < |waiters| && waiters[w] < |threads|
  {
    threads[waiters[w]].waitObject == obj
  }

  /** Waiter w waits on the object, has a priority below 255, and every other waiter on it has a worse
      priority or the same one and stands later in the list. */
  ghost predicate IsBest(threads: seq<Thread>, waiters: seq<nat>, obj: nat, n: nat, w: nat)
    requires n <= |waiters| && forall i :: 0 <= i < |waiters| ==> waiters[i] < |threads|
  {
    && w < n
    && WaitsOn(threads, waiters, w, obj)
    && PriorityAt(threads, waiters, w) < 0xFF
    && forall v :: 0 <= v < n && WaitsOn(threads, waiters, v, obj) ==>
         || PriorityAt(threads, waiters, w) < PriorityAt(threads, waiters, v)
         || (PriorityAt(threads, waiters, w) == PriorityAt(threads, waiters, v) && w <= v)
  }

  /** os_find_notified_thread_waiter over the first n waiters. */
  function BestWaiter(threads: seq<Thread>, waiters: seq<nat>, obj: nat, n: nat): (w: nat)
    requires n <= |waiters| <= 0xFF && forall i :: 0 <= i < |waiters| ==> waiters[i] < |threads|
    ensures w == NO_WAITER || w < n
    ensures w == NO_WAITER <==> forall v :: 0 <= v < n && WaitsOn(threads, waiters, v, obj) ==> PriorityAt(threads, waiters, v) >= 0xFF
    ensures w != NO_WAITER ==> IsBest(threads, waiters, obj, n, w)
  {
    if n == 0 then NO_WAITER
    else
      var b := BestWaiter(threads, waiters, obj, n - 1);
      if WaitsOn(threads, waiters, n - 1, obj) && PriorityAt(threads, waiters, n - 1) < PriorityAt(threads, waiters, b)
      then n - 1 else b
  }

  function Without<T>(s: seq<T>, i: nat): (r: seq<T>)
    requires i < |s|
    ensures |r| == |s| - 1
  {
    s[..i] + s[i + 1..]
  }

  function IndexOf(s: seq<nat>, x: nat): (i: nat)
    ensures i <= |s|
    ensures i < |s| ==> s[i] == x
    ensures forall j :: 0 <= j < i ==> s[j] != x
  {
    if s == [] || s[0] == x then 0 else 1 + IndexOf(s[1..], x)
  }

  /** What the wake-up callback and os_notify_thread do to a thread: a thread that has not been switched
      out yet keeps running. */
  function Awake(k: Kernel, t: nat): Kernel
    requires t < |k.threads|
  {
    var state := if k.current != t then Ready else Running;
    k.(threads := k.threads[t := k.threads[t].(state := state, waitObject := 0)])
  }

  /** NOTIFY_PRIORITY_DROP. */
  function Dropped(k: Kernel, drop: bool): Kernel
    requires k.current < |k.threads|
  {
    if !drop then k
    else k.(threads := k.threads[k.current := k.threads[k.current].(priority := k.threads[k.current].basePriority)])
  }

  /** os_notify_object once a waiter has been chosen, up to the yield. */
  function Woken(n: Notes, w: nat, drop: bool): Notes
    requires ValidNotes(n) && w < |n.waiters|
  {
    n.(k := Dropped(Awake(n.k, n.waiters[w]), drop), waiters := Without(n.waiters, w))
  }

  predicate MustYield(n: Notes, w: nat, drop: bool)
    requires ValidNotes(n) && w < |n.waiters|
  {
    var k := Woken(n, w, drop).k;
    drop || k.threads[n.waiters[w]].priority < k.threads[k.current].priority
  }

  function WakeWaiter(n: Notes, w: nat, drop: bool): Notes
    requires ValidNotes(n) && w < |n.waiters|
  {
    var woken := Woken(n, w, drop);
    if MustYield(n, w, drop) then woken.(k := Yield(woken.k)) else woken
  }

  /** A notification of the object finds a waiter to wake. */
  predicate Wakes(n: Notes, obj: nat)
    requires ValidNotes(n)
  {
    BestWaiter(n.k.threads, n.waiters, obj, |n.waiters|) != NO_WAITER
  }

  /** os_notify_object; `queue` is NOTIFY_QUEUE_NOTIFICATION. */
  function NotifyObject(n: Notes, hash: Hash, obj: nat, drop: bool, queue: bool): (Notes, Code)
    requires ValidNotes(n) && |n.table| > 0
  {
    var w := BestWaiter(n.k.threads, n.waiters, obj, |n.waiters|);
    if w < |n.k.threads| && w < |n.waiters| then
      // A waiter on NULL cannot be told from a thread that does not wait.
      (if obj == 0 then n else WakeWaiter(n, w, drop), Ok)
    else if queue then
      var o := Queue(n.table, n.size, hash, obj);
      (n.(table := o.table, size := o.size), if o.ok then Ok else OutOfNotifications)
    else (n, Ok)
  }

  /** The current thread put on the list of waiting threads. */
  function Block(n: Notes, obj: nat): Notes
    requires ValidNotes(n)
  {
    var c := n.k.current;
    n.(k := Yield(n.k.(threads := n.k.threads[c := n.k.threads[c].(state := Waiting, waitObject := obj)])),
       waiters := n.waiters + [c])
  }

  /** os_wait_for_object called by the current thread. */
  function WaitForObject(n: Notes, hash: Hash, obj: nat): (Notes, Code)
    requires ValidNotes(n) && |n.table| > 0 && WellCounted(n.table, n.size)
  {
    if !Runnable(n.k.threads[n.k.current]) then (n, Busy)
    else
      var (table, size, pending) := Dequeue(n.table, n.size, hash, obj);
      if pending then
        DequeuedSize(n.table, n.size, hash, obj);
        (n.(table := table, size := size), Ok)
      else (Block(n, obj), Ok)
  }

  lemma DequeuedSize(t: seq<Entry>, size: nat, hash: Hash, obj: nat)
    requires |t| > 0 && WellCounted(t, size)
    ensures obj != HASH_EMPTY ==> Dequeue(t, size, hash, obj).1 >= 0
  {
    var offs := Find(t, hash, obj);
    if t[offs].address == obj != HASH_EMPTY {
      OccupiedUpdate(t, offs, FREE);
    }
  }

  /** The timeout event delivered to a thread. */
  function TimeOut(n: Notes, t: nat): Notes
    requires ValidNotes(n) && t < |n.k.threads|
  {
    if n.k.threads[t].waitObject == 0 then n
    else n.(k := Awake(n.k, t), waiters := Removed(n.waiters, t))
  }

  // ------------------------------------------------------------ the class

  datatype Event = Default | TimedOut

  class Notifications {
    const sched: Scheduler
    const buffer: array<Entry>
    var bufferSize: nat
    const waiters: array<nat>
    var waitersSize: nat
    const hash: Hash

    ghost predicate Shaped()
      reads this, sched, sched.threads, sched.pool
    {
      && sched.Valid()
      && IsPow2(buffer.Length)
      && waiters.Length == sched.threads.Length
      && waitersSize <= waiters.Length
    }

    ghost predicate Valid()
      reads this, sched, sched.threads, sched.pool, buffer, waiters
    {
      && Shaped()
      && ValidNotes(View())
    }

    ghost function View(): Notes
      requires Shaped()
      reads this, sched, sched.threads, sched.pool, buffer, waiters
    {
      Notes(sched.View(), buffer[..], bufferSize, waiters[..waitersSize])
    }

    constructor (sched: Scheduler, buffer: array<Entry>, waiters: array<nat>, hash: Hash)
      requires sched.Valid() && IsPow2(buffer.Length) && waiters.Length == sched.threads.Length
      ensures Shaped() && this.sched == sched && this.buffer == buffer && this.waiters == waiters && this.hash == hash
    {
      this.sched, this.buffer, this.waiters, this.hash := sched, buffer, waiters, hash;
      bufferSize, waitersSize := 0, 0;
    }

    /** os_notify_init. */
    method Init()
      requires Shaped()
      modifies this, buffer
      ensures Valid() && View() == Notes(old(sched.View()), View().table, 0, [])
      ensures WellCounted(buffer[..], bufferSize) && forall i :: 0 <= i < buffer.Length ==> buffer[i] == FREE
    {
      for q := 0 to buffer.Length
        invariant forall i :: 0 <= i < q ==> buffer[i] == FREE
      {
        buffer[q] := Entry(HASH_EMPTY, 0);
      }
      bufferSize := 0;
      waitersSize := 0;
      AllFree(buffer[..]);
    }

    /** os_notify_find_queue_entry; it ends when the object or a free slot is in the buffer. */
    method FindQueueEntry(obj: nat) returns (offs: nat)
      requires IsPow2(buffer.Length) && Ends(buffer[..], obj)
      ensures offs < buffer.Length && offs == Find(buffer[..], hash, obj)
      ensures buffer[offs].address == obj || buffer[offs].address == HASH_EMPTY
    {
      ghost var m: nat :| buffer.Length == Pow2(m);
      offs := HashSearch(buffer, Address, hash(obj), obj, m);
    }

    method QueueEvent(obj: nat) returns (ok: bool)
      requires IsPow2(buffer.Length) && Ends(buffer[..], obj)
      modifies this, buffer
      ensures Outcome(buffer[..], bufferSize, ok) == Queue(old(buffer[..]), old(bufferSize), hash, obj)
      ensures waitersSize == old(waitersSize)
    {
      var offs := FindQueueEntry(obj);
      if bufferSize == buffer.Length {
        return false;
      }
      if buffer[offs].address == HASH_EMPTY {
        buffer[offs] := buffer[offs].(address := obj);
        bufferSize := bufferSize + 1;
      }
      buffer[offs] := buffer[offs].(pending := (buffer[offs].pending + 1) % COUNT_MODULUS);
      assert buffer[..] == old(buffer[..])[offs := buffer[offs]];
      return true;
    }

    method DequeueEvent(obj: nat) returns (pending: bool)
      requires IsPow2(buffer.Length) && Ends(buffer[..], obj) && obj != HASH_EMPTY && WellCounted(buffer[..], bufferSize)
      modifies this, buffer
      ensures (buffer[..], bufferSize, pending) == Dequeue(old(buffer[..]), old(bufferSize), hash, obj)
      ensures waitersSize == old(waitersSize)
    {
      DequeuedSize(buffer[..], bufferSize, hash, obj);
      var offs := FindQueueEntry(obj);
      if buffer[offs].address != obj {
        return false;
      }
      assert buffer[offs].pending > 0;
      var remaining := (buffer[offs].pending - 1) % COUNT_MODULUS;
      buffer[offs] := buffer[offs].(pending := remaining);
      if remaining == 0 {
        buffer[offs] := buffer[offs].(address := HASH_EMPTY);
        bufferSize := bufferSize - 1;
      }
      assert buffer[..] == old(buffer[..])[offs := buffer[offs]];
      return true;
    }

    /** os_find_notified_thread_waiter. */
    method FindNotifiedThreadWaiter(obj: nat) returns (candidate: nat)
      requires Valid()
      ensures candidate == BestWaiter(sched.threads[..], waiters[..waitersSize], obj, waitersSize)
    {
      candidate := NO_WAITER;
      var candidatePriority := 0xFF;
      ghost var ws := waiters[..waitersSize];
      for waiter := 0 to waitersSize
        invariant candidate == BestWaiter(sched.threads[..], ws, obj, waiter)
        invariant candidatePriority == PriorityAt(sched.threads[..], ws, candidate)
      {
        assert ws[waiter] == waiters[waiter];
        var t := waiters[waiter];
        if sched.threads[t].waitObject == obj {
          if sched.threads[t].priority < candidatePriority {
            candidate := waiter;
            candidatePriority := sched.threads[t].priority;
          }
        }
      }
    }

    /** Takes a thread off the list of waiting threads. */
    method RemoveWaiter(t: nat)
      requires waitersSize <= waiters.Length
      modifies this`waitersSize, waiters
      ensures waitersSize <= old(waitersSize)
      ensures waiters[..waitersSize] == Removed(old(waiters[..waitersSize]), t)
    {
      var q := 0;
      while q < waitersSize && waiters[q] != t
        invariant q <= waitersSize && forall j :: 0 <= j < q ==> waiters[j] != t
      {
        q := q + 1;
      }
      FirstIndex(waiters[..waitersSize], t, q);
      if q < waitersSize {
        waitersSize := ArrayDelete(waiters, q, waitersSize);
      }
    }

    /** os_notify_thread with the callback cb_syscall_notify_object; cancelling the timer is left to the timers. */
    method NotifyThread(t: nat, event: Event) returns (rc: Code)
      requires Shaped() && t < sched.threads.Length
      modifies this`waitersSize, sched.threads, waiters
      ensures Shaped()
      ensures rc == if old(sched.threads[t].waitObject) == 0 then NotAvail else Ok
      ensures waiters[..waitersSize] ==
                if event == TimedOut && rc == Ok then Removed(old(waiters[..waitersSize]), t) else old(waiters[..waitersSize])
      ensures sched.View() == if rc == Ok then Awake(old(sched.View()), t) else old(sched.View())
    {
      if sched.threads[t].waitObject == 0 {
        return NotAvail;
      }
      var state := if sched.current != t then Ready else Running;
      sched.threads[t] := sched.threads[t].(state := state);
      if event == TimedOut {
        RemoveWaiter(t);
      }
      sched.threads[t] := sched.threads[t].(waitObject := 0);
      assert sched.threads[..] == old(sched.threads[..])[t := sched.threads[t]];
      return Ok;
    }

    /** The timer expiry of a wait. */
    method ExpireWait(t: nat)
      requires Valid() && t < sched.threads.Length
      modifies this`waitersSize, sched.threads, waiters
      ensures Valid() && View() == TimeOut(old(View()), t)
    {
      var rc := NotifyThread(t, TimedOut);
    }

    /** Takes an entry off the list of waiting threads. */
    method Unlist(i: nat)
      requires i < waitersSize <= waiters.Length
      modifies this`waitersSize, waiters
      ensures waitersSize <= waiters.Length && waiters[..waitersSize] == Without(old(waiters[..waitersSize]), i)
    {
      ghost var before := waiters[..waitersSize];
      waitersSize := ArrayDelete(waiters, i, waitersSize);
      assert waiters[..waitersSize] == Without(before, i);
    }

    /** NOTIFY_PRIORITY_DROP. */
    method DropPriority()
      requires Shaped()
      modifies sched.threads
      ensures Shaped() && sched.View() == Dropped(old(sched.View()), true)
    {
      var c := sched.current;
      sched.threads[c] := sched.threads[c].(priority := sched.threads[c].basePriority);
    }

    /** The waiter's part of os_notify_object. */
    method WakeCandidate(candidate: nat, drop: bool) returns (woken: bool, mustYield: bool)
      requires Valid() && candidate < waitersSize
      modifies this`waitersSize, sched.threads, waiters
      ensures Valid()
      ensures var n := old(View()); woken <==> n.k.threads[n.waiters[candidate]].waitObject != 0
      ensures woken ==> View() == Woken(old(View()), candidate, drop)
      ensures woken ==> mustYield == MustYield(old(View()), candidate, drop)
      ensures !woken ==> View() == old(View()) && !mustYield
    {
      ghost var before := View();
      mustYield := false;
      var t := waiters[candidate];
      var rc := NotifyThread(t, Default);
      woken := rc == Ok;
      if woken {
        if drop {
          DropPriority();
          mustYield := true;
        }
        if sched.threads[t].priority < sched.threads[sched.current].priority {
          mustYield := true;
        }
        Unlist(candidate);
      }
    }

    /** os_notify_object. */
    method Notify(obj: nat, drop: bool, queue: bool) returns (rc: Code)
      requires Valid() && (queue && !Wakes(View(), obj) ==> Ends(buffer[..], obj))
      modifies this, sched, sched.threads, waiters, buffer
      ensures Valid() && (View(), rc) == NotifyObject(old(View()), hash, obj, drop, queue)
    {
      var candidate := FindNotifiedThreadWaiter(obj);
      rc := Ok;
      if candidate < sched.threads.Length && candidate < waitersSize {
        assert WaitsOn(sched.threads[..], waiters[..waitersSize], candidate, obj);
        var woken, mustYield := WakeCandidate(candidate, drop);
        if mustYield {
          sched.SchedYield();
        }
      } else if queue {
        var ok := QueueEvent(obj);
        rc := if ok then Ok else OutOfNotifications;
      }
    }

    /** os_wait_for_object. */
    method Wait(obj: nat) returns (rc: Code)
      requires Valid() && Ends(buffer[..], obj) && obj != HASH_EMPTY && WellCounted(buffer[..], bufferSize)
      requires Runnable(sched.threads[sched.current]) && !Dequeue(buffer[..], bufferSize, hash, obj).2 ==> waitersSize < waiters.Length
      modifies this, sched, sched.threads, waiters, buffer
      ensures Valid() && (View(), rc) == WaitForObject(old(View()), hash, obj)
    {
      ghost var before := View();
      var c := sched.current;
      if sched.threads[c].state == Ready || sched.threads[c].state == Running {
        var pending := DequeueEvent(obj);
        if !pending {
          waiters[waitersSize] := c;
          waitersSize := waitersSize + 1;
          sched.threads[c] := sched.threads[c].(state := Waiting);
          sched.threads[c] := sched.threads[c].(waitObject := obj);
          assert waiters[..waitersSize] == before.waiters + [c];
          assert sched.threads[..] == before.k.threads[c := sched.threads[c]];
          sched.SchedYield();
        }
        return Ok;
      }
      return Busy;
    }
  }

  function Removed(s: seq<nat>, x: nat): (r: seq<nat>)
    ensures |r| <= |s|
  {
    var i := IndexOf(s, x);
    if i < |s| then Without(s, i) else s
  }

  lemma {:induction false} AllFree(t: seq<Entry>)
    requires forall i :: 0 <= i < |t| ==> t[i] == FREE
    ensures Occupied(t) == 0
  {
    if t != [] {
      AllFree(t[1..]);
    }
  }

  lemma FirstIndex(s: seq<nat>, x: nat, q: nat)
    requires q <= |s| && (forall j :: 0 <= j < q ==> s[j] != x) && (q < |s| ==> s[q] == x)
    ensures q == IndexOf(s, x)
  {
  }
}
