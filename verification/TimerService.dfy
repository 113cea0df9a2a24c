/** The timer tables updated in place (src/os/kernel/timer.c), proved equal to the operations on values. */
module TimerService {
  import opened PowerOfTwo
  import opened Algo
  import opened Timer
  import opened TimerRuns

  /** The queue names slots of the table and is sorted by resume time. */
  ghost predicate Ordered(t: Timers) {
    Shaped(t) && Sorted(Times(t.queue))
  }

  method Remainder(x: nat, n: nat) returns (r: nat)
    requires n > 0
    ensures r == Wrap(x, n)
  {
    WrapIsMod(x, n);
    r := x % n;
  }

  class SleeperTable {
    const sleepers: array<Sleeper>
    const queue: array<Due>
    var queueSize: nat
    var cursor: nat
    const hash: Hash

    ghost predicate Valid()
      reads this, queue, sleepers
    {
      && IsPow2(sleepers.Length) && queue.Length == sleepers.Length < TIMER_INVALID_ID
      && queueSize <= queue.Length && Ordered(View())
    }

    ghost function View(): Timers
      requires queueSize <= queue.Length
      reads this, queue, sleepers
    {
      Timers(sleepers[..], queue[..queueSize], cursor)
    }

    constructor (sleepers: array<Sleeper>, queue: array<Due>, hash: Hash)
      requires IsPow2(sleepers.Length) && queue.Length == sleepers.Length < TIMER_INVALID_ID
      ensures Valid() && this.sleepers == sleepers && this.queue == queue && this.hash == hash
    {
      this.sleepers, this.queue, this.hash := sleepers, queue, hash;
      queueSize, cursor := 0, 0;
    }

    /** os_timer_init. */
    method Init()
      requires Valid()
      modifies this, sleepers
      ensures Valid() && View().queue == [] && View().cursor == 0
      ensures forall i :: 0 <= i < sleepers.Length ==> sleepers[i] == old(sleepers[i]).(key := HASH_EMPTY)
      ensures (forall i :: 0 <= i < sleepers.Length ==> !Periodic(old(sleepers[i]))) ==> IsInit(View()) && OneShotInv(View())
    {
      for q := 0 to sleepers.Length
        invariant forall i :: 0 <= i < sleepers.Length ==>
                    sleepers[i] == if i < q then old(sleepers[i]).(key := HASH_EMPTY) else old(sleepers[i])
      {
        sleepers[q] := sleepers[q].(key := HASH_EMPTY);
      }
      queueSize := 0;
      cursor := 0;
    }

    /** os_find_timer_slot; it ends when the key or a free slot is in the table. */
    method FindTimerSlot(owner: nat, kind: Kind) returns (slot: nat)
      requires Valid() && Searchable(Column(sleepers[..], Key), SleeperKey(kind, owner))
      ensures slot < sleepers.Length && slot == FindSlot(View(), hash, owner, kind)
      ensures sleepers[slot].key == SleeperKey(kind, owner) || sleepers[slot].key == HASH_EMPTY
    {
      var key := SleeperKey(kind, owner);
      ghost var m: nat :| sleepers.Length == Pow2(m);
      slot := HashSearch(sleepers, Key, hash(key), key, m);
    }

    /** The entry that the lookup of a used slot reads is in the array, be it the one behind the last in use, and it is
        the one sought or has another resume time. */
    ghost predicate ReadEnds(slot: nat)
      requires Valid() && slot < sleepers.Length
      reads this, queue, sleepers
    {
      Used(sleepers[slot]) ==>
        var start := LookupStart(View(), slot);
        start < queue.Length && (queue[start].slot == slot || queue[start].resume != Resume(sleepers[slot]))
    }

    /** os_find_timer_queue. */
    method FindTimerQueue(slot: nat) returns (offs: nat)
      requires Valid() && (slot < sleepers.Length ==> ReadEnds(slot))
      ensures offs == TIMER_INVALID_ID <==>
                slot >= sleepers.Length || !Used(sleepers[slot]) || queue[LookupStart(View(), slot)].slot != slot
      ensures offs != TIMER_INVALID_ID ==> offs == LookupStart(View(), slot)
      ensures slot < sleepers.Length && LookupEnds(View(), slot) ==> offs == FindQueue(View(), slot)
    {
      if slot >= sleepers.Length {
        return TIMER_INVALID_ID;
      }
      var sleeper := sleepers[slot];
      if sleeper.key == HASH_EMPTY {
        return TIMER_INVALID_ID;
      }
      var nextResume := Remainder(sleeper.sleepFrom + sleeper.interval, CLOCK);
      offs := BinarySearch(queue, ResumeTime, nextResume, queueSize);
      assert offs == LookupStart(View(), slot);
      // The loop of the source tests one entry: another turn would test the same one.
      if queue[offs].slot != slot {
        offs := TIMER_INVALID_ID;
      }
    }

    /** os_dequeue_timed_event. */
    method DequeueTimedEvent(offs: nat)
      requires Valid() && offs < queueSize
      modifies this, queue
      ensures Valid() && View() == Dequeue(old(View()), offs)
    {
      ghost var before := View();
      DequeueOrdered(before, offs);
      queueSize := ArrayDelete(queue, offs, queueSize);
      assert queue[..queueSize] == Without(before.queue, offs);
      if cursor > offs {
        cursor := cursor - 1;
      }
    }

    /** os_enqueue_timed_event. */
    method EnqueueTimedEvent(slot: nat, nextResume: nat)
      requires Valid() && queueSize < queue.Length && slot < sleepers.Length
      modifies this, queue
      ensures Valid() && View() == Enqueue(old(View()), slot, nextResume)
    {
      ghost var before := View();
      EnqueueOrdered(before, slot, nextResume);
      var offs := BinarySearch(queue, ResumeTime, nextResume, queueSize);
      queueSize := ArrayInsert(queue, offs, queueSize);
      queue[offs] := Due(nextResume, slot);
      assert queue[..queueSize] == With(before.queue, offs, Due(nextResume, slot)) by {
        assert queue[..offs] == before.queue[..offs] && queue[offs + 1..queueSize] == before.queue[offs..];
      }
      if cursor > offs {
        cursor := cursor - 1;
      }
    }

    /** do_set_timed_event for the slot that was found. */
    method DoSetTimedEvent(slot: nat, now: nat, interval: nat, thread: nat, kind: Kind)
      requires Valid() && slot < sleepers.Length && LookupEnds(View(), slot)
      requires FindQueue(View(), slot) == TIMER_INVALID_ID ==> queueSize < queue.Length
      modifies this, queue, sleepers
      ensures Valid() && View() == Timer.SetTimedEvent(old(View()), slot, now, interval, thread, kind)
    {
      ghost var before := View();
      var prior := FindTimerQueue(slot);
      var nextResume := Remainder(now + interval, CLOCK);
      sleepers[slot] := Sleeper(SleeperKey(kind, thread), now, interval, thread, kind);
      assert View() == before.(sleepers := before.sleepers[slot := sleepers[slot]]);
      if prior == TIMER_INVALID_ID || queue[prior].resume != nextResume {
        if prior != TIMER_INVALID_ID {
          DequeueTimedEvent(prior);
        }
        EnqueueTimedEvent(slot, nextResume);
      }
    }

    /** os_set_timed_event. */
    method SetTimedEvent(now: nat, interval: nat, thread: nat, kind: Kind)
      requires Valid() && Searchable(Column(sleepers[..], Key), SleeperKey(kind, thread))
      requires LookupEnds(View(), FindSlot(View(), hash, thread, kind))
      requires FindQueue(View(), FindSlot(View(), hash, thread, kind)) == TIMER_INVALID_ID ==> queueSize < queue.Length
      modifies this, queue, sleepers
      ensures Valid()
      ensures var t := old(View()); View() == Timer.SetTimedEvent(t, FindSlot(t, hash, thread, kind), now, interval, thread, kind)
    {
      var slot := FindTimerSlot(thread, kind);
      DoSetTimedEvent(slot, now, interval, thread, kind);
    }

    /** os_cancel_sleeper. */
    method CancelSleeper(id: nat) returns (ok: bool)
      requires Valid()
      modifies this, queue, sleepers
      ensures Valid() && ok == (id < old(queueSize))
      ensures View() == if ok then Timer.CancelSleeper(old(View()), id) else old(View())
    {
      if id >= queueSize {
        return false;
      }
      var slot := queue[id].slot;
      ghost var before := View();
      DequeueTimedEvent(id);
      ghost var mid := View();
      sleepers[slot] := sleepers[slot].(key := HASH_EMPTY);
      assert View() == mid.(sleepers := before.sleepers[slot := before.sleepers[slot].(key := HASH_EMPTY)]);
      ok := true;
    }

    /** os_cancel_timed_event. */
    method CancelTimedEvent(owner: nat, kind: Kind) returns (found: bool)
      requires Valid() && Searchable(Column(sleepers[..], Key), SleeperKey(kind, owner))
      requires ReadEnds(FindSlot(View(), hash, owner, kind))
      modifies this, queue, sleepers
      ensures Valid()
      ensures var t := old(View()); var slot := FindSlot(t, hash, owner, kind);
              && (found <==> LookupEnds(t, slot) && FindQueue(t, slot) != TIMER_INVALID_ID)
              && (found ==> FindQueue(t, slot) < |t.queue| && View() == Timer.CancelSleeper(t, FindQueue(t, slot)))
              && (!found ==> View() == t)
    {
      var slot := FindTimerSlot(owner, kind);
      var id := FindTimerQueue(slot);
      if id == TIMER_INVALID_ID {
        return false;
      }
      found := CancelSleeper(id);
    }

    /** os_sleeper_reschedule. */
    method SleeperReschedule(id: nat)
      requires Valid() && id < queueSize
      modifies this, queue
      ensures Valid() && View() == Reschedule(old(View()), id)
    {
      ghost var before := View();
      var entry := queue[id];
      assert entry == before.queue[id];
      var slot := entry.slot;
      var nextResume := Remainder(entry.resume + sleepers[slot].interval, CLOCK);
      DequeueTimedEvent(id);
      assert View() == Dequeue(before, id);
      EnqueueTimedEvent(slot, nextResume);
    }

    /** One turn of the loop of os_run_timer with a due entry under the cursor. */
    method FireTimer()
      requires Valid() && cursor < queueSize
      modifies this, queue, sleepers
      ensures Valid() && View() == Fire(old(View()))
    {
      var slot := queue[cursor].slot;
      if sleepers[slot].kind == Interval {
        SleeperReschedule(cursor);
      } else {
        var ok := CancelSleeper(cursor);
      }
      if queueSize > 0 {
        cursor := Remainder(cursor + 1, queueSize);
      }
    }

    /** os_run_timer, with the timers that went off as its result. */
    method RunTimer(start: nat, interval: nat) returns (fired: seq<Due>)
      requires Valid() && Ticks(View(), start, Wrap(start + interval, CLOCK))
      modifies this, queue, sleepers
      ensures Valid() && Tick(View(), fired) == Timer.RunTimer(old(View()), start, Wrap(start + interval, CLOCK))
    {
      var end := Remainder(start + interval, CLOCK);
      fired := [];
      if queueSize == 0 {
        return;
      }
      ghost var whole := Timer.RunTimer(View(), start, end);
      var running := true;
      while running
        invariant Valid() && Ticks(View(), start, end) && (running ==> queueSize > 0)
        invariant running ==> whole == Join(fired, Timer.RunTimer(View(), start, end))
        invariant !running ==> whole == Tick(View(), fired)
        decreases running, Measure(View(), start, end)
      {
        var entry := queue[cursor];
        if entry.resume <= end || (end < start && entry.resume > start) {
          FireDecreases(View(), start, end);
          JoinStep(View(), fired, start, end);
          FireTimer();
          fired := fired + [entry];
          running := queueSize > 0;
        } else {
          JoinEnd(View(), fired, start, end);
          running := false;
        }
        if !running && queueSize == 0 {
          JoinEnd(View(), fired, start, end);
        }
      }
    }
  }

  ghost function Join(fired: seq<Due>, rest: Tick): Tick {
    Tick(rest.after, fired + rest.fired)
  }

  lemma JoinEnd(t: Timers, fired: seq<Due>, start: nat, end: nat)
    requires Ticks(t, start, end) && (|t.queue| == 0 || !IsDue(t.queue[t.cursor].resume, start, end))
    ensures Join(fired, Timer.RunTimer(t, start, end)) == Tick(t, fired)
  {
  }

  lemma JoinStep(t: Timers, fired: seq<Due>, start: nat, end: nat)
    requires Ticks(t, start, end) && t.cursor < |t.queue| && IsDue(t.queue[t.cursor].resume, start, end)
    requires Ticks(Fire(t), start, end)
    ensures Join(fired, Timer.RunTimer(t, start, end))
         == Join(fired + [t.queue[t.cursor]], Timer.RunTimer(Fire(t), start, end))
  {
    var d, rest := t.queue[t.cursor], Timer.RunTimer(Fire(t), start, end);
    assert Timer.RunTimer(t, start, end) == Tick(rest.after, [d] + rest.fired);
    assert fired + ([d] + rest.fired) == fired + [d] + rest.fired;
  }

  lemma DequeueOrdered(t: Timers, offs: nat)
    requires Ordered(t) && offs < |t.queue|
    ensures Ordered(Dequeue(t, offs))
  {
  }

  lemma EnqueueOrdered(t: Timers, slot: nat, resume: nat)
    requires Ordered(t) && slot < |t.sleepers|
    ensures Ordered(Enqueue(t, slot, resume))
  {
  }
}
