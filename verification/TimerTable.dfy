/** Arming, finding and cancelling one timer, and the cursor's entry (src/os/kernel/timer.c). */
module TimerTable {
  import opened PowerOfTwo
  import opened Algo
  import opened Timer
  import opened TimerRuns

  /** The slot a timer was armed in is the slot a search for it finds, and holds what it was armed with. */
  lemma ArmThenFind(m: nat, t: Timers, hash: Hash, now: nat, interval: nat, thread: nat, kind: Kind)
    requires |t.sleepers| == Pow2(m) && Searchable(Column(t.sleepers, Key), SleeperKey(kind, thread))
    requires LookupEnds(t, FindSlot(t, hash, thread, kind)) && |t.queue| < TIMER_INVALID_ID
    ensures var slot := FindSlot(t, hash, thread, kind);
            var u := SetTimedEvent(t, slot, now, interval, thread, kind);
            && |u.sleepers| == |t.sleepers| && FindSlot(u, hash, thread, kind) == slot
            && u.sleepers[slot] == Sleeper(SleeperKey(kind, thread), now, interval, thread, kind)
  {
    var slot := FindSlot(t, hash, thread, kind);
    ArmEffect(t, slot, now, interval, thread, kind);
    var u := SetTimedEvent(t, slot, now, interval, thread, kind);
    FoundAgain(m, Column(t.sleepers, Key), Column(u.sleepers, Key), hash(SleeperKey(kind, thread)), SleeperKey(kind, thread));
  }

  /** Storing the value in the slot its search found does not change what the search finds. */
  lemma FoundAgain(m: nat, keys: seq<nat>, stored: seq<nat>, h: nat, value: nat)
    requires |keys| == Pow2(m) && Searchable(keys, value) && |stored| == |keys|
    requires forall i :: 0 <= i < |keys| ==> stored[i] == if i == Slot(keys, h, value) then value else keys[i]
    ensures Slot(stored, h, value) == Slot(keys, h, value)
  {
  }

  /** Cancelling a timer that was just armed in a free slot takes its entry out of the queue again and frees the slot. */
  lemma ArmThenCancel(t: Timers, slot: nat, now: nat, interval: nat, thread: nat, kind: Kind)
    requires OneShotInv(t) && slot < |t.sleepers| && !Used(t.sleepers[slot]) && thread <= 0xFF && |t.queue| < TIMER_INVALID_ID - 1
    requires LookupEnds(t, slot) && forall i :: 0 <= i < |t.queue| ==> t.queue[i].resume != Wrap(now + interval, CLOCK)
    ensures var u := SetTimedEvent(t, slot, now, interval, thread, kind);
            && |u.sleepers| == |t.sleepers| && LookupEnds(u, slot)
            && var id := FindQueue(u, slot);
               && id < |u.queue| && u.queue[id].slot == slot
               && CancelSleeper(u, id).queue == t.queue && !Used(CancelSleeper(u, id).sleepers[slot])
  {
    var u, p := ArmInserts(t, slot, now, interval, thread, kind);
    var id := LookupFinds(u, slot);
    assert u.queue[p].slot == slot;
    WithoutWith(t.queue, p, u.queue[p]);
  }

  lemma ArmInserts(t: Timers, slot: nat, now: nat, interval: nat, thread: nat, kind: Kind) returns (u: Timers, p: nat)
    requires OneShotInv(t) && slot < |t.sleepers| && !Used(t.sleepers[slot]) && thread <= 0xFF && |t.queue| < TIMER_INVALID_ID - 1
    requires LookupEnds(t, slot) && forall i :: 0 <= i < |t.queue| ==> t.queue[i].resume != Wrap(now + interval, CLOCK)
    ensures u == SetTimedEvent(t, slot, now, interval, thread, kind) && Agrees(u.sleepers, u.queue)
    ensures |u.sleepers| == |t.sleepers| && Used(u.sleepers[slot])
    ensures p <= |t.queue| && u.queue == With(t.queue, p, Due(Resume(u.sleepers[slot]), slot))
  {
    ArmEffect(t, slot, now, interval, thread, kind);
    ArmAgrees(t, slot, now, interval, thread, kind);
    u := SetTimedEvent(t, slot, now, interval, thread, kind);
    p := LowerBound(Times(t.queue), Resume(u.sleepers[slot]));
  }

  lemma WithoutWith(q: seq<Due>, p: nat, d: Due)
    requires p <= |q|
    ensures Without(With(q, p, d), p) == q
  {
  }

  // ----------------------------------------------------------------- the cursor

  /** Taking out an entry other than the one under the cursor leaves the cursor on its entry. */
  lemma DequeueKeepsCursor(t: Timers, offs: nat)
    requires offs < |t.queue| && t.cursor < |t.queue| && t.cursor != offs
    ensures Dequeue(t, offs).cursor < |Dequeue(t, offs).queue| && Dequeue(t, offs).queue[Dequeue(t, offs).cursor] == t.queue[t.cursor]
  {
  }

  /** Putting in an entry moves the cursor down when it should move up: the cursor stays on its entry exactly when the new
      entry goes in behind it. */
  lemma EnqueueKeepsCursorIff(t: Timers, slot: nat, resume: nat)
    requires t.cursor < |t.queue|
    requires forall i, j :: 0 <= i < j < |t.queue| ==> t.queue[i] != t.queue[j]
    requires forall i :: 0 <= i < |t.queue| ==> t.queue[i] != Due(resume, slot)
    ensures var u := Enqueue(t, slot, resume);
            && u.cursor < |u.queue|
            && (u.queue[u.cursor] == t.queue[t.cursor] <==> t.cursor < LowerBound(Times(t.queue), resume))
  {
  }

  /** An entry put in before the cursor: the cursor was on the entry for 9 and ends up on the new one for 6. */
  lemma CursorSlipsBack(t: Timers)
    requires t.queue == [Due(5, 0), Due(8, 1), Due(9, 2)] && t.cursor == 2
    ensures var u := Enqueue(t, 3, 6); u.queue == [Due(5, 0), Due(6, 3), Due(8, 1), Due(9, 2)] && u.cursor == 1
  {
    var times := Times(t.queue);
    assert times == [5, 8, 9] && times[1..] == [8, 9];
    assert LowerBound(times, 6) == 1 + LowerBound([8, 9], 6) == 1;
  }

  /** Taking out an entry leaves the cursor inside a queue that is not empty if and only if that entry is not the last one
      with the cursor on it. */
  lemma DequeueKeepsCursorInsideIff(t: Timers, offs: nat)
    requires offs < |t.queue| && t.cursor < |t.queue|
    ensures var u := Dequeue(t, offs);
            (|u.queue| > 0 ==> u.cursor < |u.queue|) <==> |t.queue| == 1 || !(t.cursor == offs == |t.queue| - 1)
  {
  }

  /** The last of two entries is taken out while the cursor is on it. */
  lemma CursorFallsOff(t: Timers)
    requires t.queue == [Due(5, 0), Due(8, 1)] && t.cursor == 1
    ensures Dequeue(t, 1).queue == [Due(5, 0)] && Dequeue(t, 1).cursor == 1
  {
  }

  lemma EnqueueKeepsCursorInside(t: Timers, slot: nat, resume: nat)
    requires t.cursor < |t.queue| || t.cursor == 0
    ensures Enqueue(t, slot, resume).cursor < |Enqueue(t, slot, resume).queue|
  {
  }
}
