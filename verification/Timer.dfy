/** Kernel timers (src/os/kernel/timer.c): a hash table of sleepers and a queue of their resume times. */
module Timer {
  import opened Algo

  /** Times are 32-bit and wrap around. */
  const CLOCK: nat := 0x1_0000_0000

  const TIMER_INVALID_ID: nat := 0xFF

  datatype Kind = Sleep | Timeout | Interval

  /** struct TimerEntry_t. */
  datatype Sleeper = Sleeper(key: nat, sleepFrom: nat, interval: nat, thread: nat, kind: Kind)

  /** struct TimerQueueEntry_t. */
  datatype Due = Due(resume: nat, slot: nat)

  /** sleepers, the used part of sleeper_queue, and sleeper_queue_cursor. */
  datatype Timers = Timers(sleepers: seq<Sleeper>, queue: seq<Due>, cursor: nat)

  type Hash = nat -> nat

  function KindCode(k: Kind): nat {
    match k case Sleep => 0 case Timeout => 1 case Interval => 2
  }

  /** SLEEPER_KEY. */
  function SleeperKey(kind: Kind, thread: nat): nat {
    KindCode(kind) * 0x100_0000 + thread
  }

  function Key(s: Sleeper): nat {
    s.key
  }

  function ResumeTime(d: Due): nat {
    d.resume
  }

  function Times(q: seq<Due>): (s: seq<nat>)
    ensures |s| == |q|
    ensures forall i :: 0 <= i < |q| ==> s[i] == q[i].resume
  {
    Column(q, ResumeTime)
  }

  predicate Used(s: Sleeper) {
    s.key != HASH_EMPTY
  }

  function Resume(s: Sleeper): nat {
    Wrap(s.sleepFrom + s.interval, CLOCK)
  }

  // ------------------------------------------------------- the operations

  function Without(q: seq<Due>, i: nat): (r: seq<Due>)
    requires i < |q|
    ensures |r| == |q| - 1
    ensures forall j :: 0 <= j < |r| ==> r[j] == if j < i then q[j] else q[j + 1]
  {
    q[..i] + q[i + 1..]
  }

  function With(q: seq<Due>, i: nat, d: Due): (r: seq<Due>)
    requires i <= |q|
    ensures |r| == |q| + 1
    ensures forall j :: 0 <= j < |r| ==> r[j] == if j < i then q[j] else if j == i then d else q[j - 1]
  {
    q[..i] + [d] + q[i..]
  }

  /** os_dequeue_timed_event. */
  function Dequeue(t: Timers, offs: nat): Timers
    requires offs < |t.queue|
  {
    t.(queue := Without(t.queue, offs), cursor := if t.cursor > offs then t.cursor - 1 else t.cursor)
  }

  /** os_enqueue_timed_event. */
  function Enqueue(t: Timers, slot: nat, resume: nat): Timers {
    var offs := LowerBound(Times(t.queue), resume);
    t.(queue := With(t.queue, offs, Due(resume, slot)), cursor := if t.cursor > offs then t.cursor - 1 else t.cursor)
  }

  /** os_find_timer_slot. */
  function FindSlot(t: Timers, hash: Hash, thread: nat, kind: Kind): (slot: nat)
    requires |t.sleepers| > 0
    ensures slot < |t.sleepers|
  {
    var key := SleeperKey(kind, thread);
    Slot(Column(t.sleepers, Key), hash(key), key)
  }

  /** Where the lookup of a slot's queue entry starts. */
  function LookupStart(t: Timers, slot: nat): (offs: nat)
    requires slot < |t.sleepers|
    ensures offs <= |t.queue|
  {
    LowerBound(Times(t.queue), Resume(t.sleepers[slot]))
  }

  /** The loop of os_find_timer_queue leaves its index where it is, so it ends only when the entry there is
      the one sought or has another resume time; and there must be an entry. */
  predicate LookupEnds(t: Timers, slot: nat)
    requires slot < |t.sleepers|
  {
    Used(t.sleepers[slot]) ==>
      var offs := LookupStart(t, slot);
      offs < |t.queue| && (t.queue[offs].slot == slot || t.queue[offs].resume != Resume(t.sleepers[slot]))
  }

  /** os_find_timer_queue. */
  function FindQueue(t: Timers, slot: nat): nat
    requires slot < |t.sleepers| && LookupEnds(t, slot)
  {
    if !Used(t.sleepers[slot]) then TIMER_INVALID_ID
    else
      var offs := LookupStart(t, slot);
      if t.queue[offs].slot == slot then offs else TIMER_INVALID_ID
  }

  /** do_set_timed_event for the slot found. */
  function SetTimedEvent(t: Timers, slot: nat, now: nat, interval: nat, thread: nat, kind: Kind): Timers
    requires slot < |t.sleepers| && LookupEnds(t, slot) && |t.queue| < TIMER_INVALID_ID
  {
    var prior := FindQueue(t, slot);
    var resume := Wrap(now + interval, CLOCK);
    var u := t.(sleepers := t.sleepers[slot := Sleeper(SleeperKey(kind, thread), now, interval, thread, kind)]);
    if prior != TIMER_INVALID_ID && t.queue[prior].resume == resume then u
    else Enqueue(if prior != TIMER_INVALID_ID then Dequeue(u, prior) else u, slot, resume)
  }

  /** os_cancel_sleeper. */
  function CancelSleeper(t: Timers, id: nat): Timers
    requires id < |t.queue| && t.queue[id].slot < |t.sleepers|
  {
    var slot := t.queue[id].slot;
    Dequeue(t, id).(sleepers := t.sleepers[slot := t.sleepers[slot].(key := HASH_EMPTY)])
  }

  /** os_sleeper_reschedule: the next deadline counts from the last one. */
  function Reschedule(t: Timers, id: nat): Timers
    requires id < |t.queue| && t.queue[id].slot < |t.sleepers|
  {
    var Due(resume, slot) := t.queue[id];
    Enqueue(Dequeue(t, id), slot, Wrap(resume + t.sleepers[slot].interval, CLOCK))
  }

  predicate Periodic(s: Sleeper) {
    s.kind == Interval
  }

  /** The test of os_run_timer for an entry. */
  predicate IsDue(resume: nat, start: nat, end: nat) {
    resume <= end || (end < start && resume > start)
  }

  /** The remainder, by subtraction. */
  function Wrap(x: nat, n: nat): (r: nat)
    requires n > 0
    ensures r < n
    decreases x
  {
    if x < n then x else Wrap(x - n, n)
  }

  lemma {:induction false} WrapIsMod(x: nat, n: nat)
    requires n > 0
    ensures Wrap(x, n) == x % n
    decreases x
  {
    if x >= n {
      WrapIsMod(x - n, n);
      assert (x - n + n * 1) % n == (x - n) % n by { ModShift(x - n, 1, n); }
    } else {
      MulBounds(n, x / n);
    }
  }

  /** One iteration of os_run_timer on a due entry under the cursor. */
  function Fire(t: Timers): Timers
    requires t.cursor < |t.queue| && t.queue[t.cursor].slot < |t.sleepers|
  {
    var u := if Periodic(t.sleepers[t.queue[t.cursor].slot]) then Reschedule(t, t.cursor) else CancelSleeper(t, t.cursor);
    if |u.queue| > 0 then u.(cursor := Wrap(u.cursor + 1, |u.queue|)) else u
  }

  /** Entries only name slots of the table. */
  predicate Shaped(t: Timers) {
    forall i :: 0 <= i < |t.queue| ==> t.queue[i].slot < |t.sleepers|
  }

  // ------------------------------------------------------- whole ticks

  /** Time by which the queued entries are overdue at the end of a tick. */
  function Debt(q: seq<Due>, start: nat, end: nat): nat {
    if q == [] then 0 else Debt(q[1..], start, end) + Overdue(q[0], start, end)
  }

  function Overdue(d: Due, start: nat, end: nat): nat {
    if d.resume <= end then end + 1 - d.resume
    else if end < start < d.resume <= end + CLOCK then end + 1 + CLOCK - d.resume
    else 0
  }

  lemma {:induction false} DebtWithout(q: seq<Due>, i: nat, start: nat, end: nat)
    requires i < |q|
    ensures Debt(Without(q, i), start, end) == Debt(q, start, end) - Overdue(q[i], start, end)
  {
    if i == 0 {
      assert Without(q, i) == q[1..];
    } else {
      DebtWithout(q[1..], i - 1, start, end);
      assert Without(q, i)[1..] == Without(q[1..], i - 1);
    }
  }

  lemma {:induction false} DebtWith(q: seq<Due>, i: nat, d: Due, start: nat, end: nat)
    requires i <= |q|
    ensures Debt(With(q, i, d), start, end) == Debt(q, start, end) + Overdue(d, start, end)
  {
    if i == 0 {
      assert With(q, i, d)[1..] == q;
    } else {
      DebtWith(q[1..], i - 1, d, start, end);
      assert With(q, i, d)[1..] == With(q[1..], i - 1, d);
    }
  }

  /** The tick and every next deadline of a periodic timer stay clear of the 32-bit wrap. */
  predicate NoWrap(t: Timers, start: nat, end: nat) {
    && start <= end < CLOCK
    && forall i :: 0 <= i < |t.sleepers| && Periodic(t.sleepers[i]) ==> 0 < t.sleepers[i].interval && end + t.sleepers[i].interval < CLOCK
  }

  /** The tick goes across the 32-bit wrap, and no interval of a periodic timer is longer than the time the tick leaves out. */
  predicate Straddles(t: Timers, start: nat, end: nat) {
    && end < start < CLOCK
    && (forall i :: 0 <= i < |t.queue| ==> t.queue[i].resume < CLOCK)
    && forall i :: 0 <= i < |t.sleepers| && Periodic(t.sleepers[i]) ==> 0 < t.sleepers[i].interval <= start - end
  }

  predicate AllOneShot(t: Timers) {
    forall i :: 0 <= i < |t.sleepers| ==> !Periodic(t.sleepers[i])
  }

  /** The tick is one whose loop is known to end. */
  predicate Ticks(t: Timers, start: nat, end: nat) {
    && Shaped(t)
    && (|t.queue| > 0 ==> t.cursor < |t.queue|)
    && (AllOneShot(t) || NoWrap(t, start, end) || Straddles(t, start, end))
  }

  function Measure(t: Timers, start: nat, end: nat): nat {
    if AllOneShot(t) then |t.queue| else Debt(t.queue, start, end)
  }

  /** What a firing does to the queue. */
  function FiredQueue(t: Timers): seq<Due>
    requires Shaped(t) && t.cursor < |t.queue|
  {
    var d, rest := t.queue[t.cursor], Without(t.queue, t.cursor);
    var s := t.sleepers[d.slot];
    var next := Wrap(d.resume + s.interval, CLOCK);
    if Periodic(s) then With(rest, LowerBound(Times(rest), next), Due(next, d.slot)) else rest
  }

  lemma FireQueue(t: Timers)
    requires Shaped(t) && t.cursor < |t.queue|
    ensures Fire(t).queue == FiredQueue(t)
  {
  }

  lemma FireSleepers(t: Timers)
    requires Shaped(t) && t.cursor < |t.queue|
    ensures var slot := t.queue[t.cursor].slot; var s := t.sleepers[slot];
            Fire(t).sleepers == if Periodic(s) then t.sleepers else t.sleepers[slot := s.(key := HASH_EMPTY)]
  {
  }

  lemma FiredNames(t: Timers, q: seq<Due>)
    requires Shaped(t) && t.cursor < |t.queue| && q == FiredQueue(t)
    ensures forall i :: 0 <= i < |q| ==> q[i].slot < |t.sleepers|
  {
  }

  lemma FireShape(t: Timers)
    requires Shaped(t) && t.cursor < |t.queue|
    ensures Shaped(Fire(t)) && (|Fire(t).queue| > 0 ==> Fire(t).cursor < |Fire(t).queue|)
    ensures |Fire(t).sleepers| == |t.sleepers|
    ensures forall i :: 0 <= i < |t.sleepers| ==>
              Fire(t).sleepers[i].kind == t.sleepers[i].kind && Fire(t).sleepers[i].interval == t.sleepers[i].interval
  {
    FireQueue(t);
    FireSleepers(t);
    FiredNames(t, Fire(t).queue);
  }

  lemma SmallTime(x: nat)
    requires x < CLOCK
    ensures Wrap(x, CLOCK) == x
  {
  }

  /** Removing an overdue entry, or putting it back less overdue, lessens the overdue time. */
  lemma LaterDebt(q: seq<Due>, c: nat, p: nat, d: Due, start: nat, end: nat)
    requires c < |q| && p < |q| && Overdue(d, start, end) < Overdue(q[c], start, end)
    ensures Debt(Without(q, c), start, end) < Debt(q, start, end)
    ensures Debt(With(Without(q, c), p, d), start, end) < Debt(q, start, end)
  {
    DebtWithout(q, c, start, end);
    DebtWith(Without(q, c), p, d, start, end);
  }

  /** A due entry is less overdue, or not at all, one interval later. */
  lemma LaterIsLess(resume: nat, interval: nat, slot: nat, start: nat, end: nat)
    requires IsDue(resume, start, end) && interval > 0
    requires if start <= end then end + interval < CLOCK else start < CLOCK && resume < CLOCK && interval <= start - end
    ensures Overdue(Due(Wrap(resume + interval, CLOCK), slot), start, end) < Overdue(Due(resume, slot), start, end)
  {
    if resume + interval < CLOCK {
      SmallTime(resume + interval);
    } else {
      SmallTime(resume + interval - CLOCK);
      assert Wrap(resume + interval, CLOCK) == Wrap(resume + interval - CLOCK, CLOCK);
    }
  }

  lemma DebtFalls(t: Timers, start: nat, end: nat)
    requires Shaped(t) && t.cursor < |t.queue| && IsDue(t.queue[t.cursor].resume, start, end)
    requires NoWrap(t, start, end) || Straddles(t, start, end)
    ensures Debt(FiredQueue(t), start, end) < Debt(t.queue, start, end)
  {
    var d, rest := t.queue[t.cursor], Without(t.queue, t.cursor);
    var s := t.sleepers[d.slot];
    if Periodic(s) {
      var next := Wrap(d.resume + s.interval, CLOCK);
      LaterIsLess(d.resume, s.interval, d.slot, start, end);
      var p := LowerBound(Times(rest), next);
      assert FiredQueue(t) == With(rest, p, Due(next, d.slot));
      LaterDebt(t.queue, t.cursor, p, Due(next, d.slot), start, end);
    } else {
      assert FiredQueue(t) == rest;
      DebtWithout(t.queue, t.cursor, start, end);
    }
  }

  lemma FiredTimes(t: Timers, q: seq<Due>)
    requires Shaped(t) && t.cursor < |t.queue| && q == FiredQueue(t)
    requires forall i :: 0 <= i < |t.queue| ==> t.queue[i].resume < CLOCK
    ensures forall i :: 0 <= i < |q| ==> q[i].resume < CLOCK
  {
  }

  lemma FireStraddles(t: Timers, start: nat, end: nat)
    requires Shaped(t) && t.cursor < |t.queue| && Straddles(t, start, end)
    ensures Straddles(Fire(t), start, end)
  {
    FireShape(t);
    FireQueue(t);
    FiredTimes(t, Fire(t).queue);
  }

  /** Each firing strictly lessens the overdue time, or the queue when there are only one-shot timers. */
  lemma FireDecreases(t: Timers, start: nat, end: nat)
    requires Ticks(t, start, end) && t.cursor < |t.queue| && IsDue(t.queue[t.cursor].resume, start, end)
    ensures Ticks(Fire(t), start, end) && Measure(Fire(t), start, end) < Measure(t, start, end)
  {
    FireShape(t);
    FireQueue(t);
    if !AllOneShot(t) {
      DebtFalls(t, start, end);
      if Straddles(t, start, end) {
        FireStraddles(t, start, end);
      }
    }
  }

  /** In a tick that does not go across the wrap, the next entry of a periodic timer is taken for due ahead of its time if
      and only if its time lies behind the wrap and comes, counted from there, to no more than the end of the tick. */
  lemma DueAheadOfTimeIff(resume: nat, interval: nat, start: nat, end: nat)
    requires start <= end < CLOCK && resume <= end && interval < CLOCK
    ensures resume + interval > end && IsDue(Wrap(resume + interval, CLOCK), start, end)
            <==> CLOCK <= resume + interval <= CLOCK + end
  {
    if resume + interval < CLOCK {
      SmallTime(resume + interval);
    } else {
      SmallTime(resume + interval - CLOCK);
      assert Wrap(resume + interval, CLOCK) == Wrap(resume + interval - CLOCK, CLOCK);
    }
  }

  /** A timer every 256, due 32 before the wrap, in a tick that ends 16 before it: it is queued for 224 after the wrap, and
      that is taken for due at once. */
  lemma FiresAheadOfTime(s: Sleeper)
    requires Periodic(s) && s.interval == 0x100
    ensures var t := Timers([s], [Due(CLOCK - 32, 0)], 0);
            Fire(t).queue == [Due(224, 0)] && IsDue(224, CLOCK - 64, CLOCK - 16)
  {
    var t := Timers([s], [Due(CLOCK - 32, 0)], 0);
    SmallTime(224);
    assert Wrap(CLOCK - 32 + 0x100, CLOCK) == Wrap(224, CLOCK);
    assert Without(t.queue, 0) == [];
    FireQueue(t);
  }

  /** A timer that went off: its slot and the resume time it was queued for. */
  datatype Tick = Tick(after: Timers, fired: seq<Due>)

  /** os_run_timer with a queue that is not empty. */
  function RunTimer(t: Timers, start: nat, end: nat): Tick
    requires Ticks(t, start, end)
    decreases Measure(t, start, end)
  {
    if |t.queue| == 0 || !IsDue(t.queue[t.cursor].resume, start, end) then Tick(t, [])
    else
      FireDecreases(t, start, end);
      var rest := RunTimer(Fire(t), start, end);
      Tick(rest.after, [t.queue[t.cursor]] + rest.fired)
  }
}
