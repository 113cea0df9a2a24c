/** Ticks: what fires, when, and the deadlines of periodic timers (src/os/kernel/timer.c). */
module TimerDeadlines {
  import opened Algo
  import opened Timer

  /** A tick whose loop ends leaves the cursor inside a queue that is not empty, fires nothing before its resume
      time, and stops at an entry that is not due. */
  lemma {:induction false} TickIsSound(t: Timers, start: nat, end: nat)
    requires Ticks(t, start, end)
    ensures var k := RunTimer(t, start, end);
            && Ticks(k.after, start, end)
            && (forall i :: 0 <= i < |k.fired| ==> IsDue(k.fired[i].resume, start, end))
            && (start <= end ==> forall i :: 0 <= i < |k.fired| ==> k.fired[i].resume <= end)
            && (|k.after.queue| > 0 ==> !IsDue(k.after.queue[k.after.cursor].resume, start, end))
    decreases Measure(t, start, end)
  {
    if |t.queue| > 0 && IsDue(t.queue[t.cursor].resume, start, end) {
      FireDecreases(t, start, end);
      TickIsSound(Fire(t), start, end);
    }
  }

  // ------------------------------------------------ the entries of a slot

  /** Resume times of a slot's entries, in order. */
  function SlotTimes(q: seq<Due>, slot: nat): seq<nat> {
    if q == [] then []
    else SlotTimes(q[..|q| - 1], slot) + if q[|q| - 1].slot == slot then [q[|q| - 1].resume] else []
  }

  predicate Only(times: seq<nat>, r: nat) {
    |times| == 1 && times[0] == r
  }

  lemma {:induction false} SlotTimesConcat(a: seq<Due>, b: seq<Due>, slot: nat)
    ensures SlotTimes(a + b, slot) == SlotTimes(a, slot) + SlotTimes(b, slot)
  {
    if b == [] {
      assert a + b == a;
    } else {
      var front, last := b[..|b| - 1], b[|b| - 1];
      SlotTimesConcat(a, front, slot);
      assert (a + b)[..|a + b| - 1] == a + front;
    }
  }

  lemma SlotTimesOne(d: Due, slot: nat)
    ensures SlotTimes([d], slot) == if d.slot == slot then [d.resume] else []
  {
  }

  /** The entry at position i splits its slot's times. */
  lemma SlotTimesAt(q: seq<Due>, i: nat, slot: nat)
    requires i < |q|
    ensures SlotTimes(q, slot) ==
              SlotTimes(q[..i], slot) + (if q[i].slot == slot then [q[i].resume] else []) + SlotTimes(q[i + 1..], slot)
    ensures SlotTimes(Without(q, i), slot) == SlotTimes(q[..i], slot) + SlotTimes(q[i + 1..], slot)
  {
    SlotTimesConcat(q[..i], q[i + 1..], slot);
    SlotTimesConcat(q[..i] + [q[i]], q[i + 1..], slot);
    SlotTimesConcat(q[..i], [q[i]], slot);
    SlotTimesOne(q[i], slot);
    assert q == q[..i] + [q[i]] + q[i + 1..];
  }

  lemma SlotTimesWith(q: seq<Due>, i: nat, d: Due, slot: nat)
    requires i <= |q|
    ensures d.slot != slot ==> SlotTimes(With(q, i, d), slot) == SlotTimes(q, slot)
    ensures d.slot == slot && SlotTimes(q, slot) == [] ==> Only(SlotTimes(With(q, i, d), slot), d.resume)
  {
    SlotTimesConcat(q[..i] + [d], q[i..], slot);
    SlotTimesConcat(q[..i], [d], slot);
    SlotTimesConcat(q[..i], q[i..], slot);
    SlotTimesOne(d, slot);
    assert q == q[..i] + q[i..];
  }

  /** Removing a slot's only entry leaves it none; removing another slot's entry leaves it that one. */
  lemma SlotTimesWithout(q: seq<Due>, i: nat, slot: nat, r: nat)
    requires i < |q| && Only(SlotTimes(q, slot), r)
    ensures q[i].slot == slot ==> q[i].resume == r && SlotTimes(Without(q, i), slot) == []
    ensures q[i].slot != slot ==> Only(SlotTimes(Without(q, i), slot), r)
  {
    SlotTimesAt(q, i, slot);
    var a, b := SlotTimes(q[..i], slot), SlotTimes(q[i + 1..], slot);
    if q[i].slot == slot {
      var whole := a + [q[i].resume] + b;
      assert |a| + 1 + |b| == |whole| == 1;
      assert whole[|a|] == q[i].resume;
    }
  }

  // ------------------------------------------------------------- deadlines

  /** k intervals after r, on the 32-bit clock. */
  function Nth(r: nat, interval: nat, k: nat): nat {
    if k == 0 then r else Wrap(Nth(r, interval, k - 1) + interval, CLOCK)
  }

  lemma {:induction false} NthIsProduct(r: nat, interval: nat, k: nat)
    requires r < CLOCK
    ensures Nth(r, interval, k) == (r + k * interval) % CLOCK
  {
    if k > 0 {
      NthIsProduct(r, interval, k - 1);
      var before := r + (k - 1) * interval;
      WrapIsMod(before % CLOCK + interval, CLOCK);
      ModAdd(before, interval, CLOCK);
      assert before + interval == r + k * interval;
    }
  }

  lemma {:induction false} NthSum(r: nat, interval: nat, j: nat, k: nat)
    ensures Nth(Nth(r, interval, j), interval, k) == Nth(r, interval, j + k)
  {
    if k > 0 {
      NthSum(r, interval, j, k - 1);
    }
  }

  /** The times r, r + interval, r + 2 * interval, ..., on the 32-bit clock. */
  function Series(r: nat, interval: nat, k: nat): (s: seq<nat>)
    ensures |s| == k
  {
    if k == 0 then [] else Series(r, interval, k - 1) + [Nth(r, interval, k - 1)]
  }

  lemma {:induction false} SeriesAt(r: nat, interval: nat, k: nat, j: nat)
    requires j < k
    ensures Series(r, interval, k)[j] == Nth(r, interval, j)
  {
    if j < k - 1 {
      SeriesAt(r, interval, k - 1, j);
    }
  }

  lemma {:induction false} SeriesJoin(r: nat, interval: nat, j: nat, k: nat)
    ensures Series(r, interval, j) + Series(Nth(r, interval, j), interval, k) == Series(r, interval, j + k)
  {
    if k > 0 {
      var next := Nth(r, interval, j);
      SeriesJoin(r, interval, j, k - 1);
      NthSum(r, interval, j, k - 1);
      assert Series(r, interval, j) + Series(next, interval, k)
          == Series(r, interval, j) + Series(next, interval, k - 1) + [Nth(next, interval, k - 1)];
    }
  }

  /** The slot has one entry, for r, and belongs to a periodic timer. */
  ghost predicate Beats(t: Timers, slot: nat, r: nat, interval: nat) {
    && slot < |t.sleepers| && Periodic(t.sleepers[slot]) && t.sleepers[slot].interval == interval
    && Only(SlotTimes(t.queue, slot), r)
  }

  /** The slot has fired for r, r + interval, and so on, and is queued for the time after those. */
  ghost predicate OnTime(fired: seq<Due>, after: Timers, slot: nat, r: nat, interval: nat) {
    var times := SlotTimes(fired, slot);
    times == Series(r, interval, |times|) && Beats(after, slot, Nth(r, interval, |times|), interval)
  }

  lemma OnTimeJoin(a: seq<Due>, mid: Timers, b: seq<Due>, after: Timers, slot: nat, r: nat, interval: nat)
    requires OnTime(a, mid, slot, r, interval)
    requires OnTime(b, after, slot, Nth(r, interval, |SlotTimes(a, slot)|), interval)
    ensures OnTime(a + b, after, slot, r, interval)
  {
    var j, k := |SlotTimes(a, slot)|, |SlotTimes(b, slot)|;
    SlotTimesConcat(a, b, slot);
    SeriesJoin(r, interval, j, k);
    NthSum(r, interval, j, k);
  }

  /** The entry at c is taken out and, for a periodic timer, put back at p one interval later. */
  ghost predicate Moved(q: seq<Due>, c: nat, p: nat, s: Sleeper, after: seq<Due>)
    requires c < |q| && p < |q|
  {
    after == if Periodic(s) then With(Without(q, c), p, Due(Wrap(q[c].resume + s.interval, CLOCK), q[c].slot)) else Without(q, c)
  }

  lemma FiredForm(t: Timers) returns (p: nat, after: seq<Due>)
    requires Shaped(t) && t.cursor < |t.queue|
    ensures after == Fire(t).queue
    ensures p < |t.queue| && Moved(t.queue, t.cursor, p, t.sleepers[t.queue[t.cursor].slot], after)
  {
    var d, rest := t.queue[t.cursor], Without(t.queue, t.cursor);
    var s := t.sleepers[d.slot];
    p := 0;
    after := FiredQueue(t);
    FireQueue(t);
    if Periodic(s) {
      p := LowerBound(Times(rest), Wrap(d.resume + s.interval, CLOCK));
    }
  }

  /** The slot's entry moves on by its interval when it is the one that fires, and stays otherwise. */
  lemma SlotMoves(q: seq<Due>, c: nat, p: nat, s: Sleeper, after: seq<Due>, slot: nat, r: nat)
    requires c < |q| && p < |q| && Moved(q, c, p, s, after) && Only(SlotTimes(q, slot), r)
    requires q[c].slot == slot ==> Periodic(s)
    ensures q[c].slot == slot ==> q[c].resume == r && Only(SlotTimes(after, slot), Wrap(r + s.interval, CLOCK))
    ensures q[c].slot != slot ==> Only(SlotTimes(after, slot), r)
  {
    var rest, next := Without(q, c), Due(Wrap(q[c].resume + s.interval, CLOCK), q[c].slot);
    SlotTimesWithout(q, c, slot, r);
    if Periodic(s) {
      SlotTimesWith(rest, p, next, slot);
      assert after == With(rest, p, next);
      if q[c].slot == slot {
        assert next.resume == Wrap(r + s.interval, CLOCK);
        assert Only(SlotTimes(after, slot), next.resume);
      }
    } else {
      assert after == rest;
    }
  }

  lemma FireOnTime(t: Timers, slot: nat, r: nat, interval: nat)
    requires Shaped(t) && t.cursor < |t.queue| && Beats(t, slot, r, interval)
    ensures OnTime([t.queue[t.cursor]], Fire(t), slot, r, interval)
  {
    var d := t.queue[t.cursor];
    var p, after := FiredForm(t);
    SlotMoves(t.queue, t.cursor, p, t.sleepers[d.slot], after, slot, r);
    FireShape(t);
    SlotTimesOne(d, slot);
    var times := SlotTimes([d], slot);
    assert times == if d.slot == slot then [r] else [];
    assert Only(SlotTimes(Fire(t).queue, slot), Nth(r, interval, |times|));
    assert Nth(r, interval, 0) == r && Nth(r, interval, 1) == Wrap(r + interval, CLOCK);
    assert Series(r, interval, 0) == [] && Series(r, interval, 1) == [r];
  }

  /** In one tick a periodic timer fires some number of times in a row, each time one interval after the last. */
  lemma {:induction false} TickOnTime(t: Timers, start: nat, end: nat, slot: nat, r: nat, interval: nat)
    requires Ticks(t, start, end) && Beats(t, slot, r, interval)
    ensures OnTime(RunTimer(t, start, end).fired, RunTimer(t, start, end).after, slot, r, interval)
    decreases Measure(t, start, end)
  {
    if |t.queue| > 0 && IsDue(t.queue[t.cursor].resume, start, end) {
      var first, u := [t.queue[t.cursor]], Fire(t);
      FireDecreases(t, start, end);
      FireOnTime(t, slot, r, interval);
      TickOnTime(u, start, end, slot, Nth(r, interval, |SlotTimes(first, slot)|), interval);
      OnTimeJoin(first, u, RunTimer(u, start, end).fired, RunTimer(u, start, end).after, slot, r, interval);
    }
  }

  // ------------------------------------------------ undisturbed over a run

  /** Ticks, and arming and cancelling of other timers. */
  datatype Op = TickOp(start: nat, end: nat) | ArmOp(slot: nat, now: nat, interval: nat, thread: nat, kind: Kind) | CancelOp(id: nat)

  ghost predicate Enabled(t: Timers, slot: nat, op: Op) {
    match op
    case TickOp(start, end) => Ticks(t, start, end)
    case ArmOp(other, _, _, _, _) => other != slot && other < |t.sleepers| && LookupEnds(t, other) && |t.queue| < TIMER_INVALID_ID
    case CancelOp(id) => id < |t.queue| && t.queue[id].slot < |t.sleepers| && t.queue[id].slot != slot
  }

  /** The state after an operation and what it fired. */
  ghost function Apply(t: Timers, slot: nat, op: Op): Tick
    requires Enabled(t, slot, op)
  {
    match op
    case TickOp(start, end) => RunTimer(t, start, end)
    case ArmOp(other, now, interval, thread, kind) => Tick(SetTimedEvent(t, other, now, interval, thread, kind), [])
    case CancelOp(id) => Tick(CancelSleeper(t, id), [])
  }

  lemma ArmOther(t: Timers, slot: nat, other: nat, now: nat, interval: nat, thread: nat, kind: Kind, r: nat)
    requires other != slot && other < |t.sleepers| && LookupEnds(t, other) && |t.queue| < TIMER_INVALID_ID
    requires Only(SlotTimes(t.queue, slot), r)
    ensures Only(SlotTimes(SetTimedEvent(t, other, now, interval, thread, kind).queue, slot), r)
  {
    var i, resume := FindQueue(t, other), Wrap(now + interval, CLOCK);
    var u := t.(sleepers := t.sleepers[other := Sleeper(SleeperKey(kind, thread), now, interval, thread, kind)]);
    if i == TIMER_INVALID_ID {
      SlotTimesWith(t.queue, LowerBound(Times(t.queue), resume), Due(resume, other), slot);
      assert SetTimedEvent(t, other, now, interval, thread, kind) == Enqueue(u, other, resume);
    } else if t.queue[i].resume != resume {
      var rest := Without(t.queue, i);
      SlotTimesWithout(t.queue, i, slot, r);
      SlotTimesWith(rest, LowerBound(Times(rest), resume), Due(resume, other), slot);
      assert SetTimedEvent(t, other, now, interval, thread, kind) == Enqueue(Dequeue(u, i), other, resume);
    }
  }

  lemma ApplyOnTime(t: Timers, slot: nat, op: Op, r: nat, interval: nat)
    requires Enabled(t, slot, op) && Beats(t, slot, r, interval)
    ensures OnTime(Apply(t, slot, op).fired, Apply(t, slot, op).after, slot, r, interval)
  {
    match op {
      case TickOp(start, end) => TickOnTime(t, start, end, slot, r, interval);
      case ArmOp(other, now, length, thread, kind) =>
        ArmOther(t, slot, other, now, length, thread, kind, r);
        assert SlotTimes([], slot) == Series(r, interval, 0);
      case CancelOp(id) =>
        SlotTimesWithout(t.queue, id, slot, r);
        assert SlotTimes([], slot) == Series(r, interval, 0);
    }
  }

  ghost predicate ValidRun(t: Timers, slot: nat, ops: seq<Op>)
    decreases |ops|
  {
    ops == [] || (Enabled(t, slot, ops[0]) && ValidRun(Apply(t, slot, ops[0]).after, slot, ops[1..]))
  }

  /** Everything fired during a run, and the state it leaves. */
  ghost function Run(t: Timers, slot: nat, ops: seq<Op>): Tick
    requires ValidRun(t, slot, ops)
    decreases |ops|
  {
    if ops == [] then Tick(t, [])
    else
      var first := Apply(t, slot, ops[0]);
      var rest := Run(first.after, slot, ops[1..]);
      Tick(rest.after, first.fired + rest.fired)
  }

  lemma {:induction false} RunOnTime(t: Timers, slot: nat, ops: seq<Op>, r: nat, interval: nat)
    requires ValidRun(t, slot, ops) && Beats(t, slot, r, interval)
    ensures OnTime(Run(t, slot, ops).fired, Run(t, slot, ops).after, slot, r, interval)
    decreases |ops|
  {
    if ops != [] {
      var first := Apply(t, slot, ops[0]);
      ApplyOnTime(t, slot, ops[0], r, interval);
      RunOnTime(first.after, slot, ops[1..], Nth(r, interval, |SlotTimes(first.fired, slot)|), interval);
      var rest := Run(first.after, slot, ops[1..]);
      OnTimeJoin(first.fired, first.after, rest.fired, rest.after, slot, r, interval);
    }
  }

  /** Arming a slot that has no entry queues it for now + interval. */
  lemma ArmStarts(t: Timers, slot: nat, now: nat, interval: nat, thread: nat, kind: Kind)
    requires slot < |t.sleepers| && LookupEnds(t, slot) && |t.queue| < TIMER_INVALID_ID && SlotTimes(t.queue, slot) == []
    ensures Only(SlotTimes(SetTimedEvent(t, slot, now, interval, thread, kind).queue, slot), Wrap(now + interval, CLOCK))
  {
    var i, resume := FindQueue(t, slot), Wrap(now + interval, CLOCK);
    if i != TIMER_INVALID_ID {
      SlotTimesAt(t.queue, i, slot);
    }
    var u := t.(sleepers := t.sleepers[slot := Sleeper(SleeperKey(kind, thread), now, interval, thread, kind)]);
    assert SetTimedEvent(t, slot, now, interval, thread, kind) == Enqueue(u, slot, resume);
    SlotTimesWith(t.queue, LowerBound(Times(t.queue), resume), Due(resume, slot), slot);
  }

  /** In every run of ticks in which other timers come and go but this one is left alone, a periodic timer armed at `now`
      fires for the k-th time for exactly now + k * interval on the 32-bit clock, for every k. */
  lemma KthDeadline(t: Timers, slot: nat, now: nat, interval: nat, thread: nat, ops: seq<Op>, k: nat)
    requires slot < |t.sleepers| && LookupEnds(t, slot) && |t.queue| < TIMER_INVALID_ID && SlotTimes(t.queue, slot) == []
    requires now < CLOCK && ValidRun(SetTimedEvent(t, slot, now, interval, thread, Interval), slot, ops)
    requires 1 <= k <= |SlotTimes(Run(SetTimedEvent(t, slot, now, interval, thread, Interval), slot, ops).fired, slot)|
    ensures SlotTimes(Run(SetTimedEvent(t, slot, now, interval, thread, Interval), slot, ops).fired, slot)[k - 1]
            == (now + k * interval) % CLOCK
  {
    ArmStarts(t, slot, now, interval, thread, Interval);
    ArmSets(t, slot, now, interval, thread, Interval);
    QueuedDeadline(SetTimedEvent(t, slot, now, interval, thread, Interval), slot, now, interval, ops, k);
  }

  lemma QueuedDeadline(u: Timers, slot: nat, now: nat, interval: nat, ops: seq<Op>, k: nat)
    requires now < CLOCK && ValidRun(u, slot, ops) && Beats(u, slot, Wrap(now + interval, CLOCK), interval)
    requires 1 <= k <= |SlotTimes(Run(u, slot, ops).fired, slot)|
    ensures SlotTimes(Run(u, slot, ops).fired, slot)[k - 1] == (now + k * interval) % CLOCK
  {
    var first := Wrap(now + interval, CLOCK);
    RunOnTime(u, slot, ops, first, interval);
    SeriesAt(first, interval, |SlotTimes(Run(u, slot, ops).fired, slot)|, k - 1);
    assert Nth(now, interval, 1) == first;
    NthSum(now, interval, 1, k - 1);
    NthIsProduct(now, interval, k);
  }

  lemma ArmSets(t: Timers, slot: nat, now: nat, interval: nat, thread: nat, kind: Kind)
    requires slot < |t.sleepers| && LookupEnds(t, slot) && |t.queue| < TIMER_INVALID_ID
    ensures SetTimedEvent(t, slot, now, interval, thread, kind).sleepers
            == t.sleepers[slot := Sleeper(SleeperKey(kind, thread), now, interval, thread, kind)]
  {
  }

  // ---------------------------------------------- looking up a periodic timer

  /** Periodic rescheduling leaves sleep_from as it was, so the lookup starts at the first deadline. It finds the slot's
      only entry exactly when every entry before it is queued for less than that first deadline. */
  lemma LookupFindsIff(t: Timers, slot: nat, i: nat)
    requires Sorted(Times(t.queue)) && slot < |t.sleepers| && i < |t.queue| && t.queue[i].slot == slot
    requires forall j :: 0 <= j < |t.queue| && j != i ==> t.queue[j].slot != slot
    requires Resume(t.sleepers[slot]) <= t.queue[i].resume
    ensures var offs := LookupStart(t, slot);
            offs < |t.queue| &&
            (t.queue[offs].slot == slot <==> forall j :: 0 <= j < i ==> t.queue[j].resume < Resume(t.sleepers[slot]))
  {
  }

  /** A periodic timer armed at 0 for every 10 and a sleep until 15: once the periodic one has fired, its next entry, for
      20, is behind the one for 15 and the lookup by the first deadline does not find it. */
  lemma RescheduledIsNotFound(a: Sleeper, b: Sleeper)
    requires Used(a) && Periodic(a) && a.sleepFrom == 0 && a.interval == 10
    ensures var u := Fire(Timers([a, b], [Due(10, 0), Due(15, 1)], 0));
            && u.queue == [Due(15, 1), Due(20, 0)]
            && |u.sleepers| == 2 && LookupEnds(u, 0) && FindQueue(u, 0) == TIMER_INVALID_ID
  {
    var t := Timers([a, b], [Due(10, 0), Due(15, 1)], 0);
    assert Shaped(t);
    var rest := Without(t.queue, 0);
    assert rest == [Due(15, 1)];
    SmallTime(20);
    SmallTime(10);
    assert Times(rest) == [15] && LowerBound([15], 20) == 1 + LowerBound([15][1..], 20) == 1;
    FireQueue(t);
    FireSleepers(t);
    var u := Fire(t);
    assert u.queue == [Due(15, 1), Due(20, 0)];
    assert Times(u.queue)[0] == 15;
    assert LookupStart(u, 0) == 0;
  }
}
