/** What every run of arming, cancelling and ticking keeps. */
module TimerRuns {
  import opened Algo
  import opened Timer

  // --------------------------------------- the queue agrees with the table

  ghost predicate Strict(q: seq<Due>) {
    forall i, j :: 0 <= i < j < |q| ==> q[i].resume < q[j].resume
  }

  /** Entry i names a used slot and carries its resume time. */
  ghost predicate Named(sleepers: seq<Sleeper>, d: Due) {
    d.slot < |sleepers| && Used(sleepers[d.slot]) && Resume(sleepers[d.slot]) == d.resume
  }

  ghost predicate Listed(q: seq<Due>, slot: nat) {
    exists i :: 0 <= i < |q| && q[i].slot == slot
  }

  /** The queue is sorted and its entries name exactly the used slots, once each, with their resume times. */
  ghost predicate Agrees(sleepers: seq<Sleeper>, q: seq<Due>) {
    && Strict(q)
    && (forall i :: 0 <= i < |q| ==> Named(sleepers, q[i]))
    && (forall s: nat :: s < |sleepers| && Used(sleepers[s]) ==> Listed(q, s))
  }

  /** Two entries never name the same slot. */
  lemma SlotsDiffer(sleepers: seq<Sleeper>, q: seq<Due>, i: nat, j: nat)
    requires Agrees(sleepers, q) && i < j < |q|
    ensures q[i].slot != q[j].slot
  {
  }

  ghost function Slots(q: seq<Due>): (s: seq<nat>)
    ensures |s| == |q| && forall i :: 0 <= i < |q| ==> s[i] == q[i].slot
  {
    seq(|q|, i requires 0 <= i < |q| => q[i].slot)
  }

  /** The queue never outgrows the table, and leaves room for one more entry while a slot is free. */
  lemma QueueFits(sleepers: seq<Sleeper>, q: seq<Due>)
    requires Agrees(sleepers, q)
    ensures |q| <= |sleepers|
    ensures (exists s: nat :: s < |sleepers| && !Used(sleepers[s])) ==> |q| < |sleepers|
  {
    forall i: nat, j: nat | i < j < |q| ensures Slots(q)[i] != Slots(q)[j] {
      SlotsDiffer(sleepers, q, i, j);
    }
    forall i | 0 <= i < |q| ensures Slots(q)[i] < |sleepers| {
      assert Named(sleepers, q[i]);
    }
    ListBound(Slots(q), |sleepers|);
    if s: nat :| s < |sleepers| && !Used(sleepers[s]) {
      forall i | 0 <= i < |q| ensures Slots(q)[i] != s {
        assert Named(sleepers, q[i]);
      }
      ListBound(Slots(q) + [s], |sleepers|);
    }
  }

  /** In an agreeing queue the lookup of a used slot ends at its one entry. */
  lemma LookupFinds(t: Timers, slot: nat) returns (i: nat)
    requires Agrees(t.sleepers, t.queue) && slot < |t.sleepers| && Used(t.sleepers[slot])
    ensures i < |t.queue| && t.queue[i].slot == slot && t.queue[i].resume == Resume(t.sleepers[slot])
    ensures LookupStart(t, slot) == i && LookupEnds(t, slot) && (i != TIMER_INVALID_ID ==> FindQueue(t, slot) == i)
    ensures forall j :: 0 <= j < |t.queue| && t.queue[j].slot == slot ==> j == i
  {
    assert Listed(t.queue, slot);
    i :| 0 <= i < |t.queue| && t.queue[i].slot == slot;
    assert Named(t.sleepers, t.queue[i]);
    var times := Times(t.queue);
    assert IsLowerBound(times, Resume(t.sleepers[slot]), i);
    LowerBoundIsBound(times, Resume(t.sleepers[slot]));
    forall j: nat | j < |t.queue| && j != i ensures t.queue[j].slot != slot {
      if j < i { SlotsDiffer(t.sleepers, t.queue, j, i); } else { SlotsDiffer(t.sleepers, t.queue, i, j); }
    }
  }

  lemma RemoveNamed(sleepers: seq<Sleeper>, q: seq<Due>, i: nat, k: nat)
    requires Agrees(sleepers, q) && i < |q| && k < |q| && k != i && q[i].slot < |sleepers|
    ensures Named(sleepers[q[i].slot := sleepers[q[i].slot].(key := HASH_EMPTY)], q[k])
  {
  }

  lemma RemoveListed(q: seq<Due>, i: nat, s: nat)
    requires i < |q| && s != q[i].slot && Listed(q, s)
    ensures Listed(Without(q, i), s)
  {
    var k :| 0 <= k < |q| && q[k].slot == s;
    assert Without(q, i)[if k < i then k else k - 1] == q[k];
  }

  lemma RemoveAgrees(sleepers: seq<Sleeper>, q: seq<Due>, i: nat)
    requires Agrees(sleepers, q) && i < |q| && q[i].slot < |sleepers|
    ensures var slot := q[i].slot;
            Agrees(sleepers[slot := sleepers[slot].(key := HASH_EMPTY)], Without(q, i))
  {
    var slot := q[i].slot;
    var freed, r := sleepers[slot := sleepers[slot].(key := HASH_EMPTY)], Without(q, i);
    forall j | 0 <= j < |r| ensures Named(freed, r[j]) {
      RemoveNamed(sleepers, q, i, if j < i then j else j + 1);
    }
    forall s: nat | s < |freed| && Used(freed[s]) ensures Listed(r, s) {
      RemoveListed(q, i, s);
    }
  }

  lemma StrictWith(q: seq<Due>, p: nat, d: Due)
    requires Strict(q) && IsLowerBound(Times(q), d.resume, p) && forall i :: 0 <= i < |q| ==> q[i].resume != d.resume
    ensures Strict(With(q, p, d))
  {
  }

  lemma ListedWith(q: seq<Due>, p: nat, d: Due, s: nat)
    requires p <= |q|
    ensures Listed(With(q, p, d), s) <==> s == d.slot || Listed(q, s)
  {
    var r := With(q, p, d);
    assert r[p].slot == d.slot;
    if Listed(q, s) {
      var k :| 0 <= k < |q| && q[k].slot == s;
      assert r[if k < p then k else k + 1] == q[k];
    }
  }

  lemma NamedWith(sleepers: seq<Sleeper>, q: seq<Due>, p: nat, slot: nat, x: Sleeper)
    requires slot < |sleepers| && !Used(sleepers[slot]) && Used(x) && p <= |q|
    requires forall i :: 0 <= i < |q| ==> Named(sleepers, q[i])
    ensures var r := With(q, p, Due(Resume(x), slot)); forall i :: 0 <= i < |r| ==> Named(sleepers[slot := x], r[i])
  {
  }

  lemma InsertAgrees(sleepers: seq<Sleeper>, q: seq<Due>, slot: nat, x: Sleeper)
    requires Agrees(sleepers, q) && slot < |sleepers| && !Used(sleepers[slot]) && Used(x)
    requires forall i :: 0 <= i < |q| ==> q[i].resume != Resume(x)
    ensures Agrees(sleepers[slot := x], With(q, LowerBound(Times(q), Resume(x)), Due(Resume(x), slot)))
  {
    var p, d := LowerBound(Times(q), Resume(x)), Due(Resume(x), slot);
    LowerBoundIsBound(Times(q), Resume(x));
    StrictWith(q, p, d);
    NamedWith(sleepers, q, p, slot, x);
    forall s: nat | s < |sleepers| && Used(sleepers[slot := x][s]) ensures Listed(With(q, p, d), s) {
      ListedWith(q, p, d, s);
    }
  }

  // ------------------------------------------------------- one-shot runs

  datatype Op =
    | Arm(now: nat, interval: nat, thread: nat, kind: Kind)
    | CancelId(id: nat)
    | CancelEvent(thread: nat, kind: Kind)
    | TickOp(start: nat, end: nat)

  ghost predicate OneShotInv(t: Timers) {
    && Agrees(t.sleepers, t.queue)
    && AllOneShot(t)
    && 0 < |t.sleepers| < TIMER_INVALID_ID
  }

  /** The slot search ends, the new resume time differs from all others in the queue, only one-shot timers
      are armed, and a tick finds its cursor inside the queue. */
  ghost predicate Enabled(t: Timers, hash: Hash, op: Op)
    requires OneShotInv(t)
  {
    match op
    case Arm(now, interval, thread, kind) =>
      && kind != Interval && thread <= 0xFF
      && Searchable(Column(t.sleepers, Key), SleeperKey(kind, thread))
      && forall i :: 0 <= i < |t.queue| && t.queue[i].slot != FindSlot(t, hash, thread, kind) ==>
           t.queue[i].resume != Wrap(now + interval, CLOCK)
    case CancelId(id) => true
    case CancelEvent(thread, kind) => thread <= 0xFF && Searchable(Column(t.sleepers, Key), SleeperKey(kind, thread))
    case TickOp(start, end) => |t.queue| > 0 ==> t.cursor < |t.queue|
  }

  /** os_cancel_timed_event for a slot. */
  function CancelSlot(t: Timers, slot: nat): Timers
    requires slot < |t.sleepers| && LookupEnds(t, slot) && Shaped(t) && |t.queue| < TIMER_INVALID_ID
  {
    var id := FindQueue(t, slot);
    if id == TIMER_INVALID_ID then t else CancelSleeper(t, id)
  }

  ghost function Apply(t: Timers, hash: Hash, op: Op): Timers
    requires OneShotInv(t) && Enabled(t, hash, op)
  {
    LookupsEnd(t);
    match op
    case Arm(now, interval, thread, kind) => SetTimedEvent(t, FindSlot(t, hash, thread, kind), now, interval, thread, kind)
    case CancelId(id) => if id < |t.queue| then CancelSleeper(t, id) else t
    case CancelEvent(thread, kind) => CancelSlot(t, FindSlot(t, hash, thread, kind))
    case TickOp(start, end) => RunTimer(t, start, end).after
  }

  lemma LookupsEnd(t: Timers)
    requires OneShotInv(t)
    ensures Shaped(t) && |t.queue| < TIMER_INVALID_ID
    ensures forall s: nat :: s < |t.sleepers| ==> LookupEnds(t, s)
  {
    QueueFits(t.sleepers, t.queue);
    forall i | 0 <= i < |t.queue| ensures t.queue[i].slot < |t.sleepers| {
      assert Named(t.sleepers, t.queue[i]);
    }
    forall s: nat | s < |t.sleepers| ensures LookupEnds(t, s) {
      if Used(t.sleepers[s]) {
        var i := LookupFinds(t, s);
      }
    }
  }

  /** What arming a slot does, by whether the slot was used and armed for another time. */
  lemma ArmEffect(t: Timers, slot: nat, now: nat, interval: nat, thread: nat, kind: Kind)
    requires slot < |t.sleepers| && LookupEnds(t, slot) && |t.queue| < TIMER_INVALID_ID
    ensures var u := SetTimedEvent(t, slot, now, interval, thread, kind);
            var x := Sleeper(SleeperKey(kind, thread), now, interval, thread, kind);
            var i := FindQueue(t, slot);
            && u.sleepers == t.sleepers[slot := x]
            && u.queue ==
                 if i == TIMER_INVALID_ID then With(t.queue, LowerBound(Times(t.queue), Resume(x)), Due(Resume(x), slot))
                 else if t.queue[i].resume == Resume(x) then t.queue
                 else With(Without(t.queue, i), LowerBound(Times(Without(t.queue, i)), Resume(x)), Due(Resume(x), slot))
  {
  }

  lemma ArmAgrees(t: Timers, slot: nat, now: nat, interval: nat, thread: nat, kind: Kind)
    requires OneShotInv(t) && slot < |t.sleepers| && thread <= 0xFF && LookupEnds(t, slot) && |t.queue| < TIMER_INVALID_ID
    requires forall i :: 0 <= i < |t.queue| && t.queue[i].slot != slot ==> t.queue[i].resume != Wrap(now + interval, CLOCK)
    ensures var u := SetTimedEvent(t, slot, now, interval, thread, kind);
            Agrees(u.sleepers, u.queue) && u.sleepers == t.sleepers[slot := Sleeper(SleeperKey(kind, thread), now, interval, thread, kind)]
  {
    var x := Sleeper(SleeperKey(kind, thread), now, interval, thread, kind);
    ArmEffect(t, slot, now, interval, thread, kind);
    if !Used(t.sleepers[slot]) {
      forall i | 0 <= i < |t.queue| ensures t.queue[i].slot != slot {
        assert Named(t.sleepers, t.queue[i]);
      }
      InsertAgrees(t.sleepers, t.queue, slot, x);
    } else {
      var i := LookupFinds(t, slot);
      if t.queue[i].resume == Resume(x) {
        ReplaceAgrees(t.sleepers, t.queue, i, x);
      } else {
        MoveAgrees(t.sleepers, t.queue, i, x);
      }
    }
  }

  /** Re-arming for the same time replaces the sleeper and leaves the queue alone. */
  lemma ReplaceAgrees(sleepers: seq<Sleeper>, q: seq<Due>, i: nat, x: Sleeper)
    requires Agrees(sleepers, q) && i < |q| && q[i].slot < |sleepers| && Used(x) && q[i].resume == Resume(x)
    ensures Agrees(sleepers[q[i].slot := x], q)
  {
  }

  /** Re-arming for another time moves the entry. */
  lemma MoveAgrees(sleepers: seq<Sleeper>, q: seq<Due>, i: nat, x: Sleeper)
    requires Agrees(sleepers, q) && i < |q| && q[i].slot < |sleepers| && Used(x) && q[i].resume != Resume(x)
    requires forall j :: 0 <= j < |q| && q[j].slot != q[i].slot ==> q[j].resume != Resume(x)
    ensures var rest := Without(q, i);
            Agrees(sleepers[q[i].slot := x], With(rest, LowerBound(Times(rest), Resume(x)), Due(Resume(x), q[i].slot)))
  {
    var slot, rest := q[i].slot, Without(q, i);
    var freed := sleepers[slot := sleepers[slot].(key := HASH_EMPTY)];
    RemoveAgrees(sleepers, q, i);
    forall j | 0 <= j < |rest| ensures rest[j].resume != Resume(x) {
      assert rest[j] == q[if j < i then j else j + 1];
    }
    InsertAgrees(freed, rest, slot, x);
    assert freed[slot := x] == sleepers[slot := x];
  }

  lemma CancelKeeps(t: Timers, id: nat)
    requires OneShotInv(t) && Shaped(t) && id < |t.queue|
    ensures OneShotInv(CancelSleeper(t, id))
  {
    RemoveAgrees(t.sleepers, t.queue, id);
  }

  lemma FireKeeps(t: Timers)
    requires OneShotInv(t) && Shaped(t) && t.cursor < |t.queue|
    ensures OneShotInv(Fire(t))
  {
    CancelKeeps(t, t.cursor);
  }

  /** A tick is a sequence of firings. */
  lemma {:induction false} TickKeeps(t: Timers, start: nat, end: nat)
    requires OneShotInv(t) && Ticks(t, start, end)
    ensures OneShotInv(RunTimer(t, start, end).after)
    decreases |t.queue|
  {
    if |t.queue| > 0 && IsDue(t.queue[t.cursor].resume, start, end) {
      FireKeeps(t);
      FireDecreases(t, start, end);
      TickKeeps(Fire(t), start, end);
    }
  }

  /** What os_timer_init leaves: no slot in use and, the table being static, no periodic timer in it. */
  ghost predicate IsInit(t: Timers) {
    && 0 < |t.sleepers| < TIMER_INVALID_ID && t.queue == [] && t.cursor == 0
    && forall i :: 0 <= i < |t.sleepers| ==> !Used(t.sleepers[i]) && !Periodic(t.sleepers[i])
  }

  lemma InitKeeps(t: Timers)
    requires IsInit(t)
    ensures OneShotInv(t)
  {
  }

  lemma ApplyKeeps(t: Timers, hash: Hash, op: Op)
    requires OneShotInv(t) && Enabled(t, hash, op)
    ensures OneShotInv(Apply(t, hash, op))
  {
    LookupsEnd(t);
    match op {
      case Arm(now, interval, thread, kind) =>
        ArmAgrees(t, FindSlot(t, hash, thread, kind), now, interval, thread, kind);
      case CancelId(id) =>
        if id < |t.queue| {
          CancelKeeps(t, id);
        }
      case CancelEvent(thread, kind) =>
        var slot := FindSlot(t, hash, thread, kind);
        if Used(t.sleepers[slot]) {
          var i := LookupFinds(t, slot);
          CancelKeeps(t, i);
        }
      case TickOp(start, end) => TickKeeps(t, start, end);
    }
  }

  ghost predicate ValidRun(t: Timers, hash: Hash, ops: seq<Op>)
    requires OneShotInv(t)
    decreases |ops|
  {
    ops == [] ||
    (Enabled(t, hash, ops[0]) && (ApplyKeeps(t, hash, ops[0]); ValidRun(Apply(t, hash, ops[0]), hash, ops[1..])))
  }

  ghost function Run(t: Timers, hash: Hash, ops: seq<Op>): (u: Timers)
    requires OneShotInv(t) && ValidRun(t, hash, ops)
    ensures OneShotInv(u)
    decreases |ops|
  {
    if ops == [] then t
    else
      ApplyKeeps(t, hash, ops[0]);
      Run(Apply(t, hash, ops[0]), hash, ops[1..])
  }

  /** In every run of arming, re-arming, cancelling and whole ticks of one-shot timers with distinct resume times the
      queue stays sorted, names exactly the used slots once each with resume time sleep_from + interval,
      finds every used slot at its entry, and has room for the next insertion while a slot is free. */
  lemma OneShotRuns(t: Timers, hash: Hash, ops: seq<Op>, slot: nat)
    requires OneShotInv(t) && ValidRun(t, hash, ops) && slot < |Run(t, hash, ops).sleepers|
    ensures var u := Run(t, hash, ops);
            && Agrees(u.sleepers, u.queue)
            && |u.queue| <= |u.sleepers|
            && (!Used(u.sleepers[slot]) ==> |u.queue| < |u.sleepers|)
            && (Used(u.sleepers[slot]) ==>
                  && LookupEnds(u, slot) && FindQueue(u, slot) < |u.queue|
                  && u.queue[FindQueue(u, slot)] == Due(Resume(u.sleepers[slot]), slot)
                  && forall j :: 0 <= j < |u.queue| && u.queue[j].slot == slot ==> j == FindQueue(u, slot))
  {
    var u := Run(t, hash, ops);
    QueueFits(u.sleepers, u.queue);
    if Used(u.sleepers[slot]) {
      var i := LookupFinds(u, slot);
    }
  }
}
