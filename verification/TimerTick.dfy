/** Which due timers one tick leaves behind (src/os/kernel/timer.c). */
module TimerTick {
  import opened PowerOfTwo
  import opened Algo
  import opened Timer

  /** Does a tick over n one-shot entries, the first d of them due, with the cursor at c, leave none of those d? A
      firing closes the gap under the cursor and then moves the cursor on, so the entry that slid in is passed over. */
  predicate Clears(n: nat, d: nat, c: nat)
    requires d <= n && (n > 0 ==> c < n)
    decreases n
  {
    if n == 0 || c >= d then d == 0
    else if n == 1 then true
    else Clears(n - 1, d - 1, Wrap(c + 1, n - 1))
  }

  lemma ClearsGoesOn(n: nat, d: nat, c: nat, next: nat)
    requires c < d <= n && (n > 1 ==> next == Wrap(c + 1, n - 1))
    ensures Clears(n, d, c) <==> Clears(n - 1, d - 1, next)
  {
  }

  lemma Pow2Doubles(x: nat)
    requires x > 0
    ensures IsPow2(2 * x) <==> IsPow2(x)
    ensures IsPow2(2 * x + 1) <==> false
  {
    if IsPow2(x) {
      var k: nat :| x == Pow2(k);
      assert 2 * x == Pow2(k + 1);
    }
    if k: nat :| 2 * x == Pow2(k) {
      assert k > 0 && x == Pow2(k - 1);
    }
    forall k: nat ensures 2 * x + 1 != Pow2(k) {
      if k > 0 { assert Pow2(k) == 2 * Pow2(k - 1); }
    }
  }

  /** Nothing is left exactly when nothing was due, or everything was, or only the entry under a cursor at the front was,
      or all but one were and the number of entries plus the cursor is a power of two. */
  lemma {:induction false} ClearsIff(n: nat, d: nat, c: nat)
    requires d <= n && c < n
    ensures Clears(n, d, c) <==> d == 0 || d == n || (d == 1 && c == 0) || (d == n - 1 && IsPow2(n + c))
    decreases n
  {
    if n >= 2 && d > 0 {
      if c >= d {
        if d == n - 1 { Pow2Doubles(n - 1); }
      } else {
        ClearsIff(n - 1, d - 1, Wrap(c + 1, n - 1));
        if d < n {
          assert Wrap(c + 1, n - 1) == if c + 1 < n - 1 then c + 1 else Wrap(0, n - 1);
          OneFewer(n, d, c);
        }
      }
    }
  }

  /** The condition for the entries left after one firing is the condition for the entries before it. */
  lemma OneFewer(n: nat, d: nat, c: nat)
    requires 2 <= n && c < d < n
    ensures var next := if c + 1 < n - 1 then c + 1 else 0;
            (d == 1 || (d == 2 && next == 0) || (d == n - 1 && IsPow2(n - 1 + next)))
            <==> ((d == 1 && c == 0) || (d == n - 1 && IsPow2(n + c)))
  {
    assert Pow2(1) == 2;
    if c + 1 == n - 1 {
      Pow2Doubles(n - 1);
    }
  }

  ghost predicate DuePrefix(q: seq<Due>, end: nat, d: nat) {
    d <= |q| && forall i :: 0 <= i < |q| ==> (q[i].resume <= end <==> i < d)
  }

  ghost predicate NoneDue(q: seq<Due>, end: nat) {
    forall i :: 0 <= i < |q| ==> q[i].resume > end
  }

  /** Which entries are due after the entry at c, one of the first d, is taken out. */
  lemma PrefixWithout(q: seq<Due>, end: nat, d: nat, c: nat)
    requires DuePrefix(q, end, d) && c < d
    ensures DuePrefix(Without(q, c), end, d - 1)
  {
  }

  lemma FireOneShot(t: Timers)
    requires Shaped(t) && t.cursor < |t.queue| && AllOneShot(t)
    ensures var u := Fire(t);
            && AllOneShot(u) && u.queue == Without(t.queue, t.cursor)
            && (|t.queue| > 1 ==> u.cursor == Wrap(t.cursor + 1, |t.queue| - 1))
  {
  }

  /** A tick with a due entry under the cursor goes on as one from the state that the firing leaves. */
  lemma TickGoesOn(t: Timers, start: nat, end: nat, d: nat) returns (u: Timers)
    requires Ticks(t, start, end) && AllOneShot(t) && start <= end && DuePrefix(t.queue, end, d) && t.cursor < d
    ensures Ticks(u, start, end) && AllOneShot(u) && |u.queue| == |t.queue| - 1 && DuePrefix(u.queue, end, d - 1)
    ensures |t.queue| > 1 ==> u.cursor == Wrap(t.cursor + 1, |t.queue| - 1)
    ensures RunTimer(t, start, end).after == RunTimer(u, start, end).after
  {
    u := Fire(t);
    FireDecreases(t, start, end);
    FireOneShot(t);
    PrefixWithout(t.queue, end, d, t.cursor);
  }

  lemma TickStops(t: Timers, start: nat, end: nat, d: nat)
    requires Ticks(t, start, end) && AllOneShot(t) && start <= end && DuePrefix(t.queue, end, d) && !(t.cursor < d)
    ensures RunTimer(t, start, end).after == t && (NoneDue(t.queue, end) <==> d == 0)
  {
    if d > 0 {
      assert t.queue[0].resume <= end;
    }
  }

  lemma {:induction false} TickClears(t: Timers, start: nat, end: nat, d: nat)
    requires Ticks(t, start, end) && AllOneShot(t) && start <= end && DuePrefix(t.queue, end, d)
    ensures NoneDue(RunTimer(t, start, end).after.queue, end) <==> Clears(|t.queue|, d, t.cursor)
    decreases |t.queue|
  {
    if t.cursor < d {
      var u := TickGoesOn(t, start, end, d);
      TickClears(u, start, end, d - 1);
      ClearsGoesOn(|t.queue|, d, t.cursor, u.cursor);
    } else {
      TickStops(t, start, end, d);
    }
  }

  /** A tick fires every due one-shot timer exactly when none was due, or all were, or only the first was and the cursor
      stood there, or all but one were and the number of entries plus the cursor is a power of two. */
  lemma AllDueFireIff(t: Timers, start: nat, end: nat)
    requires Ticks(t, start, end) && AllOneShot(t) && start <= end && |t.queue| > 0 && Sorted(Times(t.queue))
    ensures var n, d, c := |t.queue|, LowerBound(Times(t.queue), end + 1), t.cursor;
            NoneDue(RunTimer(t, start, end).after.queue, end)
            <==> d == 0 || d == n || (d == 1 && c == 0) || (d == n - 1 && IsPow2(n + c))
  {
    var times, d := Times(t.queue), LowerBound(Times(t.queue), end + 1);
    LowerBoundIsBound(times, end + 1);
    forall i | 0 <= i < |t.queue| ensures t.queue[i].resume <= end <==> i < d {
      assert times[i] == t.queue[i].resume;
    }
    TickClears(t, start, end, d);
    ClearsIff(|t.queue|, d, t.cursor);
  }

  /** Three timers, the first two due, and the cursor at the front: the second stays queued past its time. */
  lemma DueTimerIsPassedOver(t: Timers)
    requires t == Timers(seq(3, i => Sleeper(1, 0, 5, 0, Sleep)), [Due(5, 0), Due(6, 1), Due(9, 2)], 0)
    ensures Ticks(t, 0, 7) && !NoneDue(RunTimer(t, 0, 7).after.queue, 7)
  {
    TickClears(t, 0, 7, 2);
    assert Clears(3, 2, 0) == Clears(2, 1, 1);
  }
}
