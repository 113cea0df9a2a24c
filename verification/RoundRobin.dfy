/** Bounded waiting: repeated yields and switches take the best-priority threads in turn. */
module RoundRobin {
  import opened Threads
  import opened Sched
  import opened PowerOfTwo
  import Algo

  /** Runnable threads of the best priority any runnable thread has. */
  ghost function Top(threads: seq<Thread>): set<nat> {
    set t: nat | t < |threads| && IsTop(threads, t)
  }

  ghost predicate IsTop(threads: seq<Thread>, t: nat) {
    && t < |threads|
    && Runnable(threads[t])
    && forall d :: 0 <= d < |threads| && Runnable(threads[d]) ==> threads[t].priority <= threads[d].priority
  }

  /** A yield followed by the switch point. */
  function Round(k: Kernel): Kernel
    requires ValidKernel(k)
  {
    Switch(Yield(k))
  }

  ghost function Rounds(k: Kernel, n: nat): (r: Kernel)
    requires ValidKernel(k)
    ensures ValidKernel(r)
  {
    if n == 0 then k else Round(Rounds(k, n - 1))
  }

  /** Same threads with the same priorities, runnable or not as before. */
  ghost predicate SameShape(a: seq<Thread>, b: seq<Thread>) {
    && |a| == |b|
    && forall t :: 0 <= t < |a| ==> a[t].priority == b[t].priority && (Runnable(a[t]) <==> Runnable(b[t]))
  }

  lemma SameTop(a: seq<Thread>, b: seq<Thread>)
    requires SameShape(a, b)
    ensures Top(a) == Top(b)
  {
  }

  /** A round makes the chosen thread current and changes nothing the choice depends on. */
  lemma RoundTakesChoice(k: Kernel)
    requires ValidKernel(k) && k.current in Top(k.threads)
    ensures SameShape(Round(k).threads, k.threads)
    ensures IsChoice(k.threads, (k.current + 1) % |k.threads|, Round(k).current)
    ensures Round(k).current in Top(k.threads)
  {
  }

  // ------------------------------------------------- turns within a set

  ghost function Before(s: set<nat>, c: nat): set<nat> {
    set x | x in s && x < c
  }

  /** Position of c in the ascending order of s. */
  ghost function Rank(s: set<nat>, c: nat): nat {
    |Before(s, c)|
  }

  lemma RankOrder(s: set<nat>, c: nat, d: nat)
    requires c in s && d in s && c < d
    ensures Rank(s, c) < Rank(s, d)
  {
    Algo.SubsetSize(Before(s, c) + {c}, Before(s, d));
  }

  lemma RankBound(s: set<nat>, c: nat)
    requires c in s
    ensures Rank(s, c) < |s|
  {
    Algo.SubsetSize(Before(s, c) + {c}, s);
  }

  lemma RankInjective(s: set<nat>, c: nat, d: nat)
    requires c in s && d in s && Rank(s, c) == Rank(s, d)
    ensures c == d
  {
    if c < d {
      RankOrder(s, c, d);
    } else if d < c {
      RankOrder(s, d, c);
    }
  }

  /** No best-priority thread lies nearer to the start of the search than the chosen one. */
  lemma ChoiceIsNearest(threads: seq<Thread>, start: nat, d: nat, x: nat)
    requires start < |threads| && IsChoice(threads, start, d) && x in Top(threads) && d in Top(threads)
    ensures Distance(start, d, |threads|) <= Distance(start, x, |threads|)
  {
  }

  /** The next element of a set above c, or its first element when c is its last, comes next in rank. */
  lemma NextRank(s: set<nat>, c: nat, d: nat)
    requires c in s && d in s
    requires if c < d then forall x :: x in s ==> x <= c || d <= x else forall x :: x in s ==> d <= x <= c
    ensures Rank(s, d) == if Rank(s, c) + 1 == |s| then 0 else Rank(s, c) + 1
  {
    if c < d {
      assert Before(s, d) == Before(s, c) + {c};
      RankBound(s, d);
    } else {
      assert Before(s, d) == {};
      assert s == Before(s, c) + {c};
    }
  }

  /** The choice after c is the next best-priority thread, or the first one when c was the last. */
  lemma ChoiceStepsRank(threads: seq<Thread>, c: nat, d: nat)
    requires c in Top(threads) && d in Top(threads)
    requires IsChoice(threads, (c + 1) % |threads|, d)
    ensures var s := Top(threads); Rank(s, d) == if Rank(s, c) + 1 == |s| then 0 else Rank(s, c) + 1
  {
    var s := Top(threads);
    NextStart(c, |threads|);
    forall x | x in s ensures if c < d then x <= c || d <= x else d <= x <= c {
      ChoiceIsNearest(threads, (c + 1) % |threads|, d, x);
    }
    NextRank(s, c, d);
  }

  lemma NextStart(c: nat, n: nat)
    requires c < n
    ensures (c + 1) % n == if c + 1 == n then 0 else c + 1
  {
  }

  lemma ShapeTransitive(a: seq<Thread>, b: seq<Thread>, c: seq<Thread>)
    requires SameShape(a, b) && SameShape(b, c)
    ensures SameShape(a, c)
  {
  }

  lemma OneRound(threads: seq<Thread>, r: Kernel)
    requires ValidKernel(r) && SameShape(r.threads, threads) && r.current in Top(threads)
    ensures SameShape(Round(r).threads, threads) && Round(r).current in Top(threads)
    ensures var s := Top(threads);
            Rank(s, Round(r).current) == if Rank(s, r.current) + 1 == |s| then 0 else Rank(s, r.current) + 1
  {
    SameTop(r.threads, threads);
    RoundTakesChoice(r);
    ChoiceStepsRank(r.threads, r.current, Round(r).current);
    ShapeTransitive(Round(r).threads, r.threads, threads);
  }

  /** Counting n steps on from r, starting over at m. */
  function Turn(r: nat, n: nat, m: nat): nat {
    if n == 0 then r
    else
      var x := Turn(r, n - 1, m);
      if x + 1 == m then 0 else x + 1
  }

  lemma {:induction false} TurnIsResidue(r: nat, n: nat, m: nat)
    requires r < m
    ensures Turn(r, n, m) == (r + n) % m
  {
    if n > 0 {
      TurnIsResidue(r, n - 1, m);
      NextResidue(r + n - 1, m);
    }
  }

  lemma {:induction false} RankAfterRounds(k: Kernel, n: nat)
    requires ValidKernel(k) && k.current in Top(k.threads)
    ensures var r := Rounds(k, n); var s := Top(k.threads);
            && SameShape(r.threads, k.threads)
            && r.current in s
            && Rank(s, r.current) == Turn(Rank(s, k.current), n, |s|)
  {
    if n > 0 {
      var before := Rounds(k, n - 1);
      RankAfterRounds(k, n - 1);
      OneRound(k.threads, before);
      assert Rounds(k, n) == Round(before);
    }
  }

  lemma NextResidue(a: int, m: nat)
    requires m > 0
    ensures (a + 1) % m == if a % m + 1 == m then 0 else a % m + 1
  {
    Algo.ModAdd(a, 1, m);
  }

  lemma DifferentResidues(i: int, j: int, m: nat)
    requires 0 < j - i < m
    ensures i % m != j % m
  {
    if i % m == j % m {
      SameResidue(i, j, m);
      NoSmallMultiple(j - i, m);
    }
  }

  lemma SmallResidue(r: nat, m: nat)
    requires r < m
    ensures r % m == r && (r + m) % m == r
  {
  }

  lemma SomeResidue(base: nat, m: nat, r: nat) returns (j: nat)
    requires r < m
    ensures base <= j < base + m && j % m == r
  {
    var b := base % m;
    SmallResidue(r, m);
    var step := if r >= b then r - b else r + m - b;
    assert b + step == r || b + step == r + m;
    Algo.ModAdd(base, step, m);
    j := base + step;
  }

  /** Among m consecutive turns exactly one falls on x. */
  lemma OneTurn(r: nat, base: nat, m: nat, x: nat) returns (j: nat)
    requires r < m && x < m
    ensures base <= j < base + m && Turn(r, j, m) == x
    ensures forall i: nat :: base <= i < base + m && i != j ==> Turn(r, i, m) != x
  {
    var hit := SomeResidue(r + base, m, x);
    j := hit - r;
    TurnIsResidue(r, j, m);
    forall i: nat | base <= i < base + m && i != j ensures Turn(r, i, m) != x {
      TurnIsResidue(r, i, m);
      if i < j { DifferentResidues(r + i, r + j, m); } else { DifferentResidues(r + j, r + i, m); }
    }
  }

  /** Once a best-priority thread is current and nobody's state or priority changes, any m consecutive
      rounds run each of the m best-priority threads exactly once, and no other thread. */
  lemma EveryTopThreadInTurn(k: Kernel, i: nat, t: nat) returns (j: nat)
    requires ValidKernel(k) && k.current in Top(k.threads) && t in Top(k.threads)
    ensures i <= j < i + |Top(k.threads)| && Rounds(k, j).current == t
    ensures forall n :: i <= n < i + |Top(k.threads)| && Rounds(k, n).current == t ==> n == j
    ensures forall n: nat :: Rounds(k, n).current in Top(k.threads)
  {
    var s := Top(k.threads);
    RankBound(s, t);
    RankBound(s, k.current);
    j := OneTurn(Rank(s, k.current), i, |s|, Rank(s, t));
    RankAfterRounds(k, j);
    RankInjective(s, Rounds(k, j).current, t);
    forall n: nat ensures Rounds(k, n).current in s && (i <= n < i + |s| && n != j ==> Rounds(k, n).current != t) {
      RankAfterRounds(k, n);
    }
  }
}
