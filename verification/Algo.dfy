/** The array and hash-table templates of include/cmrx/algo.h. */
module Algo {
  import opened PowerOfTwo

  /** Reserved key of a free hash slot. */
  const HASH_EMPTY: nat := 0xFFFF_FFFF

  /** The key member of every entry of a table. */
  function Column<T>(table: seq<T>, key: T -> nat): (keys: seq<nat>)
    ensures |keys| == |table|
    ensures forall i :: 0 <= i < |table| ==> keys[i] == key(table[i])
  {
    seq(|table|, i requires 0 <= i < |table| => key(table[i]))
  }

  // ---------------------------------------------------------------- hashing

  /** Slot visited by the i-th probe of a table of n slots, starting from hash h. */
  function Probe(h: nat, i: nat, n: nat): (pos: nat)
    requires n > 0
    ensures pos < n
  {
    (h + Tri(i)) % n
  }

  predicate Stops(keys: seq<nat>, value: nat, pos: nat)
    requires pos < |keys|
  {
    keys[pos] == value || keys[pos] == HASH_EMPTY
  }

  /** Number of the first probe at or after i that stops the search, |keys| when none below |keys| does. */
  function ProbeIndex(keys: seq<nat>, h: nat, value: nat, i: nat): (r: nat)
    requires |keys| > 0 && i <= |keys|
    ensures i <= r <= |keys|
    ensures forall k :: i <= k < r ==> !Stops(keys, value, Probe(h, k, |keys|))
    ensures r < |keys| ==> Stops(keys, value, Probe(h, r, |keys|))
    decreases |keys| - i
  {
    if i == |keys| || Stops(keys, value, Probe(h, i, |keys|)) then i
    else ProbeIndex(keys, h, value, i + 1)
  }

  /** Slot where the search for a value ends. */
  function Slot(keys: seq<nat>, h: nat, value: nat): (pos: nat)
    requires |keys| > 0
    ensures pos < |keys|
  {
    Probe(h, ProbeIndex(keys, h, value, 0), |keys|)
  }

  /** In a table of two slots the search that starts at the first ends there or at the second. */
  lemma SlotOfTwo(keys: seq<nat>, value: nat)
    requires |keys| == 2 && (Stops(keys, value, 0) || Stops(keys, value, 1))
    ensures Slot(keys, 0, value) == if Stops(keys, value, 0) then 0 else 1
  {
    var first := 0;
    assert Probe(0, first, 2) == 0 && Probe(0, first + 1, 2) == 1;
    assert ProbeIndex(keys, 0, value, first) == if Stops(keys, value, 0) then first else ProbeIndex(keys, 0, value, first + 1);
  }

  /** Some slot can end the search: it holds the value or is free. */
  ghost predicate Searchable(keys: seq<nat>, value: nat) {
    exists s: nat :: s < |keys| && Stops(keys, value, s)
  }

  lemma ModAdd(x: int, y: int, n: int)
    requires n > 0
    ensures (x % n + y) % n == (x + y) % n
  {
    var q := x / n;
    assert x == n * q + x % n;
    ModShift(x % n + y, q, n);
  }

  lemma ModShift(x: int, q: int, n: int)
    requires n > 0
    ensures (x + n * q) % n == x % n
  {
    var a, b := x / n, (x + n * q) / n;
    var d := a + q - b;
    assert n * d == (x + n * q) % n - x % n by {
      assert n * d == n * a + n * q - n * b;
    }
    MulBounds(n, d);
  }

  lemma MulBounds(n: int, d: int)
    requires n > 0
    ensures d >= 1 ==> n * d >= n
    ensures d <= -1 ==> n * d <= -n
  {
  }

  lemma ProbeNext(h: nat, i: nat, n: nat)
    requires n > 0
    ensures (Probe(h, i, n) + (i + 1)) % n == Probe(h, i + 1, n)
  {
    ModAdd(h + Tri(i), i + 1, n);
  }

  /** The first 2^m probes are pairwise different. */
  lemma ProbesDistinct(m: nat, h: nat, i: nat, j: nat)
    requires i < j < Pow2(m)
    ensures Probe(h, i, Pow2(m)) != Probe(h, j, Pow2(m))
  {
    TriDistinct(m, i, j);
    if Probe(h, i, Pow2(m)) == Probe(h, j, Pow2(m)) {
      SameResidue(h + Tri(i), h + Tri(j), Pow2(m));
    }
  }

  /** The set {0, ..., n - 1}. */
  function Below(n: nat): (s: set<nat>)
    ensures |s| == n
    ensures forall x: nat :: x in s <==> x < n
  {
    if n == 0 then {} else Below(n - 1) + {n - 1}
  }

  ghost function Visited(h: nat, k: nat, n: nat): set<nat>
    requires n > 0
  {
    set i: nat | i < k :: Probe(h, i, n)
  }

  lemma {:induction false} VisitedSize(m: nat, h: nat, k: nat)
    requires k <= Pow2(m)
    ensures |Visited(h, k, Pow2(m))| == k
  {
    var n := Pow2(m);
    if k == 0 {
      assert Visited(h, k, n) == {};
    } else {
      VisitedSize(m, h, k - 1);
      var last := Probe(h, k - 1, n);
      forall i: nat | i < k - 1 ensures Probe(h, i, n) != last {
        ProbesDistinct(m, h, i, k - 1);
      }
      assert Visited(h, k, n) == Visited(h, k - 1, n) + {last};
      assert last !in Visited(h, k - 1, n);
    }
  }

  lemma SubsetOfFullSize(a: set<nat>, b: set<nat>, x: nat)
    requires a <= b && |a| == |b| && x in b
    ensures x in a
  {
    if x !in a {
      assert a <= b - {x};
      SubsetSize(a, b - {x});
    }
  }

  lemma {:induction false} SubsetSize<T>(a: set<T>, b: set<T>)
    requires a <= b
    ensures |a| <= |b|
    decreases a
  {
    if a != {} {
      var x :| x in a;
      SubsetSize(a - {x}, b - {x});
    }
  }

  /** The growing stride visits every slot of a power-of-two table exactly once in its first |table| probes. */
  lemma ProbesCoverTable(m: nat, h: nat, s: nat) returns (i: nat)
    requires s < Pow2(m)
    ensures i < Pow2(m) && Probe(h, i, Pow2(m)) == s
    ensures forall j: nat :: j < Pow2(m) && Probe(h, j, Pow2(m)) == s ==> j == i
  {
    var n := Pow2(m);
    VisitedSize(m, h, n);
    assert Visited(h, n, n) <= Below(n);
    SubsetOfFullSize(Visited(h, n, n), Below(n), s);
    i :| i < n && Probe(h, i, n) == s;
    forall j: nat | j < n && Probe(h, j, n) == s ensures j == i {
      if j < i { ProbesDistinct(m, h, j, i); }
      if i < j { ProbesDistinct(m, h, i, j); }
    }
  }

  /** The probe loop ends, and ends within |table| probes, exactly when the value or a free slot is in the table. */
  lemma SearchEndsIff(m: nat, keys: seq<nat>, h: nat, value: nat)
    requires |keys| == Pow2(m)
    ensures Searchable(keys, value) <==> exists i: nat :: Stops(keys, value, Probe(h, i, |keys|))
    ensures Searchable(keys, value) <==> ProbeIndex(keys, h, value, 0) < |keys|
  {
    if Searchable(keys, value) {
      var s: nat :| s < |keys| && Stops(keys, value, s);
      var i := ProbesCoverTable(m, h, s);
      assert Stops(keys, value, Probe(h, i, |keys|));
    }
    if i: nat :| Stops(keys, value, Probe(h, i, |keys|)) {
      assert Probe(h, i, |keys|) < |keys|;
    }
  }

  /** A full table of two without the key: no probe ever stops the search. */
  lemma FullTableNeverEnds(h: nat)
    ensures !Searchable([1, 2], 3) && forall i: nat :: !Stops([1, 2], 3, Probe(h, i, 2))
  {
  }

  /** A search is not disturbed by a change to slots it does not visit before its end. */
  lemma {:induction false} SameSearch(keys: seq<nat>, changed: seq<nat>, h: nat, value: nat, i: nat)
    requires |keys| > 0 && |changed| == |keys| && i <= |keys|
    requires forall k :: i <= k < ProbeIndex(keys, h, value, i) ==>
               (Stops(changed, value, Probe(h, k, |keys|)) <==> Stops(keys, value, Probe(h, k, |keys|)))
    requires var r := ProbeIndex(keys, h, value, i);
             r < |keys| ==> Stops(changed, value, Probe(h, r, |keys|))
    ensures ProbeIndex(changed, h, value, i) == ProbeIndex(keys, h, value, i)
    decreases |keys| - i
  {
    if i < |keys| && !Stops(keys, value, Probe(h, i, |keys|)) {
      assert ProbeIndex(keys, h, value, i) == ProbeIndex(keys, h, value, i + 1);
      SameSearch(keys, changed, h, value, i + 1);
    }
  }

  /** HASH_SEARCH. It ends at the first slot of the probe sequence that holds the value or is free. */
  method HashSearch<T>(table: array<T>, key: T -> nat, h: nat, value: nat, ghost m: nat) returns (pos: nat)
    requires table.Length == Pow2(m)
    requires Searchable(Column(table[..], key), value)
    ensures pos == Slot(Column(table[..], key), h, value)
    ensures pos < table.Length && (key(table[pos]) == value || key(table[pos]) == HASH_EMPTY)
  {
    ghost var keys := Column(table[..], key);
    ghost var end := ProbeIndex(keys, h, value, 0);
    SearchEndsIff(m, keys, h, value);
    var n := table.Length;
    pos := h % n;
    var stride := 1;
    while key(table[pos]) != value && key(table[pos]) != HASH_EMPTY
      invariant 1 <= stride <= end + 1
      invariant pos == Probe(h, stride - 1, n)
      decreases end + 1 - stride
    {
      assert !Stops(keys, value, pos);
      ProbeNext(h, stride - 1, n);
      pos := (pos + stride) % n;
      stride := stride + 1;
    }
    assert Stops(keys, value, pos);
  }

  // ------------------------------------------------------------------ lists

  ghost predicate NoDuplicates(s: seq<nat>) {
    forall i, j :: 0 <= i < j < |s| ==> s[i] != s[j]
  }

  /** A list without duplicates of numbers below n is at most n long. */
  lemma ListBound(s: seq<nat>, n: nat)
    requires NoDuplicates(s) && forall i :: 0 <= i < |s| ==> s[i] < n
    ensures |s| <= n
  {
    ListSize(s);
    SubsetSize(Elements(s), Below(n));
  }

  ghost function Elements(s: seq<nat>): set<nat> {
    set x | x in s
  }

  lemma {:induction false} ListSize(s: seq<nat>)
    requires NoDuplicates(s)
    ensures |Elements(s)| == |s|
  {
    if s != [] {
      var front, last := s[..|s| - 1], s[|s| - 1];
      ListSize(front);
      assert Elements(s) == Elements(front) + {last};
    }
  }

  // ---------------------------------------------------------- sorted arrays

  predicate Sorted(s: seq<nat>) {
    forall i, j :: 0 <= i < j < |s| ==> s[i] <= s[j]
  }

  /** Everything before p is smaller than value and nothing from p on is. */
  predicate IsLowerBound(s: seq<nat>, value: nat, p: int) {
    && 0 <= p <= |s|
    && (forall i :: 0 <= i < p ==> s[i] < value)
    && (forall i :: p <= i < |s| ==> value <= s[i])
  }

  /** Number of leading entries smaller than value. */
  function LowerBound(s: seq<nat>, value: nat): (p: nat)
    ensures p <= |s|
    ensures forall i :: 0 <= i < p ==> s[i] < value
    ensures p < |s| ==> value <= s[p]
  {
    if s == [] || value <= s[0] then 0 else 1 + LowerBound(s[1..], value)
  }

  lemma LowerBoundIsBound(s: seq<nat>, value: nat)
    requires Sorted(s)
    ensures IsLowerBound(s, value, LowerBound(s, value))
    ensures forall p :: IsLowerBound(s, value, p) ==> p == LowerBound(s, value)
  {
    var b := LowerBound(s, value);
    forall p | 0 <= p <= |s| && p != b ensures !IsLowerBound(s, value, p) {
      if p < b {
        assert s[p] < value;
      } else {
        assert value <= s[b];
      }
    }
  }

  /** BINARY_SEARCH: halving down to a window of eight, then a linear scan. */
  method BinarySearch<T>(a: array<T>, key: T -> nat, value: nat, size: nat) returns (lower: nat)
    requires size <= a.Length
    requires Sorted(Column(a[..size], key))
    ensures IsLowerBound(Column(a[..size], key), value, lower)
    ensures lower == LowerBound(Column(a[..size], key), value)
  {
    ghost var s := Column(a[..size], key);
    lower := 0;
    var upper := size;
    while upper - lower > 8
      invariant 0 <= lower <= upper <= size
      invariant forall i :: 0 <= i < lower ==> s[i] < value
      invariant forall i :: upper <= i < size ==> value <= s[i]
    {
      var mid := lower + (upper - lower) / 2;
      assert s[mid] == key(a[mid]);
      if key(a[mid]) < value {
        lower := mid + 1;
      } else {
        upper := mid;
      }
    }
    while lower < upper && key(a[lower]) < value
      invariant 0 <= lower <= upper <= size
      invariant forall i :: 0 <= i < lower ==> s[i] < value
    {
      assert s[lower] == key(a[lower]);
      lower := lower + 1;
    }
    assert lower < size ==> s[lower] == key(a[lower]);
    LowerBoundIsBound(s, value);
  }

  /** ARRAY_INSERT: opens a gap at pos; the entry at pos is still there for the caller to overwrite. */
  method ArrayInsert<T>(a: array<T>, pos: nat, size: nat) returns (newSize: nat)
    requires pos <= size < a.Length
    modifies a
    ensures newSize == size + 1
    ensures a[..pos] == old(a[..pos])
    ensures a[pos + 1..newSize] == old(a[pos..size])
    ensures a[newSize..] == old(a[newSize..])
  {
    var q := size;
    while q > pos
      invariant pos <= q <= size
      invariant forall i :: 0 <= i <= q ==> a[i] == old(a[i])
      invariant forall i :: q < i <= size ==> a[i] == old(a[i - 1])
      invariant forall i :: size < i < a.Length ==> a[i] == old(a[i])
    {
      a[q] := a[q - 1];
      q := q - 1;
    }
    newSize := size + 1;
  }

  /** ARRAY_DELETE: closes the gap left by the entry at pos. */
  method ArrayDelete<T>(a: array<T>, pos: nat, size: nat) returns (newSize: nat)
    requires pos < size <= a.Length
    modifies a
    ensures newSize == size - 1
    ensures a[..newSize] == old(a[..pos]) + old(a[pos + 1..size])
    ensures a[newSize..] == old(a[newSize..])
  {
    var q := pos + 1;
    while q < size
      invariant pos + 1 <= q <= size
      invariant forall i :: 0 <= i < pos ==> a[i] == old(a[i])
      invariant forall i :: pos <= i < q - 1 ==> a[i] == old(a[i + 1])
      invariant forall i :: q - 1 <= i < a.Length ==> a[i] == old(a[i])
    {
      a[q - 1] := a[q];
      q := q + 1;
    }
    newSize := size - 1;
  }
}
