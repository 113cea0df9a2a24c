/** The open-addressed table of pending notifications in src/os/kernel/notify.c. */
module PendingTable {
  import opened PowerOfTwo
  import opened Algo

  const COUNT_MODULUS: nat := 0x1_0000_0000

  /** struct NotificationObject; pending_notifications is 32 bits wide. */
  datatype Entry = Entry(address: nat, pending: nat)

  type Hash = nat -> nat

  const FREE: Entry := Entry(HASH_EMPTY, 0)

  function Address(e: Entry): nat {
    e.address
  }

  function Keys(t: seq<Entry>): (keys: seq<nat>)
    ensures |keys| == |t|
    ensures forall i :: 0 <= i < |t| ==> keys[i] == t[i].address
  {
    Column(t, Address)
  }

  /** os_notify_find_queue_entry. */
  function Find(t: seq<Entry>, hash: Hash, obj: nat): (offs: nat)
    requires |t| > 0
    ensures offs < |t|
  {
    Slot(Keys(t), hash(obj), obj)
  }

  ghost predicate Ends(t: seq<Entry>, obj: nat) {
    Searchable(Keys(t), obj)
  }

  /** The table, its size counter and what the call reported. */
  datatype Outcome = Outcome(table: seq<Entry>, size: nat, ok: bool)

  /** os_notify_queue_event. */
  function Queue(t: seq<Entry>, size: nat, hash: Hash, obj: nat): Outcome
    requires |t| > 0
  {
    if size == |t| then Outcome(t, size, false)
    else
      var offs := Find(t, hash, obj);
      var e := t[offs];
      var grown := if e.address == HASH_EMPTY then size + 1 else size;
      var address := if e.address == HASH_EMPTY then obj else e.address;
      Outcome(t[offs := Entry(address, (e.pending + 1) % COUNT_MODULUS)], grown, true)
  }

  /** os_notify_dequeue_event. */
  function Dequeue(t: seq<Entry>, size: int, hash: Hash, obj: nat): (o: (seq<Entry>, int, bool))
    requires |t| > 0
    ensures |o.0| == |t|
  {
    var offs := Find(t, hash, obj);
    var e := t[offs];
    if e.address != obj then (t, size, false)
    else
      var remaining := (e.pending - 1) % COUNT_MODULUS;
      if remaining == 0 then (t[offs := Entry(HASH_EMPTY, 0)], size - 1, true)
      else (t[offs := Entry(obj, remaining)], size, true)
  }

  // ------------------------------------------------------ size and counts

  function Occupied(t: seq<Entry>): nat {
    if t == [] then 0 else Occupied(t[1..]) + if t[0].address == HASH_EMPTY then 0 else 1
  }

  /** Pending notifications of an object, summed over all its slots. */
  function PendingOf(t: seq<Entry>, obj: nat): nat {
    if t == [] then 0 else PendingOf(t[1..], obj) + if t[0].address == obj then t[0].pending else 0
  }

  /** The two assertions of notify.c and the meaning of its size counter. */
  ghost predicate WellCounted(t: seq<Entry>, size: int) {
    && size == Occupied(t)
    && forall i :: 0 <= i < |t| ==> (t[i].address == HASH_EMPTY <==> t[i].pending == 0)
  }

  lemma {:induction false} OccupiedUpdate(t: seq<Entry>, i: nat, e: Entry)
    requires i < |t|
    ensures Occupied(t[i := e]) == Occupied(t)
              - (if t[i].address == HASH_EMPTY then 0 else 1) + (if e.address == HASH_EMPTY then 0 else 1)
  {
    if i == 0 {
      assert t[i := e][1..] == t[1..];
    } else {
      OccupiedUpdate(t[1..], i - 1, e);
      assert t[i := e][1..] == t[1..][i - 1 := e];
    }
  }

  lemma {:induction false} PendingUpdate(t: seq<Entry>, i: nat, e: Entry, obj: nat)
    requires i < |t|
    ensures PendingOf(t[i := e], obj) == PendingOf(t, obj)
              - (if t[i].address == obj then t[i].pending else 0) + (if e.address == obj then e.pending else 0)
  {
    if i == 0 {
      assert t[i := e][1..] == t[1..];
    } else {
      PendingUpdate(t[1..], i - 1, e, obj);
      assert t[i := e][1..] == t[1..][i - 1 := e];
    }
  }

  lemma {:induction false} OccupiedBound(t: seq<Entry>)
    ensures Occupied(t) <= |t|
    ensures Occupied(t) == |t| <==> forall i :: 0 <= i < |t| ==> t[i].address != HASH_EMPTY
  {
    if t != [] {
      OccupiedBound(t[1..]);
      assert forall i :: 1 <= i < |t| ==> t[i] == t[1..][i - 1];
      if Occupied(t) == |t| {
        forall i | 0 <= i < |t| ensures t[i].address != HASH_EMPTY {
          assert i > 0 ==> t[i] == t[1..][i - 1];
        }
      }
    }
  }

  lemma {:induction false} PendingPositive(t: seq<Entry>, i: nat, obj: nat)
    requires i < |t| && t[i].address == obj
    ensures PendingOf(t, obj) >= t[i].pending
  {
    if i > 0 {
      PendingPositive(t[1..], i - 1, obj);
    }
  }

  lemma {:induction false} PendingAbsent(t: seq<Entry>, obj: nat)
    requires forall i :: 0 <= i < |t| ==> t[i].address != obj
    ensures PendingOf(t, obj) == 0
  {
    if t != [] {
      PendingAbsent(t[1..], obj);
    }
  }

  lemma FoundEntry(m: nat, t: seq<Entry>, hash: Hash, obj: nat)
    requires |t| == Pow2(m) && Ends(t, obj)
    ensures var e := t[Find(t, hash, obj)]; e.address == obj || e.address == HASH_EMPTY
  {
    SearchEndsIff(m, Keys(t), hash(obj), obj);
  }

  /** The slot a queueing notification would count in has room for one more. */
  predicate NoWrap(t: seq<Entry>, hash: Hash, obj: nat)
    requires |t| > 0
  {
    t[Find(t, hash, obj)].pending != COUNT_MODULUS - 1
  }

  lemma Incremented(pending: nat)
    requires pending < COUNT_MODULUS
    ensures (pending + 1) % COUNT_MODULUS == if pending == COUNT_MODULUS - 1 then 0 else pending + 1
  {
  }

  /** The entry a queueing notification leaves in the slot it found. */
  lemma QueueEntry(m: nat, t: seq<Entry>, size: nat, hash: Hash, obj: nat)
    requires |t| == Pow2(m) && WellCounted(t, size) && Ends(t, obj) && obj != HASH_EMPTY && size != |t|
    requires forall i :: 0 <= i < |t| ==> t[i].pending < COUNT_MODULUS
    ensures var o, offs := Queue(t, size, hash, obj), Find(t, hash, obj);
            && (t[offs].address == obj || (t[offs].address == HASH_EMPTY && t[offs].pending == 0))
            && o.table == t[offs := Entry(obj, if NoWrap(t, hash, obj) then t[offs].pending + 1 else 0)]
            && o.size == size + (if t[offs].address == HASH_EMPTY then 1 else 0) && o.ok
  {
    FoundEntry(m, t, hash, obj);
    Incremented(t[Find(t, hash, obj)].pending);
  }

  lemma StoredIsCounted(t: seq<Entry>, size: nat, offs: nat, e: Entry)
    requires WellCounted(t, size) && offs < |t| && e.address != HASH_EMPTY
    ensures WellCounted(t[offs := e], size + if t[offs].address == HASH_EMPTY then 1 else 0) <==> e.pending != 0
  {
    OccupiedUpdate(t, offs, e);
    assert t[offs := e][offs] == e;
  }

  /** Queueing keeps the table well counted exactly when the 32-bit count does not wrap, and then adds
      exactly one pending notification to that object and none to any other. */
  lemma QueueCounts(m: nat, t: seq<Entry>, size: nat, hash: Hash, obj: nat)
    requires |t| == Pow2(m) && WellCounted(t, size) && Ends(t, obj) && obj != HASH_EMPTY
    requires forall i :: 0 <= i < |t| ==> t[i].pending < COUNT_MODULUS
    ensures var o := Queue(t, size, hash, obj);
            && (o.ok <==> exists i :: 0 <= i < |t| && t[i].address == HASH_EMPTY)
            && (o.ok ==> (WellCounted(o.table, o.size) <==> NoWrap(t, hash, obj)))
            && (o.ok && NoWrap(t, hash, obj) ==>
                  forall x: nat :: x != HASH_EMPTY ==>
                    PendingOf(o.table, x) == PendingOf(t, x) + if x == obj then 1 else 0)
  {
    OccupiedBound(t);
    if size != |t| {
      QueueEntry(m, t, size, hash, obj);
      var o, offs := Queue(t, size, hash, obj), Find(t, hash, obj);
      var e := Entry(obj, if NoWrap(t, hash, obj) then t[offs].pending + 1 else 0);
      StoredIsCounted(t, size, offs, e);
      if NoWrap(t, hash, obj) {
        forall x: nat | x != HASH_EMPTY ensures PendingOf(o.table, x) == PendingOf(t, x) + if x == obj then 1 else 0 {
          PendingUpdate(t, offs, e, x);
        }
      }
    }
  }

  /** Dequeueing keeps the table well counted and takes exactly one pending notification from the object it reports. */
  lemma DequeueCounts(m: nat, t: seq<Entry>, size: nat, hash: Hash, obj: nat)
    requires |t| == Pow2(m) && WellCounted(t, size) && Ends(t, obj) && obj != HASH_EMPTY
    requires forall i :: 0 <= i < |t| ==> t[i].pending < COUNT_MODULUS
    ensures var o := Dequeue(t, size, hash, obj);
            && WellCounted(o.0, o.1)
            && forall x: nat :: x != HASH_EMPTY ==>
                 PendingOf(o.0, x) == PendingOf(t, x) - if o.2 && x == obj then 1 else 0
  {
    FoundEntry(m, t, hash, obj);
    var o := Dequeue(t, size, hash, obj);
    if o.2 {
      var offs := Find(t, hash, obj);
      Remaining(t[offs].pending);
      OccupiedUpdate(t, offs, o.0[offs]);
      forall x: nat | x != HASH_EMPTY ensures PendingOf(o.0, x) == PendingOf(t, x) - if x == obj then 1 else 0 {
        PendingUpdate(t, offs, o.0[offs], x);
      }
    }
  }

  lemma Remaining(pending: nat)
    requires 0 < pending < COUNT_MODULUS
    ensures (pending - 1) % COUNT_MODULUS == pending - 1
  {
  }

  // ---------------------------------------------------------- reachability

  /** Slot s lies on the probe path of a key before the slot where its search ends. */
  ghost predicate OnPrefix(t: seq<Entry>, hash: Hash, key: nat, s: nat)
    requires |t| > 0
  {
    exists i: nat :: i < ProbeIndex(Keys(t), hash(key), key, 0) && Probe(hash(key), i, |t|) == s
  }

  /** Every stored address is where the search for it ends. */
  ghost predicate Reachable(t: seq<Entry>, hash: Hash)
    requires |t| > 0
  {
    forall s :: 0 <= s < |t| && t[s].address != HASH_EMPTY ==> Find(t, hash, t[s].address) == s
  }

  lemma StoredEnds(t: seq<Entry>, s: nat)
    requires s < |t|
    ensures Ends(t, t[s].address)
  {
    assert Stops(Keys(t), t[s].address, s);
  }

  /** Storing an object where its search ends at a free slot keeps every stored address reachable. */
  lemma InsertKeepsReachable(m: nat, t: seq<Entry>, hash: Hash, obj: nat, count: nat)
    requires |t| == Pow2(m) && Reachable(t, hash) && Ends(t, obj) && obj != HASH_EMPTY
    requires t[Find(t, hash, obj)].address == HASH_EMPTY
    ensures Reachable(t[Find(t, hash, obj) := Entry(obj, count)], hash)
  {
    var p := Find(t, hash, obj);
    var u := t[p := Entry(obj, count)];
    SearchEndsIff(m, Keys(t), hash(obj), obj);
    forall s | 0 <= s < |u| && u[s].address != HASH_EMPTY ensures Find(u, hash, u[s].address) == s {
      var key := u[s].address;
      StoredEnds(t, s);
      if s != p {
        assert Find(t, hash, key) == s;
        SearchEndsIff(m, Keys(t), hash(key), key);
      }
      SameSearch(Keys(t), Keys(u), hash(key), key, 0);
    }
  }

  lemma SameKeysKeepReachable(t: seq<Entry>, u: seq<Entry>, hash: Hash)
    requires |t| > 0 && |u| == |t| && Reachable(t, hash)
    requires forall i :: 0 <= i < |t| ==> u[i].address == t[i].address
    ensures Reachable(u, hash)
  {
    assert Keys(u) == Keys(t);
  }

  /** Freeing a slot keeps the other addresses reachable exactly when the slot lies on no other stored
      address's probe path before its end. */
  lemma RemoveKeepsReachableIff(m: nat, t: seq<Entry>, hash: Hash, p: nat)
    requires |t| == Pow2(m) && Reachable(t, hash) && p < |t| && t[p].address != HASH_EMPTY
    ensures Reachable(t[p := FREE], hash) <==>
              forall s :: 0 <= s < |t| && s != p && t[s].address != HASH_EMPTY ==> !OnPrefix(t, hash, t[s].address, p)
  {
    var u := t[p := FREE];
    forall s | 0 <= s < |t| && s != p && t[s].address != HASH_EMPTY
      ensures Find(u, hash, t[s].address) == s <==> !OnPrefix(t, hash, t[s].address, p)
    {
      RemoveOne(m, t, hash, p, s);
    }
    RemovedReachable(t, hash, p);
  }

  lemma RemovedReachable(t: seq<Entry>, hash: Hash, p: nat)
    requires p < |t|
    ensures Reachable(t[p := FREE], hash) <==>
              forall s :: 0 <= s < |t| && s != p && t[s].address != HASH_EMPTY ==>
                Find(t[p := FREE], hash, t[s].address) == s
  {
    var u := t[p := FREE];
    assert forall s :: 0 <= s < |t| && s != p ==> u[s] == t[s];
  }

  lemma RemoveOne(m: nat, t: seq<Entry>, hash: Hash, p: nat, s: nat)
    requires |t| == Pow2(m) && p < |t| && s < |t| && s != p
    requires t[s].address != HASH_EMPTY && t[p].address != HASH_EMPTY && Find(t, hash, t[s].address) == s
    ensures Find(t[p := FREE], hash, t[s].address) == s <==> !OnPrefix(t, hash, t[s].address, p)
  {
  }

  // ------------------------------------------------------ the table as a map

  /** The count the search for an object leads to. */
  function Lookup(t: seq<Entry>, hash: Hash, obj: nat): nat
    requires |t| > 0
  {
    var e := t[Find(t, hash, obj)];
    if e.address == obj then e.pending else 0
  }

  lemma {:induction false} PendingUnique(t: seq<Entry>, s: nat, obj: nat)
    requires s < |t| && t[s].address == obj
    requires forall i :: 0 <= i < |t| && t[i].address == obj ==> i == s
    ensures PendingOf(t, obj) == t[s].pending
  {
    if s == 0 {
      PendingAbsent(t[1..], obj);
    } else {
      PendingUnique(t[1..], s - 1, obj);
    }
  }

  lemma {:induction false} PendingSplit(t: seq<Entry>, a: nat, b: nat, obj: nat)
    requires a < b < |t| && t[a].address == obj && t[b].address == obj
    ensures PendingOf(t, obj) >= t[a].pending + t[b].pending
  {
    if a == 0 {
      PendingPositive(t[1..], b - 1, obj);
    } else {
      PendingSplit(t[1..], a - 1, b - 1, obj);
    }
  }

  /** While every stored address is reachable the lookup gives every object its whole pending count. */
  lemma LookupIsPending(t: seq<Entry>, hash: Hash, obj: nat)
    requires |t| > 0 && Reachable(t, hash) && obj != HASH_EMPTY
    ensures Lookup(t, hash, obj) == PendingOf(t, obj)
  {
    var f := Find(t, hash, obj);
    if t[f].address == obj {
      PendingUnique(t, f, obj);
    } else {
      PendingAbsent(t, obj);
    }
  }

  /** An address that is not where its search ends makes the lookup miss part of its count. */
  lemma UnreachableIsMissed(t: seq<Entry>, hash: Hash, size: nat, s: nat)
    requires |t| > 0 && WellCounted(t, size) && s < |t| && t[s].address != HASH_EMPTY
    requires Find(t, hash, t[s].address) != s
    ensures Lookup(t, hash, t[s].address) < PendingOf(t, t[s].address)
  {
    var obj := t[s].address;
    var f := Find(t, hash, obj);
    PendingPositive(t, s, obj);
    if t[f].address == obj {
      if f < s { PendingSplit(t, f, s, obj); } else { PendingSplit(t, s, f, obj); }
    }
  }

  /** The table works as a map from object to pending count exactly while every stored address is reachable. */
  lemma MapIffReachable(t: seq<Entry>, hash: Hash, size: nat)
    requires |t| > 0 && WellCounted(t, size)
    ensures Reachable(t, hash) <==> forall obj: nat :: obj != HASH_EMPTY ==> Lookup(t, hash, obj) == PendingOf(t, obj)
  {
    if Reachable(t, hash) {
      forall obj: nat | obj != HASH_EMPTY ensures Lookup(t, hash, obj) == PendingOf(t, obj) {
        LookupIsPending(t, hash, obj);
      }
    } else {
      var s :| 0 <= s < |t| && t[s].address != HASH_EMPTY && Find(t, hash, t[s].address) != s;
      UnreachableIsMissed(t, hash, size, s);
    }
  }

  /** Queueing and dequeueing change that map the way their names say; queueing keeps every address
      reachable, dequeueing does so unless it frees a slot on another address's probe path. */
  lemma QueueKeepsReachable(m: nat, t: seq<Entry>, size: nat, hash: Hash, obj: nat)
    requires |t| == Pow2(m) && Reachable(t, hash) && Ends(t, obj) && obj != HASH_EMPTY
    ensures Reachable(Queue(t, size, hash, obj).table, hash)
  {
    FoundEntry(m, t, hash, obj);
    var offs := Find(t, hash, obj);
    if size != |t| {
      if t[offs].address == HASH_EMPTY {
        InsertKeepsReachable(m, t, hash, obj, (t[offs].pending + 1) % COUNT_MODULUS);
      } else {
        SameKeysKeepReachable(t, Queue(t, size, hash, obj).table, hash);
      }
    }
  }

  /** A dequeue that empties the slot of its object frees it. */
  predicate Frees(t: seq<Entry>, hash: Hash, obj: nat)
    requires |t| > 0
  {
    Lookup(t, hash, obj) == 1
  }

  /** The slot a dequeue would free lies on another stored address's probe path. */
  ghost predicate Cuts(t: seq<Entry>, hash: Hash, obj: nat)
    requires |t| > 0
  {
    && Frees(t, hash, obj)
    && exists s :: 0 <= s < |t| && s != Find(t, hash, obj) && t[s].address != HASH_EMPTY
                   && OnPrefix(t, hash, t[s].address, Find(t, hash, obj))
  }

  lemma DequeueKeepsReachableIff(m: nat, t: seq<Entry>, size: nat, hash: Hash, obj: nat)
    requires |t| == Pow2(m) && Reachable(t, hash) && Ends(t, obj) && obj != HASH_EMPTY && WellCounted(t, size)
    requires forall i :: 0 <= i < |t| ==> t[i].pending < COUNT_MODULUS
    ensures Reachable(Dequeue(t, size, hash, obj).0, hash) <==> !Cuts(t, hash, obj)
  {
    FoundEntry(m, t, hash, obj);
    var p := Find(t, hash, obj);
    if t[p].address == obj {
      Remaining(t[p].pending);
      if t[p].pending == 1 {
        RemoveKeepsReachableIff(m, t, hash, p);
      } else {
        SameKeysKeepReachable(t, Dequeue(t, size, hash, obj).0, hash);
      }
    }
  }

  /** The search in a table of two slots that starts at the first. */
  lemma FindInTwo(t: seq<Entry>, hash: Hash, obj: nat)
    requires |t| == 2 && hash(obj) == 0
    requires Stops(Keys(t), obj, 0) || Stops(Keys(t), obj, 1)
    ensures Find(t, hash, obj) == if Stops(Keys(t), obj, 0) then 0 else 1
  {
    SlotOfTwo(Keys(t), obj);
  }

  /** Two objects with the same hash in a table of two: once the first one's count is used up, the second one's cannot be
      found, although it is still in the table. */
  lemma CutHidesPending(hash: Hash)
    requires hash(1) == 0 && hash(2) == 0
    ensures var both := [Entry(1, 1), Entry(2, 1)];
            var cut := Dequeue(both, 2, hash, 1);
            && Queue([Entry(1, 1), FREE], 1, hash, 2) == Outcome(both, 2, true)
            && cut.2 && PendingOf(cut.0, 2) == 1
            && !Dequeue(cut.0, cut.1, hash, 2).2
  {
    var one, both, left := [Entry(1, 1), FREE], [Entry(1, 1), Entry(2, 1)], [FREE, Entry(2, 1)];
    FindInTwo(one, hash, 2);
    FindInTwo(both, hash, 1);
    FindInTwo(left, hash, 2);
    assert one[1 := Entry(2, 1)] == both && both[0 := FREE] == left;
    assert left[1..] == [Entry(2, 1)] && left[1..][1..] == [];
    assert PendingOf(left, 2) == PendingOf(left[1..], 2);
  }

  lemma OneFree(t: seq<Entry>, obj: nat)
    requires |t| == 1 && t[0] == FREE
    ensures Occupied(t) == 0 && PendingOf(t, obj) == 0
  {
    assert t[1..] == [];
  }

  /** One notification more than a 32-bit count can hold: the count is zero, and so is what is pending, while the slot stays
      taken. */
  lemma CountWraps(hash: Hash)
    requires hash(1) == 0
    ensures var full := [Entry(1, COUNT_MODULUS - 1), FREE];
            var o := Queue(full, 1, hash, 1);
            && WellCounted(full, 1)
            && o == Outcome([Entry(1, 0), FREE], 1, true) && PendingOf(o.table, 1) == 0 && !WellCounted(o.table, o.size)
  {
    var full, wrapped := [Entry(1, COUNT_MODULUS - 1), FREE], [Entry(1, 0), FREE];
    FindInTwo(full, hash, 1);
    assert full[0 := Entry(1, 0)] == wrapped;
    assert full[1..] == [FREE] && wrapped[1..] == [FREE];
    OneFree([FREE], 1);
    assert Occupied(full) == 1 + Occupied([FREE]) && Occupied(wrapped) == 1 + Occupied([FREE]);
    assert PendingOf(wrapped, 1) == 0 + PendingOf([FREE], 1);
    assert wrapped[0].address != HASH_EMPTY && wrapped[0].pending == 0;
  }
}
