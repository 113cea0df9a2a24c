/** The byte queue of src/extra/queue_server/queue.c. A ring of fixed-size items refines a
    bounded FIFO, also while a receive is preempted by senders. */
module Queue {

  type Byte = x: int | 0 <= x < 256 witness 0
  type Item = seq<Byte>

  /** Cursors counted in items rather than bytes. */
  datatype Ring = Ring(depth: nat, slots: seq<Item>, w: nat, r: nat, empty: bool)

  predicate ValidRing(q: Ring) {
    q.depth >= 1 && |q.slots| == q.depth && q.w < q.depth && q.r < q.depth
  }

  function Next(q: Ring, i: nat): nat {
    if i + 1 == q.depth then 0 else i + 1
  }

  function At(q: Ring, i: nat): nat {
    if i < q.depth then i else i - q.depth
  }

  function Length(q: Ring): (n: nat)
    requires ValidRing(q)
    ensures n <= q.depth
  {
    if q.w == q.r then (if q.empty then 0 else q.depth)
    else if q.w > q.r then q.w - q.r else q.w + q.depth - q.r
  }

  /** The queued items, oldest first. */
  function Items(q: Ring): (s: seq<Item>)
    requires ValidRing(q)
    ensures |s| == Length(q)
    ensures forall k :: 0 <= k < |s| ==> s[k] == q.slots[At(q, q.r + k)]
  {
    seq(Length(q), k requires 0 <= k < Length(q) => q.slots[At(q, q.r + k)])
  }

  // --------------------------------------------------------- bounded FIFO

  function FifoSend(s: seq<Item>, depth: nat, x: Item): (seq<Item>, bool) {
    if |s| < depth then (s + [x], true) else (s, false)
  }

  /** What is left, whether an item was there, and the item. */
  function FifoReceive(s: seq<Item>): (seq<Item>, bool, Item) {
    if s == [] then (s, false, []) else (s[1..], true, s[0])
  }

  // ------------------------------------------------------ ring operations

  function Full(q: Ring): bool {
    q.w == q.r && !q.empty
  }

  function Send(q: Ring, x: Item): (Ring, bool)
    requires ValidRing(q)
  {
    if Full(q) then (q, false)
    else (q.(slots := q.slots[q.w := x], w := Next(q, q.w), empty := false), true)
  }

  function Receive(q: Ring): (Ring, bool, Item)
    requires ValidRing(q)
  {
    if q.w == q.r && q.empty then (q, false, [])
    else
      var cursor := Next(q, q.r);
      (q.(r := cursor, empty := if cursor == q.w then true else q.empty), true, q.slots[q.r])
  }

  lemma SendIsFifo(q: Ring, x: Item)
    requires ValidRing(q)
    ensures ValidRing(Send(q, x).0)
    ensures (Items(Send(q, x).0), Send(q, x).1) == FifoSend(Items(q), q.depth, x)
  {
    if !Full(q) {
      var t := Send(q, x).0;
      assert Length(t) == Length(q) + 1;
      assert Items(t) == Items(q) + [x];
    }
  }

  lemma ReceiveIsFifo(q: Ring)
    requires ValidRing(q)
    ensures ValidRing(Receive(q).0)
    ensures (Items(Receive(q).0), Receive(q).1, Receive(q).2) == FifoReceive(Items(q))
  {
    if !(q.w == q.r && q.empty) {
      var t := Receive(q).0;
      assert Length(t) == Length(q) - 1;
      assert Items(t) == Items(q)[1..];
    }
  }

  // ------------------------------------------------- items in a byte array

  /** Byte offset of the i-th item. */
  function Offset(i: nat, size: nat): (b: nat)
    ensures i == 0 ==> b == 0
  {
    if i == 0 then 0 else Offset(i - 1, size) + size
  }

  lemma {:induction false} OffsetIsProduct(i: nat, size: nat)
    ensures Offset(i, size) == i * size
  {
    if i > 0 {
      OffsetIsProduct(i - 1, size);
      assert (i - 1) * size + size == i * size;
    }
  }

  lemma {:induction false} OffsetOrder(i: nat, j: nat, size: nat)
    requires i < j
    ensures Offset(i, size) + size <= Offset(j, size)
  {
    if i + 1 < j {
      OffsetOrder(i, j - 1, size);
    }
  }

  lemma OffsetInjective(i: nat, j: nat, size: nat)
    requires size >= 1
    ensures Offset(i, size) == Offset(j, size) <==> i == j
  {
  }

  function ItemAt(bytes: seq<Byte>, i: nat, size: nat): (x: Item)
    requires Offset(i, size) + size <= |bytes|
    ensures |x| == size
  {
    bytes[Offset(i, size)..Offset(i, size) + size]
  }

  /** The first n items in the bytes are those of the slots. */
  ghost predicate HoldsUpTo(bytes: seq<Byte>, slots: seq<Item>, size: nat, n: nat) {
    n == 0 ||
    (n <= |slots| && Offset(n - 1, size) + size <= |bytes|
     && slots[n - 1] == ItemAt(bytes, n - 1, size) && HoldsUpTo(bytes, slots, size, n - 1))
  }

  ghost predicate Holds(bytes: seq<Byte>, slots: seq<Item>, size: nat) {
    HoldsUpTo(bytes, slots, size, |slots|)
  }

  lemma {:induction false} HoldsAt(bytes: seq<Byte>, slots: seq<Item>, size: nat, n: nat, i: nat)
    requires HoldsUpTo(bytes, slots, size, n) && i < n <= |slots|
    ensures Offset(i, size) + size <= Offset(n, size) <= |bytes| && slots[i] == ItemAt(bytes, i, size)
  {
    if i < n - 1 {
      HoldsAt(bytes, slots, size, n - 1, i);
    }
  }

  /** The bytes with x written over them from o on. */
  function Splice(bytes: seq<Byte>, o: nat, x: Item): (after: seq<Byte>)
    requires o + |x| <= |bytes|
    ensures |after| == |bytes|
    ensures forall k :: 0 <= k < |bytes| ==> after[k] == if o <= k < o + |x| then x[k - o] else bytes[k]
  {
    bytes[..o] + x + bytes[o + |x|..]
  }

  /** Storing an item in the bytes of one slot stores it in that slot and in no other. */
  lemma {:induction false} StoreItem(bytes: seq<Byte>, slots: seq<Item>, size: nat, w: nat, x: Item, n: nat)
    requires HoldsUpTo(bytes, slots, size, n) && w < |slots| && |x| == size && n <= |slots|
    requires Offset(w, size) + size <= |bytes|
    ensures HoldsUpTo(Splice(bytes, Offset(w, size), x), slots[w := x], size, n)
  {
    if n > 0 {
      StoredItem(bytes, size, w, x, n - 1);
      StoreItem(bytes, slots, size, w, x, n - 1);
    }
  }

  lemma StoredItem(bytes: seq<Byte>, size: nat, w: nat, x: Item, i: nat)
    requires Offset(w, size) + size <= |bytes| && Offset(i, size) + size <= |bytes| && |x| == size
    ensures ItemAt(Splice(bytes, Offset(w, size), x), i, size) == if i == w then x else ItemAt(bytes, i, size)
  {
    if i < w {
      OffsetOrder(i, w, size);
    } else if w < i {
      OffsetOrder(w, i, size);
    }
  }

  lemma ModWrap(x: nat, limit: nat)
    requires x <= limit && limit > 0
    ensures x % limit == if x == limit then 0 else x
  {
  }

  method SizeLimit(depth: nat, itemSize: nat) returns (bytes: nat)
    ensures bytes == Offset(depth, itemSize)
  {
    OffsetIsProduct(depth, itemSize);
    bytes := depth * itemSize;
  }

  /** The byte loop of a send: fills a slot and returns the cursor behind it. */
  method PutBytes(content: array<Byte>, start: nat, data: seq<Byte>, sizeLimit: nat) returns (cursor: nat)
    requires start + |data| <= sizeLimit <= content.Length && data != []
    modifies content
    ensures cursor == if start + |data| == sizeLimit then 0 else start + |data|
    ensures content[..] == Splice(old(content[..]), start, data)
  {
    cursor := start;
    var q := 0;
    while q < |data|
      invariant 0 <= q <= |data|
      invariant cursor == if start + q == sizeLimit then 0 else start + q
      invariant forall k :: 0 <= k < content.Length ==>
                  content[k] == if start <= k < start + q then data[k - start] else old(content[k])
    {
      content[cursor] := data[q];
      ModWrap(cursor + 1, sizeLimit);
      cursor := (cursor + 1) % sizeLimit;
      q := q + 1;
    }
  }

  /** The byte loop of a receive: copies a slot and returns the cursor behind it. */
  method GetBytes(content: array<Byte>, start: nat, data: array<Byte>, sizeLimit: nat) returns (cursor: nat)
    requires start + data.Length <= sizeLimit <= content.Length && data.Length >= 1 && data != content
    modifies data
    ensures cursor == if start + data.Length == sizeLimit then 0 else start + data.Length
    ensures data[..] == content[start..start + data.Length]
  {
    cursor := start;
    var q := 0;
    while q < data.Length
      invariant 0 <= q <= data.Length
      invariant cursor == if start + q == sizeLimit then 0 else start + q
      invariant forall k :: 0 <= k < q ==> data[k] == content[start + k]
    {
      data[q] := content[cursor];
      ModWrap(cursor + 1, sizeLimit);
      cursor := (cursor + 1) % sizeLimit;
      q := q + 1;
    }
  }

  // ------------------------------------------------------------ the class

  /** struct Queue with its trailing storage. */
  class Queue {
    var writeCursor: nat
    var readCursor: nat
    var empty: bool
    var depth: nat
    var itemSize: nat
    const content: array<Byte>

    /** The ring the bytes stand for. */
    ghost var ring: Ring

    ghost predicate Valid()
      reads this, content
    {
      && ValidRing(ring) && ring.depth == depth <= 255 && ring.empty == empty
      && 1 <= itemSize <= 255
      && Holds(content[..], ring.slots, itemSize)
      && writeCursor == Offset(ring.w, itemSize)
      && readCursor == Offset(ring.r, itemSize)
    }

    constructor (storage: array<Byte>)
      ensures content == storage
    {
      content := storage;
    }

    /** queue_init; the storage must hold depth items, which the caller sees to. */
    method Init(depth: nat, itemSize: nat) returns (ok: bool)
      requires depth <= 255 && itemSize <= 255 && depth * itemSize <= content.Length
      modifies this
      ensures ok
      ensures this.depth == depth && this.itemSize == itemSize
      ensures depth >= 1 && itemSize >= 1 ==> Valid() && Items(ring) == []
    {
      ProductRange(depth, itemSize);
      var allocSize := depth * itemSize;
      if allocSize > 65535 {
        return false;
      }
      empty := true;
      writeCursor := 0;
      readCursor := 0;
      this.itemSize := itemSize;
      this.depth := depth;
      OffsetIsProduct(depth, itemSize);
      SlotsHeld(content[..], depth, itemSize, depth);
      ring := Ring(depth, SlotsOf(content[..], depth, itemSize), 0, 0, true);
      return true;
    }

    method QueueEmpty() returns (b: bool)
      requires Valid()
      ensures b <==> Items(ring) == []
    {
      OffsetInjective(ring.w, ring.r, itemSize);
      b := writeCursor == readCursor && empty;
    }

    method QueueFull() returns (b: bool)
      requires Valid()
      ensures b <==> |Items(ring)| == depth
    {
      OffsetInjective(ring.w, ring.r, itemSize);
      b := writeCursor == readCursor && !empty;
    }

    /** queue_send_silent. */
    method SendSilent(data: seq<Byte>) returns (ok: bool)
      requires Valid() && |data| == itemSize
      modifies this, content
      ensures Valid() && depth == old(depth) && itemSize == old(itemSize)
      ensures (ring, ok) == Send(old(ring), data)
      ensures (Items(ring), ok) == FifoSend(old(Items(ring)), depth, data)
    {
      SendIsFifo(ring, data);
      OffsetInjective(ring.w, ring.r, itemSize);
      if readCursor == writeCursor && !empty {
        return false;
      }
      HoldsAt(content[..], ring.slots, itemSize, depth, ring.w);
      NextOffset(ring.w, depth, itemSize);
      StoreItem(content[..], ring.slots, itemSize, ring.w, data, depth);
      var sizeLimit := SizeLimit(depth, itemSize);
      ghost var after := ring.(slots := ring.slots[ring.w := data], w := Next(ring, ring.w), empty := false);
      assert Send(ring, data) == (after, true);
      var cursor := PutBytes(content, writeCursor, data, sizeLimit);
      writeCursor := cursor;
      empty := false;
      ring := after;
      return true;
    }

    /** queue_receive_timeout after wait_for_object has returned; timedOut is E_TIMEOUT. */
    method ReceiveTimeout(data: array<Byte>, timedOut: bool) returns (ok: bool)
      requires Valid() && data.Length == itemSize && data != content
      modifies this, data
      ensures Valid() && depth == old(depth) && itemSize == old(itemSize)
      ensures timedOut ==> !ok && ring == old(ring) && data[..] == old(data[..])
      ensures !timedOut ==> ring == Receive(old(ring)).0 && ok == Receive(old(ring)).1
      ensures !timedOut ==> Items(ring) == FifoReceive(old(Items(ring))).0 && (ok <==> old(Items(ring)) != [])
      ensures ok ==> data[..] == old(Items(ring))[0]
    {
      ReceiveIsFifo(ring);
      if timedOut {
        return false;
      }
      var isEmpty := QueueEmpty();
      if isEmpty {
        return false;
      }
      HoldsAt(content[..], ring.slots, itemSize, depth, ring.r);
      NextOffset(ring.r, depth, itemSize);
      var sizeLimit := SizeLimit(depth, itemSize);
      var cursor := GetBytes(content, readCursor, data, sizeLimit);
      OffsetInjective(Next(ring, ring.r), ring.w, itemSize);
      if cursor == writeCursor {
        empty := true;
      }
      readCursor := cursor;
      ring := Receive(ring).0;
      return true;
    }
  }

  function SlotsOf(bytes: seq<Byte>, depth: nat, size: nat): (slots: seq<Item>)
    requires Offset(depth, size) <= |bytes|
    ensures |slots| == depth
    ensures forall i :: 0 <= i < depth ==> Offset(i, size) + size <= |bytes| && slots[i] == ItemAt(bytes, i, size)
  {
    if depth == 0 then [] else SlotsOf(bytes, depth - 1, size) + [ItemAt(bytes, depth - 1, size)]
  }

  lemma {:induction false} SlotsHeld(bytes: seq<Byte>, depth: nat, size: nat, n: nat)
    requires Offset(depth, size) <= |bytes| && n <= depth
    ensures HoldsUpTo(bytes, SlotsOf(bytes, depth, size), size, n)
  {
    if n > 0 {
      SlotsHeld(bytes, depth, size, n - 1);
    }
  }

  lemma ProductRange(depth: nat, size: nat)
    requires depth <= 255 && size <= 255
    ensures depth * size <= 65025
  {
    assert (255 - depth) * size >= 0;
    assert (255 - depth) * size == 255 * size - depth * size;
  }

  lemma NextOffset(i: nat, depth: nat, size: nat)
    requires i < depth && size >= 1
    ensures Offset(if i + 1 == depth then 0 else i + 1, size)
         == if Offset(i, size) + size == Offset(depth, size) then 0 else Offset(i, size) + size
  {
    if i + 1 < depth {
      OffsetOrder(i + 1, depth, size);
    }
  }
}
