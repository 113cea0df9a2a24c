/** queue_receive_timeout preempted between any two of its memory accesses by senders
    that run to completion (src/extra/queue_server/queue.c). */
module QueuePreemption {
  import opened Queue

  /** Where the receiver stands; `got` holds the bytes it has copied. */
  datatype Pc =
    | Idle
    | LoadWrite
    | CompareRead(seen: nat)
    | LoadEmpty
    | Copy(got: Item)
    | CompareWrite(got: Item)
    | SetEmpty(got: Item)
    | SetRead(got: Item)

  /** `accepted` and `delivered` list the items of successful sends and receives. `early` says that
      a send succeeded between the receiver's cursor comparison and its setting of the flag, `late` that one
      succeeded between that and the storing of the read cursor. */
  datatype System = System(q: Ring, size: nat, pc: Pc, early: bool, late: bool, accepted: seq<Item>, delivered: seq<Item>)

  datatype Event = Call | Step | Put(x: Item)

  predicate Enabled(s: System, e: Event) {
    match e
    case Call => s.pc.Idle?
    case Step => !s.pc.Idle?
    case Put(x) => |x| == s.size
  }

  /** One memory access of the receiver. */
  function Advance(s: System): System
    requires ValidSystem(s) && !s.pc.Idle?
  {
    match s.pc
    case LoadWrite => s.(pc := CompareRead(s.q.w))
    case CompareRead(seen) => s.(pc := if seen == s.q.r then LoadEmpty else Copy([]))
    case LoadEmpty => s.(pc := if s.q.empty then Idle else Copy([]))
    case Copy(got) =>
      if |got| < s.size then s.(pc := Copy(got + [s.q.slots[s.q.r][|got|]])) else s.(pc := CompareWrite(got))
    case CompareWrite(got) =>
      if Next(s.q, s.q.r) == s.q.w then s.(pc := SetEmpty(got), early := false, late := false)
      else s.(pc := SetRead(got), early := false, late := false)
    case SetEmpty(got) => s.(q := s.q.(empty := true), pc := SetRead(got))
    case SetRead(got) => s.(q := Read(s.q), pc := Idle, delivered := s.delivered + [got])
  }

  /** The ring once the read cursor has been stored. */
  function Read(q: Ring): Ring {
    q.(r := Next(q, q.r))
  }

  function Apply(s: System, e: Event): System
    requires ValidSystem(s) && Enabled(s, e)
  {
    match e
    case Call => s.(pc := LoadWrite)
    case Step => Advance(s)
    case Put(x) =>
      var (q, ok) := Send(s.q, x);
      if !ok then s
      else s.(q := q, accepted := s.accepted + [x], early := s.early || s.pc.SetEmpty?, late := s.late || s.pc.SetRead?)
  }

  predicate ValidSystem(s: System) {
    && ValidRing(s.q)
    && s.size >= 1
    && forall i :: 0 <= i < |s.q.slots| ==> |s.q.slots[i]| == s.size
  }

  /** The flag or a sender that trusted it already shows the item as gone, although the read cursor does not. */
  predicate Taken(s: System) {
    && s.pc.SetRead?
    && ((s.q.w == s.q.r && s.q.empty) || (s.q.w == Next(s.q, s.q.r) && !s.q.empty))
  }

  /** Items still to be received. */
  function Contents(s: System): seq<Item>
    requires ValidSystem(s)
  {
    if Taken(s) then Items(Read(s.q)) else Items(s.q)
  }

  /** The item already taken out but not yet handed over. */
  function InFlight(s: System): seq<Item> {
    if Taken(s) then [s.pc.got] else []
  }

  /** Another send would be let in although the queue is full. */
  predicate Hazard(s: System) {
    s.pc.SetRead? && s.q.depth >= 2 && s.q.w == Next(s.q, s.q.r) && !s.q.empty
  }

  ghost predicate PcInv(s: System)
    requires ValidSystem(s)
  {
    var q := s.q;
    match s.pc
    case Idle => true
    case LoadWrite => true
    case CompareRead(seen) =>
      && (seen != q.r ==> Items(q) != [])
      && (seen == q.r && q.empty ==> q.w == q.r)
    case LoadEmpty => q.empty ==> q.w == q.r
    case Copy(got) => Items(q) != [] && |got| <= s.size && got == q.slots[q.r][..|got|]
    case CompareWrite(got) => Items(q) != [] && got == q.slots[q.r]
    case SetEmpty(got) => Items(q) != [] && got == q.slots[q.r] && !s.late && (!s.early ==> q.w == Next(q, q.r))
    case SetRead(got) =>
      if Taken(s) then (q.depth >= 2 ==> s.early) && (!q.empty ==> s.late)
      else Items(q) != [] && got == q.slots[q.r] && (Length(q) >= 2 || q.empty)
  }

  /** No item is lost, duplicated, reordered or overwritten: the accepted items are the delivered ones
      followed by the one in flight and by the queued ones. */
  ghost predicate Inv(s: System) {
    && ValidSystem(s)
    && PcInv(s)
    && s.accepted == s.delivered + InFlight(s) + Contents(s)
  }

  lemma PutKeepsInv(s: System, x: Item)
    requires Inv(s) && |x| == s.size && !Hazard(s)
    ensures Inv(Apply(s, Put(x)))
    ensures (Contents(Apply(s, Put(x))), Apply(s, Put(x)) != s) == FifoSend(Contents(s), s.q.depth, x)
  {
    var t := Apply(s, Put(x));
    SendIsFifo(s.q, x);
    if Send(s.q, x).1 {
      assert |t.accepted| == |s.accepted| + 1;
      if Taken(s) {
        PutTaken(s, x);
      } else {
        assert Items(t.q) == Items(s.q) + [x];
      }
      assert Contents(t) == Contents(s) + [x];
      assert InFlight(t) == InFlight(s);
    }
  }

  /** The slot being freed takes one more item, no matter that the read cursor still names it. */
  lemma PutTaken(s: System, x: Item)
    requires ValidSystem(s) && Taken(s) && !Hazard(s) && Send(s.q, x).1
    ensures var q := Send(s.q, x).0;
            q.w == Next(q, q.r) && !q.empty && Items(Read(q)) == Items(Read(s.q)) + [x]
            && |Items(Read(s.q))| < s.q.depth
  {
  }

  lemma AdvanceKeepsInv(s: System)
    requires Inv(s) && !s.pc.Idle?
    ensures Inv(Advance(s))
    ensures Advance(s).accepted == s.accepted
    // A receive gives up only at a moment when nothing is queued.
    ensures Advance(s).pc.Idle? && Advance(s).delivered == s.delivered ==> Contents(s) == []
  {
    match s.pc {
      case SetEmpty(got) => FlagKeepsInv(s);
      case SetRead(got) => ReadKeepsInv(s);
      case Copy(got) => CopyKeepsInv(s);
      case CompareWrite(got) => CompareKeepsInv(s);
      case _ =>
    }
  }

  lemma CopyKeepsInv(s: System)
    requires Inv(s) && s.pc.Copy?
    ensures Inv(Advance(s)) && !Advance(s).pc.Idle?
  {
    if |s.pc.got| == s.size {
      assert s.q.slots[s.q.r][..s.size] == s.q.slots[s.q.r];
    }
  }

  lemma CompareKeepsInv(s: System)
    requires Inv(s) && s.pc.CompareWrite?
    ensures Inv(Advance(s)) && !Advance(s).pc.Idle?
  {
    if Next(s.q, s.q.r) != s.q.w {
      assert Length(s.q) >= 2;
    }
  }

  lemma FlagKeepsItems(s: System)
    requires ValidSystem(s) && PcInv(s) && s.pc.SetEmpty?
    ensures var t := Advance(s); ValidSystem(t) && PcInv(t) && [] + Items(s.q) == InFlight(t) + Contents(t)
  {
    var t := Advance(s);
    if s.q.w == s.q.r {
      assert Items(s.q) == [s.pc.got] + Items(Read(t.q));
    } else {
      assert Items(t.q) == Items(s.q);
    }
  }

  lemma FlagKeepsInv(s: System)
    requires Inv(s) && s.pc.SetEmpty?
    ensures Inv(Advance(s))
  {
    var t := Advance(s);
    FlagKeepsItems(s);
    assert InFlight(s) == [] && Contents(s) == Items(s.q);
    Regroup(s.delivered, [], Items(s.q), InFlight(t), Contents(t));
    assert t.delivered + InFlight(t) + [] == t.delivered + InFlight(t);
  }

  /** Until the read cursor is stored the item handed over comes before what the stored cursor will leave. */
  lemma HandedOverFirst(s: System)
    requires ValidSystem(s) && PcInv(s) && s.pc.SetRead?
    ensures InFlight(s) + Contents(s) == [s.pc.got] + Items(Read(s.q))
  {
    if !Taken(s) {
      assert Items(s.q) == [s.pc.got] + Items(Read(s.q));
    }
  }

  lemma ReadKeepsInv(s: System)
    requires Inv(s) && s.pc.SetRead?
    ensures Inv(Advance(s))
  {
    HandedOverFirst(s);
    Regroup(s.delivered, InFlight(s), Contents(s), [s.pc.got], Items(Read(s.q)));
  }

  lemma Regroup<T>(a: seq<T>, b: seq<T>, c: seq<T>, d: seq<T>, e: seq<T>)
    requires b + c == d + e
    ensures a + b + c == a + d + [] + e
  {
    assert a + b + c == a + (b + c);
    assert a + d + [] + e == a + (d + e);
  }

  lemma ApplyKeepsInv(s: System, e: Event)
    requires Inv(s) && Enabled(s, e) && (e.Put? ==> !Hazard(s))
    ensures Inv(Apply(s, e))
  {
    match e {
      case Call =>
      case Step => AdvanceKeepsInv(s);
      case Put(x) => PutKeepsInv(s, x);
    }
  }

  ghost predicate ValidRun(s: System, es: seq<Event>)
    decreases |es|
  {
    es == [] ||
    (Enabled(s, es[0]) && ValidSystem(s) && (es[0].Put? ==> !Hazard(s)) && ValidRun(Apply(s, es[0]), es[1..]))
  }

  ghost function Run(s: System, es: seq<Event>): System
    requires ValidRun(s, es)
    decreases |es|
  {
    if es == [] then s else Run(Apply(s, es[0]), es[1..])
  }

  ghost predicate IsInit(s: System) {
    && ValidSystem(s)
    && s.q.w == s.q.r == 0 && s.q.empty
    && s.pc.Idle? && s.accepted == [] && s.delivered == []
  }

  lemma {:induction false} RunKeepsInv(s: System, es: seq<Event>)
    requires Inv(s) && ValidRun(s, es)
    ensures Inv(Run(s, es))
    decreases |es|
  {
    if es != [] {
      ApplyKeepsInv(s, es[0]);
      RunKeepsInv(Apply(s, es[0]), es[1..]);
    }
  }

  /** Every run of receives, each interrupted by sends between any two of its memory accesses, is a run
      of a bounded FIFO: what was accepted is what was delivered, in order, followed by what is queued. */
  lemma PreemptedQueueIsFifo(s: System, es: seq<Event>)
    requires IsInit(s) && ValidRun(s, es)
    ensures var t := Run(s, es);
            && ValidSystem(t)
            && t.accepted == t.delivered + InFlight(t) + Contents(t)
            && |Contents(t)| <= t.q.depth
            && (t.pc.Idle? ==> t.accepted == t.delivered + Items(t.q))
  {
    RunKeepsInv(s, es);
  }

  lemma HazardMetTwice(s: System)
    requires Inv(s)
    ensures Hazard(s) ==> s.early && s.late
  {
  }

  /** The hazard needs a send before and a send after the flag is set within one receive. */
  lemma HazardNeedsBothPoints(s: System, es: seq<Event>)
    requires IsInit(s) && ValidRun(s, es) && Hazard(Run(s, es))
    ensures Run(s, es).early && Run(s, es).late
  {
    RunKeepsInv(s, es);
    HazardMetTwice(Run(s, es));
  }

  /** No send comes to a receive that sends have already met both before and after it set the flag. */
  ghost predicate OnePointRun(s: System, es: seq<Event>)
    decreases |es|
  {
    es == [] ||
    (Enabled(s, es[0]) && ValidSystem(s) && (es[0].Put? ==> !(s.pc.SetRead? && s.early && s.late)) &&
     OnePointRun(Apply(s, es[0]), es[1..]))
  }

  /** A run whose receives are each interrupted at one of the two points only is never exposed to the hazard, so that it is
      a run of a bounded FIFO without any condition on what the queue holds. */
  lemma {:induction false} OnePointIsFifo(s: System, es: seq<Event>)
    requires Inv(s) && OnePointRun(s, es)
    ensures ValidRun(s, es) && Inv(Run(s, es))
    decreases |es|
  {
    if es != [] {
      HazardMetTwice(s);
      ApplyKeepsInv(s, es[0]);
      OnePointIsFifo(Apply(s, es[0]), es[1..]);
    }
  }

  /** A send in the hazard is accepted by a full queue, and once the receive is over exactly the whole
      depth of the queue has been lost. */
  lemma HazardLosesItems(s: System, x: Item)
    requires Inv(s) && Hazard(s) && |x| == s.size
    ensures |Contents(s)| == s.q.depth && Send(s.q, x).1
    ensures var t := Advance(Apply(s, Put(x)));
            |t.accepted| == |t.delivered| + |Items(t.q)| + t.q.depth
  {
  }

  /** The hazard is reachable: two slots, one queued item, one send before and one after the flag is set. */
  lemma HazardIsReachable() returns (s: System, es: seq<Event>)
    ensures IsInit(s) && ValidRun(s, es) && Hazard(Run(s, es))
  {
    s := System(Ring(2, [[0], [0]], 0, 0, true), 1, Idle, false, false, [], []);
    es := [Put([1]), Call, Step, Step, Step, Step, Step, Put([2]), Step, Put([3])];
    var s1 := Apply(s, Put([1]));
    var s2 := Apply(s1, Call);
    var s3 := Advance(s2);
    var s4 := Advance(s3);
    assert s4.pc == Copy([]);
    var s5 := Advance(s4);
    assert s5.pc == Copy([1]) by { assert [] + [1] == [1]; }
    var s6 := Advance(s5);
    var s7 := Advance(s6);
    assert s7.pc.SetEmpty?;
    var s8 := Apply(s7, Put([2]));
    var s9 := Advance(s8);
    var s10 := Apply(s9, Put([3]));
    assert Hazard(s10);
    RunStep(s9, Put([3]), []);
    RunStep(s8, Step, [Put([3])]);
    RunStep(s7, Put([2]), [Step, Put([3])]);
    RunStep(s6, Step, [Put([2]), Step, Put([3])]);
    RunStep(s5, Step, [Step, Put([2]), Step, Put([3])]);
    RunStep(s4, Step, [Step, Step, Put([2]), Step, Put([3])]);
    RunStep(s3, Step, [Step, Step, Step, Put([2]), Step, Put([3])]);
    RunStep(s2, Step, [Step, Step, Step, Step, Put([2]), Step, Put([3])]);
    RunStep(s1, Call, [Step, Step, Step, Step, Step, Put([2]), Step, Put([3])]);
    RunStep(s, Put([1]), [Call, Step, Step, Step, Step, Step, Put([2]), Step, Put([3])]);
  }

  lemma RunStep(s: System, e: Event, rest: seq<Event>)
    requires Enabled(s, e) && ValidSystem(s) && (e.Put? ==> !Hazard(s)) && ValidRun(Apply(s, e), rest)
    ensures ValidRun(s, [e] + rest) && Run(s, [e] + rest) == Run(Apply(s, e), rest)
  {
  }

  // ---------------------------------------------- a receive left alone

  /** Memory accesses still ahead of the receiver. */
  function Rank(s: System): nat {
    match s.pc
    case Idle => 0
    case SetRead(_) => 1
    case SetEmpty(_) => 2
    case CompareWrite(_) => 3
    case Copy(got) => if |got| < s.size then 4 + s.size - |got| else 4
    case LoadEmpty => 5 + s.size
    case CompareRead(_) => 6 + s.size
    case LoadWrite => 7 + s.size
  }

  function Alone(s: System): System
    requires ValidSystem(s)
    decreases Rank(s)
  {
    if s.pc.Idle? then s else Alone(Advance(s))
  }

  lemma {:induction false} CopyAlone(s: System)
    requires ValidSystem(s) && s.pc.Copy? && |s.pc.got| <= s.size && s.pc.got == s.q.slots[s.q.r][..|s.pc.got|]
    ensures Alone(s) == Alone(s.(pc := CompareWrite(s.q.slots[s.q.r])))
    decreases s.size - |s.pc.got|
  {
    if |s.pc.got| < s.size {
      CopyAlone(Advance(s));
    } else {
      assert s.q.slots[s.q.r][..s.size] == s.q.slots[s.q.r];
    }
  }

  /** Without preemption the memory accesses add up to the whole receive. */
  lemma AloneIsReceive(s: System)
    requires ValidSystem(s) && s.pc.LoadWrite?
    ensures var (q, ok, x) := Receive(s.q);
            && Alone(s).q == q
            && Alone(s).delivered == if ok then s.delivered + [x] else s.delivered
  {
    var s1 := Advance(s);
    var s2 := Advance(s1);
    if s2.pc.LoadEmpty? {
      var s3 := Advance(s2);
      assert Alone(s) == Alone(s1) == Alone(s2) == Alone(s3);
      if !s.q.empty {
        FinishAlone(s3);
      }
    } else {
      assert Alone(s) == Alone(s1) == Alone(s2);
      FinishAlone(s2);
    }
  }

  lemma FinishAlone(s: System)
    requires ValidSystem(s) && s.pc == Copy([]) && !(s.q.w == s.q.r && s.q.empty)
    ensures Alone(s).q == Receive(s.q).0 && Alone(s).delivered == s.delivered + [Receive(s.q).2]
  {
    CopyAlone(s);
    var s1 := s.(pc := CompareWrite(s.q.slots[s.q.r]));
    var s2 := Advance(s1);
    var s3 := Advance(s2);
    if s2.pc.SetEmpty? {
      assert Alone(s1) == Alone(s2) == Alone(s3) == Alone(Advance(s3));
    } else {
      assert Alone(s1) == Alone(s2) == Alone(s3);
    }
  }
}
