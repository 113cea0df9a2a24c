/** Kernel transactions (src/os/kernel/txn.c): optimistic concurrency with an
    8-bit version counter and one lock. */
module Txn {

  /** Txn_t is an 8-bit rolling counter. */
  const VERSIONS: nat := 256

  type Version = x: int | 0 <= x < VERSIONS witness 0

  datatype TxnType = ReadOnly | ReadWrite

  datatype Counter = Counter(id: Version, locked: bool)

  function Bump(id: Version): Version {
    (id + 1) % VERSIONS
  }

  /** State left by a commit attempt and whether it was granted. */
  function Committed(c: Counter, transaction: Version, kind: TxnType): (Counter, bool) {
    if c.id != transaction then (c, false)
    else if kind == ReadWrite then (Counter(Bump(c.id), true), true)
    else (c, true)
  }

  /** os_txn_current_id and the lock that os_core_lock and os_smp_lock stand for. An entry
      point that takes the lock is only entered when it is free: the others spin. */
  class TransactionManager {
    var currentId: Version
    var locked: bool

    function View(): Counter
      reads this
    {
      Counter(currentId, locked)
    }

    constructor ()
      ensures View() == Counter(0, false)
    {
      currentId, locked := 0, false;
    }

    method Start() returns (rv: Version)
      requires !locked
      modifies this
      ensures View() == old(View()) && rv == currentId
    {
      locked := true;
      rv := currentId;
      locked := false;
    }

    method Commit(transaction: Version, kind: TxnType) returns (ok: bool)
      requires !locked
      modifies this
      ensures (View(), ok) == Committed(old(View()), transaction, kind)
    {
      locked := true;
      if currentId == transaction {
        if kind == ReadWrite {
          currentId := (currentId + 1) % VERSIONS;
        } else {
          locked := false;
        }
        return true;
      }
      locked := false;
      return false;
    }

    method StartCommit()
      requires !locked
      modifies this
      ensures (View(), true) == Committed(old(View()), old(currentId), ReadWrite)
    {
      locked := true;
      currentId := (currentId + 1) % VERSIONS;
    }

    method Done()
      requires locked
      modifies this
      ensures View() == old(View()).(locked := false)
    {
      locked := false;
    }
  }

  // ------------------------------------------------- interleaved agents

  type Memory = map<nat, int>

  function Read(mem: Memory, loc: nat): int {
    if loc in mem then mem[loc] else 0
  }

  /** What an agent does next. The shared memory may be loaded at any time. */
  datatype Command = Load(loc: nat) | Commit(kind: TxnType) | Store(loc: nat, val: int) | Done

  /** A transaction decides its next command from the values it has seen so far. */
  type Program = seq<int> -> Command

  /** An agent outside any transaction, between start and commit, or between commit and done.
      `since` and `snapshot` record how many read-write commits had been granted, and what
      the shared memory held, when the transaction started. */
  datatype Agent =
    | Idle
    | Reading(program: Program, handle: Version, log: seq<int>, since: nat, snapshot: Memory)
    | Writing(program: Program, log: seq<int>)

  /** A transaction that has finished, with everything it saw. */
  datatype Finished = Finished(program: Program, log: seq<int>)

  /** `commits` counts the read-write commits granted; `finished` lists the finished transactions in commit order. */
  datatype State = State(c: Counter, mem: Memory, agents: seq<Agent>, commits: nat, finished: seq<Finished>)

  datatype Action = Begin(a: nat, p: Program) | BeginCommit(a: nat, p: Program) | Advance(a: nat) | Abandon(a: nat)

  ghost predicate Enabled(s: State, act: Action) {
    && act.a < |s.agents|
    && match act {
         case Begin(a, p) => s.agents[a].Idle? && !s.c.locked
         case BeginCommit(a, p) => s.agents[a].Idle? && !s.c.locked
         case Abandon(a) => s.agents[a].Reading?
         case Advance(a) =>
           match s.agents[a]
           case Idle => false
           // Shared data is written only inside the critical section.
           case Reading(p, h, log, since, snap) => p(log).Load? || (p(log).Commit? && !s.c.locked)
           case Writing(p, log) => !p(log).Commit?
       }
  }

  ghost function Step(s: State, act: Action): State
    requires Enabled(s, act)
  {
    var a := act.a;
    match act
    case Begin(_, p) =>
      s.(agents := s.agents[a := Reading(p, s.c.id, [], s.commits, s.mem)])
    case BeginCommit(_, p) =>
      s.(c := Committed(s.c, s.c.id, ReadWrite).0, agents := s.agents[a := Writing(p, [])], commits := s.commits + 1)
    case Abandon(_) =>
      s.(agents := s.agents[a := Idle])
    case Advance(_) =>
      match s.agents[a]
      case Reading(p, h, log, since, snap) => StepReading(s, a)
      case Writing(p, log) => StepWriting(s, a)
  }

  ghost function StepReading(s: State, a: nat): State
    requires a < |s.agents| && s.agents[a].Reading? && Enabled(s, Advance(a))
  {
    var Reading(p, h, log, since, snap) := s.agents[a];
    match p(log)
    case Load(loc) =>
      s.(agents := s.agents[a := Reading(p, h, log + [Read(s.mem, loc)], since, snap)])
    case Commit(kind) =>
      var (c, ok) := Committed(s.c, h, kind);
      if !ok then s.(agents := s.agents[a := Idle])
      else if kind == ReadOnly then
        s.(c := c, agents := s.agents[a := Idle], finished := s.finished + [Finished(p, log)])
      else
        s.(c := c, agents := s.agents[a := Writing(p, log + [0])], commits := s.commits + 1)
  }

  ghost function StepWriting(s: State, a: nat): State
    requires a < |s.agents| && s.agents[a].Writing? && Enabled(s, Advance(a))
  {
    var Writing(p, log) := s.agents[a];
    match p(log)
    case Load(loc) =>
      s.(agents := s.agents[a := Writing(p, log + [Read(s.mem, loc)])])
    case Store(loc, val) =>
      s.(mem := s.mem[loc := val], agents := s.agents[a := Writing(p, log + [0])])
    case Done =>
      s.(c := s.c.(locked := false), agents := s.agents[a := Idle], finished := s.finished + [Finished(p, log)])
  }

  ghost predicate IsInit(s: State) {
    && s.c == Counter(0, false)
    && s.commits == 0
    && s.finished == []
    && forall a :: 0 <= a < |s.agents| ==> s.agents[a].Idle?
  }

  ghost predicate ValidRun(s: State, acts: seq<Action>)
    decreases |acts|
  {
    acts == [] || (Enabled(s, acts[0]) && ValidRun(Step(s, acts[0]), acts[1..]))
  }

  ghost function Run(s: State, acts: seq<Action>): State
    requires ValidRun(s, acts)
    decreases |acts|
  {
    if acts == [] then s else Run(Step(s, acts[0]), acts[1..])
  }

  // ------------------------------------------- what every run keeps

  /** Agent a is about to attempt a commit. */
  ghost predicate AtCommit(s: State, a: nat) {
    && a < |s.agents|
    && s.agents[a].Reading?
    && Enabled(s, Advance(a))
    && s.agents[a].program(s.agents[a].log).Commit?
  }

  ghost predicate Granted(s: State, a: nat)
    requires AtCommit(s, a)
  {
    s.c.id == s.agents[a].handle
  }

  /** Read-write commits granted since agent a started. */
  ghost function Age(s: State, a: nat): int
    requires a < |s.agents| && s.agents[a].Reading?
  {
    s.commits - s.agents[a].since
  }

  ghost predicate AgentInv(s: State, g: Agent) {
    match g
    case Reading(p, h, log, since, snap) =>
      && h == since % VERSIONS
      && since <= s.commits
      && (since == s.commits ==> s.mem == snap && !s.c.locked)
    case _ => true
  }

  ghost predicate OneWriter(s: State) {
    && (s.c.locked <==> exists a :: 0 <= a < |s.agents| && s.agents[a].Writing?)
    && (forall a, b :: 0 <= a < |s.agents| && 0 <= b < |s.agents| && s.agents[a].Writing? && s.agents[b].Writing? ==> a == b)
  }

  ghost predicate Inv(s: State) {
    && s.c.id == s.commits % VERSIONS
    && OneWriter(s)
    && forall a :: 0 <= a < |s.agents| ==> AgentInv(s, s.agents[a])
  }

  lemma WriterLeaves(s: State, t: State, a: nat)
    requires OneWriter(s) && a < |s.agents| && s.agents[a].Writing?
    requires t.agents == s.agents[a := Idle] && !t.c.locked
    ensures OneWriter(t)
  {
  }

  lemma WriterEnters(s: State, t: State, a: nat, g: Agent)
    requires OneWriter(s) && !s.c.locked && a < |s.agents| && g.Writing?
    requires t.agents == s.agents[a := g] && t.c.locked
    ensures OneWriter(t)
  {
    assert t.agents[a].Writing?;
  }

  lemma WriterStays(s: State, t: State, a: nat, g: Agent)
    requires OneWriter(s) && a < |s.agents| && (g.Writing? <==> s.agents[a].Writing?)
    requires t.agents == s.agents[a := g] && t.c.locked == s.c.locked
    ensures OneWriter(t)
  {
    forall b | 0 <= b < |t.agents| ensures t.agents[b].Writing? <==> s.agents[b].Writing? {
    }
    if s.c.locked {
      var b :| 0 <= b < |s.agents| && s.agents[b].Writing?;
      assert t.agents[b].Writing?;
    }
  }

  lemma StepKeepsInv(s: State, act: Action)
    requires Inv(s) && Enabled(s, act)
    ensures Inv(Step(s, act))
  {
    var t, a := Step(s, act), act.a;
    match act {
      case Begin(_, p) => WriterStays(s, t, a, t.agents[a]);
      case BeginCommit(_, p) => WriterEnters(s, t, a, t.agents[a]);
      case Abandon(_) => WriterStays(s, t, a, t.agents[a]);
      case Advance(_) =>
        if s.agents[a].Writing? && s.agents[a].program(s.agents[a].log).Done? {
          WriterLeaves(s, t, a);
        } else if t.agents[a].Writing? && !s.agents[a].Writing? {
          WriterEnters(s, t, a, t.agents[a]);
        } else {
          WriterStays(s, t, a, t.agents[a]);
        }
    }
    forall b | 0 <= b < |t.agents| ensures AgentInv(t, t.agents[b]) {
      assert AgentInv(s, s.agents[b]);
    }
  }

  lemma {:induction false} RunKeepsInv(s: State, acts: seq<Action>)
    requires Inv(s) && ValidRun(s, acts)
    ensures Inv(Run(s, acts))
    decreases |acts|
  {
    if acts != [] {
      StepKeepsInv(s, acts[0]);
      RunKeepsInv(Step(s, acts[0]), acts[1..]);
    }
  }

  lemma InitInv(s: State)
    requires IsInit(s)
    ensures Inv(s)
  {
  }

  /** In every run a commit is granted exactly when the number of read-write commits since the
      transaction started is a multiple of 256; and when none was granted, or fewer than 256
      and the commit is granted, the shared memory is what it was at the start. */
  lemma CommitSeesStart(s: State, acts: seq<Action>, a: nat)
    requires IsInit(s) && ValidRun(s, acts) && AtCommit(Run(s, acts), a)
    ensures var t := Run(s, acts);
            && 0 <= Age(t, a)
            && (Granted(t, a) <==> Age(t, a) % VERSIONS == 0)
            && (Granted(t, a) && Age(t, a) < VERSIONS ==> t.mem == t.agents[a].snapshot)
  {
    InitInv(s);
    RunKeepsInv(s, acts);
    var t := Run(s, acts);
    assert AgentInv(t, t.agents[a]);
    SameVersion(t.commits, t.agents[a].since);
  }

  lemma SameVersion(commits: nat, since: nat)
    requires since <= commits
    ensures commits % VERSIONS == since % VERSIONS <==> (commits - since) % VERSIONS == 0
  {
  }

  /** The states differ at most in what agent a is doing and in the list of finished transactions. */
  ghost predicate AlikeBut(s: State, t: State, a: nat) {
    && s.c == t.c && s.mem == t.mem && s.commits == t.commits && |s.agents| == |t.agents|
    && forall b :: 0 <= b < |s.agents| && b != a ==> s.agents[b] == t.agents[b]
  }

  lemma StepAlike(s: State, t: State, a: nat, act: Action)
    requires AlikeBut(s, t, a) && act.a != a && Enabled(s, act)
    ensures Enabled(t, act) && AlikeBut(Step(s, act), Step(t, act), a)
  {
  }

  lemma {:induction false} RunAlike(s: State, t: State, a: nat, acts: seq<Action>)
    requires AlikeBut(s, t, a) && ValidRun(s, acts) && forall i :: 0 <= i < |acts| ==> acts[i].a != a
    ensures ValidRun(t, acts) && AlikeBut(Run(s, acts), Run(t, acts), a)
    decreases |acts|
  {
    if acts != [] {
      StepAlike(s, t, a, acts[0]);
      RunAlike(Step(s, acts[0]), Step(t, acts[0]), a, acts[1..]);
    }
  }

  /** A read-only commit, granted or refused, aborts nobody: whatever the other agents could do without it they can do
      after it, and then every transaction of theirs, already open or not, is granted its commit in the one case exactly
      when it is in the other, over the same memory. */
  lemma ReadOnlyAbortsNobody(s: State, a: nat, acts: seq<Action>, b: nat)
    requires AtCommit(s, a) && s.agents[a].program(s.agents[a].log) == Commit(ReadOnly)
    requires b != a && ValidRun(s, acts) && forall i :: 0 <= i < |acts| ==> acts[i].a != a
    ensures var t := Step(s, Advance(a));
            && ValidRun(t, acts)
            && Run(t, acts).mem == Run(s, acts).mem
            && (AtCommit(Run(t, acts), b) <==> AtCommit(Run(s, acts), b))
            && (AtCommit(Run(s, acts), b) ==> (Granted(Run(t, acts), b) <==> Granted(Run(s, acts), b)))
  {
    RunAlike(s, Step(s, Advance(a)), a, acts);
  }

  /** A granted read-write commit aborts every other transaction now in progress that attempts to
      commit before 255 further ones have been granted. */
  lemma ReadWriteAbortsOthers(s: State, a: nat, acts: seq<Action>, b: nat)
    requires Inv(s) && AtCommit(s, a) && s.agents[a].program(s.agents[a].log) == Commit(ReadWrite) && Granted(s, a)
    requires b < |s.agents| && b != a && s.agents[b].Reading? && Age(s, b) < VERSIONS
    requires var t := Step(s, Advance(a));
             ValidRun(t, acts) && AtCommit(Run(t, acts), b) && Run(t, acts).agents[b].since == s.agents[b].since
    requires Age(Run(Step(s, Advance(a)), acts), b) < VERSIONS
    ensures !Granted(Run(Step(s, Advance(a)), acts), b)
  {
    var t := Step(s, Advance(a));
    StepKeepsInv(s, Advance(a));
    RunKeepsInv(t, acts);
    CommitsGrow(t, acts);
    var u := Run(t, acts);
    assert AgentInv(u, u.agents[b]) && AgentInv(s, s.agents[b]);
    SameVersion(u.commits, u.agents[b].since);
  }

  lemma {:induction false} CommitsGrow(s: State, acts: seq<Action>)
    requires ValidRun(s, acts)
    ensures s.commits <= Run(s, acts).commits
    decreases |acts|
  {
    if acts != [] {
      CommitsGrow(Step(s, acts[0]), acts[1..]);
    }
  }

  // -------------------------------------------------- serializability

  /** The first n commands of a program executed alone on a memory. */
  ghost function Exec(p: Program, mem: Memory, n: nat): (seq<int>, Memory) {
    if n == 0 then ([], mem)
    else
      var (log, m) := Exec(p, mem, n - 1);
      match p(log)
      case Load(loc) => (log + [Read(m, loc)], m)
      case Store(loc, val) => (log + [0], m[loc := val])
      case Commit(_) => (log + [0], m)
      case Done => (log, m)
  }

  /** Memory after executing finished transactions one at a time, each alone, in the given order. */
  ghost function Serial(mem: Memory, f: seq<Finished>): Memory {
    if f == [] then mem
    else
      var last := f[|f| - 1];
      Exec(last.program, Serial(mem, f[..|f| - 1]), |last.log|).1
  }

  /** In that serial execution every transaction sees exactly what it saw in the concurrent run. */
  ghost predicate SeesTheSame(mem: Memory, f: seq<Finished>) {
    f == [] ||
    var last := f[|f| - 1];
    && SeesTheSame(mem, f[..|f| - 1])
    && Exec(last.program, Serial(mem, f[..|f| - 1]), |last.log|).0 == last.log
  }

  ghost predicate SerialAgent(s: State, serial: Memory, g: Agent) {
    match g
    case Idle => true
    case Reading(p, h, log, since, snap) => since == s.commits ==> Exec(p, serial, |log|) == (log, serial)
    case Writing(p, log) => Exec(p, serial, |log|) == (log, s.mem)
  }

  ghost predicate Serializable(init: Memory, s: State) {
    && SeesTheSame(init, s.finished)
    && (!s.c.locked ==> s.mem == Serial(init, s.finished))
    && forall a :: 0 <= a < |s.agents| ==> SerialAgent(s, Serial(init, s.finished), s.agents[a])
  }

  /** No commit is granted to a transaction that 256 or more read-write commits have overtaken. */
  ghost predicate Fresh(s: State, act: Action)
    requires Enabled(s, act)
  {
    act.Advance? && AtCommit(s, act.a) && Granted(s, act.a) ==> Age(s, act.a) < VERSIONS
  }

  ghost predicate FreshRun(s: State, acts: seq<Action>)
    requires ValidRun(s, acts)
    decreases |acts|
  {
    acts == [] || (Fresh(s, acts[0]) && FreshRun(Step(s, acts[0]), acts[1..]))
  }

  lemma SerialAppend(init: Memory, f: seq<Finished>, e: Finished)
    ensures Serial(init, f + [e]) == Exec(e.program, Serial(init, f), |e.log|).1
    ensures SeesTheSame(init, f + [e]) <==>
              SeesTheSame(init, f) && Exec(e.program, Serial(init, f), |e.log|).0 == e.log
  {
  }

  /** What one agent's step must leave alone for the other agents. */
  lemma OthersSerial(s: State, t: State, serial: Memory, a: nat)
    requires Inv(s) && a < |s.agents| == |t.agents| && forall b :: 0 <= b < |s.agents| && b != a ==> t.agents[b] == s.agents[b]
    requires forall b :: 0 <= b < |s.agents| ==> SerialAgent(s, serial, s.agents[b])
    requires SerialAgent(t, serial, t.agents[a])
    requires t.mem == s.mem || s.agents[a].Writing?
    requires t.commits >= s.commits
    ensures forall b :: 0 <= b < |t.agents| ==> SerialAgent(t, serial, t.agents[b])
  {
  }

  lemma AdvanceReading(init: Memory, s: State, a: nat)
    requires Inv(s) && Serializable(init, s)
    requires a < |s.agents| && s.agents[a].Reading? && Enabled(s, Advance(a)) && Fresh(s, Advance(a))
    ensures Serializable(init, StepReading(s, a))
  {
    if AtCommit(s, a) && Granted(s, a) {
      assert AgentInv(s, s.agents[a]);
      SameVersion(s.commits, s.agents[a].since);
      match s.agents[a].program(s.agents[a].log).kind {
        case ReadOnly => GrantReadOnly(init, s, a);
        case ReadWrite => GrantReadWrite(init, s, a);
      }
    } else {
      ReadOn(init, s, a);
    }
  }

  lemma GrantReadOnly(init: Memory, s: State, a: nat)
    requires Inv(s) && Serializable(init, s)
    requires a < |s.agents| && s.agents[a].Reading? && Enabled(s, Advance(a)) && AtCommit(s, a) && Granted(s, a)
    requires s.agents[a].program(s.agents[a].log) == Commit(ReadOnly) && s.agents[a].since == s.commits
    ensures Serializable(init, StepReading(s, a))
  {
  }

  lemma GrantReadWrite(init: Memory, s: State, a: nat)
    requires Inv(s) && Serializable(init, s)
    requires a < |s.agents| && s.agents[a].Reading? && Enabled(s, Advance(a)) && AtCommit(s, a) && Granted(s, a)
    requires s.agents[a].program(s.agents[a].log) == Commit(ReadWrite) && s.agents[a].since == s.commits
    ensures Serializable(init, StepReading(s, a))
  {
  }

  lemma ReadOn(init: Memory, s: State, a: nat)
    requires Inv(s) && Serializable(init, s)
    requires a < |s.agents| && s.agents[a].Reading? && Enabled(s, Advance(a)) && !(AtCommit(s, a) && Granted(s, a))
    ensures Serializable(init, StepReading(s, a))
  {
  }

  lemma ExecLoad(p: Program, serial: Memory, log: seq<int>)
    requires p(log).Load? && Exec(p, serial, |log|).0 == log
    ensures var m := Exec(p, serial, |log|).1;
            var next := log + [Read(m, p(log).loc)];
            Exec(p, serial, |next|) == (next, m)
  {
  }

  lemma AdvanceWriting(init: Memory, s: State, a: nat)
    requires Inv(s) && Serializable(init, s)
    requires a < |s.agents| && s.agents[a].Writing? && Enabled(s, Advance(a))
    ensures Serializable(init, StepWriting(s, a))
  {
    var t, serial := StepWriting(s, a), Serial(init, s.finished);
    var Writing(p, log) := s.agents[a];
    assert SerialAgent(s, serial, s.agents[a]);
    if p(log).Done? {
      FinishWriting(init, s, a);
    } else {
      match p(log) {
        case Load(loc) => ExecLoad(p, serial, log);
        case Store(loc, val) => assert Exec(p, serial, |log + [0]|) == (log + [0], s.mem[loc := val]);
      }
      OthersSerial(s, t, serial, a);
    }
  }

  /** Once the writer is done its program has been executed on the serial memory and no reader from before it is left. */
  lemma FinishWriting(init: Memory, s: State, a: nat)
    requires Inv(s) && Serializable(init, s)
    requires a < |s.agents| && s.agents[a].Writing? && Enabled(s, Advance(a)) && s.agents[a].program(s.agents[a].log).Done?
    ensures Serializable(init, StepWriting(s, a))
  {
    var t, serial := StepWriting(s, a), Serial(init, s.finished);
    var Writing(p, log) := s.agents[a];
    assert SerialAgent(s, serial, s.agents[a]);
    SerialAppend(init, s.finished, Finished(p, log));
    forall b | 0 <= b < |t.agents| ensures SerialAgent(t, t.mem, t.agents[b]) {
      assert AgentInv(s, s.agents[b]);
    }
  }

  lemma StepSerializable(init: Memory, s: State, act: Action)
    requires Inv(s) && Serializable(init, s) && Enabled(s, act) && Fresh(s, act)
    ensures Serializable(init, Step(s, act))
  {
    if act.Advance? {
      if s.agents[act.a].Reading? {
        AdvanceReading(init, s, act.a);
      } else {
        AdvanceWriting(init, s, act.a);
      }
    } else {
      var t := Step(s, act);
      forall b | 0 <= b < |t.agents| ensures SerialAgent(t, Serial(init, t.finished), t.agents[b]) {
        assert AgentInv(s, s.agents[b]) && SerialAgent(s, Serial(init, s.finished), s.agents[b]);
      }
    }
  }

  lemma {:induction false} RunSerializable(init: Memory, s: State, acts: seq<Action>)
    requires Inv(s) && Serializable(init, s) && ValidRun(s, acts) && FreshRun(s, acts)
    ensures Serializable(init, Run(s, acts))
    decreases |acts|
  {
    if acts != [] {
      StepKeepsInv(s, acts[0]);
      StepSerializable(init, s, acts[0]);
      RunSerializable(init, Step(s, acts[0]), acts[1..]);
    }
  }

  /** Every fresh run equals the serial execution of its finished transactions in commit order:
      alone and one after another they see what they saw, and leave the memory the run left. */
  lemma RunsAreSerial(s: State, acts: seq<Action>)
    requires IsInit(s) && ValidRun(s, acts) && FreshRun(s, acts)
    ensures var t := Run(s, acts);
            && SeesTheSame(s.mem, t.finished)
            && (!t.c.locked ==> t.mem == Serial(s.mem, t.finished))
  {
    InitInv(s);
    RunSerializable(s.mem, s, acts);
  }

  // ------------------------------------- the version counter comes round

  function Overtaken(): Program {
    (log: seq<int>) => Commit(ReadOnly)
  }

  function Overtaker(): Program {
    (log: seq<int>) => if log == [] then Store(0, 1) else Done
  }

  /** One whole read-write transaction of agent 1. */
  function Round(): seq<Action> {
    [BeginCommit(1, Overtaker()), Advance(1), Advance(1)]
  }

  function Rounds(k: nat): seq<Action> {
    if k == 0 then [] else Round() + Rounds(k - 1)
  }

  ghost predicate Waiting(s: State) {
    && s.agents == [Reading(Overtaken(), 0, [], 0, map[]), Idle]
    && s.c == Counter(s.commits % VERSIONS, false)
    && s.mem == if s.commits == 0 then map[] else map[0 := 1]
  }

  lemma RunCons(s: State, act: Action, rest: seq<Action>)
    requires Enabled(s, act) && ValidRun(Step(s, act), rest)
    ensures ValidRun(s, [act] + rest) && Run(s, [act] + rest) == Run(Step(s, act), rest)
  {
  }

  ghost function AfterRound(s: State): State
    requires Waiting(s)
  {
    s.(c := Counter((s.commits + 1) % VERSIONS, false), mem := map[0 := 1], commits := s.commits + 1,
       finished := s.finished + [Finished(Overtaker(), [] + [0])])
  }

  lemma OneRound(s: State, rest: seq<Action>)
    requires Waiting(s) && ValidRun(AfterRound(s), rest)
    ensures ValidRun(s, Round() + rest) && Run(s, Round() + rest) == Run(AfterRound(s), rest)
  {
    var begin := BeginCommit(1, Overtaker());
    var s1 := Step(s, begin);
    var s2 := Step(s1, Advance(1));
    assert s2.agents == s.agents[1 := Writing(Overtaker(), [] + [0])];
    var s3 := Step(s2, Advance(1));
    assert s3.mem == map[0 := 1];
    assert s3.agents == s.agents;
    assert s3 == AfterRound(s);
    RunCons(s2, Advance(1), rest);
    RunCons(s1, Advance(1), [Advance(1)] + rest);
    RunCons(s, begin, [Advance(1)] + ([Advance(1)] + rest));
    assert Round() + rest == [begin] + ([Advance(1)] + ([Advance(1)] + rest));
  }

  lemma {:induction false} ManyRounds(s: State, k: nat)
    requires Waiting(s)
    ensures ValidRun(s, Rounds(k)) && Waiting(Run(s, Rounds(k))) && Run(s, Rounds(k)).commits == s.commits + k
    decreases k
  {
    if k > 0 {
      ManyRounds(AfterRound(s), k - 1);
      OneRound(s, Rounds(k - 1));
    }
  }

  /** Overtaken by exactly 256 read-write commits, a transaction commits although the memory has changed. */
  lemma WrappedVersionCommits() returns (s: State, acts: seq<Action>)
    ensures IsInit(s) && ValidRun(s, acts) && AtCommit(Run(s, acts), 0)
    ensures var t := Run(s, acts);
            Age(t, 0) == VERSIONS && Granted(t, 0) && t.mem != t.agents[0].snapshot
  {
    s := State(Counter(0, false), map[], [Idle, Idle], 0, []);
    var begin := Begin(0, Overtaken());
    var s1 := Step(s, begin);
    assert s1.agents == [Reading(Overtaken(), 0, [], 0, map[]), Idle];
    ManyRounds(s1, VERSIONS);
    acts := [begin] + Rounds(VERSIONS);
    RunCons(s, begin, Rounds(VERSIONS));
    assert 0 in map[0 := 1];
  }
}
