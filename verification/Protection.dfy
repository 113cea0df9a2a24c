/** The MPU registers across remote procedure calls and thread switches (src/os/arch/arm/rpc.c, mpu.c and cortex.c,
    src/os/kernel/rpc.c and context.c). */
module Protection {

  const MPU_STATE_SIZE: nat := 6
  const MPU_HOSTED_STATE_SIZE: nat := 4
  const OS_MPU_REGION_STACK: nat := 5
  const REGIONS: nat := 8
  const RPC_STACK_CELLS: nat := 8
  const RPC_STACK_LIMIT: nat := 8
  const VTABLE_UNKNOWN: nat := 0xFF

  /** struct MPU_Registers: the base and the size-and-attributes register of one region. */
  datatype Regs = Regs(rbar: nat, rasr: nat)

  /** `mpu` are the saved registers, [start, end) the addresses of the process's vtables. */
  datatype Process = Process(defined: bool, start: nat, end: nat, mpu: seq<Regs>)

  /** `cells` are the eight cells of rpc_stack, the first of them the depth, and the byte behind them. */
  datatype Task = Task(process: nat, cells: seq<nat>, stack: Regs)

  /** struct OS_scheduling_context_t, with processes by number. */
  datatype Context = Context(oldParent: nat, oldHost: nat, newParent: nat, newHost: nat)

  datatype State = State(
    processes: seq<Process>, tasks: seq<Task>, mpu: seq<Regs>,
    current: nat, next: nat, pending: bool, context: Context)

  datatype Code = Ok | InvalidAddress | InTooDeep

  // --------------------------------------------------------- the operations

  function Depth(t: Task): nat
    requires |t.cells| > 0
  {
    t.cells[0]
  }

  /** The process a thread executes in: the one it called last, or its own. */
  function Host(t: Task): nat
    requires 0 < |t.cells| && Depth(t) < |t.cells|
  {
    if Depth(t) != 0 then t.cells[Depth(t)] else t.process
  }

  /** A task inside its RPC stack, all of whose processes exist. */
  predicate ValidTask(t: Task, processes: nat) {
    && |t.cells| == RPC_STACK_CELLS + 1
    && Depth(t) < RPC_STACK_CELLS
    && t.process < processes
    && forall i :: 1 <= i <= Depth(t) ==> t.cells[i] < processes
  }

  predicate Shaped(s: State) {
    && |s.mpu| == REGIONS
    && |s.processes| <= VTABLE_UNKNOWN
    && s.current < |s.tasks| && s.next < |s.tasks|
    && (forall p :: 0 <= p < |s.processes| ==> |s.processes[p].mpu| == MPU_STATE_SIZE)
    && (forall t :: 0 <= t < |s.tasks| ==> |s.tasks[t].cells| == RPC_STACK_CELLS + 1)
  }

  predicate Valid(s: State) {
    && Shaped(s)
    && (forall t :: 0 <= t < |s.tasks| ==> ValidTask(s.tasks[t], |s.processes|))
  }

  /** mpu_load. */
  function Load(mpu: seq<Regs>, state: seq<Regs>, base: nat, count: nat): (r: seq<Regs>)
    requires base + count <= |mpu| && base + count <= |state|
    ensures |r| == |mpu|
    ensures forall i :: 0 <= i < |r| ==> r[i] == if base <= i < base + count then state[i] else mpu[i]
  {
    mpu[..base] + state[base..base + count] + mpu[base + count..]
  }

  /** mpu_restore. */
  function Restore(mpu: seq<Regs>, host: seq<Regs>, parent: seq<Regs>): (r: seq<Regs>)
    requires |mpu| == REGIONS && |host| == |parent| == MPU_STATE_SIZE
    ensures |r| == |mpu|
    ensures forall i :: 0 <= i < |r| ==>
              r[i] == if i < MPU_HOSTED_STATE_SIZE then host[i] else if i < MPU_STATE_SIZE then parent[i] else mpu[i]
  {
    Load(Load(mpu, host, 0, MPU_HOSTED_STATE_SIZE), parent, MPU_HOSTED_STATE_SIZE, MPU_STATE_SIZE - MPU_HOSTED_STATE_SIZE)
  }

  predicate Provides(p: Process, vtable: nat) {
    p.defined && p.start <= vtable < p.end
  }

  /** get_vtable_process: the first process whose interface holds the vtable. */
  function FindProcess(processes: seq<Process>, vtable: nat, from: nat): (r: nat)
    requires from <= |processes| <= VTABLE_UNKNOWN
    ensures r == VTABLE_UNKNOWN <==> forall i :: from <= i < |processes| ==> !Provides(processes[i], vtable)
    ensures r != VTABLE_UNKNOWN ==>
              from <= r < |processes| && Provides(processes[r], vtable) && forall i :: from <= i < r ==> !Provides(processes[i], vtable)
    decreases |processes| - from
  {
    if from == |processes| then VTABLE_UNKNOWN
    else if Provides(processes[from], vtable) then from
    else FindProcess(processes, vtable, from + 1)
  }

  /** rpc_stack_push. */
  function Push(t: Task, process: nat): (Task, bool)
    requires |t.cells| == RPC_STACK_CELLS + 1
  {
    if Depth(t) < RPC_STACK_LIMIT then
      (t.(cells := t.cells[Depth(t) + 1 := process][0 := Depth(t) + 1]), true)
    else (t, false)
  }

  /** rpc_stack_pop. */
  function Pop(t: Task): Task
    requires |t.cells| == RPC_STACK_CELLS + 1
  {
    if Depth(t) > 0 then t.(cells := t.cells[0 := Depth(t) - 1]) else t
  }

  /** The memory protection side of os_rpc_call. */
  function Call(s: State, vtable: nat): (State, Code)
    requires Shaped(s)
  {
    var p := FindProcess(s.processes, vtable, 0);
    if p == VTABLE_UNKNOWN then (s, InvalidAddress)
    else
      var (t, ok) := Push(s.tasks[s.current], p);
      if !ok then (s, InTooDeep)
      else (s.(tasks := s.tasks[s.current := t], mpu := Load(s.mpu, s.processes[p].mpu, 0, MPU_HOSTED_STATE_SIZE)), Ok)
  }

  /** The memory protection side of os_rpc_return. */
  function Return(s: State): State
    requires Valid(s)
  {
    var t := Pop(s.tasks[s.current]);
    s.(tasks := s.tasks[s.current := t], mpu := Load(s.mpu, s.processes[Host(t)].mpu, 0, MPU_HOSTED_STATE_SIZE))
  }

  function ContextOf(from: Task, to: Task): Context
    requires 0 < |from.cells| && Depth(from) < |from.cells| && 0 < |to.cells| && Depth(to) < |to.cells|
  {
    Context(from.process, Host(from), to.process, Host(to))
  }

  /** schedule_context_switch, once the scheduler has chosen the next thread. */
  function Schedule(s: State, next: nat): State
    requires Valid(s) && next < |s.tasks|
  {
    s.(next := next, pending := true, context := ContextOf(s.tasks[s.current], s.tasks[next]))
  }

  /** os_perform_thread_switch: the reload is skipped when neither process changes. */
  function Switch(s: State): State
    requires Valid(s) && s.context.newHost < |s.processes| && s.context.newParent < |s.processes|
  {
    var c := s.context;
    var mpu := if c.oldParent != c.newParent || c.oldHost != c.newHost
               then Restore(s.mpu, s.processes[c.newHost].mpu, s.processes[c.newParent].mpu) else s.mpu;
    s.(mpu := mpu[OS_MPU_REGION_STACK := s.tasks[s.next].stack], current := s.next, pending := false)
  }

  /** The start of the first thread by _os_start. */
  function Boot(s: State, first: nat): State
    requires Valid(s) && first < |s.tasks|
  {
    var t := s.tasks[first];
    var mpu := Restore(s.mpu, s.processes[t.process].mpu, s.processes[t.process].mpu);
    s.(mpu := mpu[OS_MPU_REGION_STACK := t.stack], current := first)
  }

  // --------------------------------------------------------- what is kept

  /** The registers agree with the current thread: the host process's regions, the parent's shared region and the
      thread's own stack. */
  ghost predicate Agrees(s: State)
    requires Valid(s)
  {
    var t := s.tasks[s.current];
    && s.mpu[..MPU_HOSTED_STATE_SIZE] == s.processes[Host(t)].mpu[..MPU_HOSTED_STATE_SIZE]
    && s.mpu[MPU_HOSTED_STATE_SIZE] == s.processes[t.process].mpu[MPU_HOSTED_STATE_SIZE]
    && s.mpu[OS_MPU_REGION_STACK] == t.stack
  }

  /** A requested switch was prepared for the threads as they are. */
  ghost predicate Prepared(s: State)
    requires Valid(s)
  {
    s.pending ==> s.context == ContextOf(s.tasks[s.current], s.tasks[s.next])
  }

  ghost predicate Inv(s: State) {
    Valid(s) && Agrees(s) && Prepared(s)
  }

  /** A yield requests a switch, or withdraws the request when it finds nobody to run. */
  datatype Op = CallOp(vtable: nat) | ReturnOp | ScheduleOp(next: nat) | WithdrawOp | SwitchOp

  /** Calls and returns are system calls of the current thread, and a requested switch is taken before the thread runs
      again; a call needs a free cell. */
  ghost predicate Enabled(s: State, op: Op)
    requires Valid(s)
  {
    match op
    case CallOp(_) => !s.pending && Depth(s.tasks[s.current]) + 1 < RPC_STACK_CELLS
    case ReturnOp => !s.pending
    case ScheduleOp(next) => next < |s.tasks|
    case WithdrawOp => true
    case SwitchOp => s.pending
  }

  ghost function Apply(s: State, op: Op): State
    requires Inv(s) && Enabled(s, op)
  {
    match op
    case CallOp(vtable) => Call(s, vtable).0
    case ReturnOp => Return(s)
    case ScheduleOp(next) => Schedule(s, next)
    case WithdrawOp => s.(pending := false)
    case SwitchOp => Switch(s)
  }

  lemma CallKeeps(s: State, vtable: nat)
    requires Inv(s) && Enabled(s, CallOp(vtable))
    ensures Inv(Call(s, vtable).0)
  {
  }

  lemma ReturnKeeps(s: State)
    requires Inv(s) && Enabled(s, ReturnOp)
    ensures Inv(Return(s))
  {
  }

  lemma SwitchKeeps(s: State)
    requires Inv(s) && Enabled(s, SwitchOp)
    ensures Inv(Switch(s))
  {
  }

  lemma ApplyKeeps(s: State, op: Op)
    requires Inv(s) && Enabled(s, op)
    ensures Inv(Apply(s, op))
  {
    match op {
      case CallOp(vtable) => CallKeeps(s, vtable);
      case ReturnOp => ReturnKeeps(s);
      case ScheduleOp(_) =>
      case WithdrawOp =>
      case SwitchOp => SwitchKeeps(s);
    }
  }

  lemma BootAgrees(s: State, first: nat)
    requires Valid(s) && first < |s.tasks| && Depth(s.tasks[first]) == 0 && !s.pending
    ensures Inv(Boot(s, first))
  {
  }

  ghost predicate ValidRun(s: State, ops: seq<Op>)
    requires Inv(s)
    decreases |ops|
  {
    ops == [] || (Enabled(s, ops[0]) && (ApplyKeeps(s, ops[0]); ValidRun(Apply(s, ops[0]), ops[1..])))
  }

  ghost function Run(s: State, ops: seq<Op>): State
    requires Inv(s) && ValidRun(s, ops)
    decreases |ops|
  {
    if ops == [] then s else
      ApplyKeeps(s, ops[0]);
      Run(Apply(s, ops[0]), ops[1..])
  }

  lemma {:induction false} RunKeeps(s: State, ops: seq<Op>)
    requires Inv(s) && ValidRun(s, ops)
    ensures Inv(Run(s, ops)) && Run(s, ops).processes == s.processes && Run(s, ops).mpu[MPU_STATE_SIZE..] == s.mpu[MPU_STATE_SIZE..]
    decreases |ops|
  {
    if ops != [] {
      ApplyKeeps(s, ops[0]);
      RunKeeps(Apply(s, ops[0]), ops[1..]);
    }
  }

  /** From the start of the first thread, in every run of calls, returns, requests, withdrawals and switches, the registers
      agree with the thread that executes, and the regions that no process owns are never touched. */
  lemma RegistersAgree(s: State, first: nat, ops: seq<Op>)
    requires Valid(s) && first < |s.tasks| && Depth(s.tasks[first]) == 0 && !s.pending
    requires Inv(Boot(s, first)) && ValidRun(Boot(s, first), ops)
    ensures var t := Run(Boot(s, first), ops);
            && Valid(t) && Agrees(t)
            && t.mpu[MPU_STATE_SIZE..] == s.mpu[MPU_STATE_SIZE..]
  {
    RunKeeps(Boot(s, first), ops);
  }

  /** A return undoes a call that was granted: the registers, the depth and the calls below it are as before. */
  lemma CallThenReturn(s: State, vtable: nat)
    requires Inv(s) && Enabled(s, CallOp(vtable)) && Call(s, vtable).1 == Ok
    ensures var c := Call(s, vtable).0;
            && Valid(c)
            && var r := Return(c);
               && r.mpu == s.mpu
               && r.tasks[s.current].cells[..Depth(s.tasks[s.current]) + 1] == s.tasks[s.current].cells[..Depth(s.tasks[s.current]) + 1]
               && forall t :: 0 <= t < |s.tasks| && t != s.current ==> r.tasks[t] == s.tasks[t]
  {
    CallKeeps(s, vtable);
    var t := s.tasks[s.current];
    var p := FindProcess(s.processes, vtable, 0);
    var c := Call(s, vtable).0;
    var u := Pop(Push(t, p).0);
    assert u.cells == t.cells[Depth(t) + 1 := p];
    assert Host(u) == Host(t);
    var r := Return(c);
    assert r.mpu == Load(c.mpu, s.processes[Host(t)].mpu, 0, MPU_HOSTED_STATE_SIZE);
    forall i | 0 <= i < |r.mpu| ensures r.mpu[i] == s.mpu[i] {
      if i < MPU_HOSTED_STATE_SIZE {
        assert s.mpu[..MPU_HOSTED_STATE_SIZE][i] == s.processes[Host(t)].mpu[..MPU_HOSTED_STATE_SIZE][i];
      }
    }
  }

  /** The guard of rpc_stack_push refuses depth 8 and beyond, yet the eight cells hold the depth and seven calls: a push
      that is not refused leaves the byte behind them alone exactly when the depth is not 7. */
  lemma PushStaysInsideIff(t: Task)
    requires |t.cells| == RPC_STACK_CELLS + 1 && Depth(t) < RPC_STACK_LIMIT
    ensures (forall p: nat :: Push(t, p).0.cells[RPC_STACK_CELLS] == t.cells[RPC_STACK_CELLS]) <==> Depth(t) != 7
  {
    var p := t.cells[RPC_STACK_CELLS] + 1;
    if Depth(t) == 7 {
      assert Push(t, p).0.cells[RPC_STACK_CELLS] == p;
    }
  }

  /** Seven calls deep, one more is granted and goes to the byte behind the stack. */
  lemma EighthCallLandsOutside(t: Task, process: nat)
    requires t.cells == [7, 1, 1, 1, 1, 1, 1, 1, 42]
    ensures Push(t, process).1 && Push(t, process).0.cells == [8, 1, 1, 1, 1, 1, 1, 1, process]
  {
  }

  // ----------------------------------------------------- the kernel's globals

  /** The globals these operations change in place. */
  class Core {
    const processes: array<Process>
    const tasks: array<Task>
    const mpu: array<Regs>
    var current: nat
    var next: nat
    var pending: bool
    var context: Context

    ghost function View(): State
      reads this, processes, tasks, mpu
    {
      State(processes[..], tasks[..], mpu[..], current, next, pending, context)
    }

    constructor (processes: array<Process>, tasks: array<Task>, mpu: array<Regs>)
      ensures this.processes == processes && this.tasks == tasks && this.mpu == mpu
      ensures current == next == 0 && !pending
    {
      this.processes, this.tasks, this.mpu := processes, tasks, mpu;
      current, next, pending, context := 0, 0, false, Context(0, 0, 0, 0);
    }

    /** mpu_load. */
    method MpuLoad(state: seq<Regs>, base: nat, count: nat)
      requires base + count <= mpu.Length && base + count <= |state|
      modifies mpu
      ensures mpu[..] == Load(old(mpu[..]), state, base, count)
    {
      for q := 0 to count
        invariant forall i :: 0 <= i < mpu.Length ==> mpu[i] == if base <= i < base + q then state[i] else old(mpu[i])
      {
        mpu[base + q] := state[base + q];
      }
    }

    /** mpu_restore. */
    method MpuRestore(host: seq<Regs>, parent: seq<Regs>)
      requires mpu.Length == REGIONS && |host| == |parent| == MPU_STATE_SIZE
      modifies mpu
      ensures mpu[..] == Restore(old(mpu[..]), host, parent)
    {
      MpuLoad(host, 0, MPU_HOSTED_STATE_SIZE);
      MpuLoad(parent, MPU_HOSTED_STATE_SIZE, MPU_STATE_SIZE - MPU_HOSTED_STATE_SIZE);
    }

    /** get_vtable_process. */
    method GetVtableProcess(vtable: nat) returns (p: nat)
      requires processes.Length <= VTABLE_UNKNOWN
      ensures p == FindProcess(processes[..], vtable, 0)
    {
      for q := 0 to processes.Length
        invariant FindProcess(processes[..], vtable, 0) == FindProcess(processes[..], vtable, q)
      {
        if processes[q].defined && processes[q].start <= vtable < processes[q].end {
          return q;
        }
      }
      return VTABLE_UNKNOWN;
    }

    /** rpc_stack_push. */
    method RpcStackPush(process: nat) returns (ok: bool)
      requires current < tasks.Length && |tasks[current].cells| == RPC_STACK_CELLS + 1
      modifies tasks
      ensures (tasks[current], ok) == Push(old(tasks[current]), process)
      ensures forall t :: 0 <= t < tasks.Length && t != current ==> tasks[t] == old(tasks[t])
    {
      var t := tasks[current];
      var depth := t.cells[0];
      if depth < 8 {
        tasks[current] := t.(cells := t.cells[depth + 1 := process][0 := depth + 1]);
        return true;
      }
      return false;
    }

    /** rpc_stack_pop. */
    method RpcStackPop() returns (depth: nat)
      requires current < tasks.Length && |tasks[current].cells| == RPC_STACK_CELLS + 1
      modifies tasks
      ensures tasks[current] == Pop(old(tasks[current])) && depth == Depth(tasks[current])
      ensures forall t :: 0 <= t < tasks.Length && t != current ==> tasks[t] == old(tasks[t])
    {
      var t := tasks[current];
      depth := t.cells[0];
      if depth > 0 {
        depth := depth - 1;
        tasks[current] := t.(cells := t.cells[0 := depth]);
      }
    }

    /** The memory protection side of os_rpc_call. */
    method RpcCall(vtable: nat) returns (rc: Code)
      requires Shaped(View())
      modifies tasks, mpu
      ensures (View(), rc) == Call(old(View()), vtable)
    {
      var p := GetVtableProcess(vtable);
      if p == VTABLE_UNKNOWN {
        return InvalidAddress;
      }
      ghost var before := tasks[..];
      var ok := RpcStackPush(p);
      if !ok {
        assert tasks[..] == before;
        return InTooDeep;
      }
      assert tasks[..] == before[current := tasks[current]];
      MpuLoad(processes[p].mpu, 0, MPU_HOSTED_STATE_SIZE);
      return Ok;
    }

    /** The memory protection side of os_rpc_return. */
    method RpcReturn()
      requires Valid(View())
      modifies tasks, mpu
      ensures View() == Return(old(View()))
    {
      ghost var before := tasks[..];
      var depth := RpcStackPop();
      assert tasks[..] == before[current := tasks[current]];
      var p := if depth > 0 then tasks[current].cells[depth] else tasks[current].process;
      MpuLoad(processes[p].mpu, 0, MPU_HOSTED_STATE_SIZE);
    }

    /** schedule_context_switch. */
    method ScheduleContextSwitch(task: nat)
      requires Valid(View()) && task < tasks.Length
      modifies this`next, this`pending, this`context
      ensures View() == Schedule(old(View()), task)
    {
      var from, to := tasks[current], tasks[task];
      next := task;
      context := Context(from.process, if from.cells[0] != 0 then from.cells[from.cells[0]] else from.process,
                         to.process, if to.cells[0] != 0 then to.cells[to.cells[0]] else to.process);
      pending := true;
    }

    /** os_perform_thread_switch. */
    method PerformThreadSwitch()
      requires Valid(View()) && context.newHost < processes.Length && context.newParent < processes.Length
      modifies this`current, this`pending, mpu
      ensures View() == Switch(old(View()))
    {
      if context.oldParent != context.newParent || context.oldHost != context.newHost {
        MpuRestore(processes[context.newHost].mpu, processes[context.newParent].mpu);
      }
      mpu[OS_MPU_REGION_STACK] := tasks[next].stack;
      current := next;
      pending := false;
    }
  }
}
