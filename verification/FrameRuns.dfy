/** Nested remote procedure calls and the stack pointers they give back. */
module FrameRuns {
  import opened Frames

  const RPC_ARGS: nat := 2

  /** The frame side of os_rpc_call on the caller's frame f: a frame for the called method, whose arguments are the service
      and the caller's first four. */
  function CallFrame(m: Memory, f: int, target: Word, back: Word): Memory {
    var out := PushedAt(f, RPC_ARGS);
    var p := Push(m, f, RPC_ARGS);
    var service := Read(m, ArgAddress(m, f, 4));
    p[out + 1 := Read(m, f)][out + 2 := Read(m, f + 1)][out + 3 := Read(m, f + 2)]
     [ArgAddress(p, out, 4) := Read(m, f + 3)][out := service][out + LR := back][out + PC := target]
  }

  /** The frame side of os_rpc_return on the callee's frame. */
  function ReturnFrame(m: Memory, f: int, value: Word): Memory {
    Pop(m, f, RPC_ARGS)[PoppedAt(m, f, RPC_ARGS) := value]
  }

  /** Below an aligned frame no padding is needed. */
  lemma CalleeAt(f: int)
    requires !Odd(f)
    ensures !Padded(f, RPC_ARGS) && PushedAt(f, RPC_ARGS) == f - 10 && !Odd(f - 10) && !Odd(f - 2)
    ensures EntryAt(f - RPC_ARGS) == f - 10
  {
  }

  lemma CallWords(m: Memory, f: int, target: Word, back: Word)
    requires !Odd(f)
    ensures CallFrame(m, f, target, back) ==
              m[f - 3 := Read(m, f + XPSR).(bit9 := false)][f - 9 := Read(m, f)][f - 8 := Read(m, f + 1)][f - 7 := Read(m, f + 2)]
               [f - 2 := Read(m, f + 3)][f - 10 := Read(m, ArgAddress(m, f, 4))][f - 5 := back][f - 4 := target]
  {
  }

  /** What the called method finds: its frame aligned, its stack pointer right below the caller's frame, the service and
      three arguments in registers, the fifth argument on top of its stack, and all the caller's memory as it was. */
  lemma CalleeSees(m: Memory, f: int, target: Word, back: Word)
    requires !Odd(f)
    ensures var out := PushedAt(f, RPC_ARGS);
            var c := CallFrame(m, f, target, back);
            && !Odd(out) && ReturnTo(c, out) == f - RPC_ARGS
            && Read(c, out) == Read(m, ArgAddress(m, f, 4))
            && Read(c, out + 1) == Read(m, f) && Read(c, out + 2) == Read(m, f + 1) && Read(c, out + 3) == Read(m, f + 2)
            && Read(c, f - RPC_ARGS) == Read(m, f + 3)
            && Read(c, out + PC) == target && Read(c, out + LR) == back
            && SameFrom(m, c, f)
  {
    var c := CallFrame(m, f, target, back);
    CalleeAt(f);
    CallWords(m, f, target, back);
    assert Read(c, f - 3) == Read(m, f + XPSR).(bit9 := false);
  }

  // ------------------------------------------------------------ nested calls

  /** Code between two points with the same stack pointer: it stores words, opens and closes stack frames of its own, and
      makes remote calls. `regs` are stacked when the call is made, `exit` when the called method returns. */
  datatype Code =
    | Done
    | Store(a: int, w: Word, rest: Code)
    | Scope(words: nat, body: Code, rest: Code)
    | Rpc(regs: seq<Word>, target: Word, back: Word, body: Code, exit: seq<Word>, rest: Code)

  /** Memory and stack pointer after executing code; a remote call takes an exception entry, os_rpc_call, an exception
      return into the method, and the same again for its return. */
  ghost function Exec(m: Memory, sp: int, c: Code): (Memory, int)
    requires Formed(c)
    decreases c, 0
  {
    match c
    case Done => (m, sp)
    case Store(a, w, rest) => Exec(m[a := w], sp, rest)
    case Scope(words, body, rest) =>
      var (n, below) := Exec(m, sp - words, body);
      Exec(n, below + words, rest)
    case Rpc(regs, target, back, body, exit, rest) =>
      var (n, above) := ExecRpc(m, sp, regs, target, back, body, exit);
      Exec(n, above, rest)
  }

  ghost function ExecRpc(m: Memory, sp: int, regs: seq<Word>, target: Word, back: Word, body: Code, exit: seq<Word>): (Memory, int)
    requires |regs| == FRAME && |exit| == FRAME && Formed(body)
    decreases body, 1
  {
    var called := Called(m, sp, regs, target, back);
    var (n, below) := Exec(called, ReturnTo(called, PushedAt(EntryAt(sp), RPC_ARGS)), body);
    var g := EntryAt(below);
    var left := Entry(n, below, exit);
    var popped := ReturnFrame(left, g, exit[0]);
    (popped, ReturnTo(popped, PoppedAt(left, g, RPC_ARGS)))
  }

  predicate Formed(c: Code) {
    match c
    case Done => true
    case Store(_, _, rest) => Formed(rest)
    case Scope(_, body, rest) => Formed(body) && Formed(rest)
    case Rpc(regs, _, _, body, exit, rest) => |regs| == FRAME && |exit| == FRAME && Formed(body) && Formed(rest)
  }

  /** Every store stays below the limit of its level: a called method may write its own stack and its arguments, which end
      where the caller's frame begins. */
  ghost predicate Confined(c: Code, sp: int, limit: int) {
    match c
    case Done => true
    case Store(a, _, rest) => a < limit && Confined(rest, sp, limit)
    case Scope(words, body, rest) => Confined(body, sp - words, limit) && Confined(rest, sp, limit)
    case Rpc(_, _, _, body, _, rest) =>
      Confined(body, EntryAt(sp) - RPC_ARGS, EntryAt(sp)) && Confined(rest, sp, limit)
  }

  ghost predicate SameFrom(m: Memory, n: Memory, limit: int) {
    forall a :: a >= limit ==> Read(m, a) == Read(n, a)
  }

  lemma EntryKeeps(m: Memory, sp: int, regs: seq<Word>)
    requires |regs| == FRAME
    ensures SameFrom(m, Entry(m, sp, regs), EntryAt(sp) + FRAME) && SameFrom(m, Entry(m, sp, regs), sp)
    ensures Read(Entry(m, sp, regs), EntryAt(sp) + XPSR).bit9 == Odd(sp)
  {
    forall a | a >= EntryAt(sp) + FRAME ensures Read(m, a) == Read(Entry(m, sp, regs), a) {
      EntryReads(m, sp, regs, a);
    }
    EntryReads(m, sp, regs, EntryAt(sp) + XPSR);
  }

  /** The way back: the callee's exception entry lands on the frame pushed for it, popping that finds the caller's frame,
      and the exception return restores the caller's stack pointer; the caller gets the value and keeps its registers. */
  lemma ReturnsToCaller(n: Memory, sp: int, exit: seq<Word>)
    requires |exit| == FRAME && Read(n, EntryAt(sp) + XPSR).bit9 == Odd(sp)
    ensures var f := EntryAt(sp);
            var left := Entry(n, f - RPC_ARGS, exit);
            var popped := ReturnFrame(left, f - 10, exit[0]);
            && PoppedAt(left, f - 10, RPC_ARGS) == f
            && ReturnTo(popped, f) == sp
            && SameFrom(n, popped, f + FRAME)
            && Read(popped, f) == exit[0]
            && forall a :: f < a < f + XPSR ==> Read(popped, a) == Read(n, a)
  {
    var f := EntryAt(sp);
    CalleeAt(f);
    var left := Entry(n, f - RPC_ARGS, exit);
    EntryKeeps(n, f - RPC_ARGS, exit);
    assert PoppedAt(left, f - 10, RPC_ARGS) == f;
    var popped := ReturnFrame(left, f - 10, exit[0]);
    assert Read(popped, f + XPSR) == Read(left, f - 3).(bit9 := Odd(sp));
  }

  /** Memory once the called method runs. */
  ghost function Called(m: Memory, sp: int, regs: seq<Word>, target: Word, back: Word): Memory
    requires |regs| == FRAME
  {
    CallFrame(Entry(m, sp, regs), EntryAt(sp), target, back)
  }

  /** Memory once the caller runs again, when the method left n. */
  ghost function Back(n: Memory, sp: int, exit: seq<Word>): Memory
    requires |exit| == FRAME
  {
    ReturnFrame(Entry(n, EntryAt(sp) - RPC_ARGS, exit), EntryAt(sp) - 10, exit[0])
  }

  lemma CalledKeeps(m: Memory, sp: int, regs: seq<Word>, target: Word, back: Word)
    requires |regs| == FRAME
    ensures var c, f := Called(m, sp, regs, target, back), EntryAt(sp);
            && !Odd(f) && f + FRAME <= sp
            && ReturnTo(c, PushedAt(f, RPC_ARGS)) == f - RPC_ARGS
            && Read(c, f + XPSR).bit9 == Odd(sp)
            && SameFrom(m, c, sp)
  {
    var f, entered := EntryAt(sp), Entry(m, sp, regs);
    EntryKeeps(m, sp, regs);
    CalleeSees(entered, f, target, back);
  }

  lemma RpcLands(m: Memory, sp: int, regs: seq<Word>, target: Word, back: Word, body: Code, exit: seq<Word>, n: Memory)
    requires |regs| == FRAME && |exit| == FRAME && Formed(body)
    requires Exec(Called(m, sp, regs, target, back), EntryAt(sp) - RPC_ARGS, body) == (n, EntryAt(sp) - RPC_ARGS)
    requires Read(n, EntryAt(sp) + XPSR).bit9 == Odd(sp)
    ensures ExecRpc(m, sp, regs, target, back, body, exit) == (Back(n, sp, exit), sp)
  {
    CalledKeeps(m, sp, regs, target, back);
    CalleeAt(EntryAt(sp));
    ReturnsToCaller(n, sp, exit);
  }

  /** One remote call around a body that gives its stack pointer back and leaves the caller's frame alone. */
  lemma RpcRestores(m: Memory, sp: int, regs: seq<Word>, target: Word, back: Word, body: Code, exit: seq<Word>, n: Memory)
    requires |regs| == FRAME && |exit| == FRAME && Formed(body)
    requires Exec(Called(m, sp, regs, target, back), EntryAt(sp) - RPC_ARGS, body) == (n, EntryAt(sp) - RPC_ARGS)
    requires SameFrom(Called(m, sp, regs, target, back), n, EntryAt(sp))
    ensures ExecRpc(m, sp, regs, target, back, body, exit) == (Back(n, sp, exit), sp)
    ensures SameFrom(m, Back(n, sp, exit), sp)
  {
    var called := Called(m, sp, regs, target, back);
    CalledKeeps(m, sp, regs, target, back);
    assert Read(n, EntryAt(sp) + XPSR) == Read(called, EntryAt(sp) + XPSR);
    RpcLands(m, sp, regs, target, back, body, exit, n);
    ReturnsToCaller(n, sp, exit);
    SameChain(m, called, n, Back(n, sp, exit), EntryAt(sp), sp);
  }

  lemma SameChain(m: Memory, called: Memory, n: Memory, after: Memory, f: int, sp: int)
    requires f + FRAME <= sp
    requires SameFrom(m, called, sp) && SameFrom(called, n, f) && SameFrom(n, after, f + FRAME)
    ensures SameFrom(m, after, sp)
  {
  }

  lemma SameTrans(m: Memory, mid: Memory, n: Memory, limit: int)
    requires SameFrom(m, mid, limit) && SameFrom(mid, n, limit)
    ensures SameFrom(m, n, limit)
  {
  }

  /** Properly nested calls of every depth give every caller its stack pointer back and leave the memory above it alone. */
  lemma {:induction false} NestedCallsRestore(m: Memory, sp: int, c: Code, limit: int)
    requires Formed(c) && Confined(c, sp, limit) && sp <= limit
    ensures Exec(m, sp, c).1 == sp && SameFrom(m, Exec(m, sp, c).0, limit)
    decreases c, 1
  {
    match c
    case Done =>
    case Store(a, w, rest) =>
      NestedCallsRestore(m[a := w], sp, rest, limit);
      assert SameFrom(m, m[a := w], limit);
      SameTrans(m, m[a := w], Exec(m, sp, c).0, limit);
    case Scope(words, body, rest) => NestedScope(m, sp, c, limit);
    case Rpc(regs, target, back, body, exit, rest) => NestedRpc(m, sp, c, limit);
  }

  lemma ScopeRuns(m: Memory, sp: int, c: Code)
    requires Formed(c) && c.Scope? && Exec(m, sp - c.words, c.body).1 == sp - c.words
    ensures Exec(m, sp, c) == Exec(Exec(m, sp - c.words, c.body).0, sp, c.rest)
  {
  }

  lemma {:induction false} NestedScope(m: Memory, sp: int, c: Code, limit: int)
    requires Formed(c) && Confined(c, sp, limit) && sp <= limit && c.Scope?
    ensures Exec(m, sp, c).1 == sp && SameFrom(m, Exec(m, sp, c).0, limit)
    decreases c, 0
  {
    NestedCallsRestore(m, sp - c.words, c.body, limit);
    ScopeRuns(m, sp, c);
    var mid := Exec(m, sp - c.words, c.body).0;
    NestedCallsRestore(mid, sp, c.rest, limit);
    var after := Exec(mid, sp, c.rest).0;
    SameTrans(m, mid, after, limit);
  }

  lemma {:induction false} NestedRpc(m: Memory, sp: int, c: Code, limit: int)
    requires Formed(c) && Confined(c, sp, limit) && sp <= limit && c.Rpc?
    ensures Exec(m, sp, c).1 == sp && SameFrom(m, Exec(m, sp, c).0, limit)
    decreases c, 0
  {
    var Rpc(regs, target, back, body, exit, rest) := c;
    var f, called := EntryAt(sp), Called(m, sp, regs, target, back);
    NestedCallsRestore(called, f - RPC_ARGS, body, f);
    var n := Exec(called, f - RPC_ARGS, body).0;
    RpcRestores(m, sp, regs, target, back, body, exit, n);
    var after := Back(n, sp, exit);
    assert Exec(m, sp, c) == Exec(after, sp, rest);
    NestedCallsRestore(after, sp, rest, limit);
  }
}
