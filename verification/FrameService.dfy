/** Frames edited in place on a thread's stack (src/os/arch/arm/cortex.c and rpc.c). */
module FrameService {
  import opened Frames
  import opened FrameRuns

  ghost function Words(s: seq<Word>): Memory {
    map a: int | 0 <= a < |s| :: s[a]
  }

  lemma WordsUpdate(s: seq<Word>, i: nat, w: Word)
    requires i < |s|
    ensures Words(s[i := w]) == Words(s)[i as int := w]
  {
  }

  /** The words of the stack and the process stack pointer. */
  class ThreadStack {
    const words: array<Word>
    var psp: nat

    ghost function View(): Memory
      reads words
    {
      Words(words[..])
    }

    constructor (words: array<Word>, psp: nat)
      ensures this.words == words && this.psp == psp
    {
      this.words, this.psp := words, psp;
    }

    method Set(a: nat, w: Word)
      requires a < words.Length
      modifies words
      ensures View() == old(View())[a as int := w] && words[..] == old(words[..])[a := w]
    {
      WordsUpdate(words[..], a, w);
      ghost var before := words[..];
      words[a] := w;
      assert words[..] == before[a := w];
    }

    /** get_exception_arg_addr. */
    method GetExceptionArgAddr(frame: nat, n: nat) returns (a: nat)
      requires frame + FRAME <= words.Length
      ensures a == ArgAddress(View(), frame, n)
    {
      if n < 4 {
        return frame + n;
      }
      var base := frame + XPSR;
      base := if words[base].bit9 then base + 2 else base + 1;
      a := base + (n - 4);
    }

    /** push_exception_frame. */
    method PushExceptionFrame(frame: nat, args: nat) returns (out: nat)
      requires FRAME + args + 1 <= frame && frame + FRAME <= words.Length
      modifies words
      ensures out == PushedAt(frame, args) && View() == Push(old(View()), frame, args)
      ensures words[..] == old(words[..])[out + XPSR := old(words[frame + XPSR]).(bit9 := Padded(frame, args))]
    {
      out := frame - (FRAME + args);
      var padding := false;
      if out % 2 != 0 {
        out := out - 1;
        padding := true;
      }
      var xpsr := words[frame + XPSR];
      Set(out + XPSR, xpsr.(bit9 := padding));
    }

    /** shim_exception_frame: a copy of the frame whose alignment bit is its own. */
    method ShimExceptionFrame(frame: nat, args: nat) returns (out: nat)
      requires FRAME + args + 1 <= frame && frame + FRAME <= words.Length
      modifies words
      ensures out == PushedAt(frame, args)
      ensures forall a :: out <= a < out + FRAME && a != out + XPSR ==> words[a] == old(words[frame + (a - out)])
      ensures words[out + XPSR] == old(words[frame + XPSR]).(bit9 := Padded(frame, args))
      ensures forall a :: 0 <= a < words.Length && !(out <= a < out + FRAME) ==> words[a] == old(words[a])
    {
      ghost var before := words[..];
      out := PushExceptionFrame(frame, args);
      assert forall a :: 0 <= a < words.Length ==> words[a] == words[..][a];
      for q := 0 to FRAME
        invariant forall a :: 0 <= a < words.Length && !(out <= a < out + FRAME) ==> words[a] == before[a]
        invariant forall a :: out <= a < out + q && a != out + XPSR ==> words[a] == before[frame + (a - out)]
        invariant words[out + XPSR] == before[frame + XPSR].(bit9 := Padded(frame, args))
      {
        if q != XPSR {
          words[out + q] := words[frame + q];
        }
      }
    }

    /** pop_exception_frame. */
    method PopExceptionFrame(frame: nat, args: nat) returns (out: nat)
      requires frame + FRAME + args + 1 + FRAME <= words.Length
      modifies words
      ensures out == PoppedAt(old(View()), frame, args) && View() == Pop(old(View()), frame, args)
    {
      out := frame + FRAME + args;
      if words[frame + XPSR].bit9 {
        out := out + 1;
      }
      Set(out + XPSR, words[frame + XPSR].(bit9 := words[out + XPSR].bit9));
    }

    /** The loop of os_rpc_call: the caller's first four arguments become the method's second to fifth. */
    method CopyArguments(ghost m: Memory, frame: nat, out: nat)
      requires FRAME + RPC_ARGS + 1 <= frame && frame + FRAME + 2 <= words.Length && out == PushedAt(frame, RPC_ARGS)
      requires View() == Push(m, frame, RPC_ARGS)
      modifies words
      ensures View() == Copied(m, Push(m, frame, RPC_ARGS), frame, out, 4)
    {
      ghost var p := View();
      ArgsBetweenFrames(m, frame, RPC_ARGS, 4);
      for q := 0 to 4
        invariant View() == Copied(m, p, frame, out, q)
      {
        CopyStep(m, p, frame, out, q);
        var to := GetExceptionArgAddr(out, q + 1);
        var w := words[frame + q];
        assert w == Read(View(), frame + q) == Read(m, frame + q);
        Set(to, w);
      }
    }

    method FillFrame(out: nat, service: Word, target: Word, back: Word)
      requires out + FRAME <= words.Length
      modifies words
      ensures View() == old(View())[out as int := service][out + LR := back][out + PC := target]
    {
      Set(out, service);
      Set(out + LR, back);
      Set(out + PC, target);
    }

    /** The caller's arguments in a frame of their own. */
    method PushArguments(frame: nat) returns (out: nat)
      requires FRAME + RPC_ARGS + 1 <= frame && frame + FRAME + 2 <= words.Length
      modifies words
      ensures out == PushedAt(frame, RPC_ARGS) && out + FRAME <= words.Length
      ensures View() == Copied(old(View()), Push(old(View()), frame, RPC_ARGS), frame, out, 4)
    {
      ghost var m := View();
      out := PushExceptionFrame(frame, RPC_ARGS);
      CopyArguments(m, frame, out);
    }

    /** The frame side of os_rpc_call. */
    method RpcCall(target: Word, back: Word)
      requires FRAME + RPC_ARGS + 1 <= psp && psp + FRAME + 2 <= words.Length
      modifies this`psp, words
      ensures psp == PushedAt(old(psp), RPC_ARGS) && View() == CallFrame(old(View()), old(psp), target, back)
    {
      var frame := psp;
      ghost var m := View();
      var a := GetExceptionArgAddr(frame, 4);
      var service := words[a];
      var out := PushArguments(frame);
      CopiedIsCall(m, View(), frame, target, back);
      FillFrame(out, service, target, back);
      psp := out;
    }

    /** The frame side of os_rpc_return. */
    method RpcReturn(value: Word)
      requires psp + FRAME + RPC_ARGS + 1 + FRAME <= words.Length
      modifies this`psp, words
      ensures psp == PoppedAt(old(View()), old(psp), RPC_ARGS) && View() == ReturnFrame(old(View()), old(psp), value)
    {
      var frame := PopExceptionFrame(psp, RPC_ARGS);
      Set(frame, value);
      psp := frame;
    }
  }

  /** The pushed frame p with the first q of the caller's arguments moved up by one. */
  ghost function Copied(m: Memory, p: Memory, frame: int, out: int, q: nat): Memory {
    if q == 0 then p else Copied(m, p, frame, out, q - 1)[ArgAddress(p, out, q) := Read(m, frame + q - 1)]
  }

  lemma CopiedIsCall(m: Memory, copied: Memory, frame: int, target: Word, back: Word)
    requires copied == Copied(m, Push(m, frame, RPC_ARGS), frame, PushedAt(frame, RPC_ARGS), 4)
    ensures var out := PushedAt(frame, RPC_ARGS);
            copied[out := Read(m, ArgAddress(m, frame, 4))][out + LR := back][out + PC := target]
            == CallFrame(m, frame, target, back)
  {
    var out, p := PushedAt(frame, RPC_ARGS), Push(m, frame, RPC_ARGS);
    var c1, c2, c3 := Copied(m, p, frame, out, 1), Copied(m, p, frame, out, 2), Copied(m, p, frame, out, 3);
    assert Copied(m, p, frame, out, 0) == p && ArgAddress(p, out, 1) == out + 1 && frame + 1 - 1 == frame;
    assert c1 == p[out + 1 := Read(m, frame)];
    assert c2 == c1[out + 2 := Read(m, frame + 1)];
    assert c3 == c2[out + 3 := Read(m, frame + 2)];
    assert copied == c3[ArgAddress(p, out, 4) := Read(m, frame + 3)];
  }

  /** Moving an argument disturbs neither the alignment bit that places the next one nor the caller's frame. */
  lemma {:induction false} CopyStep(m: Memory, p: Memory, frame: int, out: int, q: nat)
    requires q <= 4 && out == PushedAt(frame, RPC_ARGS) && p == Push(m, frame, RPC_ARGS)
    ensures Read(Copied(m, p, frame, out, q), out + XPSR) == Read(p, out + XPSR)
    ensures forall a :: a >= frame ==> Read(Copied(m, p, frame, out, q), a) == Read(m, a)
    ensures var c := Copied(m, p, frame, out, q);
            Copied(m, p, frame, out, q + 1) == c[ArgAddress(c, out, q + 1) := Read(m, frame + q)]
  {
    assert frame + (q + 1) - 1 == frame + q;
    if q > 0 {
      CopyStep(m, p, frame, out, q - 1);
      if q == 4 {
        ArgsBetweenFrames(m, frame, RPC_ARGS, 4);
      }
    }
  }
}
