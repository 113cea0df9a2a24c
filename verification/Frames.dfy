/** Exception frames forged for remote procedure calls (src/os/arch/arm/cortex.c and rpc.c), without the FPU. Addresses
    count 32-bit words, so an odd address is aligned to four bytes and not to eight. */
module Frames {

  /** Only bit 9 of a word (STKALIGN in a stacked xPSR) is ever tested or changed apart from the rest. */
  datatype Word = Word(bit9: bool, others: bv32)

  function Split(w: bv32): Word {
    Word((w >> 9) & 1 == 1, w & 0xFFFF_FDFF)
  }

  /** The tests and updates of the source on a 32-bit word, seen on the split word. */
  lemma SplitSet(w: bv32)
    ensures Split(w | 0x200) == Split(w).(bit9 := true)
  {
  }

  lemma SplitClear(w: bv32)
    ensures Split(w & !0x200) == Split(w).(bit9 := false)
  {
  }

  lemma SplitMerge(keep: bv32, status: bv32)
    ensures Split((keep & 0x200) | (status & !0x200)) == Split(status).(bit9 := Split(keep).bit9)
  {
  }

  /** Nothing of a word is lost. */
  lemma SplitInjective(v: bv32, w: bv32)
    requires Split(v) == Split(w)
    ensures v == w
  {
  }

  /** Memory that was never written reads as zero. */
  type Memory = map<int, Word>

  const FRAME: int := 8
  const LR: int := 5
  const PC: int := 6
  const XPSR: int := 7

  function Read(m: Memory, a: int): Word {
    if a in m then m[a] else Word(false, 0)
  }

  predicate Odd(a: int) {
    a % 2 == 1
  }

  // ------------------------------------------------------------ the frames

  /** Where push_exception_frame puts the frame below the frame f, and whether it pads it. */
  predicate Padded(f: int, args: nat) {
    Odd(f - (FRAME + args))
  }

  function PushedAt(f: int, args: nat): int {
    f - (FRAME + args) - if Padded(f, args) then 1 else 0
  }

  /** push_exception_frame. */
  function Push(m: Memory, f: int, args: nat): Memory {
    m[PushedAt(f, args) + XPSR := Read(m, f + XPSR).(bit9 := Padded(f, args))]
  }

  function PoppedAt(m: Memory, f: int, args: nat): int {
    f + FRAME + args + if Read(m, f + XPSR).bit9 then 1 else 0
  }

  /** pop_exception_frame. */
  function Pop(m: Memory, f: int, args: nat): Memory {
    var out := PoppedAt(m, f, args);
    m[out + XPSR := Read(m, f + XPSR).(bit9 := Read(m, out + XPSR).bit9)]
  }

  /** get_exception_arg_addr. */
  function ArgAddress(m: Memory, f: int, n: nat): int {
    if n < 4 then f + n
    else f + XPSR + (if Read(m, f + XPSR).bit9 then 2 else 1) + (n - 4)
  }

  /** A pushed frame is aligned to eight bytes whatever the frame above it is, and lies below the arguments. */
  lemma PushAligns(f: int, args: nat)
    ensures !Odd(PushedAt(f, args))
    ensures PushedAt(f, args) + FRAME + args <= f <= PushedAt(f, args) + FRAME + args + 1
  {
  }

  /** Popping a pushed frame finds the frame it was pushed from, whatever the callee did to the memory in between, as long
      as it kept the alignment bit of the frame; the caller's alignment bit is kept, its other flags are the callee's,
      and no other word changes. */
  lemma PopFindsFrame(m: Memory, f: int, args: nat, later: Memory)
    requires var out := PushedAt(f, args); Read(later, out + XPSR).bit9 == Read(Push(m, f, args), out + XPSR).bit9
    ensures var out := PushedAt(f, args);
            && PoppedAt(later, out, args) == f
            && Read(Pop(later, out, args), f + XPSR) == Read(later, out + XPSR).(bit9 := Read(later, f + XPSR).bit9)
            && forall a :: a != f + XPSR ==> Read(Pop(later, out, args), a) == Read(later, a)
  {
  }

  /** Pop undoes push: it returns the same frame and leaves it, and everything above the pushed frame, as it was. */
  lemma PopUndoesPush(m: Memory, f: int, args: nat)
    ensures var out := PushedAt(f, args);
            && PoppedAt(Push(m, f, args), out, args) == f
            && forall a :: a != out + XPSR ==> Read(Pop(Push(m, f, args), out, args), a) == Read(m, a)
  {
  }

  /** The stack arguments of a pushed frame are the words right below the caller's frame, padded or not. */
  lemma ArgsBetweenFrames(m: Memory, f: int, args: nat, n: nat)
    requires 4 <= n < 4 + args
    ensures var out := PushedAt(f, args);
            var a := ArgAddress(Push(m, f, args), out, n);
            a == f - args + (n - 4) && out + FRAME <= a < f
  {
  }

  // ------------------------------------------------- exception entry and return

  /** Stacking on exception entry (section B1.5.7 of the ARMv7-M architecture manual): the frame is aligned to eight bytes
      and bit 9 of the stacked xPSR says whether that took a word of padding. */
  function EntryAt(sp: int): int {
    if Odd(sp - FRAME) then sp - FRAME - 1 else sp - FRAME
  }

  function Stacked(m: Memory, f: int, regs: seq<Word>): Memory
    requires |regs| <= FRAME
    decreases |regs|
  {
    if regs == [] then m
    else Stacked(m, f, regs[..|regs| - 1])[f + |regs| - 1 := regs[|regs| - 1]]
  }

  function Entry(m: Memory, sp: int, regs: seq<Word>): Memory
    requires |regs| == FRAME
  {
    Stacked(m, EntryAt(sp), regs[XPSR := regs[XPSR].(bit9 := Odd(sp))])
  }

  /** Unstacking on exception return: the stack pointer above the frame, with its lowest bit set from bit 9. */
  function ReturnTo(m: Memory, f: int): int {
    if Read(m, f + XPSR).bit9 && !Odd(f + FRAME) then f + FRAME + 1 else f + FRAME
  }

  lemma {:induction false} StackedReads(m: Memory, f: int, regs: seq<Word>, a: int)
    requires |regs| <= FRAME
    ensures Read(Stacked(m, f, regs), a) == if f <= a < f + |regs| then regs[a - f] else Read(m, a)
    decreases |regs|
  {
    if regs != [] {
      StackedReads(m, f, regs[..|regs| - 1], a);
    }
  }

  /** An exception return on the frame of an exception entry restores the stack pointer, as long as bit 9 of the frame is
      kept; the entry writes only below that stack pointer. */
  lemma ReturnUndoesEntry(m: Memory, sp: int, regs: seq<Word>, later: Memory)
    requires |regs| == FRAME
    requires Read(later, EntryAt(sp) + XPSR).bit9 == Read(Entry(m, sp, regs), EntryAt(sp) + XPSR).bit9
    ensures ReturnTo(later, EntryAt(sp)) == sp
    ensures !Odd(EntryAt(sp)) && EntryAt(sp) + FRAME <= sp
  {
  }

  lemma EntryReads(m: Memory, sp: int, regs: seq<Word>, a: int)
    requires |regs| == FRAME
    ensures var f := EntryAt(sp);
            Read(Entry(m, sp, regs), a) ==
              if f <= a < f + FRAME then regs[XPSR := regs[XPSR].(bit9 := Odd(sp))][a - f] else Read(m, a)
  {
    StackedReads(m, EntryAt(sp), regs[XPSR := regs[XPSR].(bit9 := Odd(sp))], a);
  }

  /** The stack arguments of a system call lie at the stack pointer it was made with. */
  lemma SystemCallArgs(m: Memory, sp: int, regs: seq<Word>, n: nat)
    requires |regs| == FRAME && n >= 4
    ensures ArgAddress(Entry(m, sp, regs), EntryAt(sp), n) == sp + (n - 4)
  {
  }
}
