/** The stack allocation bitmap of src/os/kernel/sched.c. */
module Stacks {

  /** One flag per bit of the 32-bit allocation word. */
  type Bitmap = s: seq<bool> | |s| == 32 witness seq(32, i => false)

  const STACK_INVALID: nat := 0xFFFF_FFFF

  /** Bit p of the word; a mask shifted out of it selects nothing. */
  predicate BitSet(bits: Bitmap, p: nat) {
    p < 32 && bits[p]
  }

  function SetBit(bits: Bitmap, p: nat): Bitmap {
    if p < 32 then bits[p := true] else bits
  }

  /** os_stack_dispose. */
  function Dispose(bits: Bitmap, stacks: nat, id: nat): Bitmap
    requires stacks <= 32
  {
    if id < stacks then bits[id := false] else bits
  }

  /** Lowest free stack below `stacks` from q on, STACK_INVALID when all are taken. */
  function FirstFree(bits: Bitmap, stacks: nat, q: nat): (id: nat)
    requires q <= stacks <= 32
    ensures id == STACK_INVALID || (q <= id < stacks && !bits[id])
    ensures forall i :: q <= i < stacks && i < id ==> bits[i]
    decreases stacks - q
  {
    if q == stacks then STACK_INVALID else if !bits[q] then q else FirstFree(bits, stacks, q + 1)
  }

  /** The stack number returned, the bit that was marked for it, and the bitmap left behind. */
  datatype Found = Found(id: nat, bit: nat, bits: Bitmap)

  /** The search of os_stack_create from stack q with the mask at bit p. Each element of `aborts` is the
      bitmap found after an attempt to commit was aborted: the search then starts over at stack 0
      but keeps the mask where it was. */
  function Search(bits: Bitmap, aborts: seq<Bitmap>, stacks: nat, q: nat, p: nat): Found
    requires q <= stacks <= 32
    decreases |aborts|, stacks - q
  {
    if q == stacks then Found(STACK_INVALID, p, bits)
    else if BitSet(bits, p) then Search(bits, aborts, stacks, q + 1, p + 1)
    else if aborts == [] then Found(q, p, SetBit(bits, p))
    else Search(aborts[0], aborts[1..], stacks, 0, p)
  }

  function CreateStack(bits: Bitmap, aborts: seq<Bitmap>, stacks: nat): Found
    requires stacks <= 32
  {
    Search(bits, aborts, stacks, 0, 0)
  }

  /** Without aborts the mask keeps its distance to the stack number; an abort behind stack 0 lengthens it. */
  lemma {:induction false} SearchShift(bits: Bitmap, aborts: seq<Bitmap>, stacks: nat, q: nat, p: nat)
    requires q <= stacks <= 32 && q <= p
    ensures var f := Search(bits, aborts, stacks, q, p);
            f.id != STACK_INVALID ==>
              && f.id < stacks
              && f.bit - f.id >= p - q
              && (aborts == [] ==> f.bit - f.id == p - q)
              && (aborts != [] && q > 0 ==> f.bit - f.id > p - q)
    decreases |aborts|, stacks - q
  {
    if q < stacks {
      if BitSet(bits, p) {
        SearchShift(bits, aborts, stacks, q + 1, p + 1);
      } else if aborts != [] {
        SearchShift(aborts[0], aborts[1..], stacks, 0, p);
      }
    }
  }

  /** Undisturbed, the search returns the lowest free stack and marks exactly its bit. */
  lemma {:induction false} UndisturbedSearch(bits: Bitmap, stacks: nat, q: nat)
    requires q <= stacks <= 32
    ensures var f := Search(bits, [], stacks, q, q);
            && f.id == FirstFree(bits, stacks, q)
            && f.bits == if f.id == STACK_INVALID then bits else bits[f.id := true]
    decreases stacks - q
  {
    if q < stacks && bits[q] {
      UndisturbedSearch(bits, stacks, q + 1);
    }
  }

  /** The i-th bitmap on which an attempt to commit was aborted. */
  function AbortedOn(bits: Bitmap, aborts: seq<Bitmap>, i: nat): Bitmap
    requires i < |aborts|
  {
    if i == 0 then bits else aborts[i - 1]
  }

  /** A search that succeeds marks the bit of the stack it returns exactly when every aborted attempt was
      made on stack 0, that is when stack 0 was free whenever an attempt was aborted. */
  lemma {:induction false} MarksItsStackIff(bits: Bitmap, aborts: seq<Bitmap>, stacks: nat)
    requires 0 < stacks <= 32 && CreateStack(bits, aborts, stacks).id != STACK_INVALID
    ensures var f := CreateStack(bits, aborts, stacks);
            f.bit == f.id <==> forall i :: 0 <= i < |aborts| ==> !AbortedOn(bits, aborts, i)[0]
    decreases |aborts|
  {
    var f := CreateStack(bits, aborts, stacks);
    if aborts == [] {
      SearchShift(bits, [], stacks, 0, 0);
    } else if bits[0] {
      SearchShift(bits, aborts, stacks, 1, 1);
      assert AbortedOn(bits, aborts, 0)[0];
    } else {
      MarksItsStackIff(aborts[0], aborts[1..], stacks);
      assert forall i :: 0 < i < |aborts| ==> AbortedOn(bits, aborts, i) == AbortedOn(aborts[0], aborts[1..], i - 1);
      forall i | 0 <= i < |aborts| - 1
        ensures AbortedOn(aborts[0], aborts[1..], i) == AbortedOn(bits, aborts, i + 1)
      {
      }
    }
  }

  /** With stack 0 in use, an abort on stack 1 makes the search return stack 0 again and mark stack 1 for it. */
  lemma WrongBitMarked(bits: Bitmap)
    requires bits == seq(32, i => i == 0)
    ensures CreateStack(bits, [bits], 2) == Found(0, 1, bits[1 := true])
  {
    assert Search(bits, [bits], 2, 0, 0) == Search(bits, [bits], 2, 1, 1);
    assert Search(bits, [bits], 2, 1, 1) == Search(bits, [bits][1..], 2, 0, 1);
    assert [bits][1..] == [];
  }

  /** os_stacks.allocations. */
  class StackPool {
    var allocations: Bitmap
    const stacks: nat

    constructor (stacks: nat)
      ensures this.stacks == stacks && allocations == seq(32, i => false)
    {
      this.stacks := stacks;
      allocations := seq(32, i => false);
    }

    /** os_stack_create; `aborts` says which commits fail and what the bitmap is afterwards. */
    method Create(aborts: seq<Bitmap>) returns (rv: nat)
      requires stacks <= 32
      modifies this
      ensures var f := CreateStack(old(allocations), aborts, stacks); rv == f.id && allocations == f.bits
    {
      var left := aborts;
      var mask := 0;
      rv := STACK_INVALID;
      var q := 0;
      while q < stacks
        invariant q <= stacks
        invariant Search(allocations, left, stacks, q, mask) == CreateStack(old(allocations), aborts, stacks)
        invariant rv == STACK_INVALID
        decreases |left|, stacks - q
      {
        if !BitSet(allocations, mask) {
          if left == [] {
            allocations := SetBit(allocations, mask);
            return q;
          }
          allocations := left[0];
          left := left[1..];
          q := 0;
        } else {
          mask := mask + 1;
          q := q + 1;
        }
      }
    }

    method DisposeStack(id: nat)
      requires stacks <= 32
      modifies this
      ensures allocations == Dispose(old(allocations), stacks, id)
    {
      if id < stacks {
        allocations := allocations[id := false];
      }
    }
  }
}
