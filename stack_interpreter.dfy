/** stack/interpreter.h: the stack machine's global struct without a result
    slot, with `reset_vm`, `stack_push` and `stack_pop` over its 256 slots.
    Each method is specified by the matching function of OperandStack. */
module StackInterpreter {
  import opened OperandStack
  import opened Uint64

  class Machine {
    /** Declared by the struct; no operation here reads or moves it. */
    var instructionPtr: nat
    var stack: array<U64>
    var stackTop: nat

    ghost predicate Valid()
      reads this
    {
      stack.Length == STACK_MAX && stackTop <= STACK_MAX
    }

    ghost function Operands(): Stack
      reads this, stack
      requires Valid()
    {
      Stack(stack[..], stackTop)
    }

    /** The global as static storage starts it: every slot zero. */
    constructor ()
      ensures Valid() && fresh(stack) && stackTop == 0 && instructionPtr == 0
      ensures forall i :: 0 <= i < STACK_MAX ==> stack[i] == 0
    {
      instructionPtr := 0;
      stack := new U64[STACK_MAX](_ => 0);
      stackTop := 0;
    }

    /** `reset_vm`: the stack is empty, the slots untouched. */
    method Reset()
      requires Valid()
      modifies this
      ensures Valid() && stack == old(stack) && instructionPtr == old(instructionPtr)
      ensures Operands() == OperandStack.Reset(old(Operands()))
    {
      stackTop := 0;
    }

    /** `stack_push(val)`. */
    method StackPush(val: U64)
      requires Valid() && stackTop < STACK_MAX
      modifies this, stack
      ensures Valid() && stack == old(stack) && instructionPtr == old(instructionPtr)
      ensures Operands() == Push(old(Operands()), val)
    {
      stack[stackTop] := val;
      stackTop := stackTop + 1;
    }

    /** `stack_pop()`. */
    method StackPop() returns (val: U64)
      requires Valid() && stackTop > 0
      modifies this
      ensures Valid() && stack == old(stack) && instructionPtr == old(instructionPtr)
      ensures (Operands(), val) == Pop(old(Operands()))
    {
      stackTop := stackTop - 1;
      val := stack[stackTop];
    }
  }
}
