/** The stack machine of stack/vm.h: a byte-code program, an instruction
    pointer into it, the operand stack and a result slot `res`. There are two
    interpreters over the same opcodes: `interpret_function_dispatch`, which
    calls one handler per opcode, and `interpret_inline`, which spells each
    handler out in its switch. They differ only on a division by zero: the
    handler `do_div` exits the process, the inline case returns ERR_DIV_ZERO.

    Undefined behaviour in C (fetching past the end of the byte code, a push
    on a full stack, a pop on an empty one) is the outcome Undef of the
    pure runs; the methods require a run that does not reach it. */
module StackVm {
  import opened OperandStack
  import opened VmResult
  import opened Uint64

  // The opcode enum of stack/vm.h.
  const PUSH_IMM: bv8 := 0
  const ADD: bv8 := 1
  const SUB: bv8 := 2
  const MUL: bv8 := 3
  const DIV: bv8 := 4
  const POP_RES: bv8 := 5
  const DONE: bv8 := 6

  /** The `vm` struct: the instruction pointer as an index into the byte
      code, the stack with its cursor, and the result slot. */
  datatype VmState = VmState(ip: nat, stack: Stack, res: U64)

  /** What one handler, or one pass of a switch, does. */
  datatype Step =
    | Next(state: VmState)
    | Halt(status: Result, state: VmState)
    | Exit
    | Undefined

  /** How a run ends: the interpreter returns a status, the process exits
      inside `do_div`, or C's behaviour is undefined. */
  datatype Outcome = Halted(status: Result, state: VmState) | Exited | Undef

  /** left op right for ADD, SUB and MUL, and DIV with a nonzero right. */
  function Apply(op: bv8, left: U64, right: U64): U64
    requires op in {ADD, SUB, MUL} || (op == DIV && right != 0)
  {
    if op == ADD then Uint64.Add(left, right)
    else if op == SUB then Uint64.Sub(left, right)
    else if op == MUL then Uint64.Mul(left, right)
    else Uint64.Div(left, right)
  }

  // ---------------------------------------------------------------------
  // The handlers, each on the state after its opcode byte was fetched.

  /** `do_push_imm`: read the operand byte, advance past it, and push it
      zero-extended. */
  function PushImmStep(code: seq<bv8>, s: VmState): (r: Step)
    requires Valid(s.stack)
    ensures r.Next? <==> s.ip < |code| && s.stack.top < STACK_MAX
    ensures r.Next? ==> Valid(r.state.stack) && r.state.ip == s.ip + 1 && r.state.res == s.res
    ensures r.Next? ==> Contents(r.state.stack) == Contents(s.stack) + [code[s.ip] as U64]
    ensures !r.Next? ==> r.Undefined?
  {
    if s.ip >= |code| || s.stack.top >= STACK_MAX then Undefined
    else Next(s.(ip := s.ip + 1, stack := Push(s.stack, code[s.ip] as U64)))
  }

  /** Popping twice takes the top two live values, the right operand first,
      and leaves the rest below them. */
  lemma PopTwoContents(st: Stack)
    requires Valid(st) && st.top >= 2
    ensures var c := Contents(st);
      && Pop(st).1 == c[|c| - 1]
      && Pop(Pop(st).0).1 == c[|c| - 2]
      && Contents(Pop(Pop(st).0).0) == c[..|c| - 2]
  {
    var c := Contents(st);
    assert Contents(Pop(st).0) == c[..|c| - 1];
  }

  /** `do_add`, `do_sub` and `do_mul`: pop the right operand, then the left,
      push left op right. */
  function BinaryStep(op: bv8, s: VmState): (r: Step)
    requires Valid(s.stack) && op in {ADD, SUB, MUL}
    ensures r.Next? <==> s.stack.top >= 2
    ensures r.Next? ==> Valid(r.state.stack) && r.state.ip == s.ip && r.state.res == s.res
    ensures r.Next? ==> var c := Contents(s.stack);
      Contents(r.state.stack) == c[..|c| - 2] + [Apply(op, c[|c| - 2], c[|c| - 1])]
    ensures !r.Next? ==> r.Undefined?
  {
    if s.stack.top < 2 then Undefined
    else
      var (st1, right) := Pop(s.stack);
      var (st2, left) := Pop(st1);
      PopTwoContents(s.stack);
      Next(s.(stack := Push(st2, Apply(op, left, right))))
  }

  /** `do_div`: pop both operands; a zero right operand exits the process,
      otherwise push the unsigned quotient. */
  function DivStep(s: VmState): (r: Step)
    requires Valid(s.stack)
    ensures r.Exit? <==> s.stack.top >= 2 && Contents(s.stack)[s.stack.top - 1] == 0
    ensures r.Undefined? <==> s.stack.top < 2
    ensures r.Next? ==> Valid(r.state.stack) && r.state.ip == s.ip && r.state.res == s.res
    ensures r.Next? ==> var c := Contents(s.stack);
      Contents(r.state.stack) == c[..|c| - 2] + [Apply(DIV, c[|c| - 2], c[|c| - 1])]
  {
    if s.stack.top < 2 then Undefined
    else
      var (st1, right) := Pop(s.stack);
      var (st2, left) := Pop(st1);
      PopTwoContents(s.stack);
      if right == 0 then Exit
      else Next(s.(stack := Push(st2, Apply(DIV, left, right))))
  }

  /** `do_pop_res`: pop into the result slot. */
  function PopResStep(s: VmState): (r: Step)
    requires Valid(s.stack)
    ensures r.Next? <==> s.stack.top >= 1
    ensures r.Next? ==> Valid(r.state.stack) && r.state.ip == s.ip && r.state.stack.slots == s.stack.slots
    ensures r.Next? ==> (r.state.res == Contents(s.stack)[s.stack.top - 1]
      && Contents(r.state.stack) == Contents(s.stack)[..s.stack.top - 1])
    ensures !r.Next? ==> r.Undefined?
  {
    if s.stack.top < 1 then Undefined
    else
      var (st1, v) := Pop(s.stack);
      Next(s.(stack := st1, res := v))
  }

  // ---------------------------------------------------------------------
  // The two loops, one pass each.

  /** The switch of `interpret_function_dispatch` on a fetched byte op, in
      the state t after the fetch: call the handler; DONE and any byte
      outside the enum return. */
  function DispatchSwitch(code: seq<bv8>, op: bv8, t: VmState): (r: Step)
    requires Valid(t.stack) && t.ip <= |code|
    ensures (r.Next? || r.Halt?) ==> t.ip <= r.state.ip <= |code| && Valid(r.state.stack)
  {
    if op == PUSH_IMM then PushImmStep(code, t)
    else if op in {ADD, SUB, MUL} then BinaryStep(op, t)
    else if op == DIV then DivStep(t)
    else if op == POP_RES then PopResStep(t)
    else if op == DONE then Halt(Success, t)
    else Halt(ErrUnknownOpcode, t)
  }

  /** One pass of `interpret_function_dispatch`: fetch a byte, advance past
      it, and switch on it. */
  function FunctionDispatchStep(code: seq<bv8>, s: VmState): (r: Step)
    requires Valid(s.stack)
    ensures (r.Next? || r.Halt?) ==> s.ip < r.state.ip <= |code| && Valid(r.state.stack)
  {
    if s.ip >= |code| then Undefined
    else DispatchSwitch(code, code[s.ip], s.(ip := s.ip + 1))
  }

  /** The PUSH_IMM case of `interpret_inline`: read the operand byte and
      store it at the cursor. */
  function InlinePushCase(code: seq<bv8>, t: VmState): (r: Step)
    requires Valid(t.stack) && t.ip <= |code|
    ensures r.Next? ==> t.ip <= r.state.ip <= |code| && Valid(r.state.stack)
    ensures !r.Next? ==> r.Undefined?
  {
    if t.ip >= |code| || t.stack.top >= STACK_MAX then Undefined
    else Next(t.(ip := t.ip + 1, stack := Stack(t.stack.slots[t.stack.top := code[t.ip] as U64], t.stack.top + 1)))
  }

  /** The ADD, SUB, MUL and DIV cases: pop right, pop left, store left op
      right at the cursor; a zero divisor returns ERR_DIV_ZERO once both
      operands are popped. */
  function InlineBinaryCase(op: bv8, t: VmState): (r: Step)
    requires Valid(t.stack) && op in {ADD, SUB, MUL, DIV}
    ensures (r.Next? || r.Halt?) ==> r.state.ip == t.ip && Valid(r.state.stack)
    ensures r.Halt? ==> r.status == ErrDivZero && op == DIV
    ensures !r.Exit?
  {
    if t.stack.top < 2 then Undefined
    else
      var (st1, right) := Pop(t.stack);
      var (st2, left) := Pop(st1);
      if op == DIV && right == 0 then Halt(ErrDivZero, t.(stack := st2))
      else Next(t.(stack := Stack(st2.slots[st2.top := Apply(op, left, right)], st2.top + 1)))
  }

  /** The POP_RES case: move the cursor back and copy the slot into res. */
  function InlinePopResCase(t: VmState): (r: Step)
    requires Valid(t.stack)
    ensures r.Next? ==> r.state.ip == t.ip && Valid(r.state.stack)
    ensures !r.Next? ==> r.Undefined?
  {
    if t.stack.top < 1 then Undefined
    else Next(t.(stack := t.stack.(top := t.stack.top - 1), res := t.stack.slots[t.stack.top - 1]))
  }

  /** The switch of `interpret_inline`, written out as it is: pushes store
      at the cursor directly, pops go through `stack_pop`. */
  function InlineSwitch(code: seq<bv8>, op: bv8, t: VmState): (r: Step)
    requires Valid(t.stack) && t.ip <= |code|
    ensures (r.Next? || r.Halt?) ==> t.ip <= r.state.ip <= |code| && Valid(r.state.stack)
    ensures !r.Exit?
  {
    if op == PUSH_IMM then InlinePushCase(code, t)
    else if op in {ADD, SUB, MUL, DIV} then InlineBinaryCase(op, t)
    else if op == POP_RES then InlinePopResCase(t)
    else if op == DONE then Halt(Success, t)
    else Halt(ErrUnknownOpcode, t)
  }

  /** One pass of `interpret_inline`. */
  function InlineStep(code: seq<bv8>, s: VmState): (r: Step)
    requires Valid(s.stack)
    ensures (r.Next? || r.Halt?) ==> s.ip < r.state.ip <= |code| && Valid(r.state.stack)
    ensures !r.Exit?
  {
    if s.ip >= |code| then Undefined
    else InlineSwitch(code, code[s.ip], s.(ip := s.ip + 1))
  }

  /** `interpret_function_dispatch` from state s (its ip already set). */
  function RunFunctionDispatch(code: seq<bv8>, s: VmState): (o: Outcome)
    requires Valid(s.stack)
    ensures o.Halted? ==> Valid(o.state.stack)
    decreases |code| - s.ip
  {
    match FunctionDispatchStep(code, s)
    case Next(t) => RunFunctionDispatch(code, t)
    case Halt(status, t) => Halted(status, t)
    case Exit => Exited
    case Undefined => Undef
  }

  /** `interpret_inline` from state s (its ip already set). */
  function RunInline(code: seq<bv8>, s: VmState): (o: Outcome)
    requires Valid(s.stack)
    ensures o.Halted? ==> Valid(o.state.stack)
    ensures !o.Exited?
    decreases |code| - s.ip
  {
    match InlineStep(code, s)
    case Next(t) => RunInline(code, t)
    case Halt(status, t) => Halted(status, t)
    case _ => Undef
  }

  // ---------------------------------------------------------------------
  // The two strategies agree.

  /** The two switches agree on every byte, except where the inline one
      returns ERR_DIV_ZERO: there the handler exits the process. */
  lemma SwitchesAgree(code: seq<bv8>, op: bv8, t: VmState)
    requires Valid(t.stack) && t.ip <= |code|
    ensures DispatchSwitch(code, op, t) ==
      match InlineSwitch(code, op, t)
      case Halt(ErrDivZero, _) => Exit
      case other => other
  {
    if op == PUSH_IMM {
      assert DispatchSwitch(code, op, t) == PushImmStep(code, t);
    } else if op in {ADD, SUB, MUL} {
      assert DispatchSwitch(code, op, t) == BinaryStep(op, t);
    } else if op == DIV {
      assert DispatchSwitch(code, op, t) == DivStep(t);
    } else if op == POP_RES {
      assert DispatchSwitch(code, op, t) == PopResStep(t);
    }
  }

  /** The function-dispatch run is the inline run with a division by zero
      turned into a process exit; it exits exactly when the inline run
      returns ERR_DIV_ZERO, and otherwise the two end alike: same status,
      instruction pointer, stack, depth and result slot. */
  lemma {:induction false} DispatchStrategiesAgree(code: seq<bv8>, s: VmState)
    requires Valid(s.stack)
    ensures RunFunctionDispatch(code, s) ==
      if RunInline(code, s).Halted? && RunInline(code, s).status == ErrDivZero then Exited
      else RunInline(code, s)
    decreases |code| - s.ip
  {
    if s.ip < |code| {
      SwitchesAgree(code, code[s.ip], s.(ip := s.ip + 1));
    }
    match InlineStep(code, s)
    case Next(t) => DispatchStrategiesAgree(code, t);
    case _ =>
  }

  /** Hence, for a program whose inline run never divides by zero, the two
      interpreters end in the same way. */
  lemma SameOutcomeWithoutDivZero(code: seq<bv8>, s: VmState)
    requires Valid(s.stack)
    requires !(RunInline(code, s).Halted? && RunInline(code, s).status == ErrDivZero)
    ensures RunFunctionDispatch(code, s) == RunInline(code, s)
  {
    DispatchStrategiesAgree(code, s);
  }

  // ---------------------------------------------------------------------
  // Per-opcode facts on a single pass.

  /** PUSH_IMM consumes two bytes; every other opcode that does not stop the
      loop consumes one. */
  lemma {:induction false} InstructionLength(code: seq<bv8>, s: VmState)
    requires Valid(s.stack) && FunctionDispatchStep(code, s).Next?
    ensures FunctionDispatchStep(code, s).state.ip == s.ip + (if code[s.ip] == PUSH_IMM then 2 else 1)
  {
  }

  /** ADD, SUB, MUL and a nonzero DIV lower the depth by exactly one and
      leave every slot below the two operands as it was. */
  lemma {:induction false} BinaryDepth(code: seq<bv8>, s: VmState)
    requires Valid(s.stack) && s.ip < |code| && code[s.ip] in {ADD, SUB, MUL, DIV}
    requires InlineStep(code, s).Next?
    ensures var t := InlineStep(code, s).state;
      && t.stack.top == s.stack.top - 1
      && t.res == s.res
      && t.stack.slots[..t.stack.top - 1] == s.stack.slots[..s.stack.top - 2]
  {
  }

  /** In the inline loop a DIV by zero returns ERR_DIV_ZERO with both
      operands popped, nothing pushed and the result slot unchanged. */
  lemma InlineDivByZero(code: seq<bv8>, s: VmState)
    requires Valid(s.stack) && s.ip < |code| && code[s.ip] == DIV
    requires s.stack.top >= 2 && s.stack.slots[s.stack.top - 1] == 0
    ensures InlineStep(code, s) ==
      Halt(ErrDivZero, VmState(s.ip + 1, Stack(s.stack.slots, s.stack.top - 2), s.res))
  {
  }

  /** DONE returns SUCCESS and any byte 7..255 ERR_UNKNOWN_OPCODE, leaving
      the stack and the result slot alone. */
  lemma TerminalBytes(code: seq<bv8>, s: VmState)
    requires Valid(s.stack) && s.ip < |code| && code[s.ip] >= DONE
    ensures InlineStep(code, s) ==
      Halt(if code[s.ip] == DONE then Success else ErrUnknownOpcode, s.(ip := s.ip + 1))
    ensures FunctionDispatchStep(code, s) == InlineStep(code, s)
  {
  }

  // ---------------------------------------------------------------------
  // Unfolding the runs one pass at a time.

  /** A function-dispatch run that is defined fetches a byte that is in the
      code, takes a defined pass, and, when the pass goes on, ends as the
      run from the state after it. */
  lemma DispatchUnfold(code: seq<bv8>, s: VmState)
    requires Valid(s.stack) && RunFunctionDispatch(code, s) != Undef
    ensures s.ip < |code| && !FunctionDispatchStep(code, s).Undefined?
    ensures FunctionDispatchStep(code, s).Next? ==>
      RunFunctionDispatch(code, FunctionDispatchStep(code, s).state) == RunFunctionDispatch(code, s)
  {
  }

  /** The same for the inline loop. */
  lemma InlineUnfold(code: seq<bv8>, s: VmState)
    requires Valid(s.stack) && RunInline(code, s) != Undef
    ensures s.ip < |code| && !InlineStep(code, s).Undefined?
    ensures InlineStep(code, s).Next? ==> RunInline(code, InlineStep(code, s).state) == RunInline(code, s)
  {
  }

  /** How `interpret_function_dispatch` ends for its caller: it returns a
      status, or the process exits. */
  datatype Termination = Returned(status: Result) | ProcessExit

  /** The global `vm` struct of stack/vm.h. */
  class Machine {
    var instructionPtr: nat
    var stack: array<U64>
    var stackTop: nat
    var res: U64

    ghost predicate Valid()
      reads this
    {
      stack.Length == STACK_MAX && stackTop <= STACK_MAX
    }

    ghost function Current(): (s: VmState)
      reads this, stack
      requires Valid()
      ensures OperandStack.Valid(s.stack)
    {
      VmState(instructionPtr, Stack(stack[..], stackTop), res)
    }

    /** The global as static storage starts it: all zero. */
    constructor ()
      ensures Valid() && fresh(stack)
      ensures Current() == VmState(0, Stack(seq(STACK_MAX, _ => 0), 0), 0)
    {
      instructionPtr := 0;
      stack := new U64[STACK_MAX](_ => 0);
      stackTop := 0;
      res := 0;
      new;
      assert stack[..] == seq(STACK_MAX, _ => 0);
    }

    /** `reset_vm`: only the cursor moves; the slots, the result slot and the
        instruction pointer keep their values. */
    method Reset()
      requires Valid()
      modifies this
      ensures Valid() && stack == old(stack)
      ensures Current() == old(Current()).(stack := OperandStack.Reset(old(Current()).stack))
    {
      stackTop := 0;
    }

    /** `stack_push(val)`. */
    method StackPush(val: U64)
      requires Valid() && stackTop < STACK_MAX
      modifies this, stack
      ensures Valid() && stack == old(stack)
      ensures Current() == old(Current()).(stack := Push(old(Current()).stack, val))
    {
      stack[stackTop] := val;
      stackTop := stackTop + 1;
    }

    /** `stack_pop()`. */
    method StackPop() returns (val: U64)
      requires Valid() && stackTop > 0
      modifies this
      ensures Valid() && stack == old(stack)
      ensures Current() == old(Current()).(stack := Pop(old(Current()).stack).0)
      ensures val == Pop(old(Current()).stack).1
    {
      stackTop := stackTop - 1;
      val := stack[stackTop];
    }

    /** `do_push_imm`, with the instruction pointer on the operand byte. */
    method DoPushImm(bytecode: seq<bv8>)
      requires Valid() && PushImmStep(bytecode, Current()).Next?
      modifies this, stack
      ensures Valid() && stack == old(stack)
      ensures Current() == PushImmStep(bytecode, old(Current())).state
    {
      var arg := bytecode[instructionPtr];
      instructionPtr := instructionPtr + 1;
      StackPush(arg as U64);
    }

    /** `do_add`. */
    method DoAdd()
      requires Valid() && stackTop >= 2
      modifies this, stack
      ensures Valid() && stack == old(stack)
      ensures Current() == BinaryStep(ADD, old(Current())).state
    {
      var op2 := StackPop();
      var op1 := StackPop();
      StackPush(Uint64.Add(op1, op2));
    }

    /** `do_sub`. */
    method DoSub()
      requires Valid() && stackTop >= 2
      modifies this, stack
      ensures Valid() && stack == old(stack)
      ensures Current() == BinaryStep(SUB, old(Current())).state
    {
      var op2 := StackPop();
      var op1 := StackPop();
      StackPush(Uint64.Sub(op1, op2));
    }

    /** `do_mul`. */
    method DoMul()
      requires Valid() && stackTop >= 2
      modifies this, stack
      ensures Valid() && stack == old(stack)
      ensures Current() == BinaryStep(MUL, old(Current())).state
    {
      var op2 := StackPop();
      var op1 := StackPop();
      StackPush(Uint64.Mul(op1, op2));
    }

    /** `do_div`: exited is true where the C function calls exit(). */
    method DoDiv() returns (exited: bool)
      requires Valid() && stackTop >= 2
      modifies this, stack
      ensures Valid() && stack == old(stack)
      ensures exited <==> DivStep(old(Current())).Exit?
      ensures !exited ==> Current() == DivStep(old(Current())).state
    {
      var op2 := StackPop();
      var op1 := StackPop();
      if op2 == 0 {
        return true;
      }
      StackPush(Uint64.Div(op1, op2));
      exited := false;
    }

    /** `do_pop_res`. */
    method DoPopRes()
      requires Valid() && stackTop >= 1
      modifies this
      ensures Valid() && stack == old(stack)
      ensures Current() == PopResStep(old(Current())).state
    {
      res := StackPop();
    }

    /** The switch of `interpret_function_dispatch` on the fetched byte:
        stop is true when the loop ends, with how it ends in t. */
    method Dispatch(bytecode: seq<bv8>, instruction: bv8) returns (stop: bool, t: Termination)
      requires Valid() && instructionPtr <= |bytecode|
      requires !DispatchSwitch(bytecode, instruction, Current()).Undefined?
      modifies this, stack
      ensures Valid() && stack == old(stack)
      ensures DispatchSwitch(bytecode, instruction, old(Current())) ==
        if !stop then Next(Current())
        else if t.ProcessExit? then Exit
        else Halt(t.status, Current())
    {
      stop, t := false, Returned(Success);
      if instruction == PUSH_IMM {
        DoPushImm(bytecode);
      } else if instruction == ADD {
        DoAdd();
      } else if instruction == SUB {
        DoSub();
      } else if instruction == MUL {
        DoMul();
      } else if instruction == DIV {
        var exited := DoDiv();
        if exited {
          return true, ProcessExit;
        }
      } else if instruction == POP_RES {
        DoPopRes();
      } else if instruction == DONE {
        return true, Returned(Success);
      } else {
        return true, Returned(ErrUnknownOpcode);
      }
    }

    /** `interpret_function_dispatch`: fetch a byte, advance, and dispatch,
        until DONE or a byte outside the enum returns, or `do_div` exits the
        process. */
    method InterpretFunctionDispatch(bytecode: seq<bv8>) returns (t: Termination)
      requires Valid() && RunFunctionDispatch(bytecode, Current().(ip := 0)) != Undef
      modifies this, stack
      ensures Valid() && stack == old(stack)
      ensures RunFunctionDispatch(bytecode, old(Current()).(ip := 0)) ==
        if t.ProcessExit? then Exited else Halted(t.status, Current())
    {
      instructionPtr := 0;
      while true
        invariant Valid() && stack == old(stack) && instructionPtr <= |bytecode|
        invariant RunFunctionDispatch(bytecode, Current()) == RunFunctionDispatch(bytecode, old(Current()).(ip := 0))
        decreases |bytecode| - instructionPtr
      {
        DispatchUnfold(bytecode, Current());
        var instruction := bytecode[instructionPtr];
        instructionPtr := instructionPtr + 1;
        var stop;
        stop, t := Dispatch(bytecode, instruction);
        if stop {
          return;
        }
      }
    }

    // The cases of `interpret_inline`'s switch, each written out as in the
    // switch and proved against it.

    /** Case PUSH_IMM: read the operand byte and store it at the cursor. */
    method InlinePushImm(bytecode: seq<bv8>)
      requires Valid() && instructionPtr <= |bytecode|
      requires !InlinePushCase(bytecode, Current()).Undefined?
      modifies this, stack
      ensures Valid() && stack == old(stack)
      ensures InlinePushCase(bytecode, old(Current())) == Next(Current())
    {
      var arg := bytecode[instructionPtr];
      instructionPtr := instructionPtr + 1;
      stack[stackTop] := arg as U64;
      stackTop := stackTop + 1;
    }

    /** Cases ADD, SUB and MUL: pop right, pop left, store left op right at
        the cursor. */
    method InlineArithmetic(op: bv8)
      requires Valid() && op in {ADD, SUB, MUL}
      requires !InlineBinaryCase(op, Current()).Undefined?
      modifies this, stack
      ensures Valid() && stack == old(stack)
      ensures InlineBinaryCase(op, old(Current())) == Next(Current())
    {
      var op2 := StackPop();
      var op1 := StackPop();
      stack[stackTop] := if op == ADD then Uint64.Add(op1, op2)
        else if op == SUB then Uint64.Sub(op1, op2)
        else Uint64.Mul(op1, op2);
      stackTop := stackTop + 1;
    }

    /** Case DIV: pop right, pop left; a zero right returns ERR_DIV_ZERO
        (divByZero is true), otherwise store the quotient at the cursor. */
    method InlineDiv() returns (divByZero: bool)
      requires Valid()
      requires !InlineBinaryCase(DIV, Current()).Undefined?
      modifies this, stack
      ensures Valid() && stack == old(stack)
      ensures InlineBinaryCase(DIV, old(Current())) ==
        if divByZero then Halt(ErrDivZero, Current()) else Next(Current())
    {
      var op2 := StackPop();
      var op1 := StackPop();
      if op2 == 0 {
        return true;
      }
      stack[stackTop] := Uint64.Div(op1, op2);
      stackTop := stackTop + 1;
      divByZero := false;
    }

    /** Case POP_RES: move the cursor back and copy the slot into res. */
    method InlinePopRes()
      requires Valid()
      requires !InlinePopResCase(Current()).Undefined?
      modifies this
      ensures Valid() && stack == old(stack)
      ensures InlinePopResCase(old(Current())) == Next(Current())
    {
      stackTop := stackTop - 1;
      res := stack[stackTop];
    }

    /** The switch of `interpret_inline` on the fetched byte: stop is true
        when the loop returns status. */
    method InlineDispatch(bytecode: seq<bv8>, instruction: bv8) returns (stop: bool, status: Result)
      requires Valid() && instructionPtr <= |bytecode|
      requires !InlineSwitch(bytecode, instruction, Current()).Undefined?
      modifies this, stack
      ensures Valid() && stack == old(stack)
      ensures InlineSwitch(bytecode, instruction, old(Current())) ==
        if stop then Halt(status, Current()) else Next(Current())
    {
      stop, status := false, Success;
      if instruction == PUSH_IMM {
        InlinePushImm(bytecode);
      } else if instruction in {ADD, SUB, MUL} {
        InlineArithmetic(instruction);
      } else if instruction == DIV {
        stop := InlineDiv();
        if stop {
          status := ErrDivZero;
        }
      } else if instruction == POP_RES {
        InlinePopRes();
      } else if instruction == DONE {
        return true, Success;
      } else {
        return true, ErrUnknownOpcode;
      }
    }

    /** `interpret_inline`: fetch a byte, advance, and run its case, until
        DONE, a byte outside the enum or a division by zero returns. */
    method InterpretInline(bytecode: seq<bv8>) returns (status: Result)
      requires Valid() && RunInline(bytecode, Current().(ip := 0)) != Undef
      modifies this, stack
      ensures Valid() && stack == old(stack)
      ensures RunInline(bytecode, old(Current()).(ip := 0)) == Halted(status, Current())
    {
      instructionPtr := 0;
      while true
        invariant Valid() && stack == old(stack) && instructionPtr <= |bytecode|
        invariant RunInline(bytecode, Current()) == RunInline(bytecode, old(Current()).(ip := 0))
        decreases |bytecode| - instructionPtr
      {
        InlineUnfold(bytecode, Current());
        var instruction := bytecode[instructionPtr];
        instructionPtr := instructionPtr + 1;
        var stop;
        stop, status := InlineDispatch(bytecode, instruction);
        if stop {
          return;
        }
      }
    }
  }

  // ---------------------------------------------------------------------
  // The programs of the stack machine's drivers.

  /** PUSH_IMM 10; PUSH_IMM 5; ADD; POP_RES; DONE. */
  function AddProgram(): (code: seq<bv8>)
    ensures |code| == 7
  {
    [PUSH_IMM, 10, PUSH_IMM, 5, ADD, POP_RES, DONE]
  }

  /** From any state with an empty stack, both interpreters return SUCCESS
      with 15 in the result slot and the stack empty again. */
  lemma AddProgramRuns(slots: seq<U64>, res: U64)
    requires |slots| == STACK_MAX
    ensures var o := RunInline(AddProgram(), VmState(0, Stack(slots, 0), res));
      && o.Halted? && o.status == Success && o.state.res == 15
      && o.state.stack.top == 0 && o.state.ip == 7
    ensures RunFunctionDispatch(AddProgram(), VmState(0, Stack(slots, 0), res))
      == RunInline(AddProgram(), VmState(0, Stack(slots, 0), res))
  {
    var code := AddProgram();
    var s0 := VmState(0, Stack(slots, 0), res);
    var s1 := VmState(2, Stack(slots[0 := 10], 1), res);
    var s2 := VmState(4, Stack(slots[0 := 10][1 := 5], 2), res);
    var s3 := VmState(5, Stack(slots[0 := 10][1 := 5][0 := 15], 1), res);
    var s4 := VmState(6, Stack(slots[0 := 10][1 := 5][0 := 15], 0), 15);
    assert InlineStep(code, s0) == Next(s1);
    assert InlineStep(code, s1) == Next(s2);
    assert InlineStep(code, s2) == Next(s3);
    assert InlineStep(code, s3) == Next(s4);
    assert InlineStep(code, s4) == Halt(Success, s4.(ip := 7));
    assert RunInline(code, s3) == Halted(Success, s4.(ip := 7));
    assert RunInline(code, s2) == Halted(Success, s4.(ip := 7));
    assert RunInline(code, s1) == Halted(Success, s4.(ip := 7));
    assert RunInline(code, s0) == Halted(Success, s4.(ip := 7));
    SameOutcomeWithoutDivZero(code, s0);
  }

  /** PUSH_IMM 5; PUSH_IMM 0; DIV; POP_RES; DONE: the inline loop returns
      ERR_DIV_ZERO, the function-dispatch loop exits the process. */
  lemma DivByZeroProgramRuns(slots: seq<U64>, res: U64)
    requires |slots| == STACK_MAX
    ensures var code, s := [PUSH_IMM, 5, PUSH_IMM, 0, DIV, POP_RES, DONE], VmState(0, Stack(slots, 0), res);
      && RunInline(code, s) == Halted(ErrDivZero, VmState(5, Stack(slots[0 := 5][1 := 0], 0), res))
      && RunFunctionDispatch(code, s) == Exited
  {
    var code: seq<bv8> := [PUSH_IMM, 5, PUSH_IMM, 0, DIV, POP_RES, DONE];
    var s0 := VmState(0, Stack(slots, 0), res);
    var s1 := VmState(2, Stack(slots[0 := 5], 1), res);
    var s2 := VmState(4, Stack(slots[0 := 5][1 := 0], 2), res);
    assert InlineStep(code, s0) == Next(s1);
    assert InlineStep(code, s1) == Next(s2);
    assert InlineStep(code, s2) == Halt(ErrDivZero, VmState(5, Stack(slots[0 := 5][1 := 0], 0), res));
    assert RunInline(code, s1) == Halted(ErrDivZero, VmState(5, Stack(slots[0 := 5][1 := 0], 0), res));
    DispatchStrategiesAgree(code, s0);
  }

  /** The stack machine's drivers: reset, run PUSH_IMM 10; PUSH_IMM 5; ADD;
      POP_RES; DONE under each strategy, and read the result slot. */
  method RunAddProgram() returns (inline: Result, dispatched: Termination, value: U64)
    ensures inline == Success && dispatched == Returned(Success) && value == 15
  {
    var m := new Machine();
    m.Reset();
    AddProgramRuns(m.stack[..], m.res);
    inline := m.InterpretInline(AddProgram());
    m.Reset();
    AddProgramRuns(m.stack[..], m.res);
    dispatched := m.InterpretFunctionDispatch(AddProgram());
    value := m.res;
  }
}
