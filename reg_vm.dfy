/** The register machine of reg/vm.h: sixteen 64-bit registers, a result
    slot and an instruction pointer into an array of 16-bit words, run by the
    fetch-decode-switch loop `interpret`. The `do_*` handlers, which the
    threaded variant calls, are modelled as methods and proved to make the
    same update as the matching case of `interpret`.

    Arithmetic is on U64, so +, - and * wrap modulo 2^64 and / is unsigned
    division, as on uint64_t. */
module RegVm {
  import opened RegCodec
  import opened VmResult
  import opened Uint64

  /** The register file and the result slot. */
  datatype RegState = RegState(regs: seq<U64>, result: U64)

  predicate ValidState(s: RegState)
  {
    |s.regs| == NUM_REGS
  }

  /** What `reset_vm` leaves: every register and the result zero. */
  function ResetState(): (s: RegState)
    ensures ValidState(s) && s.result == 0
    ensures forall i :: 0 <= i < NUM_REGS ==> s.regs[i] == 0
  {
    RegState(seq(NUM_REGS, _ => 0), 0)
  }

  /** A word that stops `interpret` whatever the registers hold: DONE, or an
      opcode outside the enum (7..15). */
  predicate IsTerminal(w: bv16)
  {
    DecodeOp(w) >= DONE
  }

  /** The outcome of one pass of the switch: go on with a new state, or
      return a status with the state as it is. */
  datatype Step = Continue(next: RegState) | Stop(status: Result)

  /** One pass of `interpret`'s switch on the decoded fields of a word: the
      opcode, the register numbers r0, r1, r2 and the immediate. */
  function ExecuteFields(s: RegState, op: bv16, r0: nat, r1: nat, r2: nat, imm: nat): (r: Step)
    requires ValidState(s) && r0 < NUM_REGS && r1 < NUM_REGS && r2 < NUM_REGS && imm < 256
    ensures r.Continue? ==> ValidState(r.next)
    ensures r.Stop? <==> op >= DONE || (op == DIV && s.regs[r1] == 0)
  {
    if op == LOAD_IMM then Continue(s.(regs := s.regs[r0 := imm as U64]))
    else if op == ADD then Continue(s.(regs := s.regs[r2 := Uint64.Add(s.regs[r0], s.regs[r1])]))
    else if op == SUB then Continue(s.(regs := s.regs[r2 := Uint64.Sub(s.regs[r0], s.regs[r1])]))
    else if op == MUL then Continue(s.(regs := s.regs[r2 := Uint64.Mul(s.regs[r0], s.regs[r1])]))
    else if op == DIV then
      if s.regs[r1] == 0 then Stop(ErrDivZero)
      else Continue(s.(regs := s.regs[r2 := Uint64.Div(s.regs[r0], s.regs[r1])]))
    else if op == MOV_RES then Continue(s.(result := s.regs[r0]))
    else if op == DONE then Stop(Success)
    else Stop(ErrUnknownOpcode)
  }

  /** One pass of `interpret`'s switch on the fetched word w. */
  function Execute(s: RegState, w: bv16): (r: Step)
    requires ValidState(s)
    ensures r.Continue? ==> ValidState(r.next)
    ensures r.Stop? <==> IsTerminal(w) || (DecodeOp(w) == DIV && s.regs[Reg1(w)] == 0)
  {
    ExecuteFields(s, DecodeOp(w), Reg0(w), Reg1(w), Reg2(w), ImmValue(w))
  }

  /** Some word at or after index ip is terminal. */
  ghost predicate HaltsFrom(code: seq<bv16>, ip: nat)
  {
    exists k :: ip <= k < |code| && IsTerminal(code[k])
  }

  /** Running from index ip in state s returns before the end of the
      bytecode: on a terminal word, or on a DIV whose divisor is zero.
      Otherwise `interpret` reads past the end of the array, which C leaves
      undefined. */
  ghost predicate StopsWithin(code: seq<bv16>, ip: nat, s: RegState)
    requires ValidState(s)
    decreases |code| - ip
  {
    && ip < |code|
    && match Execute(s, code[ip])
       case Stop(_) => true
       case Continue(t) => StopsWithin(code, ip + 1, t)
  }

  /** The index of the first terminal word at or after ip. */
  function FirstTerminal(code: seq<bv16>, ip: nat): (k: nat)
    requires HaltsFrom(code, ip)
    ensures ip <= k < |code| && IsTerminal(code[k])
    ensures forall j :: ip <= j < k ==> !IsTerminal(code[j])
    decreases |code| - ip
  {
    if IsTerminal(code[ip]) then ip else FirstTerminal(code, ip + 1)
  }

  /** How `interpret` ends: the status it returns, the registers and result
      slot, and where the instruction pointer stands (one past the word that
      stopped it). */
  datatype Final = Final(status: Result, state: RegState, ip: nat)

  /** `interpret` from index ip in state s. */
  function Run(code: seq<bv16>, ip: nat, s: RegState): (f: Final)
    requires ValidState(s) && StopsWithin(code, ip, s)
    ensures ValidState(f.state) && ip < f.ip <= |code|
    decreases |code| - ip
  {
    match Execute(s, code[ip])
    case Stop(status) => Final(status, s, ip + 1)
    case Continue(next) => Run(code, ip + 1, next)
  }

  /** A word that is not terminal leaves a terminal word further on. */
  lemma HaltsPast(code: seq<bv16>, ip: nat)
    requires HaltsFrom(code, ip) && !IsTerminal(code[ip])
    ensures HaltsFrom(code, ip + 1)
  {
  }

  /** A program with a terminal word at or after ip returns before the end
      of the array from every state. */
  lemma {:induction false} HaltsStops(code: seq<bv16>, ip: nat, s: RegState)
    requires ValidState(s) && HaltsFrom(code, ip)
    ensures StopsWithin(code, ip, s)
    decreases |code| - ip
  {
    match Execute(s, code[ip])
    case Stop(_) =>
    case Continue(t) =>
      HaltsPast(code, ip);
      HaltsStops(code, ip + 1, t);
  }

  /** One iteration of the loop that goes on: a run from the next index in
      the new state ends as the run from this one. */
  lemma RunContinue(code: seq<bv16>, ip: nat, s: RegState, t: RegState)
    requires ValidState(s) && StopsWithin(code, ip, s) && Execute(s, code[ip]) == Continue(t)
    ensures ValidState(t) && StopsWithin(code, ip + 1, t)
    ensures Run(code, ip + 1, t) == Run(code, ip, s)
  {
  }

  /** Each iteration fetches exactly one word. A run stops at the first
      terminal word, index k, after k + 1 fetches, unless a DIV by zero stops
      it earlier; it returns SUCCESS exactly when that word is DONE. */
  lemma {:induction false} RunStopsAtFirstTerminal(code: seq<bv16>, ip: nat, s: RegState)
    requires ValidState(s) && HaltsFrom(code, ip)
    ensures StopsWithin(code, ip, s)
    ensures var f, k := Run(code, ip, s), FirstTerminal(code, ip);
      && ip < f.ip <= k + 1
      && (f.status == ErrDivZero ==>
            DecodeOp(code[f.ip - 1]) == DIV && f.state.regs[Reg1(code[f.ip - 1])] == 0)
      && (f.status != ErrDivZero ==>
            f.ip == k + 1 && (f.status == Success <==> DecodeOp(code[k]) == DONE))
    decreases |code| - ip
  {
    HaltsStops(code, ip, s);
    var w := code[ip];
    match Execute(s, w)
    case Stop(status) =>
      assert Run(code, ip, s) == Final(status, s, ip + 1);
      if IsTerminal(w) {
        TerminalEffect(s, w);
        assert FirstTerminal(code, ip) == ip;
      } else {
        assert status == ErrDivZero;
      }
    case Continue(next) =>
      RunContinue(code, ip, s, next);
      HaltsPast(code, ip);
      assert FirstTerminal(code, ip) == FirstTerminal(code, ip + 1);
      RunStopsAtFirstTerminal(code, ip + 1, next);
  }

  /** A run can also end without any terminal word: a lone DIV r0, r1, r2
      on the reset machine returns ERR_DIV_ZERO after one fetch. */
  lemma DivByZeroWithoutDone()
    ensures var code, s := [EncodeOpRegs(DIV, 0, 1, 2)], ResetState();
      && !HaltsFrom(code, 0) && StopsWithin(code, 0, s)
      && Run(code, 0, s) == Final(ErrDivZero, s, 1)
  {
    var code, s := [EncodeOpRegs(DIV, 0, 1, 2)], ResetState();
    assert !IsTerminal(code[0]);
    assert Execute(s, code[0]) == Stop(ErrDivZero);
  }

  /** LOAD_IMM sets r0 to the immediate zero-extended and changes no other
      register and not the result. */
  lemma LoadImmEffect(s: RegState, w: bv16)
    requires ValidState(s) && DecodeOp(w) == LOAD_IMM
    ensures Execute(s, w).Continue?
    ensures var t := Execute(s, w).next;
      && t.regs[Reg0(w)] == ImmValue(w) as U64
      && t.regs[Reg0(w)] < 256
      && (forall i :: 0 <= i < NUM_REGS && i != Reg0(w) ==> t.regs[i] == s.regs[i])
      && t.result == s.result
  {
  }

  /** ADD, SUB and MUL write r0 op r1, modulo 2^64, to r2 and nothing else;
      both operands are read before the write, so r2 may be r0 or r1. */
  lemma ArithmeticEffect(s: RegState, w: bv16)
    requires ValidState(s) && DecodeOp(w) in {ADD, SUB, MUL}
    ensures Execute(s, w).Continue?
    ensures var t, op := Execute(s, w).next, DecodeOp(w);
      var a, b := s.regs[Reg0(w)], s.regs[Reg1(w)];
      && t.regs[Reg2(w)] == (if op == ADD then Uint64.Add(a, b) else if op == SUB then Uint64.Sub(a, b) else Uint64.Mul(a, b))
      && (forall i :: 0 <= i < NUM_REGS && i != Reg2(w) ==> t.regs[i] == s.regs[i])
      && t.result == s.result
  {
  }

  /** DIV by a zero r1 returns ERR_DIV_ZERO and leaves everything as it was;
      otherwise it writes the unsigned quotient r0 / r1 to r2 only. */
  lemma DivEffect(s: RegState, w: bv16)
    requires ValidState(s) && DecodeOp(w) == DIV
    ensures var a, b := s.regs[Reg0(w)], s.regs[Reg1(w)];
      if b == 0 then Execute(s, w) == Stop(ErrDivZero)
      else
        && Execute(s, w).Continue?
        && Execute(s, w).next.regs[Reg2(w)] == Uint64.Div(a, b)
        && (forall i :: 0 <= i < NUM_REGS && i != Reg2(w) ==> Execute(s, w).next.regs[i] == s.regs[i])
        && Execute(s, w).next.result == s.result
  {
  }

  /** MOV_RES copies r0 to the result and changes no register. */
  lemma MovResEffect(s: RegState, w: bv16)
    requires ValidState(s) && DecodeOp(w) == MOV_RES
    ensures Execute(s, w) == Continue(RegState(s.regs, s.regs[Reg0(w)]))
  {
  }

  /** DONE returns SUCCESS; every opcode 7..15 returns ERR_UNKNOWN_OPCODE.
      A Stop step leaves the registers and result alone (Run keeps s). */
  lemma TerminalEffect(s: RegState, w: bv16)
    requires ValidState(s) && IsTerminal(w)
    ensures Execute(s, w) == Stop(if DecodeOp(w) == DONE then Success else ErrUnknownOpcode)
    ensures DecodeOp(w) != DONE <==> !IsOpcode(DecodeOp(w))
  {
  }

  /** The program the register machine's drivers run: LOAD_IMM r3, 5;
      MOV_RES r3; DONE. */
  function LoadMoveDone(): (code: seq<bv16>)
    ensures |code| == 3 && IsTerminal(code[2]) && HaltsFrom(code, 0)
  {
    [EncodeOpRegImm(LOAD_IMM, 3, 5), EncodeOpReg(MOV_RES, 3), EncodeOp(DONE)]
  }

  /** From the reset state it returns SUCCESS with 5 in the result slot. */
  lemma LoadMoveDoneRun()
    ensures Run(LoadMoveDone(), 0, ResetState()) == Final(Success, ResetState().(regs := ResetState().regs[3 := 5], result := 5), 3)
  {
    var code, s0 := LoadMoveDone(), ResetState();
    var s1 := s0.(regs := s0.regs[3 := 5]);
    var s2 := s1.(result := 5);
    assert Execute(s0, code[0]) == Continue(s1);
    assert Execute(s1, code[1]) == Continue(s2);
    assert Execute(s2, code[2]) == Stop(Success);
    assert StopsWithin(code, 1, s1);
    assert Run(code, 2, s2) == Final(Success, s2, 3);
  }

  /** The machine: the global `vm` struct. */
  class Machine {
    var instructionPtr: nat
    var regs: array<U64>
    var result: U64

    ghost predicate Valid()
      reads this
    {
      regs.Length == NUM_REGS
    }

    ghost function Current(): RegState
      reads this, regs
    {
      RegState(regs[..], result)
    }

    /** The global as C's static storage starts it: all zero. */
    constructor ()
      ensures Valid() && fresh(regs)
      ensures Current() == ResetState() && instructionPtr == 0
    {
      instructionPtr := 0;
      regs := new U64[NUM_REGS](_ => 0);
      result := 0;
      new;
      assert regs[..] == ResetState().regs;
    }

    /** `reset_vm`: the whole struct is overwritten with zeros; the null
        instruction pointer is index 0 here. */
    method Reset()
      requires Valid()
      modifies this, regs
      ensures Valid() && regs == old(regs)
      ensures Current() == ResetState() && instructionPtr == 0
    {
      forall i | 0 <= i < regs.Length {
        regs[i] := 0;
      }
      result := 0;
      instructionPtr := 0;
      assert regs[..] == ResetState().regs;
    }

    // The do_* handlers. Each takes every decoded field, used or not, as a
    // uint8_t value (here a nat in the range its decoding gives: below 16
    // for the opcode and registers, below 256 for the immediate); each
    // makes the update that
    // `interpret`'s case for its opcode makes for those fields.

    method DoLoadImm(op: nat, r0: nat, r1: nat, r2: nat, imm: nat)
      requires Valid() && op < 16 && r0 < NUM_REGS && r1 < NUM_REGS && r2 < NUM_REGS && imm < 256
      modifies regs
      ensures Current() == ExecuteFields(old(Current()), LOAD_IMM, r0, r1, r2, imm).next
    {
      regs[r0] := imm as U64;
    }

    method DoAdd(op: nat, r0: nat, r1: nat, r2: nat, imm: nat)
      requires Valid() && op < 16 && r0 < NUM_REGS && r1 < NUM_REGS && r2 < NUM_REGS && imm < 256
      modifies regs
      ensures Current() == ExecuteFields(old(Current()), ADD, r0, r1, r2, imm).next
    {
      regs[r2] := Uint64.Add(regs[r0], regs[r1]);
    }

    method DoSub(op: nat, r0: nat, r1: nat, r2: nat, imm: nat)
      requires Valid() && op < 16 && r0 < NUM_REGS && r1 < NUM_REGS && r2 < NUM_REGS && imm < 256
      modifies regs
      ensures Current() == ExecuteFields(old(Current()), SUB, r0, r1, r2, imm).next
    {
      regs[r2] := Uint64.Sub(regs[r0], regs[r1]);
    }

    method DoMul(op: nat, r0: nat, r1: nat, r2: nat, imm: nat)
      requires Valid() && op < 16 && r0 < NUM_REGS && r1 < NUM_REGS && r2 < NUM_REGS && imm < 256
      modifies regs
      ensures Current() == ExecuteFields(old(Current()), MUL, r0, r1, r2, imm).next
    {
      regs[r2] := Uint64.Mul(regs[r0], regs[r1]);
    }

    /** `do_div`: on a zero divisor the process exits (exited is true) with
        nothing written, exactly where `interpret` returns ERR_DIV_ZERO. */
    method DoDiv(op: nat, r0: nat, r1: nat, r2: nat, imm: nat) returns (exited: bool)
      requires Valid() && op < 16 && r0 < NUM_REGS && r1 < NUM_REGS && r2 < NUM_REGS && imm < 256
      modifies regs
      ensures var step := ExecuteFields(old(Current()), DIV, r0, r1, r2, imm);
        && (exited <==> step == Stop(ErrDivZero))
        && (exited ==> Current() == old(Current()))
        && (!exited ==> Current() == step.next)
    {
      if regs[r1] == 0 {
        return true;
      }
      regs[r2] := Uint64.Div(regs[r0], regs[r1]);
      exited := false;
    }

    method DoMovRes(op: nat, r0: nat, r1: nat, r2: nat, imm: nat)
      requires Valid() && op < 16 && r0 < NUM_REGS && r1 < NUM_REGS && r2 < NUM_REGS && imm < 256
      modifies this
      ensures Valid() && regs == old(regs) && instructionPtr == old(instructionPtr)
      ensures Current() == ExecuteFields(old(Current()), MOV_RES, r0, r1, r2, imm).next
    {
      result := regs[r0];
    }

    /** The body of `interpret`'s switch for one fetched word: stop is true
        when the switch returns, with the status it returns. */
    method Dispatch(instruction: bv16) returns (stop: bool, status: Result)
      requires Valid()
      modifies this, regs
      ensures Valid() && regs == old(regs) && instructionPtr == old(instructionPtr)
      ensures Execute(old(Current()), instruction) == if stop then Stop(status) else Continue(Current())
      ensures stop ==> Current() == old(Current())
    {
      var op, r0, r1, r2 := OpValue(instruction), Reg0(instruction), Reg1(instruction), Reg2(instruction);
      var imm := ImmValue(instruction);
      ghost var fields := ExecuteFields(old(Current()), DecodeOp(instruction), r0, r1, r2, imm);
      assert Execute(old(Current()), instruction) == fields;
      stop, status := false, Success;
      if DecodeOp(instruction) == LOAD_IMM {
        DoLoadImm(op, r0, r1, r2, imm);
      } else if DecodeOp(instruction) == ADD {
        DoAdd(op, r0, r1, r2, imm);
      } else if DecodeOp(instruction) == SUB {
        DoSub(op, r0, r1, r2, imm);
      } else if DecodeOp(instruction) == MUL {
        DoMul(op, r0, r1, r2, imm);
      } else if DecodeOp(instruction) == DIV {
        if regs[r1] == 0 {
          return true, ErrDivZero;
        }
        var _ := DoDiv(op, r0, r1, r2, imm);
      } else if DecodeOp(instruction) == MOV_RES {
        DoMovRes(op, r0, r1, r2, imm);
      } else if DecodeOp(instruction) == DONE {
        return true, Success;
      } else {
        return true, ErrUnknownOpcode;
      }
    }

    /** `interpret`: fetch the word at the instruction pointer, advance it,
        decode, and switch on the opcode until DONE, an unknown opcode or a
        division by zero. */
    method Interpret(bytecode: seq<bv16>) returns (status: Result)
      requires Valid() && StopsWithin(bytecode, 0, Current())
      modifies this, regs
      ensures Valid() && regs == old(regs)
      ensures Run(bytecode, 0, old(Current())) == Final(status, Current(), instructionPtr)
    {
      instructionPtr := 0;
      while true
        invariant Valid() && regs == old(regs)
        invariant StopsWithin(bytecode, instructionPtr, Current())
        invariant Run(bytecode, instructionPtr, Current()) == Run(bytecode, 0, old(Current()))
        decreases |bytecode| - instructionPtr
      {
        ghost var before := Current();
        var instruction := bytecode[instructionPtr];
        instructionPtr := instructionPtr + 1;
        var stop;
        stop, status := Dispatch(instruction);
        if stop {
          return;
        }
        RunContinue(bytecode, instructionPtr - 1, before, Current());
      }
    }
  }

  /** The register machine's driver: reset, run LOAD_IMM r3, 5; MOV_RES r3;
      DONE, and read the result slot. */
  method RunLoadMoveDone() returns (status: Result, value: U64)
    ensures status == Success && value == 5
  {
    var m := new Machine();
    m.Reset();
    HaltsStops(LoadMoveDone(), 0, m.Current());
    status := m.Interpret(LoadMoveDone());
    value := m.result;
    LoadMoveDoneRun();
  }
}
