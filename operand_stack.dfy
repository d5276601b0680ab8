/** The operand stack both stack-machine headers declare: STACK_MAX uint64_t
    slots and a `stack_top` cursor, here the index of the first free slot
    (the depth). `stack_push` and `stack_pop` check no bounds, so a push on
    a full stack and a pop on an empty one are undefined in C and are ruled
    out by preconditions. */
module OperandStack {
  import opened Uint64

  const STACK_MAX: nat := 256

  datatype Stack = Stack(slots: seq<U64>, top: nat)

  predicate Valid(st: Stack)
  {
    |st.slots| == STACK_MAX && st.top <= STACK_MAX
  }

  /** The live values, bottom first. */
  function Contents(st: Stack): (c: seq<U64>)
    requires Valid(st)
    ensures |c| == st.top
  {
    st.slots[..st.top]
  }

  /** `reset_vm`: the cursor goes back to the first slot; the slots keep
      whatever they held. */
  function Reset(st: Stack): (r: Stack)
    requires Valid(st)
    ensures Valid(r) && Contents(r) == [] && r.slots == st.slots
  {
    st.(top := 0)
  }

  /** `stack_push(val)`: store at the cursor, then advance it. */
  function Push(st: Stack, val: U64): (r: Stack)
    requires Valid(st) && st.top < STACK_MAX
    ensures Valid(r) && r.top == st.top + 1
    ensures Contents(r) == Contents(st) + [val]
    ensures forall i :: 0 <= i < STACK_MAX && i != st.top ==> r.slots[i] == st.slots[i]
  {
    Stack(st.slots[st.top := val], st.top + 1)
  }

  /** `stack_pop()`: move the cursor back one and return the slot it then
      points at. No slot changes. */
  function Pop(st: Stack): (r: (Stack, U64))
    requires Valid(st) && st.top > 0
    ensures Valid(r.0) && r.0.top == st.top - 1 && r.0.slots == st.slots
    ensures Contents(st) == Contents(r.0) + [r.1]
  {
    (st.(top := st.top - 1), st.slots[st.top - 1])
  }

  /** A pop right after a push returns the pushed value and restores the
      depth and every live value; only the slot at the old depth changed. */
  lemma PushThenPop(st: Stack, val: U64)
    requires Valid(st) && st.top < STACK_MAX
    ensures Pop(Push(st, val)).1 == val
    ensures Pop(Push(st, val)).0.top == st.top
    ensures Contents(Pop(Push(st, val)).0) == Contents(st)
    ensures Pop(Push(st, val)).0.slots == st.slots[st.top := val]
  {
  }

  /** A push right after a pop restores the stack exactly when it pushes the
      value popped: then the slots as well as the depth are as before. */
  lemma PopThenPush(st: Stack, val: U64)
    requires Valid(st) && st.top > 0
    ensures Push(Pop(st).0, val) == st <==> val == Pop(st).1
  {
    if val == Pop(st).1 {
      assert Push(Pop(st).0, val).slots == st.slots;
    }
  }
}
