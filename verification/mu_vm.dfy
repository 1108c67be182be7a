/** The stack machine (`ParseCmdCodeBulk`): as a function that faults where the original would leave
    its stack buffer, and as the loop over an array and the variables. */
module MuVm {
  import opened MuCode
  import opened MuBuilder

  /** `stk[i]` is the machine's `stack[i + 1]`; index 0 of the buffer is never used. */
  datatype Vm =
    | Running(pc: nat, stk: seq<real>, store: Store)
    | Halted(stk: seq<real>, store: Store)
    | Fault

  function Push(pc: nat, stk: seq<real>, v: real, store: Store, cap: nat): Vm {
    if |stk| + 1 < cap then Running(pc + 1, stk + [v], store) else Fault
  }

  /** Replaces the top `n` values by one. */
  function Reduce(pc: nat, stk: seq<real>, n: nat, v: real, store: Store): Vm
    requires 0 < n <= |stk|
  {
    Running(pc + 1, stk[..|stk| - n] + [v], store)
  }

  function CallStep(m: Machine, cb: Callable, argc: int, cap: nat, pc: nat, stk: seq<real>, store: Store): Vm {
    var n := Abs(argc);
    if argc > 10 || n > |stk| then Fault
    else if n == 0 then Push(pc, stk, CallValue(m, cb, []), store, cap)
    else Reduce(pc, stk, n, CallValue(m, cb, stk[|stk| - n..]), store)
  }

  /** One token.  Leaving the buffer of `cap` entries, or reading below the first value, is a fault. */
  function Step(m: Machine, code: seq<Token>, cap: nat, pc: nat, stk: seq<real>, store: Store): Vm
    requires pc < |code|
  {
    var d := |stk|;
    match code[pc]
    case Operand(_, _, _, _) => Push(pc, stk, OperandValue(code[pc], store), store, cap)
    case Bin(op) => if d < 2 then Fault else Reduce(pc, stk, 2, BinaryValue(m, op, stk[d - 2], stk[d - 1]), store)
    case Fun(cb, argc) => CallStep(m, cb, argc, cap, pc, stk, store)
    case Assign(p) => if d < 2 then Fault else Reduce(pc, stk, 2, stk[d - 1], Update(store, p, stk[d - 1]))
    case If(offset) =>
      if d < 1 then Fault
      else Running(if stk[d - 1] == 0.0 then pc + offset + 1 else pc + 1, stk[..d - 1], store)
    case Else(offset) => Running(pc + offset + 1, stk, store)
    case EndIf => Running(pc + 1, stk, store)
    case End => Halted(stk, store)
  }

  lemma StepAdvances(m: Machine, code: seq<Token>, cap: nat, pc: nat, stk: seq<real>, store: Store)
    requires pc < |code|
    ensures Step(m, code, cap, pc, stk, store).Running? ==> Step(m, code, cap, pc, stk, store).pc > pc
  {
  }

  /** All jumps go forward, so every run ends. */
  function Run(m: Machine, code: seq<Token>, cap: nat, pc: nat, stk: seq<real>, store: Store): Vm
    decreases |code| - pc
  {
    if pc >= |code| then Fault
    else
      StepAdvances(m, code, cap, pc, stk, store);
      match Step(m, code, cap, pc, stk, store)
      case Running(pc1, stk1, store1) => Run(m, code, cap, pc1, stk1, store1)
      case other => other
  }

  lemma RunUnrolls(m: Machine, code: seq<Token>, cap: nat, pc: nat, stk: seq<real>, store: Store)
    requires Run(m, code, cap, pc, stk, store).Halted?
    ensures pc < |code| && Step(m, code, cap, pc, stk, store) != Fault
    ensures var next := Step(m, code, cap, pc, stk, store);
      Run(m, code, cap, pc, stk, store) ==
      if next.Running? then Run(m, code, cap, next.pc, next.stk, next.store) else next
  {
    StepAdvances(m, code, cap, pc, stk, store);
  }

  // ----- the machine as a loop over a stack buffer -----

  class Memory {
    var cells: Store
  }

  /** The abstract stack held in a buffer. */
  function Slice(buffer: seq<real>, sidx: nat): seq<real>
    requires sidx < |buffer|
  {
    buffer[1..sidx + 1]
  }

  /** `ParseCmdCodeBulk`.  Every access to `stack` is inside the buffer; the result is the one the
      abstract machine reaches, and so are the variables. */
  method ParseCmdCode(m: Machine, code: seq<Token>, stack: array<real>, mem: Memory, finalIdx: nat) returns (r: real)
    requires Run(m, code, stack.Length, 0, [], mem.cells).Halted?
    requires 1 <= finalIdx <= |Run(m, code, stack.Length, 0, [], mem.cells).stk|
    requires stack.Length > 0
    modifies stack, mem
    ensures var h := old(Run(m, code, stack.Length, 0, [], mem.cells));
      r == h.stk[finalIdx - 1] && mem.cells == h.store
  {
    hide Run, OperandValue, BinaryValue, CallValue, Update;
    ghost var goal := Run(m, code, stack.Length, 0, [], mem.cells);
    var sidx := 0;
    var pc := 0;
    assert Slice(stack[..], 0) == [];
    RunUnrolls(m, code, stack.Length, 0, [], mem.cells);
    while code[pc] != End
      invariant 0 <= pc < |code| && 0 <= sidx < stack.Length
      invariant Run(m, code, stack.Length, pc, Slice(stack[..], sidx), mem.cells) == goal
      decreases |code| - pc
    {
      ghost var stk, store := Slice(stack[..], sidx), mem.cells;
      StepAdvances(m, code, stack.Length, pc, stk, store);
      RunUnrolls(m, code, stack.Length, pc, stk, store);
      pc, sidx := Execute(m, code, stack, mem, pc, sidx);
      RunUnrolls(m, code, stack.Length, pc, Slice(stack[..], sidx), mem.cells);
    }
    RunUnrolls(m, code, stack.Length, pc, Slice(stack[..], sidx), mem.cells);
    r := stack[finalIdx];
  }

  /** One round of the loop. */
  method Execute(m: Machine, code: seq<Token>, stack: array<real>, mem: Memory, pc: nat, sidx: nat)
    returns (pc1: nat, sidx1: nat)
    requires pc < |code| && code[pc] != End && sidx < stack.Length
    requires Step(m, code, stack.Length, pc, Slice(stack[..], sidx), mem.cells) != Fault
    modifies stack, mem
    ensures sidx1 < stack.Length
    ensures Running(pc1, Slice(stack[..], sidx1), mem.cells)
         == old(Step(m, code, stack.Length, pc, Slice(stack[..], sidx), mem.cells))
  {
    hide OperandValue, BinaryValue, CallValue, Update, Slice;
    ghost var buf := stack[..];
    ghost var stk := Slice(buf, sidx);
    SliceReads(buf, sidx);
    sidx1, pc1 := sidx, pc + 1;
    match code[pc] {
      case Bin(op) =>
        sidx1 := sidx - 1;
        stack[sidx1] := BinaryValue(m, op, stack[sidx1], stack[sidx1 + 1]);
        SliceWrites(buf, sidx, sidx1, stack[sidx1], stack[..]);
      case Assign(p) =>
        sidx1 := sidx - 1;
        mem.cells := Update(mem.cells, p, stack[sidx1 + 1]);
        stack[sidx1] := stack[sidx1 + 1];
        SliceWrites(buf, sidx, sidx1, stack[sidx1], stack[..]);
      case If(offset) =>
        var v := stack[sidx];
        sidx1 := sidx - 1;
        if v == 0.0 {
          pc1 := pc + offset + 1;
        }
        SliceDrops(buf, sidx);
      case Else(offset) =>
        pc1 := pc + offset + 1;
      case EndIf =>
      case Operand(_, _, _, _) =>
        sidx1 := sidx + 1;
        stack[sidx1] := OperandValue(code[pc], mem.cells);
        SliceWrites(buf, sidx, sidx1, stack[sidx1], stack[..]);
      case Fun(cb, argc) =>
        var n := Abs(argc);
        var v := CallValue(m, cb, stack[sidx - n + 1..sidx + 1]);
        SliceTail(buf, sidx, n);
        sidx1 := sidx - n + 1;
        stack[sidx1] := v;
        SliceWrites(buf, sidx, sidx1, v, stack[..]);
    }
  }

  lemma SliceReads(buf: seq<real>, sidx: nat)
    requires sidx < |buf|
    ensures |Slice(buf, sidx)| == sidx
    ensures forall k :: 1 <= k <= sidx ==> buf[k] == Slice(buf, sidx)[k - 1]
  {
  }

  lemma SliceTail(buf: seq<real>, sidx: nat, n: nat)
    requires n <= sidx < |buf|
    ensures |Slice(buf, sidx)| == sidx
    ensures buf[sidx - n + 1..sidx + 1] == Slice(buf, sidx)[sidx - n..]
  {
  }

  lemma SliceDrops(buf: seq<real>, sidx: nat)
    requires 1 <= sidx < |buf|
    ensures |Slice(buf, sidx)| == sidx
    ensures Slice(buf, sidx - 1) == Slice(buf, sidx)[..sidx - 1]
  {
  }

  lemma SliceWrites(buf: seq<real>, sidx: nat, at: nat, v: real, after: seq<real>)
    requires sidx < |buf| == |after| && 1 <= at <= sidx + 1 && at < |buf|
    requires after == buf[at := v]
    ensures |Slice(buf, sidx)| == sidx
    ensures Slice(after, at) == Slice(buf, sidx)[..at - 1] + [v]
  {
  }
}
