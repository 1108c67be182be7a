/** `ParserByteCode`: the builder that appends tokens, rewriting the tail of the emitted code in
    place.  The functions are the specification; class `ByteCode` is the imperative original. */
module MuBuilder {
  import opened MuCode

  datatype Builder = Builder(code: seq<Token>, pos: nat, max: nat, opt: bool)

  /** `unsigned` arithmetic on the running stack position. */
  function Wrap(x: int): nat { x % 0x1_0000_0000 }

  function Max(a: nat, b: nat): nat { if a < b then b else a }

  function Abs(n: int): nat { if n < 0 then -n else n }

  function PushToken(b: Builder, t: Token): Builder {
    var pos := Wrap(b.pos + 1);
    b.(code := b.code + [t], pos := pos, max := Max(b.max, pos))
  }

  function AddVar(b: Builder, p: Ptr): Builder { PushToken(b, VarToken(p)) }

  function AddVal(b: Builder, v: real): Builder { PushToken(b, ValToken(v)) }

  /** What the last two tokens and operator `op` fuse to, if the optimiser is on and finds a pattern. */
  function FusedTail(m: Machine, opt: bool, code: seq<Token>, op: Op): Fused
    requires |code| >= 2
  {
    if opt then Fuse(m, op, code[|code| - 2], code[|code| - 1]) else NoFusion
  }

  function OpCode(m: Machine, opt: bool, code: seq<Token>, op: Op): (r: seq<Token>)
    requires |code| >= 2
    ensures |r| == if FusedTail(m, opt, code, op).To? then |code| - 1 else |code| + 1
  {
    match FusedTail(m, opt, code, op)
    case To(t) => code[..|code| - 2] + [t]
    case NoFusion => code + [Bin(op)]
  }

  /** A fused operator leaves the running stack position where it is. */
  function AddOp(m: Machine, b: Builder, op: Op): Builder
    requires |b.code| >= 2
  {
    b.(code := OpCode(m, b.opt, b.code, op),
       pos := if FusedTail(m, b.opt, b.code, op).To? then b.pos else Wrap(b.pos - 1))
  }

  function AddIfElse(b: Builder, t: Token): Builder { b.(code := b.code + [t]) }

  function AddAssignOp(b: Builder, p: Ptr): Builder {
    b.(code := b.code + [Assign(p)], pos := Wrap(b.pos - 1))
  }

  /** Are the last `argc` tokens constants? */
  predicate TailIsConstant(code: seq<Token>, argc: nat)
    requires |code| >= argc
  {
    forall k :: |code| - argc <= k < |code| ==> code[k].IsVal()
  }

  function TailValues(code: seq<Token>, argc: nat): (vs: seq<real>)
    requires |code| >= argc && TailIsConstant(code, argc)
    ensures |vs| == argc && forall i :: 0 <= i < argc ==> vs[i] == code[|code| - argc + i].data2
  {
    seq(argc, i requires 0 <= i < argc => code[|code| - argc + i].data2)
  }

  /** Can this call be evaluated while compiling? */
  predicate FoldsCall(opt: bool, code: seq<Token>, argc: int, optimizable: bool)
    requires |code| >= argc
  {
    optimizable && opt && argc > 0 && TailIsConstant(code, argc)
  }

  /** Unary plus is dropped. */
  predicate DropsCall(opt: bool, cb: Callable, argc: int, optimizable: bool) {
    optimizable && opt && argc > 0 && cb == UnaryPlus
  }

  function FunCode(m: Machine, opt: bool, code: seq<Token>, cb: Callable, argc: int, optimizable: bool): (r: seq<Token>)
    requires |code| >= argc
    ensures |r| ==
      if DropsCall(opt, cb, argc, optimizable) then |code|
      else if FoldsCall(opt, code, argc, optimizable) then |code| - argc + 1
      else |code| + 1
  {
    if DropsCall(opt, cb, argc, optimizable) then code
    else if FoldsCall(opt, code, argc, optimizable) then
      code[..|code| - argc] + [ValToken(CallValue(m, cb, TailValues(code, argc)))]
    else code + [Fun(cb, argc)]
  }

  function AddFun(m: Machine, b: Builder, cb: Callable, argc: int, optimizable: bool): Builder
    requires |b.code| >= argc
  {
    var code := FunCode(m, b.opt, b.code, cb, argc, optimizable);
    if DropsCall(b.opt, cb, argc, optimizable) then b
    else
      var pos := Wrap(b.pos - Abs(argc) + 1);
      b.(code := code, pos := pos, max := Max(b.max, pos))
  }

  // ----- jump resolution -----

  function OpenIfs(code: seq<Token>): int {
    if code == [] then 0
    else
      var t := code[|code| - 1];
      OpenIfs(code[..|code| - 1]) + (if t.If? then 1 else if t.Else? then -1 else 0)
  }

  function OpenElses(code: seq<Token>): int {
    if code == [] then 0
    else
      var t := code[|code| - 1];
      OpenElses(code[..|code| - 1]) + (if t.Else? then 1 else if t.EndIf? then -1 else 0)
  }

  /** Reading from the left, every ELSE has an open IF and every ENDIF an open ELSE. */
  predicate JumpsOK(code: seq<Token>) {
    OpenIfs(code) >= 0 && OpenElses(code) >= 0 && (code == [] || JumpsOK(code[..|code| - 1]))
  }

  /** The state of `Finalize`: the code, and the positions of the open IF and ELSE tokens. */
  datatype Linker = Linker(code: seq<Token>, ifs: seq<nat>, elses: seq<nat>)

  function LinkStep(l: Linker, i: nat): (r: Linker)
    requires i < |l.code|
    ensures |r.code| == |l.code|
  {
    match l.code[i]
    case If(_) => l.(ifs := l.ifs + [i])
    case Else(_) =>
      if l.ifs != [] && l.ifs[|l.ifs| - 1] < i then
        var j := l.ifs[|l.ifs| - 1];
        Linker(l.code[j := If(i - j)], l.ifs[..|l.ifs| - 1], l.elses + [i])
      else l
    case EndIf =>
      if l.elses != [] && l.elses[|l.elses| - 1] < i then
        var j := l.elses[|l.elses| - 1];
        Linker(l.code[j := Else(i - j)], l.ifs, l.elses[..|l.elses| - 1])
      else l
    case _ => l
  }

  function LinkFrom(l: Linker, i: nat): Linker
    decreases |l.code| - i
  {
    if i >= |l.code| then l else LinkFrom(LinkStep(l, i), i + 1)
  }

  function Finalize(code: seq<Token>): seq<Token> { LinkFrom(Linker(code + [End], [], []), 0).code }

  /** The linker's stacks hold the open tokens of the part already read; the rest is untouched. */
  ghost predicate LinkInv(l: Linker, emitted: seq<Token>, i: nat) {
    && i <= |l.code| == |emitted|
    && l.code[i..] == emitted[i..]
    && |l.ifs| == OpenIfs(emitted[..i]) && |l.elses| == OpenElses(emitted[..i])
    && (forall k :: 0 <= k < |l.ifs| ==> l.ifs[k] < i)
    && (forall k :: 0 <= k < |l.elses| ==> l.elses[k] < i)
  }

  lemma JumpsOKPrefix(code: seq<Token>, n: nat)
    requires JumpsOK(code) && n <= |code|
    ensures JumpsOK(code[..n])
  {
    if n < |code| {
      JumpsOKPrefix(code[..|code| - 1], n);
      assert code[..|code| - 1][..n] == code[..n];
    } else {
      assert code[..n] == code;
    }
  }

  lemma CountSnoc(code: seq<Token>, t: Token)
    ensures OpenIfs(code + [t]) == OpenIfs(code) + (if t.If? then 1 else if t.Else? then -1 else 0)
    ensures OpenElses(code + [t]) == OpenElses(code) + (if t.Else? then 1 else if t.EndIf? then -1 else 0)
    ensures JumpsOK(code + [t]) <==> OpenIfs(code + [t]) >= 0 && OpenElses(code + [t]) >= 0 && JumpsOK(code)
  {
    assert (code + [t])[..|code|] == code;
  }

  lemma CountNext(code: seq<Token>, i: nat)
    requires JumpsOK(code) && i < |code|
    ensures OpenIfs(code[..i + 1]) == OpenIfs(code[..i]) + (if code[i].If? then 1 else if code[i].Else? then -1 else 0)
    ensures OpenElses(code[..i + 1]) ==
            OpenElses(code[..i]) + (if code[i].Else? then 1 else if code[i].EndIf? then -1 else 0)
    ensures OpenIfs(code[..i + 1]) >= 0 && OpenElses(code[..i + 1]) >= 0
  {
    JumpsOKPrefix(code, i + 1);
    assert code[..i + 1] == code[..i] + [code[i]];
    CountSnoc(code[..i], code[i]);
  }

  lemma LinkStepRest(l: Linker, i: nat)
    requires i < |l.code|
    requires forall k :: 0 <= k < |l.ifs| ==> l.ifs[k] < i
    requires forall k :: 0 <= k < |l.elses| ==> l.elses[k] < i
    ensures LinkStep(l, i).code[i + 1..] == l.code[i + 1..]
  {
  }

  /** On code whose jumps are balanced the linker never looks at an empty stack. */
  lemma LinkStepKeeps(l: Linker, emitted: seq<Token>, i: nat)
    requires JumpsOK(emitted) && LinkInv(l, emitted, i) && i < |emitted|
    ensures l.code[i] == emitted[i]
    ensures l.code[i].Else? ==> l.ifs != [] && l.ifs[|l.ifs| - 1] < i
    ensures l.code[i].EndIf? ==> l.elses != [] && l.elses[|l.elses| - 1] < i
    ensures LinkInv(LinkStep(l, i), emitted, i + 1)
  {
    assert l.code[i] == l.code[i..][0] == emitted[i..][0] == emitted[i];
    CountNext(emitted, i);
    LinkStepRest(l, i);
    assert l.code[i + 1..] == emitted[i + 1..] by {
      assert l.code[i..][1..] == l.code[i + 1..] && emitted[i..][1..] == emitted[i + 1..];
    }
  }

  // ----- the object -----

  class ByteCode {
    var rpn: seq<Token>
    var stackPos: nat
    var maxStackSize: nat
    var enableOptimizer: bool

    function State(): Builder reads this { Builder(rpn, stackPos, maxStackSize, enableOptimizer) }

    constructor ()
      ensures State() == Builder([], 0, 0, true)
    {
      rpn := [];
      stackPos, maxStackSize, enableOptimizer := 0, 0, true;
    }

    method EnableOptimizer(on: bool)
      modifies this
      ensures State() == old(State()).(opt := on)
    {
      enableOptimizer := on;
    }

    method Clear()
      modifies this
      ensures State() == Builder([], 0, 0, old(enableOptimizer))
    {
      rpn := [];
      stackPos := 0;
      maxStackSize := 0;
    }

    method EmitVar(p: Ptr)
      modifies this
      ensures State() == AddVar(old(State()), p)
    {
      stackPos := Wrap(stackPos + 1);
      maxStackSize := Max(maxStackSize, stackPos);
      rpn := rpn + [Operand(VAR, p, 1.0, 0.0)];
    }

    method EmitVal(v: real)
      modifies this
      ensures State() == AddVal(old(State()), v)
    {
      stackPos := Wrap(stackPos + 1);
      maxStackSize := Max(maxStackSize, stackPos);
      rpn := rpn + [Operand(VAL, NULL, 0.0, v)];
    }

    /** Overwrites the last but one token and drops the last. */
    method ReplaceTwo(t: Token)
      requires |rpn| >= 2
      modifies this`rpn
      ensures rpn == old(rpn)[..|old(rpn)| - 2] + [t]
    {
      rpn := rpn[|rpn| - 2 := t];
      rpn := rpn[..|rpn| - 1];
    }

    method ConstantFolding(m: Machine, op: Op)
      requires |rpn| >= 2 && rpn[|rpn| - 2].IsVal() && rpn[|rpn| - 1].IsVal()
      modifies this`rpn
      ensures var n := |old(rpn)|; var x := old(rpn)[n - 2]; var y := old(rpn)[n - 1];
        rpn == old(rpn)[..n - 2] + [x.(data2 := FoldedValue(m, op, x.data2, y.data2))]
    {
      var sz := |rpn|;
      var x, y := rpn[sz - 2].data2, rpn[sz - 1].data2;
      match op {
        case LAND => x := FromBool(Truncate(x) != 0 && Truncate(y) != 0);
        case LOR => x := FromBool(Truncate(x) != 0 || Truncate(y) != 0);
        case LT => x := FromBool(x < y);
        case GT => x := FromBool(x > y);
        case LE => x := FromBool(x <= y);
        case GE => x := FromBool(x >= y);
        case NEQ => x := FromBool(x != y);
        case EQ => x := FromBool(x == y);
        case ADD => x := x + y;
        case SUB => x := x - y;
        case MUL => x := x * y;
        case DIV => x := Div(m, x, y);
        case POW => x := Pow(m, x, y);
      }
      assert x == FoldedValue(m, op, rpn[sz - 2].data2, rpn[sz - 1].data2);
      ReplaceTwo(rpn[sz - 2].(data2 := x));
    }

    method EmitOp(m: Machine, op: Op)
      requires |rpn| >= 2
      modifies this
      ensures State() == AddOp(m, old(State()), op)
    {
      hide Fuse;
      var optimized := false;
      if enableOptimizer {
        optimized := Optimize(m, op);
      }
      if !optimized {
        stackPos := Wrap(stackPos - 1);
        rpn := rpn + [Bin(op)];
      }
    }

    /** Rewrites the last two tokens to one, if they match a pattern. */
    method Optimize(m: Machine, op: Op) returns (optimized: bool)
      requires |rpn| >= 2
      modifies this`rpn
      ensures var n := |old(rpn)|; var fused := Fuse(m, op, old(rpn)[n - 2], old(rpn)[n - 1]);
        optimized == fused.To? &&
        rpn == if optimized then old(rpn)[..n - 2] + [fused.token] else old(rpn)
    {
      hide FusePow, FuseAdd, FuseMul, FuseDiv, FoldedValue;
      var sz := |rpn|;
      optimized := false;
      if rpn[sz - 2].IsVal() && rpn[sz - 1].IsVal() {
        ConstantFolding(m, op);
        optimized := true;
      } else {
        match op {
          case POW => optimized := FusePower();
          case SUB => optimized := FuseAdditive(op);
          case ADD => optimized := FuseAdditive(op);
          case MUL => optimized := FuseProduct();
          case DIV => optimized := FuseQuotient();
          case _ =>
        }
      }
    }

    method FusePower() returns (optimized: bool)
      requires |rpn| >= 2 && !(rpn[|rpn| - 2].IsVal() && rpn[|rpn| - 1].IsVal())
      modifies this`rpn
      ensures var n := |old(rpn)|; var fused := FusePow(old(rpn)[n - 2], old(rpn)[n - 1]);
        optimized == fused.To? &&
        rpn == if optimized then old(rpn)[..n - 2] + [fused.token] else old(rpn)
    {
      var x, y := rpn[|rpn| - 2], rpn[|rpn| - 1];
      optimized := false;
      if x.IsVar() && y.IsVal() {
        optimized := true;
        if y.data2 == 0.0 {
          ReplaceTwo(Operand(VAL, NULL, 0.0, 1.0));
        } else if y.data2 == 1.0 {
          ReplaceTwo(x.(cmd := VAR));
        } else if y.data2 == 2.0 {
          ReplaceTwo(x.(cmd := VARPOW2));
        } else if y.data2 == 3.0 {
          ReplaceTwo(x.(cmd := VARPOW3));
        } else if y.data2 == 4.0 {
          ReplaceTwo(x.(cmd := VARPOW4));
        } else {
          optimized := false;
        }
      }
    }

    method FuseQuotient() returns (optimized: bool)
      requires |rpn| >= 2
      modifies this`rpn
      ensures var n := |old(rpn)|; var fused := FuseDiv(old(rpn)[n - 2], old(rpn)[n - 1]);
        optimized == fused.To? &&
        rpn == if optimized then old(rpn)[..n - 2] + [fused.token] else old(rpn)
    {
      var x, y := rpn[|rpn| - 2], rpn[|rpn| - 1];
      optimized := y.IsVal() && x.IsVarMul() && y.data2 != 0.0;
      if optimized {
        ReplaceTwo(x.(data := x.data / y.data2, data2 := x.data2 / y.data2));
      }
    }

    method FuseAdditive(op: Op) returns (optimized: bool)
      requires |rpn| >= 2
      modifies this`rpn
      ensures var n := |old(rpn)|; var fused := FuseAdd(op, old(rpn)[n - 2], old(rpn)[n - 1]);
        optimized == fused.To? &&
        rpn == if optimized then old(rpn)[..n - 2] + [fused.token] else old(rpn)
    {
      var x, y := rpn[|rpn| - 2], rpn[|rpn| - 1];
      optimized := FusesAdditively(x, y);
      if optimized {
        var sign := if op == SUB then -1.0 else 1.0;
        x := x.(cmd := VARMUL, ptr := JoinPtr(x.ptr, y.ptr));
        x := x.(data2 := x.data2 + sign * y.data2);
        x := x.(data := x.data + sign * y.data);
        ReplaceTwo(x);
      }
    }

    method FuseProduct() returns (optimized: bool)
      requires |rpn| >= 2
      modifies this`rpn
      ensures var n := |old(rpn)|; var fused := FuseMul(old(rpn)[n - 2], old(rpn)[n - 1]);
        optimized == fused.To? &&
        rpn == if optimized then old(rpn)[..n - 2] + [fused.token] else old(rpn)
    {
      hide JoinPtr;
      var x, y := rpn[|rpn| - 2], rpn[|rpn| - 1];
      ghost var fused := FuseMul(x, y);
      optimized := true;
      if (y.IsVar() && x.IsVal()) || (y.IsVal() && x.IsVar()) {
        x := x.(cmd := VARMUL, ptr := JoinPtr(x.ptr, y.ptr));
        x := x.(data := x.data2 + y.data2);
        x := x.(data2 := 0.0);
        assert x == fused.token;
        ReplaceTwo(x);
      } else if (y.IsVal() && x.IsVarMul()) || (y.IsVarMul() && x.IsVal()) {
        x := x.(cmd := VARMUL, ptr := JoinPtr(x.ptr, y.ptr));
        if y.IsVal() {
          x := x.(data := x.data * y.data2);
          x := x.(data2 := x.data2 * y.data2);
        } else {
          x := x.(data := y.data * x.data2);
          x := x.(data2 := y.data2 * x.data2);
        }
        assert x == fused.token;
        ReplaceTwo(x);
      } else if y.IsVar() && x.IsVar() && y.ptr == x.ptr {
        ReplaceTwo(x.(cmd := VARPOW2));
      } else {
        optimized := false;
      }
    }

    method EmitIfElse(t: Token)
      modifies this`rpn
      ensures State() == AddIfElse(old(State()), t)
    {
      rpn := rpn + [t];
    }

    method EmitAssignOp(p: Ptr)
      modifies this
      ensures State() == AddAssignOp(old(State()), p)
    {
      stackPos := Wrap(stackPos - 1);
      rpn := rpn + [Assign(p)];
    }

    method EmitFun(m: Machine, cb: Callable, argc: int, optimizable: bool)
      requires |rpn| >= argc
      modifies this
      ensures State() == AddFun(m, old(State()), cb, argc, optimizable)
    {
      var sz := |rpn|;
      var optimize := false;
      if optimizable && enableOptimizer && argc > 0 {
        if cb == UnaryPlus {
          return;
        }
        optimize := true;
        var i := 0;
        while i < argc
          invariant 0 <= i <= argc
          invariant optimize <==> forall k :: sz - i <= k < sz ==> rpn[k].IsVal()
          invariant State() == old(State())
        {
          if !rpn[sz - i - 1].IsVal() {
            optimize := false;
            break;
          }
          i := i + 1;
        }
      }
      if optimize {
        var val := CallValue(m, cb, TailValues(rpn, argc));
        rpn := rpn[..sz - argc];
        rpn := rpn + [Operand(VAL, NULL, 0.0, val)];
      } else {
        rpn := rpn + [Fun(cb, argc)];
      }
      stackPos := Wrap(stackPos - Abs(argc) + 1);
      maxStackSize := Max(maxStackSize, stackPos);
    }

    /** The loop body of `Finalize`: one token, with the stacks of open positions. */
    method LinkToken(i: nat, ifs: seq<nat>, elses: seq<nat>) returns (stIf: seq<nat>, stElse: seq<nat>)
      requires i < |rpn|
      requires rpn[i].Else? ==> ifs != [] && ifs[|ifs| - 1] < i
      requires rpn[i].EndIf? ==> elses != [] && elses[|elses| - 1] < i
      modifies this`rpn
      ensures Linker(rpn, stIf, stElse) == LinkStep(Linker(old(rpn), ifs, elses), i)
    {
      stIf, stElse := ifs, elses;
      match rpn[i] {
        case If(_) =>
          stIf := stIf + [i];
        case Else(_) =>
          stElse := stElse + [i];
          var idx := stIf[|stIf| - 1];
          stIf := stIf[..|stIf| - 1];
          rpn := rpn[idx := If(i - idx)];
        case EndIf =>
          var idx := stElse[|stElse| - 1];
          stElse := stElse[..|stElse| - 1];
          rpn := rpn[idx := Else(i - idx)];
        case _ =>
      }
    }

    /** Appends the end marker and resolves the jumps of all `?:` (`Finalize`). */
    method Close()
      requires JumpsOK(rpn)
      modifies this`rpn
      ensures rpn == Finalize(old(rpn))
    {
      CountSnoc(rpn, End);
      rpn := rpn + [End];
      ghost var start := Linker(rpn, [], []);
      var stIf: seq<nat>, stElse: seq<nat> := [], [];
      var i := 0;
      while i < |rpn|
        invariant LinkInv(Linker(rpn, stIf, stElse), start.code, i)
        invariant LinkFrom(Linker(rpn, stIf, stElse), i) == LinkFrom(start, 0)
      {
        LinkStepKeeps(Linker(rpn, stIf, stElse), start.code, i);
        stIf, stElse := LinkToken(i, stIf, stElse);
        i := i + 1;
      }
    }

    function GetMaxStackSize(): nat reads this { maxStackSize + 1 }
  }
}
