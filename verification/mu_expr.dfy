/** Expression trees, their left-to-right meaning, and the code the builder emits for them. */
module MuExpr {
  import opened MuCode
  import opened MuBuilder

  datatype Expr =
    | Const(v: real)
    | Variable(p: Ptr)
    | Binary(op: Op, l: Expr, r: Expr)
    | Call(cb: Callable, variadic: bool, optimizable: bool, args: seq<Expr>)
    | Let(p: Ptr, e: Expr)
    | Cond(c: Expr, a: Expr, b: Expr)

  /** Variables have an address; callbacks take at most ten arguments unless they are variadic. */
  predicate WellFormed(e: Expr) {
    match e
    case Const(_) => true
    case Variable(p) => p != NULL
    case Binary(_, l, r) => WellFormed(l) && WellFormed(r)
    case Call(cb, variadic, _, args) =>
      && (cb.User? || (|args| == 1 && !variadic))
      && (if variadic then |args| >= 1 else |args| <= 10)
      && forall i :: 0 <= i < |args| ==> WellFormed(args[i])
    case Let(p, e) => p != NULL && WellFormed(e)
    case Cond(c, a, b) => WellFormed(c) && WellFormed(a) && WellFormed(b)
  }

  /** Variadic calls carry their argument count negated. */
  function Argc(e: Expr): int
    requires e.Call?
  {
    if e.variadic then -|e.args| else |e.args|
  }

  // ----- meaning -----

  function Eval(m: Machine, e: Expr, s: Store): (real, Store)
    decreases e, 1
  {
    match e
    case Const(v) => (v, s)
    case Variable(p) => (s(p), s)
    case Binary(op, l, r) =>
      var (x, s1) := Eval(m, l, s);
      var (y, s2) := Eval(m, r, s1);
      (BinaryValue(m, op, x, y), s2)
    case Call(cb, _, _, args) =>
      var (vs, s1) := EvalAll(m, args, s);
      (CallValue(m, cb, vs), s1)
    case Let(p, e) =>
      var (v, s1) := Eval(m, e, s);
      (v, Update(s1, p, v))
    case Cond(c, a, b) =>
      var (v, s1) := Eval(m, c, s);
      if v != 0.0 then Eval(m, a, s1) else Eval(m, b, s1)
  }

  function EvalAll(m: Machine, es: seq<Expr>, s: Store): (r: (seq<real>, Store))
    ensures |r.0| == |es|
    decreases es, 0
  {
    if es == [] then ([], s)
    else
      var (vs, s1) := EvalAll(m, es[..|es| - 1], s);
      var (v, s2) := Eval(m, es[|es| - 1], s1);
      (vs + [v], s2)
  }

  // ----- the builder calls for a tree, in the order the parser makes them -----

  function Compile(m: Machine, e: Expr, b: Builder): (r: Builder)
    ensures |r.code| > |b.code| && r.opt == b.opt
    decreases e, 1
  {
    match e
    case Const(v) => AddVal(b, v)
    case Variable(p) => AddVar(b, p)
    case Binary(op, l, r) => AddOp(m, Compile(m, r, Compile(m, l, b)), op)
    case Call(cb, _, optimizable, args) => AddFun(m, CompileAll(m, args, b), cb, Argc(e), optimizable)
    case Let(p, e) => AddAssignOp(Compile(m, e, AddVar(b, p)), p)
    case Cond(c, a, d) =>
      var b1 := AddIfElse(Compile(m, c, b), If(0));
      var b2 := AddIfElse(Compile(m, a, b1), Else(0));
      AddIfElse(Compile(m, d, b2), EndIf)
  }

  function CompileAll(m: Machine, es: seq<Expr>, b: Builder): (r: Builder)
    ensures |r.code| >= |b.code| + |es| && r.opt == b.opt
    decreases es, 0
  {
    if es == [] then b
    else Compile(m, es[|es| - 1], CompileAll(m, es[..|es| - 1], b))
  }

  // ----- the code of a tree on its own, before or after its jumps are resolved -----

  function Code(m: Machine, e: Expr, opt: bool, linked: bool): (r: seq<Token>)
    ensures |r| > 0
    decreases e, 1
  {
    match e
    case Const(v) => [ValToken(v)]
    case Variable(p) => [VarToken(p)]
    case Binary(op, l, r) => OpCode(m, opt, Code(m, l, opt, linked) + Code(m, r, opt, linked), op)
    case Call(cb, _, optimizable, args) => FunCode(m, opt, CodeAll(m, args, opt, linked), cb, Argc(e), optimizable)
    case Let(p, e) => [VarToken(p)] + Code(m, e, opt, linked) + [Assign(p)]
    case Cond(c, a, b) =>
      var ca, cb := Code(m, a, opt, linked), Code(m, b, opt, linked);
      Code(m, c, opt, linked)
        + Branch(if linked then |ca| + 1 else 0, ca, if linked then |cb| + 1 else 0, cb)
  }

  /** The two branches of a `?:` between their jumps. */
  function Branch(i: nat, ca: seq<Token>, j: nat, cb: seq<Token>): (r: seq<Token>)
    ensures |r| == |ca| + |cb| + 3
  {
    [If(i)] + (ca + ([Else(j)] + (cb + [EndIf])))
  }

  function CodeAll(m: Machine, es: seq<Expr>, opt: bool, linked: bool): (r: seq<Token>)
    ensures |r| >= |es|
    decreases es, 0
  {
    if es == [] then []
    else CodeAll(m, es[..|es| - 1], opt, linked) + Code(m, es[|es| - 1], opt, linked)
  }

  /** A sign compiles as its operand and a call of one argument. */
  lemma SignedCode(m: Machine, cb: Callable, e: Expr, b: Builder)
    ensures Compile(m, Call(cb, false, true, [e]), b) == AddFun(m, Compile(m, e, b), cb, 1, true)
  {
    assert [e][..0] == [] && [e][0] == e;
    assert CompileAll(m, [e], b) == Compile(m, e, CompileAll(m, [e][..0], b));
  }

  lemma OpCodeIsLocal(m: Machine, opt: bool, pre: seq<Token>, code: seq<Token>, op: Op)
    requires |code| >= 2
    ensures OpCode(m, opt, pre + code, op) == pre + OpCode(m, opt, code, op)
  {
    var n := |code|;
    assert (pre + code)[|pre| + n - 2] == code[n - 2] && (pre + code)[|pre| + n - 1] == code[n - 1];
    assert (pre + code)[..|pre| + n - 2] == pre + code[..n - 2];
  }

  lemma FunCodeIsLocal(m: Machine, opt: bool, pre: seq<Token>, code: seq<Token>, cb: Callable, argc: int,
                       optimizable: bool)
    requires |code| >= argc
    ensures FunCode(m, opt, pre + code, cb, argc, optimizable) == pre + FunCode(m, opt, code, cb, argc, optimizable)
  {
    var n, k := |code|, |pre|;
    if argc > 0 {
      assert (pre + code)[..k + n - argc] == pre + code[..n - argc];
      if TailIsConstant(code, argc) {
        assert TailIsConstant(pre + code, argc);
        assert TailValues(pre + code, argc) == TailValues(code, argc);
      } else {
        var i :| n - argc <= i < n && !code[i].IsVal();
        assert !(pre + code)[k + i].IsVal();
      }
    }
  }

  /** Compiling `e` after `b` only appends the tree's own code. */
  predicate Appends(m: Machine, e: Expr, b: Builder) {
    Compile(m, e, b).code == b.code + Code(m, e, b.opt, false)
  }

  lemma BinaryAppends(m: Machine, op: Op, l: Expr, r: Expr, b: Builder)
    requires Appends(m, l, b) && Appends(m, r, Compile(m, l, b))
    ensures Appends(m, Binary(op, l, r), b)
  {
    hide Fuse, OpCode, FusedTail;
    var cl, cr := Code(m, l, b.opt, false), Code(m, r, b.opt, false);
    var b2 := Compile(m, r, Compile(m, l, b));
    assert b2.code == b.code + (cl + cr);
    assert Compile(m, Binary(op, l, r), b).code == OpCode(m, b.opt, b2.code, op);
    assert Code(m, Binary(op, l, r), b.opt, false) == OpCode(m, b.opt, cl + cr, op);
    OpCodeIsLocal(m, b.opt, b.code, cl + cr, op);
  }

  lemma LetAppends(m: Machine, p: Ptr, e: Expr, b: Builder)
    requires Appends(m, e, AddVar(b, p))
    ensures Appends(m, Let(p, e), b)
  {
    assert b.code + [VarToken(p)] + Code(m, e, b.opt, false) + [Assign(p)]
        == b.code + ([VarToken(p)] + Code(m, e, b.opt, false) + [Assign(p)]);
  }

  lemma CondAppends(m: Machine, c: Expr, a: Expr, d: Expr, b: Builder)
    requires Appends(m, c, b)
    requires var b1 := AddIfElse(Compile(m, c, b), If(0));
      Appends(m, a, b1) && Appends(m, d, AddIfElse(Compile(m, a, b1), Else(0)))
    ensures Appends(m, Cond(c, a, d), b)
  {
    var cc, ca, cd := Code(m, c, b.opt, false), Code(m, a, b.opt, false), Code(m, d, b.opt, false);
    CondCode(m, c, a, d, b.opt);
    CondCompiles(m, c, a, d, b);
    hide Compile, Code, Branch;
    BranchAppends(b.code, cc, ca, cd);
  }

  lemma CondCode(m: Machine, c: Expr, a: Expr, d: Expr, opt: bool)
    ensures Code(m, Cond(c, a, d), opt, false)
         == Code(m, c, opt, false) + Branch(0, Code(m, a, opt, false), 0, Code(m, d, opt, false))
  {
  }

  lemma CondCompiles(m: Machine, c: Expr, a: Expr, d: Expr, b: Builder)
    ensures var b1 := AddIfElse(Compile(m, c, b), If(0));
      Compile(m, Cond(c, a, d), b) == AddIfElse(Compile(m, d, AddIfElse(Compile(m, a, b1), Else(0))), EndIf)
  {
  }

  lemma BranchAppends(pre: seq<Token>, cc: seq<Token>, ca: seq<Token>, cd: seq<Token>)
    ensures pre + cc + [If(0)] + ca + [Else(0)] + cd + [EndIf] == pre + (cc + Branch(0, ca, 0, cd))
  {
  }

  /** The optimiser never looks past the tree it is compiling: emission is context free. */
  lemma {:induction false} CompileAppends(m: Machine, e: Expr, b: Builder)
    ensures Compile(m, e, b).code == b.code + Code(m, e, b.opt, false)
    decreases e, 1
  {
    match e
    case Const(_) =>
    case Variable(_) =>
    case Binary(op, l, r) =>
      CompileAppends(m, l, b);
      CompileAppends(m, r, Compile(m, l, b));
      BinaryAppends(m, op, l, r, b);
    case Call(cb, _, optimizable, args) =>
      CompileAllAppends(m, args, b);
      FunCodeIsLocal(m, b.opt, b.code, CodeAll(m, args, b.opt, false), cb, Argc(e), optimizable);
    case Let(p, e1) =>
      CompileAppends(m, e1, AddVar(b, p));
      LetAppends(m, p, e1, b);
    case Cond(c, a, d) =>
      var b1 := AddIfElse(Compile(m, c, b), If(0));
      CompileAppends(m, c, b);
      CompileAppends(m, a, b1);
      CompileAppends(m, d, AddIfElse(Compile(m, a, b1), Else(0)));
      CondAppends(m, c, a, d, b);
  }

  lemma {:induction false} CompileAllAppends(m: Machine, es: seq<Expr>, b: Builder)
    ensures CompileAll(m, es, b).code == b.code + CodeAll(m, es, b.opt, false)
    decreases es, 0
  {
    if es != [] {
      var init, last := es[..|es| - 1], es[|es| - 1];
      CompileAllAppends(m, init, b);
      CompileAppends(m, last, CompileAll(m, init, b));
    }
  }

  // ----- what a single-token code means -----

  /** A code that ends in a value or variable token is that one token. */
  predicate AtomicTail(c: seq<Token>)
    requires c != []
  {
    c[|c| - 1].Operand? ==> |c| == 1 && TokenOK(c[0])
  }

  predicate IsAtom(c: seq<Token>) { |c| == 1 && c[0].Operand? }

  lemma OpCodeTail(m: Machine, opt: bool, cl: seq<Token>, cr: seq<Token>, op: Op)
    requires cl != [] && cr != [] && AtomicTail(cl) && AtomicTail(cr)
    ensures AtomicTail(OpCode(m, opt, cl + cr, op))
    ensures IsAtom(OpCode(m, opt, cl + cr, op)) ==>
      IsAtom(cl) && IsAtom(cr) && Fuse(m, op, cl[0], cr[0]) == To(OpCode(m, opt, cl + cr, op)[0])
  {
    var code := cl + cr;
    var x, y := code[|code| - 2], code[|code| - 1];
    if opt && Fuse(m, op, x, y).To? {
      FuseNeedsOperands(m, op, x, y);
      assert y == cr[|cr| - 1] && cr == [y];
      assert x == cl[|cl| - 1] && cl == [x];
      FuseIsSoundIff(m, op, x, y, _ => 0.0);
    }
  }

  lemma FuseNeedsOperands(m: Machine, op: Op, x: Token, y: Token)
    requires Fuse(m, op, x, y).To?
    ensures x.Operand? && y.Operand?
  {
    hide FoldedValue, JoinPtr;
  }

  lemma {:induction false} OperandTail(m: Machine, e: Expr, opt: bool, linked: bool)
    requires WellFormed(e)
    ensures AtomicTail(Code(m, e, opt, linked))
    decreases e, 1
  {
    hide Fuse, OpCode, FunCode;
    match e
    case Const(_) =>
    case Variable(_) =>
    case Binary(op, l, r) =>
      OperandTail(m, l, opt, linked);
      OperandTail(m, r, opt, linked);
      OpCodeTail(m, opt, Code(m, l, opt, linked), Code(m, r, opt, linked), op);
    case Call(cb, _, optimizable, args) =>
      ArgumentTail(m, args, opt, linked);
      if cb == UnaryPlus {
        OperandTail(m, args[0], opt, linked);
        OneArgument(m, args, opt, linked);
      }
      FunCodeTail(m, opt, CodeAll(m, args, opt, linked), cb, Argc(e), optimizable);
    case Let(_, _) =>
    case Cond(_, _, _) =>
  }

  lemma FunCodeTail(m: Machine, opt: bool, code: seq<Token>, cb: Callable, argc: int, optimizable: bool)
    requires |code| >= argc
    requires argc > 0 && TailIsConstant(code, argc) ==> |code| == argc
    requires DropsCall(opt, cb, argc, optimizable) ==> code != [] && AtomicTail(code)
    ensures FunCode(m, opt, code, cb, argc, optimizable) != []
    ensures AtomicTail(FunCode(m, opt, code, cb, argc, optimizable))
  {
  }

  lemma OneArgument(m: Machine, args: seq<Expr>, opt: bool, linked: bool)
    requires |args| == 1
    ensures CodeAll(m, args, opt, linked) == Code(m, args[0], opt, linked)
  {
    assert args[..0] == [];
  }

  lemma OneValue(m: Machine, args: seq<Expr>, opt: bool, s: Store)
    requires |args| == 1
    ensures ComputesAll(m, args, opt, s) == ([Computes(m, args[0], opt, s).0], Computes(m, args[0], opt, s).1)
  {
    hide Computes;
    assert args[..|args| - 1] == [];
    var none: seq<Expr> := [];
    assert ComputesAll(m, none, opt, s) == ([], s);
    var v := Computes(m, args[0], opt, s);
    assert [] + [v.0] == [v.0];
  }

  lemma {:induction false} ArgumentTail(m: Machine, es: seq<Expr>, opt: bool, linked: bool)
    requires forall i :: 0 <= i < |es| ==> WellFormed(es[i])
    ensures TailIsConstant(CodeAll(m, es, opt, linked), |es|) ==> |CodeAll(m, es, opt, linked)| == |es|
    decreases es, 0
  {
    if es != [] {
      var init, last := es[..|es| - 1], es[|es| - 1];
      ArgumentTail(m, init, opt, linked);
      OperandTail(m, last, opt, linked);
      var all, ci, cl := CodeAll(m, es, opt, linked), CodeAll(m, init, opt, linked), Code(m, last, opt, linked);
      if TailIsConstant(all, |es|) {
        assert all[|all| - 1] == cl[|cl| - 1];
        forall k | |ci| - |init| <= k < |ci| ensures ci[k].IsVal() { assert all[k] == ci[k]; }
      }
    }
  }

  // ----- what the emitted code computes -----

  /** Are the two operands of an operator constants that the optimiser folds? */
  predicate FoldsPair(opt: bool, cl: seq<Token>, cr: seq<Token>) {
    opt && |cl| == 1 && |cr| == 1 && cl[0].IsVal() && cr[0].IsVal()
  }

  function OpValue(m: Machine, op: Op, folded: bool, x: real, y: real): real {
    if folded then FoldedValue(m, op, x, y) else BinaryValue(m, op, x, y)
  }

  /** `Eval`, except that an operator folded at compile time has its folded value. */
  function Computes(m: Machine, e: Expr, opt: bool, s: Store): (real, Store)
    decreases e, 1
  {
    match e
    case Const(v) => (v, s)
    case Variable(p) => (s(p), s)
    case Binary(op, l, r) =>
      var (x, s1) := Computes(m, l, opt, s);
      var (y, s2) := Computes(m, r, opt, s1);
      (OpValue(m, op, FoldsPair(opt, Code(m, l, opt, true), Code(m, r, opt, true)), x, y), s2)
    case Call(cb, _, _, args) =>
      var (vs, s1) := ComputesAll(m, args, opt, s);
      (CallValue(m, cb, vs), s1)
    case Let(p, e) =>
      var (v, s1) := Computes(m, e, opt, s);
      (v, Update(s1, p, v))
    case Cond(c, a, b) =>
      var (v, s1) := Computes(m, c, opt, s);
      if v != 0.0 then Computes(m, a, opt, s1) else Computes(m, b, opt, s1)
  }

  function ComputesAll(m: Machine, es: seq<Expr>, opt: bool, s: Store): (r: (seq<real>, Store))
    ensures |r.0| == |es|
    decreases es, 0
  {
    if es == [] then ([], s)
    else
      var (vs, s1) := ComputesAll(m, es[..|es| - 1], opt, s);
      var (v, s2) := Computes(m, es[|es| - 1], opt, s1);
      (vs + [v], s2)
  }

  /** No `&&` or `||` is folded whose constants truncation would change. */
  predicate FoldSafe(m: Machine, e: Expr, opt: bool) {
    match e
    case Const(_) => true
    case Variable(_) => true
    case Binary(op, l, r) =>
      && FoldSafe(m, l, opt) && FoldSafe(m, r, opt)
      && (var cl, cr := Code(m, l, opt, true), Code(m, r, opt, true);
          FoldsPair(opt, cl, cr) ==> FoldExact(op, cl[0].data2, cr[0].data2))
    case Call(_, _, _, args) => forall i :: 0 <= i < |args| ==> FoldSafe(m, args[i], opt)
    case Let(_, e) => FoldSafe(m, e, opt)
    case Cond(c, a, b) => FoldSafe(m, c, opt) && FoldSafe(m, a, opt) && FoldSafe(m, b, opt)
  }

  lemma BinaryAtom(m: Machine, op: Op, l: Expr, r: Expr, opt: bool, s: Store)
    requires WellFormed(l) && WellFormed(r)
    requires IsAtom(Code(m, Binary(op, l, r), opt, true))
    ensures IsAtom(Code(m, l, opt, true)) && IsAtom(Code(m, r, opt, true))
    ensures var cl, cr := Code(m, l, opt, true), Code(m, r, opt, true);
      OperandValue(Code(m, Binary(op, l, r), opt, true)[0], s)
      == OpValue(m, op, FoldsPair(opt, cl, cr), OperandValue(cl[0], s), OperandValue(cr[0], s))
  {
    var cl, cr := Code(m, l, opt, true), Code(m, r, opt, true);
    OperandTail(m, l, opt, true);
    OperandTail(m, r, opt, true);
    OpCodeTail(m, opt, cl, cr, op);
    AtomIsOptimised(m, opt, cl, cr, op);
    if !FoldsPair(opt, cl, cr) { FusePatternIsSound(m, op, cl[0], cr[0], s); }
  }

  lemma FoldsPairFuses(m: Machine, opt: bool, cl: seq<Token>, cr: seq<Token>, op: Op)
    requires FoldsPair(opt, cl, cr)
    ensures FusedTail(m, opt, cl + cr, op).To?
  {
    assert (cl + cr)[0] == cl[0] && (cl + cr)[1] == cr[0];
  }

  lemma AtomIsOptimised(m: Machine, opt: bool, cl: seq<Token>, cr: seq<Token>, op: Op)
    requires cl != [] && cr != [] && IsAtom(OpCode(m, opt, cl + cr, op))
    ensures opt
  {
  }

  /** A tree folded into one token means what that token pushes, and assigns nothing. */
  lemma {:induction false} AtomMeaning(m: Machine, e: Expr, opt: bool, s: Store)
    requires WellFormed(e)
    requires IsAtom(Code(m, e, opt, true))
    ensures Computes(m, e, opt, s) == (OperandValue(Code(m, e, opt, true)[0], s), s)
    decreases e, 1
  {
    match e
    case Const(_) =>
    case Variable(_) =>
    case Binary(op, l, r) =>
      BinaryAtom(m, op, l, r, opt, s);
      AtomMeaning(m, l, opt, s);
      AtomMeaning(m, r, opt, s);
    case Call(_, _, _, _) => CallAtom(m, e, opt, s);
    case Let(_, _) =>
    case Cond(_, _, _) =>
  }

  lemma {:induction false} CallAtom(m: Machine, e: Expr, opt: bool, s: Store)
    requires e.Call? && WellFormed(e) && IsAtom(Code(m, e, opt, true))
    ensures Computes(m, e, opt, s) == (OperandValue(Code(m, e, opt, true)[0], s), s)
    decreases e, 0
  {
    var all := CodeAll(m, e.args, opt, true);
    if DropsCall(opt, e.cb, Argc(e), e.optimizable) {
      OneArgument(m, e.args, opt, true);
      OneValue(m, e.args, opt, s);
      AtomMeaning(m, e.args[0], opt, s);
    } else {
      ArgumentTail(m, e.args, opt, true);
      ArgumentMeaning(m, e.args, opt, s);
    }
  }

  lemma TailValuesSnoc(c: seq<Token>, t: Token)
    requires t.IsVal()
    ensures TailIsConstant(c + [t], |c| + 1) ==>
      TailIsConstant(c, |c|) && TailValues(c + [t], |c| + 1) == TailValues(c, |c|) + [t.data2]
  {
    if TailIsConstant(c + [t], |c| + 1) {
      forall k | 0 <= k < |c| ensures c[k].IsVal() { assert (c + [t])[k] == c[k]; }
    }
  }

  lemma {:induction false} ArgumentMeaning(m: Machine, es: seq<Expr>, opt: bool, s: Store)
    requires forall i :: 0 <= i < |es| ==> WellFormed(es[i])
    requires |CodeAll(m, es, opt, true)| == |es| && TailIsConstant(CodeAll(m, es, opt, true), |es|)
    ensures ComputesAll(m, es, opt, s) == (TailValues(CodeAll(m, es, opt, true), |es|), s)
    decreases es, 0
  {
    var all := CodeAll(m, es, opt, true);
    if es != [] {
      var init, last := es[..|es| - 1], es[|es| - 1];
      var ci, cl := CodeAll(m, init, opt, true), Code(m, last, opt, true);
      assert all == ci + [cl[0]];
      assert all[|all| - 1] == cl[0];
      hide TailIsConstant;
      TailValuesSnoc(ci, cl[0]);
      ArgumentMeaning(m, init, opt, s);
      AtomMeaning(m, last, opt, s);
    } else {
      assert TailValues(all, 0) == [];
    }
  }

  /** Where nothing is folded wrongly, the code computes the reference value. */
  lemma {:induction false} ComputesReference(m: Machine, e: Expr, opt: bool, s: Store)
    requires WellFormed(e) && FoldSafe(m, e, opt)
    ensures Computes(m, e, opt, s) == Eval(m, e, s)
    decreases e, 1
  {
    match e
    case Const(_) =>
    case Variable(_) =>
    case Binary(op, l, r) =>
      ComputesReference(m, l, opt, s);
      ComputesReference(m, r, opt, Eval(m, l, s).1);
      var cl, cr := Code(m, l, opt, true), Code(m, r, opt, true);
      if FoldsPair(opt, cl, cr) {
        AtomMeaning(m, l, opt, s);
        AtomMeaning(m, r, opt, s);
        FoldingIsExactIff(m, op, cl[0].data2, cr[0].data2);
      }
    case Call(_, _, _, args) => ComputesReferenceAll(m, args, opt, s);
    case Let(_, e1) => ComputesReference(m, e1, opt, s);
    case Cond(c, a, b) =>
      ComputesReference(m, c, opt, s);
      ComputesReference(m, a, opt, Eval(m, c, s).1);
      ComputesReference(m, b, opt, Eval(m, c, s).1);
  }

  lemma {:induction false} ComputesReferenceAll(m: Machine, es: seq<Expr>, opt: bool, s: Store)
    requires forall i :: 0 <= i < |es| ==> WellFormed(es[i]) && FoldSafe(m, es[i], opt)
    ensures ComputesAll(m, es, opt, s) == EvalAll(m, es, s)
    decreases es, 0
  {
    if es != [] {
      ComputesReferenceAll(m, es[..|es| - 1], opt, s);
      ComputesReference(m, es[|es| - 1], opt, EvalAll(m, es[..|es| - 1], s).1);
    }
  }

  /** Without the optimiser nothing is folded. */
  lemma {:induction false} UnoptimisedIsFoldSafe(m: Machine, e: Expr)
    ensures FoldSafe(m, e, false)
  {
    match e
    case Const(_) =>
    case Variable(_) =>
    case Binary(_, l, r) =>
      UnoptimisedIsFoldSafe(m, l);
      UnoptimisedIsFoldSafe(m, r);
    case Call(_, _, _, args) =>
      forall i | 0 <= i < |args| ensures FoldSafe(m, args[i], false) { UnoptimisedIsFoldSafe(m, args[i]); }
    case Let(_, e) =>
      UnoptimisedIsFoldSafe(m, e);
    case Cond(c, a, b) =>
      UnoptimisedIsFoldSafe(m, c);
      UnoptimisedIsFoldSafe(m, a);
      UnoptimisedIsFoldSafe(m, b);
  }
}
