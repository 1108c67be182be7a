/** Compiler correctness and stack safety of the expression parser's byte code. */
module MuCorrect {
  import opened MuCode
  import opened MuBuilder
  import opened MuExpr
  import opened MuLink
  import opened MuVm

  predicate At(code: seq<Token>, p: nat, block: seq<Token>) {
    p + |block| <= |code| && code[p..p + |block|] == block
  }

  lemma AtSplit(code: seq<Token>, p: nat, u: seq<Token>, v: seq<Token>)
    requires At(code, p, u + v)
    ensures At(code, p, u) && At(code, p + |u|, v)
  {
    var n := |u + v|;
    assert code[p..p + n][..|u|] == code[p..p + |u|];
    assert code[p..p + n][|u|..] == code[p + |u|..p + n];
    assert (u + v)[..|u|] == u && (u + v)[|u|..] == v;
  }

  lemma AtHead(code: seq<Token>, p: nat, t: Token, v: seq<Token>)
    requires At(code, p, [t] + v)
    ensures p < |code| && code[p] == t && At(code, p + 1, v)
  {
    AtSplit(code, p, [t], v);
    assert code[p] == code[p..p + 1][0];
  }

  // ----- how much stack a tree needs -----

  function Need(e: Expr): (n: nat)
    ensures n > 0
    decreases e, 1
  {
    match e
    case Const(_) => 1
    case Variable(_) => 1
    case Binary(_, l, r) => Max(Need(l), 1 + Need(r))
    case Call(_, _, _, args) => Max(1, NeedAll(args))
    case Let(_, e) => 1 + Need(e)
    case Cond(c, a, b) => Max(Need(c), Max(Need(a), Need(b)))
  }

  function NeedAll(es: seq<Expr>): (n: nat)
    ensures n >= |es|
    decreases es, 0
  {
    if es == [] then 0
    else Max(NeedAll(es[..|es| - 1]), |es| - 1 + Need(es[|es| - 1]))
  }

  function Size(e: Expr): (n: nat)
    ensures n > 0
    decreases e, 1
  {
    match e
    case Const(_) => 1
    case Variable(_) => 1
    case Binary(_, l, r) => Size(l) + Size(r)
    case Call(_, _, _, args) => 1 + SizeAll(args)
    case Let(_, e) => 1 + Size(e)
    case Cond(c, a, b) => Size(c) + Size(a) + Size(b)
  }

  function SizeAll(es: seq<Expr>): (n: nat)
    ensures n >= |es|
    decreases es, 0
  {
    if es == [] then 0 else SizeAll(es[..|es| - 1]) + Size(es[|es| - 1])
  }

  const UINT_RANGE: nat := 0x1_0000_0000

  /** The running position after a tree: at least one value more, and never wrapped around;
      the recorded maximum covers what the tree needs above the position it started from. */
  predicate Reserves(b: Builder, r: Builder, values: nat, need: nat, size: nat) {
    && b.pos + values <= r.pos <= b.pos + size
    && r.max >= b.max && r.max >= b.pos + need
  }

  lemma AddOpReserves(m: Machine, b: Builder, op: Op)
    requires |b.code| >= 2 && 0 < b.pos < UINT_RANGE
    ensures var r := AddOp(m, b, op); b.pos - 1 <= r.pos <= b.pos && r.max == b.max
  {
  }

  lemma AddFunReserves(m: Machine, b: Builder, e: Expr)
    requires e.Call? && WellFormed(e)
    requires |e.args| <= |b.code| && |e.args| <= b.pos < UINT_RANGE - 1
    ensures var r := AddFun(m, b, e.cb, Argc(e), e.optimizable);
      r.pos == b.pos - |e.args| + 1 && r.max >= b.max && (e.args == [] ==> r.max >= r.pos)
  {
  }

  lemma BinaryReserves(m: Machine, op: Op, l: Expr, r: Expr, b: Builder)
    requires b.pos + Size(l) + Size(r) < UINT_RANGE
    requires var b1 := Compile(m, l, b);
      Reserves(b, b1, 1, Need(l), Size(l)) && Reserves(b1, Compile(m, r, b1), 1, Need(r), Size(r))
    ensures Reserves(b, Compile(m, Binary(op, l, r), b), 1, Need(Binary(op, l, r)), Size(Binary(op, l, r)))
  {
    hide AddOp;
    AddOpReserves(m, Compile(m, r, Compile(m, l, b)), op);
  }

  lemma {:induction false} CondReserves(m: Machine, c: Expr, a: Expr, d: Expr, b: Builder)
    requires WellFormed(Cond(c, a, d)) && b.pos + Size(Cond(c, a, d)) < UINT_RANGE
    ensures Reserves(b, Compile(m, Cond(c, a, d), b), 1, Need(Cond(c, a, d)), Size(Cond(c, a, d)))
    decreases Cond(c, a, d), 0
  {
    var b1 := AddIfElse(Compile(m, c, b), If(0));
    BuilderReserves(m, c, b);
    BuilderReserves(m, a, b1);
    BuilderReserves(m, d, AddIfElse(Compile(m, a, b1), Else(0)));
  }

  /** Folding and `?:` leave the running position too high, never too low. */
  lemma {:induction false} BuilderReserves(m: Machine, e: Expr, b: Builder)
    requires WellFormed(e) && b.pos + Size(e) < UINT_RANGE
    ensures Reserves(b, Compile(m, e, b), 1, Need(e), Size(e))
    decreases e, 1
  {
    hide Compile, Need;
    match e
    case Const(_) => AtomReserves(m, e, b);
    case Variable(_) => AtomReserves(m, e, b);
    case Binary(op, l, r) =>
      BuilderReserves(m, l, b);
      BuilderReserves(m, r, Compile(m, l, b));
      BinaryReserves(m, op, l, r, b);
    case Call(_, _, _, args) =>
      BuilderReservesAll(m, args, b);
      CallReserves(m, e, b);
    case Let(p, e1) =>
      BuilderReserves(m, e1, AddVar(b, p));
      LetReserves(m, p, e1, b);
    case Cond(c, a, d) =>
      CondReserves(m, c, a, d, b);
  }

  lemma AtomReserves(m: Machine, e: Expr, b: Builder)
    requires (e.Const? || e.Variable?) && b.pos + Size(e) < UINT_RANGE
    ensures Reserves(b, Compile(m, e, b), 1, Need(e), Size(e))
  {
  }

  lemma LetReserves(m: Machine, p: Ptr, e: Expr, b: Builder)
    requires b.pos + Size(Let(p, e)) < UINT_RANGE
    requires Reserves(AddVar(b, p), Compile(m, e, AddVar(b, p)), 1, Need(e), Size(e))
    ensures Reserves(b, Compile(m, Let(p, e), b), 1, Need(Let(p, e)), Size(Let(p, e)))
  {
    hide Wrap;
    NoWrap(b.pos + 1);
    NoWrap(Compile(m, e, AddVar(b, p)).pos - 1);
    assert Compile(m, Let(p, e), b) == AddAssignOp(Compile(m, e, AddVar(b, p)), p);
  }

  lemma NoWrap(x: int)
    requires 0 <= x < UINT_RANGE
    ensures Wrap(x) == x
  {
  }

  predicate ReservesAll(b: Builder, r: Builder, es: seq<Expr>) {
    && b.pos + |es| <= r.pos <= b.pos + SizeAll(es)
    && r.max >= b.max && (es != [] ==> r.max >= b.pos + NeedAll(es))
  }

  lemma CallReserves(m: Machine, e: Expr, b: Builder)
    requires e.Call? && WellFormed(e) && b.pos + Size(e) < UINT_RANGE
    requires ReservesAll(b, CompileAll(m, e.args, b), e.args)
    ensures Reserves(b, Compile(m, e, b), 1, Need(e), Size(e))
  {
    hide AddFun;
    AddFunReserves(m, CompileAll(m, e.args, b), e);
  }

  lemma {:induction false} BuilderReservesAll(m: Machine, es: seq<Expr>, b: Builder)
    requires forall i :: 0 <= i < |es| ==> WellFormed(es[i])
    requires b.pos + SizeAll(es) < UINT_RANGE
    ensures ReservesAll(b, CompileAll(m, es, b), es)
    decreases es, 0
  {
    if es != [] {
      var init, last := es[..|es| - 1], es[|es| - 1];
      BuilderReservesAll(m, init, b);
      BuilderReserves(m, last, CompileAll(m, init, b));
    }
  }

  // ----- single steps, as equations between runs -----

  lemma OperandStep(m: Machine, code: seq<Token>, cap: nat, p: nat, stk: seq<real>, s: Store)
    requires p < |code| && code[p].Operand? && |stk| + 1 < cap
    ensures Run(m, code, cap, p, stk, s) == Run(m, code, cap, p + 1, stk + [OperandValue(code[p], s)], s)
  {
  }

  lemma BinaryStep(m: Machine, code: seq<Token>, cap: nat, p: nat, stk: seq<real>, x: real, y: real, s: Store)
    requires p < |code| && code[p].Bin?
    ensures Run(m, code, cap, p, stk + [x] + [y], s) ==
            Run(m, code, cap, p + 1, stk + [BinaryValue(m, code[p].op, x, y)], s)
  {
    var top := stk + [x] + [y];
    assert top[..|top| - 2] == stk;
  }

  lemma AssignStep(m: Machine, code: seq<Token>, cap: nat, p: nat, stk: seq<real>, x: real, y: real, s: Store)
    requires p < |code| && code[p].Assign?
    ensures Run(m, code, cap, p, stk + [x] + [y], s) == Run(m, code, cap, p + 1, stk + [y], Update(s, code[p].dst, y))
  {
    var top := stk + [x] + [y];
    assert top[..|top| - 2] == stk;
  }

  lemma IfStep(m: Machine, code: seq<Token>, cap: nat, p: nat, stk: seq<real>, v: real, s: Store)
    requires p < |code| && code[p].If?
    ensures Run(m, code, cap, p, stk + [v], s)
         == Run(m, code, cap, if v == 0.0 then p + code[p].offset + 1 else p + 1, stk, s)
  {
    assert (stk + [v])[..|stk|] == stk;
  }

  lemma ElseStep(m: Machine, code: seq<Token>, cap: nat, p: nat, stk: seq<real>, s: Store)
    requires p < |code| && code[p].Else?
    ensures Run(m, code, cap, p, stk, s) == Run(m, code, cap, p + code[p].offset + 1, stk, s)
  {
  }

  lemma EndIfStep(m: Machine, code: seq<Token>, cap: nat, p: nat, stk: seq<real>, s: Store)
    requires p < |code| && code[p].EndIf?
    ensures Run(m, code, cap, p, stk, s) == Run(m, code, cap, p + 1, stk, s)
  {
  }

  lemma FunStep(m: Machine, code: seq<Token>, cap: nat, p: nat, stk: seq<real>, vs: seq<real>, s: Store)
    requires p < |code| && code[p].Fun? && code[p].argc <= 10 && |vs| == Abs(code[p].argc) && |stk| + 1 < cap
    ensures Run(m, code, cap, p, stk + vs, s) == Run(m, code, cap, p + 1, stk + [CallValue(m, code[p].cb, vs)], s)
  {
    var top := stk + vs;
    assert top[|top| - |vs|..] == vs && top[..|top| - |vs|] == stk;
    if vs == [] { assert top == stk; }
  }

  lemma EndStep(m: Machine, code: seq<Token>, cap: nat, p: nat, stk: seq<real>, s: Store)
    requires p < |code| && code[p].End?
    ensures Run(m, code, cap, p, stk, s) == Halted(stk, s)
  {
  }

  // ----- running the code of a tree -----

  /** Running from p to the end of the tree's code pushes its value. */
  ghost predicate Runs(m: Machine, e: Expr, opt: bool, code: seq<Token>, cap: nat, p: nat, stk: seq<real>, s: Store) {
    var (v, s1) := Computes(m, e, opt, s);
    Run(m, code, cap, p, stk, s) == Run(m, code, cap, p + |Code(m, e, opt, true)|, stk + [v], s1)
  }

  lemma AtomRuns(m: Machine, e: Expr, opt: bool, code: seq<Token>, cap: nat, p: nat, stk: seq<real>, s: Store)
    requires WellFormed(e) && IsAtom(Code(m, e, opt, true))
    requires At(code, p, Code(m, e, opt, true)) && |stk| + 1 < cap
    ensures Runs(m, e, opt, code, cap, p, stk, s)
  {
    var t := Code(m, e, opt, true)[0];
    assert code[p] == code[p..p + 1][0] == t;
    AtomMeaning(m, e, opt, s);
    OperandStep(m, code, cap, p, stk, s);
  }

  lemma {:induction false} CodeRuns(m: Machine, e: Expr, opt: bool, code: seq<Token>, cap: nat, p: nat,
                                    stk: seq<real>, s: Store)
    requires WellFormed(e)
    requires At(code, p, Code(m, e, opt, true)) && |stk| + Need(e) < cap
    ensures Runs(m, e, opt, code, cap, p, stk, s)
    decreases e, 2
  {
    match e
    case Const(_) => AtomRuns(m, e, opt, code, cap, p, stk, s);
    case Variable(_) => AtomRuns(m, e, opt, code, cap, p, stk, s);
    case Binary(op, l, r) => BinaryRuns(m, op, l, r, opt, code, cap, p, stk, s);
    case Call(_, _, _, _) => CallRuns(m, e, opt, code, cap, p, stk, s);
    case Let(q, e1) => LetRuns(m, q, e1, opt, code, cap, p, stk, s);
    case Cond(c, a, b) => CondRuns(m, c, a, b, opt, code, cap, p, stk, s);
  }

  lemma {:induction false} BinaryRuns(m: Machine, op: Op, l: Expr, r: Expr, opt: bool,
                                      code: seq<Token>, cap: nat, p: nat, stk: seq<real>, s: Store)
    requires WellFormed(l) && WellFormed(r)
    requires At(code, p, Code(m, Binary(op, l, r), opt, true)) && |stk| + Need(Binary(op, l, r)) < cap
    ensures Runs(m, Binary(op, l, r), opt, code, cap, p, stk, s)
    decreases Binary(op, l, r), 1
  {
    hide Fuse, OpCode, FusedTail, Run;
    var cl, cr := Code(m, l, opt, true), Code(m, r, opt, true);
    OpCodeUnfused(m, opt, cl + cr, op);
    if FusedTail(m, opt, cl + cr, op).To? {
      OperandTail(m, l, opt, true);
      OperandTail(m, r, opt, true);
      FusedIsAtom(m, opt, cl, cr, op);
      AtomRuns(m, Binary(op, l, r), opt, code, cap, p, stk, s);
    } else {
      UnfusedRuns(m, op, l, r, opt, code, cap, p, stk, s);
    }
  }

  lemma {:induction false} UnfusedRuns(m: Machine, op: Op, l: Expr, r: Expr, opt: bool,
                                       code: seq<Token>, cap: nat, p: nat, stk: seq<real>, s: Store)
    requires WellFormed(l) && WellFormed(r)
    requires var cl, cr := Code(m, l, opt, true), Code(m, r, opt, true);
      !FusedTail(m, opt, cl + cr, op).To? && At(code, p, cl + cr + [Bin(op)])
    requires |stk| + Need(Binary(op, l, r)) < cap
    ensures Runs(m, Binary(op, l, r), opt, code, cap, p, stk, s)
    decreases Binary(op, l, r), 0
  {
    hide Fuse, FusedTail, Run, At, WellFormed;
    var cl, cr := Code(m, l, opt, true), Code(m, r, opt, true);
    OpCodeUnfused(m, opt, cl + cr, op);
    if FoldsPair(opt, cl, cr) { FoldsPairFuses(m, opt, cl, cr, op); }
    var (x, s1) := Computes(m, l, opt, s);
    var (y, s2) := Computes(m, r, opt, s1);
    AtSplit(code, p, cl + cr, [Bin(op)]);
    AtSplit(code, p, cl, cr);
    AtHead(code, p + |cl + cr|, Bin(op), []);
    CodeRuns(m, l, opt, code, cap, p, stk, s);
    CodeRuns(m, r, opt, code, cap, p + |cl|, stk + [x], s1);
    BinaryStep(m, code, cap, p + |cl + cr|, stk, x, y, s2);
  }

  lemma {:induction false} LetRuns(m: Machine, q: Ptr, e: Expr, opt: bool,
                                   code: seq<Token>, cap: nat, p: nat, stk: seq<real>, s: Store)
    requires WellFormed(e)
    requires At(code, p, Code(m, Let(q, e), opt, true)) && |stk| + Need(Let(q, e)) < cap
    ensures Runs(m, Let(q, e), opt, code, cap, p, stk, s)
    decreases Let(q, e), 1
  {
    hide Run;
    var c := Code(m, e, opt, true);
    AtSplit(code, p, [VarToken(q)] + c, [Assign(q)]);
    AtHead(code, p, VarToken(q), c);
    AtHead(code, p + 1 + |c|, Assign(q), []);
    var x := s(q);
    var (v, s1) := Computes(m, e, opt, s);
    OperandStep(m, code, cap, p, stk, s);
    CodeRuns(m, e, opt, code, cap, p + 1, stk + [x], s);
    AssignStep(m, code, cap, p + 1 + |c|, stk, x, v, s1);
  }

  lemma BranchLayout(code: seq<Token>, p: nat, cc: seq<Token>, ca: seq<Token>, cb: seq<Token>)
    requires At(code, p, cc + Branch(|ca| + 1, ca, |cb| + 1, cb))
    ensures var q := p + |cc|; var n := q + 1 + |ca|;
      && n + 1 + |cb| < |code|
      && At(code, p, cc) && At(code, q + 1, ca) && At(code, n + 1, cb)
      && code[q] == If(|ca| + 1) && code[n] == Else(|cb| + 1) && code[n + 1 + |cb|] == EndIf
  {
    var q := p + |cc|;
    var n := q + 1 + |ca|;
    AtSplit(code, p, cc, Branch(|ca| + 1, ca, |cb| + 1, cb));
    AtHead(code, q, If(|ca| + 1), ca + ([Else(|cb| + 1)] + (cb + [EndIf])));
    AtSplit(code, q + 1, ca, [Else(|cb| + 1)] + (cb + [EndIf]));
    AtHead(code, n, Else(|cb| + 1), cb + [EndIf]);
    AtSplit(code, n + 1, cb, [EndIf]);
    AtHead(code, n + 1 + |cb|, EndIf, []);
  }

  lemma CondParts(m: Machine, c: Expr, a: Expr, b: Expr, opt: bool, s: Store)
    ensures WellFormed(Cond(c, a, b)) ==> WellFormed(c) && WellFormed(a) && WellFormed(b)
    ensures Need(Cond(c, a, b)) >= Need(c) && Need(Cond(c, a, b)) >= Need(a) && Need(Cond(c, a, b)) >= Need(b)
    ensures var ca, cb := Code(m, a, opt, true), Code(m, b, opt, true);
      Code(m, Cond(c, a, b), opt, true) == Code(m, c, opt, true) + Branch(|ca| + 1, ca, |cb| + 1, cb)
    ensures var (v, s1) := Computes(m, c, opt, s);
      Computes(m, Cond(c, a, b), opt, s) == if v != 0.0 then Computes(m, a, opt, s1) else Computes(m, b, opt, s1)
  {
  }

  lemma {:induction false} CondRuns(m: Machine, c: Expr, a: Expr, b: Expr, opt: bool,
                                    code: seq<Token>, cap: nat, p: nat, stk: seq<real>, s: Store)
    requires WellFormed(Cond(c, a, b))
    requires At(code, p, Code(m, Cond(c, a, b), opt, true)) && |stk| + Need(Cond(c, a, b)) < cap
    ensures Runs(m, Cond(c, a, b), opt, code, cap, p, stk, s)
    decreases Cond(c, a, b), 1
  {
    hide Run, Need, WellFormed, Code, Computes;
    CondParts(m, c, a, b, opt, s);
    var cc, ca, cb := Code(m, c, opt, true), Code(m, a, opt, true), Code(m, b, opt, true);
    var q := p + |cc|;
    var n := q + 1 + |ca|;
    BranchLayout(code, p, cc, ca, cb);
    hide At, Branch;
    var (v, s1) := Computes(m, c, opt, s);
    var (w, s2) := if v != 0.0 then Computes(m, a, opt, s1) else Computes(m, b, opt, s1);
    CodeRuns(m, c, opt, code, cap, p, stk, s);
    if v != 0.0 {
      CodeRuns(m, a, opt, code, cap, q + 1, stk, s1);
    } else {
      CodeRuns(m, b, opt, code, cap, n + 1, stk, s1);
    }
    CondChain(m, code, cap, p, |cc|, |ca|, |cb|, stk, s, v, s1, w, s2);
  }

  lemma CondChain(m: Machine, code: seq<Token>, cap: nat, p: nat, lc: nat, la: nat, lb: nat,
                  stk: seq<real>, s: Store, v: real, s1: Store, w: real, s2: Store)
    requires p + lc + la + lb + 3 <= |code|
    requires code[p + lc] == If(la + 1) && code[p + lc + 1 + la] == Else(lb + 1) && code[p + lc + la + lb + 2] == EndIf
    requires Run(m, code, cap, p, stk, s) == Run(m, code, cap, p + lc, stk + [v], s1)
    requires v != 0.0 ==>
      Run(m, code, cap, p + lc + 1, stk, s1) == Run(m, code, cap, p + lc + 1 + la, stk + [w], s2)
    requires v == 0.0 ==>
      Run(m, code, cap, p + lc + la + 2, stk, s1) == Run(m, code, cap, p + lc + la + lb + 2, stk + [w], s2)
    ensures Run(m, code, cap, p, stk, s) == Run(m, code, cap, p + lc + la + lb + 3, stk + [w], s2)
  {
    hide Run;
    IfStep(m, code, cap, p + lc, stk, v, s1);
    if v != 0.0 {
      ElseStep(m, code, cap, p + lc + 1 + la, stk + [w], s2);
    } else {
      EndIfStep(m, code, cap, p + lc + la + lb + 2, stk + [w], s2);
    }
  }

  lemma FunCodeCases(m: Machine, opt: bool, code: seq<Token>, cb: Callable, argc: int, optimizable: bool)
    requires |code| >= argc
    ensures var r := FunCode(m, opt, code, cb, argc, optimizable);
      if DropsCall(opt, cb, argc, optimizable) then r == code
      else if FoldsCall(opt, code, argc, optimizable) then |code| == argc ==> IsAtom(r)
      else r == code + [Fun(cb, argc)]
  {
  }

  lemma {:induction false} CallRuns(m: Machine, e: Expr, opt: bool,
                                    code: seq<Token>, cap: nat, p: nat, stk: seq<real>, s: Store)
    requires e.Call? && WellFormed(e)
    requires At(code, p, Code(m, e, opt, true)) && |stk| + Need(e) < cap
    ensures Runs(m, e, opt, code, cap, p, stk, s)
    decreases e, 1
  {
    hide Run, FunCode, At, Update;
    var all := CodeAll(m, e.args, opt, true);
    FunCodeCases(m, opt, all, e.cb, Argc(e), e.optimizable);
    if DropsCall(opt, e.cb, Argc(e), e.optimizable) {
      OneArgument(m, e.args, opt, true);
      OneValue(m, e.args, opt, s);
      CodeRuns(m, e.args[0], opt, code, cap, p, stk, s);
    } else if FoldsCall(opt, all, Argc(e), e.optimizable) {
      ArgumentTail(m, e.args, opt, true);
      AtomRuns(m, e, opt, code, cap, p, stk, s);
    } else {
      AtSplit(code, p, all, [Fun(e.cb, Argc(e))]);
      AtHead(code, p + |all|, Fun(e.cb, Argc(e)), []);
      var (vs, s1) := ComputesAll(m, e.args, opt, s);
      AllRun(m, e.args, opt, code, cap, p, stk, s);
      FunStep(m, code, cap, p + |all|, stk, vs, s1);
    }
  }

  lemma {:induction false} AllRun(m: Machine, es: seq<Expr>, opt: bool,
                                  code: seq<Token>, cap: nat, p: nat, stk: seq<real>, s: Store)
    requires forall i :: 0 <= i < |es| ==> WellFormed(es[i])
    requires At(code, p, CodeAll(m, es, opt, true)) && |stk| + NeedAll(es) < cap
    ensures var (vs, s1) := ComputesAll(m, es, opt, s);
      Run(m, code, cap, p, stk, s) == Run(m, code, cap, p + |CodeAll(m, es, opt, true)|, stk + vs, s1)
    decreases es, 0
  {
    hide Run, At, Computes, Code, WellFormed;
    if es != [] {
      var init, last := es[..|es| - 1], es[|es| - 1];
      var ci := CodeAll(m, init, opt, true);
      AtSplit(code, p, ci, Code(m, last, opt, true));
      var (vs, s1) := ComputesAll(m, init, opt, s);
      var (v, s2) := Computes(m, last, opt, s1);
      AllRun(m, init, opt, code, cap, p, stk, s);
      CodeRuns(m, last, opt, code, cap, p + |ci|, stk + vs, s1);
      assert stk + vs + [v] == stk + (vs + [v]);
    } else {
      assert stk + [] == stk;
    }
  }

  /** The final code of a tree, as `CreateRPN` leaves it, and the stack buffer it is given. */
  function Program(m: Machine, e: Expr, opt: bool): Builder {
    var b := Compile(m, e, Builder([], 0, 0, opt));
    b.(code := Finalize(b.code))
  }

  /** For every tree, from any store, the program halts with exactly one value and never leaves a
      buffer of `GetMaxStackSize()` entries; value and store are the tree's, with folded operators
      having their folded value. */
  lemma ProgramComputes(m: Machine, e: Expr, opt: bool, s: Store)
    requires WellFormed(e) && Size(e) < UINT_RANGE
    ensures var p := Program(m, e, opt); var (v, s1) := Computes(m, e, opt, s);
      Run(m, p.code, p.max + 1, 0, [], s) == Halted([v], s1)
  {
    hide Run, Finalize, Compile, Code, Computes;
    var b0 := Builder([], 0, 0, opt);
    var b := Compile(m, e, b0);
    CompileAppends(m, e, b0);
    BuilderReserves(m, e, b0);
    FinalizeLinksTree(m, e, opt);
    assert b.code == Code(m, e, opt, false);
    var code := Finalize(b.code);
    var c := Code(m, e, opt, true);
    AtSplit(code, 0, c, [End]);
    AtHead(code, |c|, End, []);
    var (v, s1) := Computes(m, e, opt, s);
    CodeRuns(m, e, opt, code, b.max + 1, 0, [], s);
    EndStep(m, code, b.max + 1, |c|, [v], s1);
    assert [] + [v] == [v];
  }

  /** Compiler correctness: unless a logical fold is inexact, the program computes the tree's
      left-to-right value and its store. */
  lemma CompilerCorrect(m: Machine, e: Expr, opt: bool, s: Store)
    requires WellFormed(e) && FoldSafe(m, e, opt) && Size(e) < UINT_RANGE
    ensures var p := Program(m, e, opt); var (v, s1) := Eval(m, e, s);
      Run(m, p.code, p.max + 1, 0, [], s) == Halted([v], s1)
  {
    hide Run, Program, Eval, Computes;
    ProgramComputes(m, e, opt, s);
    ComputesReference(m, e, opt, s);
  }

  /** The optimiser preserves meaning: with it on or off, a program computes the same. */
  lemma OptimiserPreservesMeaning(m: Machine, e: Expr, s: Store)
    requires WellFormed(e) && FoldSafe(m, e, true) && Size(e) < UINT_RANGE
    ensures var p, q := Program(m, e, true), Program(m, e, false);
      Run(m, p.code, p.max + 1, 0, [], s) == Run(m, q.code, q.max + 1, 0, [], s)
  {
    hide Run, Program, Eval;
    UnoptimisedIsFoldSafe(m, e);
    CompilerCorrect(m, e, true, s);
    CompilerCorrect(m, e, false, s);
  }

  // ----- one operator on any code -----

  /** Two token sequences without jumps do the same, wherever they stand. */
  function RunStraight(m: Machine, block: seq<Token>, cap: nat, stk: seq<real>, s: Store): Vm {
    Run(m, block + [End], cap, 0, stk, s)
  }

  /** Peephole refinement: on any code ending in two operands, adding an operator with the
      optimiser on leaves the rest of the code alone and does to the machine what the unfused
      operator does, exactly unless a logical fold is not `FoldExact`. */
  lemma PeepholeRefines(m: Machine, b: Builder, op: Op, cap: nat, stk: seq<real>, s: Store)
    requires |b.code| >= 2 && b.opt && FusedTail(m, true, b.code, op).To?
    requires TokenOK(b.code[|b.code| - 2]) && TokenOK(b.code[|b.code| - 1])
    requires |stk| + 2 < cap
    ensures var n := |b.code|; var r := AddOp(m, b, op).code;
      && |r| == n - 1 && r[..n - 2] == b.code[..n - 2] && TokenOK(r[n - 2])
      && var x, y := b.code[n - 2], b.code[n - 1];
         (RunStraight(m, [r[n - 2]], cap, stk, s) == RunStraight(m, [x, y, Bin(op)], cap, stk, s)
          <==> (x.IsVal() && y.IsVal() ==> FoldExact(op, x.data2, y.data2)))
  {
    var n := |b.code|;
    var x, y := b.code[n - 2], b.code[n - 1];
    FuseNeedsOperands(m, op, x, y);
    FuseIsSoundIff(m, op, x, y, s);
    var t := AddOp(m, b, op).code[n - 2];
    StraightOne(m, t, cap, stk, s);
    StraightThree(m, x, y, op, cap, stk, s);
    var v, w := OperandValue(t, s), BinaryValue(m, op, OperandValue(x, s), OperandValue(y, s));
    assert (stk + [v])[|stk|] == v && (stk + [w])[|stk|] == w;
  }

  lemma StraightOne(m: Machine, t: Token, cap: nat, stk: seq<real>, s: Store)
    requires t.Operand? && |stk| + 2 < cap
    ensures RunStraight(m, [t], cap, stk, s) == Halted(stk + [OperandValue(t, s)], s)
  {
    hide Run;
    var c := [t] + [End];
    assert c[0] == t && c[1] == End;
    OperandStep(m, c, cap, 0, stk, s);
    EndStep(m, c, cap, 1, stk + [OperandValue(t, s)], s);
  }

  lemma StraightThree(m: Machine, x: Token, y: Token, op: Op, cap: nat, stk: seq<real>, s: Store)
    requires x.Operand? && y.Operand? && |stk| + 2 < cap
    ensures RunStraight(m, [x, y, Bin(op)], cap, stk, s)
         == Halted(stk + [BinaryValue(m, op, OperandValue(x, s), OperandValue(y, s))], s)
  {
    hide Run;
    var c := [x, y, Bin(op)] + [End];
    assert c[0] == x && c[1] == y && c[2] == Bin(op) && c[3] == End;
    var v, w := OperandValue(x, s), OperandValue(y, s);
    OperandStep(m, c, cap, 0, stk, s);
    OperandStep(m, c, cap, 1, stk + [v], s);
    BinaryStep(m, c, cap, 2, stk, v, w, s);
    EndStep(m, c, cap, 3, stk + [BinaryValue(m, op, v, w)], s);
  }
}
