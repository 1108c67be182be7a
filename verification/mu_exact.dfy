/** Exactly when the compiler is correct: folding keeps the meaning of a tree and of all its parts if
    and only if every fold is exact. */
module MuExact {
  import opened MuCode
  import opened MuCorrect
  import opened MuExpr
  import opened MuVm

  /** d is e or a part of it. */
  predicate Part(d: Expr, e: Expr) {
    d == e ||
    match e
    case Const(_) => false
    case Variable(_) => false
    case Binary(_, l, r) => Part(d, l) || Part(d, r)
    case Call(_, _, _, args) => exists i :: 0 <= i < |args| && Part(d, args[i])
    case Let(_, e1) => Part(d, e1)
    case Cond(c, a, b) => Part(d, c) || Part(d, a) || Part(d, b)
  }

  /** From every store, the tree's finished program halts with its value and its store. */
  ghost predicate RunsRight(m: Machine, e: Expr, opt: bool) {
    forall s :: RunsRightFrom(m, e, opt, s)
  }

  ghost predicate RunsRightFrom(m: Machine, e: Expr, opt: bool, s: Store) {
    var (v, s1) := Eval(m, e, s);
    Execution(m, e, opt, s) == Halted([v], s1)
  }

  /** How the tree's finished program ends, in the buffer reserved for it. */
  ghost function Execution(m: Machine, e: Expr, opt: bool, s: Store): Vm {
    var p := Program(m, e, opt);
    Run(m, p.code, p.max + 1, 0, [], s)
  }

  ghost predicate ComputesRight(m: Machine, e: Expr, opt: bool) {
    forall s :: Computes(m, e, opt, s) == Eval(m, e, s)
  }

  lemma {:induction false} PartIsGood(m: Machine, d: Expr, e: Expr, opt: bool)
    requires Part(d, e) && WellFormed(e)
    ensures WellFormed(d) && Size(d) <= Size(e)
    ensures FoldSafe(m, e, opt) ==> FoldSafe(m, d, opt)
  {
    if d != e {
      match e
      case Binary(_, l, r) => if Part(d, l) { PartIsGood(m, d, l, opt); } else { PartIsGood(m, d, r, opt); }
      case Call(_, _, _, args) =>
        var i :| 0 <= i < |args| && Part(d, args[i]);
        PartIsGood(m, d, args[i], opt);
        ArgumentIsSmaller(args, i);
      case Let(_, e1) => PartIsGood(m, d, e1, opt);
      case Cond(c, a, b) =>
        if Part(d, c) { PartIsGood(m, d, c, opt); }
        else if Part(d, a) { PartIsGood(m, d, a, opt); }
        else { PartIsGood(m, d, b, opt); }
    }
  }

  lemma {:induction false} ArgumentIsSmaller(args: seq<Expr>, i: nat)
    requires i < |args|
    ensures Size(args[i]) <= SizeAll(args)
  {
    if i < |args| - 1 {
      ArgumentIsSmaller(args[..|args| - 1], i);
    }
  }

  /** A program runs right exactly when the code computes the tree's value. */
  lemma RunsRightIff(m: Machine, e: Expr, opt: bool)
    requires WellFormed(e) && Size(e) < UINT_RANGE
    ensures RunsRight(m, e, opt) <==> ComputesRight(m, e, opt)
  {
    hide Run, Program, Eval, Computes;
    forall s
      ensures RunsRightFrom(m, e, opt, s) <==> Computes(m, e, opt, s) == Eval(m, e, s)
    {
      ProgramComputes(m, e, opt, s);
      var v, w := Eval(m, e, s).0, Computes(m, e, opt, s).0;
      assert [v] == [w] <==> v == w by { assert [v][0] == v && [w][0] == w; }
    }
  }

  /** If an operator computes its value and folds its operands, the fold is exact. */
  lemma FoldIsExact(m: Machine, op: Op, l: Expr, r: Expr, opt: bool)
    requires WellFormed(l) && WellFormed(r)
    requires FoldsPair(opt, Code(m, l, opt, true), Code(m, r, opt, true))
    requires ComputesRight(m, l, opt) && ComputesRight(m, r, opt) && ComputesRight(m, Binary(op, l, r), opt)
    ensures FoldExact(op, Code(m, l, opt, true)[0].data2, Code(m, r, opt, true)[0].data2)
  {
    var s: Store := _ => 0.0;
    AtomMeaning(m, l, opt, s);
    AtomMeaning(m, r, opt, s);
    assert Computes(m, Binary(op, l, r), opt, s) == Eval(m, Binary(op, l, r), s);
    FoldingIsExactIff(m, op, Code(m, l, opt, true)[0].data2, Code(m, r, opt, true)[0].data2);
  }

  /** If a tree and all its parts compute their values, every fold in it is exact. */
  lemma {:induction false} RightPartsAreFoldSafe(m: Machine, e: Expr, opt: bool)
    requires WellFormed(e) && forall d :: Part(d, e) ==> ComputesRight(m, d, opt)
    ensures FoldSafe(m, e, opt)
  {
    hide Computes, Eval, ComputesRight, Code;
    match e
    case Const(_) =>
    case Variable(_) =>
    case Binary(op, l, r) =>
      RightPartsAreFoldSafe(m, l, opt);
      RightPartsAreFoldSafe(m, r, opt);
      if FoldsPair(opt, Code(m, l, opt, true), Code(m, r, opt, true)) { FoldIsExact(m, op, l, r, opt); }
    case Call(_, _, _, args) =>
      forall i | 0 <= i < |args|
        ensures FoldSafe(m, args[i], opt)
      {
        RightPartsAreFoldSafe(m, args[i], opt);
      }
    case Let(_, e1) => RightPartsAreFoldSafe(m, e1, opt);
    case Cond(c, a, b) =>
      RightPartsAreFoldSafe(m, c, opt);
      RightPartsAreFoldSafe(m, a, opt);
      RightPartsAreFoldSafe(m, b, opt);
  }

  /** The compiler is correct on a tree and all its parts if and only if no fold in it is inexact. */
  lemma CompilerCorrectIff(m: Machine, e: Expr, opt: bool)
    requires WellFormed(e) && Size(e) < UINT_RANGE
    ensures FoldSafe(m, e, opt) <==> forall d :: Part(d, e) ==> RunsRight(m, d, opt)
  {
    hide Computes, Eval, FoldSafe, Part, RunsRight, ComputesRight, WellFormed;
    forall d | Part(d, e)
      ensures RunsRight(m, d, opt) <==> ComputesRight(m, d, opt)
      ensures FoldSafe(m, e, opt) ==> ComputesRight(m, d, opt)
    {
      PartIsGood(m, d, e, opt);
      RunsRightIff(m, d, opt);
      if FoldSafe(m, e, opt) { SafeComputesRight(m, d, opt); }
    }
    if forall d :: Part(d, e) ==> RunsRight(m, d, opt) { RightPartsAreFoldSafe(m, e, opt); }
  }

  lemma SafeComputesRight(m: Machine, e: Expr, opt: bool)
    requires WellFormed(e) && FoldSafe(m, e, opt)
    ensures ComputesRight(m, e, opt)
  {
    forall s
      ensures Computes(m, e, opt, s) == Eval(m, e, s)
    {
      ComputesReference(m, e, opt, s);
    }
  }

  /** The program of a tree ends the same with the optimiser on and off, from every store. */
  ghost predicate SameRuns(m: Machine, e: Expr) {
    forall s :: Execution(m, e, true, s) == Execution(m, e, false, s)
  }

  /** The optimiser changes no run of a tree or of its parts if and only if no fold is inexact. */
  lemma OptimiserPreservesMeaningIff(m: Machine, e: Expr)
    requires WellFormed(e) && Size(e) < UINT_RANGE
    ensures FoldSafe(m, e, true) <==> forall d :: Part(d, e) ==> SameRuns(m, d)
  {
    hide FoldSafe, Part, RunsRight, SameRuns, WellFormed;
    CompilerCorrectIff(m, e, true);
    forall d | Part(d, e)
      ensures SameRuns(m, d) <==> RunsRight(m, d, true)
    {
      PartIsGood(m, d, e, true);
      SameRunsIff(m, d);
    }
  }

  lemma SameRunsIff(m: Machine, e: Expr)
    requires WellFormed(e) && Size(e) < UINT_RANGE
    ensures SameRuns(m, e) <==> RunsRight(m, e, true)
  {
    hide Eval, FoldSafe, Run, Program, WellFormed, Execution;
    forall s
      ensures RunsRightFrom(m, e, true, s) <==> Execution(m, e, true, s) == Execution(m, e, false, s)
    {
      UnoptimisedRunsRight(m, e, s);
    }
  }

  lemma UnoptimisedRunsRight(m: Machine, e: Expr, s: Store)
    requires WellFormed(e) && Size(e) < UINT_RANGE
    ensures RunsRightFrom(m, e, false, s)
  {
    hide Eval, FoldSafe, Run, Program, WellFormed;
    UnoptimisedIsFoldSafe(m, e);
    CompilerCorrect(m, e, false, s);
  }

  // ----- two inputs -----

  /** `0.5 && 1` */
  function HalfAndOne(): Expr { Binary(LAND, Const(0.5), Const(1.0)) }

  lemma HalfAndOneFolds(m: Machine, s: Store)
    ensures Code(m, HalfAndOne(), true, true) == [ValToken(0.0)] && !FoldSafe(m, HalfAndOne(), true)
    ensures Computes(m, HalfAndOne(), true, s) == (0.0, s)
    ensures Computes(m, HalfAndOne(), false, s) == Eval(m, HalfAndOne(), s) == (1.0, s)
  {
    assert [ValToken(0.5)] + [ValToken(1.0)] == [ValToken(0.5), ValToken(1.0)];
    TruncateIsZeroIff(0.5);
  }

  /** The optimiser changes what `0.5 && 1` computes: its program halts at 0, and at 1 without it. */
  lemma FoldingDisagrees(m: Machine, s: Store)
    ensures Execution(m, HalfAndOne(), true, s) == Halted([0.0], s)
    ensures Execution(m, HalfAndOne(), false, s) == Halted([1.0], s)
  {
    hide Run, Program, Code, FoldSafe;
    HalfAndOneFolds(m, s);
    ProgramComputes(m, HalfAndOne(), true, s);
    ProgramComputes(m, HalfAndOne(), false, s);
  }

  /** An inexact fold need not show at the root, which is why all parts are spoken of together:
      `0 * (0.5 && 1)` has one, and is compiled correctly. */
  lemma InexactFoldCanBeMasked(m: Machine)
    ensures var e := Binary(MUL, Const(0.0), HalfAndOne());
            !FoldSafe(m, e, true) && RunsRight(m, e, true)
  {
    var e := Binary(MUL, Const(0.0), HalfAndOne());
    forall s
      ensures !FoldSafe(m, e, true) && Computes(m, e, true, s) == Eval(m, e, s)
    {
      HalfAndOneFolds(m, s);
    }
    HalfAndOneFolds(m, _ => 0.0);
    assert ComputesRight(m, e, true);
    RunsRightIff(m, e, true);
  }
}
