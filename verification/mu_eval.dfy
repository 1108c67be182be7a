/** End to end: which formulas are accepted, and what evaluating one does (`ParseString`). */
module MuEval {
  import MuLink
  import opened MuBuilder
  import opened MuCode
  import opened MuComplete
  import opened MuCorrect
  import opened MuExpr
  import opened MuGrammar
  import opened MuParser
  import opened MuReader
  import opened MuSound
  import opened MuSyntax
  import opened MuUnique
  import opened MuVm
  import opened Wrappers

  /** A formula is accepted if and only if it spells a grammatical tree. */
  lemma AcceptedIffGrammatical(m: Machine, store: Store, input: seq<Lexeme>, opt: bool)
    requires NamesDefined(input)
    ensures CreateRPN(m, store, input, opt).Some? <==> exists e :: Spelling(e, input)
  {
    hide CreateRPN, Compile, Finalize;
    if CreateRPN(m, store, input, opt).Some? {
      var e := ParserSound(m, store, input, opt);
      assert Spelling(e, input);
    } else if exists e :: Spelling(e, input) {
      var e :| Spelling(e, input);
      ParserComplete(m, store, e, opt);
      assert false;
    }
  }

  /** The formula spells the tree, which is one of the grammar. */
  predicate Reading(e: Syn, input: seq<Lexeme>) {
    IsFormula(e) && Lexemes(e) == input
  }

  /** A formula is accepted if and only if it spells a tree of the grammar, and it spells only one. */
  lemma AcceptedIffFormula(m: Machine, store: Store, input: seq<Lexeme>, opt: bool)
    requires NamesDefined(input)
    ensures CreateRPN(m, store, input, opt).Some? <==> exists e :: Reading(e, input)
    ensures forall d, e :: Reading(d, input) && Reading(e, input) ==> d == e
  {
    hide CreateRPN, Compile, Finalize, IsFormula, Grammatical, Lexemes;
    forall e: Syn
      ensures Reading(e, input) <==> Spelling(e, input)
    {
      GrammaticalIff(e);
    }
    AcceptedIffGrammatical(m, store, input, opt);
    if e :| Spelling(e, input) { assert Reading(e, input); }
    forall d, e | Reading(d, input) && Reading(e, input)
      ensures d == e
    {
      SpelledOneWay(d, e, input);
    }
  }

  /** What a formula gives: none if it is not accepted, and otherwise the value its program halts with,
      and the variables. */
  ghost function Result(m: Machine, input: seq<Lexeme>, opt: bool, s: Store): Option<(real, Store)> {
    var y := CreateRPN(m, s, input, opt);
    if y.None? then None
    else
      var h := Run(m, y.value.b.code, y.value.b.max + 1, 0, [], s);
      if h.Halted? && |h.stk| == 1 then Some((h.stk[0], h.store)) else None
  }

  lemma {:induction false} SpellingBoundsSize(e: Syn)
    ensures Size(Erase(e)) <= |Lexemes(e)|
  {
    match e
    case Num(_) =>
    case Name(_) =>
    case Paren(e1) => SpellingBoundsSize(e1);
    case Signed(minus, e1) =>
      SpellingBoundsSize(e1);
      var x := Erase(e1);
      assert [x][..0] == [] && SizeAll([x]) == SizeAll([x][..0]) + Size(x);
    case Infix(_, l, r) =>
      SpellingBoundsSize(l);
      SpellingBoundsSize(r);
    case Set(_, e1) => SpellingBoundsSize(e1);
    case Ternary(c, a, b) =>
      SpellingBoundsSize(c);
      SpellingBoundsSize(a);
      SpellingBoundsSize(b);
  }

  /** The code of an accepted formula can be run: in the buffer reserved for it, from any store, it
      halts with one value, which is what the spelled tree computes. */
  lemma AcceptedRuns(m: Machine, store: Store, input: seq<Lexeme>, opt: bool, s: Store) returns (e: Syn)
    requires NamesDefined(input) && |input| < UINT_RANGE
    requires CreateRPN(m, store, input, opt).Some?
    ensures Grammatical(e) && Lexemes(e) == input
    ensures var b := CreateRPN(m, store, input, opt).value.b; var (v, s1) := Computes(m, Erase(e), opt, s);
      CreateRPN(m, store, input, opt).value.args == [1]
      && b == Program(m, Erase(e), opt)
      && Run(m, b.code, b.max + 1, 0, [], s) == Halted([v], s1)
  {
    hide CreateRPN, Run, Compile, Finalize, Computes, Grammatical, Lexemes, Erase;
    e := ParserSound(m, store, input, opt);
    ErasureIsWellFormed(e);
    SpellingBoundsSize(e);
    ProgramComputes(m, Erase(e), opt, s);
  }

  /** `ParseCmdCodeShort`: a formula of one token is evaluated without the machine. */
  function ShortValue(m: Machine, t: Token, s: Store): Option<real> {
    match t
    case Operand(_, _, _, _) => Some(OperandValue(t, s))
    case Fun(cb, argc) => if argc == 0 then Some(CallValue(m, cb, [])) else None
    case _ => None
  }

  lemma ShortAgrees(m: Machine, code: seq<Token>, cap: nat, s: Store, v: real, s1: Store)
    requires |code| == 2 && code[1] == End
    requires Run(m, code, cap, 0, [], s) == Halted([v], s1)
    ensures ShortValue(m, code[0], s) == Some(v) && s1 == s
  {
    StepAdvances(m, code, cap, 0, [], s);
    var next := Step(m, code, cap, 0, [], s);
    if next.Running? {
      if next.pc == 1 {
        EndStep(m, code, cap, 1, next.stk, next.store);
        assert next.stk[0] == v;
      }
    }
  }

  /** `ParseString`: parses, then runs the byte code.  It fails exactly for the formulas that spell
      no tree of the grammar.  Otherwise the one tree that is spelled gives result and variables: what
      its code computes, which is its left-to-right value unless a folded logical operator is
      inexact. */
  method ParseString(m: Machine, input: seq<Lexeme>, mem: Memory, optimize: bool) returns (ok: bool, r: real)
    requires NamesDefined(input) && |input| < UINT_RANGE
    modifies mem
    ensures ok <==> exists e :: Reading(e, input)
    ensures !ok ==> mem.cells == old(mem.cells)
    ensures Result(m, input, optimize, old(mem.cells)) == if ok then Some((r, mem.cells)) else None
    ensures ok ==> forall e :: Reading(e, input) ==>
      (r, mem.cells) == Computes(m, Erase(e), optimize, old(mem.cells))
    ensures ok ==> forall e :: Reading(e, input) && FoldSafe(m, Erase(e), optimize) ==>
      (r, mem.cells) == Eval(m, Erase(e), old(mem.cells))
  {
    hide Run, CreateRPN, Grammatical, IsFormula, Lexemes, Erase, FoldSafe, Eval, Computes, Program;
    var rpn := new ByteCode();
    rpn.EnableOptimizer(optimize);
    var finalResultIdx;
    ghost var s := mem.cells;
    AcceptedIffFormula(m, s, input, optimize);
    ok, finalResultIdx := CreateByteCode(m, mem.cells, input, rpn);
    r := 0.0;
    if !ok {
      return;
    }
    ghost var e := AcceptedRuns(m, s, input, optimize, s);
    GrammaticalIff(e);
    forall d | Reading(d, input)
      ensures d == e
      ensures FoldSafe(m, Erase(d), optimize) ==>
        Computes(m, Erase(d), optimize, s) == Eval(m, Erase(d), s)
    {
      assert Reading(e, input);
      ErasureIsWellFormed(d);
      if FoldSafe(m, Erase(d), optimize) { ComputesReference(m, Erase(d), optimize, s); }
    }
    var stack := new real[rpn.GetMaxStackSize()];
    if |rpn.rpn| == 2 {
      ErasureIsWellFormed(e);
      ProgramEnds(m, Erase(e), optimize);
      ghost var (v, s1) := Computes(m, Erase(e), optimize, s);
      ShortAgrees(m, rpn.rpn, stack.Length, s, v, s1);
      r := ShortValue(m, rpn.rpn[0], mem.cells).value;
    } else {
      r := ParseCmdCode(m, rpn.rpn, stack, mem, finalResultIdx);
    }
  }

  lemma ProgramEnds(m: Machine, e: Expr, opt: bool)
    requires WellFormed(e)
    ensures var c := Program(m, e, opt).code; c != [] && c[|c| - 1] == End
  {
    hide Compile, Finalize, Code;
    var b := Builder([], 0, 0, opt);
    CompileAppends(m, e, b);
    assert Compile(m, e, b).code == Code(m, e, opt, false);
    MuLink.FinalizeLinksTree(m, e, opt);
  }
}
