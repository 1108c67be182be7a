/** What formulas mean, said of their results without naming the functions that compute them: the laws
    of the operators, of signs, conditionals and assignments, and the order in which operators are
    applied. */
module MuLaws {
  import opened MuBuilder
  import opened MuCode
  import opened MuComplete
  import opened MuCorrect
  import opened MuEval
  import opened MuExpr
  import opened MuGrammar
  import opened MuParser
  import opened MuReader
  import opened MuSyntax
  import opened MuVm
  import opened Wrappers

  /** The result of a formula of the grammar is what its tree computes. */
  lemma Evaluates(m: Machine, e: Syn, opt: bool, s: Store)
    requires IsFormula(e) && |Lexemes(e)| < UINT_RANGE
    ensures Result(m, Lexemes(e), opt, s) == Some(Computes(m, Erase(e), opt, s))
  {
    hide CreateRPN, Run, Finalize, Compile, Computes, IsFormula, Grammatical, Lexemes, Erase;
    GrammaticalIff(e);
    ParserComplete(m, s, e, opt);
    ErasureIsWellFormed(e);
    SpellingBoundsSize(e);
    ProgramComputes(m, Erase(e), opt, s);
    var y, r := CreateRPN(m, s, Lexemes(e), opt).value, Computes(m, Erase(e), opt, s);
    assert y.b == Program(m, Erase(e), opt);
    assert Run(m, y.b.code, y.b.max + 1, 0, [], s) == Halted([r.0], r.1);
  }

  // ----- one operator -----

  /** The result of `x op y`, for variables of these values. */
  ghost function Applied(m: Machine, op: Op, x: real, y: real): real {
    var r := Result(m, [LName(1), LOp(op), LName(2)], true, p => if p == 1 then x else y);
    if r.Some? then r.value.0 else 0.0
  }

  /** Whatever the variables, the result of an operator depends only on their values, and they are left
      alone. */
  lemma Variables(m: Machine, op: Op, p: Ptr, q: Ptr, opt: bool, s: Store)
    requires p != NULL && q != NULL
    ensures Result(m, [LName(p), LOp(op), LName(q)], opt, s) == Some((Applied(m, op, s(p), s(q)), s))
  {
    AppliedIs(m, op, s(p), s(q));
    NamesGive(m, op, p, q, opt, s);
  }

  /** So it is for numbers, except for logical operators that are folded. */
  lemma Numbers(m: Machine, op: Op, x: real, y: real, opt: bool, s: Store)
    requires opt ==> op != LAND && op != LOR
    ensures Result(m, [LNum(x), LOp(op), LNum(y)], opt, s) == Some((Applied(m, op, x, y), s))
  {
    AppliedIs(m, op, x, y);
    NumbersGive(m, op, x, y, opt, s);
  }

  lemma OneOperator(op: Op, a: Syn, b: Syn)
    requires IsPrimary(a) && IsPrimary(b)
    ensures IsFormula(Infix(op, a, b)) && Lexemes(Infix(op, a, b)) == Lexemes(a) + [LOp(op)] + Lexemes(b)
  {
    hide IsFormula, IsPrimary, InLayer;
    PrimaryLayer(a);
    PrimaryLayer(b);
    JoinsLayers(op, a, b);
    FormulaLayer(Infix(op, a, b));
  }

  lemma NamesGive(m: Machine, op: Op, p: Ptr, q: Ptr, opt: bool, s: Store)
    requires p != NULL && q != NULL
    ensures Result(m, [LName(p), LOp(op), LName(q)], opt, s) == Some((BinaryValue(m, op, s(p), s(q)), s))
  {
    hide Result, BinaryValue;
    var e := Infix(op, Name(p), Name(q));
    OneOperator(op, Name(p), Name(q));
    assert [LName(p)] + [LOp(op)] + [LName(q)] == [LName(p), LOp(op), LName(q)];
    Evaluates(m, e, opt, s);
  }

  lemma NumbersGive(m: Machine, op: Op, x: real, y: real, opt: bool, s: Store)
    ensures Result(m, [LNum(x), LOp(op), LNum(y)], opt, s) ==
            Some((if opt then FoldedValue(m, op, x, y) else BinaryValue(m, op, x, y), s))
  {
    hide Result, BinaryValue, FoldedValue;
    var e := Infix(op, Num(x), Num(y));
    OneOperator(op, Num(x), Num(y));
    assert [LNum(x)] + [LOp(op)] + [LNum(y)] == [LNum(x), LOp(op), LNum(y)];
    Evaluates(m, e, opt, s);
  }

  lemma AppliedIs(m: Machine, op: Op, x: real, y: real)
    ensures Applied(m, op, x, y) == BinaryValue(m, op, x, y)
  {
    hide Result, BinaryValue;
    NamesGive(m, op, 1, 2, true, p => if p == 1 then x else y);
  }

  /** `<` looks at the sign of the difference; the other comparisons are its converse and complements,
      and exactly one of `<`, `==` and `>` holds. */
  lemma Comparisons(m: Machine, x: real, y: real, d: real)
    ensures Applied(m, LT, x, x + d) == if d > 0.0 then 1.0 else 0.0
    ensures Applied(m, GT, x, y) == Applied(m, LT, y, x)
    ensures Applied(m, LE, x, y) == 1.0 - Applied(m, GT, x, y)
    ensures Applied(m, GE, x, y) == 1.0 - Applied(m, LT, x, y)
    ensures Applied(m, NEQ, x, y) == 1.0 - Applied(m, EQ, x, y)
    ensures Applied(m, LT, x, y) + Applied(m, EQ, x, y) + Applied(m, GT, x, y) == 1.0
  {
    hide Applied;
    AppliedIs(m, LT, x, x + d);
    AppliedIs(m, LT, y, x);
    forall op: Op
      ensures Applied(m, op, x, y) == BinaryValue(m, op, x, y)
    {
      AppliedIs(m, op, x, y);
    }
  }

  /** `-` undoes `+`, and `/` undoes `*` unless it divides by zero. */
  lemma Arithmetic(m: Machine, x: real, y: real)
    ensures Applied(m, ADD, x, y) == x + y && Applied(m, ADD, Applied(m, SUB, x, y), y) == x
    ensures Applied(m, MUL, x, y) == x * y
    ensures y != 0.0 ==> Applied(m, MUL, Applied(m, DIV, x, y), y) == x
    ensures Applied(m, DIV, x, 0.0) == m.divZero(x)
  {
    hide Applied;
    forall op: Op
      ensures Applied(m, op, x, y) == BinaryValue(m, op, x, y)
    {
      AppliedIs(m, op, x, y);
    }
    AppliedIs(m, ADD, Applied(m, SUB, x, y), y);
    AppliedIs(m, MUL, Applied(m, DIV, x, y), y);
    AppliedIs(m, DIV, x, 0.0);
  }

  /** Powers to 0, 1, 2, 3 and 4 are repeated products; others are the machine's. */
  lemma Powers(m: Machine, x: real, y: real, n: nat)
    ensures Applied(m, POW, x, 0.0) == 1.0
    ensures n < 4 ==> Applied(m, POW, x, (n + 1) as real) == Applied(m, MUL, Applied(m, POW, x, n as real), x)
    ensures y !in {0.0, 1.0, 2.0, 3.0, 4.0} ==> Applied(m, POW, x, y) == m.pow(x, y)
  {
    hide Applied;
    AppliedIs(m, POW, x, 0.0);
    AppliedIs(m, POW, x, y);
    AppliedIs(m, POW, x, n as real);
    AppliedIs(m, POW, x, (n + 1) as real);
    AppliedIs(m, MUL, Applied(m, POW, x, n as real), x);
  }

  /** `&&` and `||` are 1 or 0 by their truth tables, where all numbers but 0 are true. */
  lemma Logic(m: Machine, x: real, y: real)
    ensures Applied(m, LAND, x, 0.0) == Applied(m, LAND, 0.0, y) == 0.0
    ensures x != 0.0 && y != 0.0 ==> Applied(m, LAND, x, y) == 1.0
    ensures Applied(m, LOR, 0.0, 0.0) == 0.0
    ensures x != 0.0 ==> Applied(m, LOR, x, y) == 1.0
    ensures y != 0.0 ==> Applied(m, LOR, x, y) == 1.0
  {
    hide Applied;
    AppliedIs(m, LAND, x, 0.0);
    AppliedIs(m, LAND, 0.0, y);
    AppliedIs(m, LAND, x, y);
    AppliedIs(m, LOR, 0.0, 0.0);
    AppliedIs(m, LOR, x, y);
  }

  /** Folded, they are 1 or 0 by the same tables, but only numbers of magnitude 1 and more are true. */
  lemma FoldedLogic(m: Machine, x: real, y: real, s: Store)
    ensures var both := (x >= 1.0 || x <= -1.0) && (y >= 1.0 || y <= -1.0);
            Result(m, [LNum(x), LOp(LAND), LNum(y)], true, s) == Some((if both then 1.0 else 0.0, s))
    ensures var one := x >= 1.0 || x <= -1.0 || y >= 1.0 || y <= -1.0;
            Result(m, [LNum(x), LOp(LOR), LNum(y)], true, s) == Some((if one then 1.0 else 0.0, s))
  {
    hide Result;
    NumbersGive(m, LAND, x, y, true, s);
    NumbersGive(m, LOR, x, y, true, s);
    TruncateIsZeroIff(x);
    TruncateIsZeroIff(y);
  }

  // ----- signs, conditionals, assignments -----

  /** `-x` and x add up to nothing; `+x` is x. */
  lemma Signs(m: Machine, p: Ptr, opt: bool, s: Store)
    requires p != NULL
    ensures var r := Result(m, [LOp(SUB), LName(p)], opt, s); r.Some? && r.value.0 + s(p) == 0.0 && r.value.1 == s
    ensures Result(m, [LOp(ADD), LName(p)], opt, s) == Some((s(p), s))
  {
    hide Result;
    SignGives(m, true, p, opt, s);
    SignGives(m, false, p, opt, s);
  }

  lemma SignedIsFormula(minus: bool, e: Syn)
    requires InLayer(e, Layer(e)) && Layer(e) >= 9
    ensures IsFormula(Signed(minus, e))
  {
    InLayerIff(e, 9);
    InLayerIff(Signed(minus, e), 1);
  }

  lemma SignGives(m: Machine, minus: bool, p: Ptr, opt: bool, s: Store)
    requires p != NULL
    ensures Result(m, [SignLexeme(minus), LName(p)], opt, s) == Some((if minus then -s(p) else s(p), s))
  {
    hide Result;
    var e := Signed(minus, Name(p));
    assert [SignLexeme(minus)] + [LName(p)] == [SignLexeme(minus), LName(p)];
    PrimaryLayer(Name(p));
    SignedIsFormula(minus, Name(p));
    Evaluates(m, e, opt, s);
    SignedGives(m, minus, Name(p), opt, s);
  }

  /** The condition chooses the branch by being 0 or not. */
  lemma Conditionals(m: Machine, p: Ptr, q: Ptr, r: Ptr, opt: bool, s: Store)
    requires p != NULL && q != NULL && r != NULL
    ensures Result(m, [LName(p), LQuestion, LName(q), LColon, LName(r)], opt, s) ==
            Some((if s(p) == 0.0 then s(r) else s(q), s))
  {
    hide Result;
    var e := Ternary(Name(p), Name(q), Name(r));
    assert Lexemes(e) == [LName(p), LQuestion, LName(q), LColon, LName(r)];
    TernaryLayer(Name(p), Name(q), Name(r));
    InLayerIff(Name(p), 3);
    InLayerIff(Name(q), 1);
    InLayerIff(Name(r), 1);
    InLayerIff(e, 1);
    Evaluates(m, e, opt, s);
  }

  /** An assignment gives its value and sets its variable, and no other. */
  lemma Assignments(m: Machine, p: Ptr, q: Ptr, opt: bool, s: Store)
    requires p != NULL && q != NULL
    ensures var r := Result(m, [LName(p), LAssign, LName(q)], opt, s);
            r.Some? && r.value.0 == s(q) && r.value.1(p) == s(q) && forall o :: o != p ==> r.value.1(o) == s(o)
  {
    hide Result;
    var e := Set(p, Name(q));
    assert Lexemes(e) == [LName(p), LAssign, LName(q)];
    InLayerIff(Name(q), 2);
    Evaluates(m, e, opt, s);
  }

  /** Operands are evaluated from left to right: an assignment is seen by what is to its right. */
  lemma LeftToRight(m: Machine, p: Ptr, q: Ptr, opt: bool, s: Store)
    requires p != NULL && q != NULL
    ensures var r := Result(m, [LOpen, LName(p), LAssign, LName(q), LClose, LOp(ADD), LName(p)], opt, s);
            r.Some? && r.value.0 == s(q) + s(q)
    ensures var r := Result(m, [LName(p), LOp(ADD), LOpen, LName(p), LAssign, LName(q), LClose], opt, s);
            r.Some? && r.value.0 == s(p) + s(q)
  {
    hide Result, IsFormula, IsPrimary, Lexemes, Computes;
    var put := Paren(Set(p, Name(q)));
    PutIsPrimary(p, q);
    OneOperator(ADD, put, Name(p));
    OneOperator(ADD, Name(p), put);
    assert Lexemes(put) + [LOp(ADD)] + [LName(p)] ==
           [LOpen, LName(p), LAssign, LName(q), LClose, LOp(ADD), LName(p)];
    assert [LName(p)] + [LOp(ADD)] + Lexemes(put) ==
           [LName(p), LOp(ADD), LOpen, LName(p), LAssign, LName(q), LClose];
    Evaluates(m, Infix(ADD, put, Name(p)), opt, s);
    Evaluates(m, Infix(ADD, Name(p), put), opt, s);
    PlusGives(m, put, Name(p), opt, s);
    PlusGives(m, Name(p), put, opt, s);
    PutGives(m, p, q, opt, s);
  }

  lemma PutIsPrimary(p: Ptr, q: Ptr)
    requires p != NULL && q != NULL
    ensures IsPrimary(Paren(Set(p, Name(q)))) && IsPrimary(Name(p)) && Lexemes(Name(p)) == [LName(p)]
    ensures Lexemes(Paren(Set(p, Name(q)))) == [LOpen, LName(p), LAssign, LName(q), LClose]
  {
    InLayerIff(Name(q), 2);
    assert Lexemes(Set(p, Name(q))) == [LName(p), LAssign, LName(q)];
  }

  lemma PutGives(m: Machine, p: Ptr, q: Ptr, opt: bool, s: Store)
    ensures Computes(m, Erase(Paren(Set(p, Name(q)))), opt, s) == (s(q), Update(s, p, s(q)))
    ensures forall s1 :: Computes(m, Erase(Name(p)), opt, s1) == (s1(p), s1)
  {
    assert Erase(Set(p, Name(q))) == Let(p, Variable(q));
    assert Computes(m, Variable(q), opt, s) == (s(q), s);
  }

  /** A sum adds what its operands give, the left one first, unless both are single constants. */
  lemma PlusGives(m: Machine, a: Syn, b: Syn, opt: bool, s: Store)
    ensures var (x, s1) := Computes(m, Erase(a), opt, s); var (y, s2) := Computes(m, Erase(b), opt, s1);
            Computes(m, Erase(Infix(ADD, a, b)), opt, s) == (x + y, s2)
  {
    hide Code, FoldsPair;
  }

  lemma SignedGives(m: Machine, minus: bool, e: Syn, opt: bool, s: Store)
    ensures var (x, s1) := Computes(m, Erase(e), opt, s);
            Computes(m, Erase(Signed(minus, e)), opt, s) == (if minus then -x else x, s1)
  {
    OneValue(m, [Erase(e)], opt, s);
  }

  /** Of an operator that folds nothing. */
  lemma OperatorGives(m: Machine, op: Op, a: Expr, b: Expr, opt: bool, s: Store)
    requires (exists p :: a == Variable(p)) || (exists p :: b == Variable(p))
    ensures var (x, s1) := Computes(m, a, opt, s); var (y, s2) := Computes(m, b, opt, s1);
            Computes(m, Binary(op, a, b), opt, s) == (BinaryValue(m, op, x, y), s2)
  {
    hide BinaryValue, FoldedValue;
  }

  /** A callback gets the values of its arguments in their order. */
  lemma CallsGetArguments(m: Machine, id: nat, p: Ptr, q: Ptr, opt: bool, s: Store)
    requires p != NULL && q != NULL
    ensures var program := Program(m, Call(User(id), false, true, [Variable(p), Variable(q)]), opt);
            Run(m, program.code, program.max + 1, 0, [], s) == Halted([m.call(id, [s(p), s(q)])], s)
  {
    hide Run, Program, Code;
    var args := [Variable(p), Variable(q)];
    var e := Call(User(id), false, true, args);
    assert args[..1] == [Variable(p)] && args[..1][..0] == [];
    assert ComputesAll(m, args[..1], opt, s) == ([s(p)], s) by { OneValue(m, args[..1], opt, s); }
    assert ComputesAll(m, args, opt, s) == ([s(p)] + [s(q)], s);
    assert [s(p)] + [s(q)] == [s(p), s(q)];
    assert SizeAll(args[..1]) == SizeAll(args[..1][..0]) + Size(args[0]) == 1;
    assert SizeAll(args) == SizeAll(args[..1]) + Size(args[1]) == 2;
    ProgramComputes(m, e, opt, s);
  }

  // ----- two operators -----

  /** Products come before sums, sums before comparisons, these before `&&` and that before `||`; powers
      come first of all. */
  predicate Before(op1: Op, op2: Op) {
    (op1 == POW && op2 != POW) ||
    (IsTimes(op1) && !IsTimes(op2) && op2 != POW) ||
    (IsPlus(op1) && (Compares(op2) || op2 == LAND || op2 == LOR)) ||
    (Compares(op1) && (op2 == LAND || op2 == LOR)) ||
    (op1 == LAND && op2 == LOR)
  }

  predicate IsTimes(op: Op) { op == MUL || op == DIV }

  predicate IsPlus(op: Op) { op == ADD || op == SUB }

  /** Of two operators without brackets the second is applied first exactly if it comes before the
      first one, or if both are powers. */
  lemma TwoOperatorsGive(m: Machine, op1: Op, op2: Op, p: Ptr, q: Ptr, r: Ptr, opt: bool, s: Store)
    requires p != NULL && q != NULL && r != NULL
    ensures Result(m, [LName(p), LOp(op1), LName(q), LOp(op2), LName(r)], opt, s) ==
            Some((if Before(op2, op1) || (op1 == POW && op2 == POW)
                  then Applied(m, op1, s(p), Applied(m, op2, s(q), s(r)))
                  else Applied(m, op2, Applied(m, op1, s(p), s(q)), s(r)), s))
  {
    hide Result, Applied, BinaryValue, IsFormula, Before, OpLayer;
    BeforeIsLayer(op1, op2);
    TwoOperators(op1, op2, Name(p), Name(q), Name(r));
    AppliedIs(m, op2, s(q), s(r));
    AppliedIs(m, op1, s(p), Applied(m, op2, s(q), s(r)));
    AppliedIs(m, op1, s(p), s(q));
    AppliedIs(m, op2, Applied(m, op1, s(p), s(q)), s(r));
    if Before(op2, op1) || (op1 == POW && op2 == POW) {
      RightGives(m, op1, op2, p, q, r, opt, s);
    } else {
      LeftGives(m, op1, op2, p, q, r, opt, s);
    }
  }

  lemma BeforeIsLayer(op1: Op, op2: Op)
    ensures Before(op2, op1) <==> OpLayer(op2) > OpLayer(op1)
  {
  }

  lemma ThreeNames(op1: Op, op2: Op, p: Ptr, q: Ptr, r: Ptr)
    ensures var input := [LName(p), LOp(op1), LName(q), LOp(op2), LName(r)];
            Lexemes(Infix(op1, Name(p), Infix(op2, Name(q), Name(r)))) == input &&
            Lexemes(Infix(op2, Infix(op1, Name(p), Name(q)), Name(r))) == input
  {
    assert Lexemes(Infix(op2, Name(q), Name(r))) == [LName(q), LOp(op2), LName(r)];
    assert Lexemes(Infix(op1, Name(p), Name(q))) == [LName(p), LOp(op1), LName(q)];
  }

  lemma RightGives(m: Machine, op1: Op, op2: Op, p: Ptr, q: Ptr, r: Ptr, opt: bool, s: Store)
    requires IsFormula(Infix(op1, Name(p), Infix(op2, Name(q), Name(r))))
    ensures Result(m, [LName(p), LOp(op1), LName(q), LOp(op2), LName(r)], opt, s) ==
            Some((BinaryValue(m, op1, s(p), BinaryValue(m, op2, s(q), s(r))), s))
  {
    hide Result, BinaryValue, IsFormula, OpValue, FoldsPair, Lexemes;
    var y := Infix(op2, Name(q), Name(r));
    ThreeNames(op1, op2, p, q, r);
    Evaluates(m, Infix(op1, Name(p), y), opt, s);
    OperatorGives(m, op2, Variable(q), Variable(r), opt, s);
    OperatorGives(m, op1, Variable(p), Erase(y), opt, s);
    assert Erase(y) == Binary(op2, Variable(q), Variable(r));
    assert Erase(Infix(op1, Name(p), y)) == Binary(op1, Variable(p), Erase(y));
  }

  lemma LeftGives(m: Machine, op1: Op, op2: Op, p: Ptr, q: Ptr, r: Ptr, opt: bool, s: Store)
    requires IsFormula(Infix(op2, Infix(op1, Name(p), Name(q)), Name(r)))
    ensures Result(m, [LName(p), LOp(op1), LName(q), LOp(op2), LName(r)], opt, s) ==
            Some((BinaryValue(m, op2, BinaryValue(m, op1, s(p), s(q)), s(r)), s))
  {
    hide Result, BinaryValue, IsFormula, OpValue, FoldsPair, Lexemes;
    var x := Infix(op1, Name(p), Name(q));
    ThreeNames(op1, op2, p, q, r);
    Evaluates(m, Infix(op2, x, Name(r)), opt, s);
    OperatorGives(m, op1, Variable(p), Variable(q), opt, s);
    OperatorGives(m, op2, Erase(x), Variable(r), opt, s);
    assert Erase(x) == Binary(op1, Variable(p), Variable(q));
    assert Erase(Infix(op2, x, Name(r))) == Binary(op2, Erase(x), Variable(r));
  }

  /** A sign takes powers with it and nothing else: `-x ^ y` is `-(x ^ y)`. */
  lemma SignedPower(m: Machine, p: Ptr, q: Ptr, opt: bool, s: Store)
    requires p != NULL && q != NULL
    ensures var r := Result(m, [LOp(SUB), LName(p), LOp(POW), LName(q)], opt, s);
            r.Some? && r.value.0 + Applied(m, POW, s(p), s(q)) == 0.0 && r.value.1 == s
  {
    hide Result, BinaryValue, Applied, Computes, IsFormula;
    var x := Infix(POW, Name(p), Name(q));
    var e := Signed(true, x);
    assert Lexemes(x) == [LName(p), LOp(POW), LName(q)];
    assert Lexemes(e) == [LOp(SUB), LName(p), LOp(POW), LName(q)];
    PrimaryLayer(Name(p));
    PrimaryLayer(Name(q));
    JoinsLayers(POW, Name(p), Name(q));
    SignedIsFormula(true, x);
    Evaluates(m, e, opt, s);
    SignedGives(m, true, x, opt, s);
    OneOperator(POW, Name(p), Name(q));
    Evaluates(m, x, opt, s);
    NamesGive(m, POW, p, q, opt, s);
    AppliedIs(m, POW, s(p), s(q));
  }
}
