/** The grammar of formulas, layer by layer, without precedences or associativities: the trees of the
    layers are exactly those that the parser's tables allow. */
module MuGrammar {
  import opened MuCode
  import opened MuParser
  import opened MuReader
  import opened MuSyntax

  // ----- the layers -----

  /** A number, a variable or a formula in brackets. */
  predicate IsPrimary(e: Syn)
    decreases e, 0
  {
    match e
    case Num(_) => true
    case Name(p) => p != NULL
    case Paren(e1) => IsFormula(e1)
    case _ => false
  }

  /** `primary ^ unary`, so a power groups to the right, and its exponent may have a sign. */
  predicate IsPower(e: Syn)
    decreases e, 1
  {
    if e.Infix? && e.op == POW then IsPrimary(e.l) && IsUnary(e.r) else IsPrimary(e)
  }

  /** At most one sign, before a power. */
  predicate IsUnary(e: Syn)
    decreases e, 2
  {
    if e.Signed? then IsPower(e.e) else IsPower(e)
  }

  predicate IsProduct(e: Syn)
    decreases e, 3
  {
    if e.Infix? && (e.op == MUL || e.op == DIV) then IsProduct(e.l) && IsUnary(e.r) else IsUnary(e)
  }

  predicate IsSum(e: Syn)
    decreases e, 4
  {
    if e.Infix? && (e.op == ADD || e.op == SUB) then IsSum(e.l) && IsProduct(e.r) else IsProduct(e)
  }

  predicate Compares(op: Op) { op == LT || op == GT || op == LE || op == GE || op == EQ || op == NEQ }

  predicate IsComparison(e: Syn)
    decreases e, 5
  {
    if e.Infix? && Compares(e.op) then IsComparison(e.l) && IsSum(e.r) else IsSum(e)
  }

  predicate IsConjunction(e: Syn)
    decreases e, 6
  {
    if e.Infix? && e.op == LAND then IsConjunction(e.l) && IsComparison(e.r) else IsComparison(e)
  }

  predicate IsDisjunction(e: Syn)
    decreases e, 7
  {
    if e.Infix? && e.op == LOR then IsDisjunction(e.l) && IsConjunction(e.r) else IsConjunction(e)
  }

  /** The branches of a `?:` reach as far as they can. */
  predicate IsConditional(e: Syn)
    decreases e, 8
  {
    if e.Ternary? then IsDisjunction(e.c) && IsFormula(e.a) && IsFormula(e.b) else IsDisjunction(e)
  }

  /** At most one assignment, to a variable, before a conditional. */
  predicate IsFormula(e: Syn)
    decreases e, 9
  {
    if e.Set? then e.p != NULL && IsConditional(e.e) else IsConditional(e)
  }

  // ----- the layer of a tree, by its outermost part -----

  function OpLayer(op: Op): nat {
    match op
    case POW => 9
    case MUL => 7
    case DIV => 7
    case ADD => 6
    case SUB => 6
    case LAND => 4
    case LOR => 3
    case _ => 5
  }

  function Layer(e: Syn): nat {
    match e
    case Num(_) => 10
    case Name(_) => 10
    case Paren(_) => 10
    case Signed(_, _) => 8
    case Infix(op, _, _) => OpLayer(op)
    case Ternary(_, _, _) => 2
    case Set(_, _) => 1
  }

  predicate InLayer(e: Syn, n: nat)
    requires 1 <= n <= 10
  {
    match n
    case 10 => IsPrimary(e)
    case 9 => IsPower(e)
    case 8 => IsUnary(e)
    case 7 => IsProduct(e)
    case 6 => IsSum(e)
    case 5 => IsComparison(e)
    case 4 => IsConjunction(e)
    case 3 => IsDisjunction(e)
    case 2 => IsConditional(e)
    case 1 => IsFormula(e)
  }

  /** Each layer has the trees of the layers above it. */
  lemma {:induction false} InLayerIff(e: Syn, n: nat)
    requires 1 <= n <= 10
    ensures InLayer(e, n) <==> Layer(e) >= n && InLayer(e, Layer(e))
    decreases 10 - n
  {
    hide InLayer;
    if n == 10 {
      OnlyPrimaries(e);
    } else if Layer(e) != n {
      NextLayer(e, n);
      InLayerIff(e, n + 1);
    }
  }

  lemma OnlyPrimaries(e: Syn)
    ensures InLayer(e, 10) ==> Layer(e) == 10
  {
  }

  lemma NextLayer(e: Syn, n: nat)
    requires 1 <= n < 10 && Layer(e) != n
    ensures InLayer(e, n) <==> InLayer(e, n + 1)
  {
  }

  // ----- what the tables say of the layers -----

  /** The least layer of a tree that is complete when a token of this kind is read. */
  function ClosedFrom(t: Tok): nat
    requires t.TBin? || t == TIf
  {
    if t == TIf then 3 else if t.op == POW then 10 else OpLayer(t.op)
  }

  lemma {:induction false} ClosedByLayer(e: Syn, t: Tok)
    requires Grammatical(e) && (t.TBin? || t == TIf)
    ensures ClosedBy(e, t) <==> Layer(e) >= ClosedFrom(t)
    decreases e
  {
    match e
    case Num(_) =>
    case Name(_) =>
    case Paren(_) =>
    case Signed(minus, e1) =>
      ClosedByLayer(e1, t);
      UnderLayer(e1, SignTok(minus));
    case Infix(op, _, r) =>
      ClosedByLayer(r, t);
      UnderLayer(r, TBin(op));
    case Set(_, _) =>
    case Ternary(_, _, _) =>
  }

  /** The least layer of a tree that stands right of such an operator. */
  function RightFrom(t: Tok): nat
    requires t.TBin? || t.TSign? || t == TAssign
  {
    match t
    case TAssign => 2
    case TSign(_) => 8
    case TBin(op) => if op == POW || op == MUL || op == DIV then 8 else OpLayer(op) + 1
  }

  lemma {:induction false} UnderLayer(e: Syn, top: Tok)
    requires Grammatical(e) && (top.TBin? || top.TSign? || top == TAssign)
    ensures Under(e, top) <==> Layer(e) >= RightFrom(top)
    decreases e
  {
    match e
    case Num(_) =>
    case Name(_) =>
    case Paren(_) =>
    case Signed(_, _) =>
    case Infix(op, l, _) =>
      UnderLayer(l, top);
      ClosedByLayer(l, TBin(op));
    case Set(_, _) =>
    case Ternary(c, _, _) =>
      UnderLayer(c, top);
      ClosedByLayer(c, TIf);
  }

  lemma {:induction false} SignsStart(e: Syn)
    requires Grammatical(e) && Layer(e) >= 8
    ensures StartsWithSign(e) <==> Layer(e) == 8
  {
    if e.Infix? { ClosedByLayer(e.l, TBin(e.op)); }
  }

  // ----- the grammar -----

  lemma {:induction false} SignedIff(minus: bool, e: Syn)
    ensures Grammatical(Signed(minus, e)) <==> IsUnary(Signed(minus, e))
    decreases Signed(minus, e), 0
  {
    hide Yields, ClosedBy, Under, InLayer;
    LayerIff(e);
    InLayerIff(e, 9);
    PowersAreLayer(e);
    if Grammatical(e) {
      UnderLayer(e, SignTok(minus));
      if Layer(e) >= 8 { SignsStart(e); }
    }
  }

  lemma PowersAreLayer(e: Syn)
    ensures InLayer(e, 9) <==> IsPower(e)
  {
  }

  /** The layer of an operator asks for layers of its operands. */
  lemma InfixLayer(op: Op, l: Syn, r: Syn)
    ensures InLayer(Infix(op, l, r), OpLayer(op)) <==>
            InLayer(l, ClosedFrom(TBin(op))) && InLayer(r, RightFrom(TBin(op)))
  {
  }

  lemma InfixAllowed(op: Op, l: Syn, r: Syn)
    ensures Grammatical(Infix(op, l, r)) <==>
            Grammatical(l) && Grammatical(r) && ClosedBy(l, TBin(op)) && Under(r, TBin(op))
  {
  }

  lemma {:induction false} InfixIff(op: Op, l: Syn, r: Syn)
    ensures Grammatical(Infix(op, l, r)) <==> InLayer(Infix(op, l, r), OpLayer(op))
    decreases Infix(op, l, r), 0
  {
    hide Yields, ClosedBy, Under, InLayer, Grammatical;
    InfixLayer(op, l, r);
    InfixAllowed(op, l, r);
    LayerIff(l);
    LayerIff(r);
    InLayerIff(l, ClosedFrom(TBin(op)));
    InLayerIff(r, RightFrom(TBin(op)));
    if Grammatical(l) { ClosedByLayer(l, TBin(op)); }
    if Grammatical(r) { UnderLayer(r, TBin(op)); }
  }

  lemma TernaryLayer(c: Syn, a: Syn, b: Syn)
    ensures InLayer(Ternary(c, a, b), 2) <==> InLayer(c, 3) && InLayer(a, 1) && InLayer(b, 1)
    ensures Grammatical(Ternary(c, a, b)) <==>
            Grammatical(c) && Grammatical(a) && Grammatical(b) && ClosedBy(c, TIf)
  {
    hide ClosedBy;
  }

  lemma {:induction false} TernaryIff(c: Syn, a: Syn, b: Syn)
    ensures Grammatical(Ternary(c, a, b)) <==> InLayer(Ternary(c, a, b), 2)
    decreases Ternary(c, a, b), 0
  {
    hide Yields, ClosedBy, Under, InLayer, Grammatical;
    TernaryLayer(c, a, b);
    LayerIff(c);
    LayerIff(a);
    LayerIff(b);
    InLayerIff(c, 3);
    InLayerIff(a, 1);
    InLayerIff(b, 1);
    if Grammatical(c) { ClosedByLayer(c, TIf); }
  }

  lemma {:induction false} LayerIff(e: Syn)
    ensures Grammatical(e) <==> InLayer(e, Layer(e))
    decreases e, 2
  {
    hide Yields, ClosedBy, Under;
    match e
    case Num(_) =>
    case Name(_) =>
    case Paren(e1) =>
      LayerIff(e1);
      InLayerIff(e1, 1);
    case Signed(minus, e1) => SignedIff(minus, e1);
    case Infix(op, l, r) => InfixIff(op, l, r);
    case Set(p, e1) =>
      LayerIff(e1);
      InLayerIff(e1, 2);
      if Grammatical(e1) { UnderLayer(e1, TAssign); }
    case Ternary(c, a, b) => TernaryIff(c, a, b);
  }

  /** The trees of the grammar are those that the parser's tables allow. */
  lemma GrammaticalIff(e: Syn)
    ensures Grammatical(e) <==> IsFormula(e)
  {
    hide Grammatical;
    LayerIff(e);
    InLayerIff(e, 1);
  }

  // ----- two operators without brackets -----

  /** `a op1 b op2 c` is read with the second operator first if it binds tighter, or if both are
      powers, and with the first one first otherwise. */
  lemma TwoOperators(op1: Op, op2: Op, a: Syn, b: Syn, c: Syn)
    requires IsPrimary(a) && IsPrimary(b) && IsPrimary(c)
    ensures var second := OpLayer(op2) > OpLayer(op1) || (op1 == POW && op2 == POW);
            IsFormula(if second then Infix(op1, a, Infix(op2, b, c)) else Infix(op2, Infix(op1, a, b), c)) &&
            !IsFormula(if second then Infix(op2, Infix(op1, a, b), c) else Infix(op1, a, Infix(op2, b, c)))
  {
    hide InLayer, IsPrimary, IsFormula;
    TwoLayers(op1, op2, a, b, c);
    assert Layer(a) == Layer(b) == Layer(c) == 10 by { PrimaryLayer(a); PrimaryLayer(b); PrimaryLayer(c); }
  }

  lemma PrimaryLayer(e: Syn)
    requires IsPrimary(e)
    ensures Layer(e) == 10 && InLayer(e, 10)
  {
  }

  /** Either reading, by the layers of what it joins. */
  lemma TwoLayers(op1: Op, op2: Op, a: Syn, b: Syn, c: Syn)
    requires IsPrimary(a) && IsPrimary(b) && IsPrimary(c)
    ensures IsFormula(Infix(op1, a, Infix(op2, b, c))) <==> OpLayer(op2) >= RightFrom(TBin(op1))
    ensures IsFormula(Infix(op2, Infix(op1, a, b), c)) <==> OpLayer(op1) >= ClosedFrom(TBin(op2))
  {
    hide InLayer;
    var ab, bc := Infix(op1, a, b), Infix(op2, b, c);
    PrimaryLayer(a);
    PrimaryLayer(b);
    PrimaryLayer(c);
    JoinsLayers(op1, a, b);
    JoinsLayers(op2, b, c);
    JoinsLayers(op1, a, bc);
    JoinsLayers(op2, ab, c);
    FormulaLayer(Infix(op1, a, bc));
    FormulaLayer(Infix(op2, ab, c));
  }

  lemma FormulaLayer(e: Syn)
    ensures IsFormula(e) <==> InLayer(e, Layer(e))
  {
    InLayerIff(e, 1);
  }

  lemma JoinsLayers(op: Op, l: Syn, r: Syn)
    requires InLayer(l, Layer(l)) && InLayer(r, Layer(r))
    ensures InLayer(Infix(op, l, r), OpLayer(op)) <==>
            Layer(l) >= ClosedFrom(TBin(op)) && Layer(r) >= RightFrom(TBin(op))
  {
    hide InLayer;
    InfixLayer(op, l, r);
    InLayerIff(l, ClosedFrom(TBin(op)));
    InLayerIff(r, RightFrom(TBin(op)));
  }
}
