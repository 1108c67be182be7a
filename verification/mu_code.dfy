/** The byte code of the expression parser: its tokens, the arithmetic they denote and the
    algebra behind the peephole optimiser of `ParserByteCode`. */
module MuCode {

  /** The address of a variable.  The null pointer is 0; addresses are combined with a bitwise
      "or" by the optimiser, so they are words rather than abstract names. */
  type Ptr = bv64

  const NULL: Ptr := 0

  /** Values are exact: IEEE rounding is outside the model. */
  type Store = Ptr -> real

  function Update(s: Store, p: Ptr, v: real): Store {
    q => if q == p then v else s(q)
  }

  /** The built-in binary operators that compute a value. */
  datatype Op = LE | GE | NEQ | EQ | LT | GT | ADD | SUB | MUL | DIV | POW | LAND | LOR

  /** A callback: the two predefined signs, or any other pure function. */
  datatype Callable = UnaryMinus | UnaryPlus | User(id: nat)

  /** What the model does not fix: a quotient by zero, powers whose exponent is not one of
      0, 1, 2, 3, 4, and the user's callbacks. */
  datatype Machine = Machine(
    divZero: real -> real,
    pow: (real, real) -> real,
    call: (nat, seq<real>) -> real)

  datatype OperandCmd = VAL | VAR | VARPOW2 | VARPOW3 | VARPOW4 | VARMUL

  /** `SToken`: the union of value data, function data and jump data. */
  datatype Token =
    | Operand(cmd: OperandCmd, ptr: Ptr, data: real, data2: real)
    | Bin(op: Op)
    | Fun(cb: Callable, argc: int)
    | Assign(dst: Ptr)
    | If(offset: nat)
    | Else(offset: nat)
    | EndIf
    | End
  {
    predicate IsVal() { Operand? && cmd == VAL }
    predicate IsVar() { Operand? && cmd == VAR }
    predicate IsVarMul() { Operand? && cmd == VARMUL }
  }

  function ValToken(v: real): Token { Operand(VAL, NULL, 0.0, v) }

  function VarToken(p: Ptr): Token { Operand(VAR, p, 1.0, 0.0) }

  function FromBool(b: bool): real { if b then 1.0 else 0.0 }

  function Pow(m: Machine, x: real, y: real): real {
    if y == 0.0 then 1.0
    else if y == 1.0 then x
    else if y == 2.0 then x * x
    else if y == 3.0 then x * x * x
    else if y == 4.0 then x * x * x * x
    else m.pow(x, y)
  }

  function Div(m: Machine, x: real, y: real): real {
    if y == 0.0 then m.divZero(x) else x / y
  }

  /** What the virtual machine computes for a binary operator. */
  function BinaryValue(m: Machine, op: Op, x: real, y: real): real {
    match op
    case LE => FromBool(x <= y)
    case GE => FromBool(x >= y)
    case NEQ => FromBool(x != y)
    case EQ => FromBool(x == y)
    case LT => FromBool(x < y)
    case GT => FromBool(x > y)
    case ADD => x + y
    case SUB => x - y
    case MUL => x * y
    case DIV => Div(m, x, y)
    case POW => Pow(m, x, y)
    case LAND => FromBool(x != 0.0 && y != 0.0)
    case LOR => FromBool(x != 0.0 || y != 0.0)
  }

  /** The C cast to int: truncation toward zero. */
  function Truncate(x: real): int {
    if x >= 0.0 then x.Floor else -(-x).Floor
  }

  /** What constant folding computes for a binary operator: the same, except that the logical
      operators truncate their operands first. */
  function FoldedValue(m: Machine, op: Op, x: real, y: real): real {
    match op
    case LAND => FromBool(Truncate(x) != 0 && Truncate(y) != 0)
    case LOR => FromBool(Truncate(x) != 0 || Truncate(y) != 0)
    case _ => BinaryValue(m, op, x, y)
  }

  function CallValue(m: Machine, cb: Callable, args: seq<real>): real {
    match cb
    case UnaryMinus => if |args| == 1 then -args[0] else 0.0
    case UnaryPlus => if |args| == 1 then args[0] else 0.0
    case User(id) => m.call(id, args)
  }

  /** What a value or variable token pushes. */
  function OperandValue(t: Token, s: Store): real
    requires t.Operand?
  {
    match t.cmd
    case VAL => t.data2
    case VAR => s(t.ptr)
    case VARPOW2 => s(t.ptr) * s(t.ptr)
    case VARPOW3 => s(t.ptr) * s(t.ptr) * s(t.ptr)
    case VARPOW4 => s(t.ptr) * s(t.ptr) * s(t.ptr) * s(t.ptr)
    case VARMUL => s(t.ptr) * t.data + t.data2
  }

  /** The token invariant the optimiser relies on. */
  predicate TokenOK(t: Token) {
    t.Operand? ==>
      match t.cmd
      case VAL => t.ptr == NULL && t.data == 0.0
      case VAR => t.ptr != NULL && t.data == 1.0 && t.data2 == 0.0
      case _ => t.ptr != NULL
  }

  // ----- the peephole optimiser -----

  function Sign(op: Op): real { if op == SUB then -1.0 else 1.0 }

  /** `ptr | ptr` of the fused tokens. */
  function JoinPtr(p: Ptr, q: Ptr): Ptr { p | q }

  /** The additive patterns: a linear form in one variable, or a constant. */
  predicate FusesAdditively(x: Token, y: Token) {
    || (y.IsVar() && x.IsVal())
    || (y.IsVal() && x.IsVar())
    || (y.IsVal() && x.IsVarMul())
    || (y.IsVarMul() && x.IsVal())
    || (y.IsVar() && x.IsVar() && x.ptr == y.ptr)
    || (y.IsVar() && x.IsVarMul() && x.ptr == y.ptr)
    || (y.IsVarMul() && x.IsVar() && x.ptr == y.ptr)
    || (y.IsVarMul() && x.IsVarMul() && x.ptr == y.ptr)
  }

  datatype Fused = NoFusion | To(token: Token)

  function FusePow(x: Token, y: Token): Fused {
    if x.IsVar() && y.IsVal() then
      if y.data2 == 0.0 then To(ValToken(1.0))
      else if y.data2 == 1.0 then To(x.(cmd := VAR))
      else if y.data2 == 2.0 then To(x.(cmd := VARPOW2))
      else if y.data2 == 3.0 then To(x.(cmd := VARPOW3))
      else if y.data2 == 4.0 then To(x.(cmd := VARPOW4))
      else NoFusion
    else NoFusion
  }

  function FuseAdd(op: Op, x: Token, y: Token): Fused {
    if FusesAdditively(x, y) then
      To(Operand(VARMUL, JoinPtr(x.ptr, y.ptr), x.data + Sign(op) * y.data, x.data2 + Sign(op) * y.data2))
    else NoFusion
  }

  function FuseMul(x: Token, y: Token): Fused {
    if (y.IsVar() && x.IsVal()) || (y.IsVal() && x.IsVar()) then
      To(Operand(VARMUL, JoinPtr(x.ptr, y.ptr), x.data2 + y.data2, 0.0))
    else if y.IsVal() && x.IsVarMul() then
      To(Operand(VARMUL, JoinPtr(x.ptr, y.ptr), x.data * y.data2, x.data2 * y.data2))
    else if y.IsVarMul() && x.IsVal() then
      To(Operand(VARMUL, JoinPtr(x.ptr, y.ptr), y.data * x.data2, y.data2 * x.data2))
    else if y.IsVar() && x.IsVar() && x.ptr == y.ptr then
      To(x.(cmd := VARPOW2))
    else NoFusion
  }

  function FuseDiv(x: Token, y: Token): Fused {
    if y.IsVal() && x.IsVarMul() && y.data2 != 0.0 then
      To(x.(data := x.data / y.data2, data2 := x.data2 / y.data2))
    else NoFusion
  }

  /** The last two tokens x, y followed by operator `op`, as one token if a pattern applies. */
  function Fuse(m: Machine, op: Op, x: Token, y: Token): Fused {
    if x.IsVal() && y.IsVal() then To(x.(data2 := FoldedValue(m, op, x.data2, y.data2)))
    else match op
      case POW => FusePow(x, y)
      case ADD => FuseAdd(op, x, y)
      case SUB => FuseAdd(op, x, y)
      case MUL => FuseMul(x, y)
      case DIV => FuseDiv(x, y)
      case _ => NoFusion
  }

  /** Exactly when a folded operator agrees with the machine (see `FoldingIsExactIff`). */
  predicate FoldExact(op: Op, x: real, y: real) {
    match op
    case LAND => x == 0.0 || y == 0.0 || (Big(x) && Big(y))
    case LOR => (x == 0.0 && y == 0.0) || Big(x) || Big(y)
    case _ => true
  }

  predicate Big(x: real) { x >= 1.0 || x <= -1.0 }

  lemma TruncateIsZeroIff(x: real)
    ensures Truncate(x) == 0 <==> !Big(x)
  {
  }

  /** Folding two constants gives what the machine would compute if and only if `FoldExact`. */
  lemma FoldingIsExactIff(m: Machine, op: Op, x: real, y: real)
    ensures FoldedValue(m, op, x, y) == BinaryValue(m, op, x, y) <==> FoldExact(op, x, y)
  {
    TruncateIsZeroIff(x);
    TruncateIsZeroIff(y);
  }

  lemma JoinPtrFacts(p: Ptr)
    ensures JoinPtr(p, NULL) == p && JoinPtr(NULL, p) == p && JoinPtr(p, p) == p
  {
  }

  lemma AddLinear(v: real, a: real, b: real, c: real, d: real, sign: real, e: real, f: real)
    requires (sign == 1.0 || sign == -1.0) && e == a + sign * c && f == b + sign * d
    ensures v * e + f == (v * a + b) + sign * (v * c + d)
  {
    if sign == 1.0 {
      assert v * (a + c) == v * a + v * c;
    } else {
      assert v * (a - c) == v * a - v * c;
    }
  }

  lemma ScaleLinear(v: real, a: real, b: real, k: real)
    ensures (v * a + b) * k == v * (a * k) + b * k
    ensures k * (v * a + b) == v * (a * k) + b * k
    ensures k != 0.0 ==> (v * a + b) / k == v * (a / k) + b / k
  {
    assert (v * a + b) * k == (v * a) * k + b * k;
    assert (v * a) * k == v * (a * k);
    if k != 0.0 {
      var r := 1.0 / k;
      assert (v * a + b) / k == (v * a + b) * r;
      assert a / k == a * r && b / k == b * r;
      assert (v * a + b) * r == (v * a) * r + b * r;
      assert (v * a) * r == v * (a * r);
    }
  }

  /** A linear operand (a constant, a variable or a fused product) as factor and offset. */
  lemma LinearValue(t: Token, s: Store, v: real)
    requires t.Operand? && TokenOK(t)
    requires t.IsVal() || ((t.IsVar() || t.IsVarMul()) && s(t.ptr) == v)
    ensures OperandValue(t, s) == v * t.data + t.data2
  {
  }

  /** The variable behind an additive fusion, and that the rewrite's own assertion never fires. */
  lemma FuseAddPointer(x: Token, y: Token)
    requires TokenOK(x) && TokenOK(y)
    requires FusesAdditively(x, y)
    ensures (x.ptr == NULL && y.ptr != NULL) || (x.ptr != NULL && y.ptr == NULL) || x.ptr == y.ptr
    ensures JoinPtr(x.ptr, y.ptr) != NULL
    ensures !x.IsVal() ==> JoinPtr(x.ptr, y.ptr) == x.ptr
    ensures !y.IsVal() ==> JoinPtr(x.ptr, y.ptr) == y.ptr
  {
    JoinPtrFacts(x.ptr);
    JoinPtrFacts(y.ptr);
  }

  lemma FuseAddIsSound(m: Machine, op: Op, x: Token, y: Token, s: Store)
    requires op == ADD || op == SUB
    requires TokenOK(x) && TokenOK(y)
    requires FusesAdditively(x, y)
    ensures TokenOK(FuseAdd(op, x, y).token) && FuseAdd(op, x, y).token.Operand?
    ensures OperandValue(FuseAdd(op, x, y).token, s)
         == BinaryValue(m, op, OperandValue(x, s), OperandValue(y, s))
  {
    hide JoinPtr, OperandValue, FuseAdd, TokenOK, FusesAdditively;
    FusedParts(op, x, y);
    FuseAddPointer(x, y);
    var v, r := s(JoinPtr(x.ptr, y.ptr)), FuseAdd(op, x, y).token;
    LinearValue(x, s, v);
    LinearValue(y, s, v);
    LinearValue(r, s, v);
    AddLinear(v, x.data, x.data2, y.data, y.data2, Sign(op), r.data, r.data2);
  }

  predicate IsLinear(t: Token) { t.IsVal() || t.IsVar() || t.IsVarMul() }

  lemma FusedParts(op: Op, x: Token, y: Token)
    requires op == ADD || op == SUB
    requires TokenOK(x) && TokenOK(y) && FusesAdditively(x, y)
    ensures x.Operand? && y.Operand? && FuseAdd(op, x, y).To? && FuseAdd(op, x, y).token.Operand?
    ensures var r := FuseAdd(op, x, y).token;
      && TokenOK(r) && r.IsVarMul() && IsLinear(x) && IsLinear(y)
      && r.ptr == JoinPtr(x.ptr, y.ptr)
      && r.data == x.data + Sign(op) * y.data && r.data2 == x.data2 + Sign(op) * y.data2
  {
    FuseAddPointer(x, y);
    hide JoinPtr;
  }

  lemma FuseMulIsSound(m: Machine, x: Token, y: Token, s: Store)
    requires TokenOK(x) && TokenOK(y)
    requires FuseMul(x, y).To?
    ensures TokenOK(FuseMul(x, y).token) && FuseMul(x, y).token.Operand?
    ensures OperandValue(FuseMul(x, y).token, s) == OperandValue(x, s) * OperandValue(y, s)
  {
    JoinPtrFacts(x.ptr);
    JoinPtrFacts(y.ptr);
    hide JoinPtr;
    if y.IsVal() && x.IsVarMul() {
      ScaleLinear(s(x.ptr), x.data, x.data2, y.data2);
    } else if y.IsVarMul() && x.IsVal() {
      ScaleLinear(s(y.ptr), y.data, y.data2, x.data2);
    }
  }

  lemma FusePowIsSound(m: Machine, x: Token, y: Token, s: Store)
    requires TokenOK(x) && TokenOK(y)
    requires FusePow(x, y).To?
    ensures FusePow(x, y).token.Operand? && TokenOK(FusePow(x, y).token)
    ensures OperandValue(FusePow(x, y).token, s) == Pow(m, OperandValue(x, s), OperandValue(y, s))
  {
  }

  lemma FuseDivIsSound(m: Machine, x: Token, y: Token, s: Store)
    requires TokenOK(x) && TokenOK(y)
    requires FuseDiv(x, y).To?
    ensures FuseDiv(x, y).token.Operand? && TokenOK(FuseDiv(x, y).token)
    ensures OperandValue(FuseDiv(x, y).token, s) == Div(m, OperandValue(x, s), OperandValue(y, s))
  {
    ScaleLinear(s(x.ptr), x.data, x.data2, y.data2);
  }

  lemma FusePatternIsSound(m: Machine, op: Op, x: Token, y: Token, s: Store)
    requires x.Operand? && y.Operand? && TokenOK(x) && TokenOK(y)
    requires !(x.IsVal() && y.IsVal())
    requires Fuse(m, op, x, y).To?
    ensures Fuse(m, op, x, y).token.Operand? && TokenOK(Fuse(m, op, x, y).token)
    ensures OperandValue(Fuse(m, op, x, y).token, s) == BinaryValue(m, op, OperandValue(x, s), OperandValue(y, s))
  {
    match op
    case POW => FusePowIsSound(m, x, y, s);
    case ADD => FuseAddIsSound(m, op, x, y, s);
    case SUB => FuseAddIsSound(m, op, x, y, s);
    case MUL => FuseMulIsSound(m, x, y, s);
    case DIV => FuseDivIsSound(m, x, y, s);
    case _ =>
  }

  /** Peephole refinement on two operands: a fused token keeps the token invariant and denotes
      the operator's value, except exactly for a logical fold that is not `FoldExact`. */
  lemma FuseIsSoundIff(m: Machine, op: Op, x: Token, y: Token, s: Store)
    requires x.Operand? && y.Operand? && TokenOK(x) && TokenOK(y)
    requires Fuse(m, op, x, y).To?
    ensures Fuse(m, op, x, y).token.Operand? && TokenOK(Fuse(m, op, x, y).token)
    ensures OperandValue(Fuse(m, op, x, y).token, s) == BinaryValue(m, op, OperandValue(x, s), OperandValue(y, s))
       <==> (x.IsVal() && y.IsVal() ==> FoldExact(op, x.data2, y.data2))
  {
    if x.IsVal() && y.IsVal() {
      FoldingIsExactIff(m, op, x.data2, y.data2);
    } else {
      FusePatternIsSound(m, op, x, y, s);
    }
  }
}
