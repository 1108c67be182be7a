/** `CreateRPN`: the shunting yard over an operator stack and a value stack that drives the
    byte-code builder, for formulas of values, variables, built-in operators, signs, brackets,
    assignments and `?:`.  The functions specify one token; class `Parser` holds the loops. */
module MuParser {
  import opened MuBuilder
  import opened MuCode
  import opened MuReader
  import opened Wrappers

  /** What the value stack remembers of a token: its code, and its value or variable. */
  datatype ValTok = VVal(v: real) | VVar(p: Ptr)

  datatype Yard = Yard(
    b: Builder,
    ops: seq<Tok>,
    vals: seq<ValTok>,
    args: seq<int>,
    ifElse: int,
    last: Option<Tok>)

  // ----- the precedence tables -----

  datatype Associativity = LEFT | RIGHT | NONE

  function OpPrecedence(op: Op): int {
    match op
    case LOR => 1
    case LAND => 2
    case LT => 5
    case GT => 5
    case LE => 5
    case GE => 5
    case NEQ => 5
    case EQ => 5
    case ADD => 6
    case SUB => 6
    case MUL => 7
    case DIV => 7
    case POW => 8
  }

  function Precedence(t: Tok): int {
    match t
    case TAssign => -1
    case TBin(op) => OpPrecedence(op)
    case TSign(_) => 7
    case TEnd => -5
    case _ => 0
  }

  function AssociativityOf(t: Tok): Associativity {
    match t
    case TAssign => LEFT
    case TBin(op) => if op == POW then RIGHT else LEFT
    case _ => NONE
  }

  /** Must the operator on top of the stack be applied before `t` is pushed? */
  predicate Yields(top: Tok, t: Tok) {
    var p1, p2 := Precedence(top), Precedence(t);
    if top == t then
      match AssociativityOf(t)
      case RIGHT => !(p1 <= p2)
      case LEFT => !(p1 < p2)
      case NONE => true
    else !(p1 < p2)
  }

  predicate StopsLoop(t: Tok) { t == TOpen || t == TElse || t == TIf }

  predicate StopsRemaining(t: Tok) { t == TOpen || t == TIf }

  function Top<T>(s: seq<T>): T
    requires s != []
  {
    s[|s| - 1]
  }

  function Pop<T>(s: seq<T>): seq<T>
    requires s != []
  {
    s[..|s| - 1]
  }

  // ----- applying one operator -----

  /** `ApplyFunc` on a sign: one argument. */
  function ApplySign(m: Machine, y: Yard): Option<Yard>
    requires y.ops != [] && Top(y.ops).TSign?
  {
    if y.vals == [] || y.b.code == [] then None
    else Some(y.(b := AddFun(m, y.b, Top(y.ops).cb, 1, true),
                 ops := Pop(y.ops),
                 vals := Pop(y.vals) + [VVal(1.0)]))
  }

  /** `ApplyBinOprt` */
  function ApplyBinOprt(m: Machine, y: Yard): Option<Yard>
    requires y.ops != [] && (Top(y.ops).TBin? || Top(y.ops).TAssign?)
  {
    if |y.vals| < 2 || |y.b.code| < 2 then None
    else
      var left := Top(Pop(y.vals));
      var rest := y.(ops := Pop(y.ops), vals := Pop(Pop(y.vals)) + [VVal(1.0)]);
      match Top(y.ops)
      case TBin(op) => Some(rest.(b := AddOp(m, y.b, op)))
      case _ => if left.VVar? then Some(rest.(b := AddAssignOp(y.b, left.p))) else None
  }

  predicate IsNonZero(v: ValTok, store: Store) {
    match v
    case VVal(x) => x != 0.0
    case VVar(p) => store(p) != 0.0
  }

  /** One round of `ApplyIfElse`. */
  function ApplyElse(store: Store, y: Yard): Option<Yard>
    requires y.ops != [] && Top(y.ops) == TElse
  {
    var n := |y.vals|;
    var ops := Pop(y.ops);
    if n < 3 || ops == [] || Top(ops) != TIf then None
    else
      var chosen := if IsNonZero(y.vals[n - 3], store) then y.vals[n - 2] else y.vals[n - 1];
      Some(y.(b := AddIfElse(y.b, EndIf), ops := Pop(ops), vals := y.vals[..n - 3] + [chosen]))
  }

  /** Applies the operator on top of the stack. */
  function ApplyTop(m: Machine, store: Store, y: Yard): (r: Option<Yard>)
    requires y.ops != [] && !StopsRemaining(Top(y.ops))
    ensures r.Some? ==> |r.value.ops| < |y.ops|
  {
    match Top(y.ops)
    case TSign(_) => ApplySign(m, y)
    case TBin(_) => ApplyBinOprt(m, y)
    case TAssign => ApplyBinOprt(m, y)
    case TElse => ApplyElse(store, y)
    case _ => None
  }

  /** `ApplyRemainingOprt` */
  function ApplyRemaining(m: Machine, store: Store, y: Yard): Option<Yard>
    decreases |y.ops|
  {
    if y.ops == [] || StopsRemaining(Top(y.ops)) then Some(y)
    else match ApplyTop(m, store, y)
      case None => None
      case Some(z) => ApplyRemaining(m, store, z)
  }

  /** The loop run before a binary operator or `?` is pushed. */
  function MakeRoom(m: Machine, store: Store, y: Yard, t: Tok): Option<Yard>
    decreases |y.ops|
  {
    if y.ops == [] || StopsLoop(Top(y.ops)) || !Yields(Top(y.ops), t) then Some(y)
    else match ApplyTop(m, store, y)
      case None => None
      case Some(z) => MakeRoom(m, store, z, t)
  }

  // ----- one token -----

  function PushOp(y: Yard, t: Tok): Yard { y.(ops := y.ops + [t]) }

  function StepElse(m: Machine, store: Store, y: Yard): Option<Yard> {
    if y.args == [] || Top(y.args) > 1 || y.ifElse < 1 then None
    else match ApplyRemaining(m, store, y.(args := Pop(y.args), ifElse := y.ifElse - 1))
      case None => None
      case Some(z) => Some(PushOp(z.(b := AddIfElse(z.b, Else(0))), TElse))
  }

  function StepIf(m: Machine, store: Store, y: Yard): Option<Yard> {
    match MakeRoom(m, store, y.(args := y.args + [1], ifElse := y.ifElse + 1), TIf)
    case None => None
    case Some(z) => Some(PushOp(z.(b := AddIfElse(z.b, If(0))), TIf))
  }

  function StepBinary(m: Machine, store: Store, y: Yard, t: Tok): Option<Yard> {
    match MakeRoom(m, store, y, t)
    case None => None
    case Some(z) => Some(PushOp(z, t))
  }

  function StepClose(m: Machine, store: Store, y: Yard): Option<Yard> {
    if y.last == Some(TOpen) && y.args == [] then None
    else
      var args := if y.last == Some(TOpen) then Pop(y.args) + [Top(y.args) - 1] else y.args;
      match ApplyRemaining(m, store, y.(args := args))
      case None => None
      case Some(z) =>
        if z.ops == [] || Top(z.ops) != TOpen then Some(z)
        else if z.args == [] || Top(z.args) > 1 then None
        else Some(z.(args := Pop(z.args), ops := Pop(z.ops)))
  }

  function StepEnd(m: Machine, store: Store, y: Yard): Option<Yard> {
    match ApplyRemaining(m, store, y)
    case None => None
    case Some(z) => Some(z.(b := z.b.(code := Finalize(z.b.code))))
  }

  function StepToken(m: Machine, store: Store, y: Yard, t: Tok): Option<Yard> {
    match t
    case TVar(p) => Some(y.(vals := y.vals + [VVar(p)], b := AddVar(y.b, p)))
    case TVal(v) => Some(y.(vals := y.vals + [VVal(v)], b := AddVal(y.b, v)))
    case TElse => StepElse(m, store, y)
    case TEnd => StepEnd(m, store, y)
    case TClose => StepClose(m, store, y)
    case TIf => StepIf(m, store, y)
    case TBin(_) => StepBinary(m, store, y, t)
    case TAssign => StepBinary(m, store, y, t)
    case TOpen => Some(PushOp(y.(args := y.args + [1]), TOpen))
    case TSign(_) => Some(PushOp(y, t))
  }

  function Remember(y: Option<Yard>, t: Tok): Option<Yard> {
    match y case None => None case Some(z) => Some(z.(last := Some(t)))
  }

  // ----- the whole formula -----

  /** The main loop from a given point on. */
  function ParseFrom(m: Machine, store: Store, input: seq<Lexeme>, r: Reader, y: Yard): Option<Yard>
    decreases |input| - r.pos
  {
    match ReadToken(input, r)
    case Bad => None
    case Read(t, r1) =>
      match Remember(StepToken(m, store, y, t), t)
      case None => None
      case Some(z) => if t == TEnd then Some(z) else ParseFrom(m, store, input, r1, z)
  }

  lemma ParseFromUnrolls(m: Machine, store: Store, input: seq<Lexeme>, r: Reader, y: Yard)
    ensures ReadToken(input, r).Bad? ==> ParseFrom(m, store, input, r, y).None?
    ensures ReadToken(input, r).Read? ==>
      var t, r1 := ReadToken(input, r).tok, ReadToken(input, r).next;
      var z := Remember(StepToken(m, store, y, t), t);
      ParseFrom(m, store, input, r, y)
      == if z.None? || t == TEnd then z else ParseFrom(m, store, input, r1, z.value)
  {
  }

  lemma ReadAdvances(input: seq<Lexeme>, r: Reader)
    ensures ReadToken(input, r).Read? && ReadToken(input, r).tok != TEnd ==>
      ReadToken(input, r).next.pos == r.pos + 1 <= |input|
  {
  }

  /** The checks after the loop. */
  predicate Finished(y: Yard) { y.ifElse <= 0 && |y.args| == 1 && y.args[0] != 0 && y.vals != [] }

  function Start(opt: bool): Yard { Yard(Builder([], 0, 0, opt), [], [], [1], 0, None) }

  function CreateRPN(m: Machine, store: Store, input: seq<Lexeme>, opt: bool): Option<Yard> {
    if input == [] then None
    else match ParseFrom(m, store, input, Reader(0, START_OF_LINE, 0), Start(opt))
      case None => None
      case Some(y) => if Finished(y) then Some(y) else None
  }

  // ----- what holds of the stacks and the emitted code for any input -----

  function Count(ops: seq<Tok>, t: Tok): nat {
    if ops == [] then 0 else Count(Pop(ops), t) + (if Top(ops) == t then 1 else 0)
  }

  lemma CountPush(ops: seq<Tok>, x: Tok, t: Tok)
    ensures Count(ops + [x], t) == Count(ops, t) + (if x == t then 1 else 0)
  {
    assert Pop(ops + [x]) == ops;
  }

  /** Every value on the stack has code behind it, and the IF, ELSE and ENDIF tokens emitted so far
      match the IF and ELSE operators still pending. */
  predicate Sane(y: Yard) {
    && |y.vals| <= |y.b.code|
    && JumpsOK(y.b.code)
    && OpenElses(y.b.code) == Count(y.ops, TElse)
    && OpenIfs(y.b.code) == Count(y.ops, TIf) - Count(y.ops, TElse)
  }

  function IfBalance(y: Yard): int { Count(y.ops, TIf) - Count(y.ops, TElse) }

  lemma FusedTailIsOperand(m: Machine, opt: bool, code: seq<Token>, op: Op)
    requires |code| >= 2 && FusedTail(m, opt, code, op).To?
    ensures code[|code| - 2].Operand? && code[|code| - 1].Operand?
    ensures OpCode(m, opt, code, op) == code[..|code| - 2] + [FusedTail(m, opt, code, op).token]
    ensures FusedTail(m, opt, code, op).token.Operand?
  {
  }

  predicate SameJumps(c: seq<Token>, d: seq<Token>) {
    JumpsOK(c) == JumpsOK(d) && OpenIfs(c) == OpenIfs(d) && OpenElses(c) == OpenElses(d)
  }

  /** A token that is no jump changes no count. */
  lemma PlainSnoc(c: seq<Token>, t: Token)
    requires !t.If? && !t.Else? && !t.EndIf? && JumpsOK(c)
    ensures SameJumps(c, c + [t])
  {
    CountSnoc(c, t);
  }

  lemma OpCodeJumps(m: Machine, opt: bool, code: seq<Token>, op: Op)
    requires |code| >= 2 && JumpsOK(code)
    ensures SameJumps(code, OpCode(m, opt, code, op))
  {
    hide Fuse, JumpsOK, OpenIfs, OpenElses;
    if FusedTail(m, opt, code, op).To? {
      FusedTailIsOperand(m, opt, code, op);
      var n := |code|;
      var pre, x, y, t := code[..n - 2], code[n - 2], code[n - 1], FusedTail(m, opt, code, op).token;
      hide FusedTail, OpCode;
      assert code == pre + [x] + [y];
      assert pre == code[..n - 2];
      JumpsOKPrefix(code, n - 2);
      PlainSnoc(pre, x);
      PlainSnoc(pre + [x], y);
      PlainSnoc(pre, t);
    } else {
      PlainSnoc(code, Bin(op));
    }
  }

  lemma FunCodeJumps(m: Machine, opt: bool, code: seq<Token>, cb: Callable)
    requires |code| >= 1 && JumpsOK(code)
    ensures var r := FunCode(m, opt, code, cb, 1, true);
      JumpsOK(r) && OpenIfs(r) == OpenIfs(code) && OpenElses(r) == OpenElses(code)
  {
    var n := |code|;
    if DropsCall(opt, cb, 1, true) {
    } else if FoldsCall(opt, code, 1, true) {
      assert code[n - 1].Operand?;
      CountSnoc(code[..n - 1], ValToken(CallValue(m, cb, TailValues(code, 1))));
    } else {
      CountSnoc(code, Fun(cb, 1));
    }
  }

  lemma AddOpCode(m: Machine, b: Builder)
    ensures forall op :: |b.code| >= 2 ==>
      AddOp(m, b, op).code == OpCode(m, b.opt, b.code, op) && |AddOp(m, b, op).code| >= |b.code| - 1
    ensures forall cb :: |b.code| >= 1 ==>
      && AddFun(m, b, cb, 1, true).code == FunCode(m, b.opt, b.code, cb, 1, true)
      && |AddFun(m, b, cb, 1, true).code| >= |b.code|
  {
  }

  lemma ApplyElseSane(store: Store, y: Yard)
    requires Sane(y) && y.ops != [] && Top(y.ops) == TElse && ApplyElse(store, y).Some?
    ensures Sane(ApplyElse(store, y).value) && IfBalance(ApplyElse(store, y).value) == IfBalance(y)
  {
    hide OpenIfs, OpenElses;
    CountSnoc(y.b.code, EndIf);
    var rest := Pop(Pop(y.ops));
    assert y.ops == rest + [TIf] + [TElse];
    CountPush(rest + [TIf], TElse, TIf);
    CountPush(rest + [TIf], TElse, TElse);
    CountPush(rest, TIf, TIf);
    CountPush(rest, TIf, TElse);
  }

  lemma ApplyTopSane(m: Machine, store: Store, y: Yard)
    requires Sane(y) && y.ops != [] && !StopsRemaining(Top(y.ops))
    ensures ApplyTop(m, store, y).Some? ==>
      Sane(ApplyTop(m, store, y).value) && IfBalance(ApplyTop(m, store, y).value) == IfBalance(y)
  {
    hide JumpsOK, OpenIfs, OpenElses, AddOp, AddFun;
    AddOpCode(m, y.b);
    if ApplyTop(m, store, y).Some? {
      match Top(y.ops)
      case TSign(cb) => FunCodeJumps(m, y.b.opt, y.b.code, cb);
      case TBin(op) => OpCodeJumps(m, y.b.opt, y.b.code, op);
      case TAssign => PlainSnoc(y.b.code, Assign(Top(Pop(y.vals)).p));
      case TElse => ApplyElseSane(store, y);
      case _ =>
    }
  }

  lemma {:induction false} ApplyRemainingSane(m: Machine, store: Store, y: Yard)
    requires Sane(y)
    ensures ApplyRemaining(m, store, y).Some? ==>
      Sane(ApplyRemaining(m, store, y).value) && IfBalance(ApplyRemaining(m, store, y).value) == IfBalance(y)
    decreases |y.ops|
  {
    if y.ops != [] && !StopsRemaining(Top(y.ops)) {
      ApplyTopSane(m, store, y);
      if ApplyTop(m, store, y).Some? {
        ApplyRemainingSane(m, store, ApplyTop(m, store, y).value);
      }
    }
  }

  lemma {:induction false} MakeRoomSane(m: Machine, store: Store, y: Yard, t: Tok)
    requires Sane(y)
    ensures MakeRoom(m, store, y, t).Some? ==>
      Sane(MakeRoom(m, store, y, t).value) && IfBalance(MakeRoom(m, store, y, t).value) == IfBalance(y)
    decreases |y.ops|
  {
    if y.ops != [] && !StopsLoop(Top(y.ops)) && Yields(Top(y.ops), t) {
      ApplyTopSane(m, store, y);
      if ApplyTop(m, store, y).Some? {
        MakeRoomSane(m, store, ApplyTop(m, store, y).value, t);
      }
    }
  }

  /** Between two tokens the pending IF operators are the ones the counter knows. */
  predicate Settled(y: Yard) { Sane(y) && IfBalance(y) == y.ifElse >= 0 }

  lemma PushSane(y: Yard, t: Tok)
    requires Sane(y) && t != TIf && t != TElse
    ensures Sane(PushOp(y, t)) && IfBalance(PushOp(y, t)) == IfBalance(y)
  {
    hide JumpsOK, OpenIfs, OpenElses;
    CountPush(y.ops, t, TIf);
    CountPush(y.ops, t, TElse);
  }

  lemma PushJumpSane(y: Yard, t: Tok)
    requires Sane(y)
    ensures t == TIf ==>
      var z := PushOp(y.(b := AddIfElse(y.b, If(0))), t);
      (IfBalance(y) >= 0 ==> Sane(z)) && IfBalance(z) == IfBalance(y) + 1
    ensures t == TElse ==>
      var z := PushOp(y.(b := AddIfElse(y.b, Else(0))), t);
      (IfBalance(y) >= 1 ==> Sane(z)) && IfBalance(z) == IfBalance(y) - 1
  {
    CountPush(y.ops, t, TIf);
    CountPush(y.ops, t, TElse);
    CountSnoc(y.b.code, If(0));
    CountSnoc(y.b.code, Else(0));
  }

  /** Each token keeps the bookkeeping; only the end of the formula replaces the code. */
  lemma StepElseSettled(m: Machine, store: Store, y: Yard)
    requires Settled(y)
    ensures StepElse(m, store, y).Some? ==> Settled(StepElse(m, store, y).value)
  {
    hide JumpsOK, OpenIfs, OpenElses, ApplyRemaining;
    if y.args != [] {
      var z := y.(args := Pop(y.args), ifElse := y.ifElse - 1);
      ApplyRemainingKeeps(m, store, z);
      ApplyRemainingSane(m, store, z);
      if ApplyRemaining(m, store, z).Some? { PushJumpSane(ApplyRemaining(m, store, z).value, TElse); }
    }
  }

  lemma StepIfSettled(m: Machine, store: Store, y: Yard)
    requires Settled(y)
    ensures StepIf(m, store, y).Some? ==> Settled(StepIf(m, store, y).value)
  {
    hide JumpsOK, OpenIfs, OpenElses, MakeRoom;
    var z := y.(args := y.args + [1], ifElse := y.ifElse + 1);
    MakeRoomKeeps(m, store, z, TIf);
    MakeRoomSane(m, store, z, TIf);
    if MakeRoom(m, store, z, TIf).Some? { PushJumpSane(MakeRoom(m, store, z, TIf).value, TIf); }
  }

  lemma StepSettled(m: Machine, store: Store, y: Yard, t: Tok)
    requires Settled(y) && t != TEnd
    ensures StepToken(m, store, y, t).Some? ==> Settled(StepToken(m, store, y, t).value)
  {
    hide JumpsOK, OpenIfs, OpenElses, ApplyRemaining, MakeRoom, StepElse, StepIf, StepClose, StepBinary;
    match t
    case TVar(p) => PlainSnoc(y.b.code, VarToken(p));
    case TVal(v) => PlainSnoc(y.b.code, ValToken(v));
    case TElse => StepElseSettled(m, store, y);
    case TClose =>
      if StepClose(m, store, y).Some? { StepCloseSettled(m, store, y); }
    case TIf => StepIfSettled(m, store, y);
    case TBin(_) => StepBinarySettled(m, store, y, t);
    case TAssign => StepBinarySettled(m, store, y, t);
    case TOpen => PushSane(y.(args := y.args + [1]), TOpen);
    case TSign(_) => PushSane(y, t);
  }

  lemma StepBinarySettled(m: Machine, store: Store, y: Yard, t: Tok)
    requires Settled(y) && (t.TBin? || t.TAssign?)
    ensures StepBinary(m, store, y, t).Some? ==> Settled(StepBinary(m, store, y, t).value)
  {
    hide JumpsOK, OpenIfs, OpenElses, MakeRoom;
    MakeRoomKeeps(m, store, y, t);
    MakeRoomSane(m, store, y, t);
    if MakeRoom(m, store, y, t).Some? { PushSane(MakeRoom(m, store, y, t).value, t); }
  }

  lemma StepCloseSettled(m: Machine, store: Store, y: Yard)
    requires Settled(y) && StepClose(m, store, y).Some?
    ensures Settled(StepClose(m, store, y).value)
  {
    hide JumpsOK, OpenIfs, OpenElses, ApplyRemaining;
    var args := if y.last == Some(TOpen) then Pop(y.args) + [Top(y.args) - 1] else y.args;
    ApplyRemainingKeeps(m, store, y.(args := args));
    ApplyRemainingSane(m, store, y.(args := args));
    var z := ApplyRemaining(m, store, y.(args := args)).value;
    if z.ops != [] && Top(z.ops) == TOpen {
      assert z.ops == Pop(z.ops) + [TOpen];
      CountPush(Pop(z.ops), TOpen, TIf);
      CountPush(Pop(z.ops), TOpen, TElse);
    }
  }

  /** Applying operators changes neither the argument counts nor the counter of open `?`. */
  predicate SameCounters(y: Yard, z: Yard) {
    z.args == y.args && z.ifElse == y.ifElse && z.last == y.last && z.b.opt == y.b.opt
  }

  lemma {:induction false} ApplyRemainingKeeps(m: Machine, store: Store, y: Yard)
    ensures ApplyRemaining(m, store, y).Some? ==>
      var z := ApplyRemaining(m, store, y).value;
      SameCounters(y, z) && (z.ops == [] || StopsRemaining(Top(z.ops)))
    decreases |y.ops|
  {
    if y.ops != [] && !StopsRemaining(Top(y.ops)) && ApplyTop(m, store, y).Some? {
      ApplyRemainingKeeps(m, store, ApplyTop(m, store, y).value);
    }
  }

  lemma {:induction false} MakeRoomKeeps(m: Machine, store: Store, y: Yard, t: Tok)
    ensures MakeRoom(m, store, y, t).Some? ==> SameCounters(y, MakeRoom(m, store, y, t).value)
    decreases |y.ops|
  {
    if y.ops != [] && !StopsLoop(Top(y.ops)) && Yields(Top(y.ops), t) && ApplyTop(m, store, y).Some? {
      MakeRoomKeeps(m, store, ApplyTop(m, store, y).value, t);
    }
  }

  // ----- the loops -----

  /** The locals of `CreateRPN`, which its helpers change by reference. */
  class Parser {
    const rpn: ByteCode
    var stOpt: seq<Tok>
    var stVal: seq<ValTok>
    var stArgCount: seq<int>
    var ifElseCounter: int
    var opta: Option<Tok>

    function State(): Yard
      reads this, rpn
    {
      Yard(rpn.State(), stOpt, stVal, stArgCount, ifElseCounter, opta)
    }

    /** The step succeeded with the specified state, or failed where the specification does. */
    predicate Agrees(ok: bool, spec: Option<Yard>)
      reads this, rpn
    {
      ok == spec.Some? && (ok ==> State() == spec.value)
    }

    constructor (rpn: ByteCode)
      ensures this.rpn == rpn && State() == Yard(rpn.State(), [], [], [1], 0, None)
    {
      this.rpn := rpn;
      stOpt, stVal, stArgCount, ifElseCounter, opta := [], [], [1], 0, None;
    }

    method ApplyFunc(m: Machine) returns (ok: bool)
      requires Sane(State()) && stOpt != [] && Top(stOpt).TSign?
      modifies this, rpn
      ensures Agrees(ok, ApplySign(m, old(State())))
    {
      var funTok := Top(stOpt);
      stOpt := Pop(stOpt);
      if stVal == [] {
        return false;
      }
      stVal := Pop(stVal);
      rpn.EmitFun(m, funTok.cb, 1, true);
      stVal := stVal + [VVal(1.0)];
      ok := true;
    }

    method ApplyBinary(m: Machine) returns (ok: bool)
      requires Sane(State()) && stOpt != [] && (Top(stOpt).TBin? || Top(stOpt).TAssign?)
      modifies this, rpn
      ensures Agrees(ok, ApplyBinOprt(m, old(State())))
    {
      if |stVal| < 2 {
        return false;
      }
      stVal := Pop(stVal);
      var valTok2 := Top(stVal);
      stVal := Pop(stVal);
      var optTok := Top(stOpt);
      stOpt := Pop(stOpt);
      if optTok.TAssign? {
        if !valTok2.VVar? {
          return false;
        }
        rpn.EmitAssignOp(valTok2.p);
      } else {
        rpn.EmitOp(m, optTok.op);
      }
      stVal := stVal + [VVal(1.0)];
      ok := true;
    }

    /** One round of the loop in `ApplyIfElse`; its caller's loop makes the next. */
    method ApplyIfElse(store: Store) returns (ok: bool)
      requires Sane(State()) && stOpt != [] && Top(stOpt) == TElse
      requires Count(stOpt, TIf) >= Count(stOpt, TElse)
      modifies this, rpn
      ensures Agrees(ok, ApplyElse(store, old(State())))
    {
      stOpt := Pop(stOpt);
      if stVal == [] { return false; }
      var val2 := Top(stVal);
      stVal := Pop(stVal);
      if stVal == [] { return false; }
      var val1 := Top(stVal);
      stVal := Pop(stVal);
      if stVal == [] { return false; }
      var expr := Top(stVal);
      stVal := Pop(stVal);
      stVal := stVal + [if IsNonZero(expr, store) then val1 else val2];
      assert stOpt != [];
      var opIf := Top(stOpt);
      stOpt := Pop(stOpt);
      if opIf != TIf {
        return false;
      }
      rpn.EmitIfElse(EndIf);
      ok := true;
    }

    method ApplyTopOprt(m: Machine, store: Store) returns (ok: bool)
      requires Sane(State()) && IfBalance(State()) >= 0 && stOpt != [] && !StopsRemaining(Top(stOpt))
      modifies this, rpn
      ensures Agrees(ok, ApplyTop(m, store, old(State())))
    {
      match Top(stOpt)
      case TSign(_) => ok := ApplyFunc(m);
      case TBin(_) => ok := ApplyBinary(m);
      case TAssign => ok := ApplyBinary(m);
      case TElse => ok := ApplyIfElse(store);
      case _ => ok := false;
    }

    method ApplyRemainingOprt(m: Machine, store: Store) returns (ok: bool)
      requires Sane(State()) && IfBalance(State()) >= 0
      modifies this, rpn
      ensures Agrees(ok, ApplyRemaining(m, store, old(State())))
    {
      ghost var start := State();
      while stOpt != [] && !StopsRemaining(Top(stOpt))
        invariant Sane(State()) && IfBalance(State()) >= 0
        invariant ApplyRemaining(m, store, State()) == ApplyRemaining(m, store, start)
        decreases |stOpt|
      {
        ApplyTopSane(m, store, State());
        ok := ApplyTopOprt(m, store);
        if !ok { return; }
      }
      ok := true;
    }

    /** The loop that gives way to a new operator, by precedence and associativity. */
    method ApplyStronger(m: Machine, store: Store, opt: Tok) returns (ok: bool)
      requires Sane(State()) && IfBalance(State()) >= 0
      modifies this, rpn
      ensures Agrees(ok, MakeRoom(m, store, old(State()), opt))
    {
      ghost var start := State();
      while stOpt != [] && !StopsLoop(Top(stOpt))
        invariant Sane(State()) && IfBalance(State()) >= 0
        invariant MakeRoom(m, store, State(), opt) == MakeRoom(m, store, start, opt)
        decreases |stOpt|
      {
        var prec1, prec2 := Precedence(Top(stOpt)), Precedence(opt);
        if Top(stOpt) == opt {
          var assoc := AssociativityOf(opt);
          if (assoc == RIGHT && prec1 <= prec2) || (assoc == LEFT && prec1 < prec2) {
            break;
          }
        } else if prec1 < prec2 {
          break;
        }
        ApplyTopSane(m, store, State());
        ok := ApplyTopOprt(m, store);
        if !ok { return; }
      }
      ok := true;
    }

    method ReadBracketClose(m: Machine, store: Store) returns (ok: bool)
      requires Settled(State())
      modifies this, rpn
      ensures Agrees(ok, StepClose(m, store, old(State())))
    {
      hide JumpsOK, OpenIfs, OpenElses;
      if opta == Some(TOpen) {
        if stArgCount == [] { return false; }
        stArgCount := Pop(stArgCount) + [Top(stArgCount) - 1];
      }
      ok := ApplyRemainingOprt(m, store);
      if !ok { return; }
      if stOpt != [] && Top(stOpt) == TOpen {
        if stArgCount == [] { return false; }
        var argCount := Top(stArgCount);
        stArgCount := Pop(stArgCount);
        stOpt := Pop(stOpt);
        if argCount > 1 { return false; }
      }
    }

    method ReadColon(m: Machine, store: Store) returns (ok: bool)
      requires Settled(State())
      modifies this, rpn
      ensures Agrees(ok, StepElse(m, store, old(State())))
    {
      if stArgCount == [] { return false; }
      if Top(stArgCount) > 1 { return false; }
      stArgCount := Pop(stArgCount);
      ifElseCounter := ifElseCounter - 1;
      if ifElseCounter < 0 { return false; }
      ok := ApplyRemainingOprt(m, store);
      if ok {
        rpn.EmitIfElse(Else(0));
        stOpt := stOpt + [TElse];
      }
    }

    method ReadQuestionMark(m: Machine, store: Store) returns (ok: bool)
      requires Settled(State())
      modifies this, rpn
      ensures Agrees(ok, StepIf(m, store, old(State())))
    {
      ifElseCounter := ifElseCounter + 1;
      stArgCount := stArgCount + [1];
      ok := ApplyStronger(m, store, TIf);
      if ok {
        rpn.EmitIfElse(If(0));
        stOpt := stOpt + [TIf];
      }
    }

    method ReadEndOfFormula(m: Machine, store: Store) returns (ok: bool)
      requires Settled(State())
      modifies this, rpn
      ensures Agrees(ok, StepEnd(m, store, old(State())))
    {
      ApplyRemainingSane(m, store, State());
      ok := ApplyRemainingOprt(m, store);
      if ok { rpn.Close(); }
    }

    /** The switch inside the main loop. */
    method Take(m: Machine, store: Store, opt: Tok) returns (ok: bool)
      requires Settled(State())
      modifies this, rpn
      ensures Agrees(ok, StepToken(m, store, old(State()), opt))
    {
      ok := true;
      match opt
      case TVar(p) =>
        stVal := stVal + [VVar(p)];
        rpn.EmitVar(p);
      case TVal(v) =>
        stVal := stVal + [VVal(v)];
        rpn.EmitVal(v);
      case TElse =>
        ok := ReadColon(m, store);
      case TEnd =>
        ok := ReadEndOfFormula(m, store);
      case TClose =>
        ok := ReadBracketClose(m, store);
      case TIf =>
        ok := ReadQuestionMark(m, store);
      case TBin(_) =>
        ok := ApplyStronger(m, store, opt);
        if ok { stOpt := stOpt + [opt]; }
      case TAssign =>
        ok := ApplyStronger(m, store, opt);
        if ok { stOpt := stOpt + [opt]; }
      case TOpen =>
        stArgCount := stArgCount + [1];
        stOpt := stOpt + [opt];
      case TSign(_) =>
        stOpt := stOpt + [opt];
    }

    /** One round of the main loop. */
    method ReadOne(m: Machine, store: Store, reader: TokenReader) returns (ok: bool, done: bool)
      requires Settled(State())
      modifies this, rpn, reader
      ensures match ReadToken(reader.formula, old(reader.State()))
        case Bad => !ok
        case Read(t, next) =>
          && Agrees(ok, Remember(StepToken(m, store, old(State()), t), t))
          && (ok ==> reader.State() == next && done == (t == TEnd) && (!done ==> Settled(State())))
    {
      ghost var y := State();
      var tok := reader.ReadNextToken();
      if tok.Error? {
        return false, false;
      }
      var opt := tok.tok;
      ok := Take(m, store, opt);
      if opt != TEnd { StepSettled(m, store, y, opt); }
      opta := Some(opt);
      done := opt == TEnd;
    }
  }

  /** `CreateRPN` as a loop over the token reader.  The byte code and the index of the final result
      are exactly the specified ones, and the method fails exactly where the specification does. */
  method CreateByteCode(m: Machine, store: Store, input: seq<Lexeme>, rpn: ByteCode) returns (ok: bool,
                        finalResultIdx: int)
    modifies rpn
    ensures ok == CreateRPN(m, store, input, old(rpn.enableOptimizer)).Some?
    ensures ok ==>
      var y := CreateRPN(m, store, input, old(rpn.enableOptimizer)).value;
      rpn.State() == y.b && finalResultIdx == y.args[0]
  {
    finalResultIdx := 0;
    if input == [] {
      return false, 0;
    }
    rpn.Clear();
    var reader := new TokenReader(input);
    var p := new Parser(rpn);
    ghost var r0, y0 := reader.State(), p.State();
    var done := false;
    hide StepToken, ReadToken, ParseFrom, JumpsOK;
    while !done
      invariant fresh(reader) && fresh(p) && p.rpn == rpn && reader.formula == input
      invariant !done ==> Settled(p.State())
      invariant !done ==> ParseFrom(m, store, input, reader.State(), p.State()) == ParseFrom(m, store, input, r0, y0)
      invariant done ==> ParseFrom(m, store, input, r0, y0) == Some(p.State())
      decreases !done, |input| - reader.pos
    {
      ParseFromUnrolls(m, store, input, reader.State(), p.State());
      ReadAdvances(input, reader.State());
      ok, done := p.ReadOne(m, store, reader);
      if !ok {
        return false, 0;
      }
    }
    if p.ifElseCounter > 0 {
      return false, 0;
    }
    if |p.stArgCount| != 1 {
      return false, 0;
    }
    finalResultIdx := Top(p.stArgCount);
    if finalResultIdx == 0 {
      return false, 0;
    }
    ok := p.stVal != [];
  }
}
