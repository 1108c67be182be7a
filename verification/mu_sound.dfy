/** Soundness of the parser: whatever formula is accepted is the spelling of a grammatical tree,
    and the code emitted is the code of that tree.  The two stacks are read as a tree with a hole. */
module MuSound {
  import opened MuAccount
  import opened MuBuilder
  import opened MuCode
  import opened MuExpr
  import opened MuParser
  import opened MuReader
  import opened MuSyntax
  import opened Wrappers

  /** What has been read to the left of the operand now due. */
  datatype Ctx =
    | Outer
    | InParen(k: Ctx)
    | AfterSign(k: Ctx, minus: bool)
    | AfterOp(k: Ctx, l: Syn, lv: ValTok, op: Op)
    | AfterSet(k: Ctx, l: Syn, lv: ValTok)
    | InThen(k: Ctx, c: Syn, cv: ValTok)
    | InElse(k: Ctx, c: Syn, cv: ValTok, a: Syn, av: ValTok)

  function Ops(k: Ctx): seq<Tok> {
    match k
    case Outer => []
    case InParen(k1) => Ops(k1) + [TOpen]
    case AfterSign(k1, minus) => Ops(k1) + [SignTok(minus)]
    case AfterOp(k1, _, _, op) => Ops(k1) + [TBin(op)]
    case AfterSet(k1, _, _) => Ops(k1) + [TAssign]
    case InThen(k1, _, _) => Ops(k1) + [TIf]
    case InElse(k1, _, _, _, _) => Ops(k1) + [TIf] + [TElse]
  }

  function Vals(k: Ctx): seq<ValTok> {
    match k
    case Outer => []
    case InParen(k1) => Vals(k1)
    case AfterSign(k1, _) => Vals(k1)
    case AfterOp(k1, _, lv, _) => Vals(k1) + [lv]
    case AfterSet(k1, _, lv) => Vals(k1) + [lv]
    case InThen(k1, _, cv) => Vals(k1) + [cv]
    case InElse(k1, _, cv, _, av) => Vals(k1) + [cv] + [av]
  }

  function Built(m: Machine, k: Ctx, b: Builder): Builder {
    match k
    case Outer => b
    case InParen(k1) => Built(m, k1, b)
    case AfterSign(k1, _) => Built(m, k1, b)
    case AfterOp(k1, l, _, _) => Compile(m, Erase(l), Built(m, k1, b))
    case AfterSet(k1, l, _) => Compile(m, Erase(l), Built(m, k1, b))
    case InThen(k1, c, _) => AddIfElse(Compile(m, Erase(c), Built(m, k1, b)), If(0))
    case InElse(k1, c, _, a, _) =>
      AddIfElse(Compile(m, Erase(a), AddIfElse(Compile(m, Erase(c), Built(m, k1, b)), If(0))), Else(0))
  }

  function Text(k: Ctx): seq<Lexeme> {
    match k
    case Outer => []
    case InParen(k1) => Text(k1) + [LOpen]
    case AfterSign(k1, minus) => Text(k1) + [SignLexeme(minus)]
    case AfterOp(k1, l, _, op) => Text(k1) + (Lexemes(l) + [LOp(op)])
    case AfterSet(k1, l, _) => Text(k1) + (Lexemes(l) + [LAssign])
    case InThen(k1, c, _) => Text(k1) + (Lexemes(c) + [LQuestion])
    case InElse(k1, c, _, a, _) => Text(k1) + (Lexemes(c) + [LQuestion] + Lexemes(a) + [LColon])
  }

  /** The hole and its surroundings agree with the precedence tables.  An assignment whose target is
      not a variable is let in here, because the loop notices it only when applying it. */
  predicate CtxOK(k: Ctx) {
    match k
    case Outer => true
    case InParen(k1) => CtxOK(k1)
    case AfterSign(k1, _) => CtxOK(k1) && !k1.AfterSign?
    case AfterOp(k1, l, _, op) => CtxOK(k1) && Fits(k1, l) && ClosedBy(l, TBin(op)) && Blocks(Ops(k1), TBin(op))
    case AfterSet(k1, l, lv) =>
      CtxOK(k1) && (lv.VVal? || (l.Name? && l.p != NULL && lv == VVar(l.p) && Blocks(Ops(k1), TAssign)))
    case InThen(k1, c, _) => CtxOK(k1) && Fits(k1, c) && ClosedBy(c, TIf) && Blocks(Ops(k1), TIf)
    case InElse(k1, c, _, a, _) =>
      CtxOK(k1) && Fits(k1, c) && ClosedBy(c, TIf) && Blocks(Ops(k1), TIf) && Grammatical(a)
  }

  /** Tree `e` may stand in the hole. */
  predicate Fits(k: Ctx, e: Syn) {
    Grammatical(e) && Admits(Ops(k), e) && (k.AfterSign? ==> !StartsWithSign(e))
  }

  predicate FocusOK(k: Ctx, e: Syn) { CtxOK(k) && Fits(k, e) }

  /** The stacks and the code are those of the context, or of the context and a tree in its hole. */
  predicate Holds(m: Machine, k: Ctx, b: Builder, y: Yard) {
    y.ops == Ops(k) && y.vals == Vals(k) && y.b == Built(m, k, b)
  }

  predicate HoldsWith(m: Machine, k: Ctx, e: Syn, v: ValTok, b: Builder, y: Yard) {
    y.ops == Ops(k) && y.vals == Vals(k) + [v] && y.b == Compile(m, Erase(e), Built(m, k, b))
  }

  // ----- applying the innermost pending operator closes one level of the context -----

  predicate Closable(k: Ctx) { k.AfterSign? || k.AfterOp? || (k.AfterSet? && k.l.Name?) || k.InElse? }

  function Outside(k: Ctx): Ctx
    requires !k.Outer?
  {
    k.k
  }

  function Plug(k: Ctx, e: Syn): Syn
    requires Closable(k)
  {
    match k
    case AfterSign(_, minus) => Signed(minus, e)
    case AfterOp(_, l, _, op) => Infix(op, l, e)
    case AfterSet(_, l, _) => Set(l.p, e)
    case InElse(_, c, _, a, _) => Ternary(c, a, e)
  }

  lemma PlugIsOK(k: Ctx, e: Syn)
    requires FocusOK(k, e) && Closable(k) && (k.AfterSet? ==> k.lv.VVar?)
    ensures FocusOK(k.k, Plug(k, e))
    ensures !k.InElse? ==> forall t :: ClosedBy(e, t) && Yields(Top(Ops(k)), t) ==> ClosedBy(Plug(k, e), t)
  {
    hide Yields;
    match k
    case AfterSign(k1, minus) => TopOfConcat(Ops(k1), [SignTok(minus)]);
    case AfterOp(k1, _, _, op) => TopOfConcat(Ops(k1), [TBin(op)]);
    case AfterSet(k1, _, _) => TopOfConcat(Ops(k1), [TAssign]);
    case InElse(k1, c, _, a, _) =>
  }

  lemma PlugText(k: Ctx, e: Syn)
    requires Closable(k)
    ensures Text(k.k) + Lexemes(Plug(k, e)) == Text(k) + Lexemes(e)
  {
    match k
    case AfterSign(k1, minus) => Regroup(Text(k1), [SignLexeme(minus)], Lexemes(e));
    case AfterOp(k1, l, _, op) => Regroup(Text(k1), Lexemes(l) + [LOp(op)], Lexemes(e));
    case AfterSet(k1, l, _) => SetText(k1, l, e);
    case InElse(k1, c, _, a, _) =>
      Regroup(Text(k1), Lexemes(c) + [LQuestion] + Lexemes(a) + [LColon], Lexemes(e));
  }

  lemma SetText(k: Ctx, l: Syn, e: Syn)
    requires l.Name?
    ensures Text(k) + Lexemes(Set(l.p, e)) == Text(k) + (Lexemes(l) + [LAssign]) + Lexemes(e)
  {
    assert [LName(l.p)] + [LAssign] == [LName(l.p), LAssign];
    Regroup(Text(k), [LName(l.p), LAssign], Lexemes(e));
  }

  lemma Regroup(a: seq<Lexeme>, b: seq<Lexeme>, c: seq<Lexeme>)
    ensures a + (b + c) == a + b + c
  {
  }

  lemma ApplyTopSign(m: Machine, store: Store, k: Ctx, e: Syn, v: ValTok, b: Builder, y: Yard) returns (v1: ValTok)
    requires k.AfterSign? && HoldsWith(m, k, e, v, b, y) && ApplyTop(m, store, y).Some?
    ensures HoldsWith(m, k.k, Plug(k, e), v1, b, ApplyTop(m, store, y).value) && v1.VVal?
  {
    hide AddFun, Compile, Erase, ApplyTop, SignTok;
    v1 := VVal(1.0);
    SignContext(m, k, b);
    TopOfConcat(Ops(k.k), [SignTok(k.minus)]);
    SignIsToken(k.minus);
    AppliedSign(m, store, y);
    assert Pop(Vals(k) + [v]) == Vals(k);
    SignCompiles(m, k.minus, e, Built(m, k.k, b));
  }

  lemma SignIsToken(minus: bool)
    ensures SignTok(minus).TSign?
  {
  }

  lemma SignContext(m: Machine, k: Ctx, b: Builder)
    requires k.AfterSign?
    ensures Ops(k) == Ops(k.k) + [SignTok(k.minus)] && Vals(k) == Vals(k.k) && Built(m, k, b) == Built(m, k.k, b)
  {
  }

  lemma AppliedSign(m: Machine, store: Store, y: Yard)
    requires y.ops != [] && Top(y.ops).TSign? && ApplyTop(m, store, y).Some?
    ensures y.vals != [] && y.b.code != []
    ensures ApplyTop(m, store, y).value ==
            y.(b := AddFun(m, y.b, Top(y.ops).cb, 1, true), ops := Pop(y.ops), vals := Pop(y.vals) + [VVal(1.0)])
  {
    hide AddFun;
  }

  lemma SignCompiles(m: Machine, minus: bool, e: Syn, b: Builder)
    ensures SignTok(minus).TSign? && Compile(m, Erase(e), b).code != []
    ensures Compile(m, Erase(Signed(minus, e)), b) == AddFun(m, Compile(m, Erase(e), b), SignTok(minus).cb, 1, true)
  {
    hide AddFun;
    SignedCode(m, SignTok(minus).cb, Erase(e), b);
  }

  lemma InfixCompiles(m: Machine, op: Op, l: Syn, r: Syn, b: Builder)
    ensures var b1 := Compile(m, Erase(r), Compile(m, Erase(l), b));
      |b1.code| >= 2 && Compile(m, Erase(Infix(op, l, r)), b) == AddOp(m, b1, op)
  {
    hide AddOp;
  }

  lemma ApplyTopOp(m: Machine, store: Store, k: Ctx, e: Syn, v: ValTok, b: Builder, y: Yard) returns (v1: ValTok)
    requires k.AfterOp? && HoldsWith(m, k, e, v, b, y) && ApplyTop(m, store, y).Some?
    ensures HoldsWith(m, k.k, Plug(k, e), v1, b, ApplyTop(m, store, y).value) && v1.VVal?
  {
    hide OpCode, FusedTail, AddFun;
    TopOfConcat(Ops(k.k), [TBin(k.op)]);
    InfixCompiles(m, k.op, k.l, e, Built(m, k.k, b));
    hide Compile, Erase, AddOp;
    v1 := VVal(1.0);
    assert Pop(Vals(k) + [v]) == Vals(k) && Pop(Vals(k)) == Vals(k.k);
  }

  lemma ApplyTopSet(m: Machine, store: Store, k: Ctx, e: Syn, v: ValTok, b: Builder, y: Yard) returns (v1: ValTok)
    requires k.AfterSet? && CtxOK(k) && HoldsWith(m, k, e, v, b, y) && ApplyTop(m, store, y).Some?
    ensures k.lv.VVar? && Closable(k)
    ensures HoldsWith(m, k.k, Plug(k, e), v1, b, ApplyTop(m, store, y).value) && v1.VVal?
  {
    TargetIsVariable(k);
    hide CtxOK, AddOp, AddFun;
    TopOfConcat(Ops(k.k), [TAssign]);
    v1 := VVal(1.0);
    assert Pop(Vals(k) + [v]) == Vals(k) && Pop(Vals(k)) == Vals(k.k) && Top(Vals(k)) == k.lv;
    if k.l.Name? {
      SetCompiles(m, k.l.p, e, Built(m, k.k, b));
    }
    hide Compile, Erase;
  }

  lemma TargetIsVariable(k: Ctx)
    requires k.AfterSet? && CtxOK(k)
    ensures k.lv.VVar? ==> k.l.Name? && k.lv.p == k.l.p
  {
  }

  lemma SetCompiles(m: Machine, p: Ptr, e: Syn, b: Builder)
    ensures Compile(m, Erase(Set(p, e)), b) == AddAssignOp(Compile(m, Erase(e), Compile(m, Erase(Name(p)), b)), p)
  {
    hide AddOp, AddFun, AddVar, AddAssignOp, AddVal, AddIfElse;
  }

  lemma ApplyTopElse(m: Machine, store: Store, k: Ctx, e: Syn, v: ValTok, b: Builder, y: Yard) returns (v1: ValTok)
    requires k.InElse? && HoldsWith(m, k, e, v, b, y) && ApplyTop(m, store, y).Some?
    ensures HoldsWith(m, k.k, Plug(k, e), v1, b, ApplyTop(m, store, y).value)
  {
    hide Compile, Erase, ApplyTop, AddIfElse, IsNonZero, Built, Ops, Vals;
    ElseContext(m, k, e, b);
    TopOfConcat(Ops(k.k) + [TIf], [TElse]);
    TopOfConcat(Ops(k.k), [TIf]);
    AppliedElse(m, store, y);
    v1 := if IsNonZero(k.cv, store) then k.av else v;
    ThreeLast(Vals(k.k), k.cv, k.av, v);
  }

  lemma ElseContext(m: Machine, k: Ctx, e: Syn, b: Builder)
    requires k.InElse?
    ensures Ops(k) == Ops(k.k) + [TIf] + [TElse] && Vals(k) == Vals(k.k) + [k.cv] + [k.av]
    ensures Compile(m, Erase(Plug(k, e)), Built(m, k.k, b)) ==
            AddIfElse(Compile(m, Erase(e), Built(m, k, b)), EndIf)
  {
    hide AddIfElse;
  }

  lemma ThreeLast(vals: seq<ValTok>, a: ValTok, b: ValTok, c: ValTok)
    ensures var all := vals + [a] + [b] + [c]; var n := |all|;
      n >= 3 && all[..n - 3] == vals && all[n - 3] == a && all[n - 2] == b && all[n - 1] == c
  {
  }

  lemma AppliedElse(m: Machine, store: Store, y: Yard)
    requires y.ops != [] && Top(y.ops) == TElse && ApplyTop(m, store, y).Some?
    ensures |y.vals| >= 3 && |y.ops| >= 2
    ensures var n := |y.vals|;
      ApplyTop(m, store, y).value ==
      y.(b := AddIfElse(y.b, EndIf), ops := Pop(Pop(y.ops)),
         vals := y.vals[..n - 3] + [if IsNonZero(y.vals[n - 3], store) then y.vals[n - 2] else y.vals[n - 1]])
  {
  }

  lemma TopOfContext(k: Ctx)
    ensures k.Outer? <==> Ops(k) == []
    ensures k.InParen? ==> Top(Ops(k)) == TOpen
    ensures k.AfterSign? ==> Top(Ops(k)) == SignTok(k.minus)
    ensures k.AfterOp? ==> Top(Ops(k)) == TBin(k.op)
    ensures k.AfterSet? ==> Top(Ops(k)) == TAssign
    ensures k.InThen? ==> Top(Ops(k)) == TIf
    ensures k.InElse? ==> Top(Ops(k)) == TElse
  {
  }

  lemma ApplyTopPlugs(m: Machine, store: Store, k: Ctx, e: Syn, v: ValTok, b: Builder, y: Yard) returns (v1: ValTok)
    requires FocusOK(k, e) && HoldsWith(m, k, e, v, b, y)
    requires !k.Outer? && !k.InParen? && !k.InThen?
    requires y.ops != [] && !StopsRemaining(Top(y.ops)) && ApplyTop(m, store, y).Some?
    ensures Closable(k) && FocusOK(k.k, Plug(k, e)) && Text(k.k) + Lexemes(Plug(k, e)) == Text(k) + Lexemes(e)
    ensures !k.InElse? ==> v1.VVal? && forall t :: ClosedBy(e, t) && Yields(Top(Ops(k)), t) ==> ClosedBy(Plug(k, e), t)
    ensures HoldsWith(m, k.k, Plug(k, e), v1, b, ApplyTop(m, store, y).value)
  {
    hide HoldsWith, ApplyTop, Text, Lexemes, ClosedBy, Yields, Grammatical, Admits, Under;
    match k {
      case AfterSign(_, _) => v1 := ApplyTopSign(m, store, k, e, v, b, y);
      case AfterOp(_, _, _, _) => v1 := ApplyTopOp(m, store, k, e, v, b, y);
      case AfterSet(_, _, _) => v1 := ApplyTopSet(m, store, k, e, v, b, y);
      case InElse(_, _, _, _, _) => v1 := ApplyTopElse(m, store, k, e, v, b, y);
    }
    PlugIsOK(k, e);
    PlugText(k, e);
  }

  /** The loop before an operator closes levels until the operator may be pushed. */
  lemma {:induction false} RoomPlugs(m: Machine, store: Store, k: Ctx, e: Syn, v: ValTok, b: Builder, y: Yard, t: Tok)
    returns (k1: Ctx, e1: Syn, v1: ValTok)
    requires FocusOK(k, e) && HoldsWith(m, k, e, v, b, y) && ClosedBy(e, t)
    requires MakeRoom(m, store, y, t).Some?
    ensures FocusOK(k1, e1) && HoldsWith(m, k1, e1, v1, b, MakeRoom(m, store, y, t).value)
    ensures ClosedBy(e1, t) && Blocks(Ops(k1), t)
    ensures Text(k1) + Lexemes(e1) == Text(k) + Lexemes(e)
    ensures v1.VVal? || (k1 == k && e1 == e && v1 == v)
    decreases |y.ops|
  {
    hide ApplyTop, Text, Lexemes, ClosedBy, Yields, FocusOK;
    TopOfContext(k);
    if y.ops == [] || StopsLoop(Top(y.ops)) || !Yields(Top(y.ops), t) {
      k1, e1, v1 := k, e, v;
    } else {
      var v2 := ApplyTopPlugs(m, store, k, e, v, b, y);
      k1, e1, v1 := RoomPlugs(m, store, k.k, Plug(k, e), v2, b, ApplyTop(m, store, y).value, t);
    }
  }

  /** At the end of a bracket, a branch or the formula all levels up to the next stop are closed. */
  lemma {:induction false} RemainingPlugs(m: Machine, store: Store, k: Ctx, e: Syn, v: ValTok, b: Builder, y: Yard)
    returns (k1: Ctx, e1: Syn, v1: ValTok)
    requires FocusOK(k, e) && HoldsWith(m, k, e, v, b, y)
    requires ApplyRemaining(m, store, y).Some?
    ensures FocusOK(k1, e1) && HoldsWith(m, k1, e1, v1, b, ApplyRemaining(m, store, y).value)
    ensures k1.Outer? || k1.InParen? || k1.InThen?
    ensures Text(k1) + Lexemes(e1) == Text(k) + Lexemes(e)
    decreases |y.ops|
  {
    hide ApplyTop, Text, Lexemes, ClosedBy, Yields, FocusOK;
    TopOfContext(k);
    if y.ops == [] || StopsRemaining(Top(y.ops)) {
      k1, e1, v1 := k, e, v;
    } else {
      var v2 := ApplyTopPlugs(m, store, k, e, v, b, y);
      k1, e1, v1 := RemainingPlugs(m, store, k.k, Plug(k, e), v2, b, ApplyTop(m, store, y).value);
    }
  }

  // ----- one token -----

  /** Between two tokens: an operand is due, or one has just been read. */
  datatype Zipper = Due(k: Ctx) | Full(k: Ctx, e: Syn, v: ValTok)

  predicate IsOperand(e: Syn) { e.Num? || e.Name? || e.Paren? }

  predicate Good(m: Machine, input: seq<Lexeme>, r: Reader, y: Yard, b: Builder, z: Zipper) {
    match z
    case Due(k) =>
      && CtxOK(k) && Holds(m, k, b, y)
      && WantsOperand(r.flags) && (r.flags == AFTER_SIGN <==> k.AfterSign?)
      && r.pos <= |input| && input[..r.pos] == Text(k)
    case Full(k, e, v) =>
      && FocusOK(k, e) && HoldsWith(m, k, e, v, b, y) && IsOperand(e)
      && HasOperand(r.flags) && (r.flags == AFTER_VAR ==> e.Name? && v == VVar(e.p))
      && r.pos <= |input| && input[..r.pos] == Text(k) + Lexemes(e)
  }

  lemma OneMore(input: seq<Lexeme>, p: nat, text: seq<Lexeme>, x: Lexeme)
    requires p < |input| && input[..p] == text && input[p] == x
    ensures input[..p + 1] == text + [x]
  {
  }

  lemma OperandFits(k: Ctx, e: Syn)
    requires CtxOK(k) && IsOperand(e) && Grammatical(e)
    ensures FocusOK(k, e)
  {
  }

  lemma GoodOperand(m: Machine, input: seq<Lexeme>, r: Reader, y: Yard, b: Builder, k: Ctx, r1: Reader)
    requires Good(m, input, r, y, b, Due(k)) && r.pos < |input| && r1.pos == r.pos + 1
    ensures input[r.pos].LNum? && r1.flags == AFTER_VAL ==>
      var x := input[r.pos].v;
      Good(m, input, r1, y.(vals := y.vals + [VVal(x)], b := AddVal(y.b, x), last := Some(TVal(x))), b,
           Full(k, Num(x), VVal(x)))
    ensures input[r.pos].LName? && input[r.pos].p != NULL && r1.flags == AFTER_VAR ==>
      var p := input[r.pos].p;
      Good(m, input, r1, y.(vals := y.vals + [VVar(p)], b := AddVar(y.b, p), last := Some(TVar(p))), b,
           Full(k, Name(p), VVar(p)))
  {
    hide CtxOK, Built, Ops, Vals, Text, FocusOK;
    OneMore(input, r.pos, Text(k), input[r.pos]);
    if input[r.pos].LNum? {
      OperandFits(k, Num(input[r.pos].v));
    } else if input[r.pos].LName? && input[r.pos].p != NULL {
      OperandFits(k, Name(input[r.pos].p));
    }
  }

  lemma GoodPush(m: Machine, input: seq<Lexeme>, r: Reader, y: Yard, b: Builder, k: Ctx, r1: Reader, t: Tok)
    returns (k1: Ctx)
    requires Good(m, input, r, y, b, Due(k)) && r.pos < |input| && r1.pos == r.pos + 1
    requires (t == TOpen && input[r.pos] == LOpen && r1.flags == AFTER_OPEN)
      || (t.TSign? && r.flags != AFTER_SIGN && input[r.pos].LOp? && SignOf(input[r.pos].op) == Some(t.cb)
          && r1.flags == AFTER_SIGN)
    ensures var args := if t == TOpen then y.args + [1] else y.args;
      Good(m, input, r1, PushOp(y.(args := args), t).(last := Some(t)), b, Due(k1))
  {
    OneMore(input, r.pos, Text(k), input[r.pos]);
    k1 := if t == TOpen then InParen(k) else AfterSign(k, t.cb == UnaryMinus);
    hide Grammatical, Under, ClosedBy, Yields, Compile;
  }

  lemma ClosedOperand(e: Syn, t: Tok)
    requires IsOperand(e)
    ensures ClosedBy(e, t)
  {
  }

  /** A binary operator, an assignment or a "?" after an operand. */
  function Extend(k: Ctx, e: Syn, v: ValTok, t: Tok): Ctx
    requires t.TBin? || t == TAssign || t == TIf
  {
    match t
    case TBin(op) => AfterOp(k, e, v, op)
    case TAssign => AfterSet(k, e, v)
    case _ => InThen(k, e, v)
  }

  function LexemeOf(t: Tok): Lexeme
    requires t.TBin? || t == TAssign || t == TIf
  {
    match t case TBin(op) => LOp(op) case TAssign => LAssign case _ => LQuestion
  }

  lemma ExtendIsOK(k: Ctx, e: Syn, v: ValTok, t: Tok)
    requires t.TBin? || t == TAssign || t == TIf
    requires FocusOK(k, e) && ClosedBy(e, t) && Blocks(Ops(k), t)
    requires t == TAssign ==> v.VVal? || (e.Name? && v == VVar(e.p))
    ensures CtxOK(Extend(k, e, v, t))
    ensures Text(Extend(k, e, v, t)) == Text(k) + Lexemes(e) + [LexemeOf(t)]
  {
    hide ClosedBy, Blocks, Admits, StartsWithSign, Lexemes, Text;
    ExtendText(k, e, v, t);
  }

  lemma ExtendText(k: Ctx, e: Syn, v: ValTok, t: Tok)
    requires t.TBin? || t == TAssign || t == TIf
    ensures Text(Extend(k, e, v, t)) == Text(k) + Lexemes(e) + [LexemeOf(t)]
  {
    hide Lexemes;
    Regroup(Text(k), Lexemes(e), [LexemeOf(t)]);
  }

  lemma GoodBinary(m: Machine, store: Store, input: seq<Lexeme>, r: Reader, y: Yard, b: Builder, z: Zipper,
                   r1: Reader, t: Tok)
    returns (k1: Ctx)
    requires z.Full? && Good(m, input, r, y, b, z) && r.pos < |input| && r1.pos == r.pos + 1
    requires t.TBin? || t == TAssign
    requires input[r.pos] == LexemeOf(t) && (t == TAssign ==> r.flags == AFTER_VAR)
    requires r1.flags == AFTER_OPERATOR && StepBinary(m, store, y, t).Some?
    ensures Good(m, input, r1, StepBinary(m, store, y, t).value.(last := Some(t)), b, Due(k1))
  {
    hide MakeRoom, FocusOK, CtxOK, ClosedBy, Text, Lexemes, Blocks, Compile;
    ClosedOperand(z.e, t);
    var k, e, v := RoomPlugs(m, store, z.k, z.e, z.v, b, y, t);
    ExtendIsOK(k, e, v, t);
    OneMore(input, r.pos, Text(z.k) + Lexemes(z.e), input[r.pos]);
    k1 := Extend(k, e, v, t);
  }

  lemma GoodIf(m: Machine, store: Store, input: seq<Lexeme>, r: Reader, y: Yard, b: Builder, z: Zipper, r1: Reader)
    returns (k1: Ctx)
    requires z.Full? && Good(m, input, r, y, b, z) && r.pos < |input| && r1.pos == r.pos + 1
    requires input[r.pos] == LQuestion && r1.flags == AFTER_BRANCH && StepIf(m, store, y).Some?
    ensures Good(m, input, r1, StepIf(m, store, y).value.(last := Some(TIf)), b, Due(k1))
  {
    hide MakeRoom, FocusOK, CtxOK, ClosedBy, Text, Lexemes, Blocks, Compile;
    ClosedOperand(z.e, TIf);
    var y1 := y.(args := y.args + [1], ifElse := y.ifElse + 1);
    var k, e, v := RoomPlugs(m, store, z.k, z.e, z.v, b, y1, TIf);
    ExtendIsOK(k, e, v, TIf);
    OneMore(input, r.pos, Text(z.k) + Lexemes(z.e), input[r.pos]);
    k1 := Extend(k, e, v, TIf);
  }

  lemma ElseIsOK(k: Ctx, e: Syn, v: ValTok)
    requires k.InThen? && FocusOK(k, e)
    ensures CtxOK(InElse(k.k, k.c, k.cv, e, v))
    ensures Text(InElse(k.k, k.c, k.cv, e, v)) == Text(k) + Lexemes(e) + [LColon]
  {
  }

  /** A ":" goes with the "?" on top of the stack, or the run is doomed. */
  lemma GoodElse(m: Machine, store: Store, input: seq<Lexeme>, r: Reader, y: Yard, b: Builder, z: Zipper, r1: Reader)
    returns (k1: Ctx)
    requires z.Full? && Good(m, input, r, y, b, z) && Accounted(r, y) && r.pos < |input| && r1.pos == r.pos + 1
    requires input[r.pos] == LColon && r1.flags == AFTER_BRANCH && StepElse(m, store, y).Some?
    ensures var y1 := StepElse(m, store, y).value.(last := Some(TElse));
      Good(m, input, r1, y1, b, Due(k1)) || ElseOnOpen(y1.ops)
  {
    hide ApplyRemaining, FocusOK, CtxOK, ClosedBy, Text, Lexemes, Blocks, Compile, Accounted;
    var y1 := y.(args := Pop(y.args), ifElse := y.ifElse - 1);
    var k, e, v := RemainingPlugs(m, store, z.k, z.e, z.v, b, y1);
    var u := ApplyRemaining(m, store, y1).value;
    TopOfContext(k);
    if k.InThen? {
      ElseIsOK(k, e, v);
      OneMore(input, r.pos, Text(z.k) + Lexemes(z.e), input[r.pos]);
      k1 := InElse(k.k, k.c, k.cv, e, v);
    } else if k.InParen? {
      CountAll(u.ops, TElse);
      k1 := k;
    } else {
      ColonNeedsQuestion(m, store, r, y);
      assert false;
      k1 := k;
    }
  }

  lemma ColonNeedsQuestion(m: Machine, store: Store, r: Reader, y: Yard)
    requires Accounted(r, y) && StepElse(m, store, y).Some?
    ensures ApplyRemaining(m, store, y.(args := Pop(y.args), ifElse := y.ifElse - 1)).value.ops != []
  {
    RemainingAccounts(m, store, y.(args := Pop(y.args), ifElse := y.ifElse - 1));
  }

  lemma ParenIsOK(k: Ctx, e: Syn)
    requires k.InParen? && FocusOK(k, e)
    ensures FocusOK(k.k, Paren(e))
    ensures Text(k.k) + Lexemes(Paren(e)) == Text(k) + Lexemes(e) + [LClose]
  {
    OperandFits(k.k, Paren(e));
  }

  /** A ")" closes the bracket on top of the stack, or the run is doomed. */
  lemma GoodClose(m: Machine, store: Store, input: seq<Lexeme>, r: Reader, y: Yard, b: Builder, z: Zipper, r1: Reader)
    returns (k1: Ctx, e1: Syn, v1: ValTok)
    requires z.Full? && Good(m, input, r, y, b, z) && Accounted(r, y) && r.pos < |input|
    requires r.brackets > 0 && r1 == Reader(r.pos + 1, AFTER_CLOSE, r.brackets - 1)
    requires input[r.pos] == LClose && StepClose(m, store, y).Some?
    ensures var y1 := StepClose(m, store, y).value.(last := Some(TClose));
      Good(m, input, r1, y1, b, Full(k1, e1, v1)) || Count(y1.ops, TOpen) > r1.brackets
  {
    hide ApplyRemaining, FocusOK, CtxOK, ClosedBy, Text, Lexemes, Blocks, Compile, Built;
    assert y.(args := y.args) == y;
    FlagsAreExclusive(r.flags);
    var k, e, v := RemainingPlugs(m, store, z.k, z.e, z.v, b, y);
    RemainingAccounts(m, store, y);
    var u := ApplyRemaining(m, store, y).value;
    TopOfContext(k);
    if k.InParen? {
      k1, e1, v1 := k.k, Paren(e), v;
      ParenCloses(m, input, r, r1, k, e, v, b, u, StepClose(m, store, y).value.(last := Some(TClose)));
    } else {
      k1, e1, v1 := k, e, v;
    }
  }

  lemma ParenCloses(m: Machine, input: seq<Lexeme>, r: Reader, r1: Reader, k: Ctx, e: Syn, v: ValTok, b: Builder,
                    u: Yard, y: Yard)
    requires k.InParen? && FocusOK(k, e) && HoldsWith(m, k, e, v, b, u)
    requires r.pos < |input| && input[r.pos] == LClose && input[..r.pos] == Text(k) + Lexemes(e)
    requires r1.pos == r.pos + 1 && r1.flags == AFTER_CLOSE
    requires u.ops != [] && y.ops == Pop(u.ops) && y.vals == u.vals && y.b == u.b
    ensures Good(m, input, r1, y, b, Full(k.k, Paren(e), v))
  {
    hide FocusOK, Text, Lexemes, Compile;
    ParenIsOK(k, e);
    OneMore(input, r.pos, Text(k) + Lexemes(e), input[r.pos]);
    TopOfConcat(Ops(k.k), [TOpen]);
    ParenErases(m, e, Built(m, k.k, b));
  }

  lemma ParenErases(m: Machine, e: Syn, b: Builder)
    ensures Compile(m, Erase(Paren(e)), b) == Compile(m, Erase(e), b)
  {
  }

  /** One token from a good state leads to a good state, or to a doomed one. */
  lemma GoodStep(m: Machine, store: Store, input: seq<Lexeme>, r: Reader, y: Yard, b: Builder, z: Zipper)
    returns (z1: Zipper)
    requires Good(m, input, r, y, b, z) && Accounted(r, y) && NamesDefined(input)
    requires ReadToken(input, r).Read? && ReadToken(input, r).tok != TEnd
    requires StepToken(m, store, y, ReadToken(input, r).tok).Some?
    ensures var t, r1 := ReadToken(input, r).tok, ReadToken(input, r).next;
      var y1 := StepToken(m, store, y, t).value.(last := Some(t));
      Good(m, input, r1, y1, b, z1) || Doomed(r1, y1)
  {
    hide Good, Accounted, StepBinary, StepIf, StepElse, StepClose;
    GoodFlags(m, input, r, y, b, z);
    TokenFits(input, r);
    FlagsAreExclusive(r.flags);
    var t, r1 := ReadToken(input, r).tok, ReadToken(input, r).next;
    hide ReadToken;
    z1 := z;
    match t {
      case TVal(x) => GoodOperand(m, input, r, y, b, z.k, r1); z1 := Full(z.k, Num(x), VVal(x));
      case TVar(p) => GoodOperand(m, input, r, y, b, z.k, r1); z1 := Full(z.k, Name(p), VVar(p));
      case TBin(_) => var k1 := GoodBinary(m, store, input, r, y, b, z, r1, t); z1 := Due(k1);
      case TAssign => var k1 := GoodBinary(m, store, input, r, y, b, z, r1, t); z1 := Due(k1);
      case TSign(_) => var k1 := GoodPush(m, input, r, y, b, z.k, r1, t); z1 := Due(k1);
      case TOpen => var k1 := GoodPush(m, input, r, y, b, z.k, r1, t); z1 := Due(k1);
      case TClose => var k1, e1, v1 := GoodClose(m, store, input, r, y, b, z, r1); z1 := Full(k1, e1, v1);
      case TIf =>
        if z.Full? { var k1 := GoodIf(m, store, input, r, y, b, z, r1); z1 := Due(k1); }
        else { IfKeeps(m, store, r, y, r1); }
      case TElse =>
        if z.Full? { var k1 := GoodElse(m, store, input, r, y, b, z, r1); z1 := Due(k1); }
        else { ElseKeeps(m, store, r, y, r1); }
    }
  }

  lemma GoodFlags(m: Machine, input: seq<Lexeme>, r: Reader, y: Yard, b: Builder, z: Zipper)
    requires Good(m, input, r, y, b, z)
    ensures if z.Due? then WantsOperand(r.flags) else HasOperand(r.flags)
  {
  }

  predicate NamesDefined(input: seq<Lexeme>) {
    forall i :: 0 <= i < |input| && input[i].LName? ==> input[i].p != NULL
  }

  /** What acceptance of a formula means: it spells a grammatical tree, whose code has been emitted. */
  predicate Parses(m: Machine, input: seq<Lexeme>, b: Builder, res: Yard, e: Syn) {
    && Grammatical(e) && Lexemes(e) == input
    && res.b == Compile(m, Erase(e), b).(code := Finalize(Compile(m, Erase(e), b).code))
    && res.ops == [] && |res.vals| == 1 && res.args == [1]
  }

  lemma GoodEnd(m: Machine, store: Store, input: seq<Lexeme>, r: Reader, y: Yard, b: Builder,
                z: Zipper) returns (e: Syn)
    requires Good(m, input, r, y, b, z) && Accounted(r, y)
    requires r.pos >= |input| && r.brackets == 0
    requires StepEnd(m, store, y).Some? && Finished(StepEnd(m, store, y).value)
    ensures Parses(m, input, b, StepEnd(m, store, y).value, e)
  {
    hide ApplyRemaining, FocusOK, CtxOK, ClosedBy, Text, Lexemes, Blocks, Compile, Accounted, Doomed, Finalize;
    AcceptedIsClean(m, store, r, y);
    GoodFlags(m, input, r, y, b, z);
    FlagsAreExclusive(r.flags);
    var k, v;
    k, e, v := RemainingPlugs(m, store, z.k, z.e, z.v, b, y);
    TopOfContext(k);
    OuterContext(m, k, b, e);
    assert input[..|input|] == input;
  }

  lemma OuterContext(m: Machine, k: Ctx, b: Builder, e: Syn)
    requires k.Outer?
    ensures Text(k) + Lexemes(e) == Lexemes(e) && Built(m, k, b) == b
    ensures FocusOK(k, e) ==> Grammatical(e)
  {
  }

  lemma {:induction false} SoundFrom(m: Machine, store: Store, input: seq<Lexeme>, r: Reader, y: Yard, b: Builder,
                                     z: Zipper)
    returns (e: Syn)
    requires Good(m, input, r, y, b, z) && Accounted(r, y) && NamesDefined(input)
    requires ParseFrom(m, store, input, r, y).Some? && Finished(ParseFrom(m, store, input, r, y).value)
    ensures Parses(m, input, b, ParseFrom(m, store, input, r, y).value, e)
    decreases |input| - r.pos
  {
    hide Good, Accounted, ReadToken, StepToken, Finished, Parses, Doomed;
    ParseFromUnrolls(m, store, input, r, y);
    ReadAdvances(input, r);
    var rd := ReadToken(input, r);
    var y1 := StepToken(m, store, y, rd.tok).value.(last := Some(rd.tok));
    if rd.tok == TEnd {
      e := SoundEnd(m, store, input, r, y, b, z);
    } else {
      StepKeepsAccount(m, store, input, r, y);
      var z1 := GoodStep(m, store, input, r, y, b, z);
      if Doomed(rd.next, y1) {
        DoomedIsRejected(m, store, input, rd.next, y1);
        assert false;
        e := Num(0.0);
      } else {
        e := SoundFrom(m, store, input, rd.next, y1, b, z1);
      }
    }
  }

  lemma SoundEnd(m: Machine, store: Store, input: seq<Lexeme>, r: Reader, y: Yard, b: Builder,
                 z: Zipper) returns (e: Syn)
    requires Good(m, input, r, y, b, z) && Accounted(r, y)
    requires ReadToken(input, r).Read? && ReadToken(input, r).tok == TEnd
    requires StepToken(m, store, y, TEnd).Some? && Finished(StepToken(m, store, y, TEnd).value.(last := Some(TEnd)))
    ensures Parses(m, input, b, StepToken(m, store, y, TEnd).value.(last := Some(TEnd)), e)
  {
    hide Good, StepEnd;
    TokenFits(input, r);
    e := GoodEnd(m, store, input, r, y, b, z);
  }

  /** Acceptance soundness: an accepted formula is the spelling of a grammatical tree; the operator
      stack is empty, one value is left, and the code is the finished code of that tree. */
  lemma ParserSound(m: Machine, store: Store, input: seq<Lexeme>, opt: bool) returns (e: Syn)
    requires NamesDefined(input)
    requires CreateRPN(m, store, input, opt).Some?
    ensures Parses(m, input, Builder([], 0, 0, opt), CreateRPN(m, store, input, opt).value, e)
  {
    hide ParseFrom, Parses;
    var r, y := Reader(0, START_OF_LINE, 0), Start(opt);
    assert Good(m, input, r, y, y.b, Due(Outer)) && Accounted(r, y) by { FlagsAreExclusive(START_OF_LINE); }
    e := SoundFrom(m, store, input, r, y, y.b, Due(Outer));
  }
}
