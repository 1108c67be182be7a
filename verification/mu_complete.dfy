/** Completeness of the parser: every grammatical tree is parsed back from its spelling, and the
    calls made to the builder on the way are exactly those of `Compile`. */
module MuComplete {
  import opened MuBuilder
  import opened MuCode
  import opened MuExpr
  import opened MuParser
  import opened MuReader
  import opened MuSyntax
  import opened Wrappers

  predicate Spells(input: seq<Lexeme>, p: nat, word: seq<Lexeme>) {
    p + |word| <= |input| && input[p..p + |word|] == word
  }

  lemma SpellsSplit(input: seq<Lexeme>, p: nat, u: seq<Lexeme>, v: seq<Lexeme>)
    requires Spells(input, p, u + v)
    ensures Spells(input, p, u) && Spells(input, p + |u|, v)
  {
    var n := |u + v|;
    assert input[p..p + n][..|u|] == input[p..p + |u|];
    assert input[p..p + n][|u|..] == input[p + |u|..p + n];
    assert (u + v)[..|u|] == u && (u + v)[|u|..] == v;
  }

  lemma SpellsOne(input: seq<Lexeme>, p: nat, x: Lexeme)
    requires Spells(input, p, [x])
    ensures p < |input| && input[p] == x
  {
    assert input[p] == input[p..p + 1][0];
  }

  /** One round of the main loop, as an equation between the two parses. */
  lemma Advance(m: Machine, store: Store, input: seq<Lexeme>, r: Reader, y: Yard, t: Tok, r1: Reader, z: Yard)
    requires ReadToken(input, r) == Read(t, r1) && t != TEnd
    requires Remember(StepToken(m, store, y, t), t) == Some(z)
    ensures ParseFrom(m, store, input, r, y) == ParseFrom(m, store, input, r1, z)
  {
    ParseFromUnrolls(m, store, input, r, y);
  }

  /** The parse from r has read all of `e` and goes on from z, after an operand. */
  ghost predicate Reads(m: Machine, store: Store, input: seq<Lexeme>, r: Reader, y: Yard, e: Syn, z: Yard, f: Flags,
                        v: ValTok) {
    && HasOperand(f)
    && z.ops == y.ops + RightSpine(e)
    && z.args == y.args && z.ifElse == y.ifElse && z.last.Some? && z.last != Some(TOpen)
    && Unwind(m, store, z, e) == Some(Reduced(m, y, z, e, v))
    && ParseFrom(m, store, input, r, y) == ParseFrom(m, store, input, Reader(r.pos + |Lexemes(e)|, f, r.brackets), z)
  }

  predicate Ready(input: seq<Lexeme>, r: Reader, y: Yard, e: Syn) {
    && Grammatical(e) && Spells(input, r.pos, Lexemes(e))
    && WantsOperand(r.flags) && (r.flags == AFTER_SIGN ==> !StartsWithSign(e))
    && Admits(y.ops, e) && y.ifElse >= 0
  }

  lemma {:induction false} ReadsTree(m: Machine, store: Store, input: seq<Lexeme>, r: Reader, y: Yard, e: Syn)
    returns (z: Yard, f: Flags, v: ValTok)
    requires Ready(input, r, y, e)
    ensures Reads(m, store, input, r, y, e, z, f, v)
    decreases e, 2
  {
    match e
    case Num(x) =>
      z, f, v := ReadsNumber(m, store, input, r, y, x);
    case Name(p) =>
      z, f, v := ReadsName(m, store, input, r, y, p);
    case Paren(e1) =>
      z, f, v := ReadsParen(m, store, input, r, y, e1);
    case Signed(minus, e1) =>
      z, f, v := ReadsSigned(m, store, input, r, y, minus, e1);
    case Infix(op, e1, e2) =>
      z, f, v := ReadsInfix(m, store, input, r, y, op, e1, e2);
    case Set(p, e1) =>
      z, f, v := ReadsSet(m, store, input, r, y, p, e1);
    case Ternary(c, a, b) =>
      z, f, v := ReadsTernary(m, store, input, r, y, c, a, b);
  }

  lemma ReadsNumber(m: Machine, store: Store, input: seq<Lexeme>, r: Reader, y: Yard, x: real)
    returns (z: Yard, f: Flags, v: ValTok)
    requires Ready(input, r, y, Num(x))
    ensures Reads(m, store, input, r, y, Num(x), z, f, v)
  {
    hide ParseFrom;
    SpellsOne(input, r.pos, LNum(x));
    WantsOperandPermits(r.flags);
    v, f := VVal(x), AFTER_VAL;
    z := y.(vals := y.vals + [v], b := AddVal(y.b, x), last := Some(TVal(x)));
    Advance(m, store, input, r, y, TVal(x), Reader(r.pos + 1, f, r.brackets), z);
  }

  lemma ReadsName(m: Machine, store: Store, input: seq<Lexeme>, r: Reader, y: Yard, p: Ptr)
    returns (z: Yard, f: Flags, v: ValTok)
    requires Ready(input, r, y, Name(p))
    ensures Reads(m, store, input, r, y, Name(p), z, f, v) && f == AFTER_VAR && v == VVar(p)
    ensures z == y.(vals := y.vals + [v], b := AddVar(y.b, p), last := Some(TVar(p)))
  {
    hide ParseFrom;
    SpellsOne(input, r.pos, LName(p));
    WantsOperandPermits(r.flags);
    v, f := VVar(p), AFTER_VAR;
    z := y.(vals := y.vals + [v], b := AddVar(y.b, p), last := Some(TVar(p)));
    Advance(m, store, input, r, y, TVar(p), Reader(r.pos + 1, f, r.brackets), z);
  }

  // ----- brackets -----

  lemma StepCloseAfter(m: Machine, store: Store, y: Yard, z: Yard, e: Syn, v: ValTok)
    requires y.ops != [] && Top(y.ops) == TOpen && y.args != [] && Top(y.args) == 1
    requires z.ops == y.ops + RightSpine(e) && z.args == y.args && z.last.Some? && z.last != Some(TOpen)
    requires Unwind(m, store, z, e) == Some(Reduced(m, y, z, e, v))
    ensures StepClose(m, store, z) == Some(Reduced(m, y, z, e, v).(args := Pop(y.args), ops := Pop(y.ops)))
  {
    hide Unwind, RightSpine, ApplyRemaining, Compile;
    RemainingAfter(m, store, z, y.ops, e);
    RemainingStops(m, store, Reduced(m, y, z, e, v));
  }

  /** The yard after `(`. */
  function OpenYard(y: Yard): Yard { y.(args := y.args + [1], ops := y.ops + [TOpen], last := Some(TOpen)) }

  lemma ParenReady(input: seq<Lexeme>, r: Reader, y: Yard, e: Syn)
    requires Ready(input, r, y, Paren(e))
    ensures Ready(input, Reader(r.pos + 1, AFTER_OPEN, r.brackets + 1), OpenYard(y), e)
    ensures r.pos < |input| && input[r.pos] == LOpen && WantsOperand(r.flags)
    ensures var n := |Lexemes(e)|;
      r.pos + 1 + n < |input| && input[r.pos + 1 + n] == LClose && |Lexemes(Paren(e))| == n + 2
  {
    var n := |Lexemes(e)|;
    SpellsSplit(input, r.pos, [LOpen] + Lexemes(e), [LClose]);
    SpellsSplit(input, r.pos, [LOpen], Lexemes(e));
    SpellsOne(input, r.pos, LOpen);
    SpellsOne(input, r.pos + 1 + n, LClose);
  }

  lemma OpenStep(m: Machine, store: Store, input: seq<Lexeme>, r: Reader, y: Yard)
    requires r.pos < |input| && input[r.pos] == LOpen && WantsOperand(r.flags)
    ensures ParseFrom(m, store, input, r, y) ==
            ParseFrom(m, store, input, Reader(r.pos + 1, AFTER_OPEN, r.brackets + 1), OpenYard(y))
  {
    hide ParseFrom;
    WantsOperandPermits(r.flags);
    Advance(m, store, input, r, y, TOpen, Reader(r.pos + 1, AFTER_OPEN, r.brackets + 1), OpenYard(y));
  }

  lemma CloseStep(m: Machine, store: Store, input: seq<Lexeme>, r: Reader, y: Yard, z: Yard, e: Syn, v: ValTok)
    returns (u: Yard)
    requires r.pos < |input| && input[r.pos] == LClose && HasOperand(r.flags) && r.brackets > 0
    requires z.ops == OpenYard(y).ops + RightSpine(e) && z.args == OpenYard(y).args && z.ifElse == y.ifElse
    requires z.last.Some? && z.last != Some(TOpen)
    requires Unwind(m, store, z, e) == Some(Reduced(m, OpenYard(y), z, e, v))
    ensures ParseFrom(m, store, input, r, z) ==
            ParseFrom(m, store, input, Reader(r.pos + 1, AFTER_CLOSE, r.brackets - 1), u)
    ensures u == Yard(Compile(m, Erase(e), y.b), y.ops, y.vals + [v], y.args, y.ifElse, Some(TClose))
  {
    hide ParseFrom, Compile, StepClose, Unwind, RightSpine;
    HasOperandPermits(r.flags);
    StepCloseAfter(m, store, OpenYard(y), z, e, v);
    u := Yard(Compile(m, Erase(e), y.b), y.ops, y.vals + [v], y.args, y.ifElse, Some(TClose));
    Advance(m, store, input, r, z, TClose, Reader(r.pos + 1, AFTER_CLOSE, r.brackets - 1), u);
  }

  lemma {:induction false} ReadsParen(m: Machine, store: Store, input: seq<Lexeme>, r: Reader, y: Yard, e: Syn)
    returns (z: Yard, f: Flags, v: ValTok)
    requires Ready(input, r, y, Paren(e))
    ensures Reads(m, store, input, r, y, Paren(e), z, f, v)
    decreases Paren(e), 0
  {
    hide ParseFrom, Compile, Spells, Lexemes, Grammatical, Admits, StartsWithSign, Ready, Yields, ClosedBy;
    var n := |Lexemes(e)|;
    ParenReady(input, r, y, e);
    OpenStep(m, store, input, r, y);
    var z1, f1;
    z1, f1, v := ReadsTree(m, store, input, Reader(r.pos + 1, AFTER_OPEN, r.brackets + 1), OpenYard(y), e);
    z := CloseStep(m, store, input, Reader(r.pos + 1 + n, f1, r.brackets + 1), y, z1, e, v);
    f := AFTER_CLOSE;
  }

  // ----- signs -----

  lemma UnwindSigned(m: Machine, store: Store, y: Yard, z: Yard, minus: bool, e: Syn, v: ValTok)
    requires var y1 := y.(ops := y.ops + [SignTok(minus)], last := Some(SignTok(minus)));
      Unwind(m, store, z, e) == Some(Reduced(m, y1, z, e, v))
    ensures Unwind(m, store, z, Signed(minus, e)) == Some(Reduced(m, y, z, Signed(minus, e), VVal(1.0)))
  {
    hide Unwind, Compile, AddFun;
    UnwindSignedStep(m, store, z, minus, e);
    TopOfConcat(y.ops, [SignTok(minus)]);
    SignedCode(m, SignTok(minus).cb, Erase(e), y.b);
    assert Pop(y.vals + [v]) == y.vals;
  }

  lemma UnwindSignedStep(m: Machine, store: Store, z: Yard, minus: bool, e: Syn)
    ensures Unwind(m, store, z, Signed(minus, e)) == ApplyPending(m, store, Unwind(m, store, z, e))
  {
  }

  /** The yard after a sign. */
  function SignYard(y: Yard, minus: bool): Yard {
    y.(ops := y.ops + [SignTok(minus)], last := Some(SignTok(minus)))
  }

  lemma SignReady(input: seq<Lexeme>, r: Reader, y: Yard, minus: bool, e: Syn)
    requires Ready(input, r, y, Signed(minus, e))
    ensures Ready(input, Reader(r.pos + 1, AFTER_SIGN, r.brackets), SignYard(y, minus), e)
    ensures r.pos < |input| && input[r.pos] == SignLexeme(minus) && WantsOperand(r.flags) && r.flags != AFTER_SIGN
    ensures |Lexemes(Signed(minus, e))| == 1 + |Lexemes(e)|
  {
    SpellsSplit(input, r.pos, [SignLexeme(minus)], Lexemes(e));
    SpellsOne(input, r.pos, SignLexeme(minus));
  }

  lemma SignStep(m: Machine, store: Store, input: seq<Lexeme>, r: Reader, y: Yard, minus: bool)
    requires r.pos < |input| && input[r.pos] == SignLexeme(minus) && WantsOperand(r.flags) && r.flags != AFTER_SIGN
    ensures ParseFrom(m, store, input, r, y) ==
            ParseFrom(m, store, input, Reader(r.pos + 1, AFTER_SIGN, r.brackets), SignYard(y, minus))
  {
    hide ParseFrom;
    WantsOperandPermits(r.flags);
    Advance(m, store, input, r, y, SignTok(minus), Reader(r.pos + 1, AFTER_SIGN, r.brackets), SignYard(y, minus));
  }

  lemma {:induction false} ReadsSigned(m: Machine, store: Store, input: seq<Lexeme>, r: Reader, y: Yard, minus: bool,
                                       e: Syn)
    returns (z: Yard, f: Flags, v: ValTok)
    requires Ready(input, r, y, Signed(minus, e))
    ensures Reads(m, store, input, r, y, Signed(minus, e), z, f, v)
    decreases Signed(minus, e), 0
  {
    hide ParseFrom, Compile, Unwind, Spells, Lexemes, Grammatical, Admits, StartsWithSign, SignTok, SignLexeme;
    SignReady(input, r, y, minus, e);
    SignStep(m, store, input, r, y, minus);
    var v1;
    z, f, v1 := ReadsTree(m, store, input, Reader(r.pos + 1, AFTER_SIGN, r.brackets), SignYard(y, minus), e);
    UnwindSigned(m, store, y, z, minus, e, v1);
    v := VVal(1.0);
    assert y.ops + [SignTok(minus)] + RightSpine(e) == y.ops + ([SignTok(minus)] + RightSpine(e));
  }

  // ----- binary operators -----

  lemma StepBinaryAfter(m: Machine, store: Store, y: Yard, z: Yard, e: Syn, v: ValTok, t: Tok)
    requires z.ops == y.ops + RightSpine(e) && ClosedBy(e, t) && Blocks(y.ops, t)
    requires Unwind(m, store, z, e) == Some(Reduced(m, y, z, e, v))
    ensures StepBinary(m, store, z, t) == Some(PushOp(Reduced(m, y, z, e, v), t))
  {
    hide Unwind, RightSpine, MakeRoom, Blocks, ClosedBy, Yields;
    RoomAfter(m, store, z, y.ops, e, t);
    RoomStops(m, store, Reduced(m, y, z, e, v), t);
  }

  lemma UnwindInfix(m: Machine, store: Store, y: Yard, y2: Yard, z: Yard, op: Op, l: Syn, r: Syn, v1: ValTok,
                    v2: ValTok)
    requires y2.b == Compile(m, Erase(l), y.b) && y2.ops == y.ops + [TBin(op)] && y2.vals == y.vals + [v1]
    requires y2.args == y.args && y2.ifElse == y.ifElse
    requires Unwind(m, store, z, r) == Some(Reduced(m, y2, z, r, v2))
    ensures Unwind(m, store, z, Infix(op, l, r)) == Some(Reduced(m, y, z, Infix(op, l, r), VVal(1.0)))
  {
    hide Unwind, AddOp;
    UnwindInfixStep(m, store, z, op, l, r);
    TopOfConcat(y.ops, [TBin(op)]);
    assert Pop(y2.vals + [v2]) == y2.vals && Pop(y2.vals) == y.vals;
  }

  lemma UnwindInfixStep(m: Machine, store: Store, z: Yard, op: Op, l: Syn, r: Syn)
    ensures Unwind(m, store, z, Infix(op, l, r)) == ApplyPending(m, store, Unwind(m, store, z, r))
  {
  }

  lemma InfixReady(input: seq<Lexeme>, r: Reader, y: Yard, op: Op, e1: Syn, e2: Syn)
    requires Ready(input, r, y, Infix(op, e1, e2))
    ensures var n1, n2 := |Lexemes(e1)|, |Lexemes(e2)|;
      && Ready(input, r, y, e1) && ClosedBy(e1, TBin(op)) && Blocks(y.ops, TBin(op))
      && r.pos + n1 < |input| && input[r.pos + n1] == LOp(op)
      && Grammatical(e2) && Spells(input, r.pos + n1 + 1, Lexemes(e2)) && Under(e2, TBin(op))
      && |Lexemes(Infix(op, e1, e2))| == n1 + 1 + n2
    ensures RightSpine(Infix(op, e1, e2)) == [TBin(op)] + RightSpine(e2)
  {
    SpellsSplit(input, r.pos, Lexemes(e1) + [LOp(op)], Lexemes(e2));
    SpellsSplit(input, r.pos, Lexemes(e1), [LOp(op)]);
    SpellsOne(input, r.pos + |Lexemes(e1)|, LOp(op));
  }

  lemma {:induction false} ReadsInfix(m: Machine, store: Store, input: seq<Lexeme>, r: Reader, y: Yard, op: Op,
                                      e1: Syn, e2: Syn)
    returns (z: Yard, f: Flags, v: ValTok)
    requires Ready(input, r, y, Infix(op, e1, e2))
    ensures Reads(m, store, input, r, y, Infix(op, e1, e2), z, f, v)
    decreases Infix(op, e1, e2), 0
  {
    hide ParseFrom, Compile, Unwind, StepBinary, Lexemes, Grammatical, Spells, ClosedBy, Under, Yields,
         StartsWithSign, RightSpine;
    var t := TBin(op);
    var n1 := |Lexemes(e1)|;
    InfixReady(input, r, y, op, e1, e2);
    var z1, f1, v1 := ReadsTree(m, store, input, r, y, e1);
    HasOperandPermits(f1);
    StepBinaryAfter(m, store, y, z1, e1, v1, t);
    var r2 := Reader(r.pos + n1 + 1, AFTER_OPERATOR, r.brackets);
    var y2 := PushOp(Reduced(m, y, z1, e1, v1), t).(last := Some(t));
    Advance(m, store, input, Reader(r.pos + n1, f1, r.brackets), z1, t, r2, y2);
    TopOfConcat(y.ops, [t]);
    var v2;
    z, f, v2 := ReadsTree(m, store, input, r2, y2, e2);
    UnwindInfix(m, store, y, y2, z, op, e1, e2, v1, v2);
    v := VVal(1.0);
    assert y.ops + [t] + RightSpine(e2) == y.ops + ([t] + RightSpine(e2));
  }

  // ----- assignment -----

  lemma UnwindSet(m: Machine, store: Store, y: Yard, y2: Yard, z: Yard, p: Ptr, e: Syn, v: ValTok)
    requires y2.b == AddVar(y.b, p) && y2.ops == y.ops + [TAssign] && y2.vals == y.vals + [VVar(p)]
    requires y2.args == y.args && y2.ifElse == y.ifElse
    requires Unwind(m, store, z, e) == Some(Reduced(m, y2, z, e, v))
    ensures Unwind(m, store, z, Set(p, e)) == Some(Reduced(m, y, z, Set(p, e), VVal(1.0)))
  {
    hide Unwind;
    UnwindSetStep(m, store, z, p, e);
    TopOfConcat(y.ops, [TAssign]);
    assert Pop(y2.vals + [v]) == y2.vals && Pop(y2.vals) == y.vals;
  }

  lemma UnwindSetStep(m: Machine, store: Store, z: Yard, p: Ptr, e: Syn)
    ensures Unwind(m, store, z, Set(p, e)) == ApplyPending(m, store, Unwind(m, store, z, e))
  {
  }

  lemma SetReady(input: seq<Lexeme>, r: Reader, y: Yard, p: Ptr, e: Syn)
    requires Ready(input, r, y, Set(p, e))
    ensures Ready(input, r, y, Name(p)) && Blocks(y.ops, TAssign)
    ensures r.pos + 1 < |input| && input[r.pos + 1] == LAssign
    ensures Grammatical(e) && Spells(input, r.pos + 2, Lexemes(e)) && Under(e, TAssign)
    ensures |Lexemes(Set(p, e))| == 2 + |Lexemes(e)| && |Lexemes(Name(p))| == 1
    ensures RightSpine(Set(p, e)) == [TAssign] + RightSpine(e) && RightSpine(Name(p)) == []
  {
    SpellsSplit(input, r.pos, [LName(p), LAssign], Lexemes(e));
    assert [LName(p), LAssign] == [LName(p)] + [LAssign];
    SpellsSplit(input, r.pos, [LName(p)], [LAssign]);
    SpellsOne(input, r.pos + 1, LAssign);
  }

  lemma AssignStep(m: Machine, store: Store, input: seq<Lexeme>, r: Reader, z: Yard, r2: Reader, y2: Yard)
    requires r.flags == AFTER_VAR && Blocks(z.ops, TAssign)
    requires r.pos < |input| && input[r.pos] == LAssign
    requires r2 == Reader(r.pos + 1, AFTER_OPERATOR, r.brackets)
    requires y2 == PushOp(z, TAssign).(last := Some(TAssign))
    ensures ParseFrom(m, store, input, r, z) == ParseFrom(m, store, input, r2, y2)
  {
    hide ParseFrom, StepBinary;
    HasOperandPermits(r.flags);
    StepBinaryPlain(m, store, z, TAssign);
    Advance(m, store, input, r, z, TAssign, r2, y2);
  }

  lemma {:induction false} ReadsSet(m: Machine, store: Store, input: seq<Lexeme>, r: Reader, y: Yard, p: Ptr, e: Syn)
    returns (z: Yard, f: Flags, v: ValTok)
    requires Ready(input, r, y, Set(p, e))
    ensures Reads(m, store, input, r, y, Set(p, e), z, f, v)
    decreases Set(p, e), 0
  {
    hide ParseFrom, Compile, Unwind, StepBinary, Lexemes, Grammatical, Spells, ClosedBy, Under, Yields,
         StartsWithSign, RightSpine;
    SetReady(input, r, y, p, e);
    var z1, f1, v1 := ReadsName(m, store, input, r, y, p);
    var r2 := Reader(r.pos + 2, AFTER_OPERATOR, r.brackets);
    var y2 := PushOp(z1, TAssign).(last := Some(TAssign));
    AssignStep(m, store, input, Reader(r.pos + 1, f1, r.brackets), z1, r2, y2);
    TopOfConcat(y.ops, [TAssign]);
    var v2;
    z, f, v2 := ReadsTree(m, store, input, r2, y2, e);
    UnwindSet(m, store, y, y2, z, p, e, v2);
    v := VVal(1.0);
    assert y.ops + [TAssign] + RightSpine(e) == y.ops + ([TAssign] + RightSpine(e));
  }

  lemma StepBinaryPlain(m: Machine, store: Store, y: Yard, t: Tok)
    requires Blocks(y.ops, t)
    ensures StepBinary(m, store, y, t) == Some(PushOp(y, t))
  {
  }

  // ----- ?: -----

  lemma StepIfAfter(m: Machine, store: Store, y: Yard, z: Yard, e: Syn, v: ValTok)
    requires z.ops == y.ops + RightSpine(e) && ClosedBy(e, TIf) && Blocks(y.ops, TIf)
    requires z.args == y.args && z.ifElse == y.ifElse
    requires Unwind(m, store, z, e) == Some(Reduced(m, y, z, e, v))
    ensures var u := Reduced(m, y, z, e, v);
      StepIf(m, store, z) ==
      Some(PushOp(u.(b := AddIfElse(u.b, If(0)), args := y.args + [1], ifElse := y.ifElse + 1), TIf))
  {
    hide Unwind, RightSpine, ClosedBy, Yields, Compile, MakeRoom, Blocks, AddIfElse;
    var z1 := z.(args := z.args + [1], ifElse := z.ifElse + 1);
    UnwindIgnoresCounters(m, store, z, e, z.args + [1], z.ifElse + 1);
    RoomAfter(m, store, z1, y.ops, e, TIf);
    RoomStops(m, store, Unwind(m, store, z1, e).value, TIf);
  }

  lemma RoomStops(m: Machine, store: Store, y: Yard, t: Tok)
    requires Blocks(y.ops, t)
    ensures MakeRoom(m, store, y, t) == Some(y)
  {
  }

  lemma StepElseAfter(m: Machine, store: Store, y: Yard, z: Yard, e: Syn, v: ValTok)
    requires y.ops != [] && Top(y.ops) == TIf && y.args != [] && Top(y.args) == 1 && y.ifElse >= 1
    requires z.ops == y.ops + RightSpine(e) && z.args == y.args && z.ifElse == y.ifElse
    requires Unwind(m, store, z, e) == Some(Reduced(m, y, z, e, v))
    ensures var u := Reduced(m, y, z, e, v);
      StepElse(m, store, z) ==
      Some(PushOp(u.(b := AddIfElse(u.b, Else(0)), args := Pop(y.args), ifElse := y.ifElse - 1), TElse))
  {
    hide Unwind, RightSpine, Compile, ApplyRemaining, AddIfElse;
    var z1 := z.(args := Pop(z.args), ifElse := z.ifElse - 1);
    UnwindIgnoresCounters(m, store, z, e, Pop(z.args), z.ifElse - 1);
    RemainingAfter(m, store, z1, y.ops, e);
    RemainingStops(m, store, Unwind(m, store, z1, e).value);
  }

  lemma RemainingStops(m: Machine, store: Store, y: Yard)
    requires y.ops == [] || StopsRemaining(Top(y.ops))
    ensures ApplyRemaining(m, store, y) == Some(y)
  {
  }

  lemma ApplyTopIgnoresCounters(m: Machine, store: Store, z: Yard, args: seq<int>, ifElse: int)
    requires z.ops != [] && !StopsRemaining(Top(z.ops))
    ensures ApplyTop(m, store, z.(args := args, ifElse := ifElse)) ==
      match ApplyTop(m, store, z) case None => None case Some(u) => Some(u.(args := args, ifElse := ifElse))
  {
    hide AddOp, AddFun;
  }

  lemma {:induction false} UnwindIgnoresCounters(m: Machine, store: Store, z: Yard, e: Syn, args: seq<int>, ifElse: int)
    ensures Unwind(m, store, z.(args := args, ifElse := ifElse), e) ==
      match Unwind(m, store, z, e) case None => None case Some(u) => Some(u.(args := args, ifElse := ifElse))
    decreases e, 0
  {
    hide ApplyTop;
    match e
    case Num(_) =>
    case Name(_) =>
    case Paren(_) =>
    case Signed(_, e1) => PendingIgnoresCounters(m, store, z, e1, args, ifElse);
    case Infix(_, _, r) => PendingIgnoresCounters(m, store, z, r, args, ifElse);
    case Set(_, e1) => PendingIgnoresCounters(m, store, z, e1, args, ifElse);
    case Ternary(_, _, b) => PendingIgnoresCounters(m, store, z, b, args, ifElse);
  }

  lemma {:induction false} PendingIgnoresCounters(m: Machine, store: Store, z: Yard, e: Syn, args: seq<int>,
                                                  ifElse: int)
    ensures ApplyPending(m, store, Unwind(m, store, z.(args := args, ifElse := ifElse), e)) ==
      match ApplyPending(m, store, Unwind(m, store, z, e))
      case None => None
      case Some(u) => Some(u.(args := args, ifElse := ifElse))
    decreases e, 1
  {
    hide ApplyTop;
    UnwindIgnoresCounters(m, store, z, e, args, ifElse);
    var u := Unwind(m, store, z, e);
    if u.Some? && u.value.ops != [] && !StopsRemaining(Top(u.value.ops)) {
      ApplyTopIgnoresCounters(m, store, u.value, args, ifElse);
    }
  }

  lemma UnwindTernary(m: Machine, store: Store, y: Yard, y4: Yard, z: Yard, c: Syn, a: Syn, b: Syn, v1: ValTok,
                      v2: ValTok, v3: ValTok)
    returns (v: ValTok)
    requires y4.b == AddIfElse(Compile(m, Erase(a), AddIfElse(Compile(m, Erase(c), y.b), If(0))), Else(0))
    requires y4.ops == y.ops + [TIf] + [TElse] && y4.vals == y.vals + [v1] + [v2]
    requires y4.args == y.args && y4.ifElse == y.ifElse
    requires Unwind(m, store, z, b) == Some(Reduced(m, y4, z, b, v3))
    ensures Unwind(m, store, z, Ternary(c, a, b)) == Some(Reduced(m, y, z, Ternary(c, a, b), v))
  {
    hide Unwind, ApplyPending, AddIfElse, IsNonZero;
    UnwindTernaryStep(m, store, z, c, a, b);
    PendingElse(m, store, Reduced(m, y4, z, b, v3));
    v := if IsNonZero(v1, store) then v2 else v3;
    TopOfConcat(y.ops + [TIf], [TElse]);
    TopOfConcat(y.ops, [TIf]);
    var vals := y4.vals + [v3];
    assert vals[..|vals| - 3] == y.vals;
  }

  lemma PendingElse(m: Machine, store: Store, u: Yard)
    requires u.ops != [] && Top(u.ops) == TElse
    ensures ApplyPending(m, store, Some(u)) == ApplyElse(store, u)
  {
  }

  lemma UnwindTernaryStep(m: Machine, store: Store, z: Yard, c: Syn, a: Syn, b: Syn)
    ensures Unwind(m, store, z, Ternary(c, a, b)) == ApplyPending(m, store, Unwind(m, store, z, b))
  {
  }

  lemma TernarySpelling(input: seq<Lexeme>, p: nat, c: Syn, a: Syn, b: Syn)
    requires Spells(input, p, Lexemes(Ternary(c, a, b)))
    ensures var q := p + |Lexemes(c)|; var s := q + 1 + |Lexemes(a)|;
      && Spells(input, p, Lexemes(c)) && Spells(input, q + 1, Lexemes(a)) && Spells(input, s + 1, Lexemes(b))
      && s < |input| && input[q] == LQuestion && input[s] == LColon
  {
    hide Spells;
    var lc, la, lb := Lexemes(c), Lexemes(a), Lexemes(b);
    SpellsThen(input, p, lc + [LQuestion] + la, LColon, lb);
    SpellsThen(input, p, lc, LQuestion, la);
  }

  lemma SpellsThen(input: seq<Lexeme>, p: nat, u: seq<Lexeme>, x: Lexeme, v: seq<Lexeme>)
    requires Spells(input, p, u + [x] + v)
    ensures Spells(input, p, u) && Spells(input, p + |u| + 1, v)
    ensures p + |u| < |input| && input[p + |u|] == x
  {
    SpellsSplit(input, p, u + [x], v);
    SpellsSplit(input, p, u, [x]);
    SpellsOne(input, p + |u|, x);
  }

  lemma TernaryReady(input: seq<Lexeme>, r: Reader, y: Yard, c: Syn, a: Syn, b: Syn)
    requires Ready(input, r, y, Ternary(c, a, b))
    ensures Ready(input, r, y, c) && ClosedBy(c, TIf) && Blocks(y.ops, TIf)
    ensures var q := r.pos + |Lexemes(c)|; var s := q + 1 + |Lexemes(a)|;
      && s < |input| && input[q] == LQuestion && input[s] == LColon
      && Grammatical(a) && Spells(input, q + 1, Lexemes(a)) && Grammatical(b) && Spells(input, s + 1, Lexemes(b))
      && r.pos + |Lexemes(Ternary(c, a, b))| == s + 1 + |Lexemes(b)|
    ensures RightSpine(Ternary(c, a, b)) == [TIf, TElse] + RightSpine(b)
  {
    TernarySpelling(input, r.pos, c, a, b);
  }

  /** The yard after `c ?`, and after `c ? a :`. */
  function AfterIf(m: Machine, y: Yard, z: Yard, c: Syn, v: ValTok): Yard {
    var u := Reduced(m, y, z, c, v);
    PushOp(u.(b := AddIfElse(u.b, If(0)), args := y.args + [1], ifElse := y.ifElse + 1), TIf).(last := Some(TIf))
  }

  function AfterElse(m: Machine, y: Yard, z: Yard, a: Syn, v: ValTok): Yard
    requires y.args != []
  {
    var u := Reduced(m, y, z, a, v);
    PushOp(u.(b := AddIfElse(u.b, Else(0)), args := Pop(y.args), ifElse := y.ifElse - 1), TElse).(last := Some(TElse))
  }

  lemma ReadsQuestion(m: Machine, store: Store, input: seq<Lexeme>, r: Reader, y: Yard, c: Syn, z: Yard, v: ValTok)
    requires r.pos < |input| && input[r.pos] == LQuestion && HasOperand(r.flags)
    requires z.ops == y.ops + RightSpine(c) && ClosedBy(c, TIf) && Blocks(y.ops, TIf)
    requires z.args == y.args && z.ifElse == y.ifElse
    requires Unwind(m, store, z, c) == Some(Reduced(m, y, z, c, v))
    ensures ParseFrom(m, store, input, r, z)
         == ParseFrom(m, store, input, Reader(r.pos + 1, AFTER_BRANCH, r.brackets), AfterIf(m, y, z, c, v))
  {
    hide ParseFrom, Compile, Unwind, StepIf, RightSpine, ClosedBy, Yields;
    HasOperandPermits(r.flags);
    StepIfAfter(m, store, y, z, c, v);
    Advance(m, store, input, r, z, TIf, Reader(r.pos + 1, AFTER_BRANCH, r.brackets), AfterIf(m, y, z, c, v));
  }

  lemma ReadsColon(m: Machine, store: Store, input: seq<Lexeme>, r: Reader, y: Yard, a: Syn, z: Yard, v: ValTok)
    requires r.pos < |input| && input[r.pos] == LColon && HasOperand(r.flags)
    requires y.ops != [] && Top(y.ops) == TIf && y.args != [] && Top(y.args) == 1 && y.ifElse >= 1
    requires z.ops == y.ops + RightSpine(a) && z.args == y.args && z.ifElse == y.ifElse
    requires Unwind(m, store, z, a) == Some(Reduced(m, y, z, a, v))
    ensures ParseFrom(m, store, input, r, z)
         == ParseFrom(m, store, input, Reader(r.pos + 1, AFTER_BRANCH, r.brackets), AfterElse(m, y, z, a, v))
  {
    hide ParseFrom, Compile, Unwind, StepElse, RightSpine;
    HasOperandPermits(r.flags);
    StepElseAfter(m, store, y, z, a, v);
    Advance(m, store, input, r, z, TElse, Reader(r.pos + 1, AFTER_BRANCH, r.brackets), AfterElse(m, y, z, a, v));
  }

  /** Reads `c ? a :`. */
  lemma {:induction false} ReadsBranches(m: Machine, store: Store, input: seq<Lexeme>, r: Reader, y: Yard, c: Syn,
                                         a: Syn, b: Syn)
    returns (y4: Yard, v1: ValTok, v2: ValTok)
    requires Ready(input, r, y, Ternary(c, a, b))
    ensures var s := r.pos + |Lexemes(c)| + 1 + |Lexemes(a)|;
      ParseFrom(m, store, input, r, y) == ParseFrom(m, store, input, Reader(s + 1, AFTER_BRANCH, r.brackets), y4)
    ensures y4.b == AddIfElse(Compile(m, Erase(a), AddIfElse(Compile(m, Erase(c), y.b), If(0))), Else(0))
    ensures y4.ops == y.ops + [TIf] + [TElse] && y4.vals == y.vals + [v1] + [v2]
    ensures y4.args == y.args && y4.ifElse == y.ifElse
    decreases Ternary(c, a, b), 0
  {
    hide ParseFrom, Compile, Unwind, Lexemes, Grammatical, Spells, ClosedBy, Under, Yields, StartsWithSign, RightSpine;
    var q := r.pos + |Lexemes(c)|;
    var s := q + 1 + |Lexemes(a)|;
    TernaryReady(input, r, y, c, a, b);
    var z1, f1;
    z1, f1, v1 := ReadsTree(m, store, input, r, y, c);
    ReadsQuestion(m, store, input, Reader(q, f1, r.brackets), y, c, z1, v1);
    var y2 := AfterIf(m, y, z1, c, v1);
    TopOfConcat(y.ops, [TIf]);
    var z3, f3;
    z3, f3, v2 := ReadsTree(m, store, input, Reader(q + 1, AFTER_BRANCH, r.brackets), y2, a);
    ReadsColon(m, store, input, Reader(s, f3, r.brackets), y2, a, z3, v2);
    y4 := AfterElse(m, y2, z3, a, v2);
    assert Pop(y2.args) == y.args;
  }

  lemma {:induction false} ReadsTernary(m: Machine, store: Store, input: seq<Lexeme>, r: Reader, y: Yard, c: Syn,
                                        a: Syn, b: Syn)
    returns (z: Yard, f: Flags, v: ValTok)
    requires Ready(input, r, y, Ternary(c, a, b))
    ensures Reads(m, store, input, r, y, Ternary(c, a, b), z, f, v)
    decreases Ternary(c, a, b), 1
  {
    hide ParseFrom, Compile, Unwind, Lexemes, Grammatical, Spells, ClosedBy, Under, Yields, StartsWithSign, RightSpine,
         AddIfElse;
    var s := r.pos + |Lexemes(c)| + 1 + |Lexemes(a)|;
    TernaryReady(input, r, y, c, a, b);
    var y4, v1, v2 := ReadsBranches(m, store, input, r, y, c, a, b);
    TopOfConcat(y.ops + [TIf], [TElse]);
    var v3;
    z, f, v3 := ReadsTree(m, store, input, Reader(s + 1, AFTER_BRANCH, r.brackets), y4, b);
    v := UnwindTernary(m, store, y, y4, z, c, a, b, v1, v2, v3);
    assert y.ops + [TIf] + [TElse] + RightSpine(b) == y.ops + ([TIf, TElse] + RightSpine(b));
  }

  // ----- the whole formula -----

  /** Every grammatical tree is accepted in its own spelling, and leaves the finished code of its
      expression, one value and the first result index. */
  lemma ParserComplete(m: Machine, store: Store, e: Syn, opt: bool)
    requires Grammatical(e)
    ensures var res, b := CreateRPN(m, store, Lexemes(e), opt), Compile(m, Erase(e), Builder([], 0, 0, opt));
      && res.Some? && res.value.ops == [] && |res.value.vals| == 1 && res.value.args == [1]
      && res.value.b == b.(code := Finalize(b.code))
  {
    hide ParseFrom, Compile, Unwind, Finalize, ReadToken, Grammatical;
    var input, r, y := Lexemes(e), Reader(0, START_OF_LINE, 0), Start(opt);
    FormulaReady(e, opt);
    var z, f, v := ReadsTree(m, store, input, r, y, e);
    ReadsEnd(m, store, input, f, y, z, e, v);
  }

  lemma FormulaReady(e: Syn, opt: bool)
    requires Grammatical(e)
    ensures Lexemes(e) != [] && Ready(Lexemes(e), Reader(0, START_OF_LINE, 0), Start(opt), e)
  {
    hide Grammatical;
    assert Lexemes(e)[0..|Lexemes(e)|] == Lexemes(e);
  }

  lemma ReadsEnd(m: Machine, store: Store, input: seq<Lexeme>, f: Flags, y: Yard, z: Yard, e: Syn, v: ValTok)
    requires HasOperand(f) && y.ops == [] && z.ops == y.ops + RightSpine(e)
    requires Unwind(m, store, z, e) == Some(Reduced(m, y, z, e, v))
    ensures var u := Reduced(m, y, z, e, v);
      ParseFrom(m, store, input, Reader(|input|, f, 0), z)
      == Some(u.(b := u.b.(code := Finalize(u.b.code)), last := Some(TEnd)))
  {
    hide ParseFrom, Compile, Unwind, Finalize, RightSpine, ApplyRemaining;
    HasOperandPermits(f);
    assert z.ops == [] + RightSpine(e);
    RemainingAfter(m, store, z, [], e);
    RemainingStops(m, store, Reduced(m, y, z, e, v));
    ParseFromUnrolls(m, store, input, Reader(|input|, f, 0), z);
  }
}
