/** The grammar the shunting yard accepts, written as bracketed syntax trees whose unbracketed
    parts agree with the precedence tables, and what a token that closes a tree does to the stacks. */
module MuSyntax {
  import opened MuCode
  import opened MuExpr
  import opened MuParser
  import opened MuReader
  import opened Wrappers

  datatype Syn =
    | Num(v: real)
    | Name(p: Ptr)
    | Paren(e: Syn)
    | Signed(minus: bool, e: Syn)
    | Infix(op: Op, l: Syn, r: Syn)
    | Set(p: Ptr, e: Syn)
    | Ternary(c: Syn, a: Syn, b: Syn)

  function SignTok(minus: bool): Tok { TSign(if minus then UnaryMinus else UnaryPlus) }

  function SignLexeme(minus: bool): Lexeme { LOp(if minus then SUB else ADD) }

  /** The formula that spells the tree. */
  function Lexemes(e: Syn): (s: seq<Lexeme>)
    ensures s != []
  {
    match e
    case Num(v) => [LNum(v)]
    case Name(p) => [LName(p)]
    case Paren(e) => [LOpen] + Lexemes(e) + [LClose]
    case Signed(minus, e) => [SignLexeme(minus)] + Lexemes(e)
    case Infix(op, l, r) => Lexemes(l) + [LOp(op)] + Lexemes(r)
    case Set(p, e) => [LName(p), LAssign] + Lexemes(e)
    case Ternary(c, a, b) => Lexemes(c) + [LQuestion] + Lexemes(a) + [LColon] + Lexemes(b)
  }

  /** The expression the tree means: brackets vanish, a sign is a call. */
  function Erase(e: Syn): Expr {
    match e
    case Num(v) => Const(v)
    case Name(p) => Variable(p)
    case Paren(e) => Erase(e)
    case Signed(minus, e) => Call(SignTok(minus).cb, false, true, [Erase(e)])
    case Infix(op, l, r) => Binary(op, Erase(l), Erase(r))
    case Set(p, e) => Let(p, Erase(e))
    case Ternary(c, a, b) => Cond(Erase(c), Erase(a), Erase(b))
  }

  // ----- agreement with the precedence tables -----

  /** The operators still pending on the operator stack when the last token of `e` has been read. */
  function RightSpine(e: Syn): seq<Tok> {
    match e
    case Num(_) => []
    case Name(_) => []
    case Paren(_) => []
    case Signed(minus, e) => [SignTok(minus)] + RightSpine(e)
    case Infix(op, _, r) => [TBin(op)] + RightSpine(r)
    case Set(_, e) => [TAssign] + RightSpine(e)
    case Ternary(_, _, b) => [TIf, TElse] + RightSpine(b)
  }

  /** Would reading `t` apply everything pending in `e`? */
  predicate ClosedBy(e: Syn, t: Tok) {
    match e
    case Num(_) => true
    case Name(_) => true
    case Paren(_) => true
    case Signed(minus, e) => Yields(SignTok(minus), t) && ClosedBy(e, t)
    case Infix(op, _, r) => Yields(TBin(op), t) && ClosedBy(r, t)
    case Set(_, e) => Yields(TAssign, t) && ClosedBy(e, t)
    case Ternary(_, _, _) => false
  }

  /** Can `e` stand right of the pending operator `top` without that operator being applied early? */
  predicate Under(e: Syn, top: Tok) {
    match e
    case Num(_) => true
    case Name(_) => true
    case Paren(_) => true
    case Signed(_, _) => true
    case Infix(op, l, _) => Under(l, top) && !Yields(top, TBin(op))
    case Set(_, _) => !Yields(top, TAssign)
    case Ternary(c, _, _) => Under(c, top) && !Yields(top, TIf)
  }

  predicate StartsWithSign(e: Syn) {
    match e
    case Signed(_, _) => true
    case Infix(_, l, _) => StartsWithSign(l)
    case Ternary(c, _, _) => StartsWithSign(c)
    case _ => false
  }

  /** The trees whose unbracketed operators nest as the precedence tables say. */
  predicate Grammatical(e: Syn) {
    match e
    case Num(_) => true
    case Name(p) => p != NULL
    case Paren(e) => Grammatical(e)
    case Signed(minus, e) => Grammatical(e) && Under(e, SignTok(minus)) && !StartsWithSign(e)
    case Infix(op, l, r) => Grammatical(l) && Grammatical(r) && ClosedBy(l, TBin(op)) && Under(r, TBin(op))
    case Set(p, e) => p != NULL && Grammatical(e) && Under(e, TAssign)
    case Ternary(c, a, b) => Grammatical(c) && Grammatical(a) && Grammatical(b) && ClosedBy(c, TIf)
  }

  lemma {:induction false} ErasureIsWellFormed(e: Syn)
    requires Grammatical(e)
    ensures WellFormed(Erase(e))
  {
    match e
    case Num(_) =>
    case Name(_) =>
    case Paren(e) => ErasureIsWellFormed(e);
    case Signed(_, e) => ErasureIsWellFormed(e);
    case Infix(_, l, r) =>
      ErasureIsWellFormed(l);
      ErasureIsWellFormed(r);
    case Set(_, e) => ErasureIsWellFormed(e);
    case Ternary(c, a, b) =>
      ErasureIsWellFormed(c);
      ErasureIsWellFormed(a);
      ErasureIsWellFormed(b);
  }

  /** The operator a new token would have to pass, if any. */
  predicate Admits(ops: seq<Tok>, e: Syn) { ops == [] || StopsLoop(Top(ops)) || Under(e, Top(ops)) }

  predicate Blocks(ops: seq<Tok>, t: Tok) { ops == [] || StopsLoop(Top(ops)) || !Yields(Top(ops), t) }

  // ----- unwinding the pending operators of a tree -----

  /** Applies the operators pending from `e`, the top one first. */
  function Unwind(m: Machine, store: Store, y: Yard, e: Syn): Option<Yard> {
    match e
    case Num(_) => Some(y)
    case Name(_) => Some(y)
    case Paren(_) => Some(y)
    case Signed(_, e1) => ApplyPending(m, store, Unwind(m, store, y, e1))
    case Infix(_, _, r) => ApplyPending(m, store, Unwind(m, store, y, r))
    case Set(_, e1) => ApplyPending(m, store, Unwind(m, store, y, e1))
    case Ternary(_, _, b) => ApplyPending(m, store, Unwind(m, store, y, b))
  }

  function ApplyPending(m: Machine, store: Store, y: Option<Yard>): Option<Yard> {
    if y.None? || y.value.ops == [] || StopsRemaining(Top(y.value.ops)) then None
    else ApplyTop(m, store, y.value)
  }

  /** The yard `y` after the whole of `e`, as its last value `v`. */
  function Reduced(m: Machine, y: Yard, z: Yard, e: Syn, v: ValTok): Yard {
    Yard(Compile(m, Erase(e), y.b), y.ops, y.vals + [v], y.args, y.ifElse, z.last)
  }

  lemma TopOfConcat(a: seq<Tok>, b: seq<Tok>)
    requires b != []
    ensures Top(a + b) == Top(b) && Pop(a + b) == a + Pop(b)
  {
  }

  lemma ApplyTopOps(m: Machine, store: Store, y: Yard)
    requires y.ops != [] && !StopsRemaining(Top(y.ops))
    ensures ApplyTop(m, store, y).Some? ==>
      var ops := ApplyTop(m, store, y).value.ops;
      if Top(y.ops) == TElse then Pop(y.ops) != [] && Top(Pop(y.ops)) == TIf && ops == Pop(Pop(y.ops))
      else ops == Pop(y.ops)
  {
  }

  /** A token that closes `e` runs the loop through all operators pending from `e`. */
  lemma {:induction false} RoomAfter(m: Machine, store: Store, z: Yard, ops: seq<Tok>, e: Syn, t: Tok)
    requires z.ops == ops + RightSpine(e) && ClosedBy(e, t)
    requires Unwind(m, store, z, e).Some?
    ensures Unwind(m, store, z, e).value.ops == ops
    ensures MakeRoom(m, store, z, t) == MakeRoom(m, store, Unwind(m, store, z, e).value, t)
    decreases e, 0
  {
    hide ApplyPending, MakeRoom, Yields;
    match e
    case Num(_) =>
    case Name(_) =>
    case Paren(_) =>
    case Signed(minus, e1) => RoomAfterOne(m, store, z, ops, e1, t, SignTok(minus));
    case Infix(op, _, r) => RoomAfterOne(m, store, z, ops, r, t, TBin(op));
    case Set(_, e1) => RoomAfterOne(m, store, z, ops, e1, t, TAssign);
    case Ternary(_, _, _) =>
  }

  lemma {:induction false} RoomAfterOne(m: Machine, store: Store, z: Yard, ops: seq<Tok>, e1: Syn, t: Tok, o: Tok)
    requires z.ops == ops + ([o] + RightSpine(e1)) && ClosedBy(e1, t)
    requires o.TSign? || o.TBin? || o.TAssign?
    requires Yields(o, t)
    requires ApplyPending(m, store, Unwind(m, store, z, e1)).Some?
    ensures var y1 := ApplyPending(m, store, Unwind(m, store, z, e1)).value;
      y1.ops == ops && MakeRoom(m, store, z, t) == MakeRoom(m, store, y1, t)
    decreases e1, 1
  {
    hide ApplyTop, Unwind, RightSpine, ClosedBy, Yields;
    ApplyTopOps(m, store, Unwind(m, store, z, e1).value);
    assert z.ops == (ops + [o]) + RightSpine(e1);
    RoomAfter(m, store, z, ops + [o], e1, t);
    TopOfConcat(ops, [o]);
  }

  /** The end of a bracket, of a branch or of the formula applies everything pending. */
  lemma {:induction false} RemainingAfter(m: Machine, store: Store, z: Yard, ops: seq<Tok>, e: Syn)
    requires z.ops == ops + RightSpine(e)
    requires Unwind(m, store, z, e).Some?
    ensures Unwind(m, store, z, e).value.ops == ops
    ensures ApplyRemaining(m, store, z) == ApplyRemaining(m, store, Unwind(m, store, z, e).value)
    decreases e, 0
  {
    hide ApplyPending, ApplyRemaining;
    match e
    case Num(_) =>
    case Name(_) =>
    case Paren(_) =>
    case Signed(minus, e1) => RemainingAfterOne(m, store, z, ops, [], e1, SignTok(minus));
    case Infix(op, _, r) => RemainingAfterOne(m, store, z, ops, [], r, TBin(op));
    case Set(_, e1) => RemainingAfterOne(m, store, z, ops, [], e1, TAssign);
    case Ternary(_, _, b) => RemainingAfterOne(m, store, z, ops, [TIf], b, TElse);
  }

  lemma {:induction false} RemainingAfterOne(m: Machine, store: Store, z: Yard, ops: seq<Tok>, extra: seq<Tok>,
                                             e1: Syn, o: Tok)
    requires z.ops == ops + (extra + [o] + RightSpine(e1))
    requires o.TSign? || o.TBin? || o.TAssign? || o == TElse
    requires extra == if o == TElse then [TIf] else []
    requires ApplyPending(m, store, Unwind(m, store, z, e1)).Some?
    ensures var y1 := ApplyPending(m, store, Unwind(m, store, z, e1)).value;
      y1.ops == ops && ApplyRemaining(m, store, z) == ApplyRemaining(m, store, y1)
    decreases e1, 1
  {
    hide ApplyTop, Unwind, RightSpine, ClosedBy, Yields;
    ApplyTopOps(m, store, Unwind(m, store, z, e1).value);
    assert z.ops == (ops + extra + [o]) + RightSpine(e1);
    RemainingAfter(m, store, z, ops + extra + [o], e1);
    TopOfConcat(ops + extra, [o]);
    if o == TElse { TopOfConcat(ops, [TIf]); }
  }

  /** The lexemes spell the tree, and the tree is one that the tables allow. */
  predicate Spelling(e: Syn, input: seq<Lexeme>) {
    Grammatical(e) && Lexemes(e) == input
  }
}
