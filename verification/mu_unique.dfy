/** Formulas are unambiguous: no two grammatical trees are spelled alike.  Two spellings are read from
    the left, one operator of the left spine at a time, up to where something else must follow. */
module MuUnique {
  import opened MuParser
  import opened MuReader
  import opened MuSyntax
  import opened Wrappers

  // ----- the left spine -----

  /** p is e, or the left operand of something on the left spine of e. */
  predicate OnSpine(p: Syn, e: Syn) {
    p == e || (e.Infix? && OnSpine(p, e.l)) || (e.Ternary? && OnSpine(p, e.c))
  }

  /** What the spine starts with. */
  function Base(e: Syn): (p: Syn)
    ensures OnSpine(p, e) && !p.Infix? && !p.Ternary?
  {
    match e
    case Infix(_, l, _) => Base(l)
    case Ternary(c, _, _) => Base(c)
    case _ => e
  }

  /** The next node up the spine. */
  function Parent(p: Syn, e: Syn): (q: Syn)
    requires OnSpine(p, e) && p != e
    ensures OnSpine(q, e) && ((q.Infix? && q.l == p) || (q.Ternary? && q.c == p))
  {
    var below := if e.Infix? then e.l else e.c;
    if p == below then e else Parent(p, below)
  }

  /** The operator of a node above the base of a spine. */
  function Join(q: Syn): Tok
    requires q.Infix? || q.Ternary?
  {
    if q.Infix? then TBin(q.op) else TIf
  }

  /** What is written after the left operand. */
  function Tail(q: Syn): seq<Lexeme>
    requires q.Infix? || q.Ternary?
  {
    if q.Infix? then [LOp(q.op)] + Lexemes(q.r) else [LQuestion] + Lexemes(q.a) + [LColon] + Lexemes(q.b)
  }

  /** What is written after p in e. */
  function Rest(p: Syn, e: Syn): seq<Lexeme>
    requires OnSpine(p, e)
  {
    if p == e then []
    else if e.Infix? then Rest(p, e.l) + Tail(e)
    else Rest(p, e.c) + Tail(e)
  }

  /** The left operand of a node above the base of a spine. */
  function Left(q: Syn): Syn
    requires q.Infix? || q.Ternary?
  {
    if q.Infix? then q.l else q.c
  }

  lemma NodeSpells(q: Syn)
    requires q.Infix? || q.Ternary?
    ensures Lexemes(q) == Lexemes(Left(q)) + Tail(q) && |Tail(q)| > 0 && |Lexemes(Left(q))| > 0
  {
    if q.Infix? {
      Regroup(Lexemes(q.l), [LOp(q.op)], Lexemes(q.r));
    } else {
      Regroup(Lexemes(q.c), [LQuestion], Lexemes(q.a));
      Regroup(Lexemes(q.c), [LQuestion] + Lexemes(q.a), [LColon]);
      Regroup(Lexemes(q.c), [LQuestion] + Lexemes(q.a) + [LColon], Lexemes(q.b));
    }
  }

  lemma Regroup(a: seq<Lexeme>, b: seq<Lexeme>, c: seq<Lexeme>)
    ensures a + (b + c) == a + b + c
  {
  }

  lemma {:induction false} RestSpells(p: Syn, e: Syn)
    requires OnSpine(p, e)
    ensures Lexemes(e) == Lexemes(p) + Rest(p, e)
  {
    hide Tail, Lexemes;
    if p != e {
      NodeSpells(e);
      RestSpells(p, Left(e));
      Regroup(Lexemes(p), Rest(p, Left(e)), Tail(e));
    }
  }

  lemma RestOfNode(q: Syn, e: Syn)
    requires (e.Infix? || e.Ternary?) && OnSpine(q, Left(e))
    ensures q != e && OnSpine(q, e) && Rest(q, e) == Rest(q, Left(e)) + Tail(e)
  {
    hide Tail;
    SpineIsSmaller(q, Left(e));
    NodeSpells(e);
  }

  lemma {:induction false} SpineIsSmaller(q: Syn, e: Syn)
    requires OnSpine(q, e)
    ensures |Lexemes(q)| <= |Lexemes(e)| && (q != e ==> |Lexemes(q)| < |Lexemes(e)|)
  {
    hide Tail, Lexemes;
    if q != e {
      NodeSpells(e);
      SpineIsSmaller(q, Left(e));
    }
  }

  lemma {:induction false} RestStarts(p: Syn, e: Syn)
    requires OnSpine(p, e) && p != e
    ensures Rest(p, e) == Tail(Parent(p, e)) + Rest(Parent(p, e), e)
  {
    hide Tail;
    var below := Left(e);
    if p != below {
      RestStarts(p, below);
      var q := Parent(p, below);
      RestOfNode(q, e);
      Regroup(Tail(q), Rest(q, below), Tail(e));
    } else {
      assert Rest(below, below) + Tail(e) == Tail(e) + Rest(e, e);
    }
  }

  predicate Allowed(top: Option<Tok>, e: Syn) { top.Some? ==> Under(e, top.value) }

  lemma {:induction false} SpineIsGood(p: Syn, e: Syn, top: Option<Tok>)
    requires OnSpine(p, e) && Grammatical(e) && Allowed(top, e)
    ensures Grammatical(p)
    ensures p != e ==> ClosedBy(p, Join(Parent(p, e)))
    ensures p != e && top.Some? ==> !Yields(top.value, Join(Parent(p, e)))
  {
    hide Yields;
    if p != e { SpineIsGood(p, if e.Infix? then e.l else e.c, top); }
  }

  // ----- what may follow -----

  predicate Joins(x: Lexeme) { x.LOp? || x == LQuestion }

  function JoinOf(x: Lexeme): Tok
    requires Joins(x)
  {
    if x.LOp? then TBin(x.op) else TIf
  }

  /** Only a closing bracket, a colon, the end or an operator that closes e follows e. */
  predicate Ends(e: Syn, u: seq<Lexeme>) {
    u == [] || u[0] == LClose || u[0] == LColon || (Joins(u[0]) && ClosedBy(e, JoinOf(u[0])))
  }

  /** What follows does not belong below the operator to the left, if there is one. */
  predicate Outranked(top: Option<Tok>, u: seq<Lexeme>) {
    u != [] && Joins(u[0]) ==> top.Some? && Yields(top.value, JoinOf(u[0]))
  }

  /** e stands right of top and before u. */
  predicate Stands(top: Option<Tok>, e: Syn, u: seq<Lexeme>) {
    Grammatical(e) && Allowed(top, e) && Ends(e, u) && Outranked(top, u)
  }

  /** What follows a node of the spine ends it. */
  lemma SpineEnds(p: Syn, e: Syn, top: Option<Tok>, u: seq<Lexeme>)
    requires OnSpine(p, e) && Stands(top, e, u)
    ensures Grammatical(p) && Ends(p, Rest(p, e) + u)
    ensures p != e ==> Rest(p, e) != [] && Joins(Rest(p, e)[0]) && JoinOf(Rest(p, e)[0]) == Join(Parent(p, e))
  {
    hide Yields, Grammatical, ClosedBy;
    SpineIsGood(p, e, top);
    if p != e { RestStarts(p, e); }
  }

  /** The right operand of a node stands right of its operator. */
  lemma RightStands(q: Syn, u: seq<Lexeme>)
    requires q.Infix? && Grammatical(q) && Ends(q, u)
    ensures Stands(Some(TBin(q.op)), q.r, u)
  {
  }

  lemma ParenStands(s: Syn, u: seq<Lexeme>)
    requires s.Paren? && Grammatical(s)
    ensures Stands(None, s.e, [LClose] + u)
  {
  }

  lemma SignedStands(s: Syn, u: seq<Lexeme>)
    requires s.Signed? && Grammatical(s) && Ends(s, u)
    ensures Stands(Some(SignTok(s.minus)), s.e, u)
  {
  }

  lemma SetStands(s: Syn, u: seq<Lexeme>)
    requires s.Set? && Grammatical(s) && Ends(s, u)
    ensures Stands(Some(TAssign), s.e, u)
  {
  }

  lemma BranchesStand(q: Syn, u: seq<Lexeme>)
    requires q.Ternary? && Grammatical(q) && Ends(q, u)
    ensures Stands(None, q.a, [LColon] + (Lexemes(q.b) + u)) && Stands(None, q.b, u)
  {
  }

  // ----- two trees with the same spelling -----

  /** Two trees that stand right of the same operator and begin the same text are equal. */
  lemma {:induction false} ReadOneWay(d: Syn, e: Syn, top: Option<Tok>, u: seq<Lexeme>, v: seq<Lexeme>)
    requires Stands(top, d, u) && Stands(top, e, v) && Lexemes(d) + u == Lexemes(e) + v
    ensures d == e && u == v
    decreases |Lexemes(d)|, 2, 0
  {
    hide Stands, Lexemes, Rest, Ends;
    var p, q := Base(d), Base(e);
    SpineEnds(p, d, top, u);
    SpineEnds(q, e, top, v);
    RestSpells(p, d);
    RestSpells(q, e);
    Regroup(Lexemes(p), Rest(p, d), u);
    Regroup(Lexemes(q), Rest(q, e), v);
    SameBase(p, q, Rest(p, d) + u, Rest(q, e) + v);
    SameSpine(p, d, e, top, u, v);
    CutSame(Lexemes(d), u, v);
  }

  lemma CutSame(a: seq<Lexeme>, u: seq<Lexeme>, v: seq<Lexeme>)
    requires a + u == a + v
    ensures u == v
  {
    assert (a + u)[|a|..] == u && (a + v)[|a|..] == v;
  }

  /** How the text of a tree that is no node of a spine begins and goes on. */
  ghost predicate Begins(p: Syn, u: seq<Lexeme>, text: seq<Lexeme>) {
    text != [] &&
    match p
    case Num(x) => text[0] == LNum(x) && text[1..] == u
    case Name(x) => text[0] == LName(x) && text[1..] == u
    case Paren(e) => text[0] == LOpen && text[1..] == Lexemes(e) + ([LClose] + u)
    case Signed(minus, e) => text[0] == SignLexeme(minus) && text[1..] == Lexemes(e) + u
    case Set(x, e) => text[0] == LName(x) && text[1..] == [LAssign] + (Lexemes(e) + u)
    case _ => true
  }

  lemma BaseBegins(p: Syn, u: seq<Lexeme>)
    requires !p.Infix? && !p.Ternary?
    ensures Begins(p, u, Lexemes(p) + u)
  {
    var text := Lexemes(p) + u;
    match p
    case Num(_) =>
    case Name(_) =>
    case Paren(e) =>
      Regroup([LOpen] + Lexemes(e), [LClose], u);
      Regroup([LOpen], Lexemes(e), [LClose] + u);
    case Signed(minus, e) => Regroup([SignLexeme(minus)], Lexemes(e), u);
    case Set(x, e) =>
      assert [LName(x), LAssign] == [LName(x)] + [LAssign];
      Regroup([LName(x), LAssign], Lexemes(e), u);
      Regroup([LName(x)], [LAssign], Lexemes(e) + u);
  }

  lemma {:induction false} SameBase(p: Syn, q: Syn, u: seq<Lexeme>, v: seq<Lexeme>)
    requires !p.Infix? && !p.Ternary? && !q.Infix? && !q.Ternary?
    requires Grammatical(p) && Grammatical(q) && Ends(p, u) && Ends(q, v)
    requires Lexemes(p) + u == Lexemes(q) + v
    ensures p == q
    decreases |Lexemes(p)|, 1, 0
  {
    BaseBegins(p, u);
    BaseBegins(q, v);
    BelowIsShorter(p);
    NoAssignment(p, u);
    NoAssignment(q, v);
    hide Yields, Lexemes, Grammatical, ClosedBy, Under, Stands, Ends;
    match p
    case Num(_) =>
    case Name(_) =>
    case Paren(x) =>
      ParenStands(p, u);
      ParenStands(q, v);
      ReadOneWay(x, q.e, None, [LClose] + u, [LClose] + v);
    case Signed(_, x) =>
      SignedStands(p, u);
      SignedStands(q, v);
      ReadOneWay(x, q.e, Some(SignTok(p.minus)), u, v);
    case Set(_, x) =>
      CutSameHead(LAssign, Lexemes(x) + u, Lexemes(q.e) + v);
      SetStands(p, u);
      SetStands(q, v);
      ReadOneWay(x, q.e, Some(TAssign), u, v);
  }

  lemma CutSameHead(x: Lexeme, u: seq<Lexeme>, v: seq<Lexeme>)
    requires [x] + u == [x] + v
    ensures u == v
  {
    CutSame([x], u, v);
  }

  lemma NoAssignment(e: Syn, u: seq<Lexeme>)
    requires Ends(e, u)
    ensures forall rest: seq<Lexeme> :: u != [LAssign] + rest
  {
    forall rest: seq<Lexeme>
      ensures u != [LAssign] + rest
    {
      assert ([LAssign] + rest)[0] == LAssign;
    }
  }

  lemma BelowIsShorter(p: Syn)
    ensures p.Paren? || p.Signed? || p.Set? ==> |Lexemes(p.e)| < |Lexemes(p)|
  {
  }

  /** From a common node of their spines on, the two trees go on alike. */
  lemma {:induction false} SameSpine(p: Syn, d: Syn, e: Syn, top: Option<Tok>, u: seq<Lexeme>, v: seq<Lexeme>)
    requires OnSpine(p, d) && OnSpine(p, e) && Stands(top, d, u) && Stands(top, e, v)
    requires Lexemes(d) + u == Lexemes(e) + v
    ensures d == e
    decreases |Lexemes(d)|, 1, |Rest(p, d)|
  {
    hide Stands, Lexemes, Rest, Ends, Tail, OnSpine, Grammatical, Joins, JoinOf, Join;
    SpineEnds(p, d, top, u);
    SpineEnds(p, e, top, v);
    RestSpells(p, d);
    RestSpells(p, e);
    Regroup(Lexemes(p), Rest(p, d), u);
    Regroup(Lexemes(p), Rest(p, e), v);
    CutSame(Lexemes(p), Rest(p, d) + u, Rest(p, e) + v);
    if p == d && p != e {
      NothingFollows(d, e, top, u, v);
    } else if p == e && p != d {
      NothingFollows(e, d, top, v, u);
    } else if p != d {
      SameParent(p, d, e, top, u, v);
      var q := Parent(p, d);
      RestStarts(p, d);
      TailLength(q);
      SameSpine(q, d, e, top, u, v);
    }
  }

  lemma TailLength(q: Syn)
    requires q.Infix? || q.Ternary?
    ensures |Tail(q)| > 0
  {
  }

  /** A tree that ends cannot go on up the spine of another. */
  lemma NothingFollows(p: Syn, e: Syn, top: Option<Tok>, u: seq<Lexeme>, v: seq<Lexeme>)
    requires OnSpine(p, e) && Stands(top, p, u) && Stands(top, e, v) && u == Rest(p, e) + v
    ensures p == e
  {
    hide Rest, OnSpine, Yields;
    SpineEnds(p, e, top, v);
    SpineIsGood(p, e, top);
  }

  lemma {:induction false} SameParent(p: Syn, d: Syn, e: Syn, top: Option<Tok>, u: seq<Lexeme>, v: seq<Lexeme>)
    requires OnSpine(p, d) && OnSpine(p, e) && p != d && p != e && Stands(top, d, u) && Stands(top, e, v)
    requires Rest(p, d) + u == Rest(p, e) + v
    ensures Parent(p, d) == Parent(p, e)
    decreases |Lexemes(d)|, 0, 0
  {
    hide Stands, Lexemes, Rest, Ends, OnSpine, Tail, JoinOf, Joins, Grammatical;
    var q, r := Parent(p, d), Parent(p, e);
    SpineEnds(p, d, top, u);
    SpineEnds(p, e, top, v);
    SpineEnds(q, d, top, u);
    SpineEnds(r, e, top, v);
    RestStarts(p, d);
    RestStarts(p, e);
    assert Rest(p, d)[0] == (Rest(p, d) + u)[0] == (Rest(p, e) + v)[0] == Rest(p, e)[0];
    assert Join(q) == Join(r);
    var u1, v1 := Rest(q, d) + u, Rest(r, e) + v;
    Regroup(Tail(q), Rest(q, d), u);
    Regroup(Tail(r), Rest(r, e), v);
    TailIsShorter(q);
    SpineIsSmaller(q, d);
    SameTail(q, r, u1, v1);
  }

  lemma TailIsShorter(q: Syn)
    requires q.Infix? || q.Ternary?
    ensures |Tail(q)| < |Lexemes(q)|
  {
  }

  lemma TailText(q: Syn, u: seq<Lexeme>)
    requires q.Infix? || q.Ternary?
    ensures q.Infix? ==> Tail(q) + u == [LOp(q.op)] + (Lexemes(q.r) + u) && |Lexemes(q.r)| < |Tail(q)|
    ensures q.Ternary? ==> Tail(q) + u == [LQuestion] + (Lexemes(q.a) + ([LColon] + (Lexemes(q.b) + u)))
    ensures q.Ternary? ==> |Lexemes(q.a)| < |Tail(q)| && |Lexemes(q.b)| < |Tail(q)|
  {
    if q.Infix? {
      Regroup([LOp(q.op)], Lexemes(q.r), u);
    } else {
      Regroup([LQuestion] + Lexemes(q.a) + [LColon], Lexemes(q.b), u);
      Regroup([LQuestion] + Lexemes(q.a), [LColon], Lexemes(q.b) + u);
      Regroup([LQuestion], Lexemes(q.a), [LColon] + (Lexemes(q.b) + u));
    }
  }

  lemma {:induction false} SameTail(q: Syn, r: Syn, u: seq<Lexeme>, v: seq<Lexeme>)
    requires (q.Infix? && r.Infix? && q.op == r.op && q.l == r.l) || (q.Ternary? && r.Ternary? && q.c == r.c)
    requires Grammatical(q) && Grammatical(r) && Ends(q, u) && Ends(r, v)
    requires Tail(q) + u == Tail(r) + v
    ensures q == r
    decreases |Tail(q)|, 3, 0
  {
    hide Stands, Lexemes, Ends, Grammatical, Tail;
    TailText(q, u);
    TailText(r, v);
    if q.Infix? {
      RightStands(q, u);
      RightStands(r, v);
      CutSameHead(LOp(q.op), Lexemes(q.r) + u, Lexemes(r.r) + v);
      ReadOneWay(q.r, r.r, Some(TBin(q.op)), u, v);
    } else {
      BranchesStand(q, u);
      BranchesStand(r, v);
      var u1, v1 := Lexemes(q.b) + u, Lexemes(r.b) + v;
      CutSameHead(LQuestion, Lexemes(q.a) + ([LColon] + u1), Lexemes(r.a) + ([LColon] + v1));
      ReadOneWay(q.a, r.a, None, [LColon] + u1, [LColon] + v1);
      CutSameHead(LColon, u1, v1);
      ReadOneWay(q.b, r.b, None, u, v);
    }
  }

  /** Formulas are read in only one way. */
  lemma SpelledOneWay(d: Syn, e: Syn, input: seq<Lexeme>)
    requires Spelling(d, input) && Spelling(e, input)
    ensures d == e
  {
    assert Lexemes(d) + [] == Lexemes(e) + [];
    ReadOneWay(d, e, None, [], []);
  }
}
