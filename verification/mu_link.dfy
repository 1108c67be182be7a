/** `Finalize` resolves exactly the jumps of the tree: its two stacks of positions give every IF
    the distance to its own ELSE and every ELSE the distance to its own ENDIF. */
module MuLink {
  import opened MuCode
  import opened MuBuilder
  import opened MuExpr

  /** The same token, up to a jump distance. */
  predicate Alike(x: Token, y: Token) { x == y || (x.If? && y.If?) || (x.Else? && y.Else?) }

  predicate AllAlike(u: seq<Token>, l: seq<Token>) {
    |u| == |l| && forall i :: 0 <= i < |u| ==> Alike(u[i], l[i])
  }

  lemma OpCodeAlike(m: Machine, opt: bool, u: seq<Token>, l: seq<Token>, op: Op)
    requires AllAlike(u, l) && |u| >= 2
    ensures FusedTail(m, opt, u, op) == FusedTail(m, opt, l, op)
    ensures AllAlike(OpCode(m, opt, u, op), OpCode(m, opt, l, op))
  {
    var n := |u|;
    if u[n - 2] != l[n - 2] || u[n - 1] != l[n - 1] {
      assert !Fuse(m, op, u[n - 2], u[n - 1]).To? && !Fuse(m, op, l[n - 2], l[n - 1]).To?;
    }
  }

  lemma FunCodeAlike(m: Machine, opt: bool, u: seq<Token>, l: seq<Token>, cb: Callable, argc: int, optimizable: bool)
    requires AllAlike(u, l) && |u| >= argc
    ensures FoldsCall(opt, u, argc, optimizable) == FoldsCall(opt, l, argc, optimizable)
    ensures AllAlike(FunCode(m, opt, u, cb, argc, optimizable), FunCode(m, opt, l, cb, argc, optimizable))
  {
    if argc > 0 {
      assert TailIsConstant(u, argc) <==> TailIsConstant(l, argc);
      if TailIsConstant(u, argc) {
        assert TailValues(u, argc) == TailValues(l, argc);
      }
    }
  }

  lemma ConcatAlike(u1: seq<Token>, l1: seq<Token>, u2: seq<Token>, l2: seq<Token>)
    requires AllAlike(u1, l1) && AllAlike(u2, l2)
    ensures AllAlike(u1 + u2, l1 + l2)
  {
  }

  lemma CondAlike(m: Machine, c: Expr, a: Expr, b: Expr, opt: bool)
    requires AllAlike(Code(m, c, opt, false), Code(m, c, opt, true))
    requires AllAlike(Code(m, a, opt, false), Code(m, a, opt, true))
    requires AllAlike(Code(m, b, opt, false), Code(m, b, opt, true))
    ensures AllAlike(Code(m, Cond(c, a, b), opt, false), Code(m, Cond(c, a, b), opt, true))
  {
    var uc, lc := Code(m, c, opt, false), Code(m, c, opt, true);
    var ua, la := Code(m, a, opt, false), Code(m, a, opt, true);
    var ub, lb := Code(m, b, opt, false), Code(m, b, opt, true);
    BranchAlike(ua, la, ub, lb);
    hide Branch, AllAlike;
    ConcatAlike(uc, lc, Branch(0, ua, 0, ub), Branch(|la| + 1, la, |lb| + 1, lb));
  }

  lemma BranchAlike(ua: seq<Token>, la: seq<Token>, ub: seq<Token>, lb: seq<Token>)
    requires AllAlike(ua, la) && AllAlike(ub, lb)
    ensures AllAlike(Branch(0, ua, 0, ub), Branch(|la| + 1, la, |lb| + 1, lb))
  {
    ConcatAlike(ub, lb, [EndIf], [EndIf]);
    ConcatAlike([Else(0)], [Else(|lb| + 1)], ub + [EndIf], lb + [EndIf]);
    ConcatAlike(ua, la, [Else(0)] + (ub + [EndIf]), [Else(|lb| + 1)] + (lb + [EndIf]));
    ConcatAlike([If(0)], [If(|la| + 1)], ua + ([Else(0)] + (ub + [EndIf])), la + ([Else(|lb| + 1)] + (lb + [EndIf])));
  }

  lemma {:induction false} CodeAlike(m: Machine, e: Expr, opt: bool)
    ensures AllAlike(Code(m, e, opt, false), Code(m, e, opt, true))
    decreases e, 1
  {
    match e
    case Const(_) =>
    case Variable(_) =>
    case Binary(op, l, r) =>
      CodeAlike(m, l, opt);
      CodeAlike(m, r, opt);
      ConcatAlike(Code(m, l, opt, false), Code(m, l, opt, true), Code(m, r, opt, false), Code(m, r, opt, true));
      OpCodeAlike(m, opt, Code(m, l, opt, false) + Code(m, r, opt, false),
                  Code(m, l, opt, true) + Code(m, r, opt, true), op);
    case Call(cb, _, optimizable, args) =>
      CodeAllAlike(m, args, opt);
      FunCodeAlike(m, opt, CodeAll(m, args, opt, false), CodeAll(m, args, opt, true), cb, Argc(e), optimizable);
    case Let(_, e1) =>
      CodeAlike(m, e1, opt);
    case Cond(c, a, b) =>
      CodeAlike(m, c, opt);
      CodeAlike(m, a, opt);
      CodeAlike(m, b, opt);
      CondAlike(m, c, a, b, opt);
  }

  lemma {:induction false} CodeAllAlike(m: Machine, es: seq<Expr>, opt: bool)
    ensures AllAlike(CodeAll(m, es, opt, false), CodeAll(m, es, opt, true))
    decreases es, 0
  {
    if es != [] {
      var init, last := es[..|es| - 1], es[|es| - 1];
      CodeAllAlike(m, init, opt);
      CodeAlike(m, last, opt);
      ConcatAlike(CodeAll(m, init, opt, false), CodeAll(m, init, opt, true), Code(m, last, opt, false),
                  Code(m, last, opt, true));
    }
  }

  /** Linking the block `u` inside any code turns it into `l` and leaves the open jumps alone. */
  predicate LinksTo(u: seq<Token>, l: seq<Token>, pre: seq<Token>, post: seq<Token>, ifs: seq<nat>, elses: seq<nat>) {
    |u| == |l| &&
    LinkFrom(Linker(pre + u + post, ifs, elses), |pre|) == LinkFrom(Linker(pre + l + post, ifs, elses), |pre| + |u|)
  }

  lemma PlainLinks(t: Token, pre: seq<Token>, post: seq<Token>, ifs: seq<nat>, elses: seq<nat>)
    requires !t.If? && !t.Else? && !t.EndIf?
    ensures LinksTo([t], [t], pre, post, ifs, elses)
  {
    assert (pre + [t] + post)[|pre|] == t;
  }

  lemma SequenceLinks(u1: seq<Token>, l1: seq<Token>, u2: seq<Token>, l2: seq<Token>,
                      pre: seq<Token>, post: seq<Token>, ifs: seq<nat>, elses: seq<nat>)
    requires LinksTo(u1, l1, pre, u2 + post, ifs, elses)
    requires LinksTo(u2, l2, pre + l1, post, ifs, elses)
    ensures LinksTo(u1 + u2, l1 + l2, pre, post, ifs, elses)
  {
    assert pre + (u1 + u2) + post == pre + u1 + (u2 + post);
    assert pre + l1 + (u2 + post) == pre + l1 + u2 + post;
    assert pre + l1 + l2 + post == pre + (l1 + l2) + post;
  }

  /** The heart of it: the IF at q and the ELSE at n of one `?:` are patched by the ELSE and by
      the ENDIF at e.  The codes between are those reached after each of its two branches. */
  lemma JumpsLink(c0: seq<Token>, c1: seq<Token>, c2: seq<Token>, c3: seq<Token>, c4: seq<Token>,
                  q: nat, n: nat, e: nat, ifs: seq<nat>, elses: seq<nat>)
    requires q < n < e < |c0| == |c1| == |c3|
    requires c0[q].If? && c1[n].Else? && c3[e].EndIf?
    requires LinkFrom(Linker(c0, ifs + [q], elses), q + 1) == LinkFrom(Linker(c1, ifs + [q], elses), n)
    requires c2 == c1[q := If(n - q)]
    requires LinkFrom(Linker(c2, ifs, elses + [n]), n + 1) == LinkFrom(Linker(c3, ifs, elses + [n]), e)
    requires c4 == c3[n := Else(e - n)]
    ensures LinkFrom(Linker(c0, ifs, elses), q) == LinkFrom(Linker(c4, ifs, elses), e + 1)
  {
    hide LinkFrom;
    BranchIf(c0, q, ifs, elses);
    BranchElse(c1, c2, q, n, ifs, elses);
    BranchEnd(c3, c4, n, e, ifs, elses);
  }

  /** The code around the first branch. */
  function ThenHole(pre: seq<Token>, i: nat, ca: seq<Token>, ub: seq<Token>, post: seq<Token>): (r: seq<Token>)
    ensures |r| == |pre| + |ca| + |ub| + |post| + 3
  {
    (pre + [If(i)]) + ca + ([Else(0)] + (ub + [EndIf]) + post)
  }

  /** The code around the second branch. */
  function ElseHole(pre: seq<Token>, i: nat, la: seq<Token>, j: nat, cb: seq<Token>, post: seq<Token>): (r: seq<Token>)
    ensures |r| == |pre| + |la| + |cb| + |post| + 3
  {
    (pre + [If(i)] + la + [Else(j)]) + cb + ([EndIf] + post)
  }

  lemma HoleFacts(pre: seq<Token>, i: nat, ca: seq<Token>, j: nat, cb: seq<Token>, post: seq<Token>)
    ensures ElseHole(pre, i, ca, j, cb, post) == pre + Branch(i, ca, j, cb) + post
    ensures ThenHole(pre, i, ca, cb, post) == pre + Branch(i, ca, 0, cb) + post
  {
  }

  lemma ThenHoleJumps(pre: seq<Token>, i: nat, ca: seq<Token>, cb: seq<Token>, post: seq<Token>)
    ensures ThenHole(pre, 0, ca, cb, post)[|pre|] == If(0)
    ensures ThenHole(pre, 0, ca, cb, post)[|pre| + 1 + |ca|] == Else(0)
    ensures ThenHole(pre, 0, ca, cb, post)[|pre| := If(i)] == ThenHole(pre, i, ca, cb, post)
  {
  }

  lemma ElseHoleJumps(pre: seq<Token>, i: nat, ca: seq<Token>, j: nat, cb: seq<Token>, post: seq<Token>)
    ensures ElseHole(pre, i, ca, 0, cb, post)[|pre| + 2 + |ca| + |cb|] == EndIf
    ensures ElseHole(pre, i, ca, 0, cb, post)[|pre| + 1 + |ca| := Else(j)] == ElseHole(pre, i, ca, j, cb, post)
  {
  }

  lemma HolesLink(ua: seq<Token>, la: seq<Token>, ub: seq<Token>, lb: seq<Token>,
                  pre: seq<Token>, post: seq<Token>, ifs: seq<nat>, elses: seq<nat>)
    requires |ua| == |la| && |ub| == |lb|
    requires var q, i := |pre|, |ua| + 1;
      LinkFrom(Linker(ThenHole(pre, 0, ua, ub, post), ifs + [q], elses), q + 1)
      == LinkFrom(Linker(ThenHole(pre, 0, la, ub, post), ifs + [q], elses), q + i)
    requires var q, i, j := |pre|, |ua| + 1, |ub| + 1;
      LinkFrom(Linker(ElseHole(pre, i, la, 0, ub, post), ifs, elses + [q + i]), q + i + 1)
      == LinkFrom(Linker(ElseHole(pre, i, la, 0, lb, post), ifs, elses + [q + i]), q + i + j)
    ensures var q, i, j := |pre|, |ua| + 1, |ub| + 1;
      LinkFrom(Linker(ThenHole(pre, 0, ua, ub, post), ifs, elses), q)
      == LinkFrom(Linker(ElseHole(pre, i, la, j, lb, post), ifs, elses), q + i + j + 1)
  {
    hide ThenHole, ElseHole, Branch, LinkFrom;
    var i, j := |ua| + 1, |ub| + 1;
    HoleFacts(pre, i, la, 0, ub, post);
    ThenHoleJumps(pre, i, ua, ub, post);
    ThenHoleJumps(pre, i, la, ub, post);
    ElseHoleJumps(pre, i, la, j, lb, post);
    JumpsLink(ThenHole(pre, 0, ua, ub, post), ThenHole(pre, 0, la, ub, post), ThenHole(pre, i, la, ub, post),
              ElseHole(pre, i, la, 0, lb, post), ElseHole(pre, i, la, j, lb, post),
              |pre|, |pre| + i, |pre| + i + j, ifs, elses);
  }

  lemma BranchLinks(ua: seq<Token>, la: seq<Token>, ub: seq<Token>, lb: seq<Token>,
                    pre: seq<Token>, post: seq<Token>, ifs: seq<nat>, elses: seq<nat>)
    requires LinksTo(ua, la, pre + [If(0)], [Else(0)] + (ub + [EndIf]) + post, ifs + [|pre|], elses)
    requires LinksTo(ub, lb, pre + [If(|ua| + 1)] + la + [Else(0)], [EndIf] + post, ifs, elses + [|pre| + 1 + |ua|])
    ensures LinksTo(Branch(0, ua, 0, ub), Branch(|ua| + 1, la, |ub| + 1, lb), pre, post, ifs, elses)
  {
    hide LinkFrom, Branch;
    HolesLink(ua, la, ub, lb, pre, post, ifs, elses);
    HoleFacts(pre, 0, ua, 0, ub, post);
    HoleFacts(pre, |ua| + 1, la, |ub| + 1, lb, post);
  }

  lemma BranchIf(c0: seq<Token>, q: nat, ifs: seq<nat>, elses: seq<nat>)
    requires q < |c0| && c0[q].If?
    ensures LinkFrom(Linker(c0, ifs, elses), q) == LinkFrom(Linker(c0, ifs + [q], elses), q + 1)
  {
  }

  lemma BranchElse(c1: seq<Token>, c2: seq<Token>, q: nat, n: nat, ifs: seq<nat>, elses: seq<nat>)
    requires q < n < |c1| && c1[n].Else?
    requires c2 == c1[q := If(n - q)]
    ensures LinkFrom(Linker(c1, ifs + [q], elses), n) == LinkFrom(Linker(c2, ifs, elses + [n]), n + 1)
  {
    assert (ifs + [q])[..|ifs|] == ifs;
  }

  lemma BranchEnd(c3: seq<Token>, c4: seq<Token>, n: nat, e: nat, ifs: seq<nat>, elses: seq<nat>)
    requires n < e < |c3| && c3[e] == EndIf
    requires c4 == c3[n := Else(e - n)]
    ensures LinkFrom(Linker(c3, ifs, elses + [n]), e) == LinkFrom(Linker(c4, ifs, elses), e + 1)
  {
    assert (elses + [n])[..|elses|] == elses;
  }

  lemma {:induction false} CodeLinks(m: Machine, e: Expr, opt: bool,
                                     pre: seq<Token>, post: seq<Token>, ifs: seq<nat>, elses: seq<nat>)
    requires WellFormed(e)
    ensures LinksTo(Code(m, e, opt, false), Code(m, e, opt, true), pre, post, ifs, elses)
    decreases e, 1
  {
    var u, l := Code(m, e, opt, false), Code(m, e, opt, true);
    match e
    case Const(v) => PlainLinks(ValToken(v), pre, post, ifs, elses);
    case Variable(p) => PlainLinks(VarToken(p), pre, post, ifs, elses);
    case Binary(op, e1, e2) =>
      BinaryLinks(m, op, e1, e2, opt, pre, post, ifs, elses);
    case Call(cb, _, optimizable, args) =>
      CallLinks(m, e, opt, pre, post, ifs, elses);
    case Let(p, e1) =>
      var u1, l1 := Code(m, e1, opt, false), Code(m, e1, opt, true);
      PlainLinks(VarToken(p), pre, u1 + ([Assign(p)] + post), ifs, elses);
      CodeLinks(m, e1, opt, pre + [VarToken(p)], [Assign(p)] + post, ifs, elses);
      SequenceLinks([VarToken(p)], [VarToken(p)], u1, l1, pre, [Assign(p)] + post, ifs, elses);
      PlainLinks(Assign(p), pre + ([VarToken(p)] + l1), post, ifs, elses);
      SequenceLinks([VarToken(p)] + u1, [VarToken(p)] + l1, [Assign(p)], [Assign(p)], pre, post, ifs, elses);
    case Cond(c, a, b) =>
      CondLinks(m, c, a, b, opt, pre, post, ifs, elses);
  }

  lemma {:induction false} CodeAllLinks(m: Machine, es: seq<Expr>, opt: bool,
                                        pre: seq<Token>, post: seq<Token>, ifs: seq<nat>, elses: seq<nat>)
    requires forall i :: 0 <= i < |es| ==> WellFormed(es[i])
    ensures LinksTo(CodeAll(m, es, opt, false), CodeAll(m, es, opt, true), pre, post, ifs, elses)
    decreases es, 0
  {
    if es != [] {
      var init, last := es[..|es| - 1], es[|es| - 1];
      CodeAllLinks(m, init, opt, pre, Code(m, last, opt, false) + post, ifs, elses);
      CodeLinks(m, last, opt, pre + CodeAll(m, init, opt, true), post, ifs, elses);
      SequenceLinks(CodeAll(m, init, opt, false), CodeAll(m, init, opt, true),
                    Code(m, last, opt, false), Code(m, last, opt, true), pre, post, ifs, elses);
    }
  }

  lemma AtomLinks(t: Token, l: seq<Token>, pre: seq<Token>, post: seq<Token>, ifs: seq<nat>, elses: seq<nat>)
    requires t.Operand? && AllAlike([t], l)
    ensures LinksTo([t], l, pre, post, ifs, elses)
  {
    assert l == [t] by { assert Alike([t][0], l[0]); }
    PlainLinks(t, pre, post, ifs, elses);
  }

  lemma {:induction false} BinaryLinks(m: Machine, op: Op, e1: Expr, e2: Expr, opt: bool,
                                       pre: seq<Token>, post: seq<Token>, ifs: seq<nat>, elses: seq<nat>)
    requires WellFormed(e1) && WellFormed(e2)
    ensures LinksTo(Code(m, Binary(op, e1, e2), opt, false), Code(m, Binary(op, e1, e2), opt, true), pre, post, ifs,
                    elses)
    decreases Binary(op, e1, e2), 0
  {
    hide LinksTo, Fuse, OpCode, FusedTail;
    var u1, l1 := Code(m, e1, opt, false), Code(m, e1, opt, true);
    var u2, l2 := Code(m, e2, opt, false), Code(m, e2, opt, true);
    CodeAlike(m, e1, opt);
    CodeAlike(m, e2, opt);
    OpCodeAlike(m, opt, u1 + u2, l1 + l2, op);
    OpCodeUnfused(m, opt, u1 + u2, op);
    OpCodeUnfused(m, opt, l1 + l2, op);
    if FusedTail(m, opt, u1 + u2, op).To? {
      var u := OpCode(m, opt, u1 + u2, op);
      OperandTail(m, e1, opt, false);
      OperandTail(m, e2, opt, false);
      FusedIsAtom(m, opt, u1, u2, op);
      AtomLinks(u[0], OpCode(m, opt, l1 + l2, op), pre, post, ifs, elses);
    } else {
      CodeLinks(m, e1, opt, pre, u2 + ([Bin(op)] + post), ifs, elses);
      CodeLinks(m, e2, opt, pre + l1, [Bin(op)] + post, ifs, elses);
      SequenceLinks(u1, l1, u2, l2, pre, [Bin(op)] + post, ifs, elses);
      PlainLinks(Bin(op), pre + (l1 + l2), post, ifs, elses);
      SequenceLinks(u1 + u2, l1 + l2, [Bin(op)], [Bin(op)], pre, post, ifs, elses);
    }
  }

  lemma OpCodeUnfused(m: Machine, opt: bool, code: seq<Token>, op: Op)
    requires |code| >= 2
    ensures !FusedTail(m, opt, code, op).To? ==> OpCode(m, opt, code, op) == code + [Bin(op)]
  {
  }

  lemma FusedIsAtom(m: Machine, opt: bool, cl: seq<Token>, cr: seq<Token>, op: Op)
    requires cl != [] && cr != [] && AtomicTail(cl) && AtomicTail(cr)
    requires FusedTail(m, opt, cl + cr, op).To?
    ensures IsAtom(OpCode(m, opt, cl + cr, op)) && OpCode(m, opt, cl + cr, op) == [OpCode(m, opt, cl + cr, op)[0]]
  {
    var n := |cl + cr|;
    var x, y := (cl + cr)[n - 2], (cl + cr)[n - 1];
    FuseNeedsOperands(m, op, x, y);
    assert y == cr[|cr| - 1] && |cr| == 1;
    assert x == cl[|cl| - 1] && |cl| == 1;
    FuseIsSoundIff(m, op, x, y, _ => 0.0);
  }

  lemma {:induction false} CallLinks(m: Machine, e: Expr, opt: bool,
                                     pre: seq<Token>, post: seq<Token>, ifs: seq<nat>, elses: seq<nat>)
    requires e.Call? && WellFormed(e)
    ensures LinksTo(Code(m, e, opt, false), Code(m, e, opt, true), pre, post, ifs, elses)
    decreases e, 0
  {
    var u, l := CodeAll(m, e.args, opt, false), CodeAll(m, e.args, opt, true);
    CodeAllAlike(m, e.args, opt);
    FunCodeAlike(m, opt, u, l, e.cb, Argc(e), e.optimizable);
    if DropsCall(opt, e.cb, Argc(e), e.optimizable) {
      CodeAllLinks(m, e.args, opt, pre, post, ifs, elses);
    } else if FoldsCall(opt, u, Argc(e), e.optimizable) {
      ArgumentTail(m, e.args, opt, false);
      var v := ValToken(CallValue(m, e.cb, TailValues(u, Argc(e))));
      assert Code(m, e, opt, false) == [v];
      AtomLinks(v, Code(m, e, opt, true), pre, post, ifs, elses);
    } else {
      var f := Fun(e.cb, Argc(e));
      CodeAllLinks(m, e.args, opt, pre, [f] + post, ifs, elses);
      PlainLinks(f, pre + l, post, ifs, elses);
      SequenceLinks(u, l, [f], [f], pre, post, ifs, elses);
    }
  }

  lemma {:induction false} CondLinks(m: Machine, c: Expr, a: Expr, b: Expr, opt: bool,
                                     pre: seq<Token>, post: seq<Token>, ifs: seq<nat>, elses: seq<nat>)
    requires WellFormed(c) && WellFormed(a) && WellFormed(b)
    ensures LinksTo(Code(m, Cond(c, a, b), opt, false), Code(m, Cond(c, a, b), opt, true), pre, post, ifs, elses)
    decreases Cond(c, a, b), 0
  {
    hide LinksTo, Branch;
    var uc, lc := Code(m, c, opt, false), Code(m, c, opt, true);
    var ua, la := Code(m, a, opt, false), Code(m, a, opt, true);
    var ub, lb := Code(m, b, opt, false), Code(m, b, opt, true);
    CodeAlike(m, a, opt);
    CodeAlike(m, b, opt);
    var ut, lt := Branch(0, ua, 0, ub), Branch(|ua| + 1, la, |ub| + 1, lb);
    var pc := pre + lc;
    CodeLinks(m, c, opt, pre, ut + post, ifs, elses);
    CodeLinks(m, a, opt, pc + [If(0)], [Else(0)] + (ub + [EndIf]) + post, ifs + [|pc|], elses);
    CodeLinks(m, b, opt, pc + [If(|ua| + 1)] + la + [Else(0)], [EndIf] + post, ifs, elses + [|pc| + 1 + |ua|]);
    BranchLinks(ua, la, ub, lb, pc, post, ifs, elses);
    SequenceLinks(uc, lc, ut, lt, pre, post, ifs, elses);
  }

  /** `Finalize` on the emitted code of a tree gives the tree's linked code and the end marker. */
  lemma FinalizeLinksTree(m: Machine, e: Expr, opt: bool)
    requires WellFormed(e)
    ensures Finalize(Code(m, e, opt, false)) == Code(m, e, opt, true) + [End]
  {
    var u, l := Code(m, e, opt, false), Code(m, e, opt, true);
    CodeLinks(m, e, opt, [], [End], [], []);
    assert [] + u + [End] == u + [End] && [] + l + [End] == l + [End];
    var linker := Linker(l + [End], [], []);
    assert linker.code[|l|] == End;
    assert LinkFrom(linker, |l|) == LinkFrom(linker, |l| + 1) == linker;
  }
}
