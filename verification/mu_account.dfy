/** Book-keeping that holds for every token string the reader lets through, grammatical or not:
    how many values, brackets and branches the two stacks account for, which mistakes can never be
    made good again, and that a run containing one is never accepted. */
module MuAccount {
  import opened MuBuilder
  import opened MuCode
  import opened MuParser
  import opened MuReader
  import opened Wrappers

  /** How many values a pending operator will consume in net. */
  function WeightOf(t: Tok): nat { if t.TBin? || t == TAssign || t == TIf || t == TElse then 1 else 0 }

  function Weight(ops: seq<Tok>): nat {
    if ops == [] then 0 else Weight(Pop(ops)) + WeightOf(Top(ops))
  }

  lemma WeightPush(ops: seq<Tok>, t: Tok)
    ensures Weight(ops + [t]) == Weight(ops) + WeightOf(t)
  {
    assert Pop(ops + [t]) == ops;
  }

  /** Every pending ELSE lies on its IF, or wrongly on a bracket. */
  predicate ElsePlaced(ops: seq<Tok>) {
    forall i :: 0 <= i < |ops| && ops[i] == TElse ==> i > 0 && (ops[i - 1] == TIf || ops[i - 1] == TOpen)
  }

  /** A ":" inside a bracket that its "?" is outside of. */
  predicate ElseOnOpen(ops: seq<Tok>) {
    exists i :: 0 < i < |ops| && ops[i] == TElse && ops[i - 1] == TOpen
  }

  /** What applying operators leaves as it is. */
  predicate SameAccount(y: Yard, z: Yard) {
    && SameCounters(y, z)
    && Weight(z.ops) + |y.vals| == Weight(y.ops) + |z.vals|
    && Count(z.ops, TOpen) == Count(y.ops, TOpen)
    && IfBalance(z) == IfBalance(y)
    && (ElsePlaced(y.ops) ==> ElsePlaced(z.ops))
    && (ElseOnOpen(y.ops) ==> ElseOnOpen(z.ops))
  }

  lemma PopPlaces(ops: seq<Tok>)
    requires ops != []
    ensures ElsePlaced(ops) ==> ElsePlaced(Pop(ops))
    ensures ElseOnOpen(ops) && !(|ops| > 1 && Top(ops) == TElse && Top(Pop(ops)) == TOpen) ==> ElseOnOpen(Pop(ops))
  {
    if ElseOnOpen(ops) {
      var i :| 0 < i < |ops| && ops[i] == TElse && ops[i - 1] == TOpen;
      if i < |ops| - 1 { assert Pop(ops)[i] == TElse; }
    }
  }

  lemma ApplyTopAccounts(m: Machine, store: Store, y: Yard)
    requires y.ops != [] && !StopsRemaining(Top(y.ops)) && ApplyTop(m, store, y).Some?
    ensures SameAccount(y, ApplyTop(m, store, y).value)
  {
    hide OpCode, FunCode, FusedTail, ElsePlaced, ElseOnOpen;
    PopPlaces(y.ops);
    if Top(y.ops) == TElse {
      PopPlaces(Pop(y.ops));
      var rest := Pop(Pop(y.ops));
      assert y.ops == rest + [TIf] + [TElse];
      CountAll(rest + [TIf], TElse);
      CountAll(rest, TIf);
    }
  }

  lemma AccountsCompose(x: Yard, y: Yard, z: Yard)
    requires SameAccount(x, y) && SameAccount(y, z)
    ensures SameAccount(x, z)
  {
  }

  lemma {:induction false} RemainingAccounts(m: Machine, store: Store, y: Yard)
    requires ApplyRemaining(m, store, y).Some?
    ensures SameAccount(y, ApplyRemaining(m, store, y).value)
    decreases |y.ops|
  {
    hide SameAccount, ApplyTop;
    if y.ops != [] && !StopsRemaining(Top(y.ops)) {
      var z := ApplyTop(m, store, y).value;
      ApplyTopAccounts(m, store, y);
      RemainingAccounts(m, store, z);
      AccountsCompose(y, z, ApplyRemaining(m, store, z).value);
    } else {
      AccountIsReflexive(y);
    }
  }

  lemma AccountIsReflexive(y: Yard)
    ensures SameAccount(y, y)
  {
  }

  lemma {:induction false} RoomAccounts(m: Machine, store: Store, y: Yard, t: Tok)
    requires MakeRoom(m, store, y, t).Some?
    ensures SameAccount(y, MakeRoom(m, store, y, t).value)
    decreases |y.ops|
  {
    hide SameAccount, ApplyTop;
    if y.ops != [] && !StopsLoop(Top(y.ops)) && Yields(Top(y.ops), t) {
      var z := ApplyTop(m, store, y).value;
      ApplyTopAccounts(m, store, y);
      RoomAccounts(m, store, z, t);
      AccountsCompose(y, z, MakeRoom(m, store, z, t).value);
    } else {
      AccountIsReflexive(y);
    }
  }

  // ----- the invariant of every run -----

  function Held(f: Flags): nat { if HasOperand(f) then 1 else 0 }

  /** The counters agree with the operator stack, and no more values have been stacked than the
      pending operators and the operand just read account for. */
  predicate Accounted(r: Reader, y: Yard) {
    && (WantsOperand(r.flags) || HasOperand(r.flags))
    && (forall i :: 0 <= i < |y.args| ==> y.args[i] == 1)
    && |y.args| == 1 + Count(y.ops, TOpen) + y.ifElse
    && IfBalance(y) == y.ifElse >= 0
    && Count(y.ops, TOpen) >= r.brackets
    && ElsePlaced(y.ops)
    && Weight(y.ops) + Held(r.flags) >= |y.vals|
    && (y.last == Some(TOpen) ==> r.flags == AFTER_OPEN)
  }

  /** The mistakes the loop itself does not notice: an operand is missing, a closing bracket found
      no opening one above its "?", or a ":" found a bracket above its "?". */
  predicate Doomed(r: Reader, y: Yard) {
    || Weight(y.ops) + Held(r.flags) > |y.vals|
    || Count(y.ops, TOpen) > r.brackets
    || ElseOnOpen(y.ops)
  }

  lemma CountAll(ops: seq<Tok>, t: Tok)
    ensures Count(ops + [t], TOpen) == Count(ops, TOpen) + (if t == TOpen then 1 else 0)
    ensures Count(ops + [t], TIf) == Count(ops, TIf) + (if t == TIf then 1 else 0)
    ensures Count(ops + [t], TElse) == Count(ops, TElse) + (if t == TElse then 1 else 0)
    ensures Weight(ops + [t]) == Weight(ops) + WeightOf(t)
    ensures ElseOnOpen(ops) ==> ElseOnOpen(ops + [t])
    ensures t == TElse && ops != [] && Top(ops) == TOpen ==> ElseOnOpen(ops + [t])
    ensures ElsePlaced(ops) && (t == TElse ==> ops != [] && StopsRemaining(Top(ops))) ==> ElsePlaced(ops + [t])
  {
    CountPush(ops, t, TOpen);
    CountPush(ops, t, TIf);
    CountPush(ops, t, TElse);
    WeightPush(ops, t);
    if ElseOnOpen(ops) {
      var i :| 0 < i < |ops| && ops[i] == TElse && ops[i - 1] == TOpen;
      assert (ops + [t])[i] == TElse;
    }
    if t == TElse && ops != [] && Top(ops) == TOpen {
      assert (ops + [t])[|ops|] == TElse;
    }
  }

  /** What one accepted token does to the account: it stays in order, and a mistake stays. */
  predicate KeepsAccount(r: Reader, y: Yard, r1: Reader, z: Yard) {
    Accounted(r1, z) && (Doomed(r, y) ==> Doomed(r1, z))
  }

  lemma BinaryKeeps(m: Machine, store: Store, r: Reader, y: Yard, t: Tok, r1: Reader)
    requires Accounted(r, y) && HasOperand(r.flags) && (t.TBin? || t == TAssign)
    requires r1.flags == AFTER_OPERATOR && r1.brackets == r.brackets
    requires StepBinary(m, store, y, t).Some?
    ensures KeepsAccount(r, y, r1, StepBinary(m, store, y, t).value.(last := Some(t)))
  {
    hide MakeRoom, ElsePlaced, ElseOnOpen, Weight, Count;
    FlagsAreExclusive(r1.flags);
    RoomAccounts(m, store, y, t);
    CountAll(MakeRoom(m, store, y, t).value.ops, t);
  }

  lemma IfKeeps(m: Machine, store: Store, r: Reader, y: Yard, r1: Reader)
    requires Accounted(r, y) && r1.flags == AFTER_BRANCH && r1.brackets == r.brackets
    requires StepIf(m, store, y).Some?
    ensures var z := StepIf(m, store, y).value.(last := Some(TIf));
      KeepsAccount(r, y, r1, z) && (WantsOperand(r.flags) ==> Doomed(r1, z))
  {
    hide MakeRoom, ElsePlaced, ElseOnOpen, Weight, Count;
    FlagsAreExclusive(r1.flags);
    FlagsAreExclusive(r.flags);
    var y1 := y.(args := y.args + [1], ifElse := y.ifElse + 1);
    RoomAccounts(m, store, y1, TIf);
    CountAll(MakeRoom(m, store, y1, TIf).value.ops, TIf);
  }

  lemma ElseKeeps(m: Machine, store: Store, r: Reader, y: Yard, r1: Reader)
    requires Accounted(r, y) && r1.flags == AFTER_BRANCH && r1.brackets == r.brackets
    requires StepElse(m, store, y).Some?
    ensures var z := StepElse(m, store, y).value.(last := Some(TElse));
      KeepsAccount(r, y, r1, z) && (WantsOperand(r.flags) ==> Doomed(r1, z))
  {
    hide ApplyRemaining, ElsePlaced, ElseOnOpen, Weight;
    FlagsAreExclusive(r1.flags);
    FlagsAreExclusive(r.flags);
    var y1 := y.(args := Pop(y.args), ifElse := y.ifElse - 1);
    RemainingAccounts(m, store, y1);
    ApplyRemainingKeeps(m, store, y1);
    var z := ApplyRemaining(m, store, y1).value;
    assert z.ops != [];
    hide Count;
    CountAll(z.ops, TElse);
  }

  lemma CloseKeeps(m: Machine, store: Store, r: Reader, y: Yard, r1: Reader)
    requires Accounted(r, y) && HasOperand(r.flags) && r.brackets > 0
    requires r1.flags == AFTER_CLOSE && r1.brackets == r.brackets - 1
    requires StepClose(m, store, y).Some?
    ensures KeepsAccount(r, y, r1, StepClose(m, store, y).value.(last := Some(TClose)))
  {
    hide ApplyRemaining, ElsePlaced, ElseOnOpen, Weight, Count;
    FlagsAreExclusive(r.flags);
    RemainingAccounts(m, store, y);
    var z := ApplyRemaining(m, store, y).value;
    assert y.(args := y.args) == y;
    if z.ops != [] && Top(z.ops) == TOpen {
      assert z.ops == Pop(z.ops) + [TOpen];
      CountAll(Pop(z.ops), TOpen);
      PopPlaces(z.ops);
    }
  }

  lemma PushKeeps(r: Reader, y: Yard, t: Tok, r1: Reader)
    requires Accounted(r, y) && WantsOperand(r.flags)
    requires (t == TOpen && r1.flags == AFTER_OPEN && r1.brackets == r.brackets + 1)
      || (t.TSign? && r1.flags == AFTER_SIGN && r1.brackets == r.brackets)
    ensures KeepsAccount(r, y, r1, PushOp(y.(args := if t == TOpen then y.args + [1] else y.args), t).(last := Some(t)))
  {
    hide ElsePlaced, ElseOnOpen, Weight, Count;
    FlagsAreExclusive(r1.flags);
    FlagsAreExclusive(r.flags);
    CountAll(y.ops, t);
  }

  lemma OperandKeeps(r: Reader, y: Yard, v: ValTok, b: Builder, t: Tok, r1: Reader)
    requires Accounted(r, y) && WantsOperand(r.flags) && (t.TVal? || t.TVar?)
    requires (r1.flags == AFTER_VAL || r1.flags == AFTER_VAR) && r1.brackets == r.brackets
    ensures KeepsAccount(r, y, r1, y.(vals := y.vals + [v], b := b, last := Some(t)))
  {
    FlagsAreExclusive(r1.flags);
    FlagsAreExclusive(r.flags);
  }

  /** Which tokens the flags let through, by what they follow. */
  lemma TokenFits(input: seq<Lexeme>, r: Reader)
    requires (WantsOperand(r.flags) || HasOperand(r.flags)) && ReadToken(input, r).Read?
    ensures var t, r1 := ReadToken(input, r).tok, ReadToken(input, r).next;
      match t
      case TVal(v) =>
        && WantsOperand(r.flags) && r1 == Reader(r.pos + 1, AFTER_VAL, r.brackets) && r.pos < |input|
        && input[r.pos] == LNum(v)
      case TVar(p) =>
        && WantsOperand(r.flags) && r1 == Reader(r.pos + 1, AFTER_VAR, r.brackets) && r.pos < |input|
        && input[r.pos] == LName(p)
      case TBin(op) =>
        && HasOperand(r.flags) && r1 == Reader(r.pos + 1, AFTER_OPERATOR, r.brackets) && r.pos < |input|
        && input[r.pos] == LOp(op)
      case TAssign =>
        && r.flags == AFTER_VAR && r1 == Reader(r.pos + 1, AFTER_OPERATOR, r.brackets) && r.pos < |input|
        && input[r.pos] == LAssign
      case TSign(cb) =>
        && WantsOperand(r.flags) && r.flags != AFTER_SIGN && r1 == Reader(r.pos + 1, AFTER_SIGN, r.brackets)
        && r.pos < |input| && input[r.pos].LOp? && SignOf(input[r.pos].op) == Some(cb)
      case TOpen =>
        && WantsOperand(r.flags) && r1 == Reader(r.pos + 1, AFTER_OPEN, r.brackets + 1) && r.pos < |input|
        && input[r.pos] == LOpen
      case TClose =>
        && HasOperand(r.flags) && r.brackets > 0 && r1 == Reader(r.pos + 1, AFTER_CLOSE, r.brackets - 1)
        && r.pos < |input| && input[r.pos] == LClose
      case TIf =>
        && (HasOperand(r.flags) || r.flags == AFTER_SIGN) && r1 == Reader(r.pos + 1, AFTER_BRANCH, r.brackets)
        && r.pos < |input| && input[r.pos] == LQuestion
      case TElse =>
        && (HasOperand(r.flags) || r.flags == AFTER_SIGN) && r1 == Reader(r.pos + 1, AFTER_BRANCH, r.brackets)
        && r.pos < |input| && input[r.pos] == LColon
      case TEnd => r.pos >= |input| && r.brackets == 0
  {
    if WantsOperand(r.flags) { WantsOperandPermits(r.flags); } else { HasOperandPermits(r.flags); }
  }

  lemma StepKeepsAccount(m: Machine, store: Store, input: seq<Lexeme>, r: Reader, y: Yard)
    requires Accounted(r, y) && ReadToken(input, r).Read? && ReadToken(input, r).tok != TEnd
    requires StepToken(m, store, y, ReadToken(input, r).tok).Some?
    ensures var t, r1 := ReadToken(input, r).tok, ReadToken(input, r).next;
      KeepsAccount(r, y, r1, StepToken(m, store, y, t).value.(last := Some(t)))
  {
    TokenFits(input, r);
    var t, r1 := ReadToken(input, r).tok, ReadToken(input, r).next;
    hide ReadToken, StepBinary, StepIf, StepElse, StepClose, KeepsAccount;
    match t
    case TVal(v) => OperandKeeps(r, y, VVal(v), AddVal(y.b, v), t, r1);
    case TVar(p) => OperandKeeps(r, y, VVar(p), AddVar(y.b, p), t, r1);
    case TBin(_) => BinaryKeeps(m, store, r, y, t, r1);
    case TAssign => BinaryKeeps(m, store, r, y, t, r1);
    case TSign(_) => PushKeeps(r, y, t, r1);
    case TOpen => PushKeeps(r, y, t, r1);
    case TClose => CloseKeeps(m, store, r, y, r1);
    case TIf => IfKeeps(m, store, r, y, r1);
    case TElse => ElseKeeps(m, store, r, y, r1);
  }

  // ----- the end -----

  lemma {:induction false} NoOpens(ops: seq<Tok>, i: nat)
    requires Count(ops, TOpen) == 0 && i < |ops|
    ensures ops[i] != TOpen
  {
    if i < |ops| - 1 {
      NoOpens(Pop(ops), i);
      assert Pop(ops)[i] == ops[i];
    }
  }

  /** Without brackets every ELSE sits on an IF of its own; an IF on top has none. */
  lemma {:induction false} ElsesArePaired(ops: seq<Tok>)
    requires ElsePlaced(ops) && Count(ops, TOpen) == 0
    ensures Count(ops, TIf) - Count(ops, TElse) >= if ops != [] && Top(ops) == TIf then 1 else 0
  {
    if ops != [] {
      PopPlaces(ops);
      ElsesArePaired(Pop(ops));
      if Top(ops) == TElse {
        assert ops[|ops| - 1] == TElse;
        NoOpens(ops, |ops| - 2);
        assert Top(Pop(ops)) == ops[|ops| - 2];
      }
    }
  }

  /** Acceptance: the operator stack is empty, exactly one value is left, the formula ended after an
      operand, and none of the unnoticed mistakes was ever made. */
  lemma AcceptedIsClean(m: Machine, store: Store, r: Reader, y: Yard)
    requires Accounted(r, y) && r.brackets == 0
    requires StepEnd(m, store, y).Some? && Finished(StepEnd(m, store, y).value)
    ensures var z := StepEnd(m, store, y).value; z.ops == [] && |z.vals| == 1 && z.args == [1]
    ensures !Doomed(r, y) && HasOperand(r.flags)
  {
    hide ApplyRemaining, ElsePlaced, ElseOnOpen, Weight, Count, Finalize;
    RemainingAccounts(m, store, y);
    ApplyRemainingKeeps(m, store, y);
    var z := ApplyRemaining(m, store, y).value;
    assert Count(z.ops, TOpen) == 0 && z.ifElse == 0;
    ElsesArePaired(z.ops);
    if z.ops != [] {
      NoOpens(z.ops, |z.ops| - 1);
    }
    assert z.ops == [];
    EmptyStacks();
    ElseOnOpenNeedsOpen(z.ops);
  }

  lemma EmptyStacks()
    ensures Weight([]) == 0 && Count([], TOpen) == 0 && !ElseOnOpen([])
  {
  }

  lemma ElseOnOpenNeedsOpen(ops: seq<Tok>)
    requires ops == []
    ensures !ElseOnOpen(ops)
  {
  }

  /** Once doomed, a run is never accepted, whatever follows. */
  lemma {:induction false} DoomedIsRejected(m: Machine, store: Store, input: seq<Lexeme>, r: Reader, y: Yard)
    requires Accounted(r, y) && Doomed(r, y)
    ensures var res := ParseFrom(m, store, input, r, y); res.Some? ==> !Finished(res.value)
    decreases |input| - r.pos
  {
    hide ReadToken, StepToken, Doomed, Accounted, Finished;
    ParseFromUnrolls(m, store, input, r, y);
    ReadAdvances(input, r);
    var rd := ReadToken(input, r);
    if rd.Read? && StepToken(m, store, y, rd.tok).Some? {
      var z := StepToken(m, store, y, rd.tok).value.(last := Some(rd.tok));
      if rd.tok == TEnd {
        DoomedAtEnd(m, store, input, r, y);
      } else {
        StepKeepsAccount(m, store, input, r, y);
        DoomedIsRejected(m, store, input, rd.next, z);
      }
    }
  }

  lemma DoomedAtEnd(m: Machine, store: Store, input: seq<Lexeme>, r: Reader, y: Yard)
    requires Accounted(r, y) && Doomed(r, y) && ReadToken(input, r).Read? && ReadToken(input, r).tok == TEnd
    requires StepToken(m, store, y, TEnd).Some?
    ensures !Finished(StepToken(m, store, y, TEnd).value.(last := Some(TEnd)))
  {
    TokenFits(input, r);
    hide ReadToken, StepEnd, Doomed, Accounted;
    if Finished(StepEnd(m, store, y).value) { AcceptedIsClean(m, store, r, y); }
  }
}
