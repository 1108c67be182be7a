/** `ParserTokenReader`: the syntax-flag automaton that decides which token may come next, and
    whether a `+` or `-` is a binary operator or a sign.  The input is the formula cut into
    lexemes; recognising characters is not modelled. */
module MuReader {
  import opened MuCode
  import opened Wrappers

  datatype Lexeme =
    | LNum(v: real)
    | LName(p: Ptr)
    | LOp(op: Op)
    | LAssign
    | LOpen
    | LClose
    | LQuestion
    | LColon

  datatype Tok =
    | TVal(v: real)
    | TVar(p: Ptr)
    | TBin(op: Op)
    | TAssign
    | TSign(cb: Callable)
    | TOpen
    | TClose
    | TIf
    | TElse
    | TEnd

  type Flags = bv16

  const noBO: Flags := 1 << 0
  const noBC: Flags := 1 << 1
  const noVAL: Flags := 1 << 2
  const noVAR: Flags := 1 << 3
  const noARG_SEP: Flags := 1 << 4
  const noFUN: Flags := 1 << 5
  const noOPT: Flags := 1 << 6
  const noPOSTOP: Flags := 1 << 7
  const noINFIXOP: Flags := 1 << 8
  const noEND: Flags := 1 << 9
  const noSTR: Flags := 1 << 10
  const noASSIGN: Flags := 1 << 11
  const noIF: Flags := 1 << 12
  const noELSE: Flags := 1 << 13

  const START_OF_LINE: Flags := noOPT | noBC | noPOSTOP | noASSIGN | noIF | noELSE | noARG_SEP
  const AFTER_OPERATOR: Flags := noBC | noOPT | noARG_SEP | noPOSTOP | noASSIGN | noIF | noELSE | noEND
  const AFTER_OPEN: Flags := noBC | noOPT | noEND | noARG_SEP | noPOSTOP | noASSIGN | noIF | noELSE
  const AFTER_BRANCH: Flags := noBC | noPOSTOP | noEND | noOPT | noIF | noELSE | noSTR
  const AFTER_SIGN: Flags := noPOSTOP | noINFIXOP | noOPT | noBC | noSTR | noASSIGN | noARG_SEP
  const AFTER_CLOSE: Flags := noBO | noVAR | noVAL | noFUN | noINFIXOP | noSTR | noASSIGN
  const AFTER_VAL: Flags := noVAL | noVAR | noFUN | noBO | noINFIXOP | noSTR | noASSIGN
  const AFTER_VAR: Flags := noVAL | noVAR | noFUN | noBO | noINFIXOP | noSTR

  predicate Forbids(flags: Flags, bit: Flags) { flags & bit != 0 }

  /** The bracket stack only ever holds opening brackets, so its depth says it all. */
  datatype Reader = Reader(pos: nat, flags: Flags, brackets: nat)

  datatype Reading = Bad | Read(tok: Tok, next: Reader)

  function SignOf(op: Op): Option<Callable> {
    if op == SUB then Some(UnaryMinus) else if op == ADD then Some(UnaryPlus) else None
  }

  /** `IsInfixOpTok` */
  function ReadSign(r: Reader, op: Op): Reading {
    match SignOf(op)
    case None => Bad
    case Some(cb) =>
      if Forbids(r.flags, noINFIXOP) then Bad
      else Read(TSign(cb), Reader(r.pos + 1, AFTER_SIGN, r.brackets))
  }

  /** `IsEOF` */
  function ReadEnd(r: Reader): Reading {
    if Forbids(r.flags, noEND) || r.brackets != 0 then Bad
    else Read(TEnd, r.(flags := 0))
  }

  function Accept(r: Reader, forbidden: Flags, tok: Tok, flags: Flags): Reading {
    if Forbids(r.flags, forbidden) then Bad else Read(tok, Reader(r.pos + 1, flags, r.brackets))
  }

  /** `ReadNextToken` */
  function ReadToken(input: seq<Lexeme>, r: Reader): Reading {
    if r.pos >= |input| then ReadEnd(r)
    else match input[r.pos]
      case LOp(op) =>
        if Forbids(r.flags, noOPT) then ReadSign(r, op)
        else Read(TBin(op), Reader(r.pos + 1, AFTER_OPERATOR, r.brackets))
      case LAssign => Accept(r, noASSIGN | noOPT, TAssign, AFTER_OPERATOR)
      case LOpen =>
        if Forbids(r.flags, noBO) then Bad
        else Read(TOpen, Reader(r.pos + 1, AFTER_OPEN, r.brackets + 1))
      case LClose =>
        if Forbids(r.flags, noBC) || r.brackets == 0 then Bad
        else Read(TClose, Reader(r.pos + 1, AFTER_CLOSE, r.brackets - 1))
      case LQuestion => Accept(r, noIF, TIf, AFTER_BRANCH)
      case LColon => Accept(r, noELSE, TElse, AFTER_BRANCH)
      case LNum(v) => Accept(r, noVAL, TVal(v), AFTER_VAL)
      case LName(p) => Accept(r, noVAR, TVar(p), AFTER_VAR)
  }

  predicate WantsOperand(f: Flags) {
    f == START_OF_LINE || f == AFTER_OPERATOR || f == AFTER_OPEN || f == AFTER_BRANCH || f == AFTER_SIGN
  }

  predicate HasOperand(f: Flags) { f == AFTER_VAL || f == AFTER_VAR || f == AFTER_CLOSE }

  /** What the flags permit where an operand is due: an operand, a bracket or (not twice) a sign.
      The flags after a sign also let `?`, `:` and the end of the formula through. */
  lemma WantsOperandPermits(f: Flags)
    requires WantsOperand(f)
    ensures !Forbids(f, noVAL) && !Forbids(f, noVAR) && !Forbids(f, noBO)
    ensures Forbids(f, noBC) && Forbids(f, noOPT) && Forbids(f, noASSIGN | noOPT)
    ensures Forbids(f, noINFIXOP) <==> f == AFTER_SIGN
    ensures Forbids(f, noIF) <==> f != AFTER_SIGN
    ensures Forbids(f, noELSE) <==> f != AFTER_SIGN
    ensures Forbids(f, noEND) <==> f != AFTER_SIGN && f != START_OF_LINE
  {
  }

  /** What they permit after an operand: an operator, a `?:` part, a closing bracket or the end. */
  lemma HasOperandPermits(f: Flags)
    requires HasOperand(f)
    ensures Forbids(f, noVAL) && Forbids(f, noVAR) && Forbids(f, noBO)
    ensures !Forbids(f, noBC) && !Forbids(f, noOPT) && !Forbids(f, noIF) && !Forbids(f, noELSE) && !Forbids(f, noEND)
    ensures Forbids(f, noASSIGN | noOPT) <==> f != AFTER_VAR
  {
  }

  lemma FlagsAreExclusive(f: Flags)
    ensures !(WantsOperand(f) && HasOperand(f))
    ensures !WantsOperand(0) && !HasOperand(0)
  {
  }

  // ----- the object -----

  datatype Recognised = NotMine | Error | Found(tok: Tok)

  class TokenReader {
    const formula: seq<Lexeme>
    var pos: nat
    var synFlags: Flags
    var bracketStack: nat

    function State(): Reader reads this { Reader(pos, synFlags, bracketStack) }

    constructor (formula: seq<Lexeme>)
      ensures this.formula == formula && State() == Reader(0, START_OF_LINE, 0)
    {
      this.formula := formula;
      pos, synFlags, bracketStack := 0, START_OF_LINE, 0;
    }

    method IsEOF() returns (r: Recognised)
      modifies this
      ensures r.NotMine? <==> old(pos) < |formula|
      ensures r.NotMine? ==> State() == old(State())
      ensures !r.NotMine? ==> Agrees(r, ReadEnd(old(State())))
    {
      if pos < |formula| {
        return NotMine;
      }
      if Forbids(synFlags, noEND) {
        return Error;
      }
      if bracketStack != 0 {
        return Error;
      }
      synFlags := 0;
      r := Found(TEnd);
    }

    /** The recogniser found the specified token and moved to the specified state, or failed with it. */
    predicate Agrees(r: Recognised, spec: Reading)
      reads this
    {
      match spec
      case Bad => r.Error?
      case Read(tok, next) => r == Found(tok) && State() == next
    }

    method IsInfixOpTok(op: Op) returns (r: Recognised)
      requires pos < |formula|
      modifies this
      ensures SignOf(op).None? ==> r.NotMine? && State() == old(State())
      ensures SignOf(op).Some? ==> Agrees(r, ReadSign(old(State()), op))
    {
      match SignOf(op)
      case None => r := NotMine;
      case Some(cb) =>
        pos := pos + 1;
        if Forbids(synFlags, noINFIXOP) {
          return Error;
        }
        synFlags := AFTER_SIGN;
        r := Found(TSign(cb));
    }

    method IsBuiltIn() returns (r: Recognised)
      requires pos < |formula|
      modifies this
      ensures formula[old(pos)].LNum? || formula[old(pos)].LName? ==> r.NotMine? && State() == old(State())
      ensures !formula[old(pos)].LNum? && !formula[old(pos)].LName? ==> Agrees(r, ReadToken(formula, old(State())))
    {
      match formula[pos]
      case LOp(op) =>
        if Forbids(synFlags, noOPT) {
          r := IsInfixOpTok(op);
          if r.NotMine? { r := Error; }
          return;
        }
        synFlags := AFTER_OPERATOR;
        pos := pos + 1;
        r := Found(TBin(op));
      case LAssign =>
        if Forbids(synFlags, noASSIGN) {
          return Error;
        }
        if Forbids(synFlags, noOPT) {
          return Error;
        }
        synFlags := AFTER_OPERATOR;
        pos := pos + 1;
        r := Found(TAssign);
      case LOpen =>
        if Forbids(synFlags, noBO) {
          return Error;
        }
        synFlags := AFTER_OPEN;
        bracketStack := bracketStack + 1;
        pos := pos + 1;
        r := Found(TOpen);
      case LClose =>
        if Forbids(synFlags, noBC) {
          return Error;
        }
        synFlags := AFTER_CLOSE;
        if bracketStack != 0 {
          bracketStack := bracketStack - 1;
        } else {
          return Error;
        }
        pos := pos + 1;
        r := Found(TClose);
      case LQuestion =>
        if Forbids(synFlags, noIF) {
          return Error;
        }
        synFlags := AFTER_BRANCH;
        pos := pos + 1;
        r := Found(TIf);
      case LColon =>
        if Forbids(synFlags, noELSE) {
          return Error;
        }
        synFlags := AFTER_BRANCH;
        pos := pos + 1;
        r := Found(TElse);
      case _ => r := NotMine;
    }

    method IsValTok() returns (r: Recognised)
      requires pos < |formula|
      modifies this
      ensures !formula[old(pos)].LNum? ==> r.NotMine? && State() == old(State())
      ensures formula[old(pos)].LNum? ==> Agrees(r, ReadToken(formula, old(State())))
    {
      if !formula[pos].LNum? {
        return NotMine;
      }
      var v := formula[pos].v;
      pos := pos + 1;
      if Forbids(synFlags, noVAL) {
        return Error;
      }
      synFlags := AFTER_VAL;
      r := Found(TVal(v));
    }

    method IsVarTok() returns (r: Recognised)
      requires pos < |formula| && formula[pos].LName?
      modifies this
      ensures Agrees(r, ReadToken(formula, old(State())))
    {
      if Forbids(synFlags, noVAR) {
        return Error;
      }
      var p := formula[pos].p;
      pos := pos + 1;
      synFlags := AFTER_VAR;
      r := Found(TVar(p));
    }

    /** The recognisers in the order the reader tries them. */
    method ReadNextToken() returns (r: Recognised)
      modifies this
      ensures Agrees(r, ReadToken(formula, old(State())))
    {
      r := IsEOF();
      if !r.NotMine? { return; }
      r := IsBuiltIn();
      if !r.NotMine? { return; }
      r := IsValTok();
      if !r.NotMine? { return; }
      r := IsVarTok();
    }
  }
}
