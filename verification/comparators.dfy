/**
  The comparator structs of the library: each is a binary predicate with a
  symbolic spelling (`toStr`) used in diagnostics. The relational ones are
  templates over any comparable operands and are modelled on `int`; the
  string ones take C strings and are modelled on `seq<char>` with
  NUL-terminated semantics.
 */
module Comparators {
  import opened Text

  /** LT, GT, LE, GE, EQ and NE. */
  datatype RelOp = LT | GT | LE | GE | EQ | NE

  /** STREQ, STRNE, STRCASEEQ and STRCASENE. */
  datatype StrOp = STREQ | STRNE | STRCASEEQ | STRCASENE

  /** The `toStr()` spelling of a relational comparator. */
  function RelSymbol(op: RelOp): string {
    match op
    case LT => "<"
    case GT => ">"
    case LE => "<="
    case GE => ">="
    case EQ => "=="
    case NE => "!="
  }

  /** The `toStr()` spelling of a string comparator. */
  function StrSymbol(op: StrOp): string {
    match op
    case STREQ => "=="
    case STRNE => "!="
    case STRCASEEQ => "=="
    case STRCASENE => "!="
  }

  /** What a printed relational symbol means for two integers (reference reading). */
  function SymbolMeaning(sym: string, v1: int, v2: int): bool {
    if sym == "<" then v1 < v2
    else if sym == ">" then v1 > v2
    else if sym == "<=" then v1 <= v2
    else if sym == ">=" then v1 >= v2
    else if sym == "==" then v1 == v2
    else if sym == "!=" then v1 != v2
    else false
  }

  /**
    The relational comparators exactly as the header writes them: NE's call
    operator tests `==`. Every comparator but NE holds exactly when the
    symbol it prints holds; NE holds exactly when its symbol fails.
   */
  function RelHoldsAsWritten(op: RelOp, v1: int, v2: int): (r: bool)
    ensures op != NE ==> r == SymbolMeaning(RelSymbol(op), v1, v2)
    ensures op == NE ==> r == !SymbolMeaning(RelSymbol(op), v1, v2)
  {
    match op
    case LT => v1 < v2
    case GT => v1 > v2
    case LE => v1 <= v2
    case GE => v1 >= v2
    case EQ => v1 == v2
    case NE => v1 == v2
  }

  /**
    The relational comparators with NE corrected to `!=`; this is the
    definition the assertion engine uses. Each comparator holds exactly when
    the symbol it prints holds.
   */
  function RelHolds(op: RelOp, v1: int, v2: int): (r: bool)
    ensures r == SymbolMeaning(RelSymbol(op), v1, v2)
  {
    match op
    case LT => v1 < v2
    case GT => v1 > v2
    case LE => v1 <= v2
    case GE => v1 >= v2
    case EQ => v1 == v2
    case NE => v1 != v2
  }

  /** As written, NE is the same predicate as EQ. */
  lemma NeAsWrittenIsEq(v1: int, v2: int)
    ensures RelHoldsAsWritten(NE, v1, v2) == RelHoldsAsWritten(EQ, v1, v2)
    ensures RelHoldsAsWritten(NE, v1, v2) != SymbolMeaning(RelSymbol(NE), v1, v2)
  {
  }

  /** A concrete witness: as written, `EXPECT_BINARY(0, 1, NE)` fails although 0 != 1. */
  lemma NeAsWrittenCounterexample()
    ensures !RelHoldsAsWritten(NE, 0, 1) && SymbolMeaning(RelSymbol(NE), 0, 1)
  {
  }

  /** NE is the only comparator the correction touches. */
  lemma AsWrittenAgreesExceptNe(op: RelOp, v1: int, v2: int)
    requires op != NE
    ensures RelHoldsAsWritten(op, v1, v2) == RelHolds(op, v1, v2)
  {
  }

  /** The corrected NE is the negation of EQ. */
  lemma NeIsNotEq(v1: int, v2: int)
    ensures RelHolds(NE, v1, v2) == !RelHolds(EQ, v1, v2)
  {
  }

  /** Distinct relational comparators print distinct symbols. */
  lemma RelSymbolInjective(op1: RelOp, op2: RelOp)
    ensures RelSymbol(op1) == RelSymbol(op2) ==> op1 == op2
  {
  }

  /**
    The string comparators: STREQ/STRNE test `strcmp(v1, v2) == 0` / `!= 0`
    and STRCASEEQ/STRCASENE the same with `_stricmp`. Each is characterised
    against the C strings the operands denote.
   */
  function StrHolds(op: StrOp, v1: string, v2: string): (r: bool)
    ensures op == STREQ ==> (r <==> CStr(v1) == CStr(v2))
    ensures op == STRNE ==> (r <==> CStr(v1) != CStr(v2))
    ensures op == STRCASEEQ ==> (r <==> LowerStr(CStr(v1)) == LowerStr(CStr(v2)))
    ensures op == STRCASENE ==> (r <==> LowerStr(CStr(v1)) != LowerStr(CStr(v2)))
  {
    match op
    case STREQ => StrCmp(v1, v2) == 0
    case STRNE => StrCmp(v1, v2) != 0
    case STRCASEEQ => StrCaseCmp(v1, v2) == 0
    case STRCASENE => StrCaseCmp(v1, v2) != 0
  }

  /** STRNE and STRCASENE are the negations of STREQ and STRCASEEQ. */
  lemma StrNegations(v1: string, v2: string)
    ensures StrHolds(STRNE, v1, v2) == !StrHolds(STREQ, v1, v2)
    ensures StrHolds(STRCASENE, v1, v2) == !StrHolds(STRCASEEQ, v1, v2)
  {
  }

  /** Case-sensitive equality implies case-insensitive equality. */
  lemma StrEqImpliesStrCaseEq(v1: string, v2: string)
    ensures StrHolds(STREQ, v1, v2) ==> StrHolds(STRCASEEQ, v1, v2)
  {
  }

  /** `"FOO"` and `"foo"` differ for STREQ but agree for STRCASEEQ. */
  lemma StrCaseEqExample()
    ensures !StrHolds(STREQ, "FOO", "foo") && StrHolds(STRCASEEQ, "FOO", "foo")
  {
    assert CStr("FOO")[0] == 'F';
    assert CStr("foo")[0] == 'f';
    assert LowerStr(CStr("FOO")) == "foo";
    assert LowerStr(CStr("foo")) == "foo";
  }
}
