/** The grammar of one expectation phrase, as a function from a token
    sequence and a start position to the parsed case and the position after
    it. The imperative parser in module Parser is proved to compute it. */
module Grammar {
  import opened Syntax

  /** What a leading keyword commits the parser to. */
  datatype Head =
    | OrdHead(relation: OrderingToken)
    | AlmostHead
    | PathHead(kind: PathToken)
    | ContainsHead
    | ContainsInOrderHead

  const AbortMessage: string := "cannot parse complex expression"
  const PrecisionKeyword: string := "precision"
  const ExpressionExpected: string := "expression"

  /** The leading keywords, tried in the parser's priority order. */
  function HeadOf(name: string): Option<Head> {
    if name == "eq" || name == "equal_to" then Some(OrdHead(Eq))
    else if name == "lt" || name == "less_than" then Some(OrdHead(Lt))
    else if name == "gt" || name == "greater_than" then Some(OrdHead(Gt))
    else if name == "leq" || name == "less_or_equal_than" then Some(OrdHead(Leq))
    else if name == "geq" || name == "greater_or_equal_than" then Some(OrdHead(Geq))
    else if name == "almost" || name == "almost_equal_to" then Some(AlmostHead)
    else if name == "existing_path" then Some(PathHead(Any))
    else if name == "directory" || name == "dir" then Some(PathHead(Dir))
    else if name == "file" then Some(PathHead(File))
    else if name == "contains" then Some(ContainsHead)
    else if name == "contains_in_order" then Some(ContainsInOrderHead)
    else None
  }

  /** The pairs of spellings the language accepts for the same keyword. */
  const SynonymPairs: set<(string, string)> := {
    ("eq", "equal_to"),
    ("lt", "less_than"),
    ("gt", "greater_than"),
    ("leq", "less_or_equal_than"),
    ("geq", "greater_or_equal_than"),
    ("almost", "almost_equal_to"),
    ("directory", "dir")
  }

  /** The head keyword at `pos`, if the token there is one. */
  function HeadAt(toks: seq<Token>, pos: nat): Option<Head> {
    if pos < |toks| && toks[pos].Ident? then HeadOf(toks[pos].name) else None
  }

  predicate KeywordAt(toks: seq<Token>, pos: nat, kw: string) {
    pos < |toks| && toks[pos] == Ident(kw)
  }

  /** A token that can stand as an operand: anything but punctuation. */
  predicate OperandAt(toks: seq<Token>, pos: nat) {
    pos < |toks| && !toks[pos].Punct?
  }

  /** The expression an operand token denotes: an operand token its own
      expression, an identifier the path expression of that name. */
  function OperandOf(tok: Token): Expr
    requires !tok.Punct?
  {
    if tok.Operand? then tok.expr else Expr(tok.name)
  }

  /** One operand expression at `pos`. An identifier is an expression too
      (a path expression); punctuation and the end of input are not. */
  function ExprAt(toks: seq<Token>, pos: nat): (r: Result<(Expr, nat), ParseError>)
    ensures r.Ok? <==> OperandAt(toks, pos)
    ensures r.Ok? ==> r.value.1 == pos + 1
    ensures r.Ok? && toks[pos].Operand? ==> r.value.0 == toks[pos].expr
    ensures r.Ok? && toks[pos].Ident? ==> r.value.0 == Expr(toks[pos].name)
    ensures r.Err? ==> r.error == Expected(pos, ExpressionExpected)
  {
    if pos >= |toks| then Err(Expected(pos, ExpressionExpected))
    else match toks[pos]
      case Operand(e) => Ok((e, pos + 1))
      case Ident(n) => Ok((Expr(n), pos + 1))
      case Punct(_) => Err(Expected(pos, ExpressionExpected))
  }

  /** A required keyword at `pos`: its absence is an error naming it. */
  function KeywordExpected(toks: seq<Token>, pos: nat, kw: string): (r: Result<nat, ParseError>)
    ensures r.Ok? <==> KeywordAt(toks, pos, kw)
    ensures r.Ok? ==> r.value == pos + 1
    ensures r.Err? ==> r.error == Expected(pos, kw)
  {
    if KeywordAt(toks, pos, kw) then Ok(pos + 1) else Err(Expected(pos, kw))
  }

  /** The phrase starting at `pos`: the case it denotes and the position
      right after it, or the error that stops it. */
  function ParseSpec(toks: seq<Token>, pos: nat): Result<(ComplexTestCase, nat), ParseError> {
    match HeadAt(toks, pos)
    case None => Err(Aborted(pos, AbortMessage))
    case Some(OrdHead(t)) =>
      var e :- ExprAt(toks, pos + 1);
      Ok((Ord(t, e.0), e.1))
    case Some(AlmostHead) =>
      var target :- ExprAt(toks, pos + 1);
      var afterKeyword :- KeywordExpected(toks, target.1, PrecisionKeyword);
      var precision :- ExprAt(toks, afterKeyword);
      Ok((AlmostEqual(target.0, precision.0), precision.1))
    case Some(PathHead(k)) => Ok((Path(k), pos + 1))
    case Some(ContainsHead) =>
      var e :- ExprAt(toks, pos + 1);
      Ok((Contains(e.0), e.1))
    case Some(ContainsInOrderHead) =>
      var e :- ExprAt(toks, pos + 1);
      Ok((ContainsInOrder(e.0), e.1))
  }

  /** How many tokens a phrase of each case occupies. */
  function TokenCount(c: ComplexTestCase): nat {
    match c
    case Ord(_, _) => 2
    case AlmostEqual(_, _) => 4
    case Path(_) => 1
    case Contains(_) => 2
    case ContainsInOrder(_) => 2
  }

  // ---------------------------------------------------------------------
  // Properties of the grammar
  // ---------------------------------------------------------------------

  /** Both spellings of a keyword start the same case, and a phrase parses
      the same whichever spelling it starts with. */
  lemma SynonymsParseEqual(toks: seq<Token>, pos: nat, a: string, b: string)
    requires (a, b) in SynonymPairs
    requires pos < |toks| && toks[pos] == Ident(a)
    ensures HeadOf(a).Some? && HeadOf(a) == HeadOf(b)
    ensures ParseSpec(toks, pos) == ParseSpec(toks[pos := Ident(b)], pos)
  {
  }

  /** Each ordering keyword, in either spelling, captures the operand that
      follows it unchanged as the expected value; without an operand after
      it the parse fails there. */
  lemma OrdCapturesOperand(toks: seq<Token>, pos: nat, t: OrderingToken)
    requires HeadAt(toks, pos) == Some(OrdHead(t))
    ensures OperandAt(toks, pos + 1) ==>
      ParseSpec(toks, pos) == Ok((Ord(t, OperandOf(toks[pos + 1])), pos + 2))
    ensures OperandAt(toks, pos + 1) && toks[pos + 1].Operand? ==>
      ParseSpec(toks, pos) == Ok((Ord(t, toks[pos + 1].expr), pos + 2))
    ensures !OperandAt(toks, pos + 1) ==>
      ParseSpec(toks, pos) == Err(Expected(pos + 1, ExpressionExpected))
  {
  }

  /** `almost` reads an operand, the keyword `precision`, then a second
      operand. A missing first operand, any other token in place of
      `precision` or the end of the phrase there, and a missing second
      operand are each an error at that position, never a default. */
  lemma AlmostRequiresPrecision(toks: seq<Token>, pos: nat)
    requires HeadAt(toks, pos) == Some(AlmostHead)
    ensures !OperandAt(toks, pos + 1) ==>
      ParseSpec(toks, pos) == Err(Expected(pos + 1, ExpressionExpected))
    ensures OperandAt(toks, pos + 1) && !KeywordAt(toks, pos + 2, PrecisionKeyword) ==>
      ParseSpec(toks, pos) == Err(Expected(pos + 2, PrecisionKeyword))
    ensures OperandAt(toks, pos + 1) && KeywordAt(toks, pos + 2, PrecisionKeyword) ==>
      ParseSpec(toks, pos) ==
        if OperandAt(toks, pos + 3)
        then Ok((AlmostEqual(OperandOf(toks[pos + 1]), OperandOf(toks[pos + 3])), pos + 4))
        else Err(Expected(pos + 3, ExpressionExpected))
  {
  }

  /** The path keywords consume nothing after themselves. */
  lemma PathKeywordsTakeNoOperand(toks: seq<Token>, pos: nat)
    requires pos < |toks|
    ensures toks[pos] == Ident("existing_path") ==> ParseSpec(toks, pos) == Ok((Path(Any), pos + 1))
    ensures toks[pos] == Ident("directory") ==> ParseSpec(toks, pos) == Ok((Path(Dir), pos + 1))
    ensures toks[pos] == Ident("dir") ==> ParseSpec(toks, pos) == Ok((Path(Dir), pos + 1))
    ensures toks[pos] == Ident("file") ==> ParseSpec(toks, pos) == Ok((Path(File), pos + 1))
  {
  }

  /** `contains` and `contains_in_order` capture their operand verbatim,
      whatever token it is; without an operand the parse fails there. */
  lemma ContainsCapturesVerbatim(toks: seq<Token>, pos: nat)
    requires pos < |toks|
    ensures toks[pos] == Ident("contains") && OperandAt(toks, pos + 1) ==>
      ParseSpec(toks, pos) == Ok((Contains(OperandOf(toks[pos + 1])), pos + 2))
    ensures toks[pos] == Ident("contains_in_order") && OperandAt(toks, pos + 1) ==>
      ParseSpec(toks, pos) == Ok((ContainsInOrder(OperandOf(toks[pos + 1])), pos + 2))
    ensures (toks[pos] == Ident("contains") || toks[pos] == Ident("contains_in_order")) && !OperandAt(toks, pos + 1) ==>
      ParseSpec(toks, pos) == Err(Expected(pos + 1, ExpressionExpected))
  {
  }

  /** The whole parse aborts exactly when the leading token is no keyword
      (or there is none), and the abort points at that leading token. */
  lemma AbortsIffNoKeyword(toks: seq<Token>, pos: nat)
    ensures ParseSpec(toks, pos).Err? && ParseSpec(toks, pos).error.Aborted? <==> HeadAt(toks, pos).None?
    ensures HeadAt(toks, pos).None? ==> ParseSpec(toks, pos) == Err(Aborted(pos, AbortMessage))
  {
  }

  /** A successful parse consumes exactly the keyword and its operands, and
      every error lies inside that span. */
  lemma ParseConsumesItsPhrase(toks: seq<Token>, pos: nat)
    ensures ParseSpec(toks, pos).Ok? ==>
      ParseSpec(toks, pos).value.1 == pos + TokenCount(ParseSpec(toks, pos).value.0) <= |toks|
    ensures ParseSpec(toks, pos).Err? && ParseSpec(toks, pos).error.Expected? ==>
      pos < ParseSpec(toks, pos).error.at <= pos + 3
  {
  }
}
