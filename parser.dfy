/** The parser as the source runs it: a cursor over an array of tokens that
    each keyword probe either advances past the keyword or leaves where it
    was, followed by the operands the keyword calls for. */
module Parser {
  import opened Syntax
  import opened Grammar

  /** One keyword probe. A failed probe consumes nothing. */
  method ParseKeyword(input: array<Token>, cursor: nat, kw: string) returns (ok: bool, next: nat)
    ensures ok <==> KeywordAt(input[..], cursor, kw)
    ensures next == if ok then cursor + 1 else cursor
  {
    if cursor < input.Length && input[cursor] == Ident(kw) {
      ok, next := true, cursor + 1;
    } else {
      ok, next := false, cursor;
    }
  }

  /** Two probes joined by a short-circuit `||`: the second spelling is
      tried only when the first fails, from the same cursor. */
  method ParseEither(input: array<Token>, cursor: nat, kw1: string, kw2: string) returns (ok: bool, next: nat)
    ensures ok <==> KeywordAt(input[..], cursor, kw1) || KeywordAt(input[..], cursor, kw2)
    ensures next == if ok then cursor + 1 else cursor
  {
    ok, next := ParseKeyword(input, cursor, kw1);
    if !ok {
      ok, next := ParseKeyword(input, cursor, kw2);
    }
  }

  /** One operand expression at the cursor: `ExprAt` computed over the array. */
  method ParseExpr(input: array<Token>, cursor: nat) returns (r: Result<(Expr, nat), ParseError>)
    ensures r == ExprAt(input[..], cursor)
  {
    if cursor >= input.Length {
      return Err(Expected(cursor, ExpressionExpected));
    }
    match input[cursor]
    case Operand(e) => r := Ok((e, cursor + 1));
    case Ident(n) => r := Ok((Expr(n), cursor + 1));
    case Punct(_) => r := Err(Expected(cursor, ExpressionExpected));
  }

  /** `ComplexTestCase::parse`: the keyword probes in priority order, each
      followed by the operands its case needs; when no keyword matches, the
      parse aborts at the untouched cursor. */
  method Parse(input: array<Token>, start: nat) returns (r: Result<(ComplexTestCase, nat), ParseError>)
    ensures r == ParseSpec(input[..], start)
  {
    var cursor := start;
    var hit: bool;
    hit, cursor := ParseEither(input, cursor, "eq", "equal_to");
    if hit {
      var e :- ParseExpr(input, cursor);
      return Ok((Ord(Eq, e.0), e.1));
    }
    hit, cursor := ParseEither(input, cursor, "lt", "less_than");
    if hit {
      var e :- ParseExpr(input, cursor);
      return Ok((Ord(Lt, e.0), e.1));
    }
    hit, cursor := ParseEither(input, cursor, "gt", "greater_than");
    if hit {
      var e :- ParseExpr(input, cursor);
      return Ok((Ord(Gt, e.0), e.1));
    }
    hit, cursor := ParseEither(input, cursor, "leq", "less_or_equal_than");
    if hit {
      var e :- ParseExpr(input, cursor);
      return Ok((Ord(Leq, e.0), e.1));
    }
    hit, cursor := ParseEither(input, cursor, "geq", "greater_or_equal_than");
    if hit {
      var e :- ParseExpr(input, cursor);
      return Ok((Ord(Geq, e.0), e.1));
    }
    hit, cursor := ParseEither(input, cursor, "almost", "almost_equal_to");
    if hit {
      var target :- ParseExpr(input, cursor);
      cursor := target.1;
      var precisionSeen;
      precisionSeen, cursor := ParseKeyword(input, cursor, PrecisionKeyword);
      if !precisionSeen {
        return Err(Expected(cursor, PrecisionKeyword));
      }
      var precision :- ParseExpr(input, cursor);
      return Ok((AlmostEqual(target.0, precision.0), precision.1));
    }
    hit, cursor := ParseKeyword(input, cursor, "existing_path");
    if hit {
      return Ok((Path(Any), cursor));
    }
    hit, cursor := ParseEither(input, cursor, "directory", "dir");
    if hit {
      return Ok((Path(Dir), cursor));
    }
    hit, cursor := ParseKeyword(input, cursor, "file");
    if hit {
      return Ok((Path(File), cursor));
    }
    hit, cursor := ParseKeyword(input, cursor, "contains");
    if hit {
      var e :- ParseExpr(input, cursor);
      return Ok((Contains(e.0), e.1));
    }
    hit, cursor := ParseKeyword(input, cursor, "contains_in_order");
    if hit {
      var e :- ParseExpr(input, cursor);
      return Ok((ContainsInOrder(e.0), e.1));
    }
    r := Err(Aborted(cursor, AbortMessage));
  }
}
