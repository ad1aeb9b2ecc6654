/** The one-line rendering of a case (the `Display` impls). The rendering of
    an operand (`fmt_syn`) is not part of this model; it is a parameter. */
module Render {
  import opened Syntax
  import opened Grammar

  /** The short keyword of a relation, which the parser reads back as that
      same relation. */
  function OrderingName(t: OrderingToken): (r: string)
    ensures HeadOf(r) == Some(OrdHead(t))
    ensures |r| == 2 || |r| == 3
  {
    match t
    case Eq => "eq"
    case Lt => "lt"
    case Gt => "gt"
    case Leq => "leq"
    case Geq => "geq"
  }

  /** The name of a path check. `dir` and `file` are keywords that read back
      as the same check; `path` is no keyword at all. */
  function PathName(k: PathToken): (r: string)
    ensures k != Any ==> HeadOf(r) == Some(PathHead(k))
    ensures k == Any ==> HeadOf(r) == None
  {
    match k
    case Any => "path"
    case Dir => "dir"
    case File => "file"
  }

  function Render(fmtSyn: Expr -> string, c: ComplexTestCase): string {
    match c
    case Ord(t, e) => OrderingName(t) + " " + fmtSyn(e)
    case AlmostEqual(target, precision) => "almost " + fmtSyn(target) + " p " + fmtSyn(precision)
    case Path(k) => PathName(k)
    case Contains(e) => fmtSyn(e)
    case ContainsInOrder(e) => fmtSyn(e)
  }

  /** A phrase opened with either spelling of a keyword renders identically:
      rendering always uses the short keyword. */
  lemma SynonymsRenderEqual(fmtSyn: Expr -> string, toks: seq<Token>, pos: nat, a: string, b: string)
    requires (a, b) in SynonymPairs
    requires pos < |toks| && toks[pos] == Ident(a)
    requires ParseSpec(toks, pos).Ok?
    ensures ParseSpec(toks[pos := Ident(b)], pos).Ok?
    ensures Render(fmtSyn, ParseSpec(toks, pos).value.0)
         == Render(fmtSyn, ParseSpec(toks[pos := Ident(b)], pos).value.0)
  {
    SynonymsParseEqual(toks, pos, a, b);
  }

  /** An ordering renders as its short keyword, a blank and the operand;
      that keyword followed by the operand parses back to the same case. */
  lemma OrdRenderingReparses(fmtSyn: Expr -> string, t: OrderingToken, e: Expr)
    ensures Render(fmtSyn, Ord(t, e)) == OrderingName(t) + " " + fmtSyn(e)
    ensures ParseSpec([Ident(OrderingName(t)), Operand(e)], 0) == Ok((Ord(t, e), 2))
  {
    OrdCapturesOperand([Ident(OrderingName(t)), Operand(e)], 0, t);
  }

  /** A rendered ordering determines its relation: no two relations render
      alike for the same operand. */
  lemma {:induction false} OrdRenderingDistinguishesRelations(fmtSyn: Expr -> string, t1: OrderingToken, t2: OrderingToken, e: Expr)
    requires Render(fmtSyn, Ord(t1, e)) == Render(fmtSyn, Ord(t2, e))
    ensures t1 == t2
  {
    var r := Render(fmtSyn, Ord(t1, e));
    var n1, n2 := OrderingName(t1), OrderingName(t2);
    assert r == n1 + " " + fmtSyn(e) == n2 + " " + fmtSyn(e);
    assert r[0] == n1[0] == n2[0];
    assert r[1] == n1[1] == n2[1];
    assert r[2] == (n1 + " ")[2] == (n2 + " ")[2];
  }

  /** The path names re-read as the same check, except `path`, which the
      parser rejects; `almost` renders its precision after `p`, which is no
      `precision` keyword, so that rendering does not parse back either. */
  lemma PathAndAlmostRenderings(fmtSyn: Expr -> string, k: PathToken, e: Expr, p: Expr)
    ensures k != Any ==> ParseSpec([Ident(PathName(k))], 0) == Ok((Path(k), 1))
    ensures ParseSpec([Ident(PathName(Any))], 0) == Err(Aborted(0, AbortMessage))
    ensures ParseSpec([Ident("almost"), Operand(e), Ident("p"), Operand(p)], 0)
         == Err(Expected(2, PrecisionKeyword))
  {
  }

  /** The two containment cases render alike: the rendering drops which of
      them it was. */
  lemma ContainmentRenderingsCoincide(fmtSyn: Expr -> string, e: Expr)
    ensures Render(fmtSyn, Contains(e)) == Render(fmtSyn, ContainsInOrder(e)) == fmtSyn(e)
  {
  }
}
