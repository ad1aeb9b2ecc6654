# The `test-case` expectation language, modelled in Dafny

This project models the core of the "complex expression" language of the
`test-case` procedural macro: the phrase that follows `=>` in a test case
(`less_than 2.0`, `almost 1.0 precision 0.1`, `contains_in_order [1, 2, 3]`).
Three parts make up that core, and each is a module here:

- **Parsing** (`ComplexTestCase::parse`). A phrase is a sequence of tokens:
  identifiers, complete operand expressions and punctuation. The parser probes
  keywords in a fixed priority order. Synonyms are accepted (`eq`/`equal_to`,
  `dir`/`directory`, ...). The keyword decides how many operands follow: none,
  one, or two with the keyword `precision` between them. Operands are captured
  without being looked at. Module `Grammar` defines the grammar as the function
  `ParseSpec` and proves its properties. Module `Parser` is the imperative
  parser, a cursor over an `array<Token>`, proved to compute `ParseSpec`.
- **Rendering** (the `Display` impls). Module `Render` maps each case to its
  one-line text, using the short keyword. Operands are rendered by `fmt_syn`,
  which is passed in as a function parameter.
- **Check lowering** (`assertion` and its helpers). Module `Checks` maps each
  case to the form of the code it emits (`Assertion`). `Passes` says what that
  code decides once the result and the operands have values. The values are
  integers, integer sequences and path strings, and the filesystem is a
  parameter. Module `Slices` holds the emitted `contains_in_order` scan as
  imperative loops: the version as written, and a corrected one (see
  Findings).

Rendering does not always give back a phrase that parses to the same case.
The orderings, `dir` and `file` parse back. `existing_path` renders as `path`,
which is no keyword. `almost` puts its precision after `p` instead of after
`precision`. `Contains` and `ContainsInOrder` both render as the bare operand
(`Render.PathAndAlmostRenderings`, `Render.ContainmentRenderingsCoincide`).

## Model

| member | source | states |
|---|---|---|
| `Grammar.ExprAt` | src/complex_expr.rs:90 | An operand parse succeeds exactly when a token is present that is not punctuation, and consumes that one token. An operand token is captured unchanged, and an identifier becomes the path expression of that name. Otherwise the parse fails at that position. |
| `Grammar.HeadOf` | src/complex_expr.rs:87-145 | The keyword table in priority order, with its synonyms. It has no contract of its own; `SynonymsParseEqual`, `AbortsIffNoKeyword` and `Render.OrderingName` state what it gives. |
| `Grammar.ParseSpec` | src/complex_expr.rs:85-150 | The grammar as a function. It has no contract of its own; the `Grammar` lemmas below state its properties, and `Parser.Parse` is proved to compute it. |
| `Grammar.KeywordExpected` | src/complex_expr.rs:120 | A required keyword is consumed when present. Its absence is an error at that position that names the keyword. |
| `Grammar.SynonymsParseEqual` | src/complex_expr.rs:87-137 | For each synonym pair, both spellings start the same case. A phrase parses to the same result (case, end position or error) whichever spelling it starts with. |
| `Grammar.OrdCapturesOperand` | src/complex_expr.rs:87-115 | Each ordering keyword, in either spelling, gives `Ord` with its relation. The following operand token or identifier is its expected value, unchanged, and two tokens are consumed. Without an operand the parse fails right after the keyword. |
| `Grammar.AlmostRequiresPrecision` | src/complex_expr.rs:116-125 | `almost` reads an operand, then `precision`, then a second operand, and gives `AlmostEqual(target, precision)` with both operands unchanged. A missing `precision` is an error at its position, never a default. A missing first or second operand is an error at its position too. |
| `Grammar.PathKeywordsTakeNoOperand` | src/complex_expr.rs:126-137 | `existing_path` gives `Path(Any)`. `directory` and `dir` give `Path(Dir)`. `file` gives `Path(File)`. Each consumes only its keyword. |
| `Grammar.ContainsCapturesVerbatim` | src/complex_expr.rs:138-145 | `contains E` and `contains_in_order E` capture `E` unchanged, whatever operand token or identifier it is (`true` included). Without an operand the parse fails right after the keyword. |
| `Grammar.AbortsIffNoKeyword` | src/complex_expr.rs:146-147 | The parse aborts if and only if no keyword starts at the position, including at the end of input. The abort points at that untouched position, with the fixed message. |
| `Grammar.ParseConsumesItsPhrase` | src/complex_expr.rs:86-149 | A successful parse ends exactly after the keyword and its operands (1, 2 or 4 tokens). Every operand or `precision` error lies inside that span. |
| `Parser.ParseKeyword` | src/complex_expr.rs:87 | A keyword probe succeeds exactly on that identifier and then advances by one. A failed probe leaves the cursor where it was. |
| `Parser.ParseEither` | src/complex_expr.rs:87 | `a || b` over two probes accepts either spelling from the same cursor. It advances only on success. |
| `Parser.ParseExpr` | src/complex_expr.rs:90 | The operand parse over the token array computes `ExprAt`. |
| `Parser.Parse` | src/complex_expr.rs:85-150 | The probe chain over the token array, with its early error returns, gives the result `ParseSpec` defines for every input. |
| `Render.OrderingName` | src/complex_expr.rs:152-162 | A relation's rendered keyword is a short keyword that the parser reads back as the same relation. |
| `Render.PathName` | src/complex_expr.rs:164-172 | `dir` and `file` read back as the same path check. `path` is no keyword. |
| `Render.Render` | src/complex_expr.rs:174-196 | The one-line rendering. It has no contract of its own; the `Render` lemmas below state its properties. |
| `Render.SynonymsRenderEqual` | src/complex_expr.rs:174-196 | A phrase starting with either spelling of a keyword renders to the same text. |
| `Render.OrdRenderingReparses` | src/complex_expr.rs:177-180 | An ordering renders as its short keyword, a blank and the operand. That keyword followed by the operand parses back to the same case. |
| `Render.OrdRenderingDistinguishesRelations` | src/complex_expr.rs:152-162 | Two orderings with the same operand render alike only if their relations are equal. |
| `Render.PathAndAlmostRenderings` | src/complex_expr.rs:164-187 | Rendered `dir`/`file` parse back. Rendered `path` aborts. The rendered `almost e p q` fails, because `precision` is expected where `p` stands. |
| `Render.ContainmentRenderingsCoincide` | src/complex_expr.rs:188-193 | `Contains` and `ContainsInOrder` both render as the bare operand, so the rendering does not tell the two apart. |
| `Slices.SubsliceIffOccurs` | src/complex_expr.rs:222-228 | Some window start `i <= |result| - |elements|` matches exactly when `elements` is a prefix of the result or of one of its tails. |
| `Slices.ContainmentEdgeCases` | src/complex_expr.rs:223 | A slice longer than the result is never contained. The empty slice always is. |
| `Slices.OrderMatters` | src/complex_expr.rs:222-228 | `[2, 3]` is in `[1, 2, 3, 4]` but not in `[1, 3, 2, 4]`. `[1, 2, 3]` is not in `[1, 2]`. |
| `Slices.UsizeSub` | src/complex_expr.rs:223 | `usize` subtraction gives the difference exactly when it is not below zero, and fails otherwise. |
| `Slices.ContainsInOrderAsWritten` | src/complex_expr.rs:220-229 | The emitted scan, as written, panics when the slice is longer than the result. Otherwise its flag ends true exactly when some window equals the slice. |
| `Slices.ContainsInOrder` | src/complex_expr.rs:220-229 | The guarded scan's flag ends true exactly when the slice occurs contiguously in the result. A longer slice gives false. The loop invariant ties the flag to "some window before `i` matched", so it only goes from false to true. |
| `Slices.UnderflowCounterexample` | src/complex_expr.rs:223 | On result `[1, 2]` and slice `[1, 2, 3]`, the scan as written panics, while the corrected scan reports "not contained". |
| `Checks.OrdOperator` | src/complex_expr.rs:248-255 | Each relation emits one of the five comparison operators. |
| `Checks.PathProbe` | src/complex_expr.rs:236-242 | Each path kind emits one of the three filesystem probes. |
| `Checks.Assertion` | src/complex_expr.rs:198-217 | The lowering of each case to the check it emits. It has no contract of its own; the `Checks` meaning lemmas below state what each emitted check decides. |
| `Checks.Compiles` | src/complex_expr.rs:198-260 | The emitted code type-checks against the given values. It has no contract of its own; it is the precondition of `Passes`. |
| `Checks.Passes` | src/complex_expr.rs:220-260 | What the emitted code decides on given values. It has no contract of its own; the meaning lemmas below state it per case. |
| `Checks.Find` | src/complex_expr.rs:233 | `find` yields the first position holding the element, or nothing exactly when the element is absent. |
| `Checks.OrdCheckMeaning` | src/complex_expr.rs:248-260 | `_result <op> expected` passes exactly when the three-way comparison of result and expected is one the relation accepts. Eq accepts same, Lt less, Gt greater, Leq less or same, Geq greater or same. |
| `Checks.OrdOperatorsDistinct` | src/complex_expr.rs:249-255 | No two relations emit the same operator. |
| `Checks.AlmostEqualCheckMeaning` | src/complex_expr.rs:244-246 | `abs(_result - expected) < precision` passes exactly when `expected - precision < result < expected + precision`. A difference equal to the precision fails, and so does every check with a precision of zero or less. |
| `Checks.PathCheckMeaning` | src/complex_expr.rs:236-242 | `Path(Any)` passes when the path exists, `Path(Dir)` when it is a directory and `Path(File)` when it is a regular file. Dir or file implies that the path exists. |
| `Checks.ContainsCheckMeaning` | src/complex_expr.rs:232-234 | The contains check passes exactly when some element of the result equals the expected element. |
| `Checks.ContainsInOrderCheckMeaning` | src/complex_expr.rs:213-229 | The contains-in-order check passes exactly when the slice occurs contiguously in the result, and a longer slice fails cleanly. |

## Left out

- Live filesystem I/O of the path checks: the filesystem is a parameter, a map from paths to entry kinds, and I/O errors are not modelled. `exists`, `is_dir` and `is_file` are read from that map.
- Checks.AlmostEqualCheckMeaning: values are unbounded integers, so IEEE floating point (rounding, NaN, infinities) and integer wrap-around of `abs` and `-` are not modelled.
- Checks.OrdCheckMeaning: only integer results are compared. Orderings on floats, strings and vectors are left to the host's operators and are not modelled.
- Checks.Passes: type mismatches between result and operands are host compile errors. They are excluded by the `Compiles` precondition rather than reported.
- The operand expressions' own grammar: every operand is one token. An `Ident` token also counts as an expression (a path expression), and `Punct` never starts one. Expressions that span several tokens (`a + b`, `x[1]`) are not modelled.
- Token spans and the macro machinery (`ParseStream`, `quote!`, `parse_quote!`, `abort!`): tokens are a sequence, positions are indices, and `abort!` is the error `Aborted`.
- Whether trailing tokens remain after a phrase is the caller's concern. `ParseSpec` returns the position after the phrase and does not reject what follows.
- `fmt_syn` (in `src/utils.rs`) is not part of this model. It is the function parameter `fmtSyn`.
- Operands are evaluated once, as a pure function `eval`. The emitted contains check re-evaluates its element once per element examined, and the emitted contains_in_order code re-evaluates its slice in the bound and in every window. An operand with side effects or a changing value is therefore not modelled.
- The failure messages of the emitted assertions: a check either passes or fails.
- src/parented_test_case.rs strips one pair of parentheses and hands the rest to `TestCase::parse`. That parser is not part of this model, so the file has no logic of its own to model.
- The commented-out `Not`/`And`/`Or` cases (src/complex_expr.rs:75-77) are not implemented in the source.

## Findings

| source | as written | input that shows it | evidently intended | confidence | as-written member | corrected member |
|---|---|---|---|---|---|---|
| src/complex_expr.rs:223 | the last window start is `_result.len() - elements.len()`, an unguarded `usize` subtraction | result `[1, 2]`, slice `[1, 2, 3]`: the subtraction underflows. A debug build panics. In a release build the first slice index is out of range. | a slice longer than the result fails the check as "contains_in_order failed" | high (proved from the model, not executed) | `Slices.ContainsInOrderAsWritten` | `Slices.ContainsInOrder` |

`Slices.UnderflowCounterexample` runs both members on that input. `Checks.Passes` uses the corrected meaning.
