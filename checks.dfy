/** The lowering of a case to the check it emits (`assertion` and its
    helpers), and what that emitted check means once the result and the
    captured operands have values. */
module Checks {
  import opened Syntax
  import Slices

  /** The emitted code, one form per helper, with the comparison operator
      and the path probe spelled as emitted. Every form asserts something of
      the bound result `_result`. */
  datatype Check =
    | AssertCompare(op: string, expected: Expr)        // _result <op> expected
    | AssertWithin(target: Expr, precision: Expr)       // (_result - target).abs() < precision
    | AssertPath(probe: string)                          // Path::new(&_result).<probe>()
    | AssertFind(element: Expr)                          // _result.iter().find(|i| i.eq(&&element)).is_some()
    | AssertWindows(elements: Expr)                      // the window scan of module Slices

  const Operators: set<string> := {"==", "<", ">", "<=", ">="}
  const Probes: set<string> := {"exists", "is_dir", "is_file"}

  function OrdOperator(t: OrderingToken): (op: string)
    ensures op in Operators
  {
    match t
    case Eq => "=="
    case Lt => "<"
    case Gt => ">"
    case Leq => "<="
    case Geq => ">="
  }

  function PathProbe(k: PathToken): (probe: string)
    ensures probe in Probes
  {
    match k
    case Any => "exists"
    case Dir => "is_dir"
    case File => "is_file"
  }

  function Assertion(c: ComplexTestCase): Check {
    match c
    case Ord(t, e) => AssertCompare(OrdOperator(t), e)
    case AlmostEqual(e, p) => AssertWithin(e, p)
    case Path(k) => AssertPath(PathProbe(k))
    case Contains(e) => AssertFind(e)
    case ContainsInOrder(es) => AssertWindows(es)
  }

  // ---------------------------------------------------------------------
  // Values the emitted check runs on
  // ---------------------------------------------------------------------

  /** An evaluated value: an integer, an integer sequence or a path string. */
  datatype Value = Scalar(n: int) | List(items: seq<int>) | Text(s: string)

  datatype EntryKind = Directory | RegularFile | OtherEntry

  /** What the filesystem holds at check time, path by path. */
  datatype FileSystem = FileSystem(entries: map<string, EntryKind>)

  /** The emitted code type-checks against these values: the host compiler
      rejects it otherwise, so no check runs. */
  predicate Compiles(check: Check, result: Value, eval: Expr -> Value) {
    match check
    case AssertCompare(op, e) => op in Operators && result.Scalar? && eval(e).Scalar?
    case AssertWithin(e, p) => result.Scalar? && eval(e).Scalar? && eval(p).Scalar?
    case AssertPath(probe) => probe in Probes && result.Text?
    case AssertFind(x) => result.List? && eval(x).Scalar?
    case AssertWindows(es) => result.List? && eval(es).List?
  }

  /** The host's comparison operators on integers. */
  function Compare(op: string, a: int, b: int): bool
    requires op in Operators
  {
    if op == "==" then a == b
    else if op == "<" then a < b
    else if op == ">" then a > b
    else if op == "<=" then a <= b
    else a >= b
  }

  function Abs(x: int): nat {
    if x < 0 then -x else x
  }

  predicate WithinPrecision(actual: int, expected: int, precision: int) {
    Abs(actual - expected) < precision
  }

  function ProbePath(fs: FileSystem, probe: string, path: string): bool
    requires probe in Probes
  {
    if probe == "exists" then path in fs.entries
    else if probe == "is_dir" then path in fs.entries && fs.entries[path] == Directory
    else path in fs.entries && fs.entries[path] == RegularFile
  }

  /** `iter().find(..)`: the position of the first element equal to `x`. */
  function Find(items: seq<int>, x: int): (r: Option<nat>)
    ensures r.None? <==> x !in items
    ensures r.Some? ==> r.value < |items| && items[r.value] == x
    ensures r.Some? ==> forall j :: 0 <= j < r.value ==> items[j] != x
  {
    if items == [] then None
    else if items[0] == x then Some(0)
    else match Find(items[1..], x)
      case None => None
      case Some(i) => Some(i + 1)
  }

  /** Whether the emitted check passes on the given result, operand values
      and filesystem. */
  predicate Passes(check: Check, result: Value, eval: Expr -> Value, fs: FileSystem)
    requires Compiles(check, result, eval)
  {
    match check
    case AssertCompare(op, e) => Compare(op, result.n, eval(e).n)
    case AssertWithin(e, p) => WithinPrecision(result.n, eval(e).n, eval(p).n)
    case AssertPath(probe) => ProbePath(fs, probe, result.s)
    case AssertFind(x) => Find(result.items, eval(x).n).Some?
    case AssertWindows(es) => Slices.IsContiguousSubslice(result.items, eval(es).items)
  }

  // ---------------------------------------------------------------------
  // What each case's check means
  // ---------------------------------------------------------------------

  /** The outcome of a three-way comparison, as an independent reference. */
  datatype Sign = Less | Same | Greater

  function ThreeWay(a: int, b: int): Sign {
    if a < b then Less else if a == b then Same else Greater
  }

  /** The outcomes each relation accepts. */
  function Accepted(t: OrderingToken): set<Sign> {
    match t
    case Eq => {Same}
    case Lt => {Less}
    case Gt => {Greater}
    case Leq => {Less, Same}
    case Geq => {Greater, Same}
  }

  /** An ordering check passes exactly when the comparison of the result
      with the expected value comes out as the relation accepts. */
  lemma OrdCheckMeaning(t: OrderingToken, e: Expr, a: int, b: int, eval: Expr -> Value, fs: FileSystem)
    requires eval(e) == Scalar(b)
    ensures Compiles(Assertion(Ord(t, e)), Scalar(a), eval)
    ensures Passes(Assertion(Ord(t, e)), Scalar(a), eval, fs) <==> ThreeWay(a, b) in Accepted(t)
  {
  }

  /** Each relation emits its own operator. */
  lemma OrdOperatorsDistinct(t1: OrderingToken, t2: OrderingToken)
    ensures OrdOperator(t1) == OrdOperator(t2) ==> t1 == t2
  {
  }

  /** An almost-equal check passes exactly when the result lies strictly
      inside the open interval around the expected value; a difference equal
      to the precision fails, and a precision of zero or less always fails. */
  lemma AlmostEqualCheckMeaning(e: Expr, p: Expr, a: int, b: int, q: int, eval: Expr -> Value, fs: FileSystem)
    requires eval(e) == Scalar(b) && eval(p) == Scalar(q)
    ensures Compiles(Assertion(AlmostEqual(e, p)), Scalar(a), eval)
    ensures Passes(Assertion(AlmostEqual(e, p)), Scalar(a), eval, fs) <==> b - q < a < b + q
    ensures a == b + q || a == b - q ==> !Passes(Assertion(AlmostEqual(e, p)), Scalar(a), eval, fs)
    ensures q <= 0 ==> !Passes(Assertion(AlmostEqual(e, p)), Scalar(a), eval, fs)
  {
  }

  /** A path check probes the filesystem for the result path: `Any` for
      any entry, `Dir` for a directory, `File` for a regular file. */
  lemma PathCheckMeaning(k: PathToken, path: string, eval: Expr -> Value, fs: FileSystem)
    ensures Compiles(Assertion(Path(k)), Text(path), eval)
    ensures Passes(Assertion(Path(k)), Text(path), eval, fs) <==>
      path in fs.entries &&
      match k
      case Any => true
      case Dir => fs.entries[path] == Directory
      case File => fs.entries[path] == RegularFile
    ensures Passes(Assertion(Path(Dir)), Text(path), eval, fs) || Passes(Assertion(Path(File)), Text(path), eval, fs)
      ==> Passes(Assertion(Path(Any)), Text(path), eval, fs)
  {
  }

  /** A contains check passes exactly when some element of the result
      equals the expected element. */
  lemma ContainsCheckMeaning(e: Expr, s: seq<int>, x: int, eval: Expr -> Value, fs: FileSystem)
    requires eval(e) == Scalar(x)
    ensures Compiles(Assertion(Contains(e)), List(s), eval)
    ensures Passes(Assertion(Contains(e)), List(s), eval, fs) <==> exists i :: 0 <= i < |s| && s[i] == x
  {
  }

  /** A contains-in-order check passes exactly when the expected slice
      occurs in the result as a contiguous run; a longer slice fails. */
  lemma ContainsInOrderCheckMeaning(e: Expr, s: seq<int>, es: seq<int>, eval: Expr -> Value, fs: FileSystem)
    requires eval(e) == List(es)
    ensures Compiles(Assertion(ContainsInOrder(e)), List(s), eval)
    ensures Passes(Assertion(ContainsInOrder(e)), List(s), eval, fs) <==> Slices.Occurs(s, es)
    ensures |es| > |s| ==> !Passes(Assertion(ContainsInOrder(e)), List(s), eval, fs)
  {
    Slices.SubsliceIffOccurs(s, es);
  }
}
