/**
 * `do_matching` of src/engine.rs: parse the pattern, generate its program,
 * then try the program on the suffixes of the line that start at offsets
 * `0, 1, ..., |line| - 1`, in that order, and report the first suffix it
 * accepts. Any error of a stage ends the search at once.
 */
module Engine {
  import opened Wrappers
  import opened Instructions
  import P = Parser
  import CG = Codegen
  import E = Evaluator

  /** The failures `do_matching` passes on, and the model's fuel bound. */
  datatype EngineError =
    | ParseFailed(parseError: P.ParseError)
    | CodeGenFailed(codeGenError: CG.CodeGenError)
    | EvalFailed(evalError: E.EvalError)
    | OutOfFuel

  /** The answer: whether a suffix matched, and the suffix. */
  type Answer = (bool, Option<seq<char>>)

  /** What one evaluation at an offset means for the search. */
  function Verdict(o: E.Outcome, suffix: seq<char>): Option<Result<Answer, EngineError>> {
    match o
    case OutOfFuel => Some(Err(OutOfFuel))
    case Finished(Err(e)) => Some(Err(EvalFailed(e)))
    case Finished(Ok(true)) => Some(Ok((true, Some(suffix))))
    case Finished(Ok(false)) => None
  }

  /**
   * The search over offsets `i, ..., |line| - 1`. The loop at engine.rs:75-79
   * calls `eval` with three arguments, but `eval` takes a fourth,
   * `backward_match` (evaluator.rs:88-93). The model passes `false`: the search
   * asks whether the pattern matches a prefix of each suffix, and with `true`
   * the test at main.rs:83 (`abc?` on `abd`) would not match, as
   * `EngineExamples.BackwardMatchRejects` shows.
   */
  function Search(prog: seq<Instruction>, line: seq<char>, i: nat, isDepth: bool, fuel: nat): (r: Result<Answer, EngineError>)
    requires i <= |line|
    ensures r.Ok? ==> (r.value.0 <==> r.value.1.Some?)
    ensures r.Ok? && r.value.1.Some? ==> exists k :: i <= k < |line| && r.value.1.value == line[k..]
    ensures r.Err? ==> r.error.EvalFailed? || r.error == OutOfFuel
    decreases |line| - i
  {
    if i == |line| then Ok((false, None))
    else
      match Verdict(E.Evaluated(prog, line[i..], isDepth, false, fuel), line[i..])
      case Some(r) => r
      case None => Search(prog, line, i + 1, isDepth, fuel)
  }

  /**
   * The three stages, each error passed on. engine.rs:53-54 reads the tree
   * from a field `ast` of the parser's result, but `parse` returns the bare
   * tree (parser.rs:104); the model compiles that tree.
   */
  function Matching(expr: seq<char>, line: seq<char>, isDepth: bool, fuel: nat): (r: Result<Answer, EngineError>)
    ensures P.Parsed(expr).Err? <==> r.Err? && r.error.ParseFailed?
    ensures r.Ok? ==> P.Parsed(expr).Ok? && CG.Compiled(P.Parsed(expr).value).Ok?
    ensures r.Ok? ==> (r.value.0 <==> r.value.1.Some?)
    ensures r.Ok? && r.value.1.Some? ==> exists k :: 0 <= k < |line| && r.value.1.value == line[k..]
  {
    match P.Parsed(expr)
    case Err(e) => Err(ParseFailed(e))
    case Ok(t) =>
      match CG.Compiled(t)
      case Err(e) => Err(CodeGenFailed(e))
      case Ok(prog) => Search(prog, line, 0, isDepth, fuel)
  }

  /**
   * `do_matching` without the anchor branches (src/engine.rs:48-82). Like
   * `Search`, it evaluates each suffix with `backward_match = false`.
   */
  method DoMatching(expr: seq<char>, line: seq<char>, isDepth: bool, fuel: nat) returns (r: Result<Answer, EngineError>)
    ensures r == Matching(expr, line, isDepth, fuel)
  {
    var parsed := P.Parse(expr);
    if parsed.Err? {
      return Err(ParseFailed(parsed.error));
    }
    var code := CG.GetCode(parsed.value);
    if code.Err? {
      return Err(CodeGenFailed(code.error));
    }
    var prog := code.value;
    var i := 0;
    while i < |line|
      invariant i <= |line|
      invariant Search(prog, line, i, isDepth, fuel) == Matching(expr, line, isDepth, fuel)
    {
      var o := E.Eval(prog, line[i..], isDepth, false, fuel);
      match o {
        case OutOfFuel =>
          return Err(OutOfFuel);
        case Finished(Err(e)) =>
          return Err(EvalFailed(e));
        case Finished(Ok(found)) =>
          if found {
            return Ok((true, Some(line[i..])));
          }
      }
      i := i + 1;
    }
    return Ok((false, None));
  }
}
