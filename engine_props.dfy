/**
 * What `do_matching` of src/engine.rs answers: the first offset whose
 * evaluation does not answer `false` decides the result, and, with the
 * correctness of the compiled program, a reported suffix is the first suffix
 * of the line that begins with a match of the pattern.
 */
module EngineProps {
  import opened Wrappers
  import opened Helper
  import opened Instructions
  import opened Engine
  import opened Language
  import P = Parser
  import CG = Codegen
  import E = Evaluator
  import CodegenProps
  import EvaluatorProps
  import Correctness

  /** The evaluation at offset `k` answered `false`. */
  predicate RejectedAt(prog: seq<Instruction>, line: seq<char>, k: nat, isDepth: bool, fuel: nat)
    requires k <= |line|
  {
    E.Evaluated(prog, line[k..], isDepth, false, fuel) == E.Finished(Ok(false))
  }

  /** The search finds nothing exactly when every offset from `i` on answers `false`. */
  lemma {:induction false} SearchNotFound(prog: seq<Instruction>, line: seq<char>, i: nat, isDepth: bool, fuel: nat)
    requires i <= |line|
    ensures Search(prog, line, i, isDepth, fuel) == Ok((false, None)) <==>
      forall k :: i <= k < |line| ==> RejectedAt(prog, line, k, isDepth, fuel)
    decreases |line| - i
  {
    if i < |line| {
      SearchNotFound(prog, line, i + 1, isDepth, fuel);
      if !RejectedAt(prog, line, i, isDepth, fuel) {
        assert Verdict(E.Evaluated(prog, line[i..], isDepth, false, fuel), line[i..]).Some?;
      }
    }
  }

  /**
   * Otherwise the first offset `k` that does not answer `false` decides the
   * result: a match reports the suffix from `k`, an error or exhausted fuel
   * is passed on, and no later offset is tried.
   */
  lemma {:induction false} SearchDecided(prog: seq<Instruction>, line: seq<char>, i: nat, isDepth: bool, fuel: nat)
    returns (k: nat)
    requires i <= |line| && Search(prog, line, i, isDepth, fuel) != Ok((false, None))
    ensures i <= k < |line|
    ensures forall k' :: i <= k' < k ==> RejectedAt(prog, line, k', isDepth, fuel)
    ensures Verdict(E.Evaluated(prog, line[k..], isDepth, false, fuel), line[k..]) == Some(Search(prog, line, i, isDepth, fuel))
    decreases |line| - i
  {
    if Verdict(E.Evaluated(prog, line[i..], isDepth, false, fuel), line[i..]).Some? {
      k := i;
    } else {
      k := SearchDecided(prog, line, i + 1, isDepth, fuel);
    }
  }

  /**
   * A reported suffix starts at the first offset where the pattern matches a
   * prefix of the rest of the line.
   */
  lemma MatchingFound(expr: seq<char>, line: seq<char>, fuel: nat, w: seq<char>)
    requires Matching(expr, line, true, fuel) == Ok((true, Some(w)))
    ensures P.Parsed(expr).Ok?
    ensures exists i ::
      && 0 <= i < |line|
      && w == line[i..]
      && MatchesPrefix(P.Parsed(expr).value, line[i..])
      && (forall k :: 0 <= k < i ==> !MatchesPrefix(P.Parsed(expr).value, line[k..]))
  {
    var t := P.Parsed(expr).value;
    var prog := CG.Compiled(t).value;
    var i := SearchDecided(prog, line, 0, true, fuel);
    Correctness.CompiledRunAnswer(t, line[i..], fuel, true);
    forall k | 0 <= k < i
      ensures !MatchesPrefix(t, line[k..])
    {
      assert RejectedAt(prog, line, k, true, fuel);
      Correctness.CompiledRunAnswer(t, line[k..], fuel, false);
    }
  }

  /** `(false, None)` means no suffix of the line begins with a match. */
  lemma MatchingNotFound(expr: seq<char>, line: seq<char>, fuel: nat)
    requires Matching(expr, line, true, fuel) == Ok((false, None))
    ensures P.Parsed(expr).Ok?
    ensures forall k :: 0 <= k < |line| ==> !MatchesPrefix(P.Parsed(expr).value, line[k..])
  {
    var t := P.Parsed(expr).value;
    var prog := CG.Compiled(t).value;
    SearchNotFound(prog, line, 0, true, fuel);
    forall k | 0 <= k < |line|
      ensures !MatchesPrefix(t, line[k..])
    {
      assert RejectedAt(prog, line, k, true, fuel);
      Correctness.CompiledRunAnswer(t, line[k..], fuel, false);
    }
  }

  /** On a line that fits in a `usize`, evaluation never reports an error. */
  lemma MatchingNoEvalError(expr: seq<char>, line: seq<char>, isDepth: bool, fuel: nat)
    requires |line| <= USIZE_MAX
    ensures !(Matching(expr, line, isDepth, fuel).Err? && Matching(expr, line, isDepth, fuel).error.EvalFailed?)
  {
    var r := Matching(expr, line, isDepth, fuel);
    if r.Err? && r.error.EvalFailed? {
      var t := P.Parsed(expr).value;
      CodegenProps.CompiledShape(t);
      var prog := CG.Compiled(t).value;
      var k := SearchDecided(prog, line, 0, isDepth, fuel);
      EvaluatorProps.NoEvalError(prog, line[k..], 0, 0, false, fuel);
    }
  }

  /** With the breadth-first flag a valid pattern never matches. */
  lemma BreadthFirstFindsNothing(expr: seq<char>, line: seq<char>, fuel: nat)
    requires Matching(expr, line, false, fuel).Ok?
    ensures Matching(expr, line, false, fuel) == Ok((false, None))
  {
    var prog := CG.Compiled(P.Parsed(expr).value).value;
    SearchNotFound(prog, line, 0, false, fuel);
  }
}
