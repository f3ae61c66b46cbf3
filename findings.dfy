/**
 * Two places where src/engine differs from what its own comments and tests
 * say it does. For each, the code as written is modelled here next to a
 * concrete input that shows the difference; the rest of the model uses the
 * intended behaviour.
 */
module Findings {
  import opened Wrappers
  import opened Helper
  import opened Instructions
  import P = Parser
  import CG = Codegen
  import E = Evaluator
  import Language
  import Correctness
  import Engine
  import EngineExamples

  // gen_star (codegen.rs:73-86)

  /** A tree of characters and `.` only: its code is emitted by `push` alone. */
  predicate Flat(t: P.AST) {
    match t
    case Char(_) => true
    case Dot => true
    case Seq(items) => forall i :: 0 <= i < |items| ==> Flat(items[i])
    case _ => false
  }

  /** The code of a flat tree holds no `Split`. */
  lemma {:induction false} FlatCodeNoSplit(t: P.AST, a: nat)
    requires Flat(t)
    ensures forall k :: 0 <= k < |CG.Code(t, a)| ==> !CG.Code(t, a)[k].Split?
    decreases t, 1
  {
    match t
    case Char(_) =>
    case Dot =>
    case Seq(items) =>
      FlatCodeSeqNoSplit(items, |items|, a);
  }

  lemma {:induction false} FlatCodeSeqNoSplit(items: seq<P.AST>, n: nat, a: nat)
    requires n <= |items| && forall i :: 0 <= i < |items| ==> Flat(items[i])
    ensures forall k :: 0 <= k < |CG.CodeSeq(items, n, a)| ==> !CG.CodeSeq(items, n, a)[k].Split?
    decreases items, 0, n
  {
    if n > 0 {
      var front := CG.CodeSeq(items, n - 1, a);
      FlatCodeSeqNoSplit(items, n - 1, a);
      FlatCodeNoSplit(items[n - 1], a + |front|);
    }
  }

  /**
   * `gen_star` as written, from a generator whose next address is `pc` and
   * whose instructions so far are `insts`, for a flat body: it records
   * `split_addr`, increments `pc`, builds a `Split` it never pushes, lets the
   * body append its instructions, and then patches the instruction at
   * `split_addr` if that is a `Split`, failing with `FailStar` otherwise. No
   * `Jump` is emitted. The result is the new `pc` and instructions.
   */
  function StarAsWritten(e: P.AST, pc: nat, insts: seq<Instruction>): Result<(nat, seq<Instruction>), CG.CodeGenError>
    requires Flat(e)
  {
    if pc + 1 > USIZE_MAX then Err(CG.PCOverFlow)
    else
      var body := CG.Code(e, pc + 1);
      if pc + 1 + |body| > USIZE_MAX then Err(CG.PCOverFlow)
      else
        var after := insts + body;
        if pc < |after| && after[pc].Split? then Ok((pc + 1 + |body|, after[pc := Split(after[pc].addr1, pc + 1 + |body|)]))
        else Err(CG.FailStar)
  }

  /** With a flat body and no overflow, `gen_star` as written always fails with `FailStar`. */
  lemma StarAsWrittenFails(e: P.AST, pc: nat, insts: seq<Instruction>)
    requires Flat(e) && pc == |insts| && pc + 1 + |CG.Code(e, pc + 1)| <= USIZE_MAX
    ensures StarAsWritten(e, pc, insts) == Err(CG.FailStar)
  {
    FlatCodeNoSplit(e, pc + 1);
    var body := CG.Code(e, pc + 1);
    if pc < |insts + body| {
      assert (insts + body)[pc] == body[0];
    }
  }

  /**
   * main.rs:81 expects `(abc)*` to match `abcabc`; as written, generating
   * the code of its star fails, while the layout of the doc comment
   * (codegen.rs:67-72) gives the match.
   */
  lemma AbcStarAsWritten()
    ensures StarAsWritten(P.Seq([P.Char('a'), P.Char('b'), P.Char('c')]), 0, []) == Err(CG.FailStar)
    ensures Engine.Matching("(abc)*", "abcabc", true, EngineExamples.F) == Ok((true, Some("abcabc")))
  {
    var body := P.Seq([P.Char('a'), P.Char('b'), P.Char('c')]);
    assert CG.Code(body, 1) == CG.CodeSeq(body.items, 3, 1) == [Char('a'), Char('b'), Char('c')];
    StarAsWrittenFails(body, 0, []);
    EngineExamples.AbcStarMatches();
  }

  // The `Dot` step of eval_depth (evaluator.rs:58-62)

  /**
   * `eval_depth` as written: identical to `Evaluator.Run` except that `Dot`
   * advances `pc` and `sp` without checking that a character is left.
   */
  function RunAsWritten(prog: seq<Instruction>, line: seq<char>, pc: nat, sp: nat, backward: bool, fuel: nat): E.Outcome
    decreases fuel, 0
  {
    if fuel == 0 then E.OutOfFuel
    else if pc >= |prog| then E.Finished(Err(E.InvalidPC))
    else
      match prog[pc]
      case Char(c) =>
        if sp < |line| && line[sp] == c then AdvanceAsWritten(prog, line, pc, sp, backward, fuel - 1)
        else E.Finished(Ok(false))
      case Dot =>
        AdvanceAsWritten(prog, line, pc, sp, backward, fuel - 1)
      case Match =>
        E.Finished(Ok(!(|line| != sp && backward)))
      case Jump(addr) =>
        RunAsWritten(prog, line, addr, sp, backward, fuel - 1)
      case Split(addr1, addr2) =>
        match RunAsWritten(prog, line, addr1, sp, backward, fuel - 1)
        case OutOfFuel => E.OutOfFuel
        case Finished(Err(e)) => E.Finished(Err(e))
        case Finished(Ok(true)) => E.Finished(Ok(true))
        case Finished(Ok(false)) => RunAsWritten(prog, line, addr2, sp, backward, fuel - 1)
  }

  function AdvanceAsWritten(prog: seq<Instruction>, line: seq<char>, pc: nat, sp: nat, backward: bool, fuel: nat): E.Outcome
    decreases fuel, 1
  {
    match SafeAdd(pc, 1)
    case None => E.Finished(Err(E.PCOverFlow))
    case Some(pc1) =>
      match SafeAdd(sp, 1)
      case None => E.Finished(Err(E.SPOverFlow))
      case Some(sp1) => RunAsWritten(prog, line, pc1, sp1, backward, fuel)
  }

  /**
   * `a.` compiles to `Char('a'), Dot, Match`. On the line `a` the machine as
   * written steps `.` past the end and reports a match; the pattern matches
   * no prefix of `a`, and the checked `Dot` of `Evaluator.Run` answers
   * `false`.
   */
  lemma DotPastEnd()
    ensures CG.Compiled(P.Seq([P.Char('a'), P.Dot])) == Ok([Char('a'), Dot, Match])
    ensures RunAsWritten([Char('a'), Dot, Match], "a", 0, 0, false, 10) == E.Finished(Ok(true))
    ensures E.Run([Char('a'), Dot, Match], "a", 0, 0, false, 10) == E.Finished(Ok(false))
    ensures !Language.MatchesPrefix(P.Seq([P.Char('a'), P.Dot]), "a")
  {
    var t := P.Seq([P.Char('a'), P.Dot]);
    assert CG.Code(t, 0) == CG.CodeSeq(t.items, 2, 0) == [Char('a'), Dot];
    EngineExamples.CompiledAs(t, [Char('a'), Dot], [Char('a'), Dot, Match]);
    assert E.Run([Char('a'), Dot, Match], "a", 0, 0, false, 10) == E.Finished(Ok(false));
    Correctness.CompiledRunAnswer(t, "a", 10, false);
  }
}
