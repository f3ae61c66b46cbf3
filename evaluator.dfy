/**
 * The depth-first matching machine of src/engine/evaluator.rs: a program
 * counter `pc` into the instructions and a string pointer `sp` into the
 * line, advanced step by step; `Split` tries its first target and, only when
 * that run does not match, its second.
 *
 * The source's machine need not stop (a `*` over a body that matches the
 * empty string loops through its `Split` and `Jump` forever), so the model
 * bounds every run with fuel: each step of a path spends one unit, and a run
 * that exhausts it ends in `OutOfFuel` instead of a result.
 */
module Evaluator {
  import opened Wrappers
  import opened Helper
  import opened Instructions

  /** Evaluation failures (evaluator.rs:10-16). */
  datatype EvalError = PCOverFlow | SPOverFlow | InvalidPC

  /** The end of a bounded run: the source's result, or fuel exhausted first. */
  datatype Outcome = Finished(result: Result<bool, EvalError>) | OutOfFuel

  /**
   * `eval_depth` from state `(pc, sp)` with `fuel` steps left on each path
   * (evaluator.rs:26-84). The overflow errors can only arise on a program or
   * a line longer than `usize::MAX`, since `pc` and `sp` are incremented only
   * from a position inside them.
   */
  function Run(prog: seq<Instruction>, line: seq<char>, pc: nat, sp: nat, backward: bool, fuel: nat): (r: Outcome)
    ensures r == Finished(Err(PCOverFlow)) ==> |prog| > USIZE_MAX
    ensures r == Finished(Err(SPOverFlow)) ==> |line| > USIZE_MAX
    decreases fuel, 1
  {
    if fuel == 0 then OutOfFuel
    else if pc >= |prog| then Finished(Err(InvalidPC))
    else
      match prog[pc]
      case Char(c) =>
        if sp < |line| && line[sp] == c then Advance(prog, line, pc, sp, backward, fuel - 1)
        else Finished(Ok(false))
      case Dot =>
        if sp < |line| then Advance(prog, line, pc, sp, backward, fuel - 1)
        else Finished(Ok(false))
      case Match =>
        Finished(Ok(!(|line| != sp && backward)))
      case Jump(addr) =>
        Run(prog, line, addr, sp, backward, fuel - 1)
      case Split(addr1, addr2) =>
        match Run(prog, line, addr1, sp, backward, fuel - 1)
        case OutOfFuel => OutOfFuel
        case Finished(Err(e)) => Finished(Err(e))
        case Finished(Ok(true)) => Finished(Ok(true))
        case Finished(Ok(false)) => Run(prog, line, addr2, sp, backward, fuel - 1)
  }

  /** The checked increments of `pc`, then `sp`, after a character is consumed. */
  function Advance(prog: seq<Instruction>, line: seq<char>, pc: nat, sp: nat, backward: bool, fuel: nat): (r: Outcome)
    requires pc < |prog| && sp < |line|
    ensures r == Finished(Err(PCOverFlow)) ==> |prog| > USIZE_MAX
    ensures r == Finished(Err(SPOverFlow)) ==> |line| > USIZE_MAX
    decreases fuel, 2
  {
    match SafeAdd(pc, 1)
    case None => Finished(Err(PCOverFlow))
    case Some(pc1) =>
      match SafeAdd(sp, 1)
      case None => Finished(Err(SPOverFlow))
      case Some(sp1) => Run(prog, line, pc1, sp1, backward, fuel)
  }

  /**
   * `eval_depth`: the source's `loop` over `pc` and `sp`, recursing at each
   * `Split` for the first target and, when that does not match, the second.
   */
  method EvalDepth(prog: seq<Instruction>, line: seq<char>, pc0: nat, sp0: nat, backward: bool, fuel: nat)
    returns (o: Outcome)
    ensures o == Run(prog, line, pc0, sp0, backward, fuel)
    decreases fuel
  {
    var pc: nat := pc0;
    var sp: nat := sp0;
    var f: nat := fuel;
    while true
      invariant f <= fuel
      invariant Run(prog, line, pc, sp, backward, f) == Run(prog, line, pc0, sp0, backward, fuel)
      decreases f
    {
      if f == 0 {
        return OutOfFuel;
      }
      if pc >= |prog| {
        return Finished(Err(InvalidPC));
      }
      match prog[pc] {
        case Char(c) =>
          if sp < |line| && line[sp] == c {
            var next := SafeAdd(pc, 1);
            if next.None? {
              return Finished(Err(PCOverFlow));
            }
            pc := next.value;
            next := SafeAdd(sp, 1);
            if next.None? {
              return Finished(Err(SPOverFlow));
            }
            sp := next.value;
          } else {
            return Finished(Ok(false));
          }
        case Dot =>
          if sp < |line| {
            var next := SafeAdd(pc, 1);
            if next.None? {
              return Finished(Err(PCOverFlow));
            }
            pc := next.value;
            next := SafeAdd(sp, 1);
            if next.None? {
              return Finished(Err(SPOverFlow));
            }
            sp := next.value;
          } else {
            return Finished(Ok(false));
          }
        case Match =>
          if |line| != sp && backward {
            return Finished(Ok(false));
          }
          return Finished(Ok(true));
        case Jump(addr) =>
          pc := addr;
        case Split(addr1, addr2) =>
          var first := EvalDepth(prog, line, addr1, sp, backward, f - 1);
          if first != Finished(Ok(false)) {
            return first;
          }
          o := EvalDepth(prog, line, addr2, sp, backward, f - 1);
          return;
      }
      f := f - 1;
    }
  }

  /**
   * `eval`: depth-first from `(0, 0)`; the breadth-first search the flag
   * selects otherwise is not written yet and answers `false`.
   */
  function Evaluated(prog: seq<Instruction>, line: seq<char>, isDepth: bool, backward: bool, fuel: nat): Outcome {
    if isDepth then Run(prog, line, 0, 0, backward, fuel) else Finished(Ok(false))
  }

  /** `eval` (evaluator.rs:88-101). */
  method Eval(prog: seq<Instruction>, line: seq<char>, isDepth: bool, backward: bool, fuel: nat)
    returns (o: Outcome)
    ensures isDepth ==> o == Run(prog, line, 0, 0, backward, fuel)
    ensures !isDepth ==> o == Finished(Ok(false))
  {
    if isDepth {
      o := EvalDepth(prog, line, 0, 0, backward, fuel);
    } else {
      o := Finished(Ok(false));
    }
  }
}
