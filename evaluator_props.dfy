/**
 * What the depth-first machine of src/engine/evaluator.rs computes. A
 * program is read as a nondeterministic automaton: from `(pc, sp)` a `Split`
 * may go to either target. A finished depth-first run answers `true` exactly
 * when some path of that automaton reaches `Match`; the fuel bound only ever
 * turns an answer into `OutOfFuel`, never into a different answer; and a
 * program of `get_code` run on a line that fits in a `usize` never fails.
 */
module EvaluatorProps {
  import opened Wrappers
  import opened Helper
  import opened Instructions
  import opened Evaluator
  import CodegenProps

  /**
   * Some path of at most `n` steps leads from `(pc, sp)` to a `Match` that
   * accepts: a character instruction consumes a matching character, a
   * `Jump` moves, a `Split` takes either target, and when `backward` is set
   * the `Match` must be at the end of the line.
   */
  predicate Path(prog: seq<Instruction>, line: seq<char>, pc: nat, sp: nat, backward: bool, n: nat)
    decreases n
  {
    n > 0 && pc < |prog| &&
    match prog[pc]
    case Char(c) => sp < |line| && line[sp] == c && Path(prog, line, pc + 1, sp + 1, backward, n - 1)
    case Dot => sp < |line| && Path(prog, line, pc + 1, sp + 1, backward, n - 1)
    case Match => !backward || sp == |line|
    case Jump(addr) => Path(prog, line, addr, sp, backward, n - 1)
    case Split(addr1, addr2) =>
      Path(prog, line, addr1, sp, backward, n - 1) || Path(prog, line, addr2, sp, backward, n - 1)
  }

  /** `Match` is reachable from `(pc, sp)` along some path. */
  ghost predicate Accepting(prog: seq<Instruction>, line: seq<char>, pc: nat, sp: nat, backward: bool) {
    exists n: nat :: Path(prog, line, pc, sp, backward, n)
  }

  /** A path within `n` steps is a path within any larger bound. */
  lemma {:induction false} PathMono(prog: seq<Instruction>, line: seq<char>, pc: nat, sp: nat, backward: bool, n: nat, m: nat)
    requires Path(prog, line, pc, sp, backward, n) && n <= m
    ensures Path(prog, line, pc, sp, backward, m)
    decreases n
  {
    match prog[pc]
    case Char(_) =>
      PathMono(prog, line, pc + 1, sp + 1, backward, n - 1, m - 1);
    case Dot =>
      PathMono(prog, line, pc + 1, sp + 1, backward, n - 1, m - 1);
    case Match =>
    case Jump(addr) =>
      PathMono(prog, line, addr, sp, backward, n - 1, m - 1);
    case Split(addr1, addr2) =>
      if Path(prog, line, addr1, sp, backward, n - 1) {
        PathMono(prog, line, addr1, sp, backward, n - 1, m - 1);
      } else {
        PathMono(prog, line, addr2, sp, backward, n - 1, m - 1);
      }
  }

  /** A run that answers `true` followed an accepting path. */
  lemma {:induction false} RunTrueHasPath(prog: seq<Instruction>, line: seq<char>, pc: nat, sp: nat, backward: bool, fuel: nat)
    requires Run(prog, line, pc, sp, backward, fuel) == Finished(Ok(true))
    ensures Path(prog, line, pc, sp, backward, fuel)
    decreases fuel
  {
    match prog[pc]
    case Char(_) =>
      RunTrueHasPath(prog, line, pc + 1, sp + 1, backward, fuel - 1);
    case Dot =>
      RunTrueHasPath(prog, line, pc + 1, sp + 1, backward, fuel - 1);
    case Match =>
    case Jump(addr) =>
      RunTrueHasPath(prog, line, addr, sp, backward, fuel - 1);
    case Split(addr1, addr2) =>
      if Run(prog, line, addr1, sp, backward, fuel - 1) == Finished(Ok(true)) {
        RunTrueHasPath(prog, line, addr1, sp, backward, fuel - 1);
      } else {
        RunTrueHasPath(prog, line, addr2, sp, backward, fuel - 1);
      }
  }

  /** A run that answers `false` explored every path, and none accepts. */
  lemma {:induction false} RunFalseNoPath(prog: seq<Instruction>, line: seq<char>, pc: nat, sp: nat, backward: bool, fuel: nat, n: nat)
    requires Run(prog, line, pc, sp, backward, fuel) == Finished(Ok(false))
    ensures !Path(prog, line, pc, sp, backward, n)
    decreases fuel
  {
    if n > 0 {
      match prog[pc]
      case Char(c) =>
        if sp < |line| && line[sp] == c {
          RunFalseNoPath(prog, line, pc + 1, sp + 1, backward, fuel - 1, n - 1);
        }
      case Dot =>
        if sp < |line| {
          RunFalseNoPath(prog, line, pc + 1, sp + 1, backward, fuel - 1, n - 1);
        }
      case Match =>
      case Jump(addr) =>
        RunFalseNoPath(prog, line, addr, sp, backward, fuel - 1, n - 1);
      case Split(addr1, addr2) =>
        RunFalseNoPath(prog, line, addr1, sp, backward, fuel - 1, n - 1);
        RunFalseNoPath(prog, line, addr2, sp, backward, fuel - 1, n - 1);
    }
  }

  /** A finished run's answer is whether some path accepts. */
  lemma RunAnswer(prog: seq<Instruction>, line: seq<char>, pc: nat, sp: nat, backward: bool, fuel: nat, b: bool)
    requires Run(prog, line, pc, sp, backward, fuel) == Finished(Ok(b))
    ensures b <==> Accepting(prog, line, pc, sp, backward)
  {
    if b {
      RunTrueHasPath(prog, line, pc, sp, backward, fuel);
    } else {
      forall n: nat ensures !Path(prog, line, pc, sp, backward, n) {
        RunFalseNoPath(prog, line, pc, sp, backward, fuel, n);
      }
    }
  }

  /** More fuel never changes a finished run's outcome. */
  lemma {:induction false} FuelMono(prog: seq<Instruction>, line: seq<char>, pc: nat, sp: nat, backward: bool, fuel: nat, more: nat)
    requires Run(prog, line, pc, sp, backward, fuel).Finished? && fuel <= more
    ensures Run(prog, line, pc, sp, backward, more) == Run(prog, line, pc, sp, backward, fuel)
    decreases fuel
  {
    if pc < |prog| {
      match prog[pc]
      case Char(c) =>
        if sp < |line| && line[sp] == c && pc + 1 <= USIZE_MAX && sp + 1 <= USIZE_MAX {
          FuelMono(prog, line, pc + 1, sp + 1, backward, fuel - 1, more - 1);
        }
      case Dot =>
        if sp < |line| && pc + 1 <= USIZE_MAX && sp + 1 <= USIZE_MAX {
          FuelMono(prog, line, pc + 1, sp + 1, backward, fuel - 1, more - 1);
        }
      case Match =>
      case Jump(addr) =>
        FuelMono(prog, line, addr, sp, backward, fuel - 1, more - 1);
      case Split(addr1, addr2) =>
        FuelMono(prog, line, addr1, sp, backward, fuel - 1, more - 1);
        if Run(prog, line, addr1, sp, backward, fuel - 1) == Finished(Ok(false)) {
          FuelMono(prog, line, addr2, sp, backward, fuel - 1, more - 1);
        }
    }
  }

  /**
   * A program of `get_code`, started inside itself on a line of at most
   * `usize::MAX` characters, never overflows and never leaves the program.
   */
  lemma {:induction false} NoEvalError(prog: seq<Instruction>, line: seq<char>, pc: nat, sp: nat, backward: bool, fuel: nat)
    requires CodegenProps.WellFormed(prog) && |prog| <= USIZE_MAX && |line| <= USIZE_MAX
    requires pc < |prog| && sp <= |line|
    ensures Run(prog, line, pc, sp, backward, fuel) == OutOfFuel || Run(prog, line, pc, sp, backward, fuel).result.Ok?
    decreases fuel
  {
    if fuel > 0 {
      match prog[pc]
      case Char(c) =>
        if sp < |line| && line[sp] == c {
          assert pc != |prog| - 1;
          NoEvalError(prog, line, pc + 1, sp + 1, backward, fuel - 1);
        }
      case Dot =>
        if sp < |line| {
          assert pc != |prog| - 1;
          NoEvalError(prog, line, pc + 1, sp + 1, backward, fuel - 1);
        }
      case Match =>
      case Jump(addr) =>
        NoEvalError(prog, line, addr, sp, backward, fuel - 1);
      case Split(addr1, addr2) =>
        NoEvalError(prog, line, addr1, sp, backward, fuel - 1);
        NoEvalError(prog, line, addr2, sp, backward, fuel - 1);
    }
  }

  /**
   * `sp` only moves forward: a run from position `sp` reads no character
   * before it, so it answers the same on the line with any prefix up to `sp`
   * cut off.
   */
  lemma {:induction false} RunOnSuffix(prog: seq<Instruction>, line: seq<char>, pc: nat, sp: nat, k: nat, backward: bool, fuel: nat)
    requires k <= sp <= |line| && |line| <= USIZE_MAX
    ensures Run(prog, line, pc, sp, backward, fuel) == Run(prog, line[k..], pc, sp - k, backward, fuel)
    decreases fuel
  {
    if fuel > 0 && pc < |prog| {
      match prog[pc]
      case Char(c) =>
        if sp < |line| && line[sp] == c {
          assert line[k..][sp - k] == line[sp];
          RunOnSuffix(prog, line, pc + 1, sp + 1, k, backward, fuel - 1);
        }
      case Dot =>
        if sp < |line| {
          RunOnSuffix(prog, line, pc + 1, sp + 1, k, backward, fuel - 1);
        }
      case Match =>
      case Jump(addr) =>
        RunOnSuffix(prog, line, addr, sp, k, backward, fuel - 1);
      case Split(addr1, addr2) =>
        RunOnSuffix(prog, line, addr1, sp, k, backward, fuel - 1);
        RunOnSuffix(prog, line, addr2, sp, k, backward, fuel - 1);
    }
  }
}
