/**
 * The instruction set of the matching machine (`Instruction`,
 * src/engine.rs:9-15): a program is a sequence of these, addressed from 0.
 */
module Instructions {

  datatype Instruction =
    | Char(c: char)
    | Dot
    | Match
    | Jump(addr: nat)
    | Split(addr1: nat, addr2: nat)

  /** Every `Jump` and `Split` of `code` targets an address in `[lo, hi]`. */
  predicate TargetsWithin(code: seq<Instruction>, lo: nat, hi: nat) {
    forall i :: 0 <= i < |code| ==>
      (code[i].Jump? ==> lo <= code[i].addr <= hi) &&
      (code[i].Split? ==> lo <= code[i].addr1 <= hi && lo <= code[i].addr2 <= hi)
  }

  /** Bounds on targets survive concatenation. */
  lemma TargetsAppend(x: seq<Instruction>, y: seq<Instruction>, lo: nat, hi: nat)
    requires TargetsWithin(x, lo, hi) && TargetsWithin(y, lo, hi)
    ensures TargetsWithin(x + y, lo, hi)
  {
    forall i | 0 <= i < |x + y|
      ensures (x + y)[i] == if i < |x| then x[i] else y[i - |x|]
    {
    }
  }

  /** Bounds on targets can be widened. */
  lemma TargetsWiden(x: seq<Instruction>, lo: nat, hi: nat, lo2: nat, hi2: nat)
    requires TargetsWithin(x, lo, hi) && lo2 <= lo && hi <= hi2
    ensures TargetsWithin(x, lo2, hi2)
  {
  }
}
