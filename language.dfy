/**
 * The language of a syntax tree, as the operators are usually read: which
 * stretches `s[i..j]` of a line the pattern matches. This definition is
 * independent of the code generator and of the machine, and is what their
 * correctness is stated against.
 */
module Language {
  import opened Parser

  /**
   * `t` matches `s[i..j]`. A `*` or `+` repeats its operand; repetitions that
   * match the empty string add nothing, so each further repetition here
   * consumes at least one character.
   */
  predicate Accepts(t: AST, s: seq<char>, i: nat, j: nat)
    decreases t, 1, j - i
  {
    i <= j <= |s| &&
    match t
    case Char(c) => j == i + 1 && s[i] == c
    case Dot => j == i + 1
    case Seq(items) => AcceptsSeq(items, |items|, s, i, j)
    case Question(e) => i == j || Accepts(e, s, i, j)
    case Star(e) =>
      i == j || exists k :: i < k <= j && Accepts(e, s, i, k) && Accepts(Star(e), s, k, j)
    case Plus(e) =>
      Accepts(e, s, i, j) || exists k :: i < k <= j && Accepts(e, s, i, k) && Accepts(Plus(e), s, k, j)
    case Or(l, r) => Accepts(l, s, i, j) || Accepts(r, s, i, j)
  }

  /** The first `n` items, one after the other, match `s[i..j]`. */
  predicate AcceptsSeq(items: seq<AST>, n: nat, s: seq<char>, i: nat, j: nat)
    requires n <= |items|
    decreases items, 0, n
  {
    i <= j <= |s| &&
    if n == 0 then i == j
    else
      var last := items[n - 1];
      exists k :: i <= k <= j && AcceptsSeq(items, n - 1, s, i, k) && Accepts(last, s, k, j)
  }

  /** Some prefix of `s` is matched by `t`. */
  predicate MatchesPrefix(t: AST, s: seq<char>) {
    exists j :: 0 <= j <= |s| && Accepts(t, s, 0, j)
  }
}
