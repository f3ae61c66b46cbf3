/**
 * What the layouts of src/engine/codegen.rs guarantee about the programs it
 * builds: their size, that every `Jump` and `Split` stays inside the code
 * of its own construct, and that the program of `get_code` ends with its
 * only `Match` and never jumps outside itself.
 */
module CodegenProps {
  import opened Wrappers
  import opened Helper
  import opened Instructions
  import opened Codegen
  import P = Parser

  /**
   * The number of instructions of each construct, counted on the tree alone:
   * one per literal or `.`, one `Split` for `?` and `+`, a `Split` and a
   * `Jump` for `*` and `|`.
   */
  function Len(t: P.AST): nat
    decreases t, 1
  {
    match t
    case Char(_) => 1
    case Dot => 1
    case Seq(items) => LenSeq(items, |items|)
    case Question(e) => Len(e) + 1
    case Star(e) => Len(e) + 2
    case Plus(e) => Len(e) + 1
    case Or(e1, e2) => Len(e1) + Len(e2) + 2
  }

  function LenSeq(items: seq<P.AST>, n: nat): nat
    requires n <= |items|
    decreases items, 0, n
  {
    if n == 0 then 0 else LenSeq(items, n - 1) + Len(items[n - 1])
  }

  /** The code of `t` has `Len(t)` instructions, wherever it is placed. */
  lemma {:induction false} CodeLen(t: P.AST, a: nat)
    ensures |Code(t, a)| == Len(t)
    decreases t, 1
  {
    match t
    case Char(_) =>
    case Dot =>
    case Seq(items) =>
      CodeSeqLen(items, |items|, a);
    case Question(e) =>
      CodeLen(e, a + 1);
      assert Code(t, a) == QuestionCode(e, a);
    case Star(e) =>
      CodeLen(e, a + 1);
      assert Code(t, a) == StarCode(e, a);
    case Plus(e) =>
      CodeLen(e, a);
      assert Code(t, a) == PlusCode(e, a);
    case Or(e1, e2) =>
      CodeLen(e1, a + 1);
      CodeLen(e2, a + 2 + Len(e1));
      assert Code(t, a) == OrCode(e1, e2, a);
  }

  lemma {:induction false} CodeSeqLen(items: seq<P.AST>, n: nat, a: nat)
    requires n <= |items|
    ensures |CodeSeq(items, n, a)| == LenSeq(items, n)
    decreases items, 0, n
  {
    if n > 0 {
      CodeSeqLen(items, n - 1, a);
      CodeLen(items[n - 1], a + |CodeSeq(items, n - 1, a)|);
    }
  }

  /** The generated code never contains `Match`: `gen_code` adds the only one. */
  lemma {:induction false} CodeHasNoMatch(t: P.AST, a: nat)
    ensures Match !in Code(t, a)
    decreases t, 1
  {
    match t
    case Char(_) =>
    case Dot =>
    case Seq(items) =>
      CodeSeqHasNoMatch(items, |items|, a);
    case Question(e) =>
      CodeHasNoMatch(e, a + 1);
      assert Code(t, a) == QuestionCode(e, a);
    case Star(e) =>
      CodeHasNoMatch(e, a + 1);
      assert Code(t, a) == StarCode(e, a);
    case Plus(e) =>
      CodeHasNoMatch(e, a);
      assert Code(t, a) == PlusCode(e, a);
    case Or(e1, e2) =>
      CodeHasNoMatch(e1, a + 1);
      CodeHasNoMatch(e2, a + 2 + |Code(e1, a + 1)|);
      assert Code(t, a) == OrCode(e1, e2, a);
  }

  lemma {:induction false} CodeSeqHasNoMatch(items: seq<P.AST>, n: nat, a: nat)
    requires n <= |items|
    ensures Match !in CodeSeq(items, n, a)
    decreases items, 0, n
  {
    if n > 0 {
      CodeSeqHasNoMatch(items, n - 1, a);
      CodeHasNoMatch(items[n - 1], a + |CodeSeq(items, n - 1, a)|);
    }
  }

  /**
   * Every `Jump` and `Split` in the code of `t` placed at `a` targets an
   * address of that code or the address just after it.
   */
  lemma {:induction false} CodeTargets(t: P.AST, a: nat)
    ensures TargetsWithin(Code(t, a), a, a + |Code(t, a)|)
    decreases t, 1
  {
    match t
    case Char(_) =>
    case Dot =>
    case Seq(items) =>
      CodeSeqTargets(items, |items|, a);
    case Question(e) =>
      QuestionTargets(e, a);
    case Star(e) =>
      StarTargets(e, a);
    case Plus(e) =>
      PlusTargets(e, a);
    case Or(e1, e2) =>
      OrTargets(e1, e2, a);
  }

  lemma {:induction false} QuestionTargets(e: P.AST, a: nat)
    ensures TargetsWithin(Code(P.Question(e), a), a, a + |Code(P.Question(e), a)|)
    decreases P.Question(e), 0
  {
    var body := Code(e, a + 1);
    CodeTargets(e, a + 1);
    assert Code(P.Question(e), a) == QuestionCode(e, a) == [Split(a + 1, a + 1 + |body|)] + body;
    TargetsWiden(body, a + 1, a + 1 + |body|, a, a + 1 + |body|);
    TargetsAppend([Split(a + 1, a + 1 + |body|)], body, a, a + 1 + |body|);
  }

  lemma {:induction false} StarTargets(e: P.AST, a: nat)
    ensures TargetsWithin(Code(P.Star(e), a), a, a + |Code(P.Star(e), a)|)
    decreases P.Star(e), 0
  {
    var body := Code(e, a + 1);
    var hi := a + 2 + |body|;
    CodeTargets(e, a + 1);
    assert Code(P.Star(e), a) == StarCode(e, a) == [Split(a + 1, hi)] + body + [Jump(a)];
    TargetsWiden(body, a + 1, a + 1 + |body|, a, hi);
    TargetsAppend([Split(a + 1, hi)], body, a, hi);
    TargetsAppend([Split(a + 1, hi)] + body, [Jump(a)], a, hi);
  }

  lemma {:induction false} PlusTargets(e: P.AST, a: nat)
    ensures TargetsWithin(Code(P.Plus(e), a), a, a + |Code(P.Plus(e), a)|)
    decreases P.Plus(e), 0
  {
    var body := Code(e, a);
    var hi := a + |body| + 1;
    CodeTargets(e, a);
    assert Code(P.Plus(e), a) == PlusCode(e, a) == body + [Split(a, hi)];
    TargetsWiden(body, a, a + |body|, a, hi);
    TargetsAppend(body, [Split(a, hi)], a, hi);
  }

  lemma {:induction false} OrTargets(e1: P.AST, e2: P.AST, a: nat)
    ensures TargetsWithin(Code(P.Or(e1, e2), a), a, a + |Code(P.Or(e1, e2), a)|)
    decreases P.Or(e1, e2), 0
  {
    var left := Code(e1, a + 1);
    var l2 := a + 2 + |left|;
    var right := Code(e2, l2);
    var hi := l2 + |right|;
    CodeTargets(e1, a + 1);
    CodeTargets(e2, l2);
    assert Code(P.Or(e1, e2), a) == OrCode(e1, e2, a) == [Split(a + 1, l2)] + left + [Jump(hi)] + right;
    TargetsWiden(left, a + 1, a + 1 + |left|, a, hi);
    TargetsWiden(right, l2, hi, a, hi);
    TargetsAppend([Split(a + 1, l2)], left, a, hi);
    TargetsAppend([Split(a + 1, l2)] + left, [Jump(hi)], a, hi);
    TargetsAppend([Split(a + 1, l2)] + left + [Jump(hi)], right, a, hi);
  }

  lemma {:induction false} CodeSeqTargets(items: seq<P.AST>, n: nat, a: nat)
    requires n <= |items|
    ensures TargetsWithin(CodeSeq(items, n, a), a, a + |CodeSeq(items, n, a)|)
    decreases items, 0, n
  {
    if n > 0 {
      var front := CodeSeq(items, n - 1, a);
      var last := Code(items[n - 1], a + |front|);
      var hi := a + |front| + |last|;
      CodeSeqTargets(items, n - 1, a);
      CodeTargets(items[n - 1], a + |front|);
      TargetsWiden(front, a, a + |front|, a, hi);
      TargetsWiden(last, a + |front|, hi, a, hi);
      TargetsAppend(front, last, a, hi);
    }
  }

  /**
   * A program of `get_code`: it ends with its only `Match`, and every
   * `Jump` and `Split` target is an address of the program.
   */
  predicate WellFormed(prog: seq<Instruction>) {
    && |prog| >= 1
    && prog[|prog| - 1] == Match
    && (forall i :: 0 <= i < |prog| - 1 ==> prog[i] != Match)
    && TargetsWithin(prog, 0, |prog| - 1)
  }

  /**
   * `get_code` fails exactly when the program would not fit below
   * `usize::MAX` instructions, and otherwise returns a well-formed program of
   * `Len(t) + 1` instructions.
   */
  lemma CompiledShape(t: P.AST)
    ensures Compiled(t).Err? <==> Len(t) + 1 > USIZE_MAX
    ensures Compiled(t).Err? ==> Compiled(t).error == PCOverFlow
    ensures Compiled(t).Ok? ==> |Compiled(t).value| == Len(t) + 1 && WellFormed(Compiled(t).value)
  {
    var code := Code(t, 0);
    CodeLen(t, 0);
    CodeHasNoMatch(t, 0);
    CodeTargets(t, 0);
    if Compiled(t).Ok? {
      var prog := code + [Match];
      assert Compiled(t).value == prog;
      assert forall i :: 0 <= i < |prog| - 1 ==> prog[i] == code[i];
      TargetsAppend(code, [Match], 0, |code|);
    }
  }
}
