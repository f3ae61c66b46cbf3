/**
 * The code of src/engine/codegen.rs is correct for the machine of
 * src/engine/evaluator.rs: from the first address of a construct's code, a
 * path of the machine reaches the address just after that code at position
 * `j` exactly when the construct matches the characters in between. So a
 * finished run of a program of `get_code` answers whether the pattern
 * matches some prefix of the line.
 */
module Correctness {
  import opened Wrappers
  import opened Instructions
  import opened Codegen
  import opened EvaluatorProps
  import opened Language
  import P = Parser
  import E = Evaluator

  /** `code` sits in `prog` from address `a` on. */
  predicate At(prog: seq<Instruction>, code: seq<Instruction>, a: nat) {
    a + |code| <= |prog| && forall k :: 0 <= k < |code| ==> prog[a + k] == code[k]
  }

  lemma AtSplit(prog: seq<Instruction>, x: seq<Instruction>, y: seq<Instruction>, a: nat)
    requires At(prog, x + y, a)
    ensures At(prog, x, a) && At(prog, y, a + |x|)
  {
    forall k | 0 <= k < |x|
      ensures prog[a + k] == x[k]
    {
      assert (x + y)[k] == x[k];
    }
    forall k | 0 <= k < |y|
      ensures prog[a + |x| + k] == y[k]
    {
      assert (x + y)[|x| + k] == y[k];
    }
  }

  /** The layout of `e?` at `a`, read off its code. */
  lemma QuestionAt(prog: seq<Instruction>, e: P.AST, a: nat)
    requires At(prog, Code(P.Question(e), a), a)
    ensures var body := Code(e, a + 1);
      && |Code(P.Question(e), a)| == |body| + 1
      && prog[a] == Split(a + 1, a + 1 + |body|)
      && At(prog, body, a + 1)
  {
    var body := Code(e, a + 1);
    var split := [Split(a + 1, a + 1 + |body|)];
    assert Code(P.Question(e), a) == QuestionCode(e, a) == split + body;
    AtSplit(prog, split, body, a);
    assert prog[a + 0] == split[0];
  }

  /** The layout of `e*` at `a`. */
  lemma StarAt(prog: seq<Instruction>, e: P.AST, a: nat)
    requires At(prog, Code(P.Star(e), a), a)
    ensures var body := Code(e, a + 1);
      && |Code(P.Star(e), a)| == |body| + 2
      && prog[a] == Split(a + 1, a + 2 + |body|)
      && At(prog, body, a + 1)
      && prog[a + 1 + |body|] == Jump(a)
  {
    var body := Code(e, a + 1);
    var split := [Split(a + 1, a + 2 + |body|)];
    assert Code(P.Star(e), a) == StarCode(e, a) == split + body + [Jump(a)];
    AtSplit(prog, split + body, [Jump(a)], a);
    AtSplit(prog, split, body, a);
    assert prog[a + 0] == split[0];
    assert prog[a + 1 + |body| + 0] == [Jump(a)][0];
  }

  /** The layout of `e+` at `a`. */
  lemma PlusAt(prog: seq<Instruction>, e: P.AST, a: nat)
    requires At(prog, Code(P.Plus(e), a), a)
    ensures var body := Code(e, a);
      && |Code(P.Plus(e), a)| == |body| + 1
      && At(prog, body, a)
      && prog[a + |body|] == Split(a, a + |body| + 1)
  {
    var body := Code(e, a);
    var split := [Split(a, a + |body| + 1)];
    assert Code(P.Plus(e), a) == PlusCode(e, a) == body + split;
    AtSplit(prog, body, split, a);
    assert prog[a + |body| + 0] == split[0];
  }

  /** The layout of `e1|e2` at `a`. */
  lemma OrAt(prog: seq<Instruction>, e1: P.AST, e2: P.AST, a: nat)
    requires At(prog, Code(P.Or(e1, e2), a), a)
    ensures var left := Code(e1, a + 1);
      var l2 := a + 2 + |left|;
      var right := Code(e2, l2);
      && |Code(P.Or(e1, e2), a)| == |left| + |right| + 2
      && prog[a] == Split(a + 1, l2)
      && At(prog, left, a + 1)
      && prog[a + 1 + |left|] == Jump(l2 + |right|)
      && At(prog, right, l2)
  {
    var left := Code(e1, a + 1);
    var l2 := a + 2 + |left|;
    var right := Code(e2, l2);
    var split := [Split(a + 1, l2)];
    var jump := [Jump(l2 + |right|)];
    assert Code(P.Or(e1, e2), a) == OrCode(e1, e2, a) == split + left + jump + right;
    AtSplit(prog, split + left + jump, right, a);
    AtSplit(prog, split + left, jump, a);
    AtSplit(prog, split, left, a);
    assert prog[a + 0] == split[0];
    assert prog[a + 1 + |left| + 0] == jump[0];
  }

  /** The layout of the first `n > 0` items at `a`: the first `n - 1`, then item `n - 1`. */
  lemma SeqAt(prog: seq<Instruction>, items: seq<P.AST>, n: nat, a: nat)
    requires 0 < n <= |items| && At(prog, CodeSeq(items, n, a), a)
    ensures var front := CodeSeq(items, n - 1, a);
      var last := Code(items[n - 1], a + |front|);
      && |CodeSeq(items, n, a)| == |front| + |last|
      && At(prog, front, a)
      && At(prog, last, a + |front|)
  {
    var front := CodeSeq(items, n - 1, a);
    var last := Code(items[n - 1], a + |front|);
    AtSplit(prog, front, last, a);
  }

  /**
   * A path from the start of the code of `t` that reaches `Match` first
   * leaves that code at a position `j` such that `t` matches `s[i..j]`.
   */
  lemma {:induction false} Forward(t: P.AST, prog: seq<Instruction>, s: seq<char>, a: nat, i: nat, n: nat)
    returns (j: nat, m: nat)
    requires At(prog, Code(t, a), a) && i <= |s| && Path(prog, s, a, i, false, n)
    ensures Accepts(t, s, i, j) && m <= n && Path(prog, s, a + |Code(t, a)|, j, false, m)
    decreases t, 1, n
  {
    match t
    case Char(c) =>
      assert prog[a + 0] == Code(t, a)[0];
      j, m := i + 1, n - 1;
    case Dot =>
      assert prog[a + 0] == Code(t, a)[0];
      j, m := i + 1, n - 1;
    case Seq(items) =>
      j, m := ForwardSeq(items, |items|, prog, s, a, i, n);
    case Question(e) =>
      j, m := ForwardQuestion(e, prog, s, a, i, n);
    case Star(e) =>
      j, m := ForwardStar(e, prog, s, a, i, n);
    case Plus(e) =>
      j, m := ForwardPlus(e, prog, s, a, i, n);
    case Or(e1, e2) =>
      j, m := ForwardOr(e1, e2, prog, s, a, i, n);
  }

  lemma {:induction false} ForwardQuestion(e: P.AST, prog: seq<Instruction>, s: seq<char>, a: nat, i: nat, n: nat)
    returns (j: nat, m: nat)
    requires At(prog, Code(P.Question(e), a), a) && i <= |s| && Path(prog, s, a, i, false, n)
    ensures Accepts(P.Question(e), s, i, j) && m <= n && Path(prog, s, a + |Code(P.Question(e), a)|, j, false, m)
    decreases P.Question(e), 0, n
  {
    QuestionAt(prog, e, a);
    if Path(prog, s, a + 1, i, false, n - 1) {
      j, m := Forward(e, prog, s, a + 1, i, n - 1);
    } else {
      j, m := i, n - 1;
    }
  }

  /** Each turn of the loop of `e*` is one match of `e`. */
  lemma {:induction false} ForwardStar(e: P.AST, prog: seq<Instruction>, s: seq<char>, a: nat, i: nat, n: nat)
    returns (j: nat, m: nat)
    requires At(prog, Code(P.Star(e), a), a) && i <= |s| && Path(prog, s, a, i, false, n)
    ensures Accepts(P.Star(e), s, i, j) && m <= n && Path(prog, s, a + |Code(P.Star(e), a)|, j, false, m)
    decreases P.Star(e), 0, n
  {
    StarAt(prog, e, a);
    if Path(prog, s, a + 1, i, false, n - 1) {
      var k, m1 := Forward(e, prog, s, a + 1, i, n - 1);
      j, m := ForwardStar(e, prog, s, a, k, m1 - 1);
      assert Accepts(P.Star(e), s, i, j) by {
        if k > i {
          assert Accepts(e, s, i, k) && Accepts(P.Star(e), s, k, j);
        }
      }
    } else {
      j, m := i, n - 1;
    }
  }

  lemma {:induction false} ForwardPlus(e: P.AST, prog: seq<Instruction>, s: seq<char>, a: nat, i: nat, n: nat)
    returns (j: nat, m: nat)
    requires At(prog, Code(P.Plus(e), a), a) && i <= |s| && Path(prog, s, a, i, false, n)
    ensures Accepts(P.Plus(e), s, i, j) && m <= n && Path(prog, s, a + |Code(P.Plus(e), a)|, j, false, m)
    decreases P.Plus(e), 0, n
  {
    PlusAt(prog, e, a);
    var k, m1 := Forward(e, prog, s, a, i, n);
    if Path(prog, s, a, k, false, m1 - 1) {
      j, m := ForwardPlus(e, prog, s, a, k, m1 - 1);
      assert Accepts(P.Plus(e), s, i, j) by {
        if k > i {
          assert Accepts(e, s, i, k) && Accepts(P.Plus(e), s, k, j);
        }
      }
    } else {
      j, m := k, m1 - 1;
    }
  }

  lemma {:induction false} ForwardOr(e1: P.AST, e2: P.AST, prog: seq<Instruction>, s: seq<char>, a: nat, i: nat, n: nat)
    returns (j: nat, m: nat)
    requires At(prog, Code(P.Or(e1, e2), a), a) && i <= |s| && Path(prog, s, a, i, false, n)
    ensures Accepts(P.Or(e1, e2), s, i, j) && m <= n && Path(prog, s, a + |Code(P.Or(e1, e2), a)|, j, false, m)
    decreases P.Or(e1, e2), 0, n
  {
    OrAt(prog, e1, e2, a);
    if Path(prog, s, a + 1, i, false, n - 1) {
      var k, m1 := Forward(e1, prog, s, a + 1, i, n - 1);
      j, m := k, m1 - 1;
    } else {
      var left := Code(e1, a + 1);
      j, m := Forward(e2, prog, s, a + 2 + |left|, i, n - 1);
    }
  }

  lemma {:induction false} ForwardSeq(items: seq<P.AST>, len: nat, prog: seq<Instruction>, s: seq<char>, a: nat, i: nat, n: nat)
    returns (j: nat, m: nat)
    requires len <= |items|
    requires At(prog, CodeSeq(items, len, a), a) && i <= |s| && Path(prog, s, a, i, false, n)
    ensures AcceptsSeq(items, len, s, i, j) && m <= n && Path(prog, s, a + |CodeSeq(items, len, a)|, j, false, m)
    decreases items, 0, len
  {
    if len == 0 {
      j, m := i, n;
    } else {
      SeqAt(prog, items, len, a);
      var frontCode := CodeSeq(items, len - 1, a);
      var k, m1 := ForwardSeq(items, len - 1, prog, s, a, i, n);
      j, m := Forward(items[len - 1], prog, s, a + |frontCode|, k, m1);
    }
  }

  /**
   * Conversely, when `t` matches `s[i..j]` and `Match` is reachable from the
   * address after the code of `t` at `j`, it is reachable from its start at `i`.
   */
  lemma {:induction false} Backward(t: P.AST, prog: seq<Instruction>, s: seq<char>, a: nat, i: nat, j: nat, m: nat)
    returns (n: nat)
    requires At(prog, Code(t, a), a) && Accepts(t, s, i, j) && Path(prog, s, a + |Code(t, a)|, j, false, m)
    ensures Path(prog, s, a, i, false, n)
    decreases t, 1, j - i
  {
    match t
    case Char(c) =>
      assert prog[a + 0] == Code(t, a)[0];
      n := m + 1;
    case Dot =>
      assert prog[a + 0] == Code(t, a)[0];
      n := m + 1;
    case Seq(items) =>
      n := BackwardSeq(items, |items|, prog, s, a, i, j, m);
    case Question(e) =>
      n := BackwardQuestion(e, prog, s, a, i, j, m);
    case Star(e) =>
      n := BackwardStar(e, prog, s, a, i, j, m);
    case Plus(e) =>
      n := BackwardPlus(e, prog, s, a, i, j, m);
    case Or(e1, e2) =>
      n := BackwardOr(e1, e2, prog, s, a, i, j, m);
  }

  lemma {:induction false} BackwardQuestion(e: P.AST, prog: seq<Instruction>, s: seq<char>, a: nat, i: nat, j: nat, m: nat)
    returns (n: nat)
    requires At(prog, Code(P.Question(e), a), a) && Accepts(P.Question(e), s, i, j)
    requires Path(prog, s, a + |Code(P.Question(e), a)|, j, false, m)
    ensures Path(prog, s, a, i, false, n)
    decreases P.Question(e), 0, j - i
  {
    QuestionAt(prog, e, a);
    if Accepts(e, s, i, j) {
      var n1 := Backward(e, prog, s, a + 1, i, j, m);
      n := n1 + 1;
    } else {
      n := m + 1;
    }
  }

  /** A match of `e*` that repeats `e` is taken one turn of the loop at a time. */
  lemma {:induction false} BackwardStar(e: P.AST, prog: seq<Instruction>, s: seq<char>, a: nat, i: nat, j: nat, m: nat)
    returns (n: nat)
    requires At(prog, Code(P.Star(e), a), a) && Accepts(P.Star(e), s, i, j)
    requires Path(prog, s, a + |Code(P.Star(e), a)|, j, false, m)
    ensures Path(prog, s, a, i, false, n)
    decreases P.Star(e), 0, j - i
  {
    StarAt(prog, e, a);
    if i == j {
      n := m + 1;
    } else {
      var body := Code(e, a + 1);
      var k :| i < k <= j && Accepts(e, s, i, k) && Accepts(P.Star(e), s, k, j);
      var n1 := BackwardStar(e, prog, s, a, k, j, m);
      assert Path(prog, s, a + 1 + |body|, k, false, n1 + 1);
      var n2 := Backward(e, prog, s, a + 1, i, k, n1 + 1);
      n := n2 + 1;
    }
  }

  lemma {:induction false} BackwardPlus(e: P.AST, prog: seq<Instruction>, s: seq<char>, a: nat, i: nat, j: nat, m: nat)
    returns (n: nat)
    requires At(prog, Code(P.Plus(e), a), a) && Accepts(P.Plus(e), s, i, j)
    requires Path(prog, s, a + |Code(P.Plus(e), a)|, j, false, m)
    ensures Path(prog, s, a, i, false, n)
    decreases P.Plus(e), 0, j - i
  {
    PlusAt(prog, e, a);
    var body := Code(e, a);
    if Accepts(e, s, i, j) {
      assert Path(prog, s, a + |body|, j, false, m + 1);
      n := Backward(e, prog, s, a, i, j, m + 1);
    } else {
      var k :| i < k <= j && Accepts(e, s, i, k) && Accepts(P.Plus(e), s, k, j);
      var n1 := BackwardPlus(e, prog, s, a, k, j, m);
      assert Path(prog, s, a + |body|, k, false, n1 + 1);
      n := Backward(e, prog, s, a, i, k, n1 + 1);
    }
  }

  lemma {:induction false} BackwardOr(e1: P.AST, e2: P.AST, prog: seq<Instruction>, s: seq<char>, a: nat, i: nat, j: nat, m: nat)
    returns (n: nat)
    requires At(prog, Code(P.Or(e1, e2), a), a) && Accepts(P.Or(e1, e2), s, i, j)
    requires Path(prog, s, a + |Code(P.Or(e1, e2), a)|, j, false, m)
    ensures Path(prog, s, a, i, false, n)
    decreases P.Or(e1, e2), 0, j - i
  {
    OrAt(prog, e1, e2, a);
    var left := Code(e1, a + 1);
    if Accepts(e1, s, i, j) {
      assert Path(prog, s, a + 1 + |left|, j, false, m + 1);
      var n1 := Backward(e1, prog, s, a + 1, i, j, m + 1);
      n := n1 + 1;
    } else {
      var n1 := Backward(e2, prog, s, a + 2 + |left|, i, j, m);
      n := n1 + 1;
    }
  }

  lemma {:induction false} BackwardSeq(items: seq<P.AST>, len: nat, prog: seq<Instruction>, s: seq<char>, a: nat, i: nat, j: nat, m: nat)
    returns (n: nat)
    requires len <= |items|
    requires At(prog, CodeSeq(items, len, a), a) && AcceptsSeq(items, len, s, i, j)
    requires Path(prog, s, a + |CodeSeq(items, len, a)|, j, false, m)
    ensures Path(prog, s, a, i, false, n)
    decreases items, 0, len
  {
    if len == 0 {
      n := m;
    } else {
      SeqAt(prog, items, len, a);
      var frontCode := CodeSeq(items, len - 1, a);
      var k :| i <= k <= j && AcceptsSeq(items, len - 1, s, i, k) && Accepts(items[len - 1], s, k, j);
      var n1 := Backward(items[len - 1], prog, s, a + |frontCode|, k, j, m);
      n := BackwardSeq(items, len - 1, prog, s, a, i, k, n1);
    }
  }

  /**
   * The program `Code(t, 0)` followed by `Match` can reach `Match` from the
   * start of a line exactly when `t` matches a prefix of the line.
   */
  lemma ProgramAccepts(t: P.AST, s: seq<char>)
    ensures Accepting(Code(t, 0) + [Match], s, 0, 0, false) <==> MatchesPrefix(t, s)
  {
    var code := Code(t, 0);
    var prog := code + [Match];
    assert At(prog, code, 0) by {
      forall k | 0 <= k < |code|
        ensures prog[0 + k] == code[k]
      {
      }
    }
    if Accepting(prog, s, 0, 0, false) {
      var n: nat :| Path(prog, s, 0, 0, false, n);
      var j, m := Forward(t, prog, s, 0, 0, n);
    }
    if MatchesPrefix(t, s) {
      var j :| 0 <= j <= |s| && Accepts(t, s, 0, j);
      assert Path(prog, s, |code|, j, false, 1);
      var n := Backward(t, prog, s, 0, 0, j, 1);
    }
  }

  /**
   * Compiler and machine together: a finished forward run of the program of
   * `get_code` for `t` answers whether `t` matches a prefix of the line.
   */
  lemma CompiledRunAnswer(t: P.AST, s: seq<char>, fuel: nat, b: bool)
    requires Compiled(t).Ok?
    requires E.Run(Compiled(t).value, s, 0, 0, false, fuel) == E.Finished(Ok(b))
    ensures b <==> MatchesPrefix(t, s)
  {
    RunAnswer(Compiled(t).value, s, 0, 0, false, fuel, b);
    ProgramAccepts(t, s);
  }
}
