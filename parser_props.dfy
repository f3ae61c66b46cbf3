/**
 * What the scanner of src/engine/parser.rs promises, stated about `Step`,
 * `Run` and `Parsed`: the rule for each reserved character, the shape of
 * `fold_or`'s result, the depth of the scope stack, and where each error
 * points.
 */
module ParserProps {
  import opened Wrappers
  import opened Parser

  /** The first `n` left operands read down the right spine of `t` (the last one is the leaf). */
  function Spine(t: AST, n: nat): seq<AST>
    requires n >= 1
    decreases n
  {
    if n == 1 then [t]
    else if t.Or? then [t.l] + Spine(t.r, n - 1)
    else [t]
  }

  /**
   * `fold_or` keeps its input in order: reading the `Or` spine of the result
   * gives back the alternatives, the first one outermost.
   */
  lemma {:induction false} FoldedSpine(branches: seq<AST>)
    requires |branches| >= 1
    ensures Folded(branches).Some?
    ensures Spine(Folded(branches).value, |branches|) == branches
    decreases |branches|
  {
    if |branches| > 1 {
      FoldedSpine(branches[1..]);
      assert [branches[0]] + branches[1..] == branches;
    }
  }

  /** `|`: an empty left operand is `NoPrev`; otherwise the sequence becomes an alternative. */
  lemma BarRule(acc: Accum, i: nat)
    requires acc.state == Normal
    ensures acc.current == [] ==> Step(acc, i, '|') == Err(NoPrev(i))
    ensures acc.current != [] ==>
      Step(acc, i, '|') == Ok(Accum([], acc.seqOr + [Seq(acc.current)], acc.stack, Normal))
  {
  }

  /** `(`: the current scope is saved and a fresh, empty one begins. */
  lemma LeftParenRule(acc: Accum, i: nat)
    requires acc.state == Normal
    ensures Step(acc, i, '(') == Ok(Accum([], [], acc.stack + [Scope(acc.current, acc.seqOr)], Normal))
  {
  }

  /**
   * `)`: with no open group, `InvalidRightParen`; otherwise exactly one scope
   * is popped, the outer alternatives come back, and the outer sequence gains
   * at most the one node the group folds to.
   */
  lemma RightParenRule(acc: Accum, i: nat)
    requires acc.state == Normal
    ensures acc.stack == [] ==> Step(acc, i, ')') == Err(InvalidRightParen(i))
    ensures acc.stack != [] ==>
      var outer := acc.stack[|acc.stack| - 1];
      && Step(acc, i, ')').Ok?
      && var next := Step(acc, i, ')').value;
      && next.stack == acc.stack[..|acc.stack| - 1]
      && next.seqOr == outer.seqOr
      && next.state == Normal
      && outer.current <= next.current
      && |next.current| <= |outer.current| + 1
      && (acc.current != [] || acc.seqOr != [] <==> |next.current| == |outer.current| + 1)
  {
  }

  /** `+`, `*`, `?`: the last node is wrapped in place, or `NoPrev` when there is none. */
  lemma PostfixRule(acc: Accum, i: nat, c: char)
    requires acc.state == Normal
    requires c == '+' || c == '*' || c == '?'
    ensures acc.current == [] ==> Step(acc, i, c) == Err(NoPrev(i))
    ensures acc.current != [] ==>
      var n := |acc.current|;
      var op := if c == '+' then PlusOp else if c == '*' then StarOp else QuestionOp;
      Step(acc, i, c) == Ok(acc.(current := acc.current[..n - 1] + [Wrap(op, acc.current[n - 1])]))
  {
  }

  /** Any other character in the normal state is appended to the sequence, in source order. */
  lemma LiteralRule(acc: Accum, i: nat, c: char)
    requires acc.state == Normal
    requires !Escapable(c)
    ensures Step(acc, i, c) == Ok(acc.(current := acc.current + [Char(c)]))
  {
  }

  /** `.` appends `Dot`, the node the model adds for it. */
  lemma DotRule(acc: Accum, i: nat)
    requires acc.state == Normal
    ensures Step(acc, i, '.') == Ok(acc.(current := acc.current + [Dot]))
  {
  }

  /** `\` consumes exactly the next character as an escape and returns to the normal state. */
  lemma EscapeRule(acc: Accum, i: nat, c: char)
    requires acc.state == Normal
    ensures Step(acc, i, '\\') == Ok(acc.(state := Escaped))
    ensures var esc := acc.(state := Escaped);
      Step(esc, i + 1, c) == if Escapable(c) then Ok(acc.(current := acc.current + [Char(c)]))
                             else Err(InvalidEscape(i + 1, c))
  {
  }

  /**
   * The number of `(` of `p` not yet closed by a `)`, escaped characters
   * skipped; `escaped` says whether `p[0]` follows a `\`. An independent
   * count, not a replay of the scanner.
   */
  function Depth(p: seq<char>, escaped: bool): int
    decreases |p|
  {
    if p == [] then 0
    else if escaped then Depth(p[1..], false)
    else if p[0] == '\\' then Depth(p[1..], true)
    else if p[0] == '(' then Depth(p[1..], false) + 1
    else if p[0] == ')' then Depth(p[1..], false) - 1
    else Depth(p[1..], false)
  }

  lemma {:induction false} RunDepth(acc: Accum, s: seq<char>, base: nat)
    ensures Run(acc, s, base).Ok? ==>
      |Run(acc, s, base).value.stack| == |acc.stack| + Depth(s, acc.state == Escaped)
    decreases |s|
  {
    if s != [] {
      match Step(acc, base, s[0])
      case Err(_) =>
      case Ok(next) =>
        RunDepth(next, s[1..], base + 1);
    }
  }

  /**
   * After any prefix the scanner accepts, the scope stack holds one entry per
   * `(` still open.
   */
  lemma StackDepth(p: seq<char>)
    ensures Run(Init, p, 0).Ok? ==> |Run(Init, p, 0).value.stack| == Depth(p, false)
  {
    RunDepth(Init, p, 0);
  }

  /** A pattern the scanner accepts fails with `NoRightParen` exactly when a `(` is left open. */
  lemma UnclosedGroup(p: seq<char>)
    requires Run(Init, p, 0).Ok?
    ensures Parsed(p) == Err(NoRightParen) <==> Depth(p, false) > 0
  {
    StackDepth(p);
  }

  /** The character an error names is at the position it reports. */
  predicate ErrorAt(p: seq<char>, e: ParseError) {
    match e
    case InvalidEscape(pos, c) => 0 < pos < |p| && p[pos] == c && p[pos - 1] == '\\' && !Escapable(c)
    case InvalidRightParen(pos) => pos < |p| && p[pos] == ')'
    case NoPrev(pos) => pos < |p| && (p[pos] == '+' || p[pos] == '*' || p[pos] == '?' || p[pos] == '|')
    case NoRightParen => true
    case Empty => true
  }

  lemma {:induction false} RunErrorAt(p: seq<char>, acc: Accum, n: nat)
    requires n <= |p|
    requires acc.state == Escaped ==> 0 < n && p[n - 1] == '\\'
    ensures Run(acc, p[n..], n).Err? ==> ErrorAt(p, Run(acc, p[n..], n).error)
    decreases |p| - n
  {
    if n < |p| {
      assert p[n..][0] == p[n];
      assert p[n..][1..] == p[n + 1..];
      match Step(acc, n, p[n])
      case Err(_) =>
      case Ok(next) =>
        RunErrorAt(p, next, n + 1);
    }
  }

  /** Every position-tagged error of `parse` points at the offending character. */
  lemma ParseErrorAt(p: seq<char>)
    ensures Parsed(p).Err? ==> ErrorAt(p, Parsed(p).error)
  {
    assert p[0..] == p;
    RunErrorAt(p, Init, 0);
  }

  /** A pattern that starts with `+`, `*`, `?` or `|` has no previous expression. */
  lemma LeadingOperator(c: char, rest: seq<char>)
    requires c == '+' || c == '*' || c == '?' || c == '|'
    ensures Parsed([c] + rest) == Err(NoPrev(0))
  {
    assert ([c] + rest)[0] == c;
  }

  /** The parse errors the tests expect, and the empty pattern. */
  lemma ParseErrorExamples()
    ensures Parsed("+b") == Err(NoPrev(0))
    ensures Parsed("*b") == Err(NoPrev(0))
    ensures Parsed("|b") == Err(NoPrev(0))
    ensures Parsed("?b") == Err(NoPrev(0))
    ensures Parsed("(abc") == Err(NoRightParen)
    ensures Parsed("abc)") == Err(InvalidRightParen(3))
    ensures Parsed("") == Err(Empty)
  {
    LeadingOperator('+', "b");
    assert "+b" == ['+'] + "b";
    LeadingOperator('*', "b");
    assert "*b" == ['*'] + "b";
    LeadingOperator('|', "b");
    assert "|b" == ['|'] + "b";
    LeadingOperator('?', "b");
    assert "?b" == ['?'] + "b";
  }
}
