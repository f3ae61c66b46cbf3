/**
 * The test cases of src/main.rs, run through the model: each pattern is
 * parsed to the tree listed here, compiled to the program listed here, and
 * that program is searched on the test's line, with enough fuel for every
 * run to finish.
 */
module EngineExamples {
  import opened Wrappers
  import opened Helper
  import opened Instructions
  import opened Engine
  import P = Parser
  import CG = Codegen
  import E = Evaluator
  import ParserProps
  import ParserRender
  import Language

  /** Fuel enough for every run below. */
  const F: nat := 30

  /** The answer of `do_matching` is the search of the compiled program. */
  lemma {:induction false} Pipeline(expr: seq<char>, t: P.AST, prog: seq<Instruction>, line: seq<char>)
    requires P.Parsed(expr) == Ok(t) && CG.Compiled(t) == Ok(prog)
    ensures Matching(expr, line, true, F) == Search(prog, line, 0, true, F)
  {
  }

  /** A tree of the parser's shape is what parsing its printed form gives. */
  lemma {:induction false} ParsedAs(expr: seq<char>, t: P.AST)
    requires ParserRender.IsAlts(t) && ParserRender.RenderAlts(t) == expr
    ensures P.Parsed(expr) == Ok(t)
  {
    ParserRender.ParseRender(t);
  }

  /** The compiled program is the code at address 0 and one `Match`. */
  lemma {:induction false} CompiledAs(t: P.AST, code: seq<Instruction>, prog: seq<Instruction>)
    requires CG.Code(t, 0) == code && |code| < USIZE_MAX && prog == code + [Match]
    ensures CG.Compiled(t) == Ok(prog)
  {
  }

  /** The layout of an alternation, from the code of its two sides. */
  lemma {:induction false} OrLayout(e1: P.AST, e2: P.AST, a: nat, left: seq<Instruction>, right: seq<Instruction>)
    requires CG.Code(e1, a + 1) == left && CG.Code(e2, a + 2 + |left|) == right
    ensures CG.Code(P.Or(e1, e2), a) == [Split(a + 1, a + 2 + |left|)] + left + [Jump(a + 2 + |left| + |right|)] + right
  {
  }
  lemma {:induction false} PlusLayout(e: P.AST, a: nat, body: seq<Instruction>)
    requires CG.Code(e, a) == body
    ensures CG.Code(P.Plus(e), a) == body + [Split(a, a + |body| + 1)]
  {
  }

  lemma {:induction false} PairLayout(c1: char, c2: char, a: nat)
    ensures CG.Code(P.Seq([P.Char(c1), P.Char(c2)]), a) == [Char(c1), Char(c2)]
  {
    var items := [P.Char(c1), P.Char(c2)];
    assert CG.CodeSeq(items, 1, a) == [Char(c1)] by {
      assert CG.CodeSeq(items, 1, a) == CG.CodeSeq(items, 0, a) + CG.Code(items[0], a);
    }
    assert CG.CodeSeq(items, 2, a) == [Char(c1)] + CG.Code(items[1], a + 1);
  }

  lemma {:induction false} TripleLayout(c1: char, c2: char, c3: char, a: nat)
    ensures CG.Code(P.Seq([P.Char(c1), P.Char(c2), P.Char(c3)]), a) == [Char(c1), Char(c2), Char(c3)]
  {
    var items := [P.Char(c1), P.Char(c2), P.Char(c3)];
    assert CG.CodeSeq(items, 1, a) == [Char(c1)] by {
      assert CG.CodeSeq(items, 1, a) == CG.CodeSeq(items, 0, a) + CG.Code(items[0], a);
    }
    assert CG.CodeSeq(items, 2, a) == [Char(c1), Char(c2)] by {
      assert CG.CodeSeq(items, 2, a) == [Char(c1)] + CG.Code(items[1], a + 1);
    }
    assert CG.CodeSeq(items, 3, a) == [Char(c1), Char(c2)] + CG.Code(items[2], a + 2);
  }

  lemma {:induction false} SingleLayout(e: P.AST, a: nat, code: seq<Instruction>)
    requires CG.Code(e, a) == code
    ensures CG.Code(P.Seq([e]), a) == code
  {
    assert CG.CodeSeq([e], 1, a) == CG.CodeSeq([e], 0, a) + code;
  }


  /** main.rs:72-77: malformed patterns end in the parser's error. */
  lemma ParseErrors()
    ensures Matching("+b", "bbb", true, F) == Err(ParseFailed(P.NoPrev(0)))
    ensures Matching("*b", "bbb", true, F) == Err(ParseFailed(P.NoPrev(0)))
    ensures Matching("|b", "bbb", true, F) == Err(ParseFailed(P.NoPrev(0)))
    ensures Matching("?b", "bbb", true, F) == Err(ParseFailed(P.NoPrev(0)))
    ensures Matching("(abc", "bbb", true, F) == Err(ParseFailed(P.NoRightParen))
    ensures Matching("abc)", "bbb", true, F) == Err(ParseFailed(P.InvalidRightParen(3)))
  {
    ParserProps.ParseErrorExamples();
  }

  // `abc|def`

  const AbcOrDef := P.Or(P.Seq([P.Char('a'), P.Char('b'), P.Char('c')]), P.Seq([P.Char('d'), P.Char('e'), P.Char('f')]))
  const AbcOrDefProg := [Split(1, 5), Char('a'), Char('b'), Char('c'), Jump(8), Char('d'), Char('e'), Char('f'), Match]

  lemma AbcOrDefParsed()
    ensures P.Parsed("abc|def") == Ok(AbcOrDef)
  {
    assert ParserRender.RenderAlts(AbcOrDef) == "abc|def";
    ParsedAs("abc|def", AbcOrDef);
  }

  lemma AbcOrDefCode()
    ensures CG.Code(AbcOrDef, 0) == [Split(1, 5), Char('a'), Char('b'), Char('c'), Jump(8), Char('d'), Char('e'), Char('f')]
  {
    var l, r := P.Seq([P.Char('a'), P.Char('b'), P.Char('c')]), P.Seq([P.Char('d'), P.Char('e'), P.Char('f')]);
    TripleLayout('a', 'b', 'c', 1);
    TripleLayout('d', 'e', 'f', 5);
    OrLayout(l, r, 0, [Char('a'), Char('b'), Char('c')], [Char('d'), Char('e'), Char('f')]);
  }

  lemma AbcOrDefCompiled()
    ensures CG.Compiled(AbcOrDef) == Ok(AbcOrDefProg)
  {
    AbcOrDefCode();
    CompiledAs(AbcOrDef, [Split(1, 5), Char('a'), Char('b'), Char('c'), Jump(8), Char('d'), Char('e'), Char('f')], AbcOrDefProg);
  }

  lemma AbcOrDefSearched()
    ensures Search(AbcOrDefProg, "def", 0, true, 30) == Ok((true, Some("def")))
    ensures Search(AbcOrDefProg, "efa", 0, true, 30) == Ok((false, None))
  {
    assert "def"[0..] == "def";
    assert E.Run(AbcOrDefProg, "def", 1, 0, false, 29) == E.Finished(Ok(false));
    assert E.Run(AbcOrDefProg, "def", 8, 3, false, 26) == E.Finished(Ok(true));
    assert E.Run(AbcOrDefProg, "def", 7, 2, false, 27) == E.Finished(Ok(true));
    assert E.Run(AbcOrDefProg, "def", 6, 1, false, 28) == E.Finished(Ok(true));
    assert E.Run(AbcOrDefProg, "def", 5, 0, false, 29) == E.Finished(Ok(true));
    assert E.Run(AbcOrDefProg, "def", 0, 0, false, 30) == E.Finished(Ok(true));
    assert "efa"[2..] == "a";
    assert E.Run(AbcOrDefProg, "a", 2, 1, false, 28) == E.Finished(Ok(false));
    assert E.Run(AbcOrDefProg, "a", 1, 0, false, 29) == E.Finished(Ok(false));
    assert E.Run(AbcOrDefProg, "a", 5, 0, false, 29) == E.Finished(Ok(false));
    assert E.Run(AbcOrDefProg, "a", 0, 0, false, 30) == E.Finished(Ok(false));
    assert Search(AbcOrDefProg, "efa", 2, true, 30) == Ok((false, None));
    assert "efa"[1..] == "fa";
    assert E.Run(AbcOrDefProg, "fa", 1, 0, false, 29) == E.Finished(Ok(false));
    assert E.Run(AbcOrDefProg, "fa", 5, 0, false, 29) == E.Finished(Ok(false));
    assert E.Run(AbcOrDefProg, "fa", 0, 0, false, 30) == E.Finished(Ok(false));
    assert Search(AbcOrDefProg, "efa", 1, true, 30) == Ok((false, None));
    assert "efa"[0..] == "efa";
    assert E.Run(AbcOrDefProg, "efa", 1, 0, false, 29) == E.Finished(Ok(false));
    assert E.Run(AbcOrDefProg, "efa", 5, 0, false, 29) == E.Finished(Ok(false));
    assert E.Run(AbcOrDefProg, "efa", 0, 0, false, 30) == E.Finished(Ok(false));
  }

  /** main.rs:80 and main.rs:86. */
  lemma AbcOrDefMatches()
    ensures Matching("abc|def", "def", true, F) == Ok((true, Some("def")))
    ensures Matching("abc|def", "efa", true, F) == Ok((false, None))
  {
    AbcOrDefParsed();
    AbcOrDefCompiled();
    AbcOrDefSearched();
    Pipeline("abc|def", AbcOrDef, AbcOrDefProg, "def");
    Pipeline("abc|def", AbcOrDef, AbcOrDefProg, "efa");
  }

  // `(abc)*`

  const AbcStar := P.Seq([P.Star(P.Seq([P.Char('a'), P.Char('b'), P.Char('c')]))])
  const AbcStarProg := [Split(1, 5), Char('a'), Char('b'), Char('c'), Jump(0), Match]

  lemma AbcStarParsed()
    ensures P.Parsed("(abc)*") == Ok(AbcStar)
  {
    assert ParserRender.RenderAlts(AbcStar) == "(abc)*";
    ParsedAs("(abc)*", AbcStar);
  }

  lemma AbcStarCode()
    ensures CG.Code(AbcStar, 0) == [Split(1, 5), Char('a'), Char('b'), Char('c'), Jump(0)]
  {
    var star := AbcStar.items[0];
    var body := star.e;
    assert CG.Code(body, 1) == CG.CodeSeq(body.items, 3, 1) == [Char('a'), Char('b'), Char('c')];
    assert CG.Code(star, 0) == CG.StarCode(body, 0) == [Split(1, 5), Char('a'), Char('b'), Char('c'), Jump(0)];
    assert CG.Code(AbcStar, 0) == CG.CodeSeq(AbcStar.items, 1, 0) == [Split(1, 5), Char('a'), Char('b'), Char('c'), Jump(0)];
  }

  lemma AbcStarCompiled()
    ensures CG.Compiled(AbcStar) == Ok(AbcStarProg)
  {
    AbcStarCode();
    CompiledAs(AbcStar, [Split(1, 5), Char('a'), Char('b'), Char('c'), Jump(0)], AbcStarProg);
  }

  lemma AbcStarSearched()
    ensures Search(AbcStarProg, "abcabc", 0, true, 30) == Ok((true, Some("abcabc")))
  {
    assert "abcabc"[0..] == "abcabc";
    assert E.Run(AbcStarProg, "abcabc", 1, 6, false, 19) == E.Finished(Ok(false));
    assert E.Run(AbcStarProg, "abcabc", 5, 6, false, 19) == E.Finished(Ok(true));
    assert E.Run(AbcStarProg, "abcabc", 0, 6, false, 20) == E.Finished(Ok(true));
    assert E.Run(AbcStarProg, "abcabc", 4, 6, false, 21) == E.Finished(Ok(true));
    assert E.Run(AbcStarProg, "abcabc", 3, 5, false, 22) == E.Finished(Ok(true));
    assert E.Run(AbcStarProg, "abcabc", 2, 4, false, 23) == E.Finished(Ok(true));
    assert E.Run(AbcStarProg, "abcabc", 1, 3, false, 24) == E.Finished(Ok(true));
    assert E.Run(AbcStarProg, "abcabc", 0, 3, false, 25) == E.Finished(Ok(true));
    assert E.Run(AbcStarProg, "abcabc", 4, 3, false, 26) == E.Finished(Ok(true));
    assert E.Run(AbcStarProg, "abcabc", 3, 2, false, 27) == E.Finished(Ok(true));
    assert E.Run(AbcStarProg, "abcabc", 2, 1, false, 28) == E.Finished(Ok(true));
    assert E.Run(AbcStarProg, "abcabc", 1, 0, false, 29) == E.Finished(Ok(true));
    assert E.Run(AbcStarProg, "abcabc", 0, 0, false, 30) == E.Finished(Ok(true));
  }

  /** main.rs:81. */
  lemma AbcStarMatches()
    ensures Matching("(abc)*", "abcabc", true, F) == Ok((true, Some("abcabc")))
  {
    AbcStarParsed();
    AbcStarCompiled();
    AbcStarSearched();
    Pipeline("(abc)*", AbcStar, AbcStarProg, "abcabc");
  }

  // `(ab|cd)+`

  const AbOrCdPlus := P.Seq([P.Plus(P.Or(P.Seq([P.Char('a'), P.Char('b')]), P.Seq([P.Char('c'), P.Char('d')])))])
  const AbOrCdPlusProg := [Split(1, 4), Char('a'), Char('b'), Jump(6), Char('c'), Char('d'), Split(0, 7), Match]

  lemma AbOrCdPlusParsed()
    ensures P.Parsed("(ab|cd)+") == Ok(AbOrCdPlus)
  {
    assert ParserRender.RenderAlts(AbOrCdPlus) == "(ab|cd)+";
    ParsedAs("(ab|cd)+", AbOrCdPlus);
  }

  lemma AbOrCdCode()
    ensures CG.Code(P.Or(P.Seq([P.Char('a'), P.Char('b')]), P.Seq([P.Char('c'), P.Char('d')])), 0) ==
      [Split(1, 4), Char('a'), Char('b'), Jump(6), Char('c'), Char('d')]
  {
    var l := P.Seq([P.Char('a'), P.Char('b')]);
    var r := P.Seq([P.Char('c'), P.Char('d')]);
    PairLayout('a', 'b', 1);
    PairLayout('c', 'd', 4);
    OrLayout(l, r, 0, [Char('a'), Char('b')], [Char('c'), Char('d')]);
  }

  lemma AbOrCdPlusCode()
    ensures CG.Code(AbOrCdPlus, 0) == [Split(1, 4), Char('a'), Char('b'), Jump(6), Char('c'), Char('d'), Split(0, 7)]
  {
    var or := P.Or(P.Seq([P.Char('a'), P.Char('b')]), P.Seq([P.Char('c'), P.Char('d')]));
    AbOrCdCode();
    PlusLayout(or, 0, [Split(1, 4), Char('a'), Char('b'), Jump(6), Char('c'), Char('d')]);
    SingleLayout(P.Plus(or), 0, [Split(1, 4), Char('a'), Char('b'), Jump(6), Char('c'), Char('d'), Split(0, 7)]);
  }


  lemma AbOrCdPlusCompiled()
    ensures CG.Compiled(AbOrCdPlus) == Ok(AbOrCdPlusProg)
  {
    AbOrCdPlusCode();
    CompiledAs(AbOrCdPlus, [Split(1, 4), Char('a'), Char('b'), Jump(6), Char('c'), Char('d'), Split(0, 7)], AbOrCdPlusProg);
  }

  lemma AbOrCdPlusSearched()
    ensures Search(AbOrCdPlusProg, "abcdcd", 0, true, 30) == Ok((true, Some("abcdcd")))
    ensures Search(AbOrCdPlusProg, "efa", 0, true, 30) == Ok((false, None))
  {
    assert "abcdcd"[0..] == "abcdcd";
    assert E.Run(AbOrCdPlusProg, "abcdcd", 1, 2, false, 24) == E.Finished(Ok(false));
    assert E.Run(AbOrCdPlusProg, "abcdcd", 1, 4, false, 20) == E.Finished(Ok(false));
    assert E.Run(AbOrCdPlusProg, "abcdcd", 1, 6, false, 16) == E.Finished(Ok(false));
    assert E.Run(AbOrCdPlusProg, "abcdcd", 4, 6, false, 16) == E.Finished(Ok(false));
    assert E.Run(AbOrCdPlusProg, "abcdcd", 0, 6, false, 17) == E.Finished(Ok(false));
    assert E.Run(AbOrCdPlusProg, "abcdcd", 7, 6, false, 17) == E.Finished(Ok(true));
    assert E.Run(AbOrCdPlusProg, "abcdcd", 6, 6, false, 18) == E.Finished(Ok(true));
    assert E.Run(AbOrCdPlusProg, "abcdcd", 5, 5, false, 19) == E.Finished(Ok(true));
    assert E.Run(AbOrCdPlusProg, "abcdcd", 4, 4, false, 20) == E.Finished(Ok(true));
    assert E.Run(AbOrCdPlusProg, "abcdcd", 0, 4, false, 21) == E.Finished(Ok(true));
    assert E.Run(AbOrCdPlusProg, "abcdcd", 6, 4, false, 22) == E.Finished(Ok(true));
    assert E.Run(AbOrCdPlusProg, "abcdcd", 5, 3, false, 23) == E.Finished(Ok(true));
    assert E.Run(AbOrCdPlusProg, "abcdcd", 4, 2, false, 24) == E.Finished(Ok(true));
    assert E.Run(AbOrCdPlusProg, "abcdcd", 0, 2, false, 25) == E.Finished(Ok(true));
    assert E.Run(AbOrCdPlusProg, "abcdcd", 6, 2, false, 26) == E.Finished(Ok(true));
    assert E.Run(AbOrCdPlusProg, "abcdcd", 3, 2, false, 27) == E.Finished(Ok(true));
    assert E.Run(AbOrCdPlusProg, "abcdcd", 2, 1, false, 28) == E.Finished(Ok(true));
    assert E.Run(AbOrCdPlusProg, "abcdcd", 1, 0, false, 29) == E.Finished(Ok(true));
    assert E.Run(AbOrCdPlusProg, "abcdcd", 0, 0, false, 30) == E.Finished(Ok(true));
    assert "efa"[2..] == "a";
    assert E.Run(AbOrCdPlusProg, "a", 2, 1, false, 28) == E.Finished(Ok(false));
    assert E.Run(AbOrCdPlusProg, "a", 1, 0, false, 29) == E.Finished(Ok(false));
    assert E.Run(AbOrCdPlusProg, "a", 4, 0, false, 29) == E.Finished(Ok(false));
    assert E.Run(AbOrCdPlusProg, "a", 0, 0, false, 30) == E.Finished(Ok(false));
    assert Search(AbOrCdPlusProg, "efa", 2, true, 30) == Ok((false, None));
    assert "efa"[1..] == "fa";
    assert E.Run(AbOrCdPlusProg, "fa", 1, 0, false, 29) == E.Finished(Ok(false));
    assert E.Run(AbOrCdPlusProg, "fa", 4, 0, false, 29) == E.Finished(Ok(false));
    assert E.Run(AbOrCdPlusProg, "fa", 0, 0, false, 30) == E.Finished(Ok(false));
    assert Search(AbOrCdPlusProg, "efa", 1, true, 30) == Ok((false, None));
    assert "efa"[0..] == "efa";
    assert E.Run(AbOrCdPlusProg, "efa", 1, 0, false, 29) == E.Finished(Ok(false));
    assert E.Run(AbOrCdPlusProg, "efa", 4, 0, false, 29) == E.Finished(Ok(false));
    assert E.Run(AbOrCdPlusProg, "efa", 0, 0, false, 30) == E.Finished(Ok(false));
  }

  /** main.rs:82 and main.rs:87. */
  lemma AbOrCdPlusMatches()
    ensures Matching("(ab|cd)+", "abcdcd", true, F) == Ok((true, Some("abcdcd")))
    ensures Matching("(ab|cd)+", "efa", true, F) == Ok((false, None))
  {
    AbOrCdPlusParsed();
    AbOrCdPlusCompiled();
    AbOrCdPlusSearched();
    Pipeline("(ab|cd)+", AbOrCdPlus, AbOrCdPlusProg, "abcdcd");
    Pipeline("(ab|cd)+", AbOrCdPlus, AbOrCdPlusProg, "efa");
  }

  // `abc?`

  const AbcQuestion := P.Seq([P.Char('a'), P.Char('b'), P.Question(P.Char('c'))])
  const AbcQuestionProg := [Char('a'), Char('b'), Split(3, 4), Char('c'), Match]

  lemma AbcQuestionParsed()
    ensures P.Parsed("abc?") == Ok(AbcQuestion)
  {
    assert ParserRender.RenderAlts(AbcQuestion) == "abc?";
    ParsedAs("abc?", AbcQuestion);
  }

  lemma AbcQuestionCode()
    ensures CG.Code(AbcQuestion, 0) == [Char('a'), Char('b'), Split(3, 4), Char('c')]
  {
    var question := AbcQuestion.items[2];
    assert CG.Code(question, 2) == CG.QuestionCode(question.e, 2) == [Split(3, 4), Char('c')];
    assert CG.Code(AbcQuestion, 0) == CG.CodeSeq(AbcQuestion.items, 3, 0) == [Char('a'), Char('b'), Split(3, 4), Char('c')];
  }

  lemma AbcQuestionCompiled()
    ensures CG.Compiled(AbcQuestion) == Ok(AbcQuestionProg)
  {
    AbcQuestionCode();
    CompiledAs(AbcQuestion, [Char('a'), Char('b'), Split(3, 4), Char('c')], AbcQuestionProg);
  }

  lemma AbcQuestionSearched()
    ensures Search(AbcQuestionProg, "abd", 0, true, 30) == Ok((true, Some("abd")))
    ensures Search(AbcQuestionProg, "acb", 0, true, 30) == Ok((false, None))
  {
    assert "abd"[0..] == "abd";
    assert E.Run(AbcQuestionProg, "abd", 3, 2, false, 27) == E.Finished(Ok(false));
    assert E.Run(AbcQuestionProg, "abd", 4, 2, false, 27) == E.Finished(Ok(true));
    assert E.Run(AbcQuestionProg, "abd", 2, 2, false, 28) == E.Finished(Ok(true));
    assert E.Run(AbcQuestionProg, "abd", 1, 1, false, 29) == E.Finished(Ok(true));
    assert E.Run(AbcQuestionProg, "abd", 0, 0, false, 30) == E.Finished(Ok(true));
    assert "acb"[2..] == "b";
    assert E.Run(AbcQuestionProg, "b", 0, 0, false, 30) == E.Finished(Ok(false));
    assert Search(AbcQuestionProg, "acb", 2, true, 30) == Ok((false, None));
    assert "acb"[1..] == "cb";
    assert E.Run(AbcQuestionProg, "cb", 0, 0, false, 30) == E.Finished(Ok(false));
    assert Search(AbcQuestionProg, "acb", 1, true, 30) == Ok((false, None));
    assert "acb"[0..] == "acb";
    assert E.Run(AbcQuestionProg, "acb", 1, 1, false, 29) == E.Finished(Ok(false));
    assert E.Run(AbcQuestionProg, "acb", 0, 0, false, 30) == E.Finished(Ok(false));
  }

  /** main.rs:83 and main.rs:88. */
  lemma AbcQuestionMatches()
    ensures Matching("abc?", "abd", true, F) == Ok((true, Some("abd")))
    ensures Matching("abc?", "acb", true, F) == Ok((false, None))
  {
    AbcQuestionParsed();
    AbcQuestionCompiled();
    AbcQuestionSearched();
    Pipeline("abc?", AbcQuestion, AbcQuestionProg, "abd");
    Pipeline("abc?", AbcQuestion, AbcQuestionProg, "acb");
  }

  /**
   * Why the search evaluates with `backward_match = false`: with it set, the
   * program of `abc?` run from the start of `abd` rejects, because its `Match`
   * is reached with `d` still unread; unset, it accepts, as main.rs:83 expects.
   */
  lemma BackwardMatchRejects()
    ensures E.Run(AbcQuestionProg, "abd", 0, 0, true, 30) == E.Finished(Ok(false))
    ensures E.Run(AbcQuestionProg, "abd", 0, 0, false, 30) == E.Finished(Ok(true))
  {
    assert E.Run(AbcQuestionProg, "abd", 4, 2, true, 27) == E.Finished(Ok(false));
    assert E.Run(AbcQuestionProg, "abd", 3, 2, true, 27) == E.Finished(Ok(false));
    assert E.Run(AbcQuestionProg, "abd", 2, 2, true, 28) == E.Finished(Ok(false));
    assert E.Run(AbcQuestionProg, "abd", 1, 1, true, 29) == E.Finished(Ok(false));
    assert E.Run(AbcQuestionProg, "abd", 4, 2, false, 27) == E.Finished(Ok(true));
    assert E.Run(AbcQuestionProg, "abd", 3, 2, false, 27) == E.Finished(Ok(false));
    assert E.Run(AbcQuestionProg, "abd", 2, 2, false, 28) == E.Finished(Ok(true));
    assert E.Run(AbcQuestionProg, "abd", 1, 1, false, 29) == E.Finished(Ok(true));
  }

  // `(ワク)*`: characters, not bytes

  const WakuStar := P.Seq([P.Star(P.Seq([P.Char('ワ'), P.Char('ク')]))])
  const WakuStarProg := [Split(1, 4), Char('ワ'), Char('ク'), Jump(0), Match]

  lemma WakuStarParsed()
    ensures P.Parsed("(ワク)*") == Ok(WakuStar)
  {
    assert ParserRender.RenderAlts(WakuStar) == "(ワク)*";
    ParsedAs("(ワク)*", WakuStar);
  }

  lemma WakuStarCode()
    ensures CG.Code(WakuStar, 0) == [Split(1, 4), Char('ワ'), Char('ク'), Jump(0)]
  {
    var star := WakuStar.items[0];
    var body := star.e;
    assert CG.Code(body, 1) == CG.CodeSeq(body.items, 2, 1) == [Char('ワ'), Char('ク')];
    assert CG.Code(star, 0) == CG.StarCode(body, 0) == [Split(1, 4), Char('ワ'), Char('ク'), Jump(0)];
    assert CG.Code(WakuStar, 0) == CG.CodeSeq(WakuStar.items, 1, 0) == [Split(1, 4), Char('ワ'), Char('ク'), Jump(0)];
  }

  lemma WakuStarCompiled()
    ensures CG.Compiled(WakuStar) == Ok(WakuStarProg)
  {
    WakuStarCode();
    CompiledAs(WakuStar, [Split(1, 4), Char('ワ'), Char('ク'), Jump(0)], WakuStarProg);
  }

  lemma WakuStarSearched()
    ensures Search(WakuStarProg, "ワクワク", 0, true, 30) == Ok((true, Some("ワクワク")))
  {
    assert "ワクワク"[0..] == "ワクワク";
    assert E.Run(WakuStarProg, "ワクワク", 1, 4, false, 21) == E.Finished(Ok(false));
    assert E.Run(WakuStarProg, "ワクワク", 4, 4, false, 21) == E.Finished(Ok(true));
    assert E.Run(WakuStarProg, "ワクワク", 0, 4, false, 22) == E.Finished(Ok(true));
    assert E.Run(WakuStarProg, "ワクワク", 3, 4, false, 23) == E.Finished(Ok(true));
    assert E.Run(WakuStarProg, "ワクワク", 2, 3, false, 24) == E.Finished(Ok(true));
    assert E.Run(WakuStarProg, "ワクワク", 1, 2, false, 25) == E.Finished(Ok(true));
    assert E.Run(WakuStarProg, "ワクワク", 0, 2, false, 26) == E.Finished(Ok(true));
    assert E.Run(WakuStarProg, "ワクワク", 3, 2, false, 27) == E.Finished(Ok(true));
    assert E.Run(WakuStarProg, "ワクワク", 2, 1, false, 28) == E.Finished(Ok(true));
    assert E.Run(WakuStarProg, "ワクワク", 1, 0, false, 29) == E.Finished(Ok(true));
    assert E.Run(WakuStarProg, "ワクワク", 0, 0, false, 30) == E.Finished(Ok(true));
  }

  /** main.rs:94. */
  lemma WakuStarMatches()
    ensures Matching("(ワク)*", "ワクワク", true, F) == Ok((true, Some("ワクワク")))
  {
    WakuStarParsed();
    WakuStarCompiled();
    WakuStarSearched();
    Pipeline("(ワク)*", WakuStar, WakuStarProg, "ワクワク");
  }

  // `\.あいう`: an escaped `.` is a literal

  const EscapedDot := P.Seq([P.Char('.'), P.Char('あ'), P.Char('い'), P.Char('う')])
  const EscapedDotProg := [Char('.'), Char('あ'), Char('い'), Char('う'), Match]

  lemma EscapedDotParsed()
    ensures P.Parsed("\\.あいう") == Ok(EscapedDot)
  {
    assert ParserRender.RenderAlts(EscapedDot) == "\\.あいう";
    ParsedAs("\\.あいう", EscapedDot);
  }

  lemma EscapedDotCode()
    ensures CG.Code(EscapedDot, 0) == [Char('.'), Char('あ'), Char('い'), Char('う')]
  {
    assert CG.Code(EscapedDot, 0) == CG.CodeSeq(EscapedDot.items, 4, 0) == [Char('.'), Char('あ'), Char('い'), Char('う')];
  }

  lemma EscapedDotCompiled()
    ensures CG.Compiled(EscapedDot) == Ok(EscapedDotProg)
  {
    EscapedDotCode();
    CompiledAs(EscapedDot, [Char('.'), Char('あ'), Char('い'), Char('う')], EscapedDotProg);
  }

  lemma EscapedDotSearched()
    ensures Search(EscapedDotProg, ".あいうえお", 0, true, 30) == Ok((true, Some(".あいうえお")))
  {
    assert ".あいうえお"[0..] == ".あいうえお";
    assert E.Run(EscapedDotProg, ".あいうえお", 4, 4, false, 26) == E.Finished(Ok(true));
    assert E.Run(EscapedDotProg, ".あいうえお", 3, 3, false, 27) == E.Finished(Ok(true));
    assert E.Run(EscapedDotProg, ".あいうえお", 2, 2, false, 28) == E.Finished(Ok(true));
    assert E.Run(EscapedDotProg, ".あいうえお", 1, 1, false, 29) == E.Finished(Ok(true));
    assert E.Run(EscapedDotProg, ".あいうえお", 0, 0, false, 30) == E.Finished(Ok(true));
  }

  /** main.rs:103. */
  lemma EscapedDotMatches()
    ensures Matching("\\.あいう", ".あいうえお", true, F) == Ok((true, Some(".あいうえお")))
  {
    EscapedDotParsed();
    EscapedDotCompiled();
    EscapedDotSearched();
    Pipeline("\\.あいう", EscapedDot, EscapedDotProg, ".あいうえお");
  }

  // `あ.か` and `い.え`: `.` is any one character

  const ADotKa := P.Seq([P.Char('あ'), P.Dot, P.Char('か')])
  const ADotKaProg := [Char('あ'), Dot, Char('か'), Match]
  const IDotE := P.Seq([P.Char('い'), P.Dot, P.Char('え')])
  const IDotEProg := [Char('い'), Dot, Char('え'), Match]

  lemma ADotKaParsed()
    ensures P.Parsed("あ.か") == Ok(ADotKa)
  {
    assert ParserRender.RenderAlts(ADotKa) == "あ.か";
    ParsedAs("あ.か", ADotKa);
  }

  lemma IDotEParsed()
    ensures P.Parsed("い.え") == Ok(IDotE)
  {
    assert ParserRender.RenderAlts(IDotE) == "い.え";
    ParsedAs("い.え", IDotE);
  }

  lemma DotCompiled()
    ensures CG.Compiled(ADotKa) == Ok(ADotKaProg)
    ensures CG.Compiled(IDotE) == Ok(IDotEProg)
  {
    assert CG.Code(ADotKa, 0) == CG.CodeSeq(ADotKa.items, 3, 0) == [Char('あ'), Dot, Char('か')];
    CompiledAs(ADotKa, [Char('あ'), Dot, Char('か')], ADotKaProg);
    assert CG.Code(IDotE, 0) == CG.CodeSeq(IDotE.items, 3, 0) == [Char('い'), Dot, Char('え')];
    CompiledAs(IDotE, [Char('い'), Dot, Char('え')], IDotEProg);
  }

  lemma DotSearched()
    ensures Search(ADotKaProg, "あいかえお", 0, true, 30) == Ok((true, Some("あいかえお")))
    ensures Search(IDotEProg, "あいえお", 0, true, 30) == Ok((false, None))
  {
    assert "あいかえお"[0..] == "あいかえお";
    assert E.Run(ADotKaProg, "あいかえお", 3, 3, false, 27) == E.Finished(Ok(true));
    assert E.Run(ADotKaProg, "あいかえお", 2, 2, false, 28) == E.Finished(Ok(true));
    assert E.Run(ADotKaProg, "あいかえお", 1, 1, false, 29) == E.Finished(Ok(true));
    assert E.Run(ADotKaProg, "あいかえお", 0, 0, false, 30) == E.Finished(Ok(true));
    assert "あいえお"[3..] == "お";
    assert E.Run(IDotEProg, "お", 0, 0, false, 30) == E.Finished(Ok(false));
    assert Search(IDotEProg, "あいえお", 3, true, 30) == Ok((false, None));
    assert "あいえお"[2..] == "えお";
    assert E.Run(IDotEProg, "えお", 0, 0, false, 30) == E.Finished(Ok(false));
    assert Search(IDotEProg, "あいえお", 2, true, 30) == Ok((false, None));
    assert "あいえお"[1..] == "いえお";
    assert E.Run(IDotEProg, "いえお", 2, 2, false, 28) == E.Finished(Ok(false));
    assert E.Run(IDotEProg, "いえお", 1, 1, false, 29) == E.Finished(Ok(false));
    assert E.Run(IDotEProg, "いえお", 0, 0, false, 30) == E.Finished(Ok(false));
    assert Search(IDotEProg, "あいえお", 1, true, 30) == Ok((false, None));
    assert "あいえお"[0..] == "あいえお";
    assert E.Run(IDotEProg, "あいえお", 0, 0, false, 30) == E.Finished(Ok(false));
  }

  /** main.rs:111 and main.rs:115. */
  lemma DotMatches()
    ensures Matching("あ.か", "あいかえお", true, F) == Ok((true, Some("あいかえお")))
    ensures Matching("い.え", "あいえお", true, F) == Ok((false, None))
  {
    ADotKaParsed();
    IDotEParsed();
    DotCompiled();
    DotSearched();
    Pipeline("あ.か", ADotKa, ADotKaProg, "あいかえお");
    Pipeline("い.え", IDotE, IDotEProg, "あいえお");
  }

  // The multi-byte tests

  const AiuOrEo := P.Or(P.Seq([P.Char('あ'), P.Char('い'), P.Char('う')]), P.Seq([P.Char('え'), P.Char('お')]))
  const AiuOrEoProg := [Split(1, 5), Char('あ'), Char('い'), Char('う'), Jump(7), Char('え'), Char('お'), Match]

  lemma AiuOrEoParsed()
    ensures P.Parsed("あいう|えお") == Ok(AiuOrEo)
  {
    assert ParserRender.RenderAlts(AiuOrEo) == "あいう|えお";
    ParsedAs("あいう|えお", AiuOrEo);
  }

  lemma AiuOrEoCode()
    ensures CG.Code(AiuOrEo, 0) == [Split(1, 5), Char('あ'), Char('い'), Char('う'), Jump(7), Char('え'), Char('お')]
  {
    var l, r := P.Seq([P.Char('あ'), P.Char('い'), P.Char('う')]), P.Seq([P.Char('え'), P.Char('お')]);
    TripleLayout('あ', 'い', 'う', 1);
    PairLayout('え', 'お', 5);
    OrLayout(l, r, 0, [Char('あ'), Char('い'), Char('う')], [Char('え'), Char('お')]);
  }

  lemma AiuOrEoCompiled()
    ensures CG.Compiled(AiuOrEo) == Ok(AiuOrEoProg)
  {
    AiuOrEoCode();
    CompiledAs(AiuOrEo, [Split(1, 5), Char('あ'), Char('い'), Char('う'), Jump(7), Char('え'), Char('お')], AiuOrEoProg);
  }

  lemma AiuOrEoSearched()
    ensures Search(AiuOrEoProg, "あいう", 0, true, 30) == Ok((true, Some("あいう")))
  {
    assert "あいう"[0..] == "あいう";
    assert E.Run(AiuOrEoProg, "あいう", 7, 3, false, 25) == E.Finished(Ok(true));
    assert E.Run(AiuOrEoProg, "あいう", 4, 3, false, 26) == E.Finished(Ok(true));
    assert E.Run(AiuOrEoProg, "あいう", 3, 2, false, 27) == E.Finished(Ok(true));
    assert E.Run(AiuOrEoProg, "あいう", 2, 1, false, 28) == E.Finished(Ok(true));
    assert E.Run(AiuOrEoProg, "あいう", 1, 0, false, 29) == E.Finished(Ok(true));
    assert E.Run(AiuOrEoProg, "あいう", 0, 0, false, 30) == E.Finished(Ok(true));
  }

  /** main.rs:93. */
  lemma AiuOrEoMatches()
    ensures Matching("あいう|えお", "あいう", true, F) == Ok((true, Some("あいう")))
  {
    AiuOrEoParsed();
    AiuOrEoCompiled();
    AiuOrEoSearched();
    Pipeline("あいう|えお", AiuOrEo, AiuOrEoProg, "あいう");
  }

  const HogeOrFuga := P.Or(P.Seq([P.Char('ほ'), P.Char('げ')]), P.Seq([P.Char('ふ'), P.Char('が')]))
  const HogeOrFugaProg := [Split(1, 4), Char('ほ'), Char('げ'), Jump(6), Char('ふ'), Char('が'), Match]

  lemma HogeOrFugaParsed()
    ensures P.Parsed("ほげ|ふが") == Ok(HogeOrFuga)
  {
    assert ParserRender.RenderAlts(HogeOrFuga) == "ほげ|ふが";
    ParsedAs("ほげ|ふが", HogeOrFuga);
  }

  lemma HogeOrFugaCode()
    ensures CG.Code(HogeOrFuga, 0) == [Split(1, 4), Char('ほ'), Char('げ'), Jump(6), Char('ふ'), Char('が')]
  {
    var l, r := P.Seq([P.Char('ほ'), P.Char('げ')]), P.Seq([P.Char('ふ'), P.Char('が')]);
    PairLayout('ほ', 'げ', 1);
    PairLayout('ふ', 'が', 4);
    OrLayout(l, r, 0, [Char('ほ'), Char('げ')], [Char('ふ'), Char('が')]);
  }

  lemma HogeOrFugaCompiled()
    ensures CG.Compiled(HogeOrFuga) == Ok(HogeOrFugaProg)
  {
    HogeOrFugaCode();
    CompiledAs(HogeOrFuga, [Split(1, 4), Char('ほ'), Char('げ'), Jump(6), Char('ふ'), Char('が')], HogeOrFugaProg);
  }

  lemma HogeOrFugaSearched()
    ensures Search(HogeOrFugaProg, "失敗", 0, true, 30) == Ok((false, None))
  {
    assert "失敗"[1..] == "敗";
    assert E.Run(HogeOrFugaProg, "敗", 1, 0, false, 29) == E.Finished(Ok(false));
    assert E.Run(HogeOrFugaProg, "敗", 4, 0, false, 29) == E.Finished(Ok(false));
    assert E.Run(HogeOrFugaProg, "敗", 0, 0, false, 30) == E.Finished(Ok(false));
    assert Search(HogeOrFugaProg, "失敗", 1, true, 30) == Ok((false, None));
    assert "失敗"[0..] == "失敗";
    assert E.Run(HogeOrFugaProg, "失敗", 1, 0, false, 29) == E.Finished(Ok(false));
    assert E.Run(HogeOrFugaProg, "失敗", 4, 0, false, 29) == E.Finished(Ok(false));
    assert E.Run(HogeOrFugaProg, "失敗", 0, 0, false, 30) == E.Finished(Ok(false));
  }

  /** main.rs:97. */
  lemma HogeOrFugaMatches()
    ensures Matching("ほげ|ふが", "失敗", true, F) == Ok((false, None))
  {
    HogeOrFugaParsed();
    HogeOrFugaCompiled();
    HogeOrFugaSearched();
    Pipeline("ほげ|ふが", HogeOrFuga, HogeOrFugaProg, "失敗");
  }

  const FuBaPlus := P.Seq([P.Plus(P.Or(P.Seq([P.Char('ふ'), P.Char('ー')]), P.Seq([P.Char('ば'), P.Char('ー')])))])
  const FuBaPlusProg := [Split(1, 4), Char('ふ'), Char('ー'), Jump(6), Char('ば'), Char('ー'), Split(0, 7), Match]

  lemma FuBaPlusParsed()
    ensures P.Parsed("(ふー|ばー)+") == Ok(FuBaPlus)
  {
    assert ParserRender.RenderAlts(FuBaPlus) == "(ふー|ばー)+";
    ParsedAs("(ふー|ばー)+", FuBaPlus);
  }

  lemma FuBaCode()
    ensures CG.Code(P.Or(P.Seq([P.Char('ふ'), P.Char('ー')]), P.Seq([P.Char('ば'), P.Char('ー')])), 0) ==
      [Split(1, 4), Char('ふ'), Char('ー'), Jump(6), Char('ば'), Char('ー')]
  {
    var l := P.Seq([P.Char('ふ'), P.Char('ー')]);
    var r := P.Seq([P.Char('ば'), P.Char('ー')]);
    PairLayout('ふ', 'ー', 1);
    PairLayout('ば', 'ー', 4);
    OrLayout(l, r, 0, [Char('ふ'), Char('ー')], [Char('ば'), Char('ー')]);
  }

  lemma FuBaPlusCode()
    ensures CG.Code(FuBaPlus, 0) == [Split(1, 4), Char('ふ'), Char('ー'), Jump(6), Char('ば'), Char('ー'), Split(0, 7)]
  {
    var or := P.Or(P.Seq([P.Char('ふ'), P.Char('ー')]), P.Seq([P.Char('ば'), P.Char('ー')]));
    FuBaCode();
    PlusLayout(or, 0, [Split(1, 4), Char('ふ'), Char('ー'), Jump(6), Char('ば'), Char('ー')]);
    SingleLayout(P.Plus(or), 0, [Split(1, 4), Char('ふ'), Char('ー'), Jump(6), Char('ば'), Char('ー'), Split(0, 7)]);
  }


  lemma FuBaPlusCompiled()
    ensures CG.Compiled(FuBaPlus) == Ok(FuBaPlusProg)
  {
    FuBaPlusCode();
    CompiledAs(FuBaPlus, [Split(1, 4), Char('ふ'), Char('ー'), Jump(6), Char('ば'), Char('ー'), Split(0, 7)], FuBaPlusProg);
  }

  lemma FuBaPlusSearched()
    ensures Search(FuBaPlusProg, "ばば", 0, true, 30) == Ok((false, None))
  {
    assert "ばば"[1..] == "ば";
    assert E.Run(FuBaPlusProg, "ば", 1, 0, false, 29) == E.Finished(Ok(false));
    assert E.Run(FuBaPlusProg, "ば", 5, 1, false, 28) == E.Finished(Ok(false));
    assert E.Run(FuBaPlusProg, "ば", 4, 0, false, 29) == E.Finished(Ok(false));
    assert E.Run(FuBaPlusProg, "ば", 0, 0, false, 30) == E.Finished(Ok(false));
    assert Search(FuBaPlusProg, "ばば", 1, true, 30) == Ok((false, None));
    assert "ばば"[0..] == "ばば";
    assert E.Run(FuBaPlusProg, "ばば", 1, 0, false, 29) == E.Finished(Ok(false));
    assert E.Run(FuBaPlusProg, "ばば", 5, 1, false, 28) == E.Finished(Ok(false));
    assert E.Run(FuBaPlusProg, "ばば", 4, 0, false, 29) == E.Finished(Ok(false));
    assert E.Run(FuBaPlusProg, "ばば", 0, 0, false, 30) == E.Finished(Ok(false));
  }

  /** main.rs:98. */
  lemma FuBaPlusMatches()
    ensures Matching("(ふー|ばー)+", "ばば", true, F) == Ok((false, None))
  {
    FuBaPlusParsed();
    FuBaPlusCompiled();
    FuBaPlusSearched();
    Pipeline("(ふー|ばー)+", FuBaPlus, FuBaPlusProg, "ばば");
  }

  // The other escaped operators

  const EscapedQuestion := P.Seq([P.Char('?'), P.Char('あ'), P.Char('い'), P.Char('う')])
  const EscapedQuestionProg := [Char('?'), Char('あ'), Char('い'), Char('う'), Match]

  lemma EscapedQuestionParsed()
    ensures P.Parsed("\\?あいう") == Ok(EscapedQuestion)
  {
    assert ParserRender.RenderAlts(EscapedQuestion) == "\\?あいう";
    ParsedAs("\\?あいう", EscapedQuestion);
  }

  lemma EscapedQuestionCode()
    ensures CG.Code(EscapedQuestion, 0) == [Char('?'), Char('あ'), Char('い'), Char('う')]
  {
    assert CG.Code(EscapedQuestion, 0) == CG.CodeSeq(EscapedQuestion.items, 4, 0) == [Char('?'), Char('あ'), Char('い'), Char('う')];
  }

  lemma EscapedQuestionCompiled()
    ensures CG.Compiled(EscapedQuestion) == Ok(EscapedQuestionProg)
  {
    EscapedQuestionCode();
    CompiledAs(EscapedQuestion, [Char('?'), Char('あ'), Char('い'), Char('う')], EscapedQuestionProg);
  }

  lemma EscapedQuestionSearched()
    ensures Search(EscapedQuestionProg, "?あいうえお", 0, true, 30) == Ok((true, Some("?あいうえお")))
  {
    assert "?あいうえお"[0..] == "?あいうえお";
    assert E.Run(EscapedQuestionProg, "?あいうえお", 4, 4, false, 26) == E.Finished(Ok(true));
    assert E.Run(EscapedQuestionProg, "?あいうえお", 3, 3, false, 27) == E.Finished(Ok(true));
    assert E.Run(EscapedQuestionProg, "?あいうえお", 2, 2, false, 28) == E.Finished(Ok(true));
    assert E.Run(EscapedQuestionProg, "?あいうえお", 1, 1, false, 29) == E.Finished(Ok(true));
    assert E.Run(EscapedQuestionProg, "?あいうえお", 0, 0, false, 30) == E.Finished(Ok(true));
  }

  /** main.rs:104. */
  lemma EscapedQuestionMatches()
    ensures Matching("\\?あいう", "?あいうえお", true, F) == Ok((true, Some("?あいうえお")))
  {
    EscapedQuestionParsed();
    EscapedQuestionCompiled();
    EscapedQuestionSearched();
    Pipeline("\\?あいう", EscapedQuestion, EscapedQuestionProg, "?あいうえお");
  }

  const EscapedPlus := P.Seq([P.Char('+'), P.Char('あ'), P.Char('い'), P.Char('う')])
  const EscapedPlusProg := [Char('+'), Char('あ'), Char('い'), Char('う'), Match]

  lemma EscapedPlusParsed()
    ensures P.Parsed("\\+あいう") == Ok(EscapedPlus)
  {
    assert ParserRender.RenderAlts(EscapedPlus) == "\\+あいう";
    ParsedAs("\\+あいう", EscapedPlus);
  }

  lemma EscapedPlusCode()
    ensures CG.Code(EscapedPlus, 0) == [Char('+'), Char('あ'), Char('い'), Char('う')]
  {
    assert CG.Code(EscapedPlus, 0) == CG.CodeSeq(EscapedPlus.items, 4, 0) == [Char('+'), Char('あ'), Char('い'), Char('う')];
  }

  lemma EscapedPlusCompiled()
    ensures CG.Compiled(EscapedPlus) == Ok(EscapedPlusProg)
  {
    EscapedPlusCode();
    CompiledAs(EscapedPlus, [Char('+'), Char('あ'), Char('い'), Char('う')], EscapedPlusProg);
  }

  lemma EscapedPlusSearched()
    ensures Search(EscapedPlusProg, "+あいうえお", 0, true, 30) == Ok((true, Some("+あいうえお")))
  {
    assert "+あいうえお"[0..] == "+あいうえお";
    assert E.Run(EscapedPlusProg, "+あいうえお", 4, 4, false, 26) == E.Finished(Ok(true));
    assert E.Run(EscapedPlusProg, "+あいうえお", 3, 3, false, 27) == E.Finished(Ok(true));
    assert E.Run(EscapedPlusProg, "+あいうえお", 2, 2, false, 28) == E.Finished(Ok(true));
    assert E.Run(EscapedPlusProg, "+あいうえお", 1, 1, false, 29) == E.Finished(Ok(true));
    assert E.Run(EscapedPlusProg, "+あいうえお", 0, 0, false, 30) == E.Finished(Ok(true));
  }

  /** main.rs:105. */
  lemma EscapedPlusMatches()
    ensures Matching("\\+あいう", "+あいうえお", true, F) == Ok((true, Some("+あいうえお")))
  {
    EscapedPlusParsed();
    EscapedPlusCompiled();
    EscapedPlusSearched();
    Pipeline("\\+あいう", EscapedPlus, EscapedPlusProg, "+あいうえお");
  }

  const EscapedStar := P.Seq([P.Char('*'), P.Char('あ'), P.Char('い'), P.Char('う')])
  const EscapedStarProg := [Char('*'), Char('あ'), Char('い'), Char('う'), Match]

  lemma EscapedStarParsed()
    ensures P.Parsed("\\*あいう") == Ok(EscapedStar)
  {
    assert ParserRender.RenderAlts(EscapedStar) == "\\*あいう";
    ParsedAs("\\*あいう", EscapedStar);
  }

  lemma EscapedStarCode()
    ensures CG.Code(EscapedStar, 0) == [Char('*'), Char('あ'), Char('い'), Char('う')]
  {
    assert CG.Code(EscapedStar, 0) == CG.CodeSeq(EscapedStar.items, 4, 0) == [Char('*'), Char('あ'), Char('い'), Char('う')];
  }

  lemma EscapedStarCompiled()
    ensures CG.Compiled(EscapedStar) == Ok(EscapedStarProg)
  {
    EscapedStarCode();
    CompiledAs(EscapedStar, [Char('*'), Char('あ'), Char('い'), Char('う')], EscapedStarProg);
  }

  lemma EscapedStarSearched()
    ensures Search(EscapedStarProg, "*あいうえお", 0, true, 30) == Ok((true, Some("*あいうえお")))
  {
    assert "*あいうえお"[0..] == "*あいうえお";
    assert E.Run(EscapedStarProg, "*あいうえお", 4, 4, false, 26) == E.Finished(Ok(true));
    assert E.Run(EscapedStarProg, "*あいうえお", 3, 3, false, 27) == E.Finished(Ok(true));
    assert E.Run(EscapedStarProg, "*あいうえお", 2, 2, false, 28) == E.Finished(Ok(true));
    assert E.Run(EscapedStarProg, "*あいうえお", 1, 1, false, 29) == E.Finished(Ok(true));
    assert E.Run(EscapedStarProg, "*あいうえお", 0, 0, false, 30) == E.Finished(Ok(true));
  }

  /** main.rs:106. */
  lemma EscapedStarMatches()
    ensures Matching("\\*あいう", "*あいうえお", true, F) == Ok((true, Some("*あいうえお")))
  {
    EscapedStarParsed();
    EscapedStarCompiled();
    EscapedStarSearched();
    Pipeline("\\*あいう", EscapedStar, EscapedStarProg, "*あいうえお");
  }

  // The other `.` tests

  const KaDotDotKe := P.Seq([P.Char('か'), P.Dot, P.Dot, P.Char('け')])
  const KaDotDotKeProg := [Char('か'), Dot, Dot, Char('け'), Match]

  lemma KaDotDotKeParsed()
    ensures P.Parsed("か..け") == Ok(KaDotDotKe)
  {
    assert ParserRender.RenderAlts(KaDotDotKe) == "か..け";
    ParsedAs("か..け", KaDotDotKe);
  }

  lemma KaDotDotKeCode()
    ensures CG.Code(KaDotDotKe, 0) == [Char('か'), Dot, Dot, Char('け')]
  {
    assert CG.Code(KaDotDotKe, 0) == CG.CodeSeq(KaDotDotKe.items, 4, 0) == [Char('か'), Dot, Dot, Char('け')];
  }

  lemma KaDotDotKeCompiled()
    ensures CG.Compiled(KaDotDotKe) == Ok(KaDotDotKeProg)
  {
    KaDotDotKeCode();
    CompiledAs(KaDotDotKe, [Char('か'), Dot, Dot, Char('け')], KaDotDotKeProg);
  }

  lemma KaDotDotKeSearched()
    ensures Search(KaDotDotKeProg, "かきくけこ", 0, true, 30) == Ok((true, Some("かきくけこ")))
  {
    assert "かきくけこ"[0..] == "かきくけこ";
    assert E.Run(KaDotDotKeProg, "かきくけこ", 4, 4, false, 26) == E.Finished(Ok(true));
    assert E.Run(KaDotDotKeProg, "かきくけこ", 3, 3, false, 27) == E.Finished(Ok(true));
    assert E.Run(KaDotDotKeProg, "かきくけこ", 2, 2, false, 28) == E.Finished(Ok(true));
    assert E.Run(KaDotDotKeProg, "かきくけこ", 1, 1, false, 29) == E.Finished(Ok(true));
    assert E.Run(KaDotDotKeProg, "かきくけこ", 0, 0, false, 30) == E.Finished(Ok(true));
  }

  /** main.rs:112. */
  lemma KaDotDotKeMatches()
    ensures Matching("か..け", "かきくけこ", true, F) == Ok((true, Some("かきくけこ")))
  {
    KaDotDotKeParsed();
    KaDotDotKeCompiled();
    KaDotDotKeSearched();
    Pipeline("か..け", KaDotDotKe, KaDotDotKeProg, "かきくけこ");
  }

  const DotADot := P.Seq([P.Dot, P.Char('あ'), P.Dot])
  const DotADotProg := [Dot, Char('あ'), Dot, Match]

  lemma DotADotParsed()
    ensures P.Parsed(".あ.") == Ok(DotADot)
  {
    assert ParserRender.RenderAlts(DotADot) == ".あ.";
    ParsedAs(".あ.", DotADot);
  }

  lemma DotADotCode()
    ensures CG.Code(DotADot, 0) == [Dot, Char('あ'), Dot]
  {
    assert CG.Code(DotADot, 0) == CG.CodeSeq(DotADot.items, 3, 0) == [Dot, Char('あ'), Dot];
  }

  lemma DotADotCompiled()
    ensures CG.Compiled(DotADot) == Ok(DotADotProg)
  {
    DotADotCode();
    CompiledAs(DotADot, [Dot, Char('あ'), Dot], DotADotProg);
  }

  lemma DotADotSearched()
    ensures Search(DotADotProg, "かきくけこ", 0, true, 30) == Ok((false, None))
  {
    assert "かきくけこ"[4..] == "こ";
    assert E.Run(DotADotProg, "こ", 1, 1, false, 29) == E.Finished(Ok(false));
    assert E.Run(DotADotProg, "こ", 0, 0, false, 30) == E.Finished(Ok(false));
    assert Search(DotADotProg, "かきくけこ", 4, true, 30) == Ok((false, None));
    assert "かきくけこ"[3..] == "けこ";
    assert E.Run(DotADotProg, "けこ", 1, 1, false, 29) == E.Finished(Ok(false));
    assert E.Run(DotADotProg, "けこ", 0, 0, false, 30) == E.Finished(Ok(false));
    assert Search(DotADotProg, "かきくけこ", 3, true, 30) == Ok((false, None));
    assert "かきくけこ"[2..] == "くけこ";
    assert E.Run(DotADotProg, "くけこ", 1, 1, false, 29) == E.Finished(Ok(false));
    assert E.Run(DotADotProg, "くけこ", 0, 0, false, 30) == E.Finished(Ok(false));
    assert Search(DotADotProg, "かきくけこ", 2, true, 30) == Ok((false, None));
    assert "かきくけこ"[1..] == "きくけこ";
    assert E.Run(DotADotProg, "きくけこ", 1, 1, false, 29) == E.Finished(Ok(false));
    assert E.Run(DotADotProg, "きくけこ", 0, 0, false, 30) == E.Finished(Ok(false));
    assert Search(DotADotProg, "かきくけこ", 1, true, 30) == Ok((false, None));
    assert "かきくけこ"[0..] == "かきくけこ";
    assert E.Run(DotADotProg, "かきくけこ", 1, 1, false, 29) == E.Finished(Ok(false));
    assert E.Run(DotADotProg, "かきくけこ", 0, 0, false, 30) == E.Finished(Ok(false));
  }

  /** main.rs:116. */
  lemma DotADotMatches()
    ensures Matching(".あ.", "かきくけこ", true, F) == Ok((false, None))
  {
    DotADotParsed();
    DotADotCompiled();
    DotADotSearched();
    Pipeline(".あ.", DotADot, DotADotProg, "かきくけこ");
  }

  // `a*` on an empty line

  const AStar := P.Seq([P.Star(P.Char('a'))])
  const AStarProg := [Split(1, 3), Char('a'), Jump(0), Match]

  lemma AStarParsed()
    ensures P.Parsed("a*") == Ok(AStar)
  {
    assert ParserRender.RenderAlts(AStar) == "a*";
    ParsedAs("a*", AStar);
  }

  lemma AStarCode()
    ensures CG.Code(AStar, 0) == [Split(1, 3), Char('a'), Jump(0)]
  {
    var star := P.Star(P.Char('a'));
    assert CG.Code(star, 0) == CG.StarCode(star.e, 0) == [Split(1, 3), Char('a'), Jump(0)];
    assert CG.Code(AStar, 0) == CG.CodeSeq(AStar.items, 1, 0) == [Split(1, 3), Char('a'), Jump(0)];
  }

  lemma AStarCompiled()
    ensures CG.Compiled(AStar) == Ok(AStarProg)
  {
    AStarCode();
    CompiledAs(AStar, [Split(1, 3), Char('a'), Jump(0)], AStarProg);
  }

  /**
   * The offsets tried are those of the line's characters, so on an empty
   * line nothing is evaluated and the answer is `(false, None)`, although
   * `a*` matches the empty prefix of that line.
   */
  lemma EmptyLineNotSearched()
    ensures Matching("a*", "", true, F) == Ok((false, None))
    ensures Language.MatchesPrefix(AStar, "")
  {
    AStarParsed();
    AStarCompiled();
    Pipeline("a*", AStar, AStarProg, "");
    var star := AStar.items[0];
    assert Language.Accepts(star, "", 0, 0);
    assert Language.AcceptsSeq(AStar.items, 0, "", 0, 0);
    assert Language.Accepts(AStar, "", 0, 0);
  }
}
