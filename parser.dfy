/**
 * The pattern parser of src/engine/parser.rs: one left-to-right pass over the
 * characters of the pattern with a two-state machine (normal / after `\`) and
 * three accumulators: the current sequence, the finished alternatives of the
 * current scope, and a stack of the scopes that enclose it.
 *
 * The step function `Step` and its fold `Run` specify one pass; the method
 * `Parse` is the loop the source runs, proved to compute `Parsed`.
 */
module Parser {
  import opened Wrappers

  /**
   * The syntax tree (parser.rs:9-18). `Dot` is not among the source's
   * variants: `.` there falls into the literal case, while its tests expect
   * `.` to match any character and `\.` to be a valid escape. This model
   * follows the tests.
   */
  datatype AST =
    | Char(c: char)
    | Dot
    | Plus(e: AST)
    | Star(e: AST)
    | Question(e: AST)
    | Or(l: AST, r: AST)
    | Seq(items: seq<AST>)

  /**
   * Parse failures (parser.rs:21-27). `NoRightParen` carries no position, as
   * the variant is declared (parser.rs:25, spelled `NorightParen` there); only
   * its `Display` impl formats one. The misspelt `ParseErorr` (parser.rs:49)
   * and `ParseEror` (parser.rs:55) are read as this type.
   */
  datatype ParseError =
    | InvalidEscape(pos: nat, c: char)
    | InvalidRightParen(pos: nat)
    | NoPrev(pos: nat)
    | NoRightParen
    | Empty

  /** The characters that may follow `\`; `.` added as the tests expect. */
  predicate Escapable(c: char) {
    c == '\\' || c == '(' || c == ')' || c == '|' || c == '+' || c == '*' || c == '?' || c == '.'
  }

  /**
   * `parse_escape`: the escaped character becomes a literal, or the escape is
   * invalid (`ParseEror::InvalidEscape` at parser.rs:55 read as `ParseError`).
   */
  function ParseEscape(pos: nat, c: char): (r: Result<AST, ParseError>)
    ensures r.Ok? <==> Escapable(c)
    ensures r.Ok? ==> r.value == Char(c)
    ensures r.Err? ==> r.error == InvalidEscape(pos, c)
  {
    if Escapable(c) then Ok(Char(c)) else Err(InvalidEscape(pos, c))
  }

  /** The postfix operators (`PSQ` in the source). */
  datatype Psq = PlusOp | StarOp | QuestionOp

  function Wrap(op: Psq, e: AST): AST {
    match op
    case PlusOp => Plus(e)
    case StarOp => Star(e)
    case QuestionOp => Question(e)
  }

  /**
   * `parse_plus_star_question`: pops the last node of the current sequence and
   * pushes it back wrapped in the operator; with nothing to pop, `NoPrev(pos)`.
   */
  function ParsePlusStarQuestion(items: seq<AST>, op: Psq, pos: nat): (r: Result<seq<AST>, ParseError>)
    ensures r.Ok? <==> |items| > 0
    ensures r.Ok? ==> |r.value| == |items|
    ensures r.Ok? ==> r.value[..|items| - 1] == items[..|items| - 1]
    ensures r.Ok? ==> r.value[|items| - 1] == Wrap(op, items[|items| - 1])
    ensures r.Err? ==> r.error == NoPrev(pos)
  {
    if |items| == 0 then Err(NoPrev(pos))
    else Ok(items[..|items| - 1] + [Wrap(op, items[|items| - 1])])
  }

  /**
   * What `fold_or` builds from the alternatives b1..bn: nothing for n = 0,
   * b1 for n = 1, and Or(b1, Or(b2, ... bn)) otherwise.
   */
  function Folded(branches: seq<AST>): (r: Option<AST>)
    ensures r.None? <==> branches == []
    ensures |branches| == 1 ==> r == Some(branches[0])
    ensures |branches| > 1 ==> r.Some? && r.value.Or? && r.value.l == branches[0]
  {
    if |branches| == 0 then None
    else if |branches| == 1 then Some(branches[0])
    else Some(Or(branches[0], Folded(branches[1..]).value))
  }

  /**
   * `fold_or` as the source runs it: take the last alternative as the
   * accumulator, then, walking the remaining ones in reverse (the source
   * reverses the vector and iterates it), put each one on the left of an `Or`.
   * The `Nox::new` at parser.rs:95 is read as `Box::new`.
   */
  method FoldOr(seqOr: seq<AST>) returns (r: Option<AST>)
    ensures r == Folded(seqOr)
  {
    if |seqOr| > 1 {
      var ast := seqOr[|seqOr| - 1];
      var k := |seqOr| - 1;
      while k > 0
        invariant 0 <= k <= |seqOr| - 1
        invariant Folded(seqOr[k..]) == Some(ast)
      {
        k := k - 1;
        assert seqOr[k..][1..] == seqOr[k + 1..];
        ast := Or(seqOr[k], ast);
      }
      assert seqOr[0..] == seqOr;
      r := Some(ast);
    } else if |seqOr| == 1 {
      r := Some(seqOr[0]);
    } else {
      r := None;
    }
  }

  /** The two states of the scanner (`ParseState::Char` and `ParseState::Escape`). */
  datatype ParseState = Normal | Escaped

  /** A saved scope: the sequence and the alternatives of an enclosing group. */
  datatype Scope = Scope(current: seq<AST>, seqOr: seq<AST>)

  /** Everything the scanner carries from one character to the next. */
  datatype Accum = Accum(current: seq<AST>, seqOr: seq<AST>, stack: seq<Scope>, state: ParseState)

  const Init: Accum := Accum([], [], [], Normal)

  /** The alternatives of a scope once it is closed: a non-empty sequence is the last one. */
  function Closed(current: seq<AST>, seqOr: seq<AST>): seq<AST> {
    if current == [] then seqOr else seqOr + [Seq(current)]
  }

  /** One character `c` at position `i` (the body of the `for` loop, parser.rs:117-166). */
  function Step(acc: Accum, i: nat, c: char): (r: Result<Accum, ParseError>)
    ensures r.Err? <==>
      if acc.state == Escaped then !Escapable(c)
      else ((c == '+' || c == '*' || c == '?' || c == '|') && acc.current == []) || (c == ')' && acc.stack == [])
    ensures r.Err? ==> r.error in {NoPrev(i), InvalidRightParen(i), InvalidEscape(i, c)}
    ensures r.Ok? ==> (r.value.state == Escaped <==> acc.state == Normal && c == '\\')
    ensures r.Ok? ==>
      |r.value.stack| == (if acc.state == Normal && c == '(' then |acc.stack| + 1
                          else if acc.state == Normal && c == ')' then |acc.stack| - 1
                          else |acc.stack|)
  {
    match acc.state
    case Escaped =>
      (match ParseEscape(i, c)
       case Err(e) => Err(e)
       case Ok(a) => Ok(acc.(current := acc.current + [a], state := Normal)))
    case Normal =>
      if c == '+' || c == '*' || c == '?' then
        // `*` passes `PSQ::State` at parser.rs:120, read as `PSQ::Star`
        var op := if c == '+' then PlusOp else if c == '*' then StarOp else QuestionOp;
        (match ParsePlusStarQuestion(acc.current, op, i)
         case Err(e) => Err(e)
         case Ok(items) => Ok(acc.(current := items)))
      else if c == '(' then
        Ok(Accum([], [], acc.stack + [Scope(acc.current, acc.seqOr)], Normal))
      else if c == ')' then
        // the source boxes this error (parser.rs:146); here it is the plain value
        if acc.stack == [] then Err(InvalidRightParen(i))
        else
          var outer := acc.stack[|acc.stack| - 1];
          var group := Folded(Closed(acc.current, acc.seqOr));
          var restored := if group.Some? then outer.current + [group.value] else outer.current;
          Ok(Accum(restored, outer.seqOr, acc.stack[..|acc.stack| - 1], Normal))
      else if c == '|' then
        // boxed at parser.rs:152 as well
        if acc.current == [] then Err(NoPrev(i))
        else Ok(acc.(current := [], seqOr := acc.seqOr + [Seq(acc.current)]))
      else if c == '\\' then
        Ok(acc.(state := Escaped))
      else if c == '.' then
        Ok(acc.(current := acc.current + [Dot]))
      else
        Ok(acc.(current := acc.current + [Char(c)]))
  }

  /** The scanner run over `s`, whose first character sits at position `base`. */
  function Run(acc: Accum, s: seq<char>, base: nat): Result<Accum, ParseError>
    decreases |s|
  {
    if s == [] then Ok(acc)
    else
      match Step(acc, base, s[0])
      case Err(e) => Err(e)
      case Ok(next) => Run(next, s[1..], base + 1)
  }

  /** The end of the pattern (the part of `parse` after the loop). */
  function Finish(acc: Accum): (r: Result<AST, ParseError>)
    ensures r == Err(NoRightParen) <==> acc.stack != []
    ensures r == Err(Empty) <==> acc.stack == [] && acc.current == [] && acc.seqOr == []
    ensures r.Err? ==> r.error == NoRightParen || r.error == Empty
    ensures acc.stack == [] && acc.seqOr == [] && acc.current != [] ==> r == Ok(Seq(acc.current))
    ensures acc.stack == [] && acc.seqOr != [] && acc.current != [] ==>
      r.Ok? && r.value.Or? && r.value.l == acc.seqOr[0]
  {
    if acc.stack != [] then Err(NoRightParen)
    else
      match Folded(Closed(acc.current, acc.seqOr))
      case None => Err(Empty)
      case Some(t) => Ok(t)
  }

  /** The result of `parse(pattern)`. */
  function Parsed(pattern: seq<char>): Result<AST, ParseError> {
    match Run(Init, pattern, 0)
    case Err(e) => Err(e)
    case Ok(acc) => Finish(acc)
  }

  /** Running over `s + t` is running over `s`, then over `t` from where `s` ended. */
  lemma {:induction false} RunAppend(acc: Accum, s: seq<char>, t: seq<char>, base: nat)
    ensures Run(acc, s + t, base) ==
            match Run(acc, s, base)
            case Err(e) => Err(e)
            case Ok(mid) => Run(mid, t, base + |s|)
    decreases |s|
  {
    if s == [] {
      assert s + t == t;
    } else {
      assert (s + t)[0] == s[0];
      assert (s + t)[1..] == s[1..] + t;
      match Step(acc, base, s[0])
      case Err(e) =>
      case Ok(next) => RunAppend(next, s[1..], t, base + 1);
    }
  }

  /**
   * `parse` (parser.rs:104-169), whose ending is missing in the source: an
   * unclosed group is `NoRightParen`, a non-empty last sequence becomes the
   * last alternative, the alternatives are folded, and none at all is `Empty`.
   */
  method Parse(expr: seq<char>) returns (r: Result<AST, ParseError>)
    ensures r == Parsed(expr)
  {
    var current: seq<AST> := [];
    var seqOr: seq<AST> := [];
    var stack: seq<Scope> := [];
    var state := Normal;
    var i := 0;
    while i < |expr|
      invariant i <= |expr|
      invariant Run(Init, expr[..i], 0) == Ok(Accum(current, seqOr, stack, state))
    {
      var c := expr[i];
      ghost var before := Accum(current, seqOr, stack, state);
      assert expr[..i + 1] == expr[..i] + [c];
      RunAppend(Init, expr[..i], [c], 0);
      assert Run(Init, expr[..i + 1], 0) == Step(before, i, c);
      match state {
        case Normal =>
          if c == '+' || c == '*' || c == '?' {
            var op := if c == '+' then PlusOp else if c == '*' then StarOp else QuestionOp;
            var res := ParsePlusStarQuestion(current, op, i);
            if res.Err? {
              RunStopsAtError(expr, i + 1);
              return Err(res.error);
            }
            current := res.value;
          } else if c == '(' {
            stack := stack + [Scope(current, seqOr)];
            current := [];
            seqOr := [];
          } else if c == ')' {
            if stack == [] {
              RunStopsAtError(expr, i + 1);
              return Err(InvalidRightParen(i));
            }
            var outer := stack[|stack| - 1];
            stack := stack[..|stack| - 1];
            if current != [] {
              seqOr := seqOr + [Seq(current)];
            }
            var group := FoldOr(seqOr);
            var prev := outer.current;
            if group.Some? {
              prev := prev + [group.value];
            }
            current := prev;
            seqOr := outer.seqOr;
          } else if c == '|' {
            if current == [] {
              RunStopsAtError(expr, i + 1);
              return Err(NoPrev(i));
            }
            seqOr := seqOr + [Seq(current)];
            current := [];
          } else if c == '\\' {
            state := Escaped;
          } else if c == '.' {
            current := current + [Dot];
          } else {
            current := current + [Char(c)];
          }
        case Escaped =>
          var ast := ParseEscape(i, c);
          if ast.Err? {
            RunStopsAtError(expr, i + 1);
            return Err(ast.error);
          }
          current := current + [ast.value];
          state := Normal;
      }
      i := i + 1;
    }
    assert expr[..i] == expr;
    if stack != [] {
      return Err(NoRightParen);
    }
    if current != [] {
      seqOr := seqOr + [Seq(current)];
    }
    var folded := FoldOr(seqOr);
    if folded.None? {
      return Err(Empty);
    }
    return Ok(folded.value);
  }

  /** A failure on a prefix of the pattern is the failure of the whole parse. */
  lemma RunStopsAtError(expr: seq<char>, n: nat)
    requires n <= |expr|
    requires Run(Init, expr[..n], 0).Err?
    ensures Parsed(expr) == Err(Run(Init, expr[..n], 0).error)
  {
    assert expr == expr[..n] + expr[n..];
    RunAppend(Init, expr[..n], expr[n..], 0);
  }
}
