/**
 * A printer for the trees the parser of src/engine/parser.rs builds, and the
 * proof that parsing the printed pattern gives the tree back: the parser is a
 * left inverse of `Render` on every tree of the shape it produces.
 */
module ParserRender {
  import opened Wrappers
  import opened Parser

  /**
   * The shape of the parser's output. An alternative is a non-empty `Seq` of
   * atoms; a pattern (or a group) is one alternative or `Or(alternative, pattern)`;
   * an atom is a literal, `.`, an atom under a postfix operator, or a group.
   */
  predicate IsAtom(t: AST)
    decreases t, 2
  {
    match t
    case Char(_) => true
    case Dot => true
    case Plus(e) => IsAtom(e)
    case Star(e) => IsAtom(e)
    case Question(e) => IsAtom(e)
    case Or(_, _) => IsAlts(t)
    case Seq(_) => IsAlts(t)
  }

  predicate AllAtoms(items: seq<AST>)
    decreases items, 0
  {
    forall k :: 0 <= k < |items| ==> IsAtom(items[k])
  }

  predicate IsAlts(t: AST)
    decreases t, 1
  {
    match t
    case Seq(items) => |items| > 0 && AllAtoms(items)
    case Or(l, r) => l.Seq? && |l.items| > 0 && AllAtoms(l.items) && IsAlts(r)
    case _ => false
  }

  /** The pattern text of an atom; reserved characters are escaped. */
  function RenderAtom(t: AST): seq<char>
    requires IsAtom(t)
    decreases t, 2
  {
    match t
    case Char(c) => if Escapable(c) then ['\\', c] else [c]
    case Dot => ['.']
    case Plus(e) => RenderAtom(e) + ['+']
    case Star(e) => RenderAtom(e) + ['*']
    case Question(e) => RenderAtom(e) + ['?']
    case Or(_, _) => ['('] + RenderAlts(t) + [')']
    case Seq(_) => ['('] + RenderAlts(t) + [')']
  }

  function RenderItems(items: seq<AST>): seq<char>
    requires AllAtoms(items)
    decreases items, 0
  {
    if items == [] then [] else RenderAtom(items[0]) + RenderItems(items[1..])
  }

  /** The alternatives of `t`, separated by `|`. */
  function RenderAlts(t: AST): seq<char>
    requires IsAlts(t)
    decreases t, 1
  {
    match t
    case Seq(items) => RenderItems(items)
    case Or(l, r) => RenderItems(l.items) + ['|'] + RenderAlts(r)
  }

  /** The alternatives of a pattern, in order. */
  function Branches(t: AST): (bs: seq<AST>)
    requires IsAlts(t)
    ensures |bs| >= 1 && bs[|bs| - 1].Seq? && |bs[|bs| - 1].items| > 0
  {
    match t
    case Seq(_) => [t]
    case Or(l, r) => [l] + Branches(r)
  }

  lemma {:induction false} FoldedBranches(t: AST)
    requires IsAlts(t)
    ensures Folded(Branches(t)) == Some(t)
  {
    match t
    case Seq(_) =>
    case Or(l, r) =>
      FoldedBranches(r);
      assert ([l] + Branches(r))[1..] == Branches(r);
  }

  /** Feeding an atom in the normal state appends exactly that atom. */
  lemma {:induction false} FeedAtom(t: AST, acc: Accum, base: nat)
    requires IsAtom(t) && acc.state == Normal
    ensures Run(acc, RenderAtom(t), base) == Ok(acc.(current := acc.current + [t]))
    decreases t, 5
  {
    match t
    case Char(c) =>
      if Escapable(c) {
        var esc := acc.(state := Escaped);
        assert Step(acc, base, '\\') == Ok(esc);
        assert Run(esc, [c], base + 1) == Step(esc, base + 1, c);
        assert ['\\', c][1..] == [c];
      } else {
        assert Run(acc, [c], base) == Step(acc, base, c);
      }
    case Dot =>
      assert Run(acc, ['.'], base) == Step(acc, base, '.');
    case Plus(e) =>
      FeedPostfix(e, '+', acc, base);
    case Star(e) =>
      FeedPostfix(e, '*', acc, base);
    case Question(e) =>
      FeedPostfix(e, '?', acc, base);
    case Or(_, _) =>
      FeedGroup(t, acc, base);
    case Seq(_) =>
      FeedGroup(t, acc, base);
  }

  lemma {:induction false} FeedPostfix(e: AST, c: char, acc: Accum, base: nat)
    requires IsAtom(e) && acc.state == Normal
    requires c == '+' || c == '*' || c == '?'
    ensures var op := if c == '+' then PlusOp else if c == '*' then StarOp else QuestionOp;
      Run(acc, RenderAtom(e) + [c], base) == Ok(acc.(current := acc.current + [Wrap(op, e)]))
    decreases e, 6
  {
    FeedAtom(e, acc, base);
    var mid := acc.(current := acc.current + [e]);
    RunThen(acc, RenderAtom(e), [c], base, mid);
    RunOne(mid, c, base + |RenderAtom(e)|);
    assert mid.current[..|mid.current| - 1] == acc.current;
  }

  /** Running over one character is one step. */
  lemma {:induction false} RunOne(acc: Accum, c: char, base: nat)
    ensures Run(acc, [c], base) == Step(acc, base, c)
  {
    assert [c][1..] == [];
  }

  /** Once `s` has been run without error, `t` continues from where it ended. */
  lemma {:induction false} RunThen(acc: Accum, s: seq<char>, t: seq<char>, base: nat, mid: Accum)
    requires Run(acc, s, base) == Ok(mid)
    ensures Run(acc, s + t, base) == Run(mid, t, base + |s|)
  {
    RunAppend(acc, s, t, base);
  }

  /** A parenthesised group is folded and appended as one node. */
  lemma {:induction false} FeedGroup(t: AST, acc: Accum, base: nat)
    requires IsAlts(t) && acc.state == Normal
    ensures Run(acc, ['('] + RenderAlts(t) + [')'], base) == Ok(acc.(current := acc.current + [t]))
    decreases t, 4
  {
    var alts := RenderAlts(t);
    var inner := Accum([], [], acc.stack + [Scope(acc.current, acc.seqOr)], Normal);
    RunOne(acc, '(', base);
    FeedGroupBody(t, acc, base + 1);
    RunThen(acc, ['('], alts + [')'], base, inner);
    assert ['('] + alts + [')'] == ['('] + (alts + [')']);
  }

  /** After the `(`: the alternatives, then the `)` that folds them into one node. */
  lemma {:induction false} FeedGroupBody(t: AST, acc: Accum, at: nat)
    requires IsAlts(t) && acc.state == Normal
    ensures var inner := Accum([], [], acc.stack + [Scope(acc.current, acc.seqOr)], Normal);
      Run(inner, RenderAlts(t) + [')'], at) == Ok(acc.(current := acc.current + [t]))
    decreases t, 3
  {
    var alts := RenderAlts(t);
    var inner := Accum([], [], acc.stack + [Scope(acc.current, acc.seqOr)], Normal);
    FeedAlts(t, inner, at);
    var bs := Branches(t);
    var full := inner.(current := bs[|bs| - 1].items, seqOr := bs[..|bs| - 1]);
    assert [] + bs[..|bs| - 1] == bs[..|bs| - 1];
    CloseGroup(t, acc, full, at + |alts|);
    RunThen(inner, alts, [')'], at, full);
  }

  /** The `)` that ends a group whose alternatives have all been fed. */
  lemma {:induction false} CloseGroup(t: AST, acc: Accum, full: Accum, at: nat)
    requires IsAlts(t)
    requires var bs := Branches(t);
      full == Accum(bs[|bs| - 1].items, bs[..|bs| - 1], acc.stack + [Scope(acc.current, acc.seqOr)], Normal)
    ensures Run(full, [')'], at) == Ok(Accum(acc.current + [t], acc.seqOr, acc.stack, Normal))
  {
    var bs := Branches(t);
    assert full.stack[..|full.stack| - 1] == acc.stack;
    assert full.stack[|full.stack| - 1] == Scope(acc.current, acc.seqOr);
    assert bs[..|bs| - 1] + [bs[|bs| - 1]] == bs;
    assert Closed(full.current, full.seqOr) == bs;
    FoldedBranches(t);
    RunOne(full, ')', at);
  }

  /** The alternatives of `Or(l, r)` but the last are `l` and those of `r` but the last. */
  lemma {:induction false} BranchesOrInit(t: AST)
    requires IsAlts(t) && t.Or?
    ensures var bs, rs := Branches(t), Branches(t.r);
      bs[..|bs| - 1] == [t.l] + rs[..|rs| - 1] && bs[|bs| - 1] == rs[|rs| - 1]
  {
  }

  /** What feeding the alternatives of `t` into the empty scope `acc` leaves. */
  function AfterAlts(t: AST, acc: Accum): Accum
    requires IsAlts(t)
  {
    var bs := Branches(t);
    acc.(current := bs[|bs| - 1].items, seqOr := acc.seqOr + bs[..|bs| - 1])
  }

  /**
   * Feeding the alternatives of `t` into an empty scope leaves all but the
   * last as finished alternatives and the last one's atoms as the sequence.
   */
  lemma {:induction false} FeedAlts(t: AST, acc: Accum, base: nat)
    requires IsAlts(t) && acc.state == Normal && acc.current == []
    ensures Run(acc, RenderAlts(t), base) == Ok(AfterAlts(t, acc))
    decreases t, 2
  {
    if t.Seq? {
      FeedLastAlt(t, acc, base);
    } else {
      var afterBar := acc.(seqOr := acc.seqOr + [t.l]);
      FeedAlts(t.r, afterBar, base + |RenderItems(t.l.items)| + 1);
      FeedOr(t, acc, base);
    }
  }

  /** A single alternative is fed as the scope's sequence. */
  lemma {:induction false} FeedLastAlt(t: AST, acc: Accum, base: nat)
    requires IsAlts(t) && t.Seq? && acc.state == Normal && acc.current == []
    ensures Run(acc, RenderAlts(t), base) == Ok(AfterAlts(t, acc))
    decreases t, 1
  {
    FeedItems(t.items, acc, base);
    assert acc.seqOr + [] == acc.seqOr;
    assert [] + t.items == t.items;
  }

  /** `Or(l, r)` is fed as `l`, a bar, and then the alternatives of `r`. */
  lemma {:induction false} FeedOr(t: AST, acc: Accum, base: nat)
    requires IsAlts(t) && t.Or? && acc.state == Normal && acc.current == []
    requires var afterBar := acc.(seqOr := acc.seqOr + [t.l]);
      Run(afterBar, RenderAlts(t.r), base + |RenderItems(t.l.items)| + 1) == Ok(AfterAlts(t.r, afterBar))
    ensures Run(acc, RenderAlts(t), base) == Ok(AfterAlts(t, acc))
    decreases t, 1
  {
    FeedOrPrefix(t.l, t.r, acc, base);
    var rs := Branches(t.r);
    BranchesOrInit(t);
    assert acc.seqOr + [t.l] + rs[..|rs| - 1] == acc.seqOr + ([t.l] + rs[..|rs| - 1]);
  }

  /** The first alternative and its `|` close that alternative; the rest is fed after them. */
  lemma {:induction false} FeedOrPrefix(l: AST, r: AST, acc: Accum, base: nat)
    requires IsAlts(Or(l, r)) && acc.state == Normal && acc.current == []
    ensures Run(acc, RenderAlts(Or(l, r)), base) ==
      Run(acc.(seqOr := acc.seqOr + [l]), RenderAlts(r), base + |RenderItems(l.items)| + 1)
    decreases Or(l, r), 0
  {
    var li := RenderItems(l.items);
    var ra := RenderAlts(r);
    FeedItems(l.items, acc, base);
    assert [] + l.items == l.items;
    var afterL := acc.(current := l.items);
    var afterBar := acc.(seqOr := acc.seqOr + [l]);
    RunOne(afterL, '|', base + |li|);
    RunThen(afterL, ['|'], ra, base + |li|, afterBar);
    RunThen(acc, li, ['|'] + ra, base, afterL);
    assert li + ['|'] + ra == li + (['|'] + ra);
  }

  /** Feeding a run of atoms appends them, in order. */
  lemma {:induction false} FeedItems(items: seq<AST>, acc: Accum, base: nat)
    requires AllAtoms(items)
    requires acc.state == Normal
    ensures Run(acc, RenderItems(items), base) == Ok(acc.(current := acc.current + items))
    decreases items, 0
  {
    if items == [] {
      assert acc.current + items == acc.current;
    } else {
      FeedAtom(items[0], acc, base);
      RunAppend(acc, RenderAtom(items[0]), RenderItems(items[1..]), base);
      var mid := acc.(current := acc.current + [items[0]]);
      FeedItems(items[1..], mid, base + |RenderAtom(items[0])|);
      assert mid.current + items[1..] == acc.current + items;
    }
  }

  /** Parsing the printed form of any tree of the parser's shape gives that tree back. */
  lemma ParseRender(t: AST)
    requires IsAlts(t)
    ensures Parsed(RenderAlts(t)) == Ok(t)
  {
    FeedAlts(t, Init, 0);
    var bs := Branches(t);
    assert [] + bs[..|bs| - 1] == bs[..|bs| - 1];
    assert bs[..|bs| - 1] + [bs[|bs| - 1]] == bs;
    assert Closed(bs[|bs| - 1].items, bs[..|bs| - 1]) == bs;
    FoldedBranches(t);
  }

  /** A finished alternative: a non-empty sequence of atoms. */
  predicate IsBranch(b: AST) {
    b.Seq? && |b.items| > 0 && AllAtoms(b.items)
  }

  predicate AllBranches(bs: seq<AST>) {
    forall k :: 0 <= k < |bs| ==> IsBranch(bs[k])
  }

  /** What the scanner's accumulators hold between two characters. */
  predicate WellShaped(acc: Accum) {
    && AllAtoms(acc.current)
    && AllBranches(acc.seqOr)
    && forall k :: 0 <= k < |acc.stack| ==> AllAtoms(acc.stack[k].current) && AllBranches(acc.stack[k].seqOr)
  }

  /** Folding finished alternatives gives a tree of the parser's shape. */
  lemma {:induction false} FoldedIsAlts(bs: seq<AST>)
    requires bs != [] && AllBranches(bs)
    ensures Folded(bs).Some? && IsAlts(Folded(bs).value)
    decreases |bs|
  {
    if |bs| > 1 {
      FoldedIsAlts(bs[1..]);
    }
  }

  /** Closing a scope keeps its alternatives finished ones. */
  lemma ClosedBranches(current: seq<AST>, seqOr: seq<AST>)
    requires AllAtoms(current) && AllBranches(seqOr)
    ensures AllBranches(Closed(current, seqOr))
  {
  }

  /** Every step the scanner takes keeps its accumulators well shaped. */
  lemma StepShaped(acc: Accum, i: nat, c: char)
    requires WellShaped(acc)
    ensures Step(acc, i, c).Ok? ==> WellShaped(Step(acc, i, c).value)
  {
    if acc.state == Normal && c == ')' && acc.stack != [] {
      var outer := acc.stack[|acc.stack| - 1];
      var bs := Closed(acc.current, acc.seqOr);
      ClosedBranches(acc.current, acc.seqOr);
      if bs != [] {
        FoldedIsAlts(bs);
        assert IsAtom(Folded(bs).value);
      }
    }
  }

  lemma {:induction false} RunShaped(acc: Accum, s: seq<char>, base: nat)
    requires WellShaped(acc)
    ensures Run(acc, s, base).Ok? ==> WellShaped(Run(acc, s, base).value)
    decreases |s|
  {
    if s != [] {
      StepShaped(acc, base, s[0]);
      if Step(acc, base, s[0]).Ok? {
        RunShaped(Step(acc, base, s[0]).value, s[1..], base + 1);
      }
    }
  }

  /** Every tree `parse` returns has the shape `ParseRender` covers. */
  lemma ParsedIsAlts(pattern: seq<char>)
    ensures Parsed(pattern).Ok? ==> IsAlts(Parsed(pattern).value)
  {
    RunShaped(Init, pattern, 0);
    match Run(Init, pattern, 0)
    case Err(_) =>
    case Ok(acc) =>
      if acc.stack == [] {
        ClosedBranches(acc.current, acc.seqOr);
        if Closed(acc.current, acc.seqOr) != [] {
          FoldedIsAlts(Closed(acc.current, acc.seqOr));
        }
      }
  }

  /**
   * The round trip over the parser's whole range: printing any tree `parse`
   * returns and parsing the text again gives the same tree.
   */
  lemma ParseRenderParse(pattern: seq<char>)
    ensures Parsed(pattern).Ok? ==>
      var t := Parsed(pattern).value;
      IsAlts(t) && Parsed(RenderAlts(t)) == Ok(t)
  {
    ParsedIsAlts(pattern);
    if Parsed(pattern).Ok? {
      ParseRender(Parsed(pattern).value);
    }
  }
}
