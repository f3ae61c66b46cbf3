/**
 * The code generator of src/engine/codegen.rs: lowers a syntax tree into a
 * program of the matching machine. `Code` states, per construct, the layout
 * the generator produces; the `Generator` class is the source's generator,
 * which emits placeholders and patches them once the target is known, and
 * each of its methods is proved to append exactly `Code` of its tree.
 */
module Codegen {
  import opened Wrappers
  import opened Helper
  import opened Instructions
  import P = Parser

  /** Generation failures (codegen.rs:9-14). Only `PCOverFlow` can occur. */
  datatype CodeGenError = PCOverFlow | FailStar | FailOr | FailQuestion

  /**
   * The code generated for `t` when its first instruction lands at address
   * `a`; all targets are absolute addresses.
   */
  function Code(t: P.AST, a: nat): seq<Instruction>
    decreases t, 1
  {
    match t
    case Char(c) => [Char(c)]
    case Dot => [Dot]
    case Seq(items) => CodeSeq(items, |items|, a)
    case Question(e) => QuestionCode(e, a)
    case Star(e) => StarCode(e, a)
    case Plus(e) => PlusCode(e, a)
    case Or(e1, e2) => OrCode(e1, e2, a)
  }

  /** `e?` at `a`:  `a: split a+1, L2;  a+1: e;  L2:` */
  function QuestionCode(e: P.AST, a: nat): seq<Instruction>
    decreases P.Question(e), 0
  {
    var body := Code(e, a + 1);
    [Split(a + 1, a + 1 + |body|)] + body
  }

  /** `e*` at `a`:  `L1 = a: split L2, L3;  L2 = a+1: e;  jump L1;  L3:` */
  function StarCode(e: P.AST, a: nat): seq<Instruction>
    decreases P.Star(e), 0
  {
    var body := Code(e, a + 1);
    [Split(a + 1, a + 2 + |body|)] + body + [Jump(a)]
  }

  /** `e+` at `a`:  `L1 = a: e;  split L1, L2;  L2:` */
  function PlusCode(e: P.AST, a: nat): seq<Instruction>
    decreases P.Plus(e), 0
  {
    var body := Code(e, a);
    body + [Split(a, a + |body| + 1)]
  }

  /** `e1|e2` at `a`:  `a: split a+1, L2;  a+1: e1;  jump L3;  L2: e2;  L3:` */
  function OrCode(e1: P.AST, e2: P.AST, a: nat): seq<Instruction>
    decreases P.Or(e1, e2), 0
  {
    var left := Code(e1, a + 1);
    var l2 := a + 2 + |left|;
    var right := Code(e2, l2);
    [Split(a + 1, l2)] + left + [Jump(l2 + |right|)] + right
  }

  /** The first `n` children of a `Seq`, one after the other, nothing in between. */
  function CodeSeq(items: seq<P.AST>, n: nat, a: nat): seq<Instruction>
    requires n <= |items|
    decreases items, 0, n
  {
    if n == 0 then []
    else
      var front := CodeSeq(items, n - 1, a);
      front + Code(items[n - 1], a + |front|)
  }

  /** The result of `get_code`: the code of the tree at address 0, then one `Match`. */
  function Compiled(t: P.AST): Result<seq<Instruction>, CodeGenError> {
    var code := Code(t, 0);
    if |code| + 1 > USIZE_MAX then Err(PCOverFlow) else Ok(code + [Match])
  }

  /** `Generator` (codegen.rs:23-27): the next address and the instructions so far. */
  class Generator {
    var pc: nat
    var insts: seq<Instruction>

    /** The generator's invariant: `pc` is the address the next instruction gets. */
    ghost predicate Valid()
      reads this
    {
      pc == |insts| && pc <= USIZE_MAX
    }

    /**
     * What every `gen_*` method promises: it succeeds exactly when the
     * instructions it emits fit below `usize::MAX`, and then it has appended
     * `code` and advanced `pc` past it; it fails only with `PCOverFlow`.
     */
    ghost predicate Emitted(r: Result<(), CodeGenError>, pc0: nat, insts0: seq<Instruction>, code: seq<Instruction>)
      reads this
    {
      && (r.Ok? <==> pc0 + |code| <= USIZE_MAX)
      && (r.Ok? ==> Valid() && pc == pc0 + |code| && insts == insts0 + code)
      && (r.Err? ==> r.error == PCOverFlow)
    }

    constructor ()
      ensures Valid() && insts == []
    {
      pc := 0;
      insts := [];
    }

    /** `inc_pc`: the checked increment; `PCOverFlow` past `usize::MAX`. */
    method IncPc() returns (r: Result<(), CodeGenError>)
      modifies this
      ensures insts == old(insts)
      ensures r.Ok? <==> old(pc) + 1 <= USIZE_MAX
      ensures r.Ok? ==> pc == old(pc) + 1
      ensures r.Err? ==> r.error == PCOverFlow && pc == old(pc)
    {
      match SafeAdd(pc, 1)
      case Some(n) =>
        pc := n;
        r := Ok(());
      case None =>
        r := Err(PCOverFlow);
    }

    /** `gen_seq`: the children in order. */
    method GenSeq(exprs: seq<P.AST>) returns (r: Result<(), CodeGenError>)
      requires Valid()
      modifies this
      ensures Emitted(r, old(pc), old(insts), CodeSeq(exprs, |exprs|, old(pc)))
      decreases exprs, 0
    {
      var k := 0;
      while k < |exprs|
        invariant k <= |exprs|
        invariant Valid()
        invariant insts == old(insts) + CodeSeq(exprs, k, old(pc))
      {
        r := GenExpr(exprs[k]);
        if r.Err? {
          CodeSeqPrefix(exprs, k + 1, |exprs|, old(pc));
          return;
        }
        k := k + 1;
      }
      r := Ok(());
    }

    /** `gen_char`: one `Char`. */
    method GenChar(c: char) returns (r: Result<(), CodeGenError>)
      requires Valid()
      modifies this
      ensures Emitted(r, old(pc), old(insts), [Char(c)])
    {
      insts := insts + [Char(c)];
      r := IncPc();
    }

    /** One `Dot` (no counterpart in the source, which has no `Dot` node). */
    method GenDot() returns (r: Result<(), CodeGenError>)
      requires Valid()
      modifies this
      ensures Emitted(r, old(pc), old(insts), [Dot])
    {
      insts := insts + [Dot];
      r := IncPc();
    }

    /** `gen_question`: `split L1, L2` with `L2` patched after the body. */
    method GenQuestion(e: P.AST) returns (r: Result<(), CodeGenError>)
      requires Valid()
      modifies this
      ensures Emitted(r, old(pc), old(insts), QuestionCode(e, old(pc)))
      decreases P.Question(e), 0
    {
      var splitAddr := pc;
      ghost var before := insts;
      r := IncPc();
      if r.Err? {
        return;
      }
      insts := insts + [Split(pc, 0)];
      r := GenExpr(e);
      if r.Err? {
        return;
      }
      if splitAddr < |insts| && insts[splitAddr].Split? {
        insts := insts[splitAddr := Split(insts[splitAddr].addr1, pc)];
      } else {
        assert false;
        return Err(FailQuestion);
      }
      assert pc == splitAddr + |QuestionCode(e, splitAddr)| && insts == before + QuestionCode(e, splitAddr) by {
        PatchOne(before, Split(splitAddr + 1, 0), Split(splitAddr + 1, pc), Code(e, splitAddr + 1));
      }
    }

    /**
     * `gen_star`, with the layout its doc comment gives: `L1: split L2, L3`,
     * the body at `L2`, `jump L1`, and `L3` after the jump. The source's body
     * never pushes the split and emits no jump.
     */
    method GenStar(e: P.AST) returns (r: Result<(), CodeGenError>)
      requires Valid()
      modifies this
      ensures Emitted(r, old(pc), old(insts), StarCode(e, old(pc)))
      decreases P.Star(e), 0
    {
      var splitAddr := pc;
      ghost var before := insts;
      r := IncPc();
      if r.Err? {
        return;
      }
      insts := insts + [Split(pc, 0)];
      r := GenExpr(e);
      if r.Err? {
        return;
      }
      insts := insts + [Jump(splitAddr)];
      r := IncPc();
      if r.Err? {
        return;
      }
      if splitAddr < |insts| && insts[splitAddr].Split? {
        insts := insts[splitAddr := Split(insts[splitAddr].addr1, pc)];
      } else {
        assert false;
        return Err(FailStar);
      }
      assert pc == splitAddr + |StarCode(e, splitAddr)| && insts == before + StarCode(e, splitAddr) by {
        PatchOneTail(before, Split(splitAddr + 1, 0), Split(splitAddr + 1, pc), Code(e, splitAddr + 1), Jump(splitAddr));
      }
    }

    /** `gen_plus`: the body at `L1`, then `split L1, L2`. */
    method GenPlus(e: P.AST) returns (r: Result<(), CodeGenError>)
      requires Valid()
      modifies this
      ensures Emitted(r, old(pc), old(insts), PlusCode(e, old(pc)))
      decreases P.Plus(e), 0
    {
      var l1 := pc;
      ghost var before := insts;
      r := GenExpr(e);
      if r.Err? {
        return;
      }
      r := IncPc();
      if r.Err? {
        return;
      }
      insts := insts + [Split(l1, pc)];
      assert pc == l1 + |PlusCode(e, l1)| && insts == before + PlusCode(e, l1) by {
        assert insts == before + (Code(e, l1) + [Split(l1, pc)]);
      }
    }

    /** `gen_or`: `split L1, L2`, `e1`, `jmp L3`, `e2`, with `L2` and `L3` patched. */
    method GenOr(e1: P.AST, e2: P.AST) returns (r: Result<(), CodeGenError>)
      requires Valid()
      modifies this
      ensures Emitted(r, old(pc), old(insts), OrCode(e1, e2, old(pc)))
      decreases P.Or(e1, e2), 0
    {
      var splitAddr := pc;
      ghost var before := insts;
      r := IncPc();
      if r.Err? {
        return;
      }
      insts := insts + [Split(pc, 0)];
      r := GenExpr(e1);
      if r.Err? {
        return;
      }
      var jmpAddr := pc;
      insts := insts + [Jump(0)];
      r := IncPc();
      if r.Err? {
        return;
      }
      ghost var l2 := pc;
      if splitAddr < |insts| && insts[splitAddr].Split? {
        insts := insts[splitAddr := Split(insts[splitAddr].addr1, pc)];
      } else {
        assert false;
        return Err(FailOr);
      }
      r := GenExpr(e2);
      if r.Err? {
        return;
      }
      if jmpAddr < |insts| && insts[jmpAddr].Jump? {
        insts := insts[jmpAddr := Jump(pc)];
      } else {
        assert false;
        return Err(FailOr);
      }
      assert pc == splitAddr + |OrCode(e1, e2, splitAddr)| && insts == before + OrCode(e1, e2, splitAddr) by {
        TwoPatches(before, Split(splitAddr + 1, 0), Split(splitAddr + 1, l2), Code(e1, splitAddr + 1),
                   Jump(0), Jump(pc), Code(e2, l2));
      }
    }

    /** `gen_expr`: dispatch on the node. */
    method GenExpr(t: P.AST) returns (r: Result<(), CodeGenError>)
      requires Valid()
      modifies this
      ensures Emitted(r, old(pc), old(insts), Code(t, old(pc)))
      decreases t, 1
    {
      match t
      case Char(c) => r := GenChar(c);
      case Dot => r := GenDot();
      case Or(e1, e2) => r := GenOr(e1, e2);
      case Plus(e) => r := GenPlus(e);
      case Star(e) => r := GenStar(e);
      case Question(e) => r := GenQuestion(e);
      case Seq(v) => r := GenSeq(v);
    }

    /** `gen_code`: the tree, then a single `Match`. */
    method GenCode(t: P.AST) returns (r: Result<(), CodeGenError>)
      requires Valid()
      modifies this
      ensures Emitted(r, old(pc), old(insts), Code(t, old(pc)) + [Match])
    {
      r := GenExpr(t);
      if r.Err? {
        return;
      }
      r := IncPc();
      if r.Err? {
        return;
      }
      insts := insts + [Match];
    }
  }

  /** `get_code`: a fresh generator run over the whole tree. */
  method GetCode(t: P.AST) returns (r: Result<seq<Instruction>, CodeGenError>)
    ensures r == Compiled(t)
  {
    var g := new Generator();
    var res := g.GenCode(t);
    if res.Err? {
      return Err(res.error);
    }
    ghost var code := Code(t, 0);
    assert g.insts == code + [Match] by {
      assert [] + (code + [Match]) == code + [Match];
    }
    assert |code + [Match]| == |code| + 1;
    return Ok(g.insts);
  }

  /** Patching the placeholder `x0` that starts the code of a `?`. */
  lemma PatchOne(front: seq<Instruction>, x0: Instruction, x: Instruction, mid: seq<Instruction>)
    ensures (front + [x0] + mid)[|front| := x] == front + ([x] + mid)
  {
    var s := (front + [x0] + mid)[|front| := x];
    assert forall k | 0 <= k < |s| :: s[k] == (front + ([x] + mid))[k];
  }

  /** Patching the placeholder `x0` that starts the code of a `*`. */
  lemma PatchOneTail(front: seq<Instruction>, x0: Instruction, x: Instruction, mid: seq<Instruction>, y: Instruction)
    ensures (front + [x0] + mid + [y])[|front| := x] == front + ([x] + mid + [y])
  {
    var s := (front + [x0] + mid + [y])[|front| := x];
    assert forall k | 0 <= k < |s| :: s[k] == (front + ([x] + mid + [y]))[k];
  }

  /** Patching the two placeholders of an `|`, with the right operand emitted in between. */
  lemma TwoPatches(front: seq<Instruction>, x0: Instruction, x: Instruction, mid: seq<Instruction>,
                   y0: Instruction, y: Instruction, tail: seq<Instruction>)
    ensures ((front + [x0] + mid + [y0])[|front| := x] + tail)[|front| + 1 + |mid| := y]
         == front + ([x] + mid + [y] + tail)
  {
    var s := ((front + [x0] + mid + [y0])[|front| := x] + tail)[|front| + 1 + |mid| := y];
    var t := front + ([x] + mid + [y] + tail);
    assert |s| == |t|;
    forall k | 0 <= k < |s|
      ensures s[k] == t[k]
    {
      if k < |front| {
      } else if k == |front| {
      } else if k < |front| + 1 + |mid| {
        assert s[k] == mid[k - |front| - 1];
      } else if k == |front| + 1 + |mid| {
      } else {
        assert s[k] == tail[k - |front| - 2 - |mid|];
      }
    }
  }

  /** The code of the first `k` children is no longer than that of the first `n`. */
  lemma {:induction false} CodeSeqPrefix(items: seq<P.AST>, k: nat, n: nat, a: nat)
    requires k <= n <= |items|
    ensures |CodeSeq(items, k, a)| <= |CodeSeq(items, n, a)|
    decreases n
  {
    if k < n {
      CodeSeqPrefix(items, k, n - 1, a);
    }
  }
}
