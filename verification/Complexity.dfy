/** The complexity visitor (scripts/cogc/src/main.rs): one pass over a function's expressions that keeps a
    score and a nesting depth. */
module Complexity {
  import opened Common

  /** Rust expressions as far as the visitor tells them apart. `Other` is every kind it only descends
      into, `Item` a function declared inside a block; a macro is not entered. */
  datatype Expr =
    | If(cond: Expr, body: seq<Expr>, otherwise: Option<Expr>)
    | Match(subject: Expr, arms: seq<Arm>)
    | For(over: Expr, body: seq<Expr>)
    | While(cond: Expr, body: seq<Expr>)
    | Loop(body: seq<Expr>)
    | Closure(inner: Expr)
    | Logic(and: bool, left: Expr, right: Expr)
    | Paren(inner: Expr)
    | Break(labelled: bool, value: Option<Expr>)
    | Continue(labelled: bool)
    | Call(callee: Expr, args: seq<Expr>)
    | Path(segments: seq<string>)
    | Item(body: seq<Expr>)
    | Macro
    | Other(children: seq<Expr>)

  datatype Arm = Arm(guard: Option<Expr>, body: Expr)

  // ---- the score of an expression at nesting depth `n`, in the function `f` ----

  function One(b: bool): nat {
    if b then 1 else 0
  }

  predicate CallsItself(callee: Expr, f: string) {
    callee.Path? && callee.segments == [f]
  }

  function Score(e: Expr, n: nat, f: string): nat
    decreases e, if e.Logic? then 3 else 1
  {
    match e
    case If(_, _, _) => IfScore(e, false, n, f)
    case Match(subject, arms) => 1 + n + Score(subject, n, f) + ArmsScore(arms, n + 1, f)
    case For(over, body) => 1 + n + Score(over, n, f) + AllScore(body, n + 1, f)
    case While(cond, body) => 1 + n + Score(cond, n, f) + AllScore(body, n + 1, f)
    case Loop(body) => 1 + n + AllScore(body, n + 1, f)
    case Closure(inner) => Score(inner, n + 1, f)
    case Logic(_, _, _) => SeqScore(e, None, n, f)
    case Paren(inner) => Score(inner, n, f)
    case Break(labelled, value) => One(labelled) + MaybeScore(value, n, f)
    case Continue(labelled) => One(labelled)
    case Call(callee, args) => One(CallsItself(callee, f)) + Score(callee, n, f) + AllScore(args, n, f)
    case Path(_) => 0
    case Item(body) => AllScore(body, n + 1, f)
    case Macro => 0
    case Other(children) => AllScore(children, n, f)
  }

  function IfScore(e: Expr, elseIf: bool, n: nat, f: string): nat
    requires e.If?
    decreases e, 0
  {
    (if elseIf then 1 else 1 + n) + Score(e.cond, n, f) + AllScore(e.body, n + 1, f) +
    match e.otherwise
    case None => 0
    case Some(other) => if other.If? then IfScore(other, true, n, f) else 1 + Score(other, n + 1, f)
  }

  function SeqScore(e: Expr, parent: Option<bool>, n: nat, f: string): nat
    decreases e, 2
  {
    match e
    case Logic(and, left, right) =>
      One(parent != Some(and)) + SeqScore(left, Some(and), n, f) + SeqScore(right, Some(and), n, f)
    case Paren(inner) => SeqScore(inner, None, n, f)
    case _ => Score(e, n, f)
  }

  function MaybeScore(e: Option<Expr>, n: nat, f: string): nat {
    match e case None => 0 case Some(x) => Score(x, n, f)
  }

  function AllScore(es: seq<Expr>, n: nat, f: string): nat {
    if es == [] then 0 else AllScore(es[..|es| - 1], n, f) + Score(es[|es| - 1], n, f)
  }

  function ArmsScore(arms: seq<Arm>, n: nat, f: string): nat {
    if arms == [] then 0
    else
      ArmsScore(arms[..|arms| - 1], n, f) + ArmScore(arms[|arms| - 1], n, f)
  }

  function ArmScore(arm: Arm, n: nat, f: string): nat {
    match arm case Arm(guard, body) => MaybeScore(guard, n, f) + Score(body, n, f)
  }

  // ---- the visitor ----

  class Cx {
    var score: nat
    var nest: nat
    const name: string

    constructor (name: string)
      ensures score == 0 && nest == 0 && this.name == name
    {
      this.name := name;
      score, nest := 0, 0;
    }

    method Structural()
      modifies this`score
      ensures score == old(score) + 1 + nest
    {
      score := score + 1 + nest;
    }

    method VisitIf(e: Expr, elseIf: bool)
      requires e.If?
      modifies this
      ensures nest == old(nest) && score == old(score) + IfScore(e, elseIf, nest, name)
      decreases e, 0
    {
      if elseIf {
        score := score + 1;
      } else {
        Structural();
      }
      VisitExpr(e.cond);
      VisitNested(e.body);
      match e.otherwise {
        case None =>
        case Some(other) =>
          if other.If? {
            VisitIf(other, true);
          } else {
            score := score + 1;
            nest := nest + 1;
            VisitExpr(other);
            nest := nest - 1;
          }
      }
    }

    method BoolSeq(e: Expr, parent: Option<bool>)
      modifies this
      ensures nest == old(nest) && score == old(score) + SeqScore(e, parent, nest, name)
      decreases e, 2
    {
      match e {
        case Logic(and, left, right) =>
          if parent != Some(and) {
            score := score + 1;
          }
          BoolSeq(left, Some(and));
          BoolSeq(right, Some(and));
        case Paren(inner) =>
          BoolSeq(inner, None);
        case _ =>
          VisitExpr(e);
      }
    }

    method VisitExpr(e: Expr)
      modifies this
      ensures nest == old(nest) && score == old(score) + Score(e, nest, name)
      decreases e, if e.Logic? then 3 else 1
    {
      match e {
        case If(_, _, _) =>
          VisitIf(e, false);
        case Match(_, _) =>
          VisitMatch(e);
        case For(over, body) =>
          Structural();
          VisitExpr(over);
          VisitNested(body);
        case While(cond, body) =>
          Structural();
          VisitExpr(cond);
          VisitNested(body);
        case Loop(body) =>
          Structural();
          VisitNested(body);
        case Closure(inner) =>
          nest := nest + 1;
          VisitExpr(inner);
          nest := nest - 1;
        case Logic(_, _, _) =>
          BoolSeq(e, None);
        case Paren(inner) =>
          VisitExpr(inner);
        case Break(labelled, value) =>
          if labelled {
            score := score + 1;
          }
          if value.Some? {
            VisitExpr(value.value);
          }
        case Continue(labelled) =>
          if labelled {
            score := score + 1;
          }
        case Call(_, _) =>
          VisitCall(e);
        case Path(_) =>
        case Item(body) =>
          VisitNested(body);
        case Macro =>
        case Other(children) =>
          VisitAll(children);
      }
    }

    method VisitCall(e: Expr)
      requires e.Call?
      modifies this
      ensures nest == old(nest) && score == old(score) + Score(e, nest, name)
      decreases e, 0
    {
      if e.callee.Path? && |e.callee.segments| == 1 && e.callee.segments[0] == name {
        score := score + 1;
      }
      VisitExpr(e.callee);
      VisitAll(e.args);
    }

    method VisitMatch(e: Expr)
      requires e.Match?
      modifies this
      ensures nest == old(nest) && score == old(score) + Score(e, nest, name)
      decreases e, 0
    {
      Structural();
      VisitExpr(e.subject);
      nest := nest + 1;
      VisitArms(e.arms);
      nest := nest - 1;
    }

    method VisitArms(arms: seq<Arm>)
      modifies this
      ensures nest == old(nest) && score == old(score) + ArmsScore(arms, nest, name)
      decreases arms, 0
    {
      var i := 0;
      while i < |arms|
        invariant i <= |arms| && nest == old(nest)
        invariant score == old(score) + ArmsScore(arms[..i], nest, name)
      {
        assert arms[..i + 1][..i] == arms[..i];
        VisitArm(arms[i]);
        i := i + 1;
      }
      assert arms[..i] == arms;
    }

    method VisitArm(arm: Arm)
      modifies this
      ensures nest == old(nest) && score == old(score) + ArmScore(arm, nest, name)
      decreases arm, 0
    {
      match arm {
        case Arm(guard, body) =>
          if guard.Some? {
            VisitExpr(guard.value);
          }
          VisitExpr(body);
      }
    }

    method VisitNested(es: seq<Expr>)
      modifies this
      ensures nest == old(nest) && score == old(score) + AllScore(es, nest + 1, name)
      decreases es, 1
    {
      nest := nest + 1;
      VisitAll(es);
      nest := nest - 1;
    }

    method VisitAll(es: seq<Expr>)
      modifies this
      ensures nest == old(nest) && score == old(score) + AllScore(es, nest, name)
      decreases es, 0
    {
      var i := 0;
      while i < |es|
        invariant i <= |es| && nest == old(nest)
        invariant score == old(score) + AllScore(es[..i], nest, name)
      {
        assert es[..i + 1][..i] == es[..i];
        VisitExpr(es[i]);
        i := i + 1;
      }
      assert es[..i] == es;
    }
  }

  // ---- depth ----

  /** How many `if`, `match`, `for`, `while` and `loop` heads there are; an `else if` is none. */
  function Heads(e: Expr): nat
    decreases e, 1
  {
    match e
    case If(_, _, _) => 1 + IfHeads(e)
    case Match(subject, arms) => 1 + Heads(subject) + ArmsHeads(arms)
    case For(over, body) => 1 + Heads(over) + AllHeads(body)
    case While(cond, body) => 1 + Heads(cond) + AllHeads(body)
    case Loop(body) => 1 + AllHeads(body)
    case Closure(inner) => Heads(inner)
    case Logic(_, left, right) => Heads(left) + Heads(right)
    case Paren(inner) => Heads(inner)
    case Break(_, value) => MaybeHeads(value)
    case Continue(_) => 0
    case Call(callee, args) => Heads(callee) + AllHeads(args)
    case Path(_) => 0
    case Item(body) => AllHeads(body)
    case Macro => 0
    case Other(children) => AllHeads(children)
  }

  /** The heads inside an `if` and the `else if`s that follow it. */
  function IfHeads(e: Expr): nat
    requires e.If?
    decreases e, 0
  {
    Heads(e.cond) + AllHeads(e.body) +
    match e.otherwise
    case None => 0
    case Some(other) => if other.If? then IfHeads(other) else Heads(other)
  }

  function MaybeHeads(e: Option<Expr>): nat {
    match e case None => 0 case Some(x) => Heads(x)
  }

  function AllHeads(es: seq<Expr>): nat {
    if es == [] then 0 else AllHeads(es[..|es| - 1]) + Heads(es[|es| - 1])
  }

  function ArmsHeads(arms: seq<Arm>): nat {
    if arms == [] then 0
    else ArmsHeads(arms[..|arms| - 1]) + ArmHeads(arms[|arms| - 1])
  }

  function ArmHeads(arm: Arm): nat {
    match arm case Arm(guard, body) => MaybeHeads(guard) + Heads(body)
  }

  /** One level deeper, each head costs one more and nothing else does. */
  lemma {:induction false} OneDeeper(e: Expr, n: nat, f: string)
    ensures Score(e, n + 1, f) == Score(e, n, f) + Heads(e)
    decreases e, if e.Logic? then 3 else 1
  {
    match e
    case If(_, _, _) => IfOneDeeper(e, false, n, f);
    case Match(subject, arms) =>
      OneDeeper(subject, n, f);
      ArmsOneDeeper(arms, n + 1, f);
    case For(over, body) =>
      OneDeeper(over, n, f);
      AllOneDeeper(body, n + 1, f);
    case While(cond, body) =>
      OneDeeper(cond, n, f);
      AllOneDeeper(body, n + 1, f);
    case Loop(body) => AllOneDeeper(body, n + 1, f);
    case Closure(inner) => OneDeeper(inner, n + 1, f);
    case Logic(_, _, _) => SeqOneDeeper(e, None, n, f);
    case Paren(inner) => OneDeeper(inner, n, f);
    case Break(_, value) => MaybeOneDeeper(value, n, f);
    case Continue(_) =>
    case Call(callee, args) =>
      OneDeeper(callee, n, f);
      AllOneDeeper(args, n, f);
    case Path(_) =>
    case Item(body) => AllOneDeeper(body, n + 1, f);
    case Macro =>
    case Other(children) => AllOneDeeper(children, n, f);
  }

  lemma {:induction false} IfOneDeeper(e: Expr, elseIf: bool, n: nat, f: string)
    requires e.If?
    ensures IfScore(e, elseIf, n + 1, f) == IfScore(e, elseIf, n, f) + IfHeads(e) + One(!elseIf)
    decreases e, 0
  {
    OneDeeper(e.cond, n, f);
    AllOneDeeper(e.body, n + 1, f);
    match e.otherwise
    case None =>
    case Some(other) =>
      if other.If? {
        IfOneDeeper(other, true, n, f);
      } else {
        OneDeeper(other, n + 1, f);
      }
  }

  lemma {:induction false} SeqOneDeeper(e: Expr, parent: Option<bool>, n: nat, f: string)
    ensures SeqScore(e, parent, n + 1, f) == SeqScore(e, parent, n, f) + Heads(e)
    decreases e, 2
  {
    match e
    case Logic(and, left, right) =>
      SeqOneDeeper(left, Some(and), n, f);
      SeqOneDeeper(right, Some(and), n, f);
    case Paren(inner) => SeqOneDeeper(inner, None, n, f);
    case _ => OneDeeper(e, n, f);
  }

  lemma {:induction false} MaybeOneDeeper(e: Option<Expr>, n: nat, f: string)
    ensures MaybeScore(e, n + 1, f) == MaybeScore(e, n, f) + MaybeHeads(e)
  {
    match e
    case None =>
    case Some(x) => OneDeeper(x, n, f);
  }

  lemma {:induction false} AllOneDeeper(es: seq<Expr>, n: nat, f: string)
    ensures AllScore(es, n + 1, f) == AllScore(es, n, f) + AllHeads(es)
  {
    if es != [] {
      AllOneDeeper(es[..|es| - 1], n, f);
      OneDeeper(es[|es| - 1], n, f);
    }
  }

  lemma {:induction false} ArmsOneDeeper(arms: seq<Arm>, n: nat, f: string)
    ensures ArmsScore(arms, n + 1, f) == ArmsScore(arms, n, f) + ArmsHeads(arms)
  {
    if arms != [] {
      ArmsOneDeeper(arms[..|arms| - 1], n, f);
      ArmOneDeeper(arms[|arms| - 1], n, f);
    }
  }

  lemma {:induction false} ArmOneDeeper(arm: Arm, n: nat, f: string)
    ensures ArmScore(arm, n + 1, f) == ArmScore(arm, n, f) + ArmHeads(arm)
  {
    match arm
    case Arm(guard, body) =>
      MaybeOneDeeper(guard, n, f);
      OneDeeper(body, n, f);
  }

  /** Begun `k` levels deeper, an expression scores `k` more for each head in it. */
  lemma {:induction false} DeeperCostsHeads(e: Expr, n: nat, k: nat, f: string)
    ensures Score(e, n + k, f) == Score(e, n, f) + k * Heads(e)
  {
    if k > 0 {
      DeeperCostsHeads(e, n, k - 1, f);
      OneDeeper(e, n + k - 1, f);
      assert k * Heads(e) == (k - 1) * Heads(e) + Heads(e);
    }
  }

  /** What enclosing an expression costs, besides the score that it has outside: a head costs one and its
      depth, and every enclosing construct one for each head that it takes a level deeper. */
  lemma EnclosingCosts(c: Expr, e: Expr, n: nat, f: string)
    ensures Score(If(c, [e], None), n, f) == 1 + n + Score(c, n, f) + Score(e, n, f) + Heads(e)
    ensures Score(For(c, [e]), n, f) == Score(While(c, [e]), n, f) == Score(If(c, [e], None), n, f)
    ensures Score(Match(c, [Arm(None, e)]), n, f) == Score(If(c, [e], None), n, f)
    ensures Score(Loop([e]), n, f) == 1 + n + Score(e, n, f) + Heads(e)
    ensures Score(Closure(e), n, f) == Score(Item([e]), n, f) == Score(e, n, f) + Heads(e)
  {
    OneDeeper(e, n, f);
    OnlyOne(e, n + 1, f);
    var arm := Arm(None, e);
    assert [arm][..0] == [];
    assert ArmsScore([arm], n + 1, f) == ArmScore(arm, n + 1, f);
  }

  /** An else block costs one and its depth, an `else if` one where a new `if` would cost its head. */
  lemma ElseCosts(c: Expr, b: seq<Expr>, e: Expr, n: nat, f: string)
    ensures !e.If? ==>
              Score(If(c, b, Some(e)), n, f) == Score(If(c, b, None), n, f) + 1 + Score(e, n, f) + Heads(e)
    ensures e.If? ==> Score(If(c, b, Some(e)), n, f) == Score(If(c, b, None), n, f) + Score(e, n, f) - n
  {
    OneDeeper(e, n, f);
    var plain, full := If(c, b, None), If(c, b, Some(e));
    var common := Score(c, n, f) + AllScore(b, n + 1, f);
    assert Score(plain, n, f) == 1 + n + common;
    if e.If? {
      assert IfScore(e, false, n, f) == IfScore(e, true, n, f) + n;
      assert Score(full, n, f) == 1 + n + common + IfScore(e, true, n, f);
    } else {
      assert Score(full, n, f) == 1 + n + common + 1 + Score(e, n + 1, f);
    }
  }

  /** A guard costs what it does a level deeper than its `match`. */
  lemma GuardCosts(c: Expr, e: Expr, n: nat, f: string)
    ensures Score(Match(c, [Arm(Some(e), Macro)]), n, f) == 1 + n + Score(c, n, f) + Score(e, n, f) + Heads(e)
  {
    OneDeeper(e, n, f);
    var arm := Arm(Some(e), Macro);
    assert [arm][..0] == [];
    assert ArmScore(arm, n + 1, f) == Score(e, n + 1, f);
    assert ArmsScore([arm], n + 1, f) == ArmScore(arm, n + 1, f);
  }

  /** What else costs: a labelled jump one; a call of the function itself one and of another none. */
  lemma SmallCosts(value: Option<Expr>, args: seq<Expr>, name: string, n: nat, f: string)
    ensures Score(Break(true, value), n, f) == 1 + MaybeScore(value, n, f)
    ensures Score(Break(false, value), n, f) == MaybeScore(value, n, f)
    ensures Score(Continue(true), n, f) == 1 && Score(Continue(false), n, f) == 0
    ensures Score(Call(Path([name]), args), n, f) == AllScore(args, n, f) + if name == f then 1 else 0
    ensures Score(Call(Path([name, f]), args), n, f) == AllScore(args, n, f)
  {
    var one, two := Path([name]), Path([name, f]);
    assert Score(Call(one, args), n, f) == One(CallsItself(one, f)) + Score(one, n, f) + AllScore(args, n, f);
    assert Score(Call(two, args), n, f) == One(CallsItself(two, f)) + Score(two, n, f) + AllScore(args, n, f);
    assert one.segments[0] == name && |two.segments| == 2;
  }

  lemma OnlyOne(e: Expr, n: nat, f: string)
    ensures AllScore([e], n, f) == Score(e, n, f)
  {
    assert [e][..0] == [];
  }

  /** Writing an `else if` as an `if` in an else block costs a head at its new depth, and one more for
      every head it holds. */
  lemma ElseIfIsCheaper(c: Expr, b: seq<Expr>, inner: Expr, n: nat, f: string)
    requires inner.If?
    ensures Score(If(c, b, Some(Other([inner]))), n, f) == Score(If(c, b, Some(inner)), n, f) + n + 2 + IfHeads(inner)
  {
    var block := [inner];
    assert block[..0] == [] && block[0] == inner;
    assert AllScore(block, n + 1, f) == Score(inner, n + 1, f);
    var nested, chained := If(c, b, Some(Other(block))), If(c, b, Some(inner));
    assert Score(nested, n, f) == 1 + n + Score(c, n, f) + AllScore(b, n + 1, f) + 1 + Score(Other(block), n + 1, f);
    assert Score(chained, n, f) == 1 + n + Score(c, n, f) + AllScore(b, n + 1, f) + IfScore(inner, true, n, f);
    IfOneDeeper(inner, true, n, f);
    assert IfScore(inner, false, n + 1, f) == IfScore(inner, true, n + 1, f) + n + 1;
  }

  // ---- boolean expressions ----

  /** A sequence that continues none is scored as any expression is. */
  lemma {:induction false} FreshSequenceIsVisit(e: Expr, n: nat, f: string)
    ensures SeqScore(e, None, n, f) == Score(e, n, f)
  {
    match e
    case Paren(inner) => FreshSequenceIsVisit(inner, n, f);
    case _ =>
  }

  /** The operators of a boolean expression in the order of the text, not entering parentheses. */
  function Operators(e: Expr): seq<bool> {
    match e
    case Logic(and, left, right) => Operators(left) + [and] + Operators(right)
    case _ => []
  }

  /** The operands between them. */
  function Operands(e: Expr): seq<Expr> {
    match e
    case Logic(_, left, right) => Operands(left) + Operands(right)
    case _ => [e]
  }

  /** How many maximal runs of one operator a text has. */
  function Runs(ops: seq<bool>): nat {
    if ops == [] then 0
    else if |ops| == 1 then 1
    else Runs(ops[1..]) + One(ops[0] != ops[1])
  }

  /** How a parser groups unparenthesised operators: `&&` before `||`, and both from the left. */
  predicate Parsed(e: Expr) {
    e.Logic? ==>
      && Parsed(e.left) && Parsed(e.right)
      && (e.and ==> !e.right.Logic? && (e.left.Logic? ==> e.left.and))
      && (!e.and ==> e.right.Logic? ==> e.right.and)
  }

  /** How many `&&` runs stand between two `||`. */
  function BetweenOrs(e: Expr): nat {
    if e.Logic? && !e.and && e.left.Logic? && !e.left.and
    then BetweenOrs(e.left) + One(e.left.right.Logic?)
    else 0
  }

  /** The increments for operators alone. */
  function Increments(e: Expr, parent: Option<bool>): nat {
    match e
    case Logic(and, left, right) =>
      One(parent != Some(and)) + Increments(left, Some(and)) + Increments(right, Some(and))
    case _ => 0
  }

  lemma {:induction false} AllScoreSum(a: seq<Expr>, b: seq<Expr>, n: nat, f: string)
    ensures AllScore(a + b, n, f) == AllScore(a, n, f) + AllScore(b, n, f)
  {
    if b == [] {
      assert a + b == a;
    } else {
      AllScoreSum(a, b[..|b| - 1], n, f);
      assert (a + b)[..|a + b| - 1] == a + b[..|b| - 1];
    }
  }

  lemma {:induction false} SeqScoreSplits(e: Expr, parent: Option<bool>, n: nat, f: string)
    ensures SeqScore(e, parent, n, f) == Increments(e, parent) + AllScore(Operands(e), n, f)
  {
    match e
    case Logic(and, left, right) =>
      SeqScoreSplits(left, Some(and), n, f);
      SeqScoreSplits(right, Some(and), n, f);
      AllScoreSum(Operands(left), Operands(right), n, f);
    case _ =>
      FreshSequenceIsVisit(e, n, f);
      assert [e][..0] == [];
      assert AllScore([e], n, f) == Score(e, n, f);
  }

  lemma {:induction false} RunsOfSum(a: seq<bool>, b: seq<bool>)
    ensures Runs(a + b) == Runs(a) + Runs(b) - One(a != [] && b != [] && a[|a| - 1] == b[0])
  {
    if a == [] {
      assert a + b == b;
    } else if |a| == 1 {
      assert b == [] ==> a + b == a;
      assert b != [] ==> (a + b)[1..] == b;
    } else {
      RunsOfSum(a[1..], b);
      assert (a + b)[1..] == a[1..] + b;
    }
  }

  /** A group of `&&` alone: one run, one increment. */
  lemma {:induction false} AndGroup(e: Expr)
    requires Parsed(e) && (e.Logic? ==> e.and)
    ensures forall i :: 0 <= i < |Operators(e)| ==> Operators(e)[i]
    ensures Operators(e) == [] <==> !e.Logic?
    ensures Runs(Operators(e)) == One(e.Logic?)
    ensures Increments(e, Some(true)) == 0 && Increments(e, Some(false)) == Increments(e, None) == One(e.Logic?)
  {
    if e.Logic? {
      AndGroup(e.left);
      assert Operators(e) == Operators(e.left) + [true];
      RunsOfSum(Operators(e.left), [true]);
    }
  }

  /** What the visitor adds for the operators of an expression, compared with its runs of one operator in
      the text: the runs of `&&` between two `||` split the `||`s, which the visitor counts as one. */
  lemma {:induction false} IncrementsAgainstRuns(e: Expr)
    requires Parsed(e)
    ensures Runs(Operators(e)) == Increments(e, None) + BetweenOrs(e)
    ensures e.Logic? ==> Operators(e) != []
    ensures e.Logic? && !e.and ==> (Operators(e)[|Operators(e)| - 1] <==> e.right.Logic?)
    ensures e.Logic? && !e.and ==> Increments(e, Some(false)) == Increments(e, None) - 1
  {
    if e.Logic? && e.and {
      AndGroup(e);
    } else if e.Logic? {
      AndGroup(e.right);
      if e.left.Logic? && !e.left.and {
        IncrementsAgainstRuns(e.left);
      } else {
        AndGroup(e.left);
      }
      var front := Operators(e.left) + [false];
      assert Operators(e) == front + Operators(e.right);
      RunsOfSum(front, Operators(e.right));
      RunsOfSum(Operators(e.left), [false]);
    }
  }

  /** A boolean expression scores its operands and one for each run of one operator, except that the
      runs of `||` count as one run; the two agree exactly when no `&&` stands between two `||`. */
  lemma BooleanScore(e: Expr, n: nat, f: string)
    requires Parsed(e) && e.Logic?
    ensures Score(e, n, f) == AllScore(Operands(e), n, f) + Runs(Operators(e)) - BetweenOrs(e)
    ensures Score(e, n, f) == AllScore(Operands(e), n, f) + Runs(Operators(e)) <==> BetweenOrs(e) == 0
  {
    SeqScoreSplits(e, None, n, f);
    IncrementsAgainstRuns(e);
  }

  /** They do differ: `a || b && c || d` has three runs in the text, and two increments. */
  lemma RunsAndIncrementsDiffer(a: Expr, b: Expr, c: Expr, d: Expr, n: nat, f: string)
    requires !a.Logic? && !b.Logic? && !c.Logic? && !d.Logic?
    ensures var e := Logic(false, Logic(false, a, Logic(true, b, c)), d);
            && Parsed(e) && BetweenOrs(e) == 1 && Operators(e) == [false, true, false]
            && Runs(Operators(e)) == 3 && Score(e, n, f) == AllScore([a, b, c, d], n, f) + 2
  {
    var bc := Logic(true, b, c);
    var abc := Logic(false, a, bc);
    var e := Logic(false, abc, d);
    assert Parsed(bc) && Operators(bc) == [true] && Operands(bc) == [b, c];
    assert Parsed(abc) && Operators(abc) == [false, true] && Operands(abc) == [a, b, c];
    assert Operators(e) == [false, true, false] && Operands(e) == [a, b, c, d];
    ThreeRuns();
    BooleanScore(e, n, f);
  }

  lemma ThreeRuns()
    ensures Runs([false, true, false]) == 3
  {
    assert [false, true, false][1..] == [true, false] && [true, false][1..] == [false];
    assert Runs([false]) == 1 && Runs([true, false]) == 2;
  }
}
