/** Precedence and associativity of the expression grammar of compiler.hpp:37-41
    on every input without parentheses: `*` and `/` bind tighter than `+` and
    `-`, which bind tighter than the relational operators, and each level
    associates to the left. The result of `expr` is a tree whose every
    operator has, as its left operand, a tree of the same or a tighter level
    and, as its right operand, a tree of a strictly tighter level. Where "("
    appears, a parenthesised factor is the whole `expr` read inside it. */
module Ranking {
  import opened Optionals
  import opened Parsers
  import opened Helpers
  import opened Ast
  import opened Grammar
  import opened Lexing
  import opened Behaviour

  // ----- levels -----

  /** The level of an operator: 1 for `*` and `/` (`term`), 2 for `+` and `-`
      (`simple_exp`), 3 for the relational operators (`expr`); an operator the
      grammar never reads is put below all of them. */
  function OpRank(op: string): nat
  {
    if op == "*" || op == "/" then 1
    else if op == "+" || op == "-" then 2
    else if op == "<=" || op == ">=" || op == "==" || op == ">" || op == "<" then 3
    else 4
  }

  /** The level of a tree: that of its root operator, 0 for a leaf. */
  function Rank(e: Expr): nat
  {
    if e.BinaryOp? then OpRank(e.op) else 0
  }

  /** Every operator of the tree has a left operand of its own level or a tighter
      one and a right operand of a strictly tighter level: the shape a
      left-associative precedence cascade produces. */
  predicate Ranked(e: Expr)
  {
    match e
    case BinaryOp(l, op, r) =>
      Rank(l) <= OpRank(op) && Rank(r) < OpRank(op) && Ranked(l) && Ranked(r)
    case _ => true
  }

  /** An absent tree, or a well-ranked tree of level at most `k`. */
  predicate RankedUpTo(v: Optional<Expr>, k: nat)
  {
    v.Some? ==> Ranked(v.value) && Rank(v.value) <= k
  }

  /** A number or a variable. */
  predicate Leaf(e: Expr)
  {
    e.Num? || e.Var?
  }

  /** No "(" anywhere in the text. */
  predicate NoOpenParen(text: string)
  {
    forall i :: 0 <= i < |text| ==> text[i] != '('
  }

  /** One (operator, operand) pair of a chain at level `k`. */
  predicate RankedStep(k: nat, x: (string, (Expr, ())))
  {
    OpRank(x.0) == k && Ranked(x.1.0) && Rank(x.1.0) < k
  }

  // ----- the fold of a chain -----

  /** Folding (operator, operand) pairs of level `k` to the left onto a tree of
      level at most `k` keeps the shape and the level. */
  lemma {:induction false} FoldRanked(e: Expr, pairs: seq<(string, (Expr, ()))>, k: nat)
    requires 1 <= k
    requires Ranked(e) && Rank(e) <= k
    requires forall i :: 0 <= i < |pairs| ==> RankedStep(k, pairs[i])
    ensures Ranked(FoldBinary(e, pairs)) && Rank(FoldBinary(e, pairs)) <= k
    decreases |pairs|
  {
    if pairs != [] {
      var next := BinaryOp(e, pairs[0].0, pairs[0].1.0);
      assert RankedStep(k, pairs[0]);
      assert forall i :: 0 <= i < |pairs[1..]| ==> pairs[1..][i] == pairs[i + 1];
      FoldRanked(next, pairs[1..], k);
    }
  }

  // ----- scanners without "(" -----

  lemma NoOpenParenKeeps(s: Scanner, t: Scanner)
    requires NoOpenParen(s.rest) && Keeps(s, t)
    ensures NoOpenParen(t.rest)
  {
    forall i | 0 <= i < |t.rest| ensures t.rest[i] != '(' {
      assert t.rest[i] == s.rest[|s.rest| - |t.rest| + i];
    }
  }

  /** Skipping whitespace leaves a suffix behind. */
  lemma KeepsSkipping(s: Scanner)
    ensures Keeps(s, Skipping(s))
  {
  }

  // ----- the operators -----

  /** A property every alternative's value has is one the value of ordered
      choice has. */
  lemma ChoiceOf<T>(ps: seq<Parser<T>>, s: Scanner, P: T -> bool)
    requires forall i :: 0 <= i < |ps| && Call(ps[i], Skipping(s)).value.Some? ==>
               P(Call(ps[i], Skipping(s)).value.value)
    ensures Call(Alt(ps), s).value.Some? ==> P(Call(Alt(ps), s).value.value)
  {
    AltValue(ps, s);
    FirstSuccessIsOne(ps, Skipping(s));
  }

  /** A literal that succeeds gives its own text. */
  lemma LitRank(text: string, t: Scanner, k: nat)
    requires OpRank(text) == k
    ensures Call(Lit(text), t).value.Some? ==> OpRank(Call(Lit(text), t).value.value) == k
  {
    LitSpec(text, t);
  }

  lemma MulOpRank(s: Scanner)
    ensures Call(MulOp(), s).value.Some? ==> OpRank(Call(MulOp(), s).value.value) == 1
  {
    var t := Skipping(s);
    LitRank("*", t, 1);
    LitRank("/", t, 1);
    ChoiceOf([Lit("*"), Lit("/")], s, x => OpRank(x) == 1);
  }

  lemma AddOpRank(s: Scanner)
    ensures Call(AddOp(), s).value.Some? ==> OpRank(Call(AddOp(), s).value.value) == 2
  {
    var t := Skipping(s);
    LitRank("+", t, 2);
    LitRank("-", t, 2);
    ChoiceOf([Lit("+"), Lit("-")], s, x => OpRank(x) == 2);
  }

  lemma RelOpRank(s: Scanner)
    ensures Call(RelOp(), s).value.Some? ==> OpRank(Call(RelOp(), s).value.value) == 3
  {
    var t := Skipping(s);
    LitRank("<=", t, 3);
    LitRank(">=", t, 3);
    LitRank("==", t, 3);
    LitRank(">", t, 3);
    LitRank("<", t, 3);
    ChoiceOf([Lit("<="), Lit(">="), Lit("=="), Lit(">"), Lit("<")], s, x => OpRank(x) == 3);
  }

  // ----- one layer of the cascade -----

  /** `factor` on text without "(" is a number or a variable: the
      parenthesised alternative cannot start. */
  lemma FactorLeaf(e: Parser<Expr>, s: Scanner)
    requires NoOpenParen(s.rest)
    ensures Call(Factor(e), s).value.Some? ==> Leaf(Call(Factor(e), s).value.value)
  {
    var t := Skipping(s);
    KeepsSkipping(s);
    NoOpenParenKeeps(s, t);
    SkippingIdempotent(s);
    assert t.rest != [] ==> t.rest[0] != '(';
    ParenNeedsOpen(e, t);
    DigitsSound();
    MappedSpec(Atom(Raw(Digits())), NumOf, t);
    MappedSpec(IdentifierP(), VarOf, t);
    ChoiceOf([NumberP(), Mapped(IdentifierP(), VarOf), Paren(e)], s, Leaf);
  }

  /** The value of `seq(op, p)`: `op`'s value, then `p`'s, each read on a
      scanner reached from `t`. */
  lemma StepParts(op: Parser<string>, p: Parser<Expr>, t: Scanner)
    requires Sound(op)
    ensures var o := Call(op, Skipping(t));
            var q := Call(p, Skipping(o.scanner));
            Call(Seq2(op, p), t).value.Some? ==>
              && o.value.Some? && q.value.Some?
              && Call(Seq2(op, p), t).value.value == (o.value.value, (q.value.value, ()))
              && Keeps(t, Skipping(t)) && Keeps(t, Skipping(o.scanner))
  {
    var o := Call(op, Skipping(t));
    SeqConsSpec(op, SeqCons(p, SeqNil()), t);
    SeqConsSpec(p, SeqNil(), o.scanner);
    KeepsSkipping(t);
    CallKeeps(op, Skipping(t));
    KeepsTransitive(t, Skipping(t), o.scanner);
    KeepsSkipping(o.scanner);
    KeepsTransitive(t, o.scanner, Skipping(o.scanner));
  }

  /** A chain `p (op p)*` whose operands are of a tighter level than `k` and
      whose operators are all of level `k` gives a tree of level at most `k`. */
  lemma BinaryRanked(p: Parser<Expr>, op: Parser<string>, k: nat, s: Scanner)
    requires 1 <= k
    requires Sound(p) && Sound(op) && Progress(Seq2(op, p))
    requires forall t :: Keeps(s, t) && Call(p, t).value.Some? ==>
               Ranked(Call(p, t).value.value) && Rank(Call(p, t).value.value) < k
    requires forall t :: Keeps(s, t) && Call(op, t).value.Some? ==>
               OpRank(Call(op, t).value.value) == k
    ensures var r := Call(BuildBinaryParser(p, op), s);
            RankedUpTo(r.value, k)
  {
    BinarySpec(p, op, s);
    var first := Call(p, Skipping(s));
    if first.value.Some? {
      KeepsSkipping(s);
      CallKeeps(p, Skipping(s));
      KeepsTransitive(s, Skipping(s), first.scanner);
      var u := Skipping(first.scanner);
      KeepsSkipping(first.scanner);
      KeepsTransitive(s, first.scanner, u);
      StepSound(op, p);
      forall t | Keeps(u, t) && Call(Seq2(op, p), t).value.Some?
        ensures RankedStep(k, Call(Seq2(op, p), t).value.value)
      {
        StepParts(op, p, t);
        var o := Call(op, Skipping(t));
        KeepsTransitive(s, u, t);
        KeepsTransitive(s, t, Skipping(t));
        KeepsTransitive(s, t, Skipping(o.scanner));
      }
      ManyRunAll(Seq2(op, p), u, x => RankedStep(k, x));
      FoldRanked(first.value.value, ManyRun(Seq2(op, p), u).value.value, k);
    }
  }

  // ----- the cascade -----

  /** `term` on text without "(" is a left-leaning chain of `*` and `/` over
      numbers and variables. */
  lemma TermRanked(e: Parser<Expr>, s: Scanner)
    requires Sound(e) && NoOpenParen(s.rest)
    ensures var r := Call(Term(e), s);
            RankedUpTo(r.value, 1)
  {
    forall t | Keeps(s, t) && Call(Factor(e), t).value.Some?
      ensures Ranked(Call(Factor(e), t).value.value) && Rank(Call(Factor(e), t).value.value) < 1
    {
      NoOpenParenKeeps(s, t);
      FactorLeaf(e, t);
    }
    forall t | Keeps(s, t) && Call(MulOp(), t).value.Some?
      ensures OpRank(Call(MulOp(), t).value.value) == 1
    {
      MulOpRank(t);
    }
    FactorSound(e);
    MulOpReady();
    StepProgress(MulOp(), Factor(e));
    BinaryRanked(Factor(e), MulOp(), 1, s);
  }

  /** `simple_exp` on text without "(": `+` and `-` over terms, to the left. */
  lemma SimpleExpRanked(e: Parser<Expr>, s: Scanner)
    requires Sound(e) && NoOpenParen(s.rest)
    ensures var r := Call(SimpleExp(e), s);
            RankedUpTo(r.value, 2)
  {
    forall t | Keeps(s, t) && Call(Term(e), t).value.Some?
      ensures Ranked(Call(Term(e), t).value.value) && Rank(Call(Term(e), t).value.value) < 2
    {
      NoOpenParenKeeps(s, t);
      TermRanked(e, t);
    }
    forall t | Keeps(s, t) && Call(AddOp(), t).value.Some?
      ensures OpRank(Call(AddOp(), t).value.value) == 2
    {
      AddOpRank(t);
    }
    TermSound(e);
    AddOpReady();
    StepProgress(AddOp(), Term(e));
    BinaryRanked(Term(e), AddOp(), 2, s);
  }

  /** `expr` on text without "(": relational operators over simple
      expressions, to the left. */
  lemma ExprPRanked(e: Parser<Expr>, s: Scanner)
    requires Sound(e) && NoOpenParen(s.rest)
    ensures var r := Call(ExprP(e), s);
            RankedUpTo(r.value, 3)
  {
    forall t | Keeps(s, t) && Call(SimpleExp(e), t).value.Some?
      ensures Ranked(Call(SimpleExp(e), t).value.value) && Rank(Call(SimpleExp(e), t).value.value) < 3
    {
      NoOpenParenKeeps(s, t);
      SimpleExpRanked(e, t);
    }
    forall t | Keeps(s, t) && Call(RelOp(), t).value.Some?
      ensures OpRank(Call(RelOp(), t).value.value) == 3
    {
      RelOpRank(t);
    }
    SimpleExpSound(e);
    RelOpReady();
    StepProgress(RelOp(), SimpleExp(e));
    BinaryRanked(SimpleExp(e), RelOp(), 3, s);
  }

  /** Every expression `expr` reads from text without "(" respects the
      precedence and the left associativity of the operators. */
  lemma ExpressionRanked(s: Scanner)
    requires NoOpenParen(s.rest)
    ensures var r := Call(Expression(), s);
            RankedUpTo(r.value, 3)
  {
    ExprRefSound();
    ExprPRanked(ExprRef(), s);
  }

  // ----- parentheses -----

  /** The reply of a parenthesised factor whose inner tree `e` read as
      `inner`: that tree, with ")" and the whitespace after it consumed, when
      ")" follows it; otherwise a failure that consumed only the whitespace
      before "(" and is left at `start`. */
  function Closed(inner: Reply<Expr>, start: Scanner): Reply<Expr>
  {
    var close := Call(Lit(")"), inner.scanner);
    if inner.value.Some? && close.value.Some? then Reply(inner.value, Skipping(close.scanner))
    else Reply(None, start)
  }

  /** `seq(lit("("), lazy(e), lit(")")) % …` on text that is "(" and then
      `u`: the tree `e` reads from `u` when ")" follows it. */
  lemma ParenRead(e: Parser<Expr>, t: Scanner, u: Scanner)
    requires Skipping(t) == t
    requires t.rest == "(" + u.rest && u.skip == t.skip
    ensures var r := Call(Paren(e), t);
            var inner := Call(e, Skipping(u));
            && (r.value.Some? <==> Closed(inner, t).value.Some?)
            && (r.value.Some? ==> r == Closed(inner, t))
  {
    var inner := Call(e, Skipping(u));
    assert t.rest[1..] == u.rest;
    MappedSpec(Seq3(Lit("("), Lazy(e), Lit(")")), ParenValue, t);
    LitSpec("(", t);
    assert Call(Lit("("), t).value.value == "(";
    assert Call(Lit("("), t).scanner == u;
    SeqConsSpec(Lit("("), SeqCons(Lazy(e), SeqCons(Lit(")"), SeqNil())), t);
    SeqConsSpec(Lazy(e), SeqCons(Lit(")"), SeqNil()), u);
    SeqConsSpec(Lit(")"), SeqNil(), inner.scanner);
    CallAfterSkipping(Lit(")"), inner.scanner);
    SeqNilSpec(Call(Lit(")"), inner.scanner).scanner);
  }

  /** A factor whose text, past the whitespace, is "(" and then `u` is the
      tree `e` reads from `u`, whatever its level, provided ")" follows;
      otherwise the factor fails. */
  lemma FactorOfParen(e: Parser<Expr>, s: Scanner, u: Scanner)
    requires Skipping(s).rest == "(" + u.rest && u.skip == s.skip
    ensures var inner := Call(e, Skipping(u));
            Call(Factor(e), s) == Closed(inner, Skipping(s))
  {
    var t := Skipping(s);
    SkippingIdempotent(s);
    assert t.rest[0] == '(';
    var inner := Call(e, Skipping(u));
    AttemptSpec(NumberP(), t);
    NumberSpec(t);
    NameAlternativeFails(t);
    AttemptSpec(Paren(e), t);
    ParenRead(e, t, u);
    AltTriple(NumberP(), Mapped(IdentifierP(), VarOf), Paren(e), s);
    SkippingIdempotent(Call(Lit(")"), inner.scanner).scanner);
  }

  /** Parentheses restart the cascade at `expr`: inside `factor` they give the
      whole expression read after "(" when ")" follows it. */
  lemma ParenthesesRestart(s: Scanner, u: Scanner)
    requires Skipping(s).rest == "(" + u.rest && u.skip == s.skip
    ensures var inner := Call(Expression(), u);
            Call(Factor(ExprRef()), s) == Closed(inner, Skipping(s))
  {
    ExprRefAfterSkipping(u);
    FactorOfParen(ExprRef(), s, u);
  }

  /** The knot, called past the whitespace, answers as `expr` does. */
  lemma ExprRefAfterSkipping(u: Scanner)
    ensures Call(ExprRef(), Skipping(u)) == Call(Expression(), u)
  {
    ExprRefFixpoint(Skipping(u));
    CallAfterSkipping(Expression(), u);
  }
}
