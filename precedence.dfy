/** Precedence and associativity of the expression grammar of compiler.hpp:37-41
    on a concrete input: in `1+2*3` the product is an operand of the sum. The
    proof runs every layer of the cascade (`factor`, `term`, `simple_exp` and
    `expr`) through the combinators, one (operator, operand) step at a time. */
module Precedence {
  import opened Optionals
  import opened Parsers
  import opened Helpers
  import opened Numerals
  import opened Ast
  import opened Grammar
  import opened Lexing
  import opened Behaviour

  // ----- one step of a chain -----

  /** `many(q)` where `q` succeeds once and then fails: a list of that one value. */
  lemma ManyOnce<T>(q: Parser<T>, s: Scanner)
    requires Progress(q)
    requires Call(q, Skipping(s)).value.Some?
    requires Call(q, Skipping(Call(q, Skipping(s)).scanner)).value.None?
    ensures Call(Many(q), s) ==
              Reply(Some([Call(q, Skipping(s)).value.value]), Skipping(Call(q, Skipping(s)).scanner))
  {
    var t := Skipping(s);
    SkippingIdempotent(s);
    var first := Call(q, t);
    ManyRunUnfold(q, t);
    ManyRunUnfold(q, first.scanner);
    assert ManyRun(q, first.scanner) == Reply(Some([]), Skipping(first.scanner));
    assert [first.value.value] + [] == [first.value.value];
  }

  /** `seq(op, p)` where both parts succeed: the pair of their values. */
  lemma StepOf<A, B>(op: Parser<A>, p: Parser<B>, s: Scanner)
    requires p.skipWs
    requires Call(op, Skipping(s)).value.Some?
    requires Call(p, Call(op, Skipping(s)).scanner).value.Some?
    ensures var o := Call(op, Skipping(s));
            var v := Call(p, o.scanner);
            Call(Seq2(op, p), s) == Reply(Some((o.value.value, (v.value.value, ()))), Skipping(v.scanner))
  {
    var o := Call(op, Skipping(s));
    SeqConsSpec(op, SeqCons(p, SeqNil()), s);
    TailOfOne(p, o.scanner);
  }

  /** `seq(op, p)` fails where `op` does. */
  lemma StepFails<A, B>(op: Parser<A>, p: Parser<B>, s: Scanner)
    requires Call(op, Skipping(s)).value.None?
    ensures Call(Seq2(op, p), s).value.None?
  {
    SeqConsSpec(op, SeqCons(p, SeqNil()), s);
  }

  /** A binary chain of exactly one (operator, operand) step is one `BinaryOp`. */
  lemma BinaryOnce(p: Parser<Expr>, op: Parser<string>, s: Scanner)
    requires Progress(Seq2(op, p))
    requires Call(p, Skipping(s)).value.Some?
    requires Call(Seq2(op, p), Skipping(Call(p, Skipping(s)).scanner)).value.Some?
    requires var step := Call(Seq2(op, p), Skipping(Call(p, Skipping(s)).scanner));
             Call(Seq2(op, p), Skipping(step.scanner)).value.None?
    ensures var first := Call(p, Skipping(s));
            var step := Call(Seq2(op, p), Skipping(first.scanner));
            Call(BuildBinaryParser(p, op), s) ==
              Reply(Some(BinaryOp(first.value.value, step.value.value.0, step.value.value.1.0)),
                    Skipping(step.scanner))
  {
    var first := Call(p, Skipping(s));
    var step := Call(Seq2(op, p), Skipping(first.scanner));
    BinarySpec(p, op, s);
    ManyOnce(Seq2(op, p), first.scanner);
    SkippingIdempotent(step.scanner);
    var pairs := [step.value.value];
    assert pairs[1..] == [];
    assert FoldBinary(first.value.value, pairs) == BinaryOp(first.value.value, step.value.value.0, step.value.value.1.0);
  }

  /** `alt(lit(a), lit(b))` on input that starts with `a` but not with `b`
      after it: `a`, with the input after `a` left. */
  lemma FirstOfTwoLits(a: string, b: string, s: Scanner)
    requires s.skip
    requires StartsWith(Skipping(s).rest, a)
    requires !StartsWith(SkipSpace(Skipping(s).rest[|a|..]), b)
    ensures Call(Alt([Lit(a), Lit(b)]), s) ==
              Reply(Some(a), Skipping(Skipping(s).(rest := Skipping(s).rest[|a|..])))
  {
    var t := Skipping(s);
    SkippingIdempotent(s);
    var u := t.(rest := t.rest[|a|..]);
    LitSpec(a, t);
    assert Call(Lit(a), t) == Reply(Some(a), u);
    AttemptSpec(Lit(a), t);
    SkippingIdempotent(u);
    LitFails(b, Skipping(u));
    AttemptSpec(Lit(b), Skipping(u));
    AltPair(Lit(a), Lit(b), s);
  }

  /** Neither alternative of `alt(lit(a), lit(b))` matches. */
  lemma NeitherLit(a: string, b: string, s: Scanner)
    requires !StartsWith(Skipping(s).rest, a) && !StartsWith(Skipping(s).rest, b)
    ensures Call(Alt([Lit(a), Lit(b)]), s).value.None?
  {
    var t := Skipping(s);
    SkippingIdempotent(s);
    LitFails(a, t);
    LitFails(b, t);
    AltValue([Lit(a), Lit(b)], s);
  }

  // ----- the text -----

  lemma SumText()
    ensures Skipping(Scanner("1+2*3", true)) == Scanner("1+2*3", true)
    ensures DigitRun("1+2*3") == 1 && "1+2*3"[..1] == "1" && "1+2*3"[1..] == "+2*3"
    ensures AllDigits("1") && DecimalValue("1") == 1
  {
    assert !IsSpace("1+2*3"[0]);
    assert "1+2*3"[1..] == "+2*3";
    assert !IsDigit("+2*3"[0]);
    assert "1"[..0] == "";
  }

  lemma PlusText()
    ensures Skipping(Scanner("+2*3", true)) == Scanner("+2*3", true)
    ensures !IsAlpha("+2*3"[0]) && !StartsWith("+2*3", "(")
    ensures !StartsWith("+2*3", "*") && !StartsWith("+2*3", "/")
    ensures StartsWith("+2*3", "+") && "+2*3"[1..] == "2*3"
    ensures SkipSpace("2*3") == "2*3" && !StartsWith("2*3", "-")
  {
    assert !IsSpace("+2*3"[0]);
    assert "+2*3"[..1] == "+";
    assert "+2*3"[..1] != "(" && "+2*3"[..1] != "*" && "+2*3"[..1] != "/";
    assert !IsSpace("2*3"[0]);
    assert "2*3"[..1] != "-";
  }

  lemma ProductText()
    ensures Skipping(Scanner("2*3", true)) == Scanner("2*3", true)
    ensures DigitRun("2*3") == 1 && "2*3"[..1] == "2" && "2*3"[1..] == "*3"
    ensures AllDigits("2") && DecimalValue("2") == 2
  {
    assert !IsSpace("2*3"[0]);
    assert "2*3"[1..] == "*3";
    assert !IsDigit("*3"[0]);
    assert "2"[..0] == "";
  }

  lemma TimesText()
    ensures Skipping(Scanner("*3", true)) == Scanner("*3", true)
    ensures !IsAlpha("*3"[0]) && !StartsWith("*3", "(")
    ensures StartsWith("*3", "*") && "*3"[1..] == "3"
    ensures SkipSpace("3") == "3" && !StartsWith("3", "/")
  {
    assert !IsSpace("*3"[0]);
    assert "*3"[..1] == "*";
    assert "*3"[..1] != "(";
    assert !IsSpace("3"[0]);
    assert "3"[..1] != "/";
  }

  lemma ThreeText()
    ensures Skipping(Scanner("3", true)) == Scanner("3", true)
    ensures DigitRun("3") == 1 && "3"[..1] == "3" && "3"[1..] == ""
    ensures AllDigits("3") && DecimalValue("3") == 3
    ensures Skipping(Scanner("", true)) == Scanner("", true)
    ensures !StartsWith("", "(") && NoOperatorAhead(Scanner("", true))
  {
    assert !IsSpace("3"[0]);
    assert "3"[..0] == "";
  }

  // ----- the factors -----

  lemma FactorOne(e: Parser<Expr>)
    ensures Call(Factor(e), Scanner("1+2*3", true)) == Reply(Some(Num(1)), Scanner("+2*3", true))
  {
    SumText();
    PlusText();
    FactorOnNumeral(e, Scanner("1+2*3", true));
  }

  lemma FactorTwo(e: Parser<Expr>)
    ensures Call(Factor(e), Scanner("2*3", true)) == Reply(Some(Num(2)), Scanner("*3", true))
  {
    ProductText();
    TimesText();
    FactorOnNumeral(e, Scanner("2*3", true));
  }

  lemma FactorThree(e: Parser<Expr>)
    ensures Call(Factor(e), Scanner("3", true)) == Reply(Some(Num(3)), Scanner("", true))
  {
    ThreeText();
    FactorOnNumeral(e, Scanner("3", true));
  }

  // ----- the operators -----

  lemma PlusRead()
    ensures Call(AddOp(), Scanner("+2*3", true)) == Reply(Some("+"), Scanner("2*3", true))
  {
    PlusText();
    ProductText();
    FirstOfTwoLits("+", "-", Scanner("+2*3", true));
  }

  lemma TimesRead()
    ensures Call(MulOp(), Scanner("*3", true)) == Reply(Some("*"), Scanner("3", true))
  {
    TimesText();
    ThreeText();
    FirstOfTwoLits("*", "/", Scanner("*3", true));
  }

  lemma NoTimesAfterOne()
    ensures Call(MulOp(), Scanner("+2*3", true)).value.None?
  {
    PlusText();
    NeitherLit("*", "/", Scanner("+2*3", true));
  }

  // ----- the layers -----

  /** `term` on `1+2*3` stops before the `+`. */
  lemma TermOne(e: Parser<Expr>)
    requires Sound(e)
    ensures Call(Term(e), Scanner("1+2*3", true)) == Reply(Some(Num(1)), Scanner("+2*3", true))
  {
    SumText();
    PlusText();
    FactorOne(e);
    NoTimesAfterOne();
    FactorSound(e);
    MulOpReady();
    StepProgress(MulOp(), Factor(e));
    BinaryAtEnd(Factor(e), MulOp(), Scanner("1+2*3", true));
  }

  lemma TimesStep(e: Parser<Expr>)
    ensures Call(Seq2(MulOp(), Factor(e)), Scanner("*3", true)) ==
              Reply(Some(("*", (Num(3), ()))), Scanner("", true))
  {
    TimesText();
    ThreeText();
    TimesRead();
    FactorThree(e);
    StepOf(MulOp(), Factor(e), Scanner("*3", true));
  }

  /** `term` on `2*3` is the product. */
  lemma TermTwo(e: Parser<Expr>)
    requires Sound(e)
    ensures Call(Term(e), Scanner("2*3", true)) ==
              Reply(Some(BinaryOp(Num(2), "*", Num(3))), Scanner("", true))
  {
    var empty := Scanner("", true);
    ProductText();
    TimesText();
    ThreeText();
    FactorTwo(e);
    TimesStep(e);
    MulOpFails(empty);
    StepFails(MulOp(), Factor(e), empty);
    FactorSound(e);
    MulOpReady();
    StepProgress(MulOp(), Factor(e));
    BinaryOnce(Factor(e), MulOp(), Scanner("2*3", true));
  }

  lemma PlusStep(e: Parser<Expr>)
    requires Sound(e)
    ensures Call(Seq2(AddOp(), Term(e)), Scanner("+2*3", true)) ==
              Reply(Some(("+", (BinaryOp(Num(2), "*", Num(3)), ()))), Scanner("", true))
  {
    PlusText();
    ThreeText();
    PlusRead();
    TermTwo(e);
    StepOf(AddOp(), Term(e), Scanner("+2*3", true));
  }

  /** `simple_exp` on `1+2*3`: the sum of 1 and the product. */
  lemma SumOfProduct(e: Parser<Expr>)
    requires Sound(e)
    ensures Call(SimpleExp(e), Scanner("1+2*3", true)) ==
              Reply(Some(BinaryOp(Num(1), "+", BinaryOp(Num(2), "*", Num(3)))), Scanner("", true))
  {
    var empty := Scanner("", true);
    SumText();
    PlusText();
    ThreeText();
    TermOne(e);
    PlusStep(e);
    AddOpFails(empty);
    StepFails(AddOp(), Term(e), empty);
    TermSound(e);
    AddOpReady();
    StepProgress(AddOp(), Term(e));
    BinaryOnce(Term(e), AddOp(), Scanner("1+2*3", true));
  }

  lemma ExprOfSum(e: Parser<Expr>)
    requires Sound(e)
    ensures Call(ExprP(e), Scanner("1+2*3", true)) ==
              Reply(Some(BinaryOp(Num(1), "+", BinaryOp(Num(2), "*", Num(3)))), Scanner("", true))
  {
    var empty := Scanner("", true);
    SumText();
    ThreeText();
    SumOfProduct(e);
    RelOpFails(empty);
    SimpleExpSound(e);
    RelOpReady();
    StepProgress(RelOp(), SimpleExp(e));
    BinaryAtEnd(SimpleExp(e), RelOp(), Scanner("1+2*3", true));
  }

  /** `*` binds tighter than `+`: `expr` reads `1+2*3` as `1 + (2 * 3)` and
      consumes all of it (compiler.hpp:37-41). */
  lemma ProductBindsTighter()
    ensures Call(Expression(), Scanner("1+2*3", true)) ==
              Reply(Some(BinaryOp(Num(1), "+", BinaryOp(Num(2), "*", Num(3)))), Scanner("", true))
  {
    ExprRefSound();
    ExprOfSum(ExprRef());
  }
}
