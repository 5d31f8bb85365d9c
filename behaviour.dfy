/** Consequences of the grammar of compiler.hpp:30-50 that follow from the
    engine's semantics: when parsers fail, how a binary chain ends, and the
    effect of `alt` running every alternative. */
module Behaviour {
  import opened Optionals
  import opened Parsers
  import opened Helpers
  import opened Numerals
  import opened Ast
  import opened Grammar
  import opened Lexing

  /** A character that can begin one of the operators of compiler.hpp:39-41. */
  predicate OperatorStart(c: char)
  {
    c == '*' || c == '/' || c == '+' || c == '-' || c == '<' || c == '>' || c == '='
  }

  /** Past the whitespace, nothing that could begin an operator follows. */
  predicate NoOperatorAhead(s: Scanner)
  {
    Skipping(s).rest == [] || !OperatorStart(Skipping(s).rest[0])
  }

  lemma LitFails(text: string, s: Scanner)
    requires !StartsWith(Skipping(s).rest, text)
    ensures Call(Lit(text), s) == Reply(None, Skipping(s))
  {
    LitSpec(text, s);
  }

  /** A literal operator can only match where its first character follows. */
  lemma OperatorLitFails(text: string, s: Scanner)
    requires text != [] && OperatorStart(text[0])
    requires NoOperatorAhead(s)
    ensures Call(Lit(text), s).value.None?
  {
    var t := Skipping(s);
    if t.rest != [] && |text| <= |t.rest| {
      assert t.rest[..|text|][0] == t.rest[0];
    }
    LitSpec(text, s);
  }

  lemma MulOpFails(s: Scanner)
    requires NoOperatorAhead(s)
    ensures Call(MulOp(), s).value.None?
  {
    var t := Skipping(s);
    SkippingIdempotent(s);
    OperatorLitFails("*", t);
    OperatorLitFails("/", t);
    AltValue([Lit("*"), Lit("/")], s);
  }

  lemma AddOpFails(s: Scanner)
    requires NoOperatorAhead(s)
    ensures Call(AddOp(), s).value.None?
  {
    var t := Skipping(s);
    SkippingIdempotent(s);
    OperatorLitFails("+", t);
    OperatorLitFails("-", t);
    AltValue([Lit("+"), Lit("-")], s);
  }

  lemma RelOpFails(s: Scanner)
    requires NoOperatorAhead(s)
    ensures Call(RelOp(), s).value.None?
  {
    var t := Skipping(s);
    SkippingIdempotent(s);
    OperatorLitFails("<=", t);
    OperatorLitFails(">=", t);
    OperatorLitFails("==", t);
    OperatorLitFails(">", t);
    OperatorLitFails("<", t);
    AltValue([Lit("<="), Lit(">="), Lit("=="), Lit(">"), Lit("<")], s);
  }

  /** The value of `alt` when one of its first two alternatives matches. */
  lemma AltLeading<T>(ps: seq<Parser<T>>, s: Scanner)
    requires |ps| >= 2
    ensures var t := Skipping(s);
            Call(ps[0], t).value.Some? ==> Call(Alt(ps), s).value == Call(ps[0], t).value
    ensures var t := Skipping(s);
            Call(ps[0], t).value.None? && Call(ps[1], t).value.Some? ==>
              Call(Alt(ps), s).value == Call(ps[1], t).value
  {
    var t := Skipping(s);
    AltValue(ps, s);
    if Call(ps[0], t).value.None? {
      assert FirstSuccess(ps, t) == FirstSuccess(ps[1..], t);
      assert ps[1..][0] == ps[1];
    }
  }

  /** The two-character relational operators are tried first, so `<=` and
      `>=` are read whole, never as `<` or `>` (compiler.hpp:41). */
  lemma RelOpTakesLonger(s: Scanner)
    requires StartsWith(Skipping(s).rest, "<=") || StartsWith(Skipping(s).rest, ">=")
    ensures Call(RelOp(), s).value == Some(Skipping(s).rest[..2])
  {
    var t := Skipping(s);
    LitSpec("<=", t);
    LitSpec(">=", t);
    AltLeading([Lit("<="), Lit(">="), Lit("=="), Lit(">"), Lit("<")], s);
  }

  /** `seq(lit("("), lazy(expr), lit(")"))` fails, consuming only whitespace,
      where no "(" follows. */
  lemma ParenNeedsOpen(e: Parser<Expr>, s: Scanner)
    requires !StartsWith(Skipping(s).rest, "(")
    ensures Call(Paren(e), s) == Reply(None, Skipping(s))
  {
    var t := Skipping(s);
    SkippingIdempotent(s);
    LitFails("(", t);
    SeqConsSpec(Lit("("), SeqCons(Lazy(e), SeqCons(Lit(")"), SeqNil())), t);
    MappedSpec(Seq3(Lit("("), Lazy(e), Lit(")")), ParenValue, s);
  }

  /** A binary chain whose operand is not followed by its operator is that
      operand alone; the whitespace after it is consumed by the last attempt
      of `many`. */
  lemma BinaryAtEnd(p: Parser<Expr>, op: Parser<string>, s: Scanner)
    requires Progress(Seq2(op, p))
    requires Call(p, Skipping(s)).value.Some?
    requires Call(op, Skipping(Call(p, Skipping(s)).scanner)).value.None?
    ensures Call(BuildBinaryParser(p, op), s) ==
              Reply(Call(p, Skipping(s)).value, Skipping(Call(p, Skipping(s)).scanner))
  {
    var t := Skipping(s);
    SkippingIdempotent(s);
    var first := Call(p, t);
    var u := first.scanner;
    var w := Skipping(u);
    SkippingIdempotent(u);
    var step := Seq2(op, p);
    var many := Many(step);
    SeqConsSpec(op, SeqCons(p, SeqNil()), w);
    assert Call(step, w).value.None?;
    ManyRunUnfold(step, w);
    assert Call(many, u) == Reply(Some([]), w);
    SeqConsSpec(many, SeqNil(), u);
    SeqNilSpec(w);
    SeqConsSpec(p, SeqCons(many, SeqNil()), t);
    MappedSpec(Seq2(p, many), BinaryValue, s);
  }

  // ----- factor -----

  /** The identifier alternative of `factor` fails where no letter follows. */
  lemma NameAlternativeFails(w: Scanner)
    requires Skipping(w) == w
    requires w.rest == [] || !IsAlpha(w.rest[0])
    ensures Call(Attempt(Mapped(IdentifierP(), VarOf)), w) == Reply(None, w)
  {
    AttemptSpec(Mapped(IdentifierP(), VarOf), w);
    MappedSpec(IdentifierP(), VarOf, w);
    IdentifierSpec(w);
  }

  /** The identifier alternative of `factor` reads the whole run of letters
      and digits where a letter follows. */
  lemma NameAlternativeReads(w: Scanner)
    requires Skipping(w) == w
    requires w.rest != [] && IsAlpha(w.rest[0])
    ensures Call(Attempt(Mapped(IdentifierP(), VarOf)), w) ==
              Reply(Some(Var(Identifier(w.rest[..AlnumRun(w.rest)]))), w.(rest := w.rest[AlnumRun(w.rest)..]))
  {
    AttemptSpec(Mapped(IdentifierP(), VarOf), w);
    MappedSpec(IdentifierP(), VarOf, w);
    IdentifierSpec(w);
  }

  /** The number alternative of `factor` on a run of digits. */
  lemma NumberAlternativeReads(t: Scanner)
    requires Skipping(t) == t
    requires DigitRun(t.rest) > 0
    ensures Call(Attempt(NumberP()), t) ==
              Reply(Some(Num(DecimalValue(t.rest[..DigitRun(t.rest)]))), t.(rest := t.rest[DigitRun(t.rest)..]))
  {
    AttemptSpec(NumberP(), t);
    NumberSpec(t);
  }

  lemma ParenAlternativeFails(e: Parser<Expr>, w: Scanner)
    requires Skipping(w) == w
    requires !StartsWith(w.rest, "(")
    ensures Call(Attempt(Paren(e)), w) == Reply(None, w)
  {
    AttemptSpec(Paren(e), w);
    ParenNeedsOpen(e, w);
  }

  /** A numeral followed by neither a letter nor "(" is a `Num` factor; the
      whitespace after it is consumed too. */
  lemma FactorOnNumeral(e: Parser<Expr>, s: Scanner)
    requires var t := Skipping(s); DigitRun(t.rest) > 0
    requires var t := Skipping(s);
             var w := Skipping(t.(rest := t.rest[DigitRun(t.rest)..]));
             (w.rest == [] || !IsAlpha(w.rest[0])) && !StartsWith(w.rest, "(")
    ensures var t := Skipping(s);
            var n := DigitRun(t.rest);
            Call(Factor(e), s) ==
              Reply(Some(Num(DecimalValue(t.rest[..n]))), Skipping(t.(rest := t.rest[n..])))
  {
    var t := Skipping(s);
    SkippingIdempotent(s);
    var n := DigitRun(t.rest);
    var w := Skipping(t.(rest := t.rest[n..]));
    SkippingIdempotent(t.(rest := t.rest[n..]));
    NumberAlternativeReads(t);
    NameAlternativeFails(w);
    ParenAlternativeFails(e, w);
    AltTriple(NumberP(), Mapped(IdentifierP(), VarOf), Paren(e), s);
  }

  /** `alt` runs every alternative: a numeral directly followed by a name is
      the `Num` factor, and the name is consumed with it, its value dropped
      (zpc/parser.hpp:129-136). */
  lemma FactorSwallowsName(e: Parser<Expr>, s: Scanner)
    requires var t := Skipping(s); DigitRun(t.rest) > 0
    requires var t := Skipping(s);
             var w := Skipping(t.(rest := t.rest[DigitRun(t.rest)..]));
             w.rest != [] && IsAlpha(w.rest[0])
    requires var t := Skipping(s);
             var w := Skipping(t.(rest := t.rest[DigitRun(t.rest)..]));
             !StartsWith(Skipping(w.(rest := w.rest[AlnumRun(w.rest)..])).rest, "(")
    ensures var t := Skipping(s);
            var n := DigitRun(t.rest);
            var w := Skipping(t.(rest := t.rest[n..]));
            Call(Factor(e), s) ==
              Reply(Some(Num(DecimalValue(t.rest[..n]))), Skipping(w.(rest := w.rest[AlnumRun(w.rest)..])))
  {
    var t := Skipping(s);
    SkippingIdempotent(s);
    var n := DigitRun(t.rest);
    var w := Skipping(t.(rest := t.rest[n..]));
    SkippingIdempotent(t.(rest := t.rest[n..]));
    var v := w.(rest := w.rest[AlnumRun(w.rest)..]);
    SkippingIdempotent(v);
    NumberAlternativeReads(t);
    NameAlternativeReads(w);
    ParenAlternativeFails(e, Skipping(v));
    AltTriple(NumberP(), Mapped(IdentifierP(), VarOf), Paren(e), s);
  }

  // ----- expressions -----

  /** A factor not followed by an operator is the whole expression: each of
      the three binary layers ends after its first operand. */
  lemma ExprOfFactor(e: Parser<Expr>, s: Scanner)
    requires Sound(e)
    requires Call(Factor(e), s).value.Some?
    requires NoOperatorAhead(Call(Factor(e), s).scanner)
    ensures Call(ExprP(e), s) == Reply(Call(Factor(e), s).value, Skipping(Call(Factor(e), s).scanner))
  {
    var r := Call(Factor(e), s);
    var x := Skipping(r.scanner);
    SkippingIdempotent(r.scanner);
    CallAfterSkipping(Factor(e), s);
    MulOpFails(x);
    AddOpFails(x);
    RelOpFails(x);
    MulOpReady();
    AddOpReady();
    RelOpReady();
    FactorSound(e);
    StepProgress(MulOp(), Factor(e));
    BinaryAtEnd(Factor(e), MulOp(), s);
    assert Call(Term(e), s) == Reply(r.value, x);
    CallAfterSkipping(Term(e), s);
    TermSound(e);
    StepProgress(AddOp(), Term(e));
    BinaryAtEnd(Term(e), AddOp(), s);
    assert Call(SimpleExp(e), s) == Reply(r.value, x);
    CallAfterSkipping(SimpleExp(e), s);
    SimpleExpSound(e);
    StepProgress(RelOp(), SimpleExp(e));
    BinaryAtEnd(SimpleExp(e), RelOp(), s);
  }

  /** A numeral alone, past the whitespace, is parsed by `expr` as that number,
      with all the input consumed. */
  lemma ExpressionOnNumeral(s: Scanner)
    requires AllDigits(Skipping(s).rest) && Skipping(s).rest != []
    ensures Call(Expression(), s) ==
              Reply(Some(Num(DecimalValue(Skipping(s).rest))), Skipping(s).(rest := []))
  {
    var t := Skipping(s);
    DigitRunAll(t.rest);
    assert t.rest[..|t.rest|] == t.rest;
    ExprRefSound();
    FactorOnNumeral(ExprRef(), s);
    ExprOfFactor(ExprRef(), s);
  }

  lemma TwelveXScanners()
    ensures Skipping(Scanner("12x", true)) == Scanner("12x", true)
    ensures Skipping(Scanner("x", true)) == Scanner("x", true)
    ensures Skipping(Scanner("", true)) == Scanner("", true)
  {
    assert !IsSpace("12x"[0]);
    assert !IsSpace("x"[0]);
  }

  lemma TwelveXRuns()
    ensures DigitRun("12x") == 2 && "12x"[..2] == "12" && "12x"[2..] == "x"
    ensures AlnumRun("x") == 1 && "x"[1..] == ""
  {
    assert "12x"[1..] == "2x";
    assert "2x"[1..] == "x";
    assert !IsDigit("x"[0]);
    assert "x"[1..] == "";
  }

  lemma TwelveValue()
    ensures AllDigits("12") && DecimalValue("12") == 12
  {
    assert "12"[..1] == "1";
    assert "1"[..0] == "";
  }

  /** `12x`: the name after the numeral is read and dropped, so the
      expression is `Num(12)` and nothing is left. */
  lemma ExpressionSwallowsName()
    ensures Call(Expression(), Scanner("12x", true)) == Reply(Some(Num(12)), Scanner("", true))
  {
    var s := Scanner("12x", true);
    TwelveXScanners();
    TwelveXRuns();
    TwelveValue();
    ExprRefSound();
    FactorSwallowsName(ExprRef(), s);
    ExprOfFactor(ExprRef(), s);
  }

  // ----- statements -----

  /** The `seq(identifier)` tail of a statement: the name, then the
      whitespace after it. */
  lemma NameTail(u: Scanner)
    requires var w := Skipping(u); w.rest != [] && IsAlpha(w.rest[0])
    ensures var w := Skipping(u);
            var n := AlnumRun(w.rest);
            Call(SeqCons(IdentifierP(), SeqNil()), u) ==
              Reply(Some((Identifier(w.rest[..n]), ())), Skipping(w.(rest := w.rest[n..])))
  {
    var w := Skipping(u);
    SkippingIdempotent(u);
    IdentifierSpec(w);
    CallAfterSkipping(IdentifierP(), u);
    SeqConsSpec(IdentifierP(), SeqNil(), u);
    SeqNilSpec(Call(IdentifierP(), w).scanner);
  }

  /** `read` followed by a name (whitespace between them optional, keywords
      not reserved) is a `read` statement of that name. */
  lemma ReadStmtReads(s: Scanner)
    requires StartsWith(Skipping(s).rest, "read")
    requires var w := Skipping(Skipping(s).(rest := Skipping(s).rest[4..]));
             w.rest != [] && IsAlpha(w.rest[0])
    ensures var w := Skipping(Skipping(s).(rest := Skipping(s).rest[4..]));
            var n := AlnumRun(w.rest);
            Call(ReadStmtP(), s) ==
              Reply(Some(Read(Identifier(w.rest[..n]))), Skipping(w.(rest := w.rest[n..])))
  {
    var t := Skipping(s);
    SkippingIdempotent(s);
    var u := t.(rest := t.rest[4..]);
    LitSpec("read", t);
    assert Call(Lit("read"), t).scanner == u;
    NameTail(u);
    SeqConsSpec(Lit("read"), SeqCons(IdentifierP(), SeqNil()), t);
    MappedSpec(Seq2(Lit("read"), IdentifierP()), ReadValue, s);
  }

  lemma ReadStmtFails(s: Scanner)
    requires !StartsWith(Skipping(s).rest, "read")
    ensures Call(ReadStmtP(), s) == Reply(None, Skipping(s))
  {
    var t := Skipping(s);
    SkippingIdempotent(s);
    LitFails("read", t);
    SeqConsSpec(Lit("read"), SeqCons(IdentifierP(), SeqNil()), t);
    MappedSpec(Seq2(Lit("read"), IdentifierP()), ReadValue, s);
  }

  /** The `seq(p)` tail of a sequence: the value of `p`, then the whitespace
      after it. */
  lemma TailOfOne<T>(p: Parser<T>, u: Scanner)
    requires p.skipWs
    requires Call(p, u).value.Some?
    ensures var e := Call(p, u);
            Call(SeqCons(p, SeqNil()), u) == Reply(Some((e.value.value, ())), Skipping(e.scanner))
  {
    var e := Call(p, u);
    CallAfterSkipping(p, u);
    SeqConsSpec(p, SeqNil(), u);
    SeqNilSpec(e.scanner);
  }

  /** `seq(lit("write"), p) %= new WriteStmt(e)` on input that starts with
      "write" and an expression. */
  lemma WriteOf(p: Parser<Expr>, s: Scanner)
    requires p.skipWs
    requires StartsWith(Skipping(s).rest, "write")
    requires Call(p, Skipping(s).(rest := Skipping(s).rest[5..])).value.Some?
    ensures var e := Call(p, Skipping(s).(rest := Skipping(s).rest[5..]));
            Call(Mapped(Seq2(Lit("write"), p), WriteValue), s) == Reply(Some(Write(e.value.value)), Skipping(e.scanner))
  {
    var t := Skipping(s);
    SkippingIdempotent(s);
    var u := t.(rest := t.rest[5..]);
    LitSpec("write", t);
    assert Call(Lit("write"), t).scanner == u;
    TailOfOne(p, u);
    SeqConsSpec(Lit("write"), SeqCons(p, SeqNil()), t);
    MappedSpec(Seq2(Lit("write"), p), WriteValue, s);
  }

  /** `write` followed by an expression is a `write` statement of it. */
  lemma WriteStmtWrites(s: Scanner)
    requires StartsWith(Skipping(s).rest, "write")
    requires Call(Expression(), Skipping(s).(rest := Skipping(s).rest[5..])).value.Some?
    ensures var e := Call(Expression(), Skipping(s).(rest := Skipping(s).rest[5..]));
            Call(WriteStmtP(), s) == Reply(Some(Write(e.value.value)), Skipping(e.scanner))
  {
    WriteOf(Expression(), s);
  }

  lemma WriteStmtFails(s: Scanner)
    requires !StartsWith(Skipping(s).rest, "write")
    ensures Call(WriteStmtP(), s) == Reply(None, Skipping(s))
  {
    var t := Skipping(s);
    SkippingIdempotent(s);
    LitFails("write", t);
    SeqConsSpec(Lit("write"), SeqCons(Expression(), SeqNil()), t);
    MappedSpec(Seq2(Lit("write"), Expression()), WriteValue, s);
  }

  /** An assignment must begin with a name. */
  lemma AssignStmtFails(s: Scanner)
    requires Skipping(s).rest == [] || !IsAlpha(Skipping(s).rest[0])
    ensures Call(AssignStmtP(), s) == Reply(None, Skipping(s))
  {
    var t := Skipping(s);
    SkippingIdempotent(s);
    IdentifierSpec(t);
    SeqConsSpec(IdentifierP(), SeqCons(Lit(":="), SeqCons(Expression(), SeqNil())), t);
    MappedSpec(Seq3(IdentifierP(), Lit(":="), Expression()), AssignValue, s);
  }

  /** `seq(identifier, lit(":="), p) %= new AssignStmt(id, e)` on input that
      starts with a name, then ":=", then what `p` reads. */
  lemma AssignOf(p: Parser<Expr>, s: Scanner)
    requires p.skipWs
    requires var t := Skipping(s); t.rest != [] && IsAlpha(t.rest[0])
    requires var t := Skipping(s);
             var u := Skipping(t.(rest := t.rest[AlnumRun(t.rest)..]));
             StartsWith(u.rest, ":=") && Call(p, u.(rest := u.rest[2..])).value.Some?
    ensures var t := Skipping(s);
            var n := AlnumRun(t.rest);
            var u := Skipping(t.(rest := t.rest[n..]));
            var e := Call(p, u.(rest := u.rest[2..]));
            Call(Mapped(Seq3(IdentifierP(), Lit(":="), p), AssignValue), s) ==
              Reply(Some(Assign(Identifier(t.rest[..n]), e.value.value)), Skipping(e.scanner))
  {
    var t := Skipping(s);
    SkippingIdempotent(s);
    var n := AlnumRun(t.rest);
    var w := t.(rest := t.rest[n..]);
    var u := Skipping(w);
    var x := u.(rest := u.rest[2..]);
    IdentifierSpec(t);
    SkippingIdempotent(w);
    LitSpec(":=", w);
    assert Call(Lit(":="), w).scanner == x;
    CallAfterSkipping(SeqCons(Lit(":="), SeqCons(p, SeqNil())), w);
    TailOfOne(p, x);
    SeqConsSpec(Lit(":="), SeqCons(p, SeqNil()), u);
    SeqConsSpec(IdentifierP(), SeqCons(Lit(":="), SeqCons(p, SeqNil())), t);
    MappedSpec(Seq3(IdentifierP(), Lit(":="), p), AssignValue, s);
  }

  /** A name, ":=" and an expression make an assignment of that expression to
      that name. */
  lemma AssignStmtAssigns(s: Scanner)
    requires var t := Skipping(s); t.rest != [] && IsAlpha(t.rest[0])
    requires var t := Skipping(s);
             var u := Skipping(t.(rest := t.rest[AlnumRun(t.rest)..]));
             StartsWith(u.rest, ":=") && Call(Expression(), u.(rest := u.rest[2..])).value.Some?
    ensures var t := Skipping(s);
            var n := AlnumRun(t.rest);
            var u := Skipping(t.(rest := t.rest[n..]));
            var e := Call(Expression(), u.(rest := u.rest[2..]));
            Call(AssignStmtP(), s) ==
              Reply(Some(Assign(Identifier(t.rest[..n]), e.value.value)), Skipping(e.scanner))
  {
    AssignOf(Expression(), s);
  }

  // ----- programs -----

  /** `sep_by(p, sep)` where no separator follows the first `p`: a one-element
      list, with the whitespace after it consumed. */
  lemma SepByOne<T, S>(p: Parser<T>, sep: Parser<S>, s: Scanner)
    requires Progress(Seq2(sep, p))
    requires Call(p, Skipping(s)).value.Some?
    requires Call(sep, Skipping(Call(p, Skipping(s)).scanner)).value.None?
    ensures Call(SepBy(p, sep), s) ==
              Reply(Some([Call(p, Skipping(s)).value.value]), Skipping(Call(p, Skipping(s)).scanner))
  {
    var t := Skipping(s);
    SkippingIdempotent(s);
    var first := Call(p, t);
    var u := first.scanner;
    var w := Skipping(u);
    SkippingIdempotent(u);
    var step := Seq2(sep, p);
    var many := Many(step);
    SeqConsSpec(sep, SeqCons(p, SeqNil()), w);
    ManyRunUnfold(step, w);
    assert Call(many, u) == Reply(Some([]), w);
    SeqConsSpec(many, SeqNil(), u);
    SeqNilSpec(w);
    SeqConsSpec(p, SeqCons(many, SeqNil()), t);
    MappedSpec(Seq2(p, many), (x: (T, (seq<(S, (T, ()))>, ()))) => SepByList(x), s);
    var none: seq<(S, (T, ()))> := [];
    assert SepValues(first.value.value, none) == [first.value.value];
  }

  /** `sep_by(p, lit(";")) % new StmtSequence` where no ";" follows the first
      `p`: a sequence of that one statement. */
  lemma SeparatedOne(p: Parser<Stmt>, s: Scanner)
    requires Progress(Seq2(Lit(";"), p))
    requires Call(p, Skipping(s)).value.Some?
    requires !StartsWith(Skipping(Call(p, Skipping(s)).scanner).rest, ";")
    ensures Call(Mapped(SepBy(p, Lit(";")), SequenceOf), s) ==
              Reply(Some(Sequence([Call(p, Skipping(s)).value.value])), Skipping(Call(p, Skipping(s)).scanner))
  {
    var st := Call(p, Skipping(s));
    var w := Skipping(st.scanner);
    SkippingIdempotent(st.scanner);
    LitFails(";", w);
    SepByOne(p, Lit(";"), s);
    SkippingIdempotent(s);
    MappedSpec(SepBy(p, Lit(";")), SequenceOf, s);
  }

  lemma StatementProgress()
    ensures Progress(Seq2(Lit(";"), Statement()))
  {
    StatementSound();
    LitProgress(";");
    StepProgress(Lit(";"), Statement());
  }

  /** A statement not followed by ";" is the whole statement sequence. */
  lemma SequenceOfOne(s: Scanner)
    requires Call(Statement(), Skipping(s)).value.Some?
    requires !StartsWith(Skipping(Call(Statement(), Skipping(s)).scanner).rest, ";")
    ensures Call(StmtSequenceP(), s) ==
              Reply(Some(Sequence([Call(Statement(), Skipping(s)).value.value])),
                    Skipping(Call(Statement(), Skipping(s)).scanner))
  {
    StatementProgress();
    SeparatedOne(Statement(), s);
  }

  /** Whatever `eof(sep_by(p, lit(";")) % new StmtSequence)` accepts is a
      sequence of at least one statement, starting with the `p` at the front,
      after which no input is left (zpc/helper.hpp:53-69). */
  lemma WholeSequence(p: Parser<Stmt>, s: Scanner)
    requires Progress(Seq2(Lit(";"), p))
    ensures var r := Call(Eof(Mapped(SepBy(p, Lit(";")), SequenceOf)), s);
            var first := Call(p, Skipping(s));
            r.value.Some? ==>
              && r.scanner.rest == []
              && first.value.Some?
              && r.value.value.Sequence?
              && |r.value.value.stmts| >= 1
              && r.value.value.stmts[0] == first.value.value
  {
    var t := Skipping(s);
    SkippingIdempotent(s);
    EofSpec(Mapped(SepBy(p, Lit(";")), SequenceOf), s);
    MappedSpec(SepBy(p, Lit(";")), SequenceOf, t);
    SepBySpec(p, Lit(";"), t);
  }

  /** A program the parser accepts consumed the whole input and is a sequence
      of one or more statements, the first of which is the statement at the
      start of the input (compiler.hpp:46-49). */
  lemma ParseShape(input: string)
    ensures var r := Parse(input);
            r.value.Some? ==>
              && r.scanner.rest == []
              && r.value.value.Sequence?
              && |r.value.value.stmts| >= 1
              && Call(Statement(), Skipping(Scanner(input, true))).value == Some(r.value.value.stmts[0])
  {
    StatementProgress();
    WholeSequence(Statement(), Scanner(input, true));
  }

  /** `eof(p)` after a `p` that consumed everything. */
  lemma EofAfter<T>(p: Parser<T>, s: Scanner)
    requires p.skipWs
    requires Call(p, s).value.Some? && Call(p, s).scanner.rest == []
    ensures Call(Eof(p), s) == Call(p, s)
  {
    EofSpec(p, s);
    CallAfterSkipping(p, s);
  }

  /** `eof(sep_by(p, lit(";")) % new StmtSequence)` over one `p` that leaves only
      whitespace: a sequence of that one statement. */
  lemma WholeSequenceOfOne(p: Parser<Stmt>, s: Scanner)
    requires Progress(Seq2(Lit(";"), p))
    requires Call(p, Skipping(s)).value.Some?
    requires Skipping(Call(p, Skipping(s)).scanner).rest == []
    ensures Call(Eof(Mapped(SepBy(p, Lit(";")), SequenceOf)), s) ==
              Reply(Some(Sequence([Call(p, Skipping(s)).value.value])), Skipping(Call(p, Skipping(s)).scanner))
  {
    SeparatedOne(p, s);
    EofAfter(Mapped(SepBy(p, Lit(";")), SequenceOf), s);
  }

  /** A single statement followed by nothing but whitespace is a whole program. */
  lemma ProgramOfOne(s: Scanner)
    requires Call(Statement(), Skipping(s)).value.Some?
    requires Skipping(Call(Statement(), Skipping(s)).scanner).rest == []
    ensures Call(ProgramP(), s) ==
              Reply(Some(Sequence([Call(Statement(), Skipping(s)).value.value])),
                    Skipping(Call(Statement(), Skipping(s)).scanner))
  {
    StatementProgress();
    WholeSequenceOfOne(Statement(), s);
  }

  // ----- whole programs -----

  lemma WriteFiveText()
    ensures Skipping(Scanner("write 5", true)) == Scanner("write 5", true)
    ensures StartsWith("write 5", "write") && !StartsWith("write 5", "read")
    ensures "write 5"[5..] == " 5"
    ensures Skipping(Scanner(" 5", true)) == Scanner("5", true)
    ensures AllDigits("5") && DecimalValue("5") == 5
    ensures Skipping(Scanner("", true)) == Scanner("", true)
  {
    assert "write 5"[..5] == "write";
    assert "write 5"[..4] != "read" by {
      assert "write 5"[..4][0] == 'w';
    }
    assert " 5"[1..] == "5";
    assert !IsSpace("write 5"[0]);
    assert "5"[..0] == "";
  }

  lemma WriteFiveWrite()
    ensures Call(WriteStmtP(), Scanner("write 5", true)) == Reply(Some(Write(Num(5))), Scanner("", true))
  {
    WriteFiveText();
    ExpressionOnNumeral(Scanner(" 5", true));
    WriteStmtWrites(Scanner("write 5", true));
  }

  /** `alt(p, q, r)` from the replies of its three `attempt`s. */
  lemma AltOfSteps<T>(p: Parser<T>, q: Parser<T>, r: Parser<T>, s: Scanner, a: Reply<T>, b: Reply<T>, c: Reply<T>)
    requires Call(Attempt(p), Skipping(s)) == a
    requires Call(Attempt(q), Skipping(a.scanner)) == b
    requires Call(Attempt(r), Skipping(b.scanner)) == c
    ensures Call(Alt([p, q, r]), s) == Reply(OrElse(a.value, OrElse(b.value, c.value)), Skipping(c.scanner))
  {
    AltTriple(p, q, r, s);
  }

  lemma ReadAttemptFails(s: Scanner)
    requires Skipping(s) == s && !StartsWith(s.rest, "read")
    ensures Call(Attempt(ReadStmtP()), s) == Reply(None, s)
  {
    ReadStmtFails(s);
    AttemptSpec(ReadStmtP(), s);
  }

  lemma WriteAttemptFails(s: Scanner)
    requires Skipping(s) == s && !StartsWith(s.rest, "write")
    ensures Call(Attempt(WriteStmtP()), s) == Reply(None, s)
  {
    WriteStmtFails(s);
    AttemptSpec(WriteStmtP(), s);
  }

  lemma AssignAttemptAtEnd()
    ensures Call(Attempt(AssignStmtP()), Scanner("", true)) == Reply(None, Scanner("", true))
  {
    var empty := Scanner("", true);
    assert Skipping(empty) == empty;
    AssignStmtFails(empty);
    AttemptSpec(AssignStmtP(), empty);
  }

  lemma WriteFiveAttempt()
    ensures Call(Attempt(WriteStmtP()), Scanner("write 5", true)) == Reply(Some(Write(Num(5))), Scanner("", true))
  {
    WriteFiveText();
    WriteFiveWrite();
    AttemptSpec(WriteStmtP(), Scanner("write 5", true));
  }

  lemma WriteFiveStatement()
    ensures Call(Statement(), Scanner("write 5", true)) == Reply(Some(Write(Num(5))), Scanner("", true))
  {
    var s := Scanner("write 5", true);
    var empty := Scanner("", true);
    WriteFiveText();
    ReadAttemptFails(s);
    WriteFiveAttempt();
    AssignAttemptAtEnd();
    AltOfSteps(ReadStmtP(), WriteStmtP(), AssignStmtP(), s,
               Reply(None, s), Reply(Some(Write(Num(5))), empty), Reply(None, empty));
  }

  /** `write 5` is one `write` statement of the number 5. */
  lemma ParseWriteFive()
    ensures Parse("write 5") == Reply(Some(Sequence([Write(Num(5))])), Scanner("", true))
  {
    WriteFiveText();
    WriteFiveStatement();
    ProgramOfOne(Scanner("write 5", true));
  }

  lemma ReadXText()
    ensures Skipping(Scanner("readx", true)) == Scanner("readx", true)
    ensures StartsWith("readx", "read") && "readx"[4..] == "x"
    ensures Skipping(Scanner("x", true)) == Scanner("x", true)
    ensures AlnumRun("x") == 1 && "x"[..1] == "x" && "x"[1..] == ""
    ensures Skipping(Scanner("", true)) == Scanner("", true)
    ensures !StartsWith("", "read") && !StartsWith("", "write")
  {
    assert "readx"[..4] == "read";
    assert !IsSpace("readx"[0]);
    assert !IsSpace("x"[0]);
    assert "x"[1..] == "";
  }

  lemma ReadXAttempt()
    ensures Call(Attempt(ReadStmtP()), Scanner("readx", true)) == Reply(Some(Read(Identifier("x"))), Scanner("", true))
  {
    var s := Scanner("readx", true);
    ReadXText();
    ReadStmtReads(s);
    AttemptSpec(ReadStmtP(), s);
  }

  lemma ReadXStatement()
    ensures Call(Statement(), Scanner("readx", true)) == Reply(Some(Read(Identifier("x"))), Scanner("", true))
  {
    var s := Scanner("readx", true);
    var empty := Scanner("", true);
    ReadXText();
    ReadXAttempt();
    WriteAttemptFails(empty);
    AssignAttemptAtEnd();
    AltOfSteps(ReadStmtP(), WriteStmtP(), AssignStmtP(), s,
               Reply(Some(Read(Identifier("x"))), empty), Reply(None, empty), Reply(None, empty));
  }

  /** Keywords are not reserved and need no space after them: `readx` is
      `read x`. */
  lemma ParseReadGlued()
    ensures Parse("readx") == Reply(Some(Sequence([Read(Identifier("x"))])), Scanner("", true))
  {
    ReadXText();
    ReadXStatement();
    ProgramOfOne(Scanner("readx", true));
  }

  lemma ReadThenWriteText()
    ensures Skipping(Scanner("read x write 5", true)) == Scanner("read x write 5", true)
    ensures StartsWith("read x write 5", "read") && "read x write 5"[4..] == " x write 5"
    ensures Skipping(Scanner(" x write 5", true)) == Scanner("x write 5", true)
  {
    assert "read x write 5"[..4] == "read";
    assert !IsSpace("read x write 5"[0]);
    assert " x write 5"[1..] == "x write 5";
    assert !IsSpace("x write 5"[0]);
  }

  lemma NameThenWriteText()
    ensures AlnumRun("x write 5") == 1 && "x write 5"[..1] == "x" && "x write 5"[1..] == " write 5"
    ensures Skipping(Scanner(" write 5", true)) == Scanner("write 5", true)
  {
    assert "x write 5"[1..] == " write 5";
    assert " write 5"[1..] == "write 5";
    assert !IsSpace("write 5"[0]);
    assert !IsAlnum(" write 5"[0]);
  }

  lemma ReadThenWriteAttempt()
    ensures Call(Attempt(ReadStmtP()), Scanner("read x write 5", true)) ==
              Reply(Some(Read(Identifier("x"))), Scanner("write 5", true))
  {
    var s := Scanner("read x write 5", true);
    ReadThenWriteText();
    NameThenWriteText();
    ReadStmtReads(s);
    AttemptSpec(ReadStmtP(), s);
  }

  lemma ReadThenWriteStatement()
    ensures Call(Statement(), Scanner("read x write 5", true)) ==
              Reply(Some(Read(Identifier("x"))), Scanner("", true))
  {
    var s := Scanner("read x write 5", true);
    var w := Scanner("write 5", true);
    var empty := Scanner("", true);
    ReadThenWriteText();
    ReadThenWriteAttempt();
    WriteFiveText();
    WriteFiveAttempt();
    AssignAttemptAtEnd();
    AltOfSteps(ReadStmtP(), WriteStmtP(), AssignStmtP(), s,
               Reply(Some(Read(Identifier("x"))), w), Reply(Some(Write(Num(5))), empty), Reply(None, empty));
  }

  /** `alt` runs every alternative: in `read x write 5` the `write` statement
      is read by the same `statement` call as `read x`, and its value is
      dropped; the program is the `read` alone, and nothing is left over. */
  lemma ParseDropsStatement()
    ensures Parse("read x write 5") ==
              Reply(Some(Sequence([Read(Identifier("x"))])), Scanner("", true))
  {
    ReadThenWriteText();
    ReadThenWriteStatement();
    WriteFiveText();
    ProgramOfOne(Scanner("read x write 5", true));
  }
}
