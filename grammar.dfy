/** Model of `build_binary_parser` and `build_parser` of compiler.hpp: the
    grammar of the language, built from the combinators.

    The C++ ties the recursive knot through a `static Parser<Expr*> expr` that
    `factor` reads through `lazy(expr)` before `expr` is assigned. Here the
    grammar is written as a function `ExprP(e)` of the parser that `lazy` reads,
    and the parser `expr` ends up holding is `ExprRef()`: on an input of `n`
    characters it runs the `n + 1`-th unfolding `Approx(n + 1)` of `ExprP`. The
    lemmas `ExprRefFixpoint` and `ExprRefUnique` show that this is what the
    assignment produces: `ExprP(ExprRef())` answers exactly as `ExprRef()`
    does, and every sound parser with that property answers the same. */
module Grammar {
  import opened Optionals
  import opened Parsers
  import opened Helpers
  import opened Numerals
  import opened Ast

  // ----- lexical parsers -----

  /** `letter = alt(ch_range('a', 'z'), ch_range('A', 'Z'))`. */
  function Letter(): Parser<char>
  {
    Alt([ChRange('a', 'z'), ChRange('A', 'Z')])
  }

  /** `digit = ch_range('0', '9')`. */
  function Digit(): Parser<char>
  {
    ChRange('0', '9')
  }

  /** `alt(digit, letter)`, the repeated part of an identifier. */
  function Alnum(): Parser<char>
  {
    Alt([Digit(), Letter()])
  }

  lemma LexicalReady()
    ensures Sound(Letter()) && Progress(Letter())
    ensures Sound(Digit()) && Progress(Digit())
    ensures Sound(Alnum()) && Progress(Alnum())
  {
    ChSound(InRange('a', 'z'));
    ChSound(InRange('A', 'Z'));
    ChSound(InRange('0', '9'));
    ChProgress(InRange('a', 'z'));
    ChProgress(InRange('A', 'Z'));
    ChProgress(InRange('0', '9'));
    AltSound([ChRange('a', 'z'), ChRange('A', 'Z')]);
    AltProgress([ChRange('a', 'z'), ChRange('A', 'Z')]);
    AltSound([Digit(), Letter()]);
    AltProgress([Digit(), Letter()]);
  }

  /** `many(alt(digit, letter))`. */
  function AlnumMany(): Parser<seq<char>>
  {
    LexicalReady();
    Many(Alnum())
  }

  /** `many1(digit)`. */
  function Digits(): Parser<seq<char>>
  {
    LexicalReady();
    Many1(Digit())
  }

  /** `seq(letter, many(alt(digit, letter)))`. */
  function IdentifierShape(): Parser<(char, (seq<char>, ()))>
  {
    Seq2(Letter(), AlnumMany())
  }

  lemma IdentifierShapeSound()
    ensures Sound(IdentifierShape())
  {
    LexicalReady();
    ManySound(Alnum());
    SeqNilSound();
    SeqConsSound(AlnumMany(), SeqNil());
    SeqConsSound(Letter(), SeqCons(AlnumMany(), SeqNil()));
  }

  /** `identifier = raw(seq(letter, many(alt(digit, letter)))).atom() % new Identifier`. */
  function IdentifierP(): Parser<Identifier>
  {
    IdentifierShapeSound();
    Mapped(Atom(Raw(IdentifierShape())), IdentifierOf)
  }

  predicate AllDigits(s: string)
  {
    forall i :: 0 <= i < |s| ==> IsDigit(s[i])
  }

  /** `std::stoi` as the number parser applies it: `raw(many1(digit))` only ever
      hands it a nonempty run of digits (`NumberSpec`), so the second branch is
      never taken by a parse. */
  function Stoi(text: string): int
  {
    if AllDigits(text) then DecimalValue(text) else 0
  }

  /** `number = raw(many1(digit)).atom() % new Num(std::stoi(s))`. */
  function NumberP(): Parser<Expr>
  {
    DigitsSound();
    Mapped(Atom(Raw(Digits())), NumOf)
  }

  function NumOf(text: string): Expr
  {
    Num(Stoi(text))
  }

  function IdentifierOf(text: string): Identifier
  {
    Identifier(text)
  }

  lemma DigitsSound()
    ensures Sound(Digits())
  {
    LexicalReady();
    Many1Sound(Digit());
  }

  lemma TokensSound()
    ensures Sound(IdentifierP()) && Sound(NumberP())
  {
    IdentifierShapeSound();
    RawSound(IdentifierShape());
    MappedSound(Atom(Raw(IdentifierShape())), IdentifierOf);
    DigitsSound();
    RawSound(Digits());
    MappedSound(Atom(Raw(Digits())), NumOf);
  }

  // ----- operators -----

  function MulOp(): Parser<string>
  {
    Alt([Lit("*"), Lit("/")])
  }

  function AddOp(): Parser<string>
  {
    Alt([Lit("+"), Lit("-")])
  }

  /** The relational operators in the order the C++ tries them: the two-character
      ones before `>` and `<`, so `<=` is never read as `<`. */
  function RelOp(): Parser<string>
  {
    Alt([Lit("<="), Lit(">="), Lit("=="), Lit(">"), Lit("<")])
  }

  lemma LitsReady(texts: seq<string>)
    requires forall i :: 0 <= i < |texts| ==> texts[i] != []
    ensures Sound(Alt(seq(|texts|, (i: int) requires 0 <= i < |texts| => Lit(texts[i]))))
    ensures Progress(Alt(seq(|texts|, (i: int) requires 0 <= i < |texts| => Lit(texts[i]))))
  {
    var ps := seq(|texts|, (i: int) requires 0 <= i < |texts| => Lit(texts[i]));
    forall i | 0 <= i < |ps|
      ensures Sound(ps[i]) && Progress(ps[i])
    {
      LitSound(texts[i]);
      LitProgress(texts[i]);
    }
    AltSound(ps);
    AltProgress(ps);
  }

  lemma MulOpReady()
    ensures Sound(MulOp()) && Progress(MulOp())
  {
    LitsReady(["*", "/"]);
    assert seq(2, (i: int) requires 0 <= i < 2 => Lit(["*", "/"][i])) == [Lit("*"), Lit("/")];
  }

  lemma AddOpReady()
    ensures Sound(AddOp()) && Progress(AddOp())
  {
    LitsReady(["+", "-"]);
    assert seq(2, (i: int) requires 0 <= i < 2 => Lit(["+", "-"][i])) == [Lit("+"), Lit("-")];
  }

  lemma RelOpReady()
    ensures Sound(RelOp()) && Progress(RelOp())
  {
    var rel := ["<=", ">=", "==", ">", "<"];
    LitsReady(rel);
    assert seq(5, (i: int) requires 0 <= i < 5 => Lit(rel[i]))
        == [Lit("<="), Lit(">="), Lit("=="), Lit(">"), Lit("<")];
  }

  // ----- build_binary_parser -----

  /** The `std::accumulate` of `build_binary_parser`: a left fold building one
      `BinaryOp` per (operator, operand) pair. */
  function FoldBinary(e: Expr, rest: seq<(string, (Expr, ()))>): Expr
    decreases |rest|
  {
    if rest == [] then e else FoldBinary(BinaryOp(e, rest[0].0, rest[0].1.0), rest[1..])
  }

  /** The same fold as `std::accumulate` runs it. */
  method Accumulate(e: Expr, rest: seq<(string, (Expr, ()))>) returns (acc: Expr)
    ensures acc == FoldBinary(e, rest)
  {
    acc := e;
    var i := 0;
    while i < |rest|
      invariant 0 <= i <= |rest|
      invariant FoldBinary(acc, rest[i..]) == FoldBinary(e, rest)
    {
      assert rest[i..][1..] == rest[i + 1..];
      acc := BinaryOp(acc, rest[i].0, rest[i].1.0);
      i := i + 1;
    }
  }

  /** The fold is left-associative: the last pair becomes the root, with the
      fold of everything before it as its left operand. */
  lemma {:induction false} FoldBinarySnoc(e: Expr, rest: seq<(string, (Expr, ()))>, op: string, x: Expr)
    ensures FoldBinary(e, rest + [(op, (x, ()))]) == BinaryOp(FoldBinary(e, rest), op, x)
    decreases |rest|
  {
    if rest == [] {
      assert [(op, (x, ()))][1..] == [];
    } else {
      assert (rest + [(op, (x, ()))])[1..] == rest[1..] + [(op, (x, ()))];
      FoldBinarySnoc(BinaryOp(e, rest[0].0, rest[0].1.0), rest[1..], op, x);
    }
  }

  /** Every pair adds one node: the tree has the operand's nodes, the pairs'
      operands' nodes and one node per operator. */
  lemma {:induction false} FoldBinaryNodes(e: Expr, rest: seq<(string, (Expr, ()))>)
    ensures Nodes(FoldBinary(e, rest)) == Nodes(e) + OperandNodes(rest) + |rest|
    decreases |rest|
  {
    if rest != [] {
      FoldBinaryNodes(BinaryOp(e, rest[0].0, rest[0].1.0), rest[1..]);
    }
  }

  function OperandNodes(rest: seq<(string, (Expr, ()))>): nat
    decreases |rest|
  {
    if rest == [] then 0 else Nodes(rest[0].1.0) + OperandNodes(rest[1..])
  }

  function BinaryValue(t: (Expr, (seq<(string, (Expr, ()))>, ()))): Expr
  {
    FoldBinary(t.0, t.1.0)
  }

  /** `build_binary_parser(p, op)`: `seq(p, many(seq(op, p))) %= accumulate`. */
  function BuildBinaryParser(p: Parser<Expr>, op: Parser<string>): Parser<Expr>
    requires Progress(Seq2(op, p))
  {
    Mapped(Seq2(p, Many(Seq2(op, p))), BinaryValue)
  }

  /** An (operator, operand) step always consumes the operator. */
  lemma StepProgress<A, B>(op: Parser<A>, p: Parser<B>)
    requires Progress(op) && Sound(p)
    ensures Progress(Seq2(op, p))
    ensures Sound(op) ==> Sound(Seq2(op, p))
  {
    SeqNilSound();
    SeqConsSound(p, SeqNil());
    SeqConsProgress(op, SeqCons(p, SeqNil()));
    if Sound(op) {
      SeqConsSound(op, SeqCons(p, SeqNil()));
    }
  }

  lemma BinarySound(p: Parser<Expr>, op: Parser<string>)
    requires Sound(p) && Sound(op) && Progress(op)
    ensures Progress(Seq2(op, p))
    ensures Sound(BuildBinaryParser(p, op))
  {
    StepProgress(op, p);
    ManySound(Seq2(op, p));
    SeqNilSound();
    SeqConsSound(Many(Seq2(op, p)), SeqNil());
    SeqConsSound(p, SeqCons(Many(Seq2(op, p)), SeqNil()));
    MappedSound(Seq2(p, Many(Seq2(op, p))), BinaryValue);
  }

  /** `build_binary_parser(p, op)` succeeds iff its first operand does; its
      value is the left fold of that operand with every (operator, operand)
      pair `many` collects after it (compiler.hpp:22-28). */
  lemma BinarySpec(p: Parser<Expr>, op: Parser<string>, s: Scanner)
    requires Progress(Seq2(op, p))
    ensures var first := Call(p, Skipping(s));
            var r := Call(BuildBinaryParser(p, op), s);
            && (r.value.Some? <==> first.value.Some?)
            && (r.value.Some? ==>
                  var pairs := Call(Many(Seq2(op, p)), first.scanner);
                  && r.value.value == FoldBinary(first.value.value, pairs.value.value)
                  && r.scanner == Skipping(pairs.scanner))
  {
    var t := Skipping(s);
    SkippingIdempotent(s);
    var first := Call(p, t);
    MappedSpec(Seq2(p, Many(Seq2(op, p))), BinaryValue, s);
    SeqConsSpec(p, SeqCons(Many(Seq2(op, p)), SeqNil()), t);
    if first.value.Some? {
      var pairs := Call(Many(Seq2(op, p)), first.scanner);
      ManySpec(Seq2(op, p), first.scanner);
      SeqConsSpec(Many(Seq2(op, p)), SeqNil(), first.scanner);
      SeqNilSpec(pairs.scanner);
    }
  }

  lemma StepSound<A, B>(op: Parser<A>, p: Parser<B>)
    requires Sound(op) && Sound(p)
    ensures Sound(Seq2(op, p))
  {
    SeqNilSound();
    SeqConsSound(p, SeqNil());
    SeqConsSound(op, SeqCons(p, SeqNil()));
  }

  /** A one-element tail `seq(p)` agrees wherever `p` does. */
  lemma SingleAgree<A>(p: Parser<A>, p': Parser<A>, k: nat)
    requires Sound(p) && Agree(p, p', k)
    ensures Agree(SeqCons(p, SeqNil()), SeqCons(p', SeqNil()), k)
  {
    AgreeSelf(SeqNil(), k);
    SeqConsAgree(p, p', SeqNil(), SeqNil(), k);
  }

  lemma StepAgree(op: Parser<string>, p: Parser<Expr>, p': Parser<Expr>, k: nat)
    requires Sound(p) && Sound(op) && Agree(p, p', k)
    ensures Agree(Seq2(op, p), Seq2(op, p'), k)
  {
    SingleAgree(p, p', k);
    AgreeSelf(op, k);
    SeqConsAgree(op, op, SeqCons(p, SeqNil()), SeqCons(p', SeqNil()), k);
  }

  lemma RepeatAgree(op: Parser<string>, p: Parser<Expr>, p': Parser<Expr>, k: nat)
    requires Sound(p) && Sound(p') && Sound(op) && Progress(op) && Agree(p, p', k)
    ensures Progress(Seq2(op, p)) && Progress(Seq2(op, p'))
    ensures Sound(Many(Seq2(op, p)))
    ensures Agree(Many(Seq2(op, p)), Many(Seq2(op, p')), k)
  {
    StepProgress(op, p);
    StepProgress(op, p');
    StepAgree(op, p, p', k);
    ManyAgree(Seq2(op, p), Seq2(op, p'), k);
    ManySound(Seq2(op, p));
  }

  /** Parsers that agree on short inputs build binary parsers that agree there. */
  lemma BinaryAgree(p: Parser<Expr>, p': Parser<Expr>, op: Parser<string>, k: nat)
    requires Sound(p) && Sound(p') && Sound(op) && Progress(op) && Agree(p, p', k)
    ensures Progress(Seq2(op, p)) && Progress(Seq2(op, p'))
    ensures Agree(BuildBinaryParser(p, op), BuildBinaryParser(p', op), k)
  {
    RepeatAgree(op, p, p', k);
    var m, m' := Many(Seq2(op, p)), Many(Seq2(op, p'));
    SingleAgree(m, m', k);
    SeqConsAgree(p, p', SeqCons(m, SeqNil()), SeqCons(m', SeqNil()), k);
    MappedAgree(Seq2(p, m), Seq2(p', m'), BinaryValue, k);
  }

  // ----- expressions -----

  function ParenValue(t: (string, (Expr, (string, ())))): Expr
  {
    t.1.0
  }

  /** `seq(lit("("), lazy(expr), lit(")")) % std::get<1>`. */
  function Paren(e: Parser<Expr>): Parser<Expr>
  {
    Mapped(Seq3(Lit("("), Lazy(e), Lit(")")), ParenValue)
  }

  function VarOf(id: Identifier): Expr
  {
    Var(id)
  }

  /** `factor = alt(number, identifier, seq(lit("("), lazy(expr), lit(")")) % get<1>)`. */
  function Factor(e: Parser<Expr>): Parser<Expr>
  {
    Alt([NumberP(), Mapped(IdentifierP(), VarOf), Paren(e)])
  }

  lemma FactorSound(e: Parser<Expr>)
    requires Sound(e)
    ensures Sound(Factor(e))
  {
    TokensSound();
    MappedSound(IdentifierP(), VarOf);
    ParenSound(e);
    AltSound([NumberP(), Mapped(IdentifierP(), VarOf), Paren(e)]);
  }

  /** `term = build_binary_parser(factor, alt(lit("*"), lit("/")))`. */
  function Term(e: Parser<Expr>): Parser<Expr>
    requires Sound(e)
  {
    FactorSound(e);
    MulOpReady();
    StepProgress(MulOp(), Factor(e));
    BuildBinaryParser(Factor(e), MulOp())
  }

  lemma TermSound(e: Parser<Expr>)
    requires Sound(e)
    ensures Sound(Term(e))
  {
    FactorSound(e);
    MulOpReady();
    BinarySound(Factor(e), MulOp());
  }

  /** `simple_exp = build_binary_parser(term, alt(lit("+"), lit("-")))`. */
  function SimpleExp(e: Parser<Expr>): Parser<Expr>
    requires Sound(e)
  {
    TermSound(e);
    AddOpReady();
    StepProgress(AddOp(), Term(e));
    BuildBinaryParser(Term(e), AddOp())
  }

  lemma SimpleExpSound(e: Parser<Expr>)
    requires Sound(e)
    ensures Sound(SimpleExp(e))
  {
    TermSound(e);
    AddOpReady();
    BinarySound(Term(e), AddOp());
  }

  /** The right-hand side of `expr = build_binary_parser(simple_exp, rel_op)`,
      as a function of the parser `lazy(expr)` reads. */
  function ExprP(e: Parser<Expr>): (r: Parser<Expr>)
    requires Sound(e)
    ensures r.skipWs
  {
    SimpleExpSound(e);
    RelOpReady();
    StepProgress(RelOp(), SimpleExp(e));
    BuildBinaryParser(SimpleExp(e), RelOp())
  }

  /** Every layer of the expression grammar only removes input from the front
      and leaves the skipping flag as it found it. */
  lemma ExprPSound(e: Parser<Expr>)
    requires Sound(e)
    ensures Sound(ExprP(e))
  {
    SimpleExpSound(e);
    RelOpReady();
    BinarySound(SimpleExp(e), RelOp());
  }

  /** `( lazy(e) )` reads `e` only after consuming "(", so it agrees one
      character further than `e` does. */
  lemma ParenAgree(e: Parser<Expr>, e': Parser<Expr>, k: nat)
    requires Sound(e) && Agree(e, e', k)
    ensures Agree(Paren(e), Paren(e'), k + 1)
  {
    LitSound(")");
    LitProgress("(");
    LazySound(e);
    LazyAgree(e, e', k);
    AgreeSelf(Lit(")"), k);
    SingleAgree(Lit(")"), Lit(")"), k);
    var tail := SeqCons(Lit(")"), SeqNil());
    SeqConsAgree(Lazy(e), Lazy(e'), tail, tail, k);
    SeqConsShift(Lit("("), SeqCons(Lazy(e), tail), SeqCons(Lazy(e'), tail), k);
    MappedAgree(Seq3(Lit("("), Lazy(e), Lit(")")), Seq3(Lit("("), Lazy(e'), Lit(")")), ParenValue, k + 1);
  }

  lemma FactorAgree(e: Parser<Expr>, e': Parser<Expr>, k: nat)
    requires Sound(e) && Sound(e') && Agree(e, e', k)
    ensures Agree(Factor(e), Factor(e'), k + 1)
  {
    ParenAgree(e, e', k);
    TokensSound();
    MappedSound(IdentifierP(), VarOf);
    FactorSound(e);
    var ps := [NumberP(), Mapped(IdentifierP(), VarOf), Paren(e)];
    var qs := [NumberP(), Mapped(IdentifierP(), VarOf), Paren(e')];
    forall i | 0 <= i < |ps|
      ensures Sound(ps[i]) && Agree(ps[i], qs[i], k + 1)
    {
      if i < 2 {
        AgreeSelf(ps[i], k + 1);
      }
      if i == 2 {
        ParenSound(e);
      }
    }
    AltAgree(ps, qs, k + 1);
  }

  lemma ParenSound(e: Parser<Expr>)
    requires Sound(e)
    ensures Sound(Paren(e))
  {
    LitSound("(");
    LitSound(")");
    LazySound(e);
    SeqNilSound();
    SeqConsSound(Lit(")"), SeqNil());
    SeqConsSound(Lazy(e), SeqCons(Lit(")"), SeqNil()));
    SeqConsSound(Lit("("), SeqCons(Lazy(e), SeqCons(Lit(")"), SeqNil())));
    MappedSound(Seq3(Lit("("), Lazy(e), Lit(")")), ParenValue);
  }

  lemma TermAgree(e: Parser<Expr>, e': Parser<Expr>, k: nat)
    requires Sound(e) && Sound(e') && Agree(e, e', k)
    ensures Agree(Term(e), Term(e'), k + 1)
  {
    FactorAgree(e, e', k);
    FactorSound(e);
    FactorSound(e');
    MulOpReady();
    BinaryAgree(Factor(e), Factor(e'), MulOp(), k + 1);
  }

  lemma SimpleExpAgree(e: Parser<Expr>, e': Parser<Expr>, k: nat)
    requires Sound(e) && Sound(e') && Agree(e, e', k)
    ensures Agree(SimpleExp(e), SimpleExp(e'), k + 1)
  {
    TermAgree(e, e', k);
    TermSound(e);
    TermSound(e');
    AddOpReady();
    BinaryAgree(Term(e), Term(e'), AddOp(), k + 1);
  }

  /** The grammar reads the parser behind `lazy` only after consuming "(", so
      it agrees one character further than that parser does. */
  lemma ExprPAgree(e: Parser<Expr>, e': Parser<Expr>, k: nat)
    requires Sound(e) && Sound(e') && Agree(e, e', k)
    ensures Agree(ExprP(e), ExprP(e'), k + 1)
  {
    SimpleExpAgree(e, e', k);
    SimpleExpSound(e);
    SimpleExpSound(e');
    RelOpReady();
    BinaryAgree(SimpleExp(e), SimpleExp(e'), RelOp(), k + 1);
  }

  // ----- tying the knot of `lazy(expr)` -----

  /** The `n`-th unfolding of the grammar; `lazy` of the 0-th always fails. */
  function Approx(n: nat): (r: Parser<Expr>)
    ensures Sound(r) && r.skipWs
  {
    if n == 0 then
      AltListSound<Expr>([]);
      AltList([])
    else
      ExprPSound(Approx(n - 1));
      ExprP(Approx(n - 1))
  }

  lemma AgreeWeaken<T>(p: Parser<T>, q: Parser<T>, k: nat, j: nat)
    requires Agree(p, q, k) && j <= k
    ensures Agree(p, q, j)
  {
  }

  lemma AgreeTrans<T>(p: Parser<T>, q: Parser<T>, r: Parser<T>, k: nat)
    requires Agree(p, q, k) && Agree(q, r, k)
    ensures Agree(p, r, k)
  {
  }

  /** Consecutive unfoldings agree on inputs shorter than the depth. */
  lemma {:induction false} ApproxStep(n: nat)
    ensures Agree(Approx(n), Approx(n + 1), n)
  {
    if n > 0 {
      ApproxStep(n - 1);
      ExprPAgree(Approx(n - 1), Approx(n), n - 1);
    }
  }

  /** In a family whose consecutive members agree below their index, every
      later member agrees with member `n` below `n`. */
  lemma {:induction false} ChainStable<T>(f: nat -> Parser<T>, n: nat, m: nat)
    requires forall i: nat :: Agree(f(i), f(i + 1), i)
    requires n <= m
    ensures Agree(f(n), f(m), n)
    decreases m - n
  {
    if n == m {
      AgreeSelf(f(n), n);
    } else {
      ChainStable(f, n + 1, m);
      AgreeWeaken(f(n + 1), f(m), n + 1, n);
      AgreeTrans(f(n), f(n + 1), f(m), n);
    }
  }

  /** From depth `n` on, the unfoldings no longer differ on inputs shorter
      than `n`. */
  lemma ApproxStable(n: nat, m: nat)
    requires n <= m
    ensures Agree(Approx(n), Approx(m), n)
  {
    forall i: nat ensures Agree(Approx(i), Approx(i + 1), i) {
      ApproxStep(i);
    }
    ChainStable(Approx, n, m);
  }

  lemma ApproxSettles()
    ensures forall n: nat :: Approx(n).skipWs && Sound(Approx(n))
    ensures forall n: nat, j: nat :: n <= j ==> Agree(Approx(n), Approx(j), n)
  {
    forall n: nat, j: nat | n <= j ensures Agree(Approx(n), Approx(j), n) {
      ApproxStable(n, j);
    }
  }

  /** The parser `expr` holds once `build_parser` has assigned it. */
  function ExprRef(): Parser<Expr>
  {
    Diagonal(Approx)
  }

  /** On an input shorter than `m`, `ExprRef()` answers as the `m`-th unfolding. */
  lemma ExprRefCall(s: Scanner, m: nat)
    requires |s.rest| < m
    ensures Call(ExprRef(), s) == Call(Approx(m), s)
  {
    ApproxSettles();
    DiagonalCall(Approx, s, m);
  }

  lemma ExprRefSound()
    ensures Sound(ExprRef())
  {
    ApproxSettles();
    DiagonalSound(Approx);
  }

  lemma ExprRefAgree(k: nat)
    ensures Agree(ExprRef(), Approx(k), k)
  {
    ApproxSettles();
    DiagonalAgree(Approx, k);
  }

  /** `ExprRef()` is a fixed point of the grammar: reading it through `lazy`
      inside `ExprP` gives back the same parser (compiler.hpp:36-41). */
  lemma ExprRefFixpoint(s: Scanner)
    ensures Call(Expression(), s) == Call(ExprRef(), s)
  {
    ExprRefSound();
    var k := |s.rest| + 1;
    ExprRefAgree(k);
    ExprPAgree(ExprRef(), Approx(k), k);
    ExprRefCall(s, k + 1);
  }

  /** It is the only one: a sound parser that the grammar maps to itself
      answers as `ExprRef()` on every input. */
  lemma ExprRefUnique(q: Parser<Expr>, s: Scanner)
    requires Sound(q)
    requires forall s': Scanner :: Call(ExprP(q), s') == Call(q, s')
    ensures Call(q, s) == Call(ExprRef(), s)
  {
    forall j: nat | Agree(q, Approx(j), j)
      ensures Agree(q, Approx(j + 1), j + 1)
    {
      assert Agree(q, ExprP(q), j + 1);
      FixpointStep(q, j);
    }
    var k := |s.rest| + 1;
    FamilyAgrees(q, Approx, k);
    ExprRefCall(s, k);
  }

  lemma FixpointStep(q: Parser<Expr>, j: nat)
    requires Sound(q) && Agree(q, Approx(j), j) && Agree(q, ExprP(q), j + 1)
    ensures Agree(q, Approx(j + 1), j + 1)
  {
    ExprPAgree(q, Approx(j), j);
    AgreeTrans(q, ExprP(q), ExprP(Approx(j)), j + 1);
    assert Approx(j + 1) == ExprP(Approx(j));
  }

  /** Induction on the depth: a parser that agrees with each member of a family
      as soon as it agrees with the previous one agrees with all of them. */
  lemma {:induction false} FamilyAgrees<T>(q: Parser<T>, f: nat -> Parser<T>, n: nat)
    requires forall j: nat :: Agree(q, f(j), j) ==> Agree(q, f(j + 1), j + 1)
    ensures Agree(q, f(n), n)
  {
    if n > 0 {
      FamilyAgrees(q, f, n - 1);
    }
  }

  /** `expr` itself: `build_binary_parser(simple_exp, rel_op)` over a `factor`
      whose `lazy(expr)` reads this same parser. */
  function Expression(): (r: Parser<Expr>)
    ensures r.skipWs
  {
    ExprRefSound();
    ExprP(ExprRef())
  }

  lemma ExpressionSound()
    ensures Sound(Expression())
  {
    ExprRefSound();
    ExprPSound(ExprRef());
  }

  // ----- statements -----

  function ReadValue(t: (string, (Identifier, ()))): Stmt
  {
    Read(t.1.0)
  }

  function WriteValue(t: (string, (Expr, ()))): Stmt
  {
    Write(t.1.0)
  }

  function AssignValue(t: (Identifier, (string, (Expr, ())))): Stmt
  {
    Assign(t.0, t.1.1.0)
  }

  /** `read_stmt = seq(lit("read"), identifier) %= new ReadStmt(id)`. */
  function ReadStmtP(): Parser<Stmt>
  {
    Mapped(Seq2(Lit("read"), IdentifierP()), ReadValue)
  }

  /** `write_stmt = seq(lit("write"), expr) %= new WriteStmt(e)`. */
  function WriteStmtP(): Parser<Stmt>
  {
    Mapped(Seq2(Lit("write"), Expression()), WriteValue)
  }

  /** `assign_stmt = seq(identifier, lit(":="), expr) %= new AssignStmt(id, e)`. */
  function AssignStmtP(): Parser<Stmt>
  {
    Mapped(Seq3(IdentifierP(), Lit(":="), Expression()), AssignValue)
  }

  /** `statement = alt(read_stmt, write_stmt, assign_stmt)`. */
  function Statement(): Parser<Stmt>
  {
    Alt([ReadStmtP(), WriteStmtP(), AssignStmtP()])
  }

  lemma Seq3Sound<A, B, C>(p: Parser<A>, q: Parser<B>, r: Parser<C>)
    requires Sound(p) && Sound(q) && Sound(r)
    ensures Sound(Seq3(p, q, r))
  {
    StepSound(q, r);
    SeqConsSound(p, SeqCons(q, SeqCons(r, SeqNil())));
  }

  lemma StatementSound()
    ensures Sound(Statement())
  {
    TokensSound();
    LitSound("read");
    LitSound("write");
    LitSound(":=");
    StepSound(Lit("read"), IdentifierP());
    MappedSound(Seq2(Lit("read"), IdentifierP()), ReadValue);
    ExpressionSound();
    StepSound(Lit("write"), Expression());
    MappedSound(Seq2(Lit("write"), Expression()), WriteValue);
    Seq3Sound(IdentifierP(), Lit(":="), Expression());
    MappedSound(Seq3(IdentifierP(), Lit(":="), Expression()), AssignValue);
    AltSound([ReadStmtP(), WriteStmtP(), AssignStmtP()]);
  }

  function SequenceOf(stmts: seq<Stmt>): Stmt
  {
    Sequence(stmts)
  }

  /** `stmt_sequence = sep_by(statement, lit(";")) % new StmtSequence(stmts)`. */
  function StmtSequenceP(): Parser<Stmt>
  {
    StatementSound();
    LitProgress(";");
    StepProgress(Lit(";"), Statement());
    Mapped(SepBy(Statement(), Lit(";")), SequenceOf)
  }

  /** The parser `build_parser` returns: `eof(stmt_sequence)`. */
  function ProgramP(): Parser<Stmt>
  {
    Eof(StmtSequenceP())
  }

  /** `parser(scanner)` in `compile`, on a fresh scanner (skipping on). */
  function Parse(input: string): Reply<Stmt>
  {
    Call(ProgramP(), Scanner(input, true))
  }
}
