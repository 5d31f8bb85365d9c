/** Model of zpc/parser.hpp: the scanner, the parser value and its call operator,
    and the combinators (map, filter, sequence, attempt, ordered choice, many,
    lazy, opt, atom).

    A C++ `Parser<T>` wraps a closure that mutates a `Scanner&`; here a parser is
    a function from the scanner before the call to a `Reply` holding the optional
    value and the scanner after the call. Every combinator builds a new parser
    whose closure goes through `Call` (the C++ `operator()`) on its
    sub-parsers, so the whitespace skipping that each `Parser` object performs
    is kept, layer by layer, exactly where the C++ performs it. */
module Parsers {
  import opened Optionals

  /** `Scanner`: the remaining input (a `string_view`) and the `skip` flag. */
  datatype Scanner = Scanner(rest: string, skip: bool)

  /** The optional value of one parser call and the scanner after it. */
  datatype Reply<T> = Reply(value: Optional<T>, scanner: Scanner)

  /** `Parser<T>`: the closure `p` and the flag `skip_` (false once `atom()` ran). */
  datatype Parser<T> = Parser(run: Scanner -> Reply<T>, skipWs: bool)

  /** C `isspace` in the default locale: space, tab, newline, vertical tab,
      form feed, carriage return. */
  predicate IsSpace(c: char)
  {
    c == ' ' || ('\t' <= c && c <= '\r')
  }

  predicate IsSuffix(a: string, b: string)
  {
    |a| <= |b| && b[|b| - |a|..] == a
  }

  /** The leading-whitespace loop of `operator()`, as a function. */
  function SkipSpace(s: string): (r: string)
    ensures IsSuffix(r, s)
    ensures r == [] || !IsSpace(r[0])
    ensures forall i :: 0 <= i < |s| - |r| ==> IsSpace(s[i])
  {
    if s != [] && IsSpace(s[0]) then SkipSpace(s[1..]) else s
  }

  /** The same loop as the C++ writes it, removing one character at a time. */
  method StripLeadingSpace(input: string) returns (out: string)
    ensures out == SkipSpace(input)
  {
    out := input;
    while out != [] && IsSpace(out[0])
      invariant SkipSpace(out) == SkipSpace(input)
    {
      out := out[1..];
    }
  }

  /** The scanner `operator()` hands to the closure once its own skipping is done. */
  function Skipping(s: Scanner): Scanner
  {
    if s.skip then s.(rest := SkipSpace(s.rest)) else s
  }

  /** `Parser::operator()`: an atomic parser switches skipping off for its whole
      sub-parse; when skipping is on, leading whitespace is removed; then the
      closure runs; finally the flag is switched back. */
  function Call<T>(p: Parser<T>, s: Scanner): Reply<T>
  {
    var flip := !p.skipWs && s.skip;
    var entered := if flip then s.(skip := !s.skip) else s;
    var r := p.run(Skipping(entered));
    if flip then r.(scanner := r.scanner.(skip := !r.scanner.skip)) else r
  }

  /** The closure never grows the input and leaves the flag as it found it. */
  predicate Keeps(before: Scanner, after: Scanner)
  {
    IsSuffix(after.rest, before.rest) && after.skip == before.skip
  }

  /** A parser whose closure only removes a prefix of the input and restores
      the flag; every parser the engine builds has this property. */
  ghost predicate Sound<T>(p: Parser<T>)
  {
    forall s :: Keeps(s, p.run(s).scanner)
  }

  /** A parser that consumes at least one character whenever it succeeds;
      `many` terminates only on such parsers. */
  ghost predicate Progress<T>(p: Parser<T>)
  {
    forall s :: Call(p, s).value.Some? ==> |Call(p, s).scanner.rest| < |s.rest|
  }

  // ----- the call operator -----

  lemma SkipSpaceIdempotent(s: string)
    ensures SkipSpace(SkipSpace(s)) == SkipSpace(s)
  {
  }

  lemma SkippingIdempotent(s: Scanner)
    ensures Skipping(Skipping(s)) == Skipping(s)
  {
    SkipSpaceIdempotent(s.rest);
  }

  /** With skipping on and a non-atomic parser, the closure sees the input with
      its leading whitespace removed (zpc/parser.hpp:50-54). */
  lemma CallStripsSpace<T>(p: Parser<T>, s: Scanner)
    requires p.skipWs && s.skip
    ensures Call(p, s) == p.run(Scanner(SkipSpace(s.rest), true))
  {
  }

  /** An atomic parser runs its closure with skipping off and without removing
      whitespace, and the caller's flag is restored afterwards (zpc/parser.hpp:51-55, 59-62). */
  lemma CallAtomic<T>(p: Parser<T>, s: Scanner)
    requires Sound(p) && !p.skipWs
    ensures Call(p, s).value == p.run(s.(skip := false)).value
    ensures Call(p, s).scanner == p.run(s.(skip := false)).scanner.(skip := s.skip)
  {
    assert Keeps(s.(skip := false), p.run(s.(skip := false)).scanner);
  }

  /** Every call of a sound parser restores `in.skip` and only removes input. */
  lemma CallKeeps<T>(p: Parser<T>, s: Scanner)
    requires Sound(p)
    ensures Keeps(s, Call(p, s).scanner)
  {
    var flip := !p.skipWs && s.skip;
    var entered := if flip then s.(skip := !s.skip) else s;
    assert Keeps(Skipping(entered), p.run(Skipping(entered)).scanner);
  }

  /** Calling a non-atomic parser on a scanner that is already past its
      whitespace is the same as calling it before the skip. */
  lemma CallAfterSkipping<T>(p: Parser<T>, s: Scanner)
    requires p.skipWs
    ensures Call(p, Skipping(s)) == Call(p, s)
  {
    SkippingIdempotent(s);
  }

  // ----- %, %=, /= -----

  function MappedRun<T, U>(p: Parser<T>, f: T -> U, s: Scanner): Reply<U>
  {
    var r := Call(p, s);
    Reply(Map(r.value, f), r.scanner)
  }

  /** `p % f` (and `p %= f`, whose tuple is one value here). */
  function Mapped<T, U>(p: Parser<T>, f: T -> U): Parser<U>
  {
    Parser((s: Scanner) => MappedRun(p, f, s), true)
  }

  function FilteredRun<T>(p: Parser<T>, f: T -> bool, s: Scanner): Reply<T>
  {
    var r := Call(p, s);
    Reply(FlatMap(r.value, (v: T) => if f(v) then Some(v) else None), r.scanner)
  }

  /** `p /= f`: the value survives only when `f` holds of it; the input the
      parser consumed stays consumed either way. */
  function Filtered<T>(p: Parser<T>, f: T -> bool): Parser<T>
  {
    Parser((s: Scanner) => FilteredRun(p, f, s), true)
  }

  /** `p % f` is present iff `p` is, with value `f(v)` (zpc/parser.hpp:70-75). */
  lemma MappedSpec<T, U>(p: Parser<T>, f: T -> U, s: Scanner)
    ensures Call(Mapped(p, f), s).value.Some? <==> Call(p, Skipping(s)).value.Some?
    ensures Call(Mapped(p, f), s).value.Some? ==>
              Call(Mapped(p, f), s).value.value == f(Call(p, Skipping(s)).value.value)
    ensures Call(Mapped(p, f), s).scanner == Call(p, Skipping(s)).scanner
  {
  }

  /** `p /= f` is present iff `p` gives `v` and `f(v)` holds (zpc/parser.hpp:84-89). */
  lemma FilteredSpec<T>(p: Parser<T>, f: T -> bool, s: Scanner)
    ensures Call(Filtered(p, f), s).value.Some? <==>
              Call(p, Skipping(s)).value.Some? && f(Call(p, Skipping(s)).value.value)
    ensures Call(Filtered(p, f), s).value.Some? ==>
              Call(Filtered(p, f), s).value == Call(p, Skipping(s)).value
    ensures Call(Filtered(p, f), s).scanner == Call(p, Skipping(s)).scanner
  {
  }

  /** Two `%` in a row behave as one `%` of the composed function. */
  lemma MappedFusion<T, U, V>(p: Parser<T>, f: T -> U, g: U -> V, s: Scanner)
    ensures Call(Mapped(Mapped(p, f), g), s) == Call(Mapped(p, (x: T) => g(f(x))), s)
  {
    SkippingIdempotent(s);
  }

  // ----- seq -----

  function SeqNilRun(s: Scanner): Reply<()>
  {
    Reply(Some(()), s)
  }

  /** `seq()`: succeeds with the empty tuple and consumes nothing. */
  function SeqNil(): Parser<()>
  {
    Parser((s: Scanner) => SeqNilRun(s), true)
  }

  function SeqConsRun<A, B>(p: Parser<A>, q: Parser<B>, s: Scanner): Reply<(A, B)>
  {
    var first := Call(p, s);
    if first.value.None? then Reply(None, first.scanner)
    else
      var others := Call(q, first.scanner);
      Reply(Map(others.value, (vs: B) => (first.value.value, vs)), others.scanner)
  }

  /** `seq(p, ps...)` where `q` is the parser `seq(ps...)`: the tuple is built
      as a nested pair `(v, vs)`. */
  function SeqCons<A, B>(p: Parser<A>, q: Parser<B>): Parser<(A, B)>
  {
    Parser((s: Scanner) => SeqConsRun(p, q, s), true)
  }

  /** `seq(p, q)`. */
  function Seq2<A, B>(p: Parser<A>, q: Parser<B>): Parser<(A, (B, ()))>
  {
    SeqCons(p, SeqCons(q, SeqNil()))
  }

  /** `seq(p, q, r)`. */
  function Seq3<A, B, C>(p: Parser<A>, q: Parser<B>, r: Parser<C>): Parser<(A, (B, (C, ())))>
  {
    SeqCons(p, SeqCons(q, SeqCons(r, SeqNil())))
  }

  /** `seq()` always succeeds and its closure consumes nothing (zpc/parser.hpp:95-99). */
  lemma SeqNilSpec(s: Scanner)
    ensures Call(SeqNil(), s) == Reply(Some(()), Skipping(s))
  {
  }

  /** `seq(p, ps...)` succeeds iff `p` succeeds and then `seq(ps...)` succeeds
      where `p` stopped; the value pairs their values in order (zpc/parser.hpp:101-110). */
  lemma SeqConsSpec<A, B>(p: Parser<A>, q: Parser<B>, s: Scanner)
    ensures var first := Call(p, Skipping(s));
            var r := Call(SeqCons(p, q), s);
            && (r.value.Some? <==> first.value.Some? && Call(q, first.scanner).value.Some?)
            && (r.value.Some? ==>
                  r.value.value == (first.value.value, Call(q, first.scanner).value.value)
                  && r.scanner == Call(q, first.scanner).scanner)
            && (first.value.None? ==> r.scanner == first.scanner)
  {
  }

  // ----- attempt -----

  function AttemptRun<T>(p: Parser<T>, s: Scanner): Reply<T>
  {
    var r := Call(p, s);
    if r.value.None? then Reply(None, s) else r
  }

  /** `attempt(p)`: saves the scanner and restores it when `p` fails. */
  function Attempt<T>(p: Parser<T>): Parser<T>
  {
    Parser((s: Scanner) => AttemptRun(p, s), true)
  }

  /** On failure the scanner is what it was when the closure was entered, which
      is already past the whitespace the call skipped; on success the reply is
      `p`'s (zpc/parser.hpp:112-120). */
  lemma AttemptSpec<T>(p: Parser<T>, s: Scanner)
    ensures Call(Attempt(p), s).value == Call(p, Skipping(s)).value
    ensures Call(Attempt(p), s).value.None? ==> Call(Attempt(p), s).scanner == Skipping(s)
    ensures Call(Attempt(p), s).value.Some? ==> Call(Attempt(p), s) == Call(p, Skipping(s))
  {
  }

  // ----- alt -----

  /** `detail::alt` over alternatives of one type: every alternative runs, each
      inside `attempt`, on the scanner the previous one left; the value is the
      first present one (`or_else`). */
  function AltListRun<T>(ps: seq<Parser<T>>, s: Scanner): Reply<T>
    decreases |ps|, 0
  {
    if ps == [] then Reply(None, s)
    else
      var first := Call(Attempt(ps[0]), s);
      var others := Call(AltList(ps[1..]), first.scanner);
      Reply(OrElse(Map(first.value, (v: T) => v), others.value), others.scanner)
  }

  function AltList<T>(ps: seq<Parser<T>>): Parser<T>
    decreases |ps|, 1
  {
    Parser((s: Scanner) => AltListRun(ps, s), true)
  }

  /** `alt(ps...)`: `detail::alt` followed by `% flat`, which is the identity
      when all alternatives have one type. */
  function Alt<T>(ps: seq<Parser<T>>): Parser<T>
  {
    Mapped(AltList(ps), (v: T) => v)
  }

  /** The value of the first alternative that succeeds on `s`, if any. */
  function FirstSuccess<T>(ps: seq<Parser<T>>, s: Scanner): (r: Optional<T>)
    ensures r.None? <==> forall i :: 0 <= i < |ps| ==> Call(ps[i], s).value.None?
  {
    if ps == [] then None
    else if Call(ps[0], s).value.Some? then Call(ps[0], s).value
    else
      var r := FirstSuccess(ps[1..], s);
      assert forall i :: 1 <= i < |ps| ==> ps[i] == ps[1..][i - 1];
      r
  }

  /** A value ordered choice returns is the value of one of its alternatives. */
  lemma {:induction false} FirstSuccessIsOne<T>(ps: seq<Parser<T>>, s: Scanner)
    ensures FirstSuccess(ps, s).Some? ==>
              exists i :: 0 <= i < |ps| && Call(ps[i], s).value == FirstSuccess(ps, s)
  {
    if ps != [] && Call(ps[0], s).value.None? {
      FirstSuccessIsOne(ps[1..], s);
      if FirstSuccess(ps[1..], s).Some? {
        var i :| 0 <= i < |ps[1..]| && Call(ps[1..][i], s).value == FirstSuccess(ps[1..], s);
        assert ps[1..][i] == ps[i + 1];
      }
    }
  }

  /** Ordered choice returns the value of the first alternative that succeeds
      and fails when all fail, whatever the later alternatives consume
      (zpc/parser.hpp:122-136). */
  lemma {:induction false} AltListValue<T>(ps: seq<Parser<T>>, s: Scanner)
    ensures Call(AltList(ps), s).value == FirstSuccess(ps, Skipping(s))
  {
    var t := Skipping(s);
    SkippingIdempotent(s);
    if ps != [] {
      var first := Call(Attempt(ps[0]), t);
      AttemptSpec(ps[0], t);
      if first.value.None? {
        assert first.scanner == t;
        AltListValue(ps[1..], t);
      }
    }
  }

  /** The scanner after every alternative has run, each one inside `attempt`,
      starting where the previous one stopped (past the whitespace the next
      layer skips). */
  function AltScanner<T>(ps: seq<Parser<T>>, s: Scanner): Scanner
    decreases |ps|
  {
    if ps == [] then s else AltScanner(ps[1..], Skipping(Call(Attempt(ps[0]), s).scanner))
  }

  /** `detail::alt` evaluates the `or_else` argument eagerly: the alternatives
      after the first success still run and consume input (zpc/parser.hpp:129-136). */
  lemma {:induction false} AltListScanner<T>(ps: seq<Parser<T>>, s: Scanner)
    ensures Call(AltList(ps), s).scanner == AltScanner(ps, Skipping(s))
  {
    var t := Skipping(s);
    SkippingIdempotent(s);
    if ps != [] {
      var first := Call(Attempt(ps[0]), t);
      AltListScanner(ps[1..], first.scanner);
    }
  }

  /** The public `alt` returns exactly what `detail::alt` returns. */
  lemma AltIsAltList<T>(ps: seq<Parser<T>>, s: Scanner)
    ensures Call(Alt(ps), s) == Call(AltList(ps), s)
  {
    SkippingIdempotent(s);
    var r := Call(AltList(ps), Skipping(s));
    MapIdentity(r.value);
  }

  lemma AltValue<T>(ps: seq<Parser<T>>, s: Scanner)
    ensures Call(Alt(ps), s).value == FirstSuccess(ps, Skipping(s))
  {
    AltIsAltList(ps, s);
    AltListValue(ps, s);
  }

  /** `alt(p, q)`: `p` inside `attempt`, then `q` inside `attempt` where `p`
      stopped; the value is `p`'s if present, else `q`'s. */
  lemma AltPair<T>(p: Parser<T>, q: Parser<T>, s: Scanner)
    ensures var first := Call(Attempt(p), Skipping(s));
            var second := Call(Attempt(q), Skipping(first.scanner));
            Call(Alt([p, q]), s) == Reply(OrElse(first.value, second.value), Skipping(second.scanner))
  {
    AltValue([p, q], s);
    AltIsAltList([p, q], s);
    AltListScanner([p, q], s);
    var t := Skipping(s);
    var first := Call(Attempt(p), t);
    AttemptSpec(p, t);
    var second := Call(Attempt(q), Skipping(first.scanner));
    AttemptSpec(q, Skipping(first.scanner));
    SkippingIdempotent(s);
    SkippingIdempotent(first.scanner);
    assert [p, q][1..] == [q];
    assert [q][1..] == [];
    assert AltScanner([q], Skipping(first.scanner)) == AltScanner<T>([], Skipping(second.scanner));
    assert AltScanner([p, q], t) == AltScanner([q], Skipping(first.scanner));
  }

  /** `alt(p, q, r)`: the three alternatives in turn, each inside `attempt`,
      each starting where the previous one stopped. */
  lemma AltTriple<T>(p: Parser<T>, q: Parser<T>, r: Parser<T>, s: Scanner)
    ensures var first := Call(Attempt(p), Skipping(s));
            var second := Call(Attempt(q), Skipping(first.scanner));
            var third := Call(Attempt(r), Skipping(second.scanner));
            Call(Alt([p, q, r]), s) ==
              Reply(OrElse(first.value, OrElse(second.value, third.value)), Skipping(third.scanner))
  {
    AltValue([p, q, r], s);
    AltIsAltList([p, q, r], s);
    AltListScanner([p, q, r], s);
    var t := Skipping(s);
    var first := Call(Attempt(p), t);
    AttemptSpec(p, t);
    var second := Call(Attempt(q), Skipping(first.scanner));
    AttemptSpec(q, Skipping(first.scanner));
    var third := Call(Attempt(r), Skipping(second.scanner));
    AttemptSpec(r, Skipping(second.scanner));
    SkippingIdempotent(s);
    SkippingIdempotent(first.scanner);
    SkippingIdempotent(second.scanner);
    assert [p, q, r][1..] == [q, r];
    assert [q, r][1..] == [r];
    assert [r][1..] == [];
    assert AltScanner([r], Skipping(second.scanner)) == AltScanner<T>([], Skipping(third.scanner));
    assert AltScanner([q, r], Skipping(first.scanner)) == AltScanner([r], Skipping(second.scanner));
    assert AltScanner([p, q, r], t) == AltScanner([q, r], Skipping(first.scanner));
    if first.value.None? {
      assert FirstSuccess([p, q, r], t) == FirstSuccess([q, r], t);
      if second.value.None? {
        assert FirstSuccess([q, r], t) == FirstSuccess([r], t);
      }
    }
  }

  // ----- many -----

  /** The `while` loop of `many`: attempt `p` until an attempt fails. */
  function ManyRun<T>(p: Parser<T>, s: Scanner): (r: Reply<seq<T>>)
    requires Progress(p)
    ensures r.value.Some?
    decreases |s.rest|
  {
    var step := Call(Attempt(p), s);
    if step.value.None? then Reply(Some([]), step.scanner)
    else
      AttemptSpec(p, s);
      assert |Skipping(s).rest| <= |s.rest|;
      var more := ManyRun(p, step.scanner);
      Reply(Some([step.value.value] + more.value.value), more.scanner)
  }

  /** `many(p)`. */
  function Many<T>(p: Parser<T>): Parser<seq<T>>
    requires Progress(p)
  {
    Parser((s: Scanner) => ManyRun(p, s), true)
  }

  /** `many` never fails, and it stops where `p` fails: the final attempt was
      undone to the scanner it entered, which is past its whitespace
      (zpc/parser.hpp:153-163). */
  lemma {:induction false} ManyRunStops<T>(p: Parser<T>, s: Scanner)
    requires Progress(p) && p.skipWs
    ensures Call(p, ManyRun(p, s).scanner).value.None?
    ensures Skipping(ManyRun(p, s).scanner) == ManyRun(p, s).scanner
    decreases |s.rest|
  {
    var step := Call(Attempt(p), s);
    AttemptSpec(p, s);
    if step.value.None? {
      SkippingIdempotent(s);
      CallAfterSkipping(p, s);
    } else {
      ManyRunStops(p, step.scanner);
    }
  }

  /** The list `many` returns: empty iff `p` fails at once; otherwise its head is
      `p`'s value and its tail is what `many` collects where `p` stopped. */
  lemma ManyRunUnfold<T>(p: Parser<T>, s: Scanner)
    requires Progress(p)
    ensures var first := Call(p, Skipping(s));
            var r := ManyRun(p, s);
            && (first.value.None? ==> r == Reply(Some([]), Skipping(s)))
            && (first.value.Some? ==>
                  r.value.value == [first.value.value] + ManyRun(p, first.scanner).value.value
                  && r.scanner == ManyRun(p, first.scanner).scanner)
  {
    AttemptSpec(p, s);
  }

  lemma ManySpec<T>(p: Parser<T>, s: Scanner)
    requires Progress(p) && p.skipWs
    ensures Call(Many(p), s).value.Some?
    ensures Call(p, Call(Many(p), s).scanner).value.None?
  {
    ManyRunStops(p, Skipping(s));
  }

  /** The `while` loop of `many` as the C++ writes it, appending each value
      with `emplace_back`. */
  method RunMany<T>(p: Parser<T>, s: Scanner) returns (vs: seq<T>, t: Scanner)
    requires Progress(p)
    ensures Reply(Some(vs), t) == ManyRun(p, s)
  {
    vs, t := [], s;
    var v := Call(Attempt(p), t);
    assert ManyRun(p, s).value.value == vs + ManyRun(p, t).value.value;
    while v.value.Some?
      invariant ManyRun(p, s).value.value == vs + ManyRun(p, t).value.value
      invariant ManyRun(p, s).scanner == ManyRun(p, t).scanner
      invariant v == Call(Attempt(p), t)
      decreases |t.rest|
    {
      AttemptSpec(p, t);
      ManyRunUnfold(p, t);
      ghost var before := t;
      assert ManyRun(p, before).value.value == [v.value.value] + ManyRun(p, v.scanner).value.value;
      vs, t := vs + [v.value.value], v.scanner;
      v := Call(Attempt(p), t);
    }
    assert ManyRun(p, t) == Reply(Some([]), v.scanner);
    assert vs + [] == vs;
    t := v.scanner;
    assert ManyRun(p, s) == Reply(Some(ManyRun(p, s).value.value), ManyRun(p, s).scanner);
  }

  // ----- lazy, opt, atom -----

  /** `lazy(p)`: a parser that calls `p` when it runs. */
  function Lazy<T>(p: Parser<T>): Parser<T>
  {
    Parser((s: Scanner) => Call(p, s), true)
  }

  lemma LazySpec<T>(p: Parser<T>, s: Scanner)
    requires p.skipWs
    ensures Call(Lazy(p), s) == Call(p, s)
  {
    CallAfterSkipping(p, s);
  }

  function OptRun<T>(p: Parser<T>, s: Scanner): Reply<Optional<T>>
  {
    var r := Call(p, s);
    Reply(Some(r.value), r.scanner)
  }

  /** `opt(p)`: never fails; holds `p`'s optional value, without rolling back. */
  function Opt<T>(p: Parser<T>): Parser<Optional<T>>
  {
    Parser((s: Scanner) => OptRun(p, s), true)
  }

  /** `opt(p)` never fails; its inner value is present iff `p` succeeded
      (zpc/parser.hpp:172-177). */
  lemma OptSpec<T>(p: Parser<T>, s: Scanner)
    ensures Call(Opt(p), s).value.Some?
    ensures Call(Opt(p), s).value.value == Call(p, Skipping(s)).value
    ensures Call(Opt(p), s).scanner == Call(p, Skipping(s)).scanner
  {
  }

  /** `p.atom()`: the same closure with whitespace skipping switched off. */
  function Atom<T>(p: Parser<T>): (r: Parser<T>)
    ensures !r.skipWs && r.run == p.run
  {
    p.(skipWs := false)
  }

  // ----- soundness of every combinator -----

  lemma MappedSound<T, U>(p: Parser<T>, f: T -> U)
    requires Sound(p)
    ensures Sound(Mapped(p, f))
  {
    forall s ensures Keeps(s, Mapped(p, f).run(s).scanner) { CallKeeps(p, s); }
  }

  lemma FilteredSound<T>(p: Parser<T>, f: T -> bool)
    requires Sound(p)
    ensures Sound(Filtered(p, f))
  {
    forall s ensures Keeps(s, Filtered(p, f).run(s).scanner) { CallKeeps(p, s); }
  }

  lemma SeqNilSound()
    ensures Sound(SeqNil())
  {
  }

  lemma SeqConsSound<A, B>(p: Parser<A>, q: Parser<B>)
    requires Sound(p) && Sound(q)
    ensures Sound(SeqCons(p, q))
  {
    forall s ensures Keeps(s, SeqCons(p, q).run(s).scanner) {
      CallKeeps(p, s);
      CallKeeps(q, Call(p, s).scanner);
    }
  }

  lemma AttemptSound<T>(p: Parser<T>)
    requires Sound(p)
    ensures Sound(Attempt(p))
  {
    forall s ensures Keeps(s, Attempt(p).run(s).scanner) { CallKeeps(p, s); }
  }

  lemma {:induction false} AltListSound<T>(ps: seq<Parser<T>>)
    requires forall i :: 0 <= i < |ps| ==> Sound(ps[i])
    ensures Sound(AltList(ps))
  {
    if ps != [] {
      AttemptSound(ps[0]);
      AltListSound(ps[1..]);
      forall s ensures Keeps(s, AltList(ps).run(s).scanner) {
        var first := Call(Attempt(ps[0]), s);
        CallKeeps(Attempt(ps[0]), s);
        CallKeeps(AltList(ps[1..]), first.scanner);
      }
    }
  }

  lemma AltSound<T>(ps: seq<Parser<T>>)
    requires forall i :: 0 <= i < |ps| ==> Sound(ps[i])
    ensures Sound(Alt(ps))
  {
    AltListSound(ps);
    MappedSound(AltList(ps), (v: T) => v);
  }

  /** Removing a prefix twice removes a prefix. */
  lemma KeepsTransitive(a: Scanner, b: Scanner, c: Scanner)
    requires Keeps(a, b) && Keeps(b, c)
    ensures Keeps(a, c)
  {
    assert a.rest[|a.rest| - |b.rest|..][|b.rest| - |c.rest|..] == a.rest[|a.rest| - |c.rest|..];
  }

  lemma {:induction false} ManyRunKeeps<T>(p: Parser<T>, s: Scanner)
    requires Progress(p) && Sound(p)
    ensures Keeps(s, ManyRun(p, s).scanner)
    decreases |s.rest|
  {
    AttemptSound(p);
    var step := Call(Attempt(p), s);
    CallKeeps(Attempt(p), s);
    if step.value.Some? {
      AttemptSpec(p, s);
      assert |Skipping(s).rest| <= |s.rest|;
      ManyRunKeeps(p, step.scanner);
      assert ManyRun(p, s).scanner == ManyRun(p, step.scanner).scanner;
      KeepsTransitive(s, step.scanner, ManyRun(p, step.scanner).scanner);
    }
  }

  lemma ManySound<T>(p: Parser<T>)
    requires Progress(p) && Sound(p)
    ensures Sound(Many(p))
  {
    forall s ensures Keeps(s, Many(p).run(s).scanner) { ManyRunKeeps(p, s); }
  }

  /** Every value `many(p)` collects is one that `p` gave on a scanner the loop
      reached, so a property of all of `p`'s values from `s` on holds of each. */
  lemma {:induction false} ManyRunAll<T>(p: Parser<T>, s: Scanner, P: T -> bool)
    requires Progress(p) && Sound(p)
    requires forall t :: Keeps(s, t) && Call(p, t).value.Some? ==> P(Call(p, t).value.value)
    ensures forall i :: 0 <= i < |ManyRun(p, s).value.value| ==> P(ManyRun(p, s).value.value[i])
    decreases |s.rest|
  {
    var first := Call(p, Skipping(s));
    ManyRunUnfold(p, s);
    if first.value.Some? {
      CallKeeps(p, Skipping(s));
      KeepsTransitive(s, Skipping(s), first.scanner);
      forall t | Keeps(first.scanner, t) && Call(p, t).value.Some?
        ensures P(Call(p, t).value.value)
      {
        KeepsTransitive(s, first.scanner, t);
      }
      assert |Skipping(s).rest| <= |s.rest|;
      ManyRunAll(p, first.scanner, P);
      var later := ManyRun(p, first.scanner).value.value;
      forall i | 0 <= i < |ManyRun(p, s).value.value|
        ensures P(ManyRun(p, s).value.value[i])
      {
        if i > 0 {
          assert ManyRun(p, s).value.value[i] == later[i - 1];
        }
      }
    }
  }

  lemma LazySound<T>(p: Parser<T>)
    requires Sound(p)
    ensures Sound(Lazy(p))
  {
    forall s ensures Keeps(s, Lazy(p).run(s).scanner) { CallKeeps(p, s); }
  }

  lemma OptSound<T>(p: Parser<T>)
    requires Sound(p)
    ensures Sound(Opt(p))
  {
    forall s ensures Keeps(s, Opt(p).run(s).scanner) { CallKeeps(p, s); }
  }

  // ----- progress -----

  lemma MappedProgress<T, U>(p: Parser<T>, f: T -> U)
    requires Progress(p)
    ensures Progress(Mapped(p, f))
  {
    forall s | Call(Mapped(p, f), s).value.Some?
      ensures |Call(Mapped(p, f), s).scanner.rest| < |s.rest|
    {
      assert Call(p, Skipping(s)).value.Some?;
    }
  }

  /** A sequence progresses when its first part does and the rest never grows the input. */
  lemma SeqConsProgress<A, B>(p: Parser<A>, q: Parser<B>)
    requires Progress(p) && Sound(q)
    ensures Progress(SeqCons(p, q))
  {
    forall s | Call(SeqCons(p, q), s).value.Some?
      ensures |Call(SeqCons(p, q), s).scanner.rest| < |s.rest|
    {
      var first := Call(p, Skipping(s));
      assert first.value.Some?;
      CallKeeps(q, first.scanner);
    }
  }

  /** A choice progresses when every alternative progresses and never grows the input. */
  lemma {:induction false} AltListProgress<T>(ps: seq<Parser<T>>)
    requires forall i :: 0 <= i < |ps| ==> Sound(ps[i]) && Progress(ps[i])
    ensures Progress(AltList(ps))
  {
    if ps != [] {
      AltListProgress(ps[1..]);
      AltListSound(ps[1..]);
      forall s | Call(AltList(ps), s).value.Some?
        ensures |Call(AltList(ps), s).scanner.rest| < |s.rest|
      {
        var t := Skipping(s);
        var first := Call(Attempt(ps[0]), t);
        AttemptSpec(ps[0], t);
        CallKeeps(AltList(ps[1..]), first.scanner);
        if first.value.None? {
          SkippingIdempotent(s);
        }
      }
    }
  }

  lemma AltProgress<T>(ps: seq<Parser<T>>)
    requires forall i :: 0 <= i < |ps| ==> Sound(ps[i]) && Progress(ps[i])
    ensures Progress(Alt(ps))
  {
    AltListProgress(ps);
    MappedProgress(AltList(ps), (v: T) => v);
  }

  lemma AtomProgress<T>(p: Parser<T>)
    requires Progress(p) && Sound(p)
    ensures Progress(Atom(p))
  {
    forall s | Call(Atom(p), s).value.Some?
      ensures |Call(Atom(p), s).scanner.rest| < |s.rest|
    {
      CallAtomic(Atom(p), s);
      var t := s.(skip := false);
      assert Call(p, t) == p.run(t);
      assert Call(p, t).value.Some?;
    }
  }

  // ----- agreement on short inputs, used to give `lazy` its meaning -----

  /** `p` and `q` answer alike on every scanner holding fewer than `k` characters. */
  ghost predicate Agree<T>(p: Parser<T>, q: Parser<T>, k: nat)
  {
    forall s: Scanner :: |s.rest| < k ==> Call(p, s) == Call(q, s)
  }

  lemma AgreeSelf<T>(p: Parser<T>, k: nat)
    ensures Agree(p, p, k)
  {
  }

  lemma LazyAgree<T>(p: Parser<T>, q: Parser<T>, k: nat)
    requires Agree(p, q, k)
    ensures Agree(Lazy(p), Lazy(q), k)
  {
    forall s: Scanner | |s.rest| < k ensures Call(Lazy(p), s) == Call(Lazy(q), s) {
      assert |Skipping(s).rest| <= |s.rest|;
    }
  }

  lemma MappedAgree<T, U>(p: Parser<T>, q: Parser<T>, f: T -> U, k: nat)
    requires Agree(p, q, k)
    ensures Agree(Mapped(p, f), Mapped(q, f), k)
  {
    forall s: Scanner | |s.rest| < k ensures Call(Mapped(p, f), s) == Call(Mapped(q, f), s) {
      assert |Skipping(s).rest| <= |s.rest|;
    }
  }

  lemma AttemptAgree<T>(p: Parser<T>, q: Parser<T>, k: nat)
    requires Agree(p, q, k)
    ensures Agree(Attempt(p), Attempt(q), k)
  {
    forall s: Scanner | |s.rest| < k ensures Call(Attempt(p), s) == Call(Attempt(q), s) {
      assert |Skipping(s).rest| <= |s.rest|;
    }
  }

  lemma SeqConsAgree<A, B>(p: Parser<A>, p': Parser<A>, q: Parser<B>, q': Parser<B>, k: nat)
    requires Sound(p) && Agree(p, p', k) && Agree(q, q', k)
    ensures Agree(SeqCons(p, q), SeqCons(p', q'), k)
  {
    forall s: Scanner | |s.rest| < k ensures Call(SeqCons(p, q), s) == Call(SeqCons(p', q'), s) {
      var t := Skipping(s);
      assert |t.rest| <= |s.rest|;
      var first := Call(p, t);
      assert first == Call(p', t);
      CallKeeps(p, t);
      assert |first.scanner.rest| < k;
      assert Call(q, first.scanner) == Call(q', first.scanner);
    }
  }

  /** A sequence that starts with a progressing parser looks at its rest only
      once a character is gone, so it agrees one character further. */
  lemma SeqConsShift<A, B>(p: Parser<A>, q: Parser<B>, q': Parser<B>, k: nat)
    requires Progress(p) && Agree(q, q', k)
    ensures Agree(SeqCons(p, q), SeqCons(p, q'), k + 1)
  {
    forall s: Scanner | |s.rest| < k + 1 ensures Call(SeqCons(p, q), s) == Call(SeqCons(p, q'), s) {
      var t := Skipping(s);
      assert |t.rest| <= |s.rest|;
    }
  }

  lemma {:induction false} AltListAgree<T>(ps: seq<Parser<T>>, qs: seq<Parser<T>>, k: nat)
    requires |ps| == |qs|
    requires forall i :: 0 <= i < |ps| ==> Sound(ps[i]) && Agree(ps[i], qs[i], k)
    ensures Agree(AltList(ps), AltList(qs), k)
  {
    if ps != [] {
      AltListAgree(ps[1..], qs[1..], k);
      AttemptAgree(ps[0], qs[0], k);
      AttemptSound(ps[0]);
      forall s: Scanner | |s.rest| < k ensures Call(AltList(ps), s) == Call(AltList(qs), s) {
        var t := Skipping(s);
        assert |t.rest| <= |s.rest|;
        CallKeeps(Attempt(ps[0]), t);
      }
    }
  }

  lemma AltAgree<T>(ps: seq<Parser<T>>, qs: seq<Parser<T>>, k: nat)
    requires |ps| == |qs|
    requires forall i :: 0 <= i < |ps| ==> Sound(ps[i]) && Agree(ps[i], qs[i], k)
    ensures Agree(Alt(ps), Alt(qs), k)
  {
    AltListAgree(ps, qs, k);
    MappedAgree(AltList(ps), AltList(qs), (v: T) => v, k);
  }

  lemma {:induction false} ManyRunAgree<T>(p: Parser<T>, q: Parser<T>, k: nat, s: Scanner)
    requires Progress(p) && Progress(q) && Sound(p) && Agree(p, q, k) && |s.rest| < k
    ensures ManyRun(p, s) == ManyRun(q, s)
    decreases |s.rest|
  {
    AttemptAgree(p, q, k);
    var step := Call(Attempt(p), s);
    if step.value.Some? {
      AttemptSpec(p, s);
      ManyRunAgree(p, q, k, step.scanner);
    }
  }

  lemma ManyAgree<T>(p: Parser<T>, q: Parser<T>, k: nat)
    requires Progress(p) && Progress(q) && Sound(p) && Agree(p, q, k)
    ensures Agree(Many(p), Many(q), k)
  {
    forall s: Scanner | |s.rest| < k ensures Call(Many(p), s) == Call(Many(q), s) {
      var t := Skipping(s);
      assert |t.rest| <= |s.rest|;
      ManyRunAgree(p, q, k, t);
    }
  }

  // ----- recursion through `lazy` -----

  /** The parser that, on an input of `n` characters, runs member `n + 1` of
      the family `f`. */
  function Diagonal<T>(f: nat -> Parser<T>): Parser<T>
  {
    Parser((s: Scanner) => Call(f(|s.rest| + 1), s), true)
  }

  /** When the family settles (member `n` already answers as every later one
      on inputs shorter than `n`), the diagonal answers as any member deep
      enough for the input. */
  lemma DiagonalCall<T>(f: nat -> Parser<T>, s: Scanner, m: nat)
    requires forall n: nat :: f(n).skipWs
    requires forall n: nat, j: nat :: n <= j ==> Agree(f(n), f(j), n)
    requires |s.rest| < m
    ensures Call(Diagonal(f), s) == Call(f(m), s)
  {
    var t := Skipping(s);
    var n := |t.rest| + 1;
    assert Call(Diagonal(f), s) == Call(f(n), t);
    assert Agree(f(n), f(m), n);
    CallAfterSkipping(f(m), s);
  }

  /** The diagonal agrees with member `k` on inputs shorter than `k`. */
  lemma DiagonalAgree<T>(f: nat -> Parser<T>, k: nat)
    requires forall n: nat :: f(n).skipWs
    requires forall n: nat, j: nat :: n <= j ==> Agree(f(n), f(j), n)
    ensures Agree(Diagonal(f), f(k), k)
  {
    forall s: Scanner | |s.rest| < k ensures Call(Diagonal(f), s) == Call(f(k), s) {
      DiagonalCall(f, s, k);
    }
  }

  /** The diagonal of a family of sound parsers is sound. */
  lemma DiagonalSound<T>(f: nat -> Parser<T>)
    requires forall n: nat :: Sound(f(n))
    ensures Sound(Diagonal(f))
  {
    forall s ensures Keeps(s, Diagonal(f).run(s).scanner) {
      CallKeeps(f(|s.rest| + 1), s);
    }
  }
}
