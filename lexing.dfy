/** What the token parsers of compiler.hpp:31-34 read. `alt` runs every
    alternative (zpc/parser.hpp:129-136), so one step of `letter` or of
    `alt(digit, letter)` may read more than one character; these lemmas show
    that `raw` nevertheless yields exactly the longest run of letters and
    digits for an identifier, and the longest run of digits for a number. */
module Lexing {
  import opened Optionals
  import opened Parsers
  import opened Helpers
  import opened Numerals
  import opened Ast
  import opened Grammar

  predicate IsLower(c: char)
  {
    'a' <= c <= 'z'
  }

  predicate IsUpper(c: char)
  {
    'A' <= c <= 'Z'
  }

  predicate IsAlpha(c: char)
  {
    IsLower(c) || IsUpper(c)
  }

  predicate IsAlnum(c: char)
  {
    IsDigit(c) || IsAlpha(c)
  }

  /** Length of the longest prefix of letters and digits. */
  function AlnumRun(s: string): (n: nat)
    ensures n <= |s|
    ensures forall i :: 0 <= i < n ==> IsAlnum(s[i])
    ensures n < |s| ==> !IsAlnum(s[n])
  {
    if s != [] && IsAlnum(s[0]) then 1 + AlnumRun(s[1..]) else 0
  }

  /** Length of the longest prefix of digits. */
  function DigitRun(s: string): (n: nat)
    ensures n <= |s|
    ensures forall i :: 0 <= i < n ==> IsDigit(s[i])
    ensures n < |s| ==> !IsDigit(s[n])
  {
    if s != [] && IsDigit(s[0]) then 1 + DigitRun(s[1..]) else 0
  }

  lemma {:induction false} AlnumRunSkip(s: string, a: nat)
    requires a <= |s| && forall i :: 0 <= i < a ==> IsAlnum(s[i])
    ensures AlnumRun(s) == a + AlnumRun(s[a..])
  {
    if a > 0 {
      assert s[1..][a - 1..] == s[a..];
      AlnumRunSkip(s[1..], a - 1);
    }
  }

  lemma {:induction false} DigitRunSkip(s: string)
    requires s != [] && IsDigit(s[0])
    ensures DigitRun(s) == 1 + DigitRun(s[1..])
  {
  }

  lemma {:induction false} DigitRunAll(s: string)
    requires forall i :: 0 <= i < |s| ==> IsDigit(s[i])
    ensures DigitRun(s) == |s|
  {
    if s != [] {
      DigitRunAll(s[1..]);
    }
  }

  // ----- parsers that read only letters and digits -----

  /** `r` is a reply of a parser run on `u` that succeeds exactly when the
      first character is one it `accept`s, consumes at least that character
      when it succeeds, nothing when it fails, and only letters and digits. */
  predicate ScanReply<T>(u: Scanner, r: Reply<T>, accept: char -> bool)
  {
    && r.scanner.skip == u.skip
    && IsSuffix(r.scanner.rest, u.rest)
    && (forall i :: 0 <= i < |u.rest| - |r.scanner.rest| ==> IsAlnum(u.rest[i]))
    && (r.value.Some? <==> u.rest != [] && accept(u.rest[0]))
    && (r.value.None? ==> r.scanner == u)
    && (r.value.Some? ==> |r.scanner.rest| < |u.rest|)
  }

  lemma ChRangeAt(l: char, h: char, accept: char -> bool, u: Scanner)
    requires !u.skip
    requires forall c :: l <= c <= h ==> IsAlnum(c)
    requires forall c :: accept(c) == (l <= c <= h)
    ensures ScanReply(u, Call(ChRange(l, h), u), accept)
  {
    ChSpec(InRange(l, h), u);
  }

  lemma AlnumPrefixJoin(u: string, w: string, z: string)
    requires IsSuffix(w, u) && IsSuffix(z, w)
    requires forall i :: 0 <= i < |u| - |w| ==> IsAlnum(u[i])
    requires forall i :: 0 <= i < |w| - |z| ==> IsAlnum(w[i])
    ensures IsSuffix(z, u)
    ensures forall i :: 0 <= i < |u| - |z| ==> IsAlnum(u[i])
  {
    forall i | |u| - |w| <= i < |u| - |z| ensures IsAlnum(u[i]) {
      assert u[i] == w[i - (|u| - |w|)];
    }
    assert u[|u| - |z|..] == w[|w| - |z|..];
  }

  /** `alt(p, q)` on a scanner: `p` inside `attempt`, then `q` inside
      `attempt` where `p` stopped. */
  lemma AltPairAt<T>(p: Parser<T>, q: Parser<T>, a: char -> bool, b: char -> bool, accept: char -> bool, u: Scanner)
    requires !u.skip
    requires ScanReply(u, Call(p, u), a)
    requires var w := Call(Attempt(p), u).scanner; ScanReply(w, Call(q, w), b)
    requires forall c :: accept(c) == (a(c) || b(c))
    ensures ScanReply(u, Call(Alt([p, q]), u), accept)
  {
    AltPair(p, q, u);
    var first := Call(Attempt(p), u);
    AttemptSpec(p, u);
    var w := first.scanner;
    var second := Call(Attempt(q), w);
    AttemptSpec(q, w);
    AlnumPrefixJoin(u.rest, w.rest, second.scanner.rest);
  }

  /** Inside an atom, `digit` reads one digit. */
  lemma DigitAt(u: Scanner)
    requires !u.skip
    ensures ScanReply(u, Call(Digit(), u), IsDigit)
  {
    ChRangeAt('0', '9', IsDigit, u);
  }

  /** Inside an atom, `letter` reads one letter, or two: its second
      alternative runs where the first one stopped. */
  lemma LetterAt(u: Scanner)
    requires !u.skip
    ensures ScanReply(u, Call(Letter(), u), IsAlpha)
  {
    var p := ChRange('a', 'z');
    var q := ChRange('A', 'Z');
    ChRangeAt('a', 'z', IsLower, u);
    AttemptSpec(p, u);
    var w := Call(Attempt(p), u).scanner;
    ChRangeAt('A', 'Z', IsUpper, w);
    AltPairAt(p, q, IsLower, IsUpper, IsAlpha, u);
  }

  /** Inside an atom, `alt(digit, letter)` reads only letters and digits. */
  lemma AlnumAt(u: Scanner)
    requires !u.skip
    ensures ScanReply(u, Call(Alnum(), u), IsAlnum)
  {
    DigitAt(u);
    AttemptSpec(Digit(), u);
    var w := Call(Attempt(Digit()), u).scanner;
    LetterAt(w);
    AltPairAt(Digit(), Letter(), IsDigit, IsAlpha, IsAlnum, u);
  }

  // ----- repetition -----

  /** Inside an atom, `p` reads as `ScanReply` describes with `IsAlnum`. */
  ghost predicate ScansAlnum<T>(p: Parser<T>)
  {
    forall u: Scanner {:trigger InsideAtom(u)} :: InsideAtom(u) ==> ScanReply(u, Call(p, u), IsAlnum)
  }

  /** The scanner an atom's closure sees: skipping is off. */
  predicate InsideAtom(u: Scanner)
  {
    !u.skip
  }

  lemma AlnumScans()
    ensures ScansAlnum(Alnum())
  {
    forall u: Scanner | InsideAtom(u) ensures ScanReply(u, Call(Alnum(), u), IsAlnum) {
      AlnumAt(u);
    }
  }

  /** One successful step of such a parser: it read part of the run. */
  lemma ScanStep<T>(u: Scanner, r: Reply<T>)
    requires ScanReply(u, r, IsAlnum) && r.value.Some?
    ensures r.scanner == u.(rest := u.rest[|u.rest| - |r.scanner.rest|..])
    ensures AlnumRun(u.rest) == |u.rest| - |r.scanner.rest| + AlnumRun(r.scanner.rest)
  {
    var a := |u.rest| - |r.scanner.rest|;
    AlnumRunSkip(u.rest, a);
  }

  /** A failed step: the run is empty. */
  lemma ScanStop<T>(u: Scanner, r: Reply<T>)
    requires ScanReply(u, r, IsAlnum) && r.value.None?
    ensures AlnumRun(u.rest) == 0 && u.rest[AlnumRun(u.rest)..] == u.rest
  {
  }

  /** `many(p)` over a parser that reads letters and digits as long as they
      come stops at the end of their run. */
  lemma {:induction false} ScanManyRun<T>(p: Parser<T>, u: Scanner)
    requires !u.skip && Progress(p) && ScansAlnum(p)
    ensures ManyRun(p, u).scanner == u.(rest := u.rest[AlnumRun(u.rest)..])
    decreases |u.rest|
  {
    var first := Call(p, u);
    assert InsideAtom(u);
    assert ScanReply(u, first, IsAlnum);
    assert Skipping(u) == u;
    ManyRunUnfold(p, u);
    if first.value.Some? {
      var w := first.scanner;
      ScanStep(u, first);
      assert InsideAtom(w);
      ScanManyRun(p, w);
      var a := |u.rest| - |w.rest|;
      assert u.rest[a..][AlnumRun(w.rest)..] == u.rest[a + AlnumRun(w.rest)..];
    } else {
      ScanStop(u, first);
    }
  }

  /** Inside the identifier atom, `many(alt(digit, letter))` stops exactly at
      the end of the run of letters and digits. */
  lemma AlnumManyScan(u: Scanner)
    requires !u.skip
    ensures Call(AlnumMany(), u).value.Some?
    ensures Call(AlnumMany(), u).scanner == u.(rest := u.rest[AlnumRun(u.rest)..])
  {
    LexicalReady();
    AlnumScans();
    ScanManyRun(Alnum(), u);
  }

  lemma {:induction false} DigitManyRun(u: Scanner)
    requires !u.skip && Progress(Digit())
    ensures ManyRun(Digit(), u).value.value == u.rest[..DigitRun(u.rest)]
    ensures ManyRun(Digit(), u).scanner == u.(rest := u.rest[DigitRun(u.rest)..])
    decreases |u.rest|
  {
    ChSpec(InRange('0', '9'), u);
    ManyRunUnfold(Digit(), u);
    var first := Call(Digit(), u);
    if first.value.Some? {
      var w := first.scanner;
      assert w.rest == u.rest[1..];
      DigitManyRun(w);
      assert u.rest[1..][DigitRun(w.rest)..] == u.rest[1 + DigitRun(w.rest)..];
      assert u.rest[..DigitRun(u.rest)] == [u.rest[0]] + u.rest[1..][..DigitRun(w.rest)];
    }
  }

  /** Inside the number atom, `many1(digit)` reads the run of digits, and
      fails, consuming nothing, when there is none. */
  lemma DigitsScan(u: Scanner)
    requires !u.skip
    ensures Call(Digits(), u).value.Some? <==> DigitRun(u.rest) > 0
    ensures Call(Digits(), u).scanner == u.(rest := u.rest[DigitRun(u.rest)..])
  {
    LexicalReady();
    Many1Spec(Digit(), u);
    DigitManyRun(u);
  }

  // ----- the token parsers -----

  /** The `many(alt(digit, letter))` half of the identifier's `seq`. */
  lemma IdentifierTailScan(w: Scanner)
    requires !w.skip
    ensures Call(SeqCons(AlnumMany(), SeqNil()), w).value.Some?
    ensures Call(SeqCons(AlnumMany(), SeqNil()), w).scanner == w.(rest := w.rest[AlnumRun(w.rest)..])
  {
    AlnumManyScan(w);
    SeqConsSpec(AlnumMany(), SeqNil(), w);
    SeqNilSpec(Call(AlnumMany(), w).scanner);
  }

  lemma IdentifierShapeScan(u: Scanner)
    requires !u.skip
    ensures Call(IdentifierShape(), u).value.Some? <==> u.rest != [] && IsAlpha(u.rest[0])
    ensures Call(IdentifierShape(), u).value.Some? ==>
              Call(IdentifierShape(), u).scanner == u.(rest := u.rest[AlnumRun(u.rest)..])
    ensures Call(IdentifierShape(), u).value.None? ==> Call(IdentifierShape(), u).scanner == u
  {
    LetterAt(u);
    var first := Call(Letter(), u);
    var tail := SeqCons(AlnumMany(), SeqNil());
    SeqConsSpec(Letter(), tail, u);
    if first.value.Some? {
      var w := first.scanner;
      var a := |u.rest| - |w.rest|;
      assert w.rest == u.rest[a..];
      AlnumRunSkip(u.rest, a);
      IdentifierTailScan(w);
      assert u.rest[a..][AlnumRun(w.rest)..] == u.rest[a + AlnumRun(w.rest)..];
    }
  }

  /** `identifier` succeeds exactly when, past the whitespace, the input starts
      with a letter; its name is then the whole run of letters and digits
      there, and the input continues right after it. On failure nothing but
      the whitespace is consumed (compiler.hpp:31-33). */
  lemma IdentifierSpec(s: Scanner)
    ensures var t := Skipping(s);
            var n := AlnumRun(t.rest);
            Call(IdentifierP(), s) ==
              if t.rest != [] && IsAlpha(t.rest[0])
              then Reply(Some(Identifier(t.rest[..n])), t.(rest := t.rest[n..]))
              else Reply(None, t)
  {
    var t := Skipping(s);
    var u := t.(skip := false);
    IdentifierShapeSound();
    RawSound(IdentifierShape());
    SkippingIdempotent(s);
    var a := Atom(Raw(IdentifierShape()));
    CallAtomic(a, t);
    IdentifierShapeScan(u);
    var inner := Call(IdentifierShape(), u);
    assert a.run(u) == RawRun(IdentifierShape(), u);
    MappedSpec(a, IdentifierOf, s);
  }

  /** `number` succeeds exactly when, past the whitespace, the input starts
      with a digit; its value is `std::stoi` of the whole run of digits, and
      the input continues right after it (compiler.hpp:32, 34). */
  lemma NumberSpec(s: Scanner)
    ensures var t := Skipping(s);
            var n := DigitRun(t.rest);
            Call(NumberP(), s) ==
              if n > 0
              then Reply(Some(Num(DecimalValue(t.rest[..n]))), t.(rest := t.rest[n..]))
              else Reply(None, t)
  {
    var t := Skipping(s);
    var u := t.(skip := false);
    DigitsSound();
    RawSound(Digits());
    SkippingIdempotent(s);
    var a := Atom(Raw(Digits()));
    CallAtomic(a, t);
    DigitsScan(u);
    assert a.run(u) == RawRun(Digits(), u);
    MappedSpec(a, NumOf, s);
  }
}
