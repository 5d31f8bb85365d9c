/** Model of zpc/helper.hpp: the base parsers that move the scanner (`lit`,
    `ch`, `ch_range`, `raw`, `eof`) and the derived combinators `many1` and
    `sep_by`. */
module Helpers {
  import opened Optionals
  import opened Parsers

  predicate StartsWith(s: string, prefix: string)
  {
    |prefix| <= |s| && s[..|prefix|] == prefix
  }

  // ----- lit -----

  function LitRun(text: string, s: Scanner): Reply<string>
  {
    if StartsWith(s.rest, text) then Reply(Some(text), s.(rest := s.rest[|text|..]))
    else Reply(None, s)
  }

  /** `lit(s)`: the literal text, removed from the front of the input. */
  function Lit(text: string): Parser<string>
  {
    Parser((s: Scanner) => LitRun(text, s), true)
  }

  /** `lit(s)` succeeds iff the input (past its whitespace) starts with `s`,
      removing exactly `s` and returning it; otherwise it removes nothing more
      (zpc/helper.hpp:9-18). */
  lemma LitSpec(text: string, s: Scanner)
    ensures var t := Skipping(s);
            var r := Call(Lit(text), s);
            && (r.value.Some? <==> StartsWith(t.rest, text))
            && (r.value.Some? ==> r.value.value == text && t.rest == text + r.scanner.rest
                                  && r.scanner.skip == s.skip)
            && (r.value.None? ==> r.scanner == t)
  {
    var t := Skipping(s);
    if StartsWith(t.rest, text) {
      assert t.rest == t.rest[..|text|] + t.rest[|text|..];
    }
  }

  // ----- ch, ch_range -----

  function ChRun(f: char -> bool, s: Scanner): Reply<char>
  {
    if s.rest == [] || !f(s.rest[0]) then Reply(None, s)
    else Reply(Some(s.rest[0]), s.(rest := s.rest[1..]))
  }

  /** `ch(f)`: one character satisfying `f`. */
  function Ch(f: char -> bool): Parser<char>
  {
    Parser((s: Scanner) => ChRun(f, s), true)
  }

  /** `ch(f)` fails on empty input or when `f` rejects the first character, and
      then removes nothing more; otherwise it removes that one character and
      returns it (zpc/helper.hpp:20-28). */
  lemma ChSpec(f: char -> bool, s: Scanner)
    ensures var t := Skipping(s);
            var r := Call(Ch(f), s);
            && (r.value.Some? <==> t.rest != [] && f(t.rest[0]))
            && (r.value.Some? ==> [r.value.value] + r.scanner.rest == t.rest
                                  && r.scanner.skip == s.skip)
            && (r.value.None? ==> r.scanner == t)
  {
  }

  function InRange(l: char, r: char): char -> bool
  {
    (c: char) => l <= c && c <= r
  }

  /** `ch_range(l, r)`. */
  function ChRange(l: char, r: char): Parser<char>
  {
    Ch(InRange(l, r))
  }

  /** `ch_range(l, r)` accepts a character `c` iff `l <= c <= r`
      (zpc/helper.hpp:30-32). */
  lemma ChRangeSpec(l: char, h: char, s: Scanner)
    ensures var t := Skipping(s);
            var r := Call(ChRange(l, h), s);
            && (r.value.Some? <==> t.rest != [] && l <= t.rest[0] <= h)
            && (r.value.Some? ==> r.value.value == t.rest[0] && r.scanner.rest == t.rest[1..])
  {
  }

  // ----- raw -----

  function RawRun<T>(p: Parser<T>, s: Scanner): Reply<string>
    requires Sound(p)
  {
    var r := Call(p, s);
    CallKeeps(p, s);
    if r.value.None? then Reply(None, r.scanner)
    else Reply(Some(s.rest[..|s.rest| - |r.scanner.rest|]), r.scanner)
  }

  /** `raw(p)`: the text `p` consumed, instead of `p`'s value. */
  function Raw<T>(p: Parser<T>): Parser<string>
    requires Sound(p)
  {
    Parser((s: Scanner) => RawRun(p, s), true)
  }

  /** `raw(p)` succeeds iff `p` does; it returns exactly the text `p` consumed,
      a prefix of the input at entry (zpc/helper.hpp:35-42). */
  lemma RawSpec<T>(p: Parser<T>, s: Scanner)
    requires Sound(p)
    ensures var t := Skipping(s);
            var r := Call(Raw(p), s);
            && (r.value.Some? <==> Call(p, t).value.Some?)
            && r.scanner == Call(p, t).scanner
            && (r.value.Some? ==> r.value.value + r.scanner.rest == t.rest)
  {
    var t := Skipping(s);
    CallKeeps(p, t);
    var r := Call(p, t);
    assert t.rest == t.rest[..|t.rest| - |r.scanner.rest|] + t.rest[|t.rest| - |r.scanner.rest|..];
  }

  // ----- many1 -----

  function Many1Run<T>(p: Parser<T>, s: Scanner): Reply<seq<T>>
    requires Progress(p)
  {
    var r := Call(Many(p), s);
    if r.value.value == [] then Reply(None, r.scanner) else r
  }

  /** `many1(p)`: `many(p)`, failing when the list is empty. */
  function Many1<T>(p: Parser<T>): Parser<seq<T>>
    requires Progress(p)
  {
    Parser((s: Scanner) => Many1Run(p, s), true)
  }

  /** `many1(p)` fails iff `many(p)` yields the empty list, and otherwise returns
      that list; the scanner is where `many(p)` left it either way
      (zpc/helper.hpp:44-51). */
  lemma Many1Spec<T>(p: Parser<T>, s: Scanner)
    requires Progress(p)
    ensures var m := Call(Many(p), Skipping(s));
            var r := Call(Many1(p), s);
            && (r.value.None? <==> m.value.value == [])
            && (r.value.Some? ==> r.value == m.value)
            && r.scanner == m.scanner
  {
  }

  // ----- sep_by -----

  /** The list `sep_by` builds from the first value and the (separator, value) pairs. */
  function SepValues<T, S>(first: T, pairs: seq<(S, (T, ()))>): (r: seq<T>)
    ensures |r| == 1 + |pairs| && r[0] == first
    ensures forall i :: 0 <= i < |pairs| ==> r[i + 1] == pairs[i].1.0
  {
    [first] + seq(|pairs|, (i: int) requires 0 <= i < |pairs| => pairs[i].1.0)
  }

  /** The same list as the C++ builds it, with `emplace_back` in a `for` loop. */
  method CollectSeparated<T, S>(first: T, pairs: seq<(S, (T, ()))>) returns (r: seq<T>)
    ensures r == SepValues(first, pairs)
  {
    r := [first];
    var i := 0;
    while i < |pairs|
      invariant 0 <= i <= |pairs|
      invariant |r| == 1 + i && r[0] == first
      invariant forall j :: 0 <= j < i ==> r[j + 1] == pairs[j].1.0
    {
      r := r + [pairs[i].1.0];
      i := i + 1;
    }
  }

  function SepByList<T, S>(t: (T, (seq<(S, (T, ()))>, ()))): seq<T>
  {
    SepValues(t.0, t.1.0)
  }

  /** `sep_by(p, s)`: `seq(p, many(seq(s, p)))` with the separators dropped. */
  function SepBy<T, S>(p: Parser<T>, sep: Parser<S>): Parser<seq<T>>
    requires Progress(Seq2(sep, p))
  {
    Mapped(Seq2(p, Many(Seq2(sep, p))), (t: (T, (seq<(S, (T, ()))>, ()))) => SepByList(t))
  }

  /** `sep_by(p, s)` fails iff the first `p` fails, keeping what `p` consumed;
      on success its list is the first value followed by the value of each
      (separator, value) pair that `many` collected after it, and it ends past
      the whitespace after the last pair (zpc/helper.hpp:53-60). */
  lemma SepBySpec<T, S>(p: Parser<T>, sep: Parser<S>, s: Scanner)
    requires Progress(Seq2(sep, p))
    ensures var t := Skipping(s);
            var first := Call(p, t);
            var r := Call(SepBy(p, sep), s);
            && (r.value.Some? <==> first.value.Some?)
            && (r.value.Some? ==>
                  var pairs := Call(Many(Seq2(sep, p)), first.scanner).value.value;
                  && |r.value.value| == 1 + |pairs|
                  && r.value.value[0] == first.value.value
                  && (forall i :: 0 <= i < |pairs| ==> r.value.value[i + 1] == pairs[i].1.0)
                  && r.scanner == Skipping(Call(Many(Seq2(sep, p)), first.scanner).scanner))
            && (r.value.None? ==> r.scanner == first.scanner)
  {
    var t := Skipping(s);
    SkippingIdempotent(s);
    var inner := Seq2(p, Many(Seq2(sep, p)));
    SeqConsSpec(p, SeqCons(Many(Seq2(sep, p)), SeqNil()), t);
    var first := Call(p, t);
    if first.value.Some? {
      SeqConsSpec(Many(Seq2(sep, p)), SeqNil(), first.scanner);
      SeqNilSpec(Call(Many(Seq2(sep, p)), first.scanner).scanner);
    }
  }

  // ----- eof -----

  function EofRun<T>(p: Parser<T>, s: Scanner): Reply<T>
  {
    var r := Call(p, s);
    if r.scanner.rest == [] then r else Reply(None, r.scanner)
  }

  /** `eof(p)`: `p`, failing unless it leaves no input. */
  function Eof<T>(p: Parser<T>): Parser<T>
  {
    Parser((s: Scanner) => EofRun(p, s), true)
  }

  /** `eof(p)` succeeds only if `p` succeeds and no input remains afterwards;
      it keeps whatever `p` consumed (zpc/helper.hpp:62-69). */
  lemma EofSpec<T>(p: Parser<T>, s: Scanner)
    ensures var r := Call(Eof(p), s);
            var inner := Call(p, Skipping(s));
            && (r.value.Some? <==> inner.value.Some? && inner.scanner.rest == [])
            && (r.value.Some? ==> r.value == inner.value)
            && r.scanner == inner.scanner
  {
  }

  // ----- soundness and progress -----

  lemma LitSound(text: string)
    ensures Sound(Lit(text))
  {
    forall s ensures Keeps(s, Lit(text).run(s).scanner) {
      if StartsWith(s.rest, text) {
        assert s.rest == s.rest[..|text|] + s.rest[|text|..];
      }
    }
  }

  lemma LitProgress(text: string)
    requires text != []
    ensures Progress(Lit(text))
  {
    forall s | Call(Lit(text), s).value.Some?
      ensures |Call(Lit(text), s).scanner.rest| < |s.rest|
    {
      LitSpec(text, s);
    }
  }

  lemma ChSound(f: char -> bool)
    ensures Sound(Ch(f))
  {
  }

  lemma ChProgress(f: char -> bool)
    ensures Progress(Ch(f))
  {
    forall s | Call(Ch(f), s).value.Some?
      ensures |Call(Ch(f), s).scanner.rest| < |s.rest|
    {
      ChSpec(f, s);
    }
  }

  lemma RawSound<T>(p: Parser<T>)
    requires Sound(p)
    ensures Sound(Raw(p))
  {
    forall s ensures Keeps(s, Raw(p).run(s).scanner) { CallKeeps(p, s); }
  }

  lemma RawProgress<T>(p: Parser<T>)
    requires Sound(p) && Progress(p)
    ensures Progress(Raw(p))
  {
    forall s | Call(Raw(p), s).value.Some?
      ensures |Call(Raw(p), s).scanner.rest| < |s.rest|
    {
      RawSpec(p, s);
      assert Call(p, Skipping(s)).value.Some?;
    }
  }

  lemma Many1Sound<T>(p: Parser<T>)
    requires Progress(p) && Sound(p)
    ensures Sound(Many1(p))
  {
    ManySound(p);
    forall s ensures Keeps(s, Many1(p).run(s).scanner) { CallKeeps(Many(p), s); }
  }

  /** `many1(p)` consumes input whenever it succeeds, since `p` succeeded at least once. */
  lemma Many1Progress<T>(p: Parser<T>)
    requires Progress(p) && Sound(p)
    ensures Progress(Many1(p))
  {
    forall s | Call(Many1(p), s).value.Some?
      ensures |Call(Many1(p), s).scanner.rest| < |s.rest|
    {
      var t := Skipping(s);
      SkippingIdempotent(s);
      var u := Skipping(t);
      ManyRunUnfold(p, u);
      var first := Call(p, Skipping(u));
      assert first.value.Some?;
      ManyRunKeeps(p, first.scanner);
    }
  }

  lemma SepBySound<T, S>(p: Parser<T>, sep: Parser<S>)
    requires Progress(Seq2(sep, p)) && Sound(p) && Sound(sep)
    ensures Sound(SepBy(p, sep))
  {
    SeqNilSound();
    SeqConsSound(p, SeqNil());
    SeqConsSound(sep, SeqCons(p, SeqNil()));
    ManySound(Seq2(sep, p));
    SeqConsSound(Many(Seq2(sep, p)), SeqNil());
    SeqConsSound(p, SeqCons(Many(Seq2(sep, p)), SeqNil()));
    MappedSound(Seq2(p, Many(Seq2(sep, p))), (t: (T, (seq<(S, (T, ()))>, ()))) => SepByList(t));
  }

  lemma EofSound<T>(p: Parser<T>)
    requires Sound(p)
    ensures Sound(Eof(p))
  {
    forall s ensures Keeps(s, Eof(p).run(s).scanner) { CallKeeps(p, s); }
  }
}
