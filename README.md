# small-compiler in Dafny

A model of the core of zerolfx/small-compiler. This C++ program compiles a small
imperative language (`read x`, `write e`, `x := e`, statements separated by `;`)
into text for a stack machine (P-code: `ssp`, `ldc`, `lod`, `str`, `in`, `out`,
`add` … `hlt`). It has three parts, and each has a module here:

- **The parser-combinator library** `zpc` (`Optionals`, `Parsers`, `Helpers`).
  - A `Scanner` is the remaining input plus the `skip` flag.
  - A `Parser<T>` is its closure, `run: Scanner -> Reply<T>`, plus the `skip_` flag that `atom()` clears.
  - `Reply` pairs the optional value with the scanner as the C++ leaves it behind.
  - `Call` is `Parser::operator()`. It flips the flag for an atomic parser, strips leading whitespace (the `while` loop, `StripLeadingSpace`), runs the closure and restores the flag.
  - Every combinator is a function that builds a new `Parser` whose closure calls `Call` on the parsers it holds. So every nested parser object strips whitespace exactly where the C++ one does.
  - Behaviour is kept exactly as written:
    - `attempt` is the only combinator that rolls back.
    - `seq`, `raw`, `eof` and `/=` keep what they consumed before failing.
    - `opt` never fails; it passes on what `p` consumed, also when `p` failed.
    - `alt` runs every remaining alternative even after one has succeeded, because the C++ evaluates the argument of `or_else` eagerly.
- **The grammar** of compiler.hpp (`Grammar`, `Lexing`, `Behaviour`, `Precedence`, `Ranking`).
  - `build_binary_parser` and the four-level cascade `factor`/`term`/`simple_exp`/`expr` are written as `Factor(e)`, `Term(e)`, `SimpleExp(e)` and `ExprP(e)`. Here `e` is the parser that `lazy(expr)` refers to.
  - The `static Parser<Expr*> expr` that is assigned after `lazy` captured its address becomes `ExprRef()`, the limit of the unfoldings `Approx(n)`. It is proved a fixed point of `ExprP` and the only one (`ExprRefFixpoint`, `ExprRefUnique`).
  - The statements and `eof(sep_by(statement, lit(";")))` follow.
  - `Behaviour` and `Precedence` prove what the grammar does on the inputs that show its quirks:
    - `12x` is one number and the name is swallowed;
    - `readx` reads `x`, because keywords are not reserved;
    - `read x write 5` drops the write;
    - `<=` wins over `<`;
    - `1+2*3` is `1 + (2 * 3)`.
  - `Ranking` proves precedence on every input: without parentheses the tree of `expr` puts `*`/`/` below `+`/`-` below the relational operators, each level associating to the left; a parenthesised factor is the whole expression inside.
- **The AST, code generation and the symbol table** (`Ast`, `CodeGen`, `Environment`, `Compiler`).
  - `to_string` and `gen` are functions over the `Expr`/`Stmt` datatypes.
  - A thrown `std::runtime_error` becomes a `Result` error.
  - `Env` is a class whose field `symTable` is `sym_table`.
  - `gen` only reads it, so it is modelled as a function of the table.
  - `compile` is a method that drives the parser and a fresh `Env`.
  - As written, no code calls `register_identifier`. Every program that mentions a variable therefore fails in generation with "Reference to undefined variable x." (`VariablesNeverCompile`). `read`'s code lacks the newline after `in i` (`ReadGluesLines`).

Integers are mathematical integers. Strings are `seq<char>`, and whitespace is
the six characters C's `isspace` accepts in the "C" locale.

## Model

| member | source | states |
|---|---|---|
| Optionals.Map | zpc/optional.hpp:18-22 | empty stays empty; a present value `v` becomes `f(v)`; presence is preserved |
| Optionals.FlatMap | zpc/optional.hpp:24-28 | empty stays empty; a present value `v` gives `f(v)` unchanged |
| Optionals.OrElse | zpc/optional.hpp:30-33 | the receiver when present, otherwise the alternative; present iff either is |
| Optionals.MapIdentity | zpc/optional.hpp:18-22 | mapping the identity changes nothing |
| Optionals.MapCompose | zpc/optional.hpp:18-22 | two maps in a row are one map of the composition |
| Optionals.FlatMapOfTotal | zpc/optional.hpp:18-28 | `flat_map` of a function that always answers is `map` |
| Optionals.OrElseAssociative | zpc/optional.hpp:30-33 | chained `or_else` regroups freely: `(a or_else b) or_else c` equals `a or_else (b or_else c)` for all three optionals |
| Numerals.DigitChar | ast.h:63-65 | the character of a decimal digit |
| Numerals.NatToString | ast.h:63-65 | `{}` formatting of a natural: a non-empty digit string with no leading zero |
| Numerals.IntToString | ast.h:63-65 | `{}` formatting of an int: for `v >= 0` all digits, reading back as `v`; for `v < 0` a `-` followed by digits reading back as `-v` |
| Numerals.DecimalValueOfNatToString | compiler.hpp:34 | reading back the formatted digits gives the number again |
| Numerals.DecimalValue | compiler.hpp:34 | definition of the value `std::stoi` reads from a digit run; its behaviour is stated by `Numerals.DecimalValueOfNatToString` and `Numerals.DecimalValueLeadingZero` |
| Numerals.DecimalValueLeadingZero | compiler.hpp:34 | a leading zero does not change the value a digit run denotes |
| Parsers.Skipping | zpc/parser.hpp:53 | definition: the scanner with its leading whitespace removed when its flag is on; its behaviour is stated by `Parsers.SkipSpace` and `Parsers.SkippingIdempotent` |
| Parsers.Call | zpc/parser.hpp:50-57 | definition of `Parser::operator()`; its behaviour is stated by `Parsers.CallStripsSpace`, `Parsers.CallAtomic`, `Parsers.CallKeeps` and `Parsers.CallAfterSkipping` |
| Parsers.MappedRun | zpc/parser.hpp:72-74 | definition of the closure of `%`/`%=`; its behaviour is stated by `Parsers.MappedSpec` |
| Parsers.Mapped | zpc/parser.hpp:70-82 | definition of `p % f` and `p %= f`; its behaviour is stated by `Parsers.MappedSpec`, `Parsers.MappedSound` and `Parsers.MappedProgress` |
| Parsers.FilteredRun | zpc/parser.hpp:86-88 | definition of the closure of `/=`; its behaviour is stated by `Parsers.FilteredSpec` |
| Parsers.Filtered | zpc/parser.hpp:84-89 | definition of `p /= f`; its behaviour is stated by `Parsers.FilteredSpec` and `Parsers.FilteredSound` |
| Parsers.SeqNilRun | zpc/parser.hpp:96-98 | definition of the closure of `seq()`; its behaviour is stated by `Parsers.SeqNilSpec` |
| Parsers.SeqNil | zpc/parser.hpp:95-99 | definition of `seq()`; its behaviour is stated by `Parsers.SeqNilSpec` and `Parsers.SeqNilSound` |
| Parsers.SeqConsRun | zpc/parser.hpp:103-109 | definition of the closure of `seq(p, ps...)`; its behaviour is stated by `Parsers.SeqConsSpec` |
| Parsers.SeqCons | zpc/parser.hpp:101-110 | definition of `seq(p, ps...)` as a nested pair; its behaviour is stated by `Parsers.SeqConsSpec`, `Parsers.SeqConsSound` and `Parsers.SeqConsProgress` |
| Parsers.Seq2 | zpc/parser.hpp:101-110 | definition of `seq(p, q)`; its behaviour follows from `Parsers.SeqConsSpec` and `Parsers.SeqNilSpec` |
| Parsers.Seq3 | zpc/parser.hpp:101-110 | definition of `seq(p, q, r)`; its behaviour follows from `Parsers.SeqConsSpec`, and `Grammar.Seq3Sound` states it is well behaved |
| Parsers.AttemptRun | zpc/parser.hpp:114-119 | definition of the closure of `attempt`; its behaviour is stated by `Parsers.AttemptSpec` |
| Parsers.Attempt | zpc/parser.hpp:112-120 | definition of `attempt(p)`; its behaviour is stated by `Parsers.AttemptSpec` and `Parsers.AttemptSound` |
| Parsers.AltListRun | zpc/parser.hpp:122-136 | definition of the closure of `detail::alt`, with the `or_else` argument evaluated eagerly; its behaviour is stated by `Parsers.AltListValue` and `Parsers.AltListScanner` |
| Parsers.AltList | zpc/parser.hpp:122-136 | definition of `detail::alt`; its behaviour is stated by `Parsers.AltListValue`, `Parsers.AltListScanner` and `Parsers.AltListSound` |
| Parsers.Alt | zpc/parser.hpp:148-151 | definition of `alt(ps...)` over one element type; its behaviour is stated by `Parsers.AltIsAltList` and `Parsers.AltValue` |
| Parsers.AltScanner | zpc/parser.hpp:133-134 | definition of the scanner every alternative leaves in turn; `Parsers.AltListScanner` proves `detail::alt` ends on it |
| Parsers.Many | zpc/parser.hpp:153-163 | definition of `many(p)`; its behaviour is stated by `Parsers.ManySpec`, `Parsers.ManyRunUnfold` and, for the loop, `Parsers.RunMany` |
| Parsers.Lazy | zpc/parser.hpp:165-170 | definition of `lazy(p)`; its behaviour is stated by `Parsers.LazySpec` and `Parsers.LazySound` |
| Parsers.OptRun | zpc/parser.hpp:174-176 | definition of the closure of `opt`; its behaviour is stated by `Parsers.OptSpec` |
| Parsers.Opt | zpc/parser.hpp:172-177 | definition of `opt(p)`; its behaviour is stated by `Parsers.OptSpec` and `Parsers.OptSound` |
| Parsers.SkipSpace | zpc/parser.hpp:53 | the input with its leading whitespace removed: a suffix, next character not a space, everything removed a space |
| Parsers.StripLeadingSpace | zpc/parser.hpp:53 | the `while (... isspace(in[0])) remove_prefix(1)` loop computes `SkipSpace` |
| Parsers.SkipSpaceIdempotent | zpc/parser.hpp:53 | stripping twice is stripping once |
| Parsers.SkippingIdempotent | zpc/parser.hpp:53 | skipping whitespace on an already skipped scanner changes nothing |
| Parsers.CallStripsSpace | zpc/parser.hpp:50-54 | with the flag on and a non-atomic parser, the closure sees the input without its leading whitespace |
| Parsers.CallAtomic | zpc/parser.hpp:50-62 | an atomic parser runs its closure with skipping off and the flag is restored afterwards |
| Parsers.CallKeeps | zpc/parser.hpp:50-57 | every call leaves a suffix of its input and the flag it found |
| Parsers.CallAfterSkipping | zpc/parser.hpp:50-54 | skipping before a non-atomic call changes nothing, since the call skips anyway |
| Parsers.MappedSpec | zpc/parser.hpp:70-82 | `p % f` and `p %= f` are present iff `p` is, with value `f(v)` and `p`'s scanner |
| Parsers.FilteredSpec | zpc/parser.hpp:84-89 | `p /= f` is present iff `p` gives `v` and `f(v)` holds, keeping `p`'s consumption either way |
| Parsers.MappedFusion | zpc/parser.hpp:70-75 | two `%` in a row are one `%` of the composition |
| Parsers.SeqNilSpec | zpc/parser.hpp:95-99 | `seq()` succeeds with the empty tuple and consumes nothing beyond the whitespace |
| Parsers.SeqConsSpec | zpc/parser.hpp:101-110 | `seq(p, ps...)` succeeds iff `p` and then the rest succeed, pairing their values in order; a failing `p` keeps its consumption |
| Parsers.AttemptSpec | zpc/parser.hpp:112-120 | `attempt(p)` answers `p`'s value; on failure the scanner is the one its closure was entered with, on success `p`'s |
| Parsers.FirstSuccess | zpc/parser.hpp:130-136 | the first present value of a list of alternatives; absent iff every alternative fails |
| Parsers.AltListValue | zpc/parser.hpp:122-136 | `detail::alt` returns the value of the first alternative that succeeds |
| Parsers.AltListScanner | zpc/parser.hpp:130-136 | `detail::alt` leaves the scanner where the last alternative's attempt left it, as every alternative runs |
| Parsers.AltIsAltList | zpc/parser.hpp:148-151 | the public `alt` over one element type is `detail::alt` (the `flat` layer is the identity) |
| Parsers.AltValue | zpc/parser.hpp:122-151 | `alt` returns the first success, and fails iff every alternative fails |
| Parsers.AltPair | zpc/parser.hpp:130-136 | two alternatives: both attempts run in turn, the first present value wins |
| Parsers.AltTriple | zpc/parser.hpp:130-136 | three alternatives: all three attempts run in turn, the first present value wins |
| Parsers.ManyRun | zpc/parser.hpp:153-163 | `many` always succeeds |
| Parsers.ManyRunStops | zpc/parser.hpp:153-163 | `many` stops where `p` fails, its final failed attempt undone to a skipped scanner |
| Parsers.ManyRunUnfold | zpc/parser.hpp:155-162 | the list is empty iff `p` fails at once; otherwise `p`'s value followed by what `many` collects after it |
| Parsers.ManySpec | zpc/parser.hpp:153-163 | `many(p)` never fails, and `p` fails where it stopped |
| Parsers.RunMany | zpc/parser.hpp:155-162 | the `while`/`emplace_back` loop computes `ManyRun` (values in order and final scanner) |
| Parsers.LazySpec | zpc/parser.hpp:165-170 | `lazy(p)` answers as `p` |
| Parsers.OptSpec | zpc/parser.hpp:172-177 | `opt(p)` never fails; its inner value is `p`'s, and it keeps `p`'s scanner |
| Parsers.Atom | zpc/parser.hpp:59-62 | `atom()` keeps the closure and clears the skip flag |
| Parsers.MappedSound | zpc/parser.hpp:70-75 | `%` keeps the suffix-and-flag property |
| Parsers.FilteredSound | zpc/parser.hpp:84-89 | `/=` keeps the suffix-and-flag property |
| Parsers.SeqNilSound | zpc/parser.hpp:95-99 | `seq()` has the suffix-and-flag property |
| Parsers.SeqConsSound | zpc/parser.hpp:101-110 | `seq` keeps the suffix-and-flag property |
| Parsers.AttemptSound | zpc/parser.hpp:112-120 | `attempt` keeps the suffix-and-flag property |
| Parsers.AltListSound | zpc/parser.hpp:122-136 | `detail::alt` keeps the suffix-and-flag property |
| Parsers.AltSound | zpc/parser.hpp:148-151 | `alt` keeps the suffix-and-flag property |
| Parsers.ManyRunKeeps | zpc/parser.hpp:155-162 | the `many` loop leaves a suffix of its input and the flag |
| Parsers.ManySound | zpc/parser.hpp:153-163 | `many` keeps the suffix-and-flag property |
| Parsers.LazySound | zpc/parser.hpp:165-170 | `lazy` keeps the suffix-and-flag property |
| Parsers.OptSound | zpc/parser.hpp:172-177 | `opt` keeps the suffix-and-flag property |
| Parsers.MappedProgress | zpc/parser.hpp:70-75 | `%` of a consuming parser consumes |
| Parsers.SeqConsProgress | zpc/parser.hpp:101-110 | a `seq` whose first part consumes consumes |
| Parsers.AltListProgress | zpc/parser.hpp:122-136 | `detail::alt` of consuming parsers consumes |
| Parsers.AltProgress | zpc/parser.hpp:148-151 | `alt` of consuming parsers consumes |
| Parsers.AtomProgress | zpc/parser.hpp:59-62 | `atom()` of a consuming parser consumes |
| Parsers.LazyAgree | zpc/parser.hpp:165-170 | `lazy` of parsers that agree on short inputs agree there |
| Parsers.MappedAgree | zpc/parser.hpp:70-75 | `%` preserves agreement on short inputs |
| Parsers.AttemptAgree | zpc/parser.hpp:112-120 | `attempt` preserves agreement on short inputs |
| Parsers.SeqConsAgree | zpc/parser.hpp:101-110 | `seq` preserves agreement on short inputs |
| Parsers.SeqConsShift | zpc/parser.hpp:101-110 | after a consuming first part, `seq` agrees one character further than its tail |
| Parsers.AltListAgree | zpc/parser.hpp:122-136 | `detail::alt` preserves agreement on short inputs |
| Parsers.AltAgree | zpc/parser.hpp:148-151 | `alt` preserves agreement on short inputs |
| Parsers.ManyRunAgree | zpc/parser.hpp:155-162 | the `many` loop of agreeing parsers gives the same reply on short inputs |
| Parsers.ManyAgree | zpc/parser.hpp:153-163 | `many` preserves agreement on short inputs |
| Parsers.DiagonalCall | compiler.hpp:36-41 | the parser read through `lazy(expr)` answers, on an input shorter than `m`, as the `m`-th unfolding |
| Parsers.DiagonalAgree | compiler.hpp:36-41 | that parser agrees with the `k`-th unfolding on inputs shorter than `k` |
| Parsers.DiagonalSound | compiler.hpp:36-41 | that parser has the suffix-and-flag property |
| Helpers.Lit | zpc/helper.hpp:9-18 | definition of `lit(s)`; its behaviour is stated by `Helpers.LitSpec`, `Helpers.LitSound` and `Helpers.LitProgress` |
| Helpers.LitRun | zpc/helper.hpp:10-17 | definition of the closure of `lit(s)`; its behaviour is stated by `Helpers.LitSpec` |
| Helpers.Ch | zpc/helper.hpp:20-28 | definition of `ch(f)`; its behaviour is stated by `Helpers.ChSpec`, `Helpers.ChSound` and `Helpers.ChProgress` |
| Helpers.ChRun | zpc/helper.hpp:22-27 | definition of the closure of `ch(f)`; its behaviour is stated by `Helpers.ChSpec` |
| Helpers.ChRange | zpc/helper.hpp:30-32 | definition of `ch_range(l, r)`; its behaviour is stated by `Helpers.ChRangeSpec` |
| Helpers.Raw | zpc/helper.hpp:35-42 | definition of `raw(p)`; its behaviour is stated by `Helpers.RawSpec`, `Helpers.RawSound` and `Helpers.RawProgress` |
| Helpers.RawRun | zpc/helper.hpp:37-41 | definition of the closure of `raw(p)`; its behaviour is stated by `Helpers.RawSpec` |
| Helpers.Many1 | zpc/helper.hpp:44-51 | definition of `many1(p)`; its behaviour is stated by `Helpers.Many1Spec`, `Helpers.Many1Sound` and `Helpers.Many1Progress` |
| Helpers.Many1Run | zpc/helper.hpp:46-50 | definition of the closure of `many1(p)`; its behaviour is stated by `Helpers.Many1Spec` |
| Helpers.SepByList | zpc/helper.hpp:55-59 | definition of the `%=` function of `sep_by`; its behaviour is stated by `Helpers.SepValues` and `Helpers.CollectSeparated` |
| Helpers.SepBy | zpc/helper.hpp:53-60 | definition of `sep_by(p, s)`; its behaviour is stated by `Helpers.SepBySpec` and `Helpers.SepBySound` |
| Helpers.Eof | zpc/helper.hpp:62-69 | definition of `eof(p)`; its behaviour is stated by `Helpers.EofSpec` and `Helpers.EofSound` |
| Helpers.EofRun | zpc/helper.hpp:64-68 | definition of the closure of `eof(p)`; its behaviour is stated by `Helpers.EofSpec` |
| Helpers.LitSpec | zpc/helper.hpp:9-18 | `lit(s)` succeeds iff the input starts with `s`, consuming exactly `s` and returning it; otherwise nothing is consumed |
| Helpers.ChSpec | zpc/helper.hpp:20-28 | `ch(f)` fails on empty input or when `f` rejects the first character; otherwise it returns and consumes that one character |
| Helpers.ChRangeSpec | zpc/helper.hpp:30-32 | `ch_range(l, r)` accepts `c` iff `l <= c <= r` |
| Helpers.RawSpec | zpc/helper.hpp:35-42 | `raw(p)` succeeds iff `p` does and returns exactly the text `p` consumed, a prefix of the input |
| Helpers.Many1Spec | zpc/helper.hpp:44-51 | `many1(p)` fails iff `many(p)` yields the empty list, otherwise returns that list |
| Helpers.SepValues | zpc/helper.hpp:55-59 | the list has length 1 + #pairs: the first value, then the second component of each pair, separators dropped |
| Helpers.CollectSeparated | zpc/helper.hpp:56-57 | the `emplace_back` loop of `sep_by` builds that list |
| Helpers.SepBySpec | zpc/helper.hpp:53-60 | `sep_by(p, s)` succeeds iff the first `p` does, giving the first value and the value of every `(s, p)` pair in order and ending past the whitespace after the last pair; on failure it keeps what the first `p` consumed |
| Helpers.EofSpec | zpc/helper.hpp:62-69 | `eof(p)` succeeds iff `p` does and no input is left, keeping `p`'s consumption either way |
| Helpers.LitSound | zpc/helper.hpp:9-18 | `lit` has the suffix-and-flag property |
| Helpers.LitProgress | zpc/helper.hpp:9-18 | `lit` of a non-empty text consumes |
| Helpers.ChSound | zpc/helper.hpp:20-28 | `ch` has the suffix-and-flag property |
| Helpers.ChProgress | zpc/helper.hpp:20-28 | `ch` consumes when it succeeds |
| Helpers.RawSound | zpc/helper.hpp:35-42 | `raw` keeps the suffix-and-flag property |
| Helpers.RawProgress | zpc/helper.hpp:35-42 | `raw` of a consuming parser consumes |
| Helpers.Many1Sound | zpc/helper.hpp:44-51 | `many1` keeps the suffix-and-flag property |
| Helpers.Many1Progress | zpc/helper.hpp:44-51 | `many1` consumes when it succeeds |
| Helpers.SepBySound | zpc/helper.hpp:53-60 | `sep_by` keeps the suffix-and-flag property |
| Helpers.EofSound | zpc/helper.hpp:62-69 | `eof` keeps the suffix-and-flag property |
| Lexing.AlnumRun | compiler.hpp:33 | the length of the leading run of letters and digits |
| Lexing.DigitRun | compiler.hpp:32-34 | the length of the leading run of digits |
| Lexing.ChRangeAt | zpc/helper.hpp:30-32 | a `ch_range` inside an atom reads one character of its range |
| Lexing.AltPairAt | compiler.hpp:31 | `alt` of two one-character parsers accepts a character either accepts |
| Lexing.DigitAt | compiler.hpp:32 | `digit` reads one decimal digit |
| Lexing.LetterAt | compiler.hpp:31 | inside an atom, `letter` succeeds iff an ASCII letter comes first; since both alternatives run, a lower-case letter followed by an upper-case one is read as two characters; it consumes only letters and digits, at least one on success and nothing on failure |
| Lexing.AlnumAt | compiler.hpp:33 | inside an atom, `alt(digit, letter)` succeeds iff a letter or digit comes first; since every alternative runs, it may read more than one character, but only letters and digits, at least one on success and nothing on failure |
| Lexing.ScanManyRun | compiler.hpp:33 | `many` of a one-alphanumeric parser stops after the alphanumeric run |
| Lexing.AlnumManyScan | compiler.hpp:33 | `many(alt(digit, letter))` consumes the whole alphanumeric run |
| Lexing.DigitManyRun | compiler.hpp:34 | `many(digit)` returns the digit run and stops after it |
| Lexing.DigitsScan | compiler.hpp:34 | `many1(digit)` succeeds iff a digit follows and consumes the digit run |
| Lexing.IdentifierTailScan | compiler.hpp:33 | the tail `seq(many(...))` of an identifier consumes the alphanumeric run |
| Lexing.IdentifierShapeScan | compiler.hpp:33 | `seq(letter, many(alt(digit, letter)))` succeeds iff a letter follows, and then consumes the whole alphanumeric run |
| Lexing.IdentifierSpec | compiler.hpp:31-33 | `identifier` is a letter then letters or digits, read with no whitespace inside; the name is exactly that text |
| Lexing.NumberSpec | compiler.hpp:32-34 | `number` is a non-empty digit run read with no whitespace inside, valued by its decimal reading |
| Grammar.Letter | compiler.hpp:31 | definition of `letter`; its behaviour is stated by `Lexing.LetterAt` |
| Grammar.Digit | compiler.hpp:32 | definition of `digit`; its behaviour is stated by `Lexing.DigitAt` |
| Grammar.Digits | compiler.hpp:34 | definition of `many1(digit)`; its behaviour is stated by `Lexing.DigitsScan` and `Grammar.DigitsSound` |
| Grammar.Alnum | compiler.hpp:33 | definition of `alt(digit, letter)`; its behaviour is stated by `Lexing.AlnumAt` |
| Grammar.AlnumMany | compiler.hpp:33 | definition of `many(alt(digit, letter))`; its behaviour is stated by `Lexing.AlnumManyScan` |
| Grammar.IdentifierShape | compiler.hpp:33 | definition of `seq(letter, many(alt(digit, letter)))`; its behaviour is stated by `Lexing.IdentifierShapeScan` and `Grammar.IdentifierShapeSound` |
| Grammar.IdentifierP | compiler.hpp:33 | definition of `identifier`; its behaviour is stated by `Lexing.IdentifierSpec` |
| Grammar.Stoi | compiler.hpp:34 | definition of `std::stoi` on a digit run as its decimal value; its behaviour is stated by `Numerals.DecimalValueOfNatToString`, `Numerals.DecimalValueLeadingZero` and `Lexing.NumberSpec` |
| Grammar.NumberP | compiler.hpp:34 | definition of `number`; its behaviour is stated by `Lexing.NumberSpec` |
| Grammar.MulOp | compiler.hpp:39 | definition of `alt(lit("*"), lit("/"))`; its behaviour is stated by `Ranking.MulOpRank` and `Grammar.MulOpReady` |
| Grammar.AddOp | compiler.hpp:40 | definition of `alt(lit("+"), lit("-"))`; its behaviour is stated by `Ranking.AddOpRank` and `Grammar.AddOpReady` |
| Grammar.RelOp | compiler.hpp:41 | definition of the five-way relational `alt`; its behaviour is stated by `Ranking.RelOpRank`, `Behaviour.RelOpTakesLonger` and `Grammar.RelOpReady` |
| Grammar.FoldBinary | compiler.hpp:24-26 | definition of the left fold of `build_binary_parser`; its behaviour is stated by `Grammar.FoldBinarySnoc`, `Grammar.FoldBinaryNodes` and `Grammar.Accumulate` |
| Grammar.BuildBinaryParser | compiler.hpp:22-28 | definition of `build_binary_parser`; its behaviour is stated by `Grammar.BinarySpec`, `Grammar.BinarySound` and `Ranking.BinaryRanked` |
| Grammar.BinaryValue | compiler.hpp:23-27 | definition of the `%=` function of `build_binary_parser`, the fold of the pairs onto the first operand; its behaviour is stated by `Grammar.BinarySpec` |
| Grammar.Paren | compiler.hpp:38 | definition of `seq(lit("("), lazy(expr), lit(")")) % get<1>`; its behaviour is stated by `Ranking.ParenRead` and `Grammar.ParenSound` |
| Grammar.ParenValue | compiler.hpp:38 | definition of `std::get<1>`, the expression between the brackets; its behaviour is stated by `Ranking.ParenRead` |
| Grammar.Factor | compiler.hpp:37-38 | definition of `factor`; its behaviour is stated by `Ranking.FactorLeaf`, `Ranking.FactorOfParen` and `Grammar.FactorSound` |
| Grammar.Term | compiler.hpp:39 | definition of `term`; its behaviour is stated by `Ranking.TermRanked` and `Grammar.TermSound` |
| Grammar.SimpleExp | compiler.hpp:40 | definition of `simple_exp`; its behaviour is stated by `Ranking.SimpleExpRanked` and `Grammar.SimpleExpSound` |
| Grammar.ExprP | compiler.hpp:41 | definition of the right-hand side of `expr`; its behaviour is stated by `Ranking.ExprPRanked` and `Grammar.ExprPSound` |
| Grammar.ExprRef | compiler.hpp:36-41 | definition of the parser `expr` holds once assigned, as the limit of the unfoldings; its behaviour is stated by `Grammar.ExprRefFixpoint` and `Grammar.ExprRefUnique` |
| Grammar.Expression | compiler.hpp:41 | definition of `expr` over a `lazy(expr)` that reads itself; its behaviour is stated by `Ranking.ExpressionRanked`, `Ranking.ParenthesesRestart` and `Grammar.ExpressionSound` |
| Grammar.ReadStmtP | compiler.hpp:43 | definition of `read_stmt`; its behaviour is stated by `Behaviour.ReadStmtReads` and `Behaviour.ReadStmtFails` |
| Grammar.ReadValue | compiler.hpp:43 | definition of the `%=` function of `read_stmt`; its behaviour is stated by `Behaviour.ReadStmtReads` |
| Grammar.WriteStmtP | compiler.hpp:44 | definition of `write_stmt`; its behaviour is stated by `Behaviour.WriteStmtWrites` and `Behaviour.WriteStmtFails` |
| Grammar.WriteValue | compiler.hpp:44 | definition of the `%=` function of `write_stmt`; its behaviour is stated by `Behaviour.WriteStmtWrites` |
| Grammar.AssignStmtP | compiler.hpp:45 | definition of `assign_stmt`; its behaviour is stated by `Behaviour.AssignStmtAssigns` and `Behaviour.AssignStmtFails` |
| Grammar.AssignValue | compiler.hpp:45 | definition of the `%=` function of `assign_stmt`; its behaviour is stated by `Behaviour.AssignStmtAssigns` |
| Grammar.Statement | compiler.hpp:46 | definition of `statement`; its behaviour is stated by `Behaviour.AltOfSteps` and `Grammar.StatementSound` |
| Grammar.StmtSequenceP | compiler.hpp:47 | definition of `stmt_sequence`; its behaviour is stated by `Behaviour.SeparatedOne` and `Behaviour.WholeSequence` |
| Grammar.SequenceOf | compiler.hpp:47 | definition of the `%` function of `stmt_sequence`; its behaviour is stated by `Behaviour.WholeSequence` |
| Grammar.ProgramP | compiler.hpp:49 | definition of `eof(stmt_sequence)`; its behaviour is stated by `Behaviour.ParseShape` |
| Grammar.Parse | compiler.hpp:54-56 | definition of running the parser on a fresh scanner; its behaviour is stated by `Behaviour.ParseShape` |
| Grammar.LexicalReady | compiler.hpp:31-33 | `letter`, `digit` and `alt(digit, letter)` are well behaved and consume |
| Grammar.IdentifierShapeSound | compiler.hpp:33 | the identifier's shape parser keeps the suffix-and-flag property |
| Grammar.DigitsSound | compiler.hpp:34 | `many1(digit)` keeps the suffix-and-flag property |
| Grammar.TokensSound | compiler.hpp:33-34 | `identifier` and `number` keep the suffix-and-flag property |
| Grammar.LitsReady | compiler.hpp:39-41 | an `alt` of non-empty literals is well behaved and consumes |
| Grammar.MulOpReady | compiler.hpp:39 | `alt(lit("*"), lit("/"))` is well behaved and consumes |
| Grammar.AddOpReady | compiler.hpp:40 | `alt(lit("+"), lit("-"))` is well behaved and consumes |
| Grammar.RelOpReady | compiler.hpp:41 | the relational `alt` is well behaved and consumes |
| Grammar.Accumulate | compiler.hpp:24-26 | the `std::accumulate` loop computes the left fold `FoldBinary` |
| Grammar.FoldBinarySnoc | compiler.hpp:23-27 | the fold is left-associative: one more pair wraps the previous result as the left operand |
| Grammar.FoldBinaryNodes | compiler.hpp:24-26 | the fold creates one `BinaryOp` per pair and keeps every operand |
| Grammar.StepProgress | compiler.hpp:23 | `seq(op, p)` consumes when the operator does |
| Grammar.BinarySound | compiler.hpp:22-28 | `build_binary_parser` keeps the suffix-and-flag property |
| Grammar.BinarySpec | compiler.hpp:22-28 | `build_binary_parser` succeeds iff its first operand does, and folds the `(op, operand)` pairs `many` collects after it |
| Grammar.StepSound | compiler.hpp:23 | `seq(op, p)` keeps the suffix-and-flag property |
| Grammar.SingleAgree | compiler.hpp:23 | a one-part `seq` preserves agreement on short inputs |
| Grammar.StepAgree | compiler.hpp:23 | `seq(op, p)` preserves agreement on short inputs |
| Grammar.RepeatAgree | compiler.hpp:23 | `many(seq(op, p))` preserves agreement on short inputs |
| Grammar.BinaryAgree | compiler.hpp:22-28 | `build_binary_parser` preserves agreement on short inputs |
| Grammar.FactorSound | compiler.hpp:37-38 | `factor` keeps the suffix-and-flag property |
| Grammar.TermSound | compiler.hpp:39 | `term` keeps the suffix-and-flag property |
| Grammar.SimpleExpSound | compiler.hpp:40 | `simple_exp` keeps the suffix-and-flag property |
| Grammar.ExprPSound | compiler.hpp:41 | `expr`'s right-hand side keeps the suffix-and-flag property |
| Grammar.ParenAgree | compiler.hpp:38 | the parenthesised factor reads `lazy(expr)` only after `(`, so it agrees one character further |
| Grammar.FactorAgree | compiler.hpp:37-38 | `factor` agrees one character further than the parser behind `lazy` |
| Grammar.ParenSound | compiler.hpp:38 | the parenthesised factor keeps the suffix-and-flag property |
| Grammar.TermAgree | compiler.hpp:39 | `term` agrees one character further than the parser behind `lazy` |
| Grammar.SimpleExpAgree | compiler.hpp:40 | `simple_exp` agrees one character further than the parser behind `lazy` |
| Grammar.ExprPAgree | compiler.hpp:41 | `expr`'s right-hand side agrees one character further than the parser behind `lazy` |
| Grammar.Approx | compiler.hpp:36-41 | every unfolding of the grammar is well behaved and skips whitespace |
| Grammar.ApproxStep | compiler.hpp:36-41 | consecutive unfoldings agree on inputs shorter than the depth |
| Grammar.ApproxStable | compiler.hpp:36-41 | from depth `n` on, the unfoldings agree on inputs shorter than `n` |
| Grammar.ApproxSettles | compiler.hpp:36-41 | the same, for all depths at once |
| Grammar.ExprRefCall | compiler.hpp:36-41 | `expr` answers on a short input as a deep enough unfolding |
| Grammar.ExprRefSound | compiler.hpp:36-41 | `expr` keeps the suffix-and-flag property |
| Grammar.ExprRefAgree | compiler.hpp:36-41 | `expr` agrees with the `k`-th unfolding below `k` |
| Grammar.ExprRefFixpoint | compiler.hpp:36-41 | the assigned `expr` answers exactly as the right-hand side built over `lazy(expr)` |
| Grammar.ExprRefUnique | compiler.hpp:36-41 | every well-behaved parser that is such a fixed point answers as `expr` |
| Grammar.FixpointStep | compiler.hpp:36-41 | a fixed point that agrees with the `j`-th unfolding below `j` agrees with the next one below `j + 1` |
| Grammar.ExpressionSound | compiler.hpp:41 | `expr` keeps the suffix-and-flag property |
| Grammar.Seq3Sound | compiler.hpp:38 | a three-part `seq` keeps the suffix-and-flag property |
| Grammar.StatementSound | compiler.hpp:43-46 | `statement` keeps the suffix-and-flag property |
| Behaviour.LitFails | zpc/helper.hpp:9-18 | a literal the input does not start with fails after the whitespace |
| Behaviour.OperatorLitFails | compiler.hpp:39-41 | an operator literal fails where no operator character follows |
| Behaviour.MulOpFails | compiler.hpp:39 | no `*`/`/` is read where no operator follows |
| Behaviour.AddOpFails | compiler.hpp:40 | no `+`/`-` is read where no operator follows |
| Behaviour.RelOpFails | compiler.hpp:41 | no relational operator is read where no operator follows |
| Behaviour.AltLeading | zpc/parser.hpp:130-136 | a succeeding first alternative wins; otherwise a succeeding second one does |
| Behaviour.RelOpTakesLonger | compiler.hpp:41 | on `<=` or `>=` the relational choice yields the two-character operator, never `<` or `>` |
| Behaviour.ParenNeedsOpen | compiler.hpp:38 | the parenthesised factor fails, after the whitespace, unless `(` follows |
| Behaviour.BinaryAtEnd | compiler.hpp:23-24 | with no `(op, operand)` pair, `build_binary_parser` returns the first operand unchanged |
| Behaviour.NameAlternativeFails | compiler.hpp:37 | the identifier alternative of `factor` fails without consuming unless a letter follows |
| Behaviour.NameAlternativeReads | compiler.hpp:37 | the identifier alternative reads the alphanumeric run as a variable |
| Behaviour.NumberAlternativeReads | compiler.hpp:37 | the number alternative reads the digit run |
| Behaviour.ParenAlternativeFails | compiler.hpp:37-38 | the parenthesised alternative fails without consuming unless `(` follows |
| Behaviour.FactorOnNumeral | compiler.hpp:37-38 | `factor` on a numeral not followed by a letter or `(` is that number |
| Behaviour.FactorSwallowsName | compiler.hpp:37-38 | `factor` on a numeral followed by a name returns the number and also consumes the name, since `alt` runs every alternative |
| Behaviour.ExprOfFactor | compiler.hpp:39-41 | a factor with no operator after it is the whole expression |
| Behaviour.ExpressionOnNumeral | compiler.hpp:34-41 | an expression that is only digits is the number they denote |
| Behaviour.ExpressionSwallowsName | compiler.hpp:37-41 | `expr` on `12x` returns `Num(12)` and consumes all of the input |
| Behaviour.NameTail | compiler.hpp:43 | the `seq(identifier)` tail reads a name and the whitespace after it |
| Behaviour.ReadStmtReads | compiler.hpp:43 | `read` followed by a name, with or without a space between them, is `Read` of that name |
| Behaviour.ReadStmtFails | compiler.hpp:43 | `read_stmt` fails unless `read` follows |
| Behaviour.TailOfOne | zpc/parser.hpp:101-110 | a one-part `seq` gives the part's value and the whitespace after it |
| Behaviour.WriteOf | compiler.hpp:44 | `write` followed by an expression is `Write` of it |
| Behaviour.WriteStmtWrites | compiler.hpp:44 | `write_stmt` reads `write` and then an `expr` |
| Behaviour.WriteStmtFails | compiler.hpp:44 | `write_stmt` fails unless `write` follows |
| Behaviour.AssignStmtFails | compiler.hpp:45 | `assign_stmt` fails unless a letter follows |
| Behaviour.AssignOf | compiler.hpp:45 | a name, then `:=`, then what a skipping expression parser `p` reads give `Assign` of that name and `p`'s value, ending past the whitespace after it |
| Behaviour.AssignStmtAssigns | compiler.hpp:45 | `assign_stmt` on a letter-led name, `:=` and a successful `expr` is `Assign` of the whole alphanumeric run and that expression, ending past the whitespace after it |
| Behaviour.SepByOne | zpc/helper.hpp:53-60 | `sep_by` with no separator after the first value is the one-element list |
| Behaviour.SeparatedOne | compiler.hpp:47 | `stmt_sequence` with no `;` after the first statement is a sequence of that statement |
| Behaviour.StatementProgress | compiler.hpp:46-47 | `seq(lit(";"), statement)` consumes, so `many` over it terminates |
| Behaviour.SequenceOfOne | compiler.hpp:47 | a single statement without `;` is the one-statement sequence |
| Behaviour.WholeSequence | compiler.hpp:47-49 | an accepted program is a sequence of at least one statement whose first is what `statement` reads first, and no input is left |
| Behaviour.ParseShape | compiler.hpp:46-49 | every program the parser accepts is consumed entirely, is a sequence of one or more statements, and begins with what `statement` reads at the start |
| Behaviour.EofAfter | zpc/helper.hpp:62-69 | `eof(p)` is `p` when `p` leaves nothing |
| Behaviour.WholeSequenceOfOne | compiler.hpp:47-49 | a single statement that reaches the end of the input is the whole program |
| Behaviour.ProgramOfOne | compiler.hpp:46-49 | the same for the grammar's own `statement` |
| Behaviour.WriteFiveWrite | compiler.hpp:44 | `write 5` is `Write(Num(5))` reaching the end |
| Behaviour.AltOfSteps | zpc/parser.hpp:130-136 | a three-way `alt` follows the three attempts in turn |
| Behaviour.ReadAttemptFails | compiler.hpp:43 | the `read` alternative fails without consuming unless `read` follows |
| Behaviour.WriteAttemptFails | compiler.hpp:44 | the `write` alternative fails without consuming unless `write` follows |
| Behaviour.AssignAttemptAtEnd | compiler.hpp:45 | the assignment alternative fails at the end of the input |
| Behaviour.WriteFiveAttempt | compiler.hpp:44-46 | the `write` alternative reads `write 5` |
| Behaviour.WriteFiveStatement | compiler.hpp:46 | `statement` reads `write 5` |
| Behaviour.ParseWriteFive | compiler.hpp:46-49 | the program `write 5` parses to a one-statement sequence |
| Behaviour.ReadXAttempt | compiler.hpp:43 | the `read` alternative reads `readx` as `read x` |
| Behaviour.ReadXStatement | compiler.hpp:46 | `statement` reads `readx` as `read x` |
| Behaviour.ParseReadGlued | compiler.hpp:43-49 | the program `readx` parses to `read x`: keywords are not reserved |
| Behaviour.ReadThenWriteAttempt | compiler.hpp:43 | the `read` alternative on `read x write 5` stops before `write` |
| Behaviour.ReadThenWriteStatement | compiler.hpp:46 | `statement` on `read x write 5` returns `Read(x)`, yet the later alternatives consume `write 5` |
| Behaviour.ParseDropsStatement | compiler.hpp:43-49 | the program `read x write 5` (no `;`) is accepted as just `read x`; the write is lost |
| Precedence.ManyOnce | zpc/parser.hpp:153-163 | `many` over a parser that succeeds once and then fails is the one-element list |
| Precedence.StepOf | zpc/parser.hpp:101-110 | `seq(op, p)` where both succeed pairs their values |
| Precedence.StepFails | zpc/parser.hpp:101-110 | `seq(op, p)` fails where `op` fails |
| Precedence.BinaryOnce | compiler.hpp:22-28 | one `(op, operand)` pair gives one `BinaryOp` of the first operand and that operand |
| Precedence.FirstOfTwoLits | zpc/parser.hpp:130-136 | `alt(lit(a), lit(b))` yields `a` where `a` follows and `b` does not follow it |
| Precedence.NeitherLit | zpc/parser.hpp:130-136 | `alt(lit(a), lit(b))` fails where neither follows |
| Precedence.FactorOne | compiler.hpp:37-38 | `factor` on `1+2*3` is `Num(1)` |
| Precedence.FactorTwo | compiler.hpp:37-38 | `factor` on `2*3` is `Num(2)` |
| Precedence.FactorThree | compiler.hpp:37-38 | `factor` on `3` is `Num(3)` |
| Precedence.PlusRead | compiler.hpp:40 | the additive operator on `+2*3` is `+` |
| Precedence.TimesRead | compiler.hpp:39 | the multiplicative operator on `*3` is `*` |
| Precedence.NoTimesAfterOne | compiler.hpp:39 | no multiplicative operator is read at `+2*3` |
| Precedence.TermOne | compiler.hpp:39 | `term` on `1+2*3` stops before `+` with `Num(1)` |
| Precedence.TimesStep | compiler.hpp:39 | the `(op, factor)` step on `*3` is `("*", Num(3))` |
| Precedence.TermTwo | compiler.hpp:39 | `term` on `2*3` is the product |
| Precedence.PlusStep | compiler.hpp:40 | the `(op, term)` step on `+2*3` is `+` with the whole product as operand |
| Precedence.SumOfProduct | compiler.hpp:40 | `simple_exp` on `1+2*3` is the sum of 1 and the product |
| Precedence.ExprOfSum | compiler.hpp:41 | `expr`'s right-hand side on `1+2*3` adds no relational layer |
| Precedence.ProductBindsTighter | compiler.hpp:37-41 | `*` binds tighter than `+`: `1+2*3` parses to `1 + (2 * 3)` |
| Parsers.FirstSuccessIsOne | zpc/parser.hpp:130-136 | a value ordered choice returns is the value of one of its alternatives |
| Parsers.ManyRunAll | zpc/parser.hpp:155-162 | every value `many` collects is one its parser gave on a scanner the loop reached from the start |
| Ranking.FoldRanked | compiler.hpp:22-28 | folding pairs of one level to the left onto a tree of that level or tighter keeps every operator's left operand at its level or tighter and its right operand strictly tighter |
| Ranking.NoOpenParenKeeps | compiler.hpp:38 | a suffix of text without "(" has none either |
| Ranking.ChoiceOf | zpc/parser.hpp:130-136 | a property of every alternative's value holds of ordered choice's value |
| Ranking.LitRank | zpc/helper.hpp:9-18 | a literal that succeeds gives its own text, hence its level |
| Ranking.MulOpRank | compiler.hpp:39 | the multiplicative operator reads only `*` or `/` |
| Ranking.AddOpRank | compiler.hpp:40 | the additive operator reads only `+` or `-` |
| Ranking.RelOpRank | compiler.hpp:41 | the relational operator reads only `<=`, `>=`, `==`, `>` or `<` |
| Ranking.FactorLeaf | compiler.hpp:37-38 | on text without "(", a `factor` that succeeds is a number or a variable |
| Ranking.StepParts | zpc/parser.hpp:101-110 | `seq(op, p)`'s value is `op`'s value and then `p`'s, both read on scanners reached from the input |
| Ranking.BinaryRanked | compiler.hpp:22-28 | `build_binary_parser` over operands tighter than level `k` and operators of level `k` gives a well-ranked tree of level at most `k` |
| Ranking.TermRanked | compiler.hpp:39 | on text without "(", `term` is a left-leaning chain of `*`/`/` over numbers and variables |
| Ranking.SimpleExpRanked | compiler.hpp:40 | on text without "(", `simple_exp` is a left-leaning chain of `+`/`-` over terms, so no `+`/`-` sits below a `*`/`/` |
| Ranking.ExprPRanked | compiler.hpp:41 | on text without "(", `expr`'s relational operators sit above every `+`, `-`, `*` and `/`, and associate to the left |
| Ranking.ExpressionRanked | compiler.hpp:37-41 | every tree `expr` reads from text without "(" respects the precedence of the three levels and left associativity |
| Ranking.ParenRead | compiler.hpp:38 | on text "(" then `u`, the parenthesised factor gives the tree `e` reads from `u` with ")" and the whitespace after it consumed, and fails iff that tree is absent or no ")" follows it |
| Ranking.FactorOfParen | compiler.hpp:37-38 | a factor that starts with "(" is exactly the tree read after it, whatever that tree's level, with ")" and the whitespace after it consumed when ")" follows; otherwise it fails, having consumed only the leading whitespace |
| Ranking.ExprRefAfterSkipping | compiler.hpp:38 | `lazy(expr)` past the whitespace answers as `expr` |
| Ranking.ParenthesesRestart | compiler.hpp:37-41 | parentheses restart the cascade: a parenthesised factor is the whole `expr` read after "(" (and ends after the ")" that follows it), and fails when no ")" follows |
| Ast.IdentifierToString | ast.h:33-35 | definition of `Identifier::to_string`; its behaviour is stated by `Ast.VarBalanced` |
| Ast.ExprToString | ast.h:20-66 | definition of `to_string` on expressions; its behaviour is stated by `Ast.ExprToStringBalanced` and `Ast.NodeBalanced` |
| Ast.StmtToString | ast.h:74-111 | definition of `to_string` on statements; its behaviour is stated by `Ast.SequenceToString` |
| Ast.Lines | ast.h:107-111 | definition of the text of a statement sequence; its behaviour is stated by `Ast.LinesAppend` and `Ast.SequenceToString` |
| Ast.SequenceToString | ast.h:107-111 | the `for` loop that appends each statement and a newline computes `StmtSequence::to_string` |
| Ast.LinesAppend | ast.h:107-111 | one more statement appends its text and one newline |
| Ast.NodeBalanced | ast.h:44-46 | a binary node adds one `(` and one `)` around its operands' text |
| Ast.VarBalanced | ast.h:33-35 | `Identifier(name)` holds one `(` and one `)` |
| Ast.NumBalanced | ast.h:60-62 | `Num(v)` holds one `(` and one `)` |
| Ast.ExprToStringBalanced | ast.h:33-62 | for a tree whose names and operators contain no parenthesis (`ParenFree`), the text of the expression holds exactly one `(` and one `)` per node |
| CodeGen.GenExpr | ast.h:25-65 | definition of `gen` on expressions (with ast.cpp:4-6); its behaviour is stated by `CodeGen.GenExprOkIff` and `CodeGen.GenExprLines` |
| CodeGen.GenStmt | ast.h:86-99 | definition of `gen` on statements; its behaviour is stated by `CodeGen.GenStmtOkIff`, `CodeGen.ReadGluesLines` and `CodeGen.WriteCode` |
| CodeGen.GenAssign | ast.cpp:8-11 | definition of `AssignStmt::gen`; its behaviour is stated by `CodeGen.GenStmtOkIff` and `CodeGen.AssignTargetFirst` |
| CodeGen.GenSeq | ast.cpp:13-17 | definition of `StmtSequence::gen`; its behaviour is stated by `CodeGen.GenSeqOkIff`, `CodeGen.GenSeqErrorStays` and `CodeGen.GenSequence` |
| CodeGen.OpMnemonic | ast.h:48-52 | the fixed `op_map` table (the constant `OpTable`), each mnemonic three letters; `operator[]` yields the empty string for an operator it lacks |
| CodeGen.GenSequence | ast.cpp:13-17 | the accumulation over the statements' code computes `StmtSequence::gen`; the first statement that throws ends it |
| CodeGen.GenSeqErrorStays | ast.cpp:13-17 | once a statement throws, the whole sequence throws with that message |
| CodeGen.GenExprOkIff | ast.h:47-65 | an expression's code generates iff every variable in it has a slot; otherwise the error names one that has none |
| CodeGen.GenStmtOkIff | ast.h:86-99 | the same for statements (assignment target, `read` target, `write` expression) |
| CodeGen.GenSeqOkIff | ast.cpp:13-17 | the same for a statement sequence |
| CodeGen.AssignTargetFirst | ast.cpp:8-11 | an assignment to an unknown name fails on that name, whatever the expression |
| CodeGen.ReadGluesLines | ast.h:86-88 | `read x` generates `in i` immediately followed by `str i 0 <slot>` on the same line |
| CodeGen.WriteCode | ast.h:97-99 | `write e` is `e`'s code then the print of the value and of a newline; an error in `e` is passed on |
| CodeGen.GenExprLines | ast.h:47-65 | every node of an expression tree emits exactly one instruction line |
| Environment.ValidTable | env.cpp:15 | definition of the table invariant: slots distinct and below the size; `Environment.RegisteredValid` proves registration keeps it |
| Environment.Registered | env.cpp:12-16 | definition of the table after `emplace(name, size())`; its behaviour is stated by `Environment.RegisteredValid`, `Environment.RegisteredIdempotent` and `Environment.LookupAfterRegistered` |
| Environment.Lookup | env.cpp:5-10 | the stored slot when the name is present, otherwise "Reference to undefined variable NAME." |
| Environment.RegisteredValid | env.cpp:12-16 | registering keeps slots distinct and below the size; a new name gets the previous count and the count grows by one |
| Environment.RegisteredIdempotent | env.cpp:13-15 | registering a present name again changes nothing |
| Environment.LookupAfterRegistered | env.cpp:5-16 | after registration the name is found, and other names are unaffected |
| Environment.Env.constructor | env.h:9-16 | a new environment has an empty, valid table |
| Environment.Env.RegisterIdentifier | env.cpp:12-16 | `emplace(name, size())` on the field, keeping the table valid |
| Environment.Env.GetIdentifier | env.cpp:5-10 | a present name's slot, which lies in `[0, get_allocated())`; absent iff the name is unknown |
| Environment.Env.GetAllocated | env.h:13 | the number of names, above every slot |
| Compiler.Frame | compiler.hpp:65 | definition of the `ssp N` line, the body and `hlt`; its behaviour is stated by `Compiler.FrameOfNone` |
| Compiler.CompileSpec | compiler.hpp:53-67 | definition of what `compile` returns or throws; `Compiler.Compile` is proved to produce it, and `Compiler.Generate` states its cases |
| Compiler.Generate | compiler.hpp:56-66 | a parse failure is the "Compile Error" error; otherwise generation succeeds iff the program names no variable, giving `ssp 0`, the body and `hlt` |
| Compiler.Compile | compiler.hpp:53-67 | the method with a fresh `Env` produces `Generate` of the parse |
| Compiler.VariablesNeverCompile | compiler.hpp:63-64 | every parsed program that mentions a variable fails, naming one of its variables |
| Compiler.FrameOfNone | compiler.hpp:65 | the frame for an empty table is `ssp 0`, the body, `hlt` |
| Compiler.WriteFiveCode | ast.h:97-99 | `write 5` generates `ldc i 5` then the print |
| Compiler.GenerateWriteFive | compiler.hpp:62-65 | the parsed `write 5` compiles to the framed program |
| Compiler.CompileWriteFive | compiler.hpp:53-67 | `write 5` compiles to `ssp 0`, `ldc i 5`, `out i`, `ldc c '\n'`, `out c`, `hlt` |
| Compiler.GenerateReadX | ast.h:86-88 | the parsed `read x` fails because `x` has no slot |
| Compiler.CompileReadGlued | compiler.hpp:43 | `readx` compiles to the undefined-variable error for `x` |

## Left out

- zpc/printer.hpp, main.cpp and test/test.cpp are not part of this model. They hold stream printing, a driver and tests that run an external P-machine.
- `std::cout`/`std::cerr` diagnostics in `compile` (the "Compile Error" and "Remain" lines and the printed AST) are output only. The model keeps just the returned text or the thrown error.
- The exception types are not modelled. A `std::runtime_error` becomes `Err(message)`, with the message text of env.cpp:8 and compiler.hpp:60.
- `unique_variant` and `detail::flat`: `alt` is modelled over one element type, the only use the grammar makes of it.
- Nested tuples are not flattened: `seq(p, q, r)` yields `(a, (b, (c, ())))` where the C++ `tuple_cat` gives `(a, b, c)`.
- `Env::open_loop` is left out. It uses members env.h does not declare, and nothing calls it.
- Raw `new`, ownership, virtual dispatch and `dynamic_cast`: the AST holds an `Identifier` directly.
- The `static` parser objects are modelled as pure functions. `lazy`'s captured address is modelled by `ExprRef`, the limit of unfoldings.
- Grammar.Stoi: `std::stoi` overflow and its exception are not modelled. Literals denote unbounded integers, and the `int` fields of `Num` and of the slots are mathematical integers.
- Parsers.Many: requires that its parser consume whenever it succeeds. The C++ loop runs forever on a parser that succeeds without consuming, and every use in the grammar consumes.
- CodeGen.GenExpr: C++ leaves the order of the two `gen` calls in `lhs->gen(env) + rhs->gen(env)` unspecified. The model generates left first. Only the first error message could differ, since `gen` does not change the environment.
- Bytes versus characters: the C++ scanner walks the bytes of a `std::string`, so `isspace(in[0])` and `ch` see each byte of a multi-byte character, and `isspace` on a negative `char` is undefined. The model reads `seq<char>`, one Unicode scalar per element. On ASCII programs the two agree.
- `op_map[op]` inserting an empty entry into the static table is not modelled. Only the returned text is.
- Opt and Filtered are modelled and proved, but the grammar does not use them.
- Ranking.ExpressionRanked: states the shape of the tree `expr` reads from text without "(", not how much of the text it consumes. Trees with parentheses are covered one factor at a time, by Ranking.ParenthesesRestart, because the AST keeps no parenthesis node to rank them against.
