/** Model of the `gen` members of ast.h / ast.cpp: stack-machine code emitted as
    text, one instruction per line. `gen` only ever reads the environment, through
    `Env::get_identifier`, so it is modelled as a function of the environment's
    symbol table, looking names up with `Lookup` (the body of
    `Env.GetIdentifier`). The `std::runtime_error` a failed lookup throws becomes
    an `Err` that propagates unchanged. Both operands of `+` in the C++ are
    generated from left to right here. */
module CodeGen {
  import opened Numerals
  import opened Results
  import opened Ast
  import opened Environment

  /** `op_map` of `BinaryOp::gen`. */
  const OpTable: map<string, string> := map[
    "+" := "add", "-" := "sub", "*" := "mul", "/" := "div",
    ">" := "grt", "<" := "les", ">=" := "geq", "<=" := "leq", "==" := "equ", "!=" := "neq"
  ]

  /** `op_map[op]`: `operator[]` answers the empty string for an operator the
      table lacks. */
  function OpMnemonic(op: string): (r: string)
    ensures op in OpTable ==> r == OpTable[op] && |r| == 3
    ensures op !in OpTable ==> r == ""
  {
    if op in OpTable then OpTable[op] else ""
  }

  /** The names a node refers to. */
  function Vars(e: Expr): set<string>
  {
    match e
    case EmptyExpr => {}
    case Var(id) => {id.name}
    case Num(_) => {}
    case BinaryOp(l, _, r) => Vars(l) + Vars(r)
  }

  function StmtVars(st: Stmt): set<string>
    decreases st
  {
    match st
    case Assign(id, e) => {id.name} + Vars(e)
    case Read(id) => {id.name}
    case Write(e) => Vars(e)
    case Sequence(ss) => SeqVars(ss)
  }

  function SeqVars(ss: seq<Stmt>): set<string>
    decreases ss
  {
    if ss == [] then {} else SeqVars(ss[..|ss| - 1]) + StmtVars(ss[|ss| - 1])
  }

  function UndefinedMessage(name: string): string
  {
    "Reference to undefined variable " + name + "."
  }

  /** `Expr::gen`: postfix code, operands before the operator. */
  function GenExpr(e: Expr, symbols: map<string, int>): Result<string>
  {
    match e
    case EmptyExpr => Ok("")
    case Var(id) =>
      (match Lookup(symbols, id.name)
       case Err(m) => Err(m)
       case Ok(k) => Ok("lod i 0 " + IntToString(k) + "\n"))
    case Num(v) => Ok("ldc i " + IntToString(v) + "\n")
    case BinaryOp(l, op, r) =>
      (match GenExpr(l, symbols)
       case Err(m) => Err(m)
       case Ok(lc) =>
         (match GenExpr(r, symbols)
          case Err(m) => Err(m)
          case Ok(rc) => Ok(lc + rc + OpMnemonic(op) + " i\n")))
  }

  /** `Stmt::gen`. An assignment looks its target up before generating the
      expression; `read` is "in i" glued to the code of an assignment from an
      empty expression. */
  function GenStmt(st: Stmt, symbols: map<string, int>): Result<string>
    decreases st
  {
    match st
    case Assign(id, e) => GenAssign(id, e, symbols)
    case Read(id) =>
      (match GenAssign(id, EmptyExpr, symbols)
       case Err(m) => Err(m)
       case Ok(c) => Ok("in i" + c))
    case Write(e) =>
      (match GenExpr(e, symbols)
       case Err(m) => Err(m)
       case Ok(c) => Ok(c + "out i\nldc c '\\n'\nout c\n"))
    case Sequence(ss) => GenSeq(ss, symbols)
  }

  /** `AssignStmt::gen`. */
  function GenAssign(id: Identifier, e: Expr, symbols: map<string, int>): Result<string>
  {
    match Lookup(symbols, id.name)
    case Err(m) => Err(m)
    case Ok(k) =>
      (match GenExpr(e, symbols)
       case Err(m) => Err(m)
       case Ok(c) => Ok(c + "str i 0 " + IntToString(k) + "\n"))
  }

  /** `StmtSequence::gen`: the statements' code concatenated in order; the first
      statement that throws ends the generation. */
  function GenSeq(ss: seq<Stmt>, symbols: map<string, int>): Result<string>
    decreases ss
  {
    if ss == [] then Ok("")
    else
      match GenSeq(ss[..|ss| - 1], symbols)
      case Err(m) => Err(m)
      case Ok(c) =>
        match GenStmt(ss[|ss| - 1], symbols)
        case Err(m) => Err(m)
        case Ok(d) => Ok(c + d)
  }

  /** The `std::accumulate` over the statements' code, as a loop. */
  method GenSequence(ss: seq<Stmt>, symbols: map<string, int>) returns (r: Result<string>)
    ensures r == GenStmt(Sequence(ss), symbols)
  {
    var acc := "";
    var i := 0;
    while i < |ss|
      invariant 0 <= i <= |ss|
      invariant GenSeq(ss[..i], symbols) == Ok(acc)
    {
      assert ss[..i + 1][..i] == ss[..i];
      var c := GenStmt(ss[i], symbols);
      if c.Err? {
        r := Err(c.message);
        GenSeqErrorStays(ss, i + 1, symbols);
        assert ss[..|ss|] == ss;
        return;
      }
      acc := acc + c.value;
      i := i + 1;
    }
    assert ss[..|ss|] == ss;
    r := Ok(acc);
  }

  /** Once a prefix of the statements fails, every longer prefix fails with the
      same message. */
  lemma {:induction false} GenSeqErrorStays(ss: seq<Stmt>, i: nat, symbols: map<string, int>)
    requires i <= |ss|
    requires GenSeq(ss[..i], symbols).Err?
    ensures GenSeq(ss, symbols) == GenSeq(ss[..i], symbols)
    decreases |ss| - i
  {
    if i < |ss| {
      assert ss[..i + 1][..i] == ss[..i];
      GenSeqErrorStays(ss, i + 1, symbols);
    } else {
      assert ss[..i] == ss;
    }
  }

  // ----- generation succeeds exactly when every name is registered -----

  /** `gen` of an expression succeeds if and only if every variable it reads is
      in the symbol table; when it fails, the message names one that is not. */
  lemma {:induction false} GenExprOkIff(e: Expr, symbols: map<string, int>)
    ensures GenExpr(e, symbols).Ok? <==> Vars(e) <= symbols.Keys
    ensures GenExpr(e, symbols).Err? ==>
      exists n :: n in Vars(e) && n !in symbols && GenExpr(e, symbols).message == UndefinedMessage(n)
  {
    match e
    case EmptyExpr =>
    case Var(id) =>
    case Num(_) =>
    case BinaryOp(l, _, r) =>
      GenExprOkIff(l, symbols);
      GenExprOkIff(r, symbols);
  }

  lemma {:induction false} GenStmtOkIff(st: Stmt, symbols: map<string, int>)
    ensures GenStmt(st, symbols).Ok? <==> StmtVars(st) <= symbols.Keys
    ensures GenStmt(st, symbols).Err? ==>
      exists n :: n in StmtVars(st) && n !in symbols && GenStmt(st, symbols).message == UndefinedMessage(n)
    decreases st, 1
  {
    match st
    case Assign(id, e) =>
      GenExprOkIff(e, symbols);
    case Read(id) =>
    case Write(e) =>
      GenExprOkIff(e, symbols);
    case Sequence(ss) =>
      GenSeqOkIff(ss, symbols);
  }

  lemma {:induction false} GenSeqOkIff(ss: seq<Stmt>, symbols: map<string, int>)
    ensures GenSeq(ss, symbols).Ok? <==> SeqVars(ss) <= symbols.Keys
    ensures GenSeq(ss, symbols).Err? ==>
      exists n :: n in SeqVars(ss) && n !in symbols && GenSeq(ss, symbols).message == UndefinedMessage(n)
    decreases ss, 0
  {
    if ss != [] {
      GenSeqOkIff(ss[..|ss| - 1], symbols);
      GenStmtOkIff(ss[|ss| - 1], symbols);
    }
  }

  /** An assignment to an unknown name fails on the name, whatever the
      expression: the slot is looked up first (ast.cpp:9). */
  lemma AssignTargetFirst(id: Identifier, e: Expr, symbols: map<string, int>)
    requires id.name !in symbols
    ensures GenStmt(Assign(id, e), symbols) == Err(UndefinedMessage(id.name))
  {
  }

  /** `read` emits "in i" with no line break before the store, so the two
      instructions share one line. */
  lemma ReadGluesLines(id: Identifier, symbols: map<string, int>)
    requires id.name in symbols
    ensures GenStmt(Read(id), symbols) == Ok("in istr i 0 " + IntToString(symbols[id.name]) + "\n")
  {
    var t := IntToString(symbols[id.name]);
    assert "in i" + ("" + "str i 0 " + t + "\n") == "in istr i 0 " + t + "\n";
  }

  /** `write` evaluates its expression, then prints it and a newline character. */
  lemma WriteCode(e: Expr, symbols: map<string, int>)
    ensures GenExpr(e, symbols).Ok? ==>
      GenStmt(Write(e), symbols) == Ok(GenExpr(e, symbols).value + "out i\nldc c '\\n'\nout c\n")
    ensures GenExpr(e, symbols).Err? ==> GenStmt(Write(e), symbols) == GenExpr(e, symbols)
  {
  }

  // ----- one instruction per node -----

  predicate NoNewline(s: string)
  {
    forall i :: 0 <= i < |s| ==> s[i] != '\n'
  }

  lemma NoNewlineCount(s: string)
    requires NoNewline(s)
    ensures Count('\n', s) == 0
  {
    CountAbsent('\n', s);
  }

  /** An instruction line: text without a line break, then one. */
  lemma LineCount(s: string)
    requires NoNewline(s)
    ensures Count('\n', s + "\n") == 1
  {
    NoNewlineCount(s);
    CountConcat('\n', s, "\n");
  }

  lemma NumeralLine(prefix: string, v: int)
    requires NoNewline(prefix)
    ensures Count('\n', prefix + IntToString(v) + "\n") == 1
  {
    var t := IntToString(v);
    assert NoNewline(t);
    assert NoNewline(prefix + t);
    LineCount(prefix + t);
  }

  /** The operator's line after both operands' code. */
  lemma OperatorLines(lc: string, rc: string, op: string)
    ensures Count('\n', lc + rc + OpMnemonic(op) + " i\n") == Count('\n', lc) + Count('\n', rc) + 1
  {
    var m := OpMnemonic(op);
    assert NoNewline(m + " i");
    LineCount(m + " i");
    CountConcat('\n', lc, rc);
    CountConcat('\n', lc + rc, m + " i\n");
    assert (m + " i") + "\n" == m + " i\n";
    assert lc + rc + m + " i\n" == (lc + rc) + (m + " i\n");
  }

  /** Every node of the expression tree but the empty expression emits exactly
      one instruction line (ast.h:47-53, 63-65, ast.cpp:4-6). */
  lemma {:induction false} GenExprLines(e: Expr, symbols: map<string, int>)
    requires GenExpr(e, symbols).Ok?
    ensures Count('\n', GenExpr(e, symbols).value) == Nodes(e)
  {
    match e
    case EmptyExpr =>
    case Var(id) =>
      NumeralLine("lod i 0 ", symbols[id.name]);
    case Num(v) =>
      NumeralLine("ldc i ", v);
    case BinaryOp(l, op, r) =>
      GenExprLines(l, symbols);
      GenExprLines(r, symbols);
      OperatorLines(GenExpr(l, symbols).value, GenExpr(r, symbols).value, op);
  }
}
