/** Model of the node types of ast.h and their `to_string`. The class hierarchy
    with virtual dispatch becomes two datatypes; an assignment or `read` names
    its target with an `Identifier` directly, where the C++ stores the result of
    a `dynamic_cast`. */
module Ast {
  import opened Numerals

  /** `Identifier`: a variable name. */
  datatype Identifier = Identifier(name: string)

  /** `Expr` and its subclasses `EmptyExpr`, `Identifier`, `Num` and `BinaryOp`. */
  datatype Expr =
    | EmptyExpr
    | Var(id: Identifier)
    | Num(v: int)
    | BinaryOp(lhs: Expr, op: string, rhs: Expr)

  /** `Stmt` and its subclasses `AssignStmt`, `ReadStmt`, `WriteStmt` and `StmtSequence`. */
  datatype Stmt =
    | Assign(target: Identifier, exp: Expr)
    | Read(target: Identifier)
    | Write(exp: Expr)
    | Sequence(stmts: seq<Stmt>)

  function IdentifierToString(id: Identifier): string
  {
    "Identifier(" + id.name + ")"
  }

  /** `Expr::to_string`: binary operations print fully parenthesised. */
  function ExprToString(e: Expr): string
  {
    match e
    case EmptyExpr => ""
    case Var(id) => IdentifierToString(id)
    case Num(v) => "Num(" + IntToString(v) + ")"
    case BinaryOp(l, op, r) => "(" + ExprToString(l) + " " + op + " " + ExprToString(r) + ")"
  }

  /** `Stmt::to_string`. */
  function StmtToString(st: Stmt): string
    decreases st
  {
    match st
    case Assign(id, e) => IdentifierToString(id) + " := " + ExprToString(e)
    case Read(id) => "Read(" + IdentifierToString(id) + ")"
    case Write(e) => "Write(" + ExprToString(e) + ")"
    case Sequence(ss) => Lines(ss)
  }

  /** `StmtSequence::to_string`: every statement followed by a newline. */
  function Lines(ss: seq<Stmt>): string
    decreases ss
  {
    if ss == [] then "" else Lines(ss[..|ss| - 1]) + StmtToString(ss[|ss| - 1]) + "\n"
  }

  /** The loop of `StmtSequence::to_string` as the C++ writes it. */
  method SequenceToString(ss: seq<Stmt>) returns (s: string)
    ensures s == StmtToString(Sequence(ss))
  {
    s := "";
    var i := 0;
    while i < |ss|
      invariant 0 <= i <= |ss|
      invariant s == Lines(ss[..i])
    {
      assert ss[..i + 1][..i] == ss[..i];
      s := s + StmtToString(ss[i]) + "\n";
      i := i + 1;
    }
    assert ss[..|ss|] == ss;
  }

  /** The printed sequence has one line per statement: it is the statements'
      texts, each followed by a newline, in order. */
  lemma {:induction false} LinesAppend(ss: seq<Stmt>, st: Stmt)
    ensures Lines(ss + [st]) == Lines(ss) + StmtToString(st) + "\n"
  {
    assert (ss + [st])[..|ss + [st]| - 1] == ss;
  }

  // ----- the printed form is fully parenthesised -----

  function Count(c: char, s: string): nat
  {
    if s == [] then 0 else (if s[0] == c then 1 else 0) + Count(c, s[1..])
  }

  lemma {:induction false} CountConcat(c: char, a: string, b: string)
    ensures Count(c, a + b) == Count(c, a) + Count(c, b)
  {
    if a != [] {
      assert (a + b)[0] == a[0];
      assert (a + b)[1..] == a[1..] + b;
      CountConcat(c, a[1..], b);
    } else {
      assert a + b == b;
    }
  }

  lemma CountWrap(c: char, pre: string, mid: string, post: string)
    ensures Count(c, pre + mid + post) == Count(c, pre) + Count(c, mid) + Count(c, post)
  {
    CountConcat(c, pre, mid);
    CountConcat(c, pre + mid, post);
  }

  lemma {:induction false} CountAbsent(c: char, s: string)
    requires forall i :: 0 <= i < |s| ==> s[i] != c
    ensures Count(c, s) == 0
  {
    if s != [] {
      CountAbsent(c, s[1..]);
    }
  }

  predicate NoParens(s: string)
  {
    forall i :: 0 <= i < |s| ==> s[i] != '(' && s[i] != ')'
  }

  /** No name or operator in the tree contains a parenthesis. */
  predicate ParenFree(e: Expr)
  {
    match e
    case EmptyExpr => true
    case Var(id) => NoParens(id.name)
    case Num(_) => true
    case BinaryOp(l, op, r) => ParenFree(l) && NoParens(op) && ParenFree(r)
  }

  /** Number of printed nodes: every node but the empty expression prints one
      pair of parentheses. */
  function Nodes(e: Expr): nat
  {
    match e
    case EmptyExpr => 0
    case Var(_) => 1
    case Num(_) => 1
    case BinaryOp(l, _, r) => 1 + Nodes(l) + Nodes(r)
  }

  lemma NoParensCount(s: string)
    requires NoParens(s)
    ensures Count('(', s) == 0 && Count(')', s) == 0
  {
    CountAbsent('(', s);
    CountAbsent(')', s);
  }

  lemma LeafBalanced(pre: string, mid: string)
    requires NoParens(mid)
    requires Count('(', pre) == 1 && Count(')', pre) == 0
    ensures Count('(', pre + mid + ")") == 1
    ensures Count(')', pre + mid + ")") == 1
  {
    NoParensCount(mid);
    CountWrap('(', pre, mid, ")");
    CountWrap(')', pre, mid, ")");
  }

  lemma NodeBalanced(c: char, ls: string, op: string, rs: string)
    requires c == '(' || c == ')'
    requires Count(c, op) == 0
    ensures Count(c, "(" + ls + " " + op + " " + rs + ")")
         == Count(c, "(") + Count(c, ls) + Count(c, rs) + Count(c, ")")
  {
    var mid := " " + op + " ";
    CountWrap(c, " ", op, " ");
    assert Count(c, mid) == 0;
    CountWrap(c, "(", ls, mid);
    CountWrap(c, "(" + ls + mid, rs, ")");
    assert "(" + ls + " " + op + " " + rs + ")" == "(" + ls + mid + rs + ")";
  }

  lemma IdentifierOpens()
    ensures Count('(', "Identifier(") == 1 && Count(')', "Identifier(") == 0
  {
    assert Count(')', "Identifier(") == 0;
  }

  lemma VarBalanced(id: Identifier)
    requires NoParens(id.name)
    ensures Count('(', ExprToString(Var(id))) == 1
    ensures Count(')', ExprToString(Var(id))) == 1
  {
    IdentifierOpens();
    LeafBalanced("Identifier(", id.name);
  }

  lemma NumBalanced(v: int)
    ensures Count('(', ExprToString(Num(v))) == 1
    ensures Count(')', ExprToString(Num(v))) == 1
  {
    var t := IntToString(v);
    assert NoParens(t);
    LeafBalanced("Num(", t);
  }

  /** `to_string` prints one opening and one closing parenthesis per node, so
      the output of a parenthesis-free tree is balanced (ast.h:44-46). */
  lemma {:induction false} ExprToStringBalanced(e: Expr)
    requires ParenFree(e)
    ensures Count('(', ExprToString(e)) == Nodes(e)
    ensures Count(')', ExprToString(e)) == Nodes(e)
  {
    match e
    case EmptyExpr =>
    case Var(id) =>
      VarBalanced(id);
    case Num(v) =>
      NumBalanced(v);
    case BinaryOp(l, op, r) =>
      ExprToStringBalanced(l);
      ExprToStringBalanced(r);
      NoParensCount(op);
      NodeBalanced('(', ExprToString(l), op, ExprToString(r));
      NodeBalanced(')', ExprToString(l), op, ExprToString(r));
  }
}
