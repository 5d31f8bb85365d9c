/** Model of `compile` (compiler.hpp:53-67): parse the whole input with the
    grammar, then generate code with a fresh environment and frame it with the
    stack reservation `ssp` and the final `hlt`. The "Compile Error" exception
    and the exceptions of `gen` become `Err`. */
module Compiler {
  import opened Optionals
  import opened Parsers
  import opened Numerals
  import opened Results
  import opened Ast
  import opened Environment
  import opened CodeGen
  import opened Grammar
  import opened Behaviour

  const ParseFailure: string := "Compile Error"

  /** The stack frame reservation and the end of the program around the body. */
  function Frame(slots: nat, body: string): string
  {
    "ssp " + IntToString(slots) + "\n" + body + "hlt\n"
  }

  /** What `compile` returns or throws once the parser has replied `res`.
      `gen` runs on a fresh environment and registers nothing, so the frame
      always reserves no slot. */
  function Generate(res: Reply<Stmt>): (r: Result<string>)
    ensures res.value.None? <==> r == Err(ParseFailure)
    ensures res.value.Some? ==> (r.Ok? <==> StmtVars(res.value.value) == {})
    ensures r.Ok? ==> res.value.Some? && GenStmt(res.value.value, map[]).Ok? &&
                      r.value == Frame(0, GenStmt(res.value.value, map[]).value)
  {
    if res.value.None? then Err(ParseFailure)
    else
      GenStmtOkIff(res.value.value, map[]);
      match GenStmt(res.value.value, map[])
      case Err(m) =>
        assert m != ParseFailure by {
          assert m[..|"Reference"|] == "Reference";
        }
        Err(m)
      case Ok(body) => Ok(Frame(0, body))
  }

  /** What `compile` returns or throws for `input`. */
  function CompileSpec(input: string): Result<string>
  {
    Generate(Parse(input))
  }

  /** `compile` as the C++ writes it, with its `Env` object. */
  method Compile(input: string) returns (r: Result<string>)
    ensures r == Generate(Parse(input))
  {
    var res := Parse(input);
    if res.value.None? {
      return Err(ParseFailure);
    }
    var env := new Env();
    var body := GenStmt(res.value.value, env.symTable);
    match body
    case Err(m) =>
      r := Err(m);
    case Ok(code) =>
      r := Ok(Frame(env.GetAllocated(), code));
  }

  /** Since `gen` looks every name up in an environment nobody registered
      anything in, each program that mentions a variable fails to compile, with
      the error naming one of its variables. */
  lemma VariablesNeverCompile(input: string)
    requires Parse(input).value.Some?
    requires StmtVars(Parse(input).value.value) != {}
    ensures CompileSpec(input).Err?
    ensures exists n :: n in StmtVars(Parse(input).value.value) &&
                        CompileSpec(input) == Err(UndefinedMessage(n))
  {
    var res := Parse(input);
    GenStmtOkIff(res.value.value, map[]);
    assert CompileSpec(input) == Generate(res);
  }

  /** The frame around a body when no slot is reserved. */
  lemma FrameOfNone(body: string)
    ensures Frame(0, body) == "ssp 0\n" + body + "hlt\n"
  {
    assert IntToString(0) == "0";
  }

  /** The code of `write` after its expression's code. */
  const WriteTail: string := "out i\n" + "ldc c '\\n'\n" + "out c\n"

  lemma WriteFiveCode()
    ensures GenStmt(Sequence([Write(Num(5))]), map[]) == Ok("ldc i 5\n" + WriteTail)
  {
    var ss := [Write(Num(5))];
    assert ss[..0] == [];
    assert IntToString(5) == "5";
    assert "ldc i " + "5" + "\n" == "ldc i 5\n";
    assert "out i\nldc c '\\n'\nout c\n" == WriteTail;
    assert "" + ("ldc i 5\n" + WriteTail) == "ldc i 5\n" + WriteTail;
  }

  lemma GenerateWriteFive()
    ensures Generate(Reply(Some(Sequence([Write(Num(5))])), Scanner("", true))) ==
              Ok("ssp 0\n" + "ldc i 5\n" + WriteTail + "hlt\n")
  {
    WriteFiveCode();
    FrameOfNone("ldc i 5\n" + WriteTail);
    assert "ssp 0\n" + ("ldc i 5\n" + WriteTail) == "ssp 0\n" + "ldc i 5\n" + WriteTail;
  }

  /** `write 5` compiles to the frame of no slot around a load of 5, its
      output, and the output of a newline character. */
  lemma CompileWriteFive()
    ensures CompileSpec("write 5") == Ok("ssp 0\n" + "ldc i 5\n" + WriteTail + "hlt\n")
  {
    ParseWriteFive();
    GenerateWriteFive();
  }

  lemma GenerateReadX()
    ensures Generate(Reply(Some(Sequence([Read(Identifier("x"))])), Scanner("", true))) ==
              Err(UndefinedMessage("x"))
  {
    var ss := [Read(Identifier("x"))];
    assert ss[..0] == [];
  }

  /** `readx` parses as `read x`, which then fails in code generation. */
  lemma CompileReadGlued()
    ensures CompileSpec("readx") == Err(UndefinedMessage("x"))
  {
    ParseReadGlued();
    GenerateReadX();
  }
}
