/** The abstract syntax of the test language. */
module Ast {
  import opened Prelude
  import opened Text

  datatype BinOp = XorOp | ConcatOp

  datatype Expr =
    | IntLit(v: i64)
    | Name(name: string)
    | BytesLit(elems: seq<Expr>)
    | Call(func: string, args: seq<Arg>)
    | Binary(op: BinOp, lhs: Expr, rhs: Expr)

  /** A positional argument has no name. */
  datatype Arg = Arg(name: Option<string>, value: Expr)

  datatype Type = ByteType | IntType | BytesType

  datatype Param = Param(name: string, ty: Type, default: Option<Expr>)

  datatype FnDef = FnDef(name: string, params: seq<Param>, ret: Type, body: Expr)

  datatype RecvTarget = Bind(name: string) | Discard

  /** A raw instruction and the code of a `fail` keep the words of the source as they were spelled. */
  datatype Stmt =
    | Pass
    | Fail(code: Numeral)
    | Raw(mnemonic: Word, operands: seq<Lexeme>)
    | Send(bytes: Expr, appendCrc: bool)
    | CrcRegion(sends: seq<Expr>)
    | Config(keywords: seq<Word>)
    | Frame(body: seq<Stmt>)
    | Recv(targets: seq<RecvTarget>)
    | WaitState(bind: Option<string>)
    | Expect(elseCode: Expr)
    | CallProc(name: string, args: seq<Arg>)
    | Repeat(count: Expr, body: seq<Stmt>)

  datatype ProcDef = ProcDef(name: string, params: seq<Param>, body: seq<Stmt>)

  datatype Const = Const(name: string, value: Expr)

  datatype Test = Test(name: string, stmts: seq<Stmt>)

  datatype Module = Module(consts: seq<Const>, fns: seq<FnDef>, procs: seq<ProcDef>, tests: seq<Test>)

  /** Parameter names are unique; the parser rejects a declaration that repeats one. */
  predicate UniqueParams(params: seq<Param>) {
    forall i, j :: 0 <= i < j < |params| ==> params[i].name != params[j].name
  }

  /** Why lowering gave up. Only recursion, the two budgets and register exhaustion are told apart. */
  datatype LangError = Recursion(name: string) | LineBudget | ExpansionBudget | OutOfRegisters | Rejected
}
