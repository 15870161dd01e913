/**
 * Tokens and the abstract syntax tree of the Oasis scripting language.
 *
 * Every expression and every statement node carries a `line`, which the Kotlin
 * classes default to 0 and the parser overwrites for the node it finishes last.
 * The eleven expression constructors and six statement constructors correspond
 * one to one with the methods of the two visitor interfaces; a Dafny `match`
 * over these constructors plays the role of `accept`.
 */
module Syntax {
  import opened Common

  /** The token kinds the parser inspects; the scanner ends every token list with `Eof`. */
  datatype TokenType =
    | LeftParen | RightParen | LeftBracket | RightBracket | Colon | Comma
    | Minus | Plus | Slash | Star
    | Bang | BangEqual | Equal | EqualEqual
    | Greater | GreaterEqual | Less | LessEqual
    | Identifier | StringLit | CharLit | NumberLit
    | FnKw | LetKw | IfKw | ElseKw | WhileKw | ReturnKw | ProtoKw | EndKw
    | TrueKw | FalseKw | NilKw
    | Eof

  /** A literal constant as produced by the scanner or written in a `Literal` node. */
  datatype Const =
    | NilConst
    | BoolConst(b: bool)
    | NumConst(n: real)
    | TextConst(s: string)
    | CharConst(c: char)

  /** A token: kind, source text, scanned literal (`NilConst` when there is none), line. */
  datatype Token = Token(kind: TokenType, lexeme: string, literal: Const, line: int)

  /** The kinds the parser treats as binary operators (Parser.kt's `operators` list). */
  predicate IsOperator(k: TokenType) {
    k in {Minus, Plus, Slash, Star, Bang, BangEqual, Equal, EqualEqual,
          Greater, GreaterEqual, Less, LessEqual}
  }

  datatype Expr =
    | Literal(constant: Const, line: int)
    | AssignmentExpr(target: Expr, rhs: Expr, line: int)
    | Property(obj: Expr, name: Token, line: int)
    | Func(params: seq<Token>, body: Stmt, line: int)
    | FCallExpr(callee: Expr, args: seq<Expr>, line: int)
    | BinOp(left: Expr, op: Token, right: Expr, line: int)
    | Group(inner: Expr, line: int)
    | Variable(name: Token, line: int)
    | Proto(base: Option<Token>, slots: seq<Stmt>, line: int)
    | Indexer(collection: Expr, index: Expr, line: int)
    | OasisList(elements: seq<Expr>, line: int)

  /**
   * Statements. The Kotlin fields typed `StmtList` (if/else/while bodies, function
   * bodies) hold a `StmtList` node here too; a prototype literal keeps only the
   * statements of its body, since that body is iterated and never executed.
   */
  datatype Stmt =
    | Let(name: Token, init: Expr, line: int)
    | IfStmt(cond: Expr, thenBody: Stmt, elseBody: Option<Stmt>, line: int)
    | WhileStmt(cond: Expr, body: Stmt, line: int)
    | StmtList(stmts: seq<Stmt>, line: int)
    | RetStmt(result: Option<Expr>, line: int)
    | ExprStmt(expr: Expr, line: int)

  /** The same node carrying line `line` (the parser's `result.line = ...`). */
  function Relined(x: Expr, line: int): (r: Expr)
    ensures r.line == line
  {
    match x
    case Literal(c, _) => Literal(c, line)
    case AssignmentExpr(t, v, _) => AssignmentExpr(t, v, line)
    case Property(o, n, _) => Property(o, n, line)
    case Func(ps, b, _) => Func(ps, b, line)
    case FCallExpr(c, args, _) => FCallExpr(c, args, line)
    case BinOp(l, op, r, _) => BinOp(l, op, r, line)
    case Group(i, _) => Group(i, line)
    case Variable(n, _) => Variable(n, line)
    case Proto(b, slots, _) => Proto(b, slots, line)
    case Indexer(c, i, _) => Indexer(c, i, line)
    case OasisList(es, _) => OasisList(es, line)
  }

  /** Node counts, used as termination measures by the evaluator. */
  function ExprSize(e: Expr): nat
  {
    match e
    case Literal(_, _) => 1
    case AssignmentExpr(t, v, _) => 1 + ExprSize(t) + ExprSize(v)
    case Property(o, _, _) => 1 + ExprSize(o)
    case Func(_, _, _) => 1  // the body runs only when the closure is called
    case FCallExpr(c, args, _) => 1 + ExprSize(c) + ExprsSize(args)
    case BinOp(l, _, r, _) => 1 + ExprSize(l) + ExprSize(r)
    case Group(i, _) => 1 + ExprSize(i)
    case Variable(_, _) => 1
    case Proto(_, body, _) => 1 + StmtsSize(body)
    case Indexer(c, i, _) => 1 + ExprSize(c) + ExprSize(i)
    case OasisList(es, _) => 1 + ExprsSize(es)
  }

  function ExprsSize(es: seq<Expr>): nat
  {
    if es == [] then 0 else 1 + ExprSize(es[0]) + ExprsSize(es[1..])
  }

  function StmtSize(s: Stmt): nat
  {
    match s
    case Let(_, e, _) => 1 + ExprSize(e)
    case IfStmt(c, t, el, _) =>
      1 + ExprSize(c) + StmtSize(t) + (match el case Some(b) => StmtSize(b) case None => 0)
    case WhileStmt(c, b, _) => 1 + ExprSize(c) + StmtSize(b)
    case StmtList(ss, _) => 1 + StmtsSize(ss)
    case RetStmt(r, _) => 1 + (match r case Some(e) => ExprSize(e) case None => 0)
    case ExprStmt(e, _) => 1 + ExprSize(e)
  }

  function StmtsSize(ss: seq<Stmt>): nat
  {
    if ss == [] then 0 else 1 + StmtSize(ss[0]) + StmtsSize(ss[1..])
  }
}
