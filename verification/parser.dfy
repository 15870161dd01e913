/**
 * The recursive-descent parser (Parser.kt): one token of lookahead, no
 * backtracking, every failure an immediate parse error.
 *
 * Each parsing function takes the token list and the current position and
 * returns the node it built together with the position after it. The Kotlin
 * `current` field becomes that explicit position. Termination is proved from
 * the positions alone: the measure is the number of tokens left, and every
 * member that can recurse at the same position has a higher rank than the
 * member it calls there. A call `eat(X)` that directly follows a successful
 * `peek(X)`, or the `end`, `)` or `]` closing a loop that only stops at that
 * token, cannot fail and is written as `pos + 1`.
 */
module Parser {
  import opened Common
  import opened Syntax

  /**
   * What `Oasis.error` is told when parsing fails, kept as data; `Message`
   * renders it as the text the source prints.
   */
  datatype Complaint = InvalidExpression | Unexpected(lexeme: string, expected: TokenType)

  /** The node built and the position of the first token after it, or a parse error. */
  datatype Result<+T> = Ok(value: T, next: nat) | Err(line: int, complaint: Complaint)

  /** A token list as the scanner delivers it: non-empty and ending in `Eof`. */
  predicate Terminated(toks: seq<Token>)
  {
    |toks| > 0 && toks[|toks| - 1].kind == Eof
  }

  predicate Peek(toks: seq<Token>, pos: nat, kind: TokenType)
    requires pos < |toks|
  {
    toks[pos].kind == kind
  }

  /** The Kotlin enum constant name, as printed in "expected ..." messages. */
  function Name(k: TokenType): string
  {
    match k
    case LeftParen => "LEFT_PAREN"
    case RightParen => "RIGHT_PAREN"
    case LeftBracket => "LBRAC"
    case RightBracket => "RBRAC"
    case Colon => "COLON"
    case Comma => "COMMA"
    case Minus => "MINUS"
    case Plus => "PLUS"
    case Slash => "SLASH"
    case Star => "STAR"
    case Bang => "BANG"
    case BangEqual => "BANG_EQUAL"
    case Equal => "EQUAL"
    case EqualEqual => "EQUAL_EQUAL"
    case Greater => "GREATER"
    case GreaterEqual => "GREATER_EQUAL"
    case Less => "LESS"
    case LessEqual => "LESS_EQUAL"
    case Identifier => "IDENTIFIER"
    case StringLit => "STRING"
    case CharLit => "CHAR"
    case NumberLit => "NUMBER"
    case FnKw => "FN"
    case LetKw => "LET"
    case IfKw => "IF"
    case ElseKw => "ELSE"
    case WhileKw => "WHILE"
    case ReturnKw => "RETURN"
    case ProtoKw => "PROTO"
    case EndKw => "END"
    case TrueKw => "TRUE"
    case FalseKw => "FALSE"
    case NilKw => "NIL"
    case Eof => "EOF"
  }

  /** The text printed for a complaint: `Unexpected token <lexeme>, expected <KIND>` or `Invalid expression`. */
  function Message(c: Complaint): string
  {
    match c
    case InvalidExpression => "Invalid expression"
    case Unexpected(lexeme, kind) => "Unexpected token " + lexeme + ", expected " + Name(kind)
  }

  /**
   * `eat`: consume the current token when it has the expected kind, otherwise
   * fail at the current token's line. Consuming a token other than `Eof` never
   * moves past the last token.
   */
  function Eat(toks: seq<Token>, pos: nat, kind: TokenType): (r: Result<Token>)
    requires Terminated(toks) && pos < |toks|
    ensures r.Ok? <==> toks[pos].kind == kind
    ensures r.Ok? ==> r.value == toks[pos] && r.next == pos + 1
    ensures r.Ok? && kind != Eof ==> r.next < |toks|
    ensures r.Err? ==> r.line == toks[pos].line
  {
    if toks[pos].kind == kind then Ok(toks[pos], pos + 1)
    else Err(toks[pos].line, Unexpected(toks[pos].lexeme, kind))
  }

  /** A `:` suffix chain: `base` with zero or more `Property`/`Indexer` nodes wrapped around it. */
  predicate SuffixChainOf(e: Expr, base: Expr)
  {
    e == base
    || (e.Property? && SuffixChainOf(e.obj, base))
    || (e.Indexer? && SuffixChainOf(e.collection, base))
  }

  /** `left` with zero or more binary operators applied to it, innermost first. */
  predicate OperatorChainOf(e: Expr, left: Expr)
  {
    e == left || (e.BinOp? && IsOperator(e.op.kind) && OperatorChainOf(e.left, left))
  }

  /** A chain over a one-suffix extension of `base` is a chain over `base`. */
  lemma {:induction false} SuffixChainStep(e: Expr, mid: Expr, base: Expr)
    requires SuffixChainOf(e, mid)
    requires (mid.Property? && mid.obj == base) || (mid.Indexer? && mid.collection == base)
    ensures SuffixChainOf(e, base)
  {
    if e != mid {
      if e.Property? && SuffixChainOf(e.obj, mid) {
        SuffixChainStep(e.obj, mid, base);
      } else {
        SuffixChainStep(e.collection, mid, base);
      }
    }
  }

  /** An operator chain over `BinOp(left, op, _)` is an operator chain over `left`. */
  lemma {:induction false} OperatorChainStep(e: Expr, mid: Expr, left: Expr)
    requires OperatorChainOf(e, mid)
    requires mid.BinOp? && IsOperator(mid.op.kind) && mid.left == left
    ensures OperatorChainOf(e, left)
  {
    if e != mid {
      OperatorChainStep(e.left, mid, left);
    }
  }

  /**
   * `stmts` are what `statement` parses one after another from `pos`, none
   * of them starting at a `stop` token, and the last one ends at `next`.
   */
  predicate StatementRun(toks: seq<Token>, pos: nat, stop: set<TokenType>, stmts: seq<Stmt>, next: nat)
    requires Terminated(toks) && pos < |toks|
    decreases |stmts|
  {
    if stmts == [] then next == pos
    else
      var s := Statement(toks, pos);
      && toks[pos].kind !in stop && s.Ok? && s.value == stmts[0]
      && StatementRun(toks, s.next, stop, stmts[1..], next)
  }

  /** `parse`: statements up to `Eof`, returned as one statement list. */
  function Parse(toks: seq<Token>): (r: Result<Stmt>)
    requires Terminated(toks)
    ensures r.Ok? ==> r.value.StmtList? && r.value.line == 0
    ensures r.Ok? ==> r.next < |toks| && toks[r.next].kind == Eof
    ensures r.Ok? ==> StatementRun(toks, 0, {Eof}, r.value.stmts, r.next)
  {
    var body := Statements(toks, 0, {Eof}, []);
    StatementsAreRun(toks, 0, {Eof}, []);
    if body.Err? then Err(body.line, body.complaint)
    else Ok(StmtList(body.value, 0), body.next)
  }

  /**
   * The `while (!peek(...)) body.add(statement())` loops: statements until the
   * current token is one of `stop`, appended to `acc` in source order.
   */
  function Statements(toks: seq<Token>, pos: nat, stop: set<TokenType>, acc: seq<Stmt>)
    : (r: Result<seq<Stmt>>)
    requires Terminated(toks) && pos < |toks|
    ensures r.Ok? ==> pos <= r.next < |toks| && toks[r.next].kind in stop
    ensures r.Ok? ==> |acc| <= |r.value| && r.value[..|acc|] == acc
    ensures r.Ok? && toks[pos].kind in stop ==> r.value == acc && r.next == pos
    decreases |toks| - pos, 6
  {
    if toks[pos].kind in stop then Ok(acc, pos)
    else
      var s := Statement(toks, pos);
      if s.Err? then Err(s.line, s.complaint)
      else Statements(toks, s.next, stop, acc + [s.value])
  }

  /** A sequence that starts with `acc + [x]` continues, after `acc`, with `x`. */
  lemma DropPrefix<T>(xs: seq<T>, acc: seq<T>, x: T)
    requires |acc| < |xs| && xs[..|acc| + 1] == acc + [x]
    ensures xs[|acc|..] == [x] + xs[|acc| + 1..]
  {
    assert xs[|acc|] == (acc + [x])[|acc|];
  }

  /** What the statement loop appends to `acc` is exactly a run of `statement` results up to a `stop` token. */
  lemma {:induction false} StatementsAreRun(toks: seq<Token>, pos: nat, stop: set<TokenType>, acc: seq<Stmt>)
    requires Terminated(toks) && pos < |toks|
    ensures var r := Statements(toks, pos, stop, acc);
      r.Ok? ==> StatementRun(toks, pos, stop, r.value[|acc|..], r.next)
    decreases |toks| - pos
  {
    if toks[pos].kind !in stop && Statement(toks, pos).Ok? {
      var s := Statement(toks, pos);
      StatementsAreRun(toks, s.next, stop, acc + [s.value]);
      var r := Statements(toks, s.next, stop, acc + [s.value]);
      if r.Ok? {
        DropPrefix(r.value, acc, s.value);
      }
    }
  }

  /** `statement`: a `let`, `if`, `while`, `return expr` or a bare expression, stamped with its last token's line. */
  function Statement(toks: seq<Token>, pos: nat): (r: Result<Stmt>)
    requires Terminated(toks) && pos < |toks|
    ensures r.Ok? ==> pos < r.next < |toks|
    ensures r.Ok? ==> r.value.line == toks[r.next - 1].line
    decreases |toks| - pos, 5
  {
    if Peek(toks, pos, LetKw) then Stamped(toks, LetDecl(toks, pos))
    else if Peek(toks, pos, IfKw) then Stamped(toks, IfDecl(toks, pos))
    else if Peek(toks, pos, WhileKw) then Stamped(toks, WhileDecl(toks, pos))
    else if Peek(toks, pos, ReturnKw) then
      var e := Expression(toks, pos + 1);
      if e.Err? then Err(e.line, e.complaint) else Ok(RetStmt(Some(e.value), toks[e.next - 1].line), e.next)
    else
      var e := Expression(toks, pos);
      if e.Err? then Err(e.line, e.complaint) else Ok(ExprStmt(e.value, toks[e.next - 1].line), e.next)
  }

  /** `result.line = tokens[current - 1].line` on a finished declaration. */
  function Stamped(toks: seq<Token>, r: Result<Stmt>): (r': Result<Stmt>)
    requires r.Ok? ==> 0 < r.next < |toks|
    ensures r'.Ok? <==> r.Ok?
    ensures r'.Ok? ==> r'.next == r.next && r'.value.line == toks[r.next - 1].line
  {
    if r.Err? then r else Ok(r.value.(line := toks[r.next - 1].line), r.next)
  }

  /** `lets`: `let NAME = expr`. */
  function LetDecl(toks: seq<Token>, pos: nat): (r: Result<Stmt>)
    requires Terminated(toks) && pos < |toks|
    ensures r.Ok? ==> pos < r.next < |toks| && r.value.Let? && r.value.name.kind == Identifier
    decreases |toks| - pos, 4
  {
    var kw := Eat(toks, pos, LetKw);
    if kw.Err? then Err(kw.line, kw.complaint) else
    var name := Eat(toks, kw.next, Identifier);
    if name.Err? then Err(name.line, name.complaint) else
    var eq := Eat(toks, name.next, Equal);
    if eq.Err? then Err(eq.line, eq.complaint) else
    var init := Expression(toks, eq.next);
    if init.Err? then Err(init.line, init.complaint)
    else Ok(Let(name.value, init.value, 0), init.next)
  }

  /** `ifs`: the condition, then statements up to `else` or `end`. */
  function IfDecl(toks: seq<Token>, pos: nat): (r: Result<Stmt>)
    requires Terminated(toks) && pos < |toks|
    ensures r.Ok? ==> pos < r.next < |toks| && r.value.IfStmt?
    decreases |toks| - pos, 4
  {
    var kw := Eat(toks, pos, IfKw);
    if kw.Err? then Err(kw.line, kw.complaint) else
    var cond := Expression(toks, kw.next);
    if cond.Err? then Err(cond.line, cond.complaint) else
    var body := Statements(toks, cond.next, {EndKw, ElseKw}, []);
    if body.Err? then Err(body.line, body.complaint)
    else IfTail(toks, cond.value, StmtList(body.value, 0), body.next)
  }

  /**
   * The end of an `if`, positioned after the then-statements: `end`, or
   * `else` statements `end`. The else-body is present exactly when the
   * then-statements stopped at `else`.
   */
  function IfTail(toks: seq<Token>, cond: Expr, thenBody: Stmt, pos: nat): (r: Result<Stmt>)
    requires Terminated(toks) && pos < |toks|
    ensures r.Ok? ==> pos < r.next < |toks|
    ensures r.Ok? ==> r.value.IfStmt? && r.value.cond == cond && r.value.thenBody == thenBody
    ensures r.Ok? ==> (r.value.elseBody.Some? <==> toks[pos].kind == ElseKw)
    ensures r.Ok? && r.value.elseBody.Some? ==> r.value.elseBody.value.StmtList?
    ensures toks[pos].kind !in {EndKw, ElseKw} ==> r.Err?
    decreases |toks| - pos, 0
  {
    if Peek(toks, pos, EndKw) then Ok(IfStmt(cond, thenBody, None, 0), pos + 1)
    else
      var kw := Eat(toks, pos, ElseKw);
      if kw.Err? then Err(kw.line, kw.complaint) else
      var elseBody := Statements(toks, kw.next, {EndKw}, []);
      if elseBody.Err? then Err(elseBody.line, elseBody.complaint)
      else Ok(IfStmt(cond, thenBody, Some(StmtList(elseBody.value, 0)), 0), elseBody.next + 1)
  }

  /** `whiles`: the condition, then statements up to `end`. */
  function WhileDecl(toks: seq<Token>, pos: nat): (r: Result<Stmt>)
    requires Terminated(toks) && pos < |toks|
    ensures r.Ok? ==> pos < r.next < |toks| && r.value.WhileStmt? && r.value.body.StmtList?
    decreases |toks| - pos, 4
  {
    var kw := Eat(toks, pos, WhileKw);
    if kw.Err? then Err(kw.line, kw.complaint) else
    var cond := Expression(toks, kw.next);
    if cond.Err? then Err(cond.line, cond.complaint) else
    var body := Statements(toks, cond.next, {EndKw}, []);
    if body.Err? then Err(body.line, body.complaint)
    else Ok(WhileStmt(cond.value, StmtList(body.value, 0), 0), body.next + 1)
  }

  /**
   * `expression`: a primary, its `:` suffixes, an optional `= expr`, the
   * binary-operator loop, an optional call; the node finished last gets the
   * line of the last token consumed. Every call consumes at least one token.
   */
  function Expression(toks: seq<Token>, pos: nat): (r: Result<Expr>)
    requires Terminated(toks) && pos < |toks|
    ensures r.Ok? ==> pos < r.next < |toks|
    ensures r.Ok? ==> r.value.line == toks[r.next - 1].line
    decreases |toks| - pos, 3
  {
    var p := Primary(toks, pos);
    if p.Err? then Err(p.line, p.complaint) else
    var s := Postfix(toks, p.value, p.next);
    if s.Err? then Err(s.line, s.complaint) else
    var a := AssignTail(toks, s.value, s.next);
    if a.Err? then Err(a.line, a.complaint) else
    var b := Operators(toks, a.value, a.next);
    if b.Err? then Err(b.line, b.complaint) else
    var c := CallTail(toks, b.value, b.next);
    if c.Err? then Err(c.line, c.complaint)
    else Ok(Relined(c.value, toks[c.next - 1].line), c.next)
  }

  /** The primary expression at the head of `expression`; any other token is "Invalid expression". */
  function Primary(toks: seq<Token>, pos: nat): (r: Result<Expr>)
    requires Terminated(toks) && pos < |toks|
    ensures r.Ok? ==> pos < r.next < |toks|
    ensures r.Err? && toks[pos].kind !in {FnKw, ProtoKw, LeftParen, LeftBracket} ==>
      r == Err(toks[pos].line, InvalidExpression)
    decreases |toks| - pos, 2
  {
    var t := toks[pos];
    match t.kind
    case Identifier => Ok(Variable(t, 0), pos + 1)
    case FnKw => FnDef(toks, pos)
    case NumberLit => Ok(Literal(t.literal, 0), pos + 1)
    case StringLit => Ok(Literal(t.literal, 0), pos + 1)
    case CharLit => Ok(Literal(t.literal, 0), pos + 1)
    case TrueKw => Ok(Literal(BoolConst(true), 0), pos + 1)
    case FalseKw => Ok(Literal(BoolConst(false), 0), pos + 1)
    case ProtoKw => ProtoLit(toks, pos)
    case LeftParen =>
      var inner := Expression(toks, pos + 1);
      if inner.Err? then Err(inner.line, inner.complaint) else
      var close := Eat(toks, inner.next, RightParen);
      if close.Err? then Err(close.line, close.complaint)
      else Ok(Group(inner.value, 0), close.next)
    case NilKw => Ok(Literal(NilConst, 0), pos + 1)
    case LeftBracket =>
      var elems := Arguments(toks, pos + 1, RightBracket);
      if elems.Err? then Err(elems.line, elems.complaint)
      else Ok(OasisList(elems.value, 0), elems.next + 1)
    case _ => Err(t.line, InvalidExpression)
  }

  /** `fnDef`: `fn (params) statements end`. */
  function FnDef(toks: seq<Token>, pos: nat): (r: Result<Expr>)
    requires Terminated(toks) && pos < |toks|
    ensures r.Ok? ==> pos < r.next < |toks|
    ensures r.Ok? ==> r.value.Func? && r.value.body.StmtList?
    ensures r.Ok? ==> forall t <- r.value.params :: t.kind == Identifier
    decreases |toks| - pos, 1
  {
    var kw := Eat(toks, pos, FnKw);
    if kw.Err? then Err(kw.line, kw.complaint) else
    var lp := Eat(toks, kw.next, LeftParen);
    if lp.Err? then Err(lp.line, lp.complaint) else
    var ps := Params(toks, lp.next);
    if ps.Err? then Err(ps.line, ps.complaint) else
    var rp := Eat(toks, ps.next, RightParen);
    if rp.Err? then Err(rp.line, rp.complaint) else
    var body := Statements(toks, rp.next, {EndKw}, []);
    if body.Err? then Err(body.line, body.complaint)
    else Ok(Func(ps.value, StmtList(body.value, 0), 0), body.next + 1)
  }

  /** The parameter names of `fn (...)`: nothing, or identifiers separated by commas. */
  function Params(toks: seq<Token>, pos: nat): (r: Result<seq<Token>>)
    requires Terminated(toks) && pos < |toks|
    ensures r.Ok? ==> pos <= r.next < |toks|
    ensures r.Ok? ==> forall t <- r.value :: t.kind == Identifier
  {
    if Peek(toks, pos, Identifier) then ParamsRest(toks, [toks[pos]], pos + 1)
    else Ok([], pos)
  }

  function ParamsRest(toks: seq<Token>, acc: seq<Token>, pos: nat): (r: Result<seq<Token>>)
    requires Terminated(toks) && pos < |toks|
    requires forall t <- acc :: t.kind == Identifier
    ensures r.Ok? ==> pos <= r.next < |toks| && toks[r.next].kind == RightParen
    ensures r.Ok? ==> forall t <- r.value :: t.kind == Identifier
    decreases |toks| - pos
  {
    if Peek(toks, pos, RightParen) then Ok(acc, pos)
    else
      var comma := Eat(toks, pos, Comma);
      if comma.Err? then Err(comma.line, comma.complaint) else
      var id := Eat(toks, comma.next, Identifier);
      if id.Err? then Err(id.line, id.complaint)
      else ParamsRest(toks, acc + [id.value], id.next)
  }

  /** `proto`: `proto [> NAME] lets end`; the body holds only `let` statements. */
  function ProtoLit(toks: seq<Token>, pos: nat): (r: Result<Expr>)
    requires Terminated(toks) && pos < |toks|
    ensures r.Ok? ==> pos < r.next < |toks|
    ensures r.Ok? ==> r.value.Proto? && forall s <- r.value.slots :: s.Let?
    ensures r.Ok? ==> (r.value.base.Some? <==> toks[pos + 1].kind == Greater)
    decreases |toks| - pos, 1
  {
    var kw := Eat(toks, pos, ProtoKw);
    if kw.Err? then Err(kw.line, kw.complaint) else
    var base := ProtoBase(toks, kw.next);
    if base.Err? then Err(base.line, base.complaint) else
    var lets := LetBlock(toks, base.next, []);
    if lets.Err? then Err(lets.line, lets.complaint)
    else Ok(Proto(base.value, lets.value, 0), lets.next + 1)
  }

  /** The optional `> NAME` of a prototype literal. */
  function ProtoBase(toks: seq<Token>, pos: nat): (r: Result<Option<Token>>)
    requires Terminated(toks) && pos < |toks|
    ensures r.Ok? ==> pos <= r.next < |toks|
    ensures r.Ok? ==> (r.value.Some? <==> toks[pos].kind == Greater)
    ensures r.Ok? && r.value.Some? ==> r.value.value.kind == Identifier
  {
    if Peek(toks, pos, Greater) then
      var id := Eat(toks, pos + 1, Identifier);
      if id.Err? then Err(id.line, id.complaint) else Ok(Some(id.value), id.next)
    else Ok(None, pos)
  }

  /** The `let` statements of a prototype body, up to `end`. */
  function LetBlock(toks: seq<Token>, pos: nat, acc: seq<Stmt>): (r: Result<seq<Stmt>>)
    requires Terminated(toks) && pos < |toks|
    requires forall s <- acc :: s.Let?
    ensures r.Ok? ==> pos <= r.next < |toks| && toks[r.next].kind == EndKw
    ensures r.Ok? ==> forall s <- r.value :: s.Let?
    decreases |toks| - pos, 5
  {
    if Peek(toks, pos, EndKw) then Ok(acc, pos)
    else
      var l := LetDecl(toks, pos);
      if l.Err? then Err(l.line, l.complaint)
      else LetBlock(toks, l.next, acc + [l.value])
  }

  /** Comma-separated expressions up to (not including) `close`; used for call arguments and list literals. */
  function Arguments(toks: seq<Token>, pos: nat, close: TokenType): (r: Result<seq<Expr>>)
    requires Terminated(toks) && pos < |toks|
    ensures r.Ok? ==> pos <= r.next < |toks| && toks[r.next].kind == close
    decreases |toks| - pos, 4
  {
    if Peek(toks, pos, close) then Ok([], pos)
    else
      var first := Expression(toks, pos);
      if first.Err? then Err(first.line, first.complaint)
      else ArgumentsRest(toks, [first.value], first.next, close)
  }

  function ArgumentsRest(toks: seq<Token>, acc: seq<Expr>, pos: nat, close: TokenType)
    : (r: Result<seq<Expr>>)
    requires Terminated(toks) && pos < |toks|
    ensures r.Ok? ==> pos <= r.next < |toks| && toks[r.next].kind == close
    ensures r.Ok? ==> |acc| <= |r.value| && r.value[..|acc|] == acc
    decreases |toks| - pos, 0
  {
    if Peek(toks, pos, close) then Ok(acc, pos)
    else
      var comma := Eat(toks, pos, Comma);
      if comma.Err? then Err(comma.line, comma.complaint) else
      var e := Expression(toks, comma.next);
      if e.Err? then Err(e.line, e.complaint)
      else ArgumentsRest(toks, acc + [e.value], e.next, close)
  }

  /**
   * The `:` suffixes after a primary, applied left to right: `:NAME` wraps a
   * `Property`, `:(expr)` wraps an `Indexer`, and a `:` followed by neither is
   * consumed without adding a node. (The source peels off the first iteration
   * of this loop into an `if`; the behaviour is that of one loop.)
   */
  function Postfix(toks: seq<Token>, e: Expr, pos: nat): (r: Result<Expr>)
    requires Terminated(toks) && pos < |toks|
    ensures r.Ok? ==> pos <= r.next < |toks| && SuffixChainOf(r.value, e)
    ensures r.Ok? ==> toks[r.next].kind != Colon
    ensures toks[pos].kind != Colon ==> r == Ok(e, pos)
    decreases |toks| - pos, 1
  {
    if !Peek(toks, pos, Colon) then Ok(e, pos)
    else
      var s := Suffix(toks, e, pos);
      if s.Err? then Err(s.line, s.complaint)
      else
        var r := Postfix(toks, s.value, s.next);
        if r.Ok? && s.value != e then SuffixChainStep(r.value, s.value, e); r else r
  }

  /**
   * One `:` suffix at `pos`: `:NAME` wraps a `Property`, `:(expr)` wraps an
   * `Indexer` once its `)` is read, and a `:` followed by neither is consumed
   * and adds nothing.
   */
  function Suffix(toks: seq<Token>, e: Expr, pos: nat): (r: Result<Expr>)
    requires Terminated(toks) && pos < |toks| && toks[pos].kind == Colon
    ensures r.Ok? ==> pos < r.next < |toks|
    ensures r.Ok? ==> r.value == e || (r.value.Property? && r.value.obj == e) || (r.value.Indexer? && r.value.collection == e)
    decreases |toks| - pos, 0
  {
    var after := pos + 1;
    if Peek(toks, after, Identifier) then Ok(Property(e, toks[after], 0), after + 1)
    else if Peek(toks, after, LeftParen) then
      CloseIndex(toks, e, Expression(toks, after + 1))
    else Ok(e, after)
  }

  /** The end of a `:(expr)` suffix, given what `expr` parsed to: its error, or an `Indexer` once the `)` is read. */
  function CloseIndex(toks: seq<Token>, e: Expr, index: Result<Expr>): (r: Result<Expr>)
    requires Terminated(toks) && (index.Ok? ==> index.next < |toks|)
    ensures index.Err? ==> r == Err(index.line, index.complaint)
    ensures index.Ok? ==> (r.Ok? <==> toks[index.next].kind == RightParen)
    ensures r.Ok? ==> r == Ok(Indexer(e, index.value, 0), index.next + 1)
    ensures index.Ok? && r.Err? ==>
      r == Err(toks[index.next].line, Unexpected(toks[index.next].lexeme, RightParen))
  {
    if index.Err? then Err(index.line, index.complaint) else
    var close := Eat(toks, index.next, RightParen);
    if close.Err? then Err(close.line, close.complaint)
    else Ok(Indexer(e, index.value, 0), close.next)
  }

  /** An optional `= expr` after the suffix chain; the target's kind is not checked here. */
  function AssignTail(toks: seq<Token>, target: Expr, pos: nat): (r: Result<Expr>)
    requires Terminated(toks) && pos < |toks|
    ensures r.Ok? ==> pos <= r.next < |toks|
    ensures toks[pos].kind != Equal ==> r == Ok(target, pos)
    ensures r.Ok? && toks[pos].kind == Equal ==>
      r.value.AssignmentExpr? && r.value.target == target && pos < r.next
    decreases |toks| - pos, 0
  {
    if !Peek(toks, pos, Equal) then Ok(target, pos)
    else
      var rhs := Expression(toks, pos + 1);
      if rhs.Err? then Err(rhs.line, rhs.complaint)
      else Ok(AssignmentExpr(target, rhs.value, 0), rhs.next)
  }

  /**
   * The binary-operator loop: while the current token is an operator, consume
   * it and parse a whole expression as the right operand. Because that operand
   * swallows any operators after it, operators associate to the right.
   */
  function Operators(toks: seq<Token>, left: Expr, pos: nat): (r: Result<Expr>)
    requires Terminated(toks) && pos < |toks|
    ensures r.Ok? ==> pos <= r.next < |toks| && OperatorChainOf(r.value, left)
    ensures r.Ok? ==> !IsOperator(toks[r.next].kind)
    ensures !IsOperator(toks[pos].kind) ==> r == Ok(left, pos)
    decreases |toks| - pos, 0
  {
    if !IsOperator(toks[pos].kind) then Ok(left, pos)
    else
      var op := toks[pos];
      var right := Expression(toks, pos + 1);
      if right.Err? then Err(right.line, right.complaint)
      else
        var r := Operators(toks, BinOp(left, op, right.value, 0), right.next);
        if r.Ok? then OperatorChainStep(r.value, BinOp(left, op, right.value, 0), left); r else r
  }

  /** An optional call `(args)` after the operator loop. */
  function CallTail(toks: seq<Token>, callee: Expr, pos: nat): (r: Result<Expr>)
    requires Terminated(toks) && pos < |toks|
    ensures r.Ok? ==> pos <= r.next < |toks|
    ensures toks[pos].kind != LeftParen ==> r == Ok(callee, pos)
    ensures r.Ok? && toks[pos].kind == LeftParen ==>
      r.value.FCallExpr? && r.value.callee == callee && pos < r.next
    decreases |toks| - pos, 0
  {
    if !Peek(toks, pos, LeftParen) then Ok(callee, pos)
    else
      var args := Arguments(toks, pos + 1, RightParen);
      if args.Err? then Err(args.line, args.complaint)
      else Ok(FCallExpr(callee, args.value, 0), args.next + 1)
  }
}
