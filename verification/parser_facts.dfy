/**
 * The parser's grammar quirks on short token lists: right-associative
 * operators without precedence levels, the `:` suffix chain, unchecked
 * assignment targets, and statements kept in source order.
 *
 * The token lists are described by their kinds only, so every lemma holds
 * for all names, literals and line numbers the scanner could have produced.
 */
module ParserFacts {
  import opened Common
  import opened Syntax
  import opened Parser

  /** An operator the binary-operator loop consumes (`=` is taken by the assignment tail first). */
  predicate InfixToken(t: Token)
  {
    IsOperator(t.kind) && t.kind != Equal
  }

  /** A token after which an expression does not go on: no suffix, assignment, operator or call. */
  predicate Closes(t: Token)
  {
    t.kind !in {Colon, Equal, LeftParen} && !IsOperator(t.kind)
  }

  /** A name followed by a closing token is a whole expression, stamped with the name's line. */
  lemma NameExpression(toks: seq<Token>, pos: nat)
    requires Terminated(toks) && pos + 1 < |toks|
    requires toks[pos].kind == Identifier && Closes(toks[pos + 1])
    ensures Expression(toks, pos) == Ok(Variable(toks[pos], toks[pos].line), pos + 1)
  {
    var v := Variable(toks[pos], 0);
    assert Primary(toks, pos) == Ok(v, pos + 1);
  }

  /** A number followed by a closing token is a whole expression: a literal stamped with its line. */
  lemma NumberExpression(toks: seq<Token>, pos: nat)
    requires Terminated(toks) && pos + 1 < |toks|
    requires toks[pos].kind == NumberLit && Closes(toks[pos + 1])
    ensures Expression(toks, pos) == Ok(Literal(toks[pos].literal, toks[pos].line), pos + 1)
  {
    var v := Literal(toks[pos].literal, 0);
    assert Primary(toks, pos) == Ok(v, pos + 1);
  }

  /** Five tokens `a op b op c` of names and operators, then the end of input. */
  predicate NameChain(toks: seq<Token>)
  {
    && |toks| == 6 && toks[5].kind == Eof
    && toks[0].kind == Identifier && InfixToken(toks[1]) && toks[2].kind == Identifier
    && InfixToken(toks[3]) && toks[4].kind == Identifier
  }

  /** `b op c` at positions 2 to 4, before the end of input, is one operator node whatever precedes it. */
  lemma OperatorTail(toks: seq<Token>)
    requires |toks| == 6 && toks[5].kind == Eof
    requires toks[2].kind == Identifier && InfixToken(toks[3]) && toks[4].kind == Identifier
    ensures Expression(toks, 2)
      == Ok(BinOp(Variable(toks[2], 0), toks[3], Variable(toks[4], toks[4].line), toks[4].line), 5)
  {
    NameOperation(toks, 2);
  }

  /**
   * There are no precedence levels and operators group to the right:
   * `a - b - c` is `a - (b - c)` and `a * b + c` is `a * (b + c)`; the
   * node finished last carries the line of the last token.
   */
  lemma OperatorsGroupRight(toks: seq<Token>)
    requires NameChain(toks)
    ensures Expression(toks, 0)
      == Ok(BinOp(Variable(toks[0], 0), toks[1],
                  BinOp(Variable(toks[2], 0), toks[3], Variable(toks[4], toks[4].line), toks[4].line),
                  toks[4].line), 5)
  {
    OperatorTail(toks);
    var a := Variable(toks[0], 0);
    var bc := BinOp(Variable(toks[2], 0), toks[3], Variable(toks[4], toks[4].line), toks[4].line);
    assert Primary(toks, 0) == Ok(a, 1);
    OperatorOnce(toks, a, 1, bc, 5);
  }

  /** Five tokens `x - y - z` of numbers and minus signs, then the end of input. */
  predicate Subtractions(toks: seq<Token>)
  {
    && |toks| == 6 && toks[5].kind == Eof
    && toks[0].kind == NumberLit && toks[1].kind == Minus && toks[2].kind == NumberLit
    && toks[3].kind == Minus && toks[4].kind == NumberLit
  }

  /** `y - z` at the end of a subtraction chain is one operator node. */
  lemma SubtractionsRight(toks: seq<Token>)
    requires Subtractions(toks)
    ensures Expression(toks, 2)
      == Ok(BinOp(Literal(toks[2].literal, 0), toks[3], Literal(toks[4].literal, toks[4].line), toks[4].line), 5)
  {
    NumberOperation(toks, 2);
  }

  /** `x - y - z` parses as `x - (y - z)`. */
  lemma SubtractionsGroupRight(toks: seq<Token>)
    requires Subtractions(toks)
    ensures Expression(toks, 0)
      == Ok(BinOp(Literal(toks[0].literal, 0), toks[1],
                  BinOp(Literal(toks[2].literal, 0), toks[3], Literal(toks[4].literal, toks[4].line), toks[4].line),
                  toks[4].line), 5)
  {
    SubtractionsRight(toks);
    var x := Literal(toks[0].literal, 0);
    var yz := BinOp(Literal(toks[2].literal, 0), toks[3], Literal(toks[4].literal, toks[4].line), toks[4].line);
    assert Primary(toks, 0) == Ok(x, 1);
    OperatorOnce(toks, x, 1, yz, 5);
  }

  /**
   * `a:b:(c)` is `(a:b):(c)`: suffixes apply left to right, a name giving a
   * property and a parenthesised expression an index.
   */
  lemma SuffixesLeftToRight(toks: seq<Token>)
    requires |toks| == 8 && toks[7].kind == Eof
    requires toks[0].kind == Identifier && toks[1].kind == Colon && toks[2].kind == Identifier
    requires toks[3].kind == Colon && toks[4].kind == LeftParen && toks[5].kind == Identifier
    requires toks[6].kind == RightParen
    ensures Expression(toks, 0)
      == Ok(Indexer(Property(Variable(toks[0], 0), toks[2], 0), Variable(toks[5], toks[5].line), toks[6].line), 7)
  {
    var a := Variable(toks[0], 0);
    var ab := Property(a, toks[2], 0);
    var c := Variable(toks[5], toks[5].line);
    var x := Indexer(ab, c, 0);
    NameExpression(toks, 5);
    assert Eat(toks, 6, RightParen) == Ok(toks[6], 7);
    assert Postfix(toks, ab, 3) == Ok(x, 7);
    assert Postfix(toks, a, 1) == Ok(x, 7);
    assert Primary(toks, 0) == Ok(a, 1);
  }

  /** A `:` followed by neither a name nor `(` is consumed and adds nothing: `a::b` is `a:b`. */
  lemma DoubleColonSkipped(toks: seq<Token>)
    requires |toks| == 5 && toks[4].kind == Eof
    requires toks[0].kind == Identifier && toks[1].kind == Colon && toks[2].kind == Colon
    requires toks[3].kind == Identifier
    ensures Expression(toks, 0) == Ok(Property(Variable(toks[0], 0), toks[3], toks[3].line), 4)
  {
    var a := Variable(toks[0], 0);
    var ab := Property(a, toks[3], 0);
    assert Primary(toks, 0) == Ok(a, 1);
    assert Postfix(toks, a, 2) == Ok(ab, 4);
    assert Postfix(toks, a, 1) == Ok(ab, 4);
  }

  /** A trailing `:` is consumed and adds nothing: `a:` is `a`, stamped with the colon's line. */
  lemma TrailingColonSkipped(toks: seq<Token>)
    requires |toks| == 3 && toks[2].kind == Eof
    requires toks[0].kind == Identifier && toks[1].kind == Colon
    ensures Expression(toks, 0) == Ok(Variable(toks[0], toks[1].line), 2)
  {
    var a := Variable(toks[0], 0);
    assert Primary(toks, 0) == Ok(a, 1);
    assert Postfix(toks, a, 1) == Ok(a, 2);
  }

  /** Six tokens `a = b op c`, then the end of input. */
  predicate AssignedChain(toks: seq<Token>)
  {
    && |toks| == 6 && toks[5].kind == Eof
    && toks[0].kind == Identifier && toks[1].kind == Equal && toks[2].kind == Identifier
    && InfixToken(toks[3]) && toks[4].kind == Identifier
  }

  /** `a = b + c` assigns the whole `b + c`: the right-hand side of `=` is a whole expression. */
  lemma AssignmentTakesWholeExpression(toks: seq<Token>)
    requires AssignedChain(toks)
    ensures Expression(toks, 0)
      == Ok(AssignmentExpr(Variable(toks[0], 0),
                           BinOp(Variable(toks[2], 0), toks[3], Variable(toks[4], toks[4].line), toks[4].line),
                           toks[4].line), 5)
  {
    OperatorTail(toks);
    var a := Variable(toks[0], 0);
    var rhs := BinOp(Variable(toks[2], 0), toks[3], Variable(toks[4], toks[4].line), toks[4].line);
    var x := AssignmentExpr(a, rhs, 0);
    assert Primary(toks, 0) == Ok(a, 1);
    assert AssignTail(toks, a, 1) == Ok(x, 5);
  }

  /** The target of `=` is not checked when parsing: `1 = 2` parses to an assignment to a literal. */
  lemma LiteralTargetParses(toks: seq<Token>)
    requires |toks| == 4 && toks[3].kind == Eof
    requires toks[0].kind == NumberLit && toks[1].kind == Equal && toks[2].kind == NumberLit
    ensures Expression(toks, 0)
      == Ok(AssignmentExpr(Literal(toks[0].literal, 0), Literal(toks[2].literal, toks[2].line), toks[2].line), 3)
  {
    NumberExpression(toks, 2);
    var one := Literal(toks[0].literal, 0);
    var x := AssignmentExpr(one, Literal(toks[2].literal, toks[2].line), 0);
    assert Primary(toks, 0) == Ok(one, 1);
    assert AssignTail(toks, one, 1) == Ok(x, 3);
  }

  /** `let x = 1` followed by a closing token: the declaration ends at that token and carries the number's line. */
  lemma LetOfNumber(toks: seq<Token>, pos: nat)
    requires Terminated(toks) && pos + 4 < |toks|
    requires toks[pos].kind == LetKw && toks[pos + 1].kind == Identifier && toks[pos + 2].kind == Equal
    requires toks[pos + 3].kind == NumberLit && Closes(toks[pos + 4])
    ensures Statement(toks, pos)
      == Ok(Let(toks[pos + 1], Literal(toks[pos + 3].literal, toks[pos + 3].line), toks[pos + 3].line), pos + 4)
  {
    NumberExpression(toks, pos + 3);
    var init := Literal(toks[pos + 3].literal, toks[pos + 3].line);
    assert LetDecl(toks, pos) == Ok(Let(toks[pos + 1], init, 0), pos + 4);
  }

  /** A name followed by a closing token is an expression statement. */
  lemma NameStatement(toks: seq<Token>, pos: nat)
    requires Terminated(toks) && pos + 1 < |toks|
    requires toks[pos].kind == Identifier && Closes(toks[pos + 1])
    ensures Statement(toks, pos) == Ok(ExprStmt(Variable(toks[pos], toks[pos].line), toks[pos].line), pos + 1)
  {
    NameExpression(toks, pos);
    ExpressionStatement(toks, pos);
  }

  /** Helper: a statement that starts with none of the four keywords is the expression there. */
  lemma ExpressionStatement(toks: seq<Token>, pos: nat)
    requires Terminated(toks) && pos < |toks|
    requires toks[pos].kind !in {LetKw, IfKw, WhileKw, ReturnKw}
    requires Expression(toks, pos).Ok?
    ensures var e := Expression(toks, pos); Statement(toks, pos) == Ok(ExprStmt(e.value, toks[e.next - 1].line), e.next)
  {
  }

  /** A program of two statements parses to the list of both, in order. */
  lemma TwoStatements(toks: seq<Token>, n1: nat, n2: nat)
    requires Terminated(toks) && toks[0].kind != Eof
    requires Statement(toks, 0).Ok? && Statement(toks, 0).next == n1
    requires toks[n1].kind != Eof
    requires Statement(toks, n1).Ok? && Statement(toks, n1).next == n2 && toks[n2].kind == Eof
    ensures Parse(toks) == Ok(StmtList([Statement(toks, 0).value, Statement(toks, n1).value], 0), n2)
  {
    var s1 := Statement(toks, 0).value;
    var s2 := Statement(toks, n1).value;
    assert Statements(toks, n2, {Eof}, [s1, s2]) == Ok([s1, s2], n2);
    assert [s1] + [s2] == [s1, s2];
    assert Statements(toks, n1, {Eof}, [s1]) == Ok([s1, s2], n2);
    assert [] + [s1] == [s1];
    assert Statements(toks, 0, {Eof}, []) == Ok([s1, s2], n2);
  }

  /** `parse` keeps statements in source order in one statement list, stopping at `Eof`: `let x = 1 y`. */
  lemma ParseKeepsOrder(toks: seq<Token>)
    requires |toks| == 6 && toks[5].kind == Eof
    requires toks[0].kind == LetKw && toks[1].kind == Identifier && toks[2].kind == Equal
    requires toks[3].kind == NumberLit && toks[4].kind == Identifier
    ensures Parse(toks)
      == Ok(StmtList([Let(toks[1], Literal(toks[3].literal, toks[3].line), toks[3].line),
                      ExprStmt(Variable(toks[4], toks[4].line), toks[4].line)], 0), 5)
  {
    LetOfNumber(toks, 0);
    NameStatement(toks, 4);
    TwoStatements(toks, 4, 5);
  }

  /** The tokens `primary` accepts as the start of an expression. */
  predicate StartsExpression(k: TokenType)
  {
    k in {Identifier, FnKw, NumberLit, StringLit, CharLit, TrueKw, FalseKw, ProtoKw, LeftParen, NilKw, LeftBracket}
  }

  /** Any other token is reported as "Invalid expression" at its own line, and nothing is consumed. */
  lemma InvalidExpressionReported(toks: seq<Token>, pos: nat)
    requires Terminated(toks) && pos < |toks| && !StartsExpression(toks[pos].kind)
    ensures Expression(toks, pos) == Err(toks[pos].line, InvalidExpression)
  {
    assert Primary(toks, pos) == Err(toks[pos].line, InvalidExpression);
  }

  /**
   * The right-hand side of `=` is whatever `expression` parses right after
   * the `=`, and an error there is the assignment's error.
   */
  lemma AssignTailTakesExpression(toks: seq<Token>, target: Expr, pos: nat)
    requires Terminated(toks) && pos < |toks| && toks[pos].kind == Equal
    ensures var r, e := AssignTail(toks, target, pos), Expression(toks, pos + 1);
      && (r.Ok? <==> e.Ok?)
      && (r.Ok? ==> r.value == AssignmentExpr(target, e.value, 0) && r.next == e.next)
      && (r.Err? ==> r == Err(e.line, e.complaint))
  {}

  /**
   * The general law behind right association: after an operator the right
   * operand is the whole expression that follows, and when no operator comes
   * after that expression the loop ends with one node.
   */
  lemma OperatorTakesRestOfExpression(toks: seq<Token>, left: Expr, pos: nat)
    requires Terminated(toks) && pos < |toks| && IsOperator(toks[pos].kind)
    ensures var r, e := Operators(toks, left, pos), Expression(toks, pos + 1);
      && (e.Err? ==> r == Err(e.line, e.complaint))
      && (e.Ok? && !IsOperator(toks[e.next].kind) ==> r == Ok(BinOp(left, toks[pos], e.value, 0), e.next))
  {
    var e := Expression(toks, pos + 1);
    if e.Ok? && !IsOperator(toks[e.next].kind) {
      assert Operators(toks, BinOp(left, toks[pos], e.value, 0), e.next) == Ok(BinOp(left, toks[pos], e.value, 0), e.next);
    }
  }

  /**
   * Helper: a primary followed by neither `:` nor `=` hands straight to the operator loop, and the
   * expression is that loop's result when no `(` follows it.
   */
  lemma PrimaryThenOperators(toks: seq<Token>, pos: nat, left: Expr, n: nat, v: Expr, m: nat)
    requires Terminated(toks) && pos < |toks|
    requires Primary(toks, pos) == Ok(left, n) && toks[n].kind != Colon && toks[n].kind != Equal
    requires Operators(toks, left, n) == Ok(v, m) && toks[m].kind != LeftParen
    ensures Expression(toks, pos) == Ok(Relined(v, toks[m - 1].line), m)
  {
    assert CallTail(toks, v, m) == Ok(v, m);
  }

  /** Helper: `number op number` before a closing token is one operator node. */
  lemma NumberOperation(toks: seq<Token>, pos: nat)
    requires Terminated(toks) && pos + 3 < |toks|
    requires toks[pos].kind == NumberLit && InfixToken(toks[pos + 1])
    requires toks[pos + 2].kind == NumberLit && Closes(toks[pos + 3])
    ensures Expression(toks, pos) == Ok(BinOp(Literal(toks[pos].literal, 0), toks[pos + 1],
      Literal(toks[pos + 2].literal, toks[pos + 2].line), toks[pos + 2].line), pos + 3)
  {
    var left := Literal(toks[pos].literal, 0);
    NumberExpression(toks, pos + 2);
    assert Primary(toks, pos) == Ok(left, pos + 1);
    BinaryOfOperands(toks, pos, left, Literal(toks[pos + 2].literal, toks[pos + 2].line), pos + 3);
  }

  /** Helper: `name op name` before a closing token is one operator node. */
  lemma NameOperation(toks: seq<Token>, pos: nat)
    requires Terminated(toks) && pos + 3 < |toks|
    requires toks[pos].kind == Identifier && InfixToken(toks[pos + 1])
    requires toks[pos + 2].kind == Identifier && Closes(toks[pos + 3])
    ensures Expression(toks, pos) == Ok(BinOp(Variable(toks[pos], 0), toks[pos + 1],
      Variable(toks[pos + 2], toks[pos + 2].line), toks[pos + 2].line), pos + 3)
  {
    var left := Variable(toks[pos], 0);
    NameExpression(toks, pos + 2);
    assert Primary(toks, pos) == Ok(left, pos + 1);
    BinaryOfOperands(toks, pos, left, Variable(toks[pos + 2], toks[pos + 2].line), pos + 3);
  }

  /** Helper: one operator whose right operand is a whole expression ending before a non-operator. */
  lemma OperatorOnce(toks: seq<Token>, left: Expr, pos: nat, right: Expr, n: nat)
    requires Terminated(toks) && pos + 1 < |toks| && IsOperator(toks[pos].kind)
    requires Expression(toks, pos + 1) == Ok(right, n) && !IsOperator(toks[n].kind)
    ensures Operators(toks, left, pos) == Ok(BinOp(left, toks[pos], right, 0), n)
  {
    assert Operators(toks, BinOp(left, toks[pos], right, 0), n) == Ok(BinOp(left, toks[pos], right, 0), n);
  }

  /** Helper: a primary, one operator and a closed right operand make one operator node. */
  lemma BinaryOfOperands(toks: seq<Token>, pos: nat, left: Expr, right: Expr, n: nat)
    requires Terminated(toks) && pos + 2 < |toks|
    requires Primary(toks, pos) == Ok(left, pos + 1)
    requires IsOperator(toks[pos + 1].kind) && toks[pos + 1].kind != Equal
    requires Expression(toks, pos + 2) == Ok(right, n)
    requires !IsOperator(toks[n].kind) && toks[n].kind != LeftParen
    ensures Expression(toks, pos) == Ok(Relined(BinOp(left, toks[pos + 1], right, 0), toks[n - 1].line), n)
  {
    var v := BinOp(left, toks[pos + 1], right, 0);
    OperatorOnce(toks, left, pos + 1, right, n);
    PrimaryThenOperators(toks, pos, left, pos + 1, v, n);
    assert Expression(toks, pos) == Ok(Relined(v, toks[n - 1].line), n);
  }

  /** The arguments of a call are what the argument list parses after `(`; the call ends after the closing `)`. */
  lemma CallTailTakesArguments(toks: seq<Token>, callee: Expr, pos: nat)
    requires Terminated(toks) && pos < |toks| && toks[pos].kind == LeftParen
    ensures var r, a := CallTail(toks, callee, pos), Arguments(toks, pos + 1, RightParen);
      && (r.Ok? <==> a.Ok?)
      && (r.Ok? ==> r.value == FCallExpr(callee, a.value, 0) && r.next == a.next + 1 && toks[a.next].kind == RightParen)
      && (r.Err? ==> r == Err(a.line, a.complaint))
  {}

  /** Moving the head of `xs` onto the end of `acc` keeps the concatenation. */
  lemma AppendHead<T>(acc: seq<T>, xs: seq<T>)
    requires xs != []
    ensures acc + [xs[0]] + xs[1..] == acc + xs
  {
    assert xs == [xs[0]] + xs[1..];
  }

  /**
   * The converse of `StatementsAreRun`: a run of statements that reaches a
   * `stop` token is exactly what the statement loop returns, so the loop's
   * result is determined by the statements `statement` parses.
   */
  lemma {:induction false} RunIsStatements(toks: seq<Token>, pos: nat, stop: set<TokenType>, stmts: seq<Stmt>, next: nat, acc: seq<Stmt>)
    requires Terminated(toks) && pos < |toks|
    requires StatementRun(toks, pos, stop, stmts, next) && next < |toks| && toks[next].kind in stop
    ensures Statements(toks, pos, stop, acc) == Ok(acc + stmts, next)
    decreases |stmts|
  {
    if stmts == [] {
      assert acc + stmts == acc;
    } else {
      RunIsStatements(toks, Statement(toks, pos).next, stop, stmts[1..], next, acc + [stmts[0]]);
      AppendHead(acc, stmts);
    }
  }

  /** A program parses to a statement list exactly when its statements form a run that ends at `Eof`. */
  lemma ParseIsRun(toks: seq<Token>, stmts: seq<Stmt>, next: nat)
    requires Terminated(toks)
    ensures Parse(toks) == Ok(StmtList(stmts, 0), next)
      <==> StatementRun(toks, 0, {Eof}, stmts, next) && next < |toks| && toks[next].kind == Eof
  {
    if StatementRun(toks, 0, {Eof}, stmts, next) && next < |toks| && toks[next].kind == Eof {
      RunIsStatements(toks, 0, {Eof}, stmts, next, []);
      assert [] + stmts == stmts;
    }
  }


  // ---------------------------------------------------------------- argument lists

  /**
   * `args` are the `, expr` items `expression` parses one after another from
   * `pos`, none starting at `close`, and the last one ends at `next`.
   */
  predicate ArgumentRun(toks: seq<Token>, pos: nat, close: TokenType, args: seq<Expr>, next: nat)
    requires Terminated(toks) && pos < |toks|
    decreases |args|
  {
    if args == [] then next == pos
    else
      && toks[pos].kind != close && toks[pos].kind == Comma && pos + 1 < |toks|
      && var e := Expression(toks, pos + 1);
         e.Ok? && e.value == args[0] && ArgumentRun(toks, e.next, close, args[1..], next)
  }

  /** A whole argument list: nothing, or a first expression followed by an `ArgumentRun`. */
  predicate ArgumentList(toks: seq<Token>, pos: nat, close: TokenType, args: seq<Expr>, next: nat)
    requires Terminated(toks) && pos < |toks|
  {
    if args == [] then next == pos
    else
      && toks[pos].kind != close
      && var e := Expression(toks, pos);
         e.Ok? && e.value == args[0] && ArgumentRun(toks, e.next, close, args[1..], next)
  }

  /** What the argument loop appends to `acc` is an `ArgumentRun` up to `close`. */
  lemma {:induction false} ArgumentsRestIsRun(toks: seq<Token>, acc: seq<Expr>, pos: nat, close: TokenType)
    requires Terminated(toks) && pos < |toks|
    ensures var r := ArgumentsRest(toks, acc, pos, close);
      r.Ok? ==> ArgumentRun(toks, pos, close, r.value[|acc|..], r.next)
    decreases |toks| - pos
  {
    var r := ArgumentsRest(toks, acc, pos, close);
    if r.Ok? && toks[pos].kind != close {
      var comma := Eat(toks, pos, Comma);
      assert comma == Ok(toks[pos], pos + 1);
      var e := Expression(toks, comma.next);
      var longer := acc + [e.value];
      assert r == ArgumentsRest(toks, longer, e.next, close);
      ArgumentsRestIsRun(toks, longer, e.next, close);
      var args := r.value[|acc|..];
      assert args[0] == e.value && args[1..] == r.value[|longer|..] by {
        assert |longer| == |acc| + 1 && r.value[..|longer|] == longer;
        DropPrefix(r.value, acc, e.value);
      }
    }
  }

  /** Conversely, an `ArgumentRun` that reaches `close` is exactly what the argument loop appends. */
  lemma {:induction false} RunIsArgumentsRest(toks: seq<Token>, pos: nat, close: TokenType, args: seq<Expr>, next: nat, acc: seq<Expr>)
    requires Terminated(toks) && pos < |toks|
    requires ArgumentRun(toks, pos, close, args, next) && next < |toks| && toks[next].kind == close
    ensures ArgumentsRest(toks, acc, pos, close) == Ok(acc + args, next)
    decreases |args|
  {
    if args == [] {
      assert acc + args == acc;
    } else {
      var comma := Eat(toks, pos, Comma);
      assert comma == Ok(toks[pos], pos + 1);
      var e := Expression(toks, comma.next);
      RunIsArgumentsRest(toks, e.next, close, args[1..], next, acc + [args[0]]);
      assert ArgumentsRest(toks, acc, pos, close) == ArgumentsRest(toks, acc + [e.value], e.next, close);
      AppendHead(acc, args);
    }
  }

  /** What `Arguments` parses is an `ArgumentList`. */
  lemma ArgumentsAreList(toks: seq<Token>, pos: nat, close: TokenType)
    requires Terminated(toks) && pos < |toks|
    ensures var r := Arguments(toks, pos, close);
      r.Ok? ==> ArgumentList(toks, pos, close, r.value, r.next)
  {
    if toks[pos].kind == close {
      assert Arguments(toks, pos, close) == Ok([], pos);
    } else {
      var e := Expression(toks, pos);
      if e.Ok? {
        assert Arguments(toks, pos, close) == ArgumentsRest(toks, [e.value], e.next, close);
        FirstArgumentThenRun(toks, pos, close);
      } else {
        assert Arguments(toks, pos, close) == Err(e.line, e.complaint);
      }
    }
  }

  /** Helper for ArgumentsAreList: the loop after a first argument extends it to an `ArgumentList`. */
  lemma FirstArgumentThenRun(toks: seq<Token>, pos: nat, close: TokenType)
    requires Terminated(toks) && pos < |toks| && toks[pos].kind != close && Expression(toks, pos).Ok?
    ensures var e := Expression(toks, pos);
      var r := ArgumentsRest(toks, [e.value], e.next, close);
      r.Ok? ==> ArgumentList(toks, pos, close, r.value, r.next)
  {
    var e := Expression(toks, pos);
    var r := ArgumentsRest(toks, [e.value], e.next, close);
    if r.Ok? {
      var acc := [e.value];
      ArgumentsRestIsRun(toks, acc, e.next, close);
      assert |acc| == 1 && r.value[..1] == acc;
      assert r.value[0] == r.value[..1][0];
    }
  }

  /** An `ArgumentList` that reaches `close` is what `Arguments` parses. */
  lemma ListIsArguments(toks: seq<Token>, pos: nat, close: TokenType, args: seq<Expr>, next: nat)
    requires Terminated(toks) && pos < |toks|
    requires ArgumentList(toks, pos, close, args, next) && next < |toks| && toks[next].kind == close
    ensures Arguments(toks, pos, close) == Ok(args, next)
  {
    if args == [] {
      assert Arguments(toks, pos, close) == Ok([], pos);
    } else {
      var e := Expression(toks, pos);
      assert Arguments(toks, pos, close) == ArgumentsRest(toks, [e.value], e.next, close);
      RunIsArgumentsRest(toks, e.next, close, args[1..], next, [args[0]]);
      assert [args[0]] + args[1..] == args;
    }
  }

  /**
   * An argument list parses to `args` exactly when `args` are the
   * comma-separated expressions `expression` parses in order from `pos`, up
   * to the `close` token.
   */
  lemma ArgumentsIsList(toks: seq<Token>, pos: nat, close: TokenType, args: seq<Expr>, next: nat)
    requires Terminated(toks) && pos < |toks|
    ensures Arguments(toks, pos, close) == Ok(args, next)
      <==> ArgumentList(toks, pos, close, args, next) && next < |toks| && toks[next].kind == close
  {
    ArgumentsAreList(toks, pos, close);
    if ArgumentList(toks, pos, close, args, next) && next < |toks| && toks[next].kind == close {
      ListIsArguments(toks, pos, close, args, next);
    }
  }

  // ---------------------------------------------------------------- parameter lists

  /** `names` are the `, NAME` pairs that follow one another from `pos`, ending at `next`. */
  predicate NameRun(toks: seq<Token>, pos: nat, names: seq<Token>, next: nat)
    decreases |names|
  {
    if names == [] then next == pos
    else
      && pos + 1 < |toks| && toks[pos].kind == Comma && toks[pos + 1].kind == Identifier
      && toks[pos + 1] == names[0] && NameRun(toks, pos + 2, names[1..], next)
  }

  /** A `NameRun` has its names at every other token, after the commas. */
  lemma {:induction false} NameRunPositions(toks: seq<Token>, pos: nat, names: seq<Token>, next: nat)
    requires NameRun(toks, pos, names, next)
    ensures next == pos + 2 * |names|
    ensures forall i :: 0 <= i < |names| ==> pos + 2 * i + 1 < |toks| && toks[pos + 2 * i + 1] == names[i]
    decreases |names|
  {
    if names != [] {
      NameRunPositions(toks, pos + 2, names[1..], next);
      forall i | 0 <= i < |names|
        ensures pos + 2 * i + 1 < |toks| && toks[pos + 2 * i + 1] == names[i]
      {
        if i > 0 {
          assert names[i] == names[1..][i - 1];
          assert pos + 2 * i + 1 == (pos + 2) + 2 * (i - 1) + 1;
        }
      }
    }
  }

  /** The parameter loop keeps `acc` and appends a `NameRun` that ends at `)`. */
  lemma {:induction false} ParamsRestIsRun(toks: seq<Token>, acc: seq<Token>, pos: nat)
    requires Terminated(toks) && pos < |toks| && forall t <- acc :: t.kind == Identifier
    ensures var r := ParamsRest(toks, acc, pos);
      r.Ok? ==> |acc| <= |r.value| && r.value[..|acc|] == acc && NameRun(toks, pos, r.value[|acc|..], r.next)
    decreases |toks| - pos
  {
    var r := ParamsRest(toks, acc, pos);
    if r.Ok? && toks[pos].kind != RightParen {
      ParamsRestIsRun(toks, acc + [toks[pos + 1]], pos + 2);
      assert r.value[..|acc| + 1][..|acc|] == acc;
      DropPrefix(r.value, acc, toks[pos + 1]);
    }
  }

  /** Conversely, a `NameRun` that reaches `)` is exactly what the parameter loop appends. */
  lemma {:induction false} RunIsParamsRest(toks: seq<Token>, pos: nat, names: seq<Token>, next: nat, acc: seq<Token>)
    requires Terminated(toks) && pos < |toks| && forall t <- acc :: t.kind == Identifier
    requires NameRun(toks, pos, names, next) && next < |toks| && toks[next].kind == RightParen
    ensures ParamsRest(toks, acc, pos) == Ok(acc + names, next)
    decreases |names|
  {
    if names == [] {
      assert acc + names == acc;
    } else {
      RunIsParamsRest(toks, pos + 2, names[1..], next, acc + [names[0]]);
      AppendHead(acc, names);
    }
  }

  /** The layout of a parameter list: no names and no identifier, or a first name followed by a `NameRun`. */
  predicate ParamLayout(toks: seq<Token>, pos: nat, ps: seq<Token>, next: nat)
    requires Terminated(toks) && pos < |toks|
  {
    if ps == [] then next == pos && toks[pos].kind != Identifier
    else
      && toks[pos].kind == Identifier && toks[pos] == ps[0] && pos + 1 < |toks|
      && NameRun(toks, pos + 1, ps[1..], next)
  }

  /** What `Params` parses has the layout of a parameter list. */
  lemma ParamsAreLayout(toks: seq<Token>, pos: nat)
    requires Terminated(toks) && pos < |toks|
    ensures var r := Params(toks, pos);
      r.Ok? ==> ParamLayout(toks, pos, r.value, r.next)
  {
    if toks[pos].kind == Identifier {
      var acc := [toks[pos]];
      var r := ParamsRest(toks, acc, pos + 1);
      assert Params(toks, pos) == r;
      if r.Ok? {
        ParamsRestIsRun(toks, acc, pos + 1);
        assert |acc| == 1 && r.value[..1] == acc;
        assert r.value[0] == r.value[..1][0];
      }
    } else {
      assert Params(toks, pos) == Ok([], pos);
    }
  }

  /** A parameter-list layout, ending at `)` when it holds a name, is what `Params` parses. */
  lemma LayoutIsParams(toks: seq<Token>, pos: nat, ps: seq<Token>, next: nat)
    requires Terminated(toks) && pos < |toks|
    requires ParamLayout(toks, pos, ps, next)
    requires ps != [] ==> next < |toks| && toks[next].kind == RightParen
    ensures Params(toks, pos) == Ok(ps, next)
  {
    if ps == [] {
      assert Params(toks, pos) == Ok([], pos);
    } else {
      assert Params(toks, pos) == ParamsRest(toks, [toks[pos]], pos + 1);
      RunIsParamsRest(toks, pos + 1, ps[1..], next, [ps[0]]);
      assert [ps[0]] + ps[1..] == ps;
    }
  }

  /** A parameter list's names sit at every other token from the first, and the list ends at `)`. */
  lemma LayoutPositions(toks: seq<Token>, pos: nat, ps: seq<Token>, next: nat)
    requires Terminated(toks) && pos < |toks|
    requires ParamLayout(toks, pos, ps, next) && ps != []
    ensures next == pos + 2 * |ps| - 1
    ensures forall i :: 0 <= i < |ps| ==> pos + 2 * i < |toks| && toks[pos + 2 * i] == ps[i]
  {
    NameRunPositions(toks, pos + 1, ps[1..], next);
    forall i | 0 <= i < |ps|
      ensures pos + 2 * i < |toks| && toks[pos + 2 * i] == ps[i]
    {
      if i > 0 {
        assert ps[i] == ps[1..][i - 1];
        assert pos + 2 * i == (pos + 1) + 2 * (i - 1) + 1;
      }
    }
  }

  /**
   * `fn (a, b, c)`: the parameter list is empty exactly when no name follows
   * `(` (the `)` is then left to `FnDef`); otherwise it is the names in source
   * order, each two tokens after the previous one, and the list ends at `)`.
   */
  lemma ParamsInOrder(toks: seq<Token>, pos: nat, ps: seq<Token>, next: nat)
    requires Terminated(toks) && pos < |toks|
    ensures Params(toks, pos) == Ok(ps, next) <==>
      ParamLayout(toks, pos, ps, next) && (ps != [] ==> next < |toks| && toks[next].kind == RightParen)
    ensures Params(toks, pos) == Ok(ps, next) && ps != [] ==>
      next == pos + 2 * |ps| - 1 && forall i :: 0 <= i < |ps| ==> pos + 2 * i < |toks| && toks[pos + 2 * i] == ps[i]
  {
    ParamsAreLayout(toks, pos);
    if ParamLayout(toks, pos, ps, next) && (ps != [] ==> next < |toks| && toks[next].kind == RightParen) {
      LayoutIsParams(toks, pos, ps, next);
    }
    if Params(toks, pos) == Ok(ps, next) && ps != [] {
      LayoutPositions(toks, pos, ps, next);
    }
  }

  // ---------------------------------------------------------------- prototype bodies

  /** `lets` are what `LetDecl` parses one after another from `pos`, none starting at `end`, ending at `next`. */
  predicate LetRun(toks: seq<Token>, pos: nat, lets: seq<Stmt>, next: nat)
    requires Terminated(toks) && pos < |toks|
    decreases |lets|
  {
    if lets == [] then next == pos
    else
      var l := LetDecl(toks, pos);
      && toks[pos].kind != EndKw && l.Ok? && l.value == lets[0]
      && LetRun(toks, l.next, lets[1..], next)
  }

  /** The prototype-body loop keeps `acc` and appends a `LetRun` up to `end`. */
  lemma {:induction false} LetBlockIsRun(toks: seq<Token>, pos: nat, acc: seq<Stmt>)
    requires Terminated(toks) && pos < |toks| && forall s <- acc :: s.Let?
    ensures var r := LetBlock(toks, pos, acc);
      r.Ok? ==> |acc| <= |r.value| && r.value[..|acc|] == acc && LetRun(toks, pos, r.value[|acc|..], r.next)
    decreases |toks| - pos
  {
    var r := LetBlock(toks, pos, acc);
    if r.Ok? && toks[pos].kind != EndKw {
      var l := LetDecl(toks, pos);
      LetBlockIsRun(toks, l.next, acc + [l.value]);
      assert r.value[..|acc| + 1][..|acc|] == acc;
      DropPrefix(r.value, acc, l.value);
    }
  }

  /** Conversely, a `LetRun` that reaches `end` is exactly what the prototype-body loop appends. */
  lemma {:induction false} RunIsLetBlock(toks: seq<Token>, pos: nat, lets: seq<Stmt>, next: nat, acc: seq<Stmt>)
    requires Terminated(toks) && pos < |toks| && forall s <- acc :: s.Let?
    requires LetRun(toks, pos, lets, next) && next < |toks| && toks[next].kind == EndKw
    ensures LetBlock(toks, pos, acc) == Ok(acc + lets, next)
    decreases |lets|
  {
    if lets == [] {
      assert acc + lets == acc;
    } else {
      RunIsLetBlock(toks, LetDecl(toks, pos).next, lets[1..], next, acc + [lets[0]]);
      AppendHead(acc, lets);
    }
  }

  /** A prototype body parses to `lets` exactly when they are successive `let` declarations ending at `end`. */
  lemma LetBlockInOrder(toks: seq<Token>, pos: nat, lets: seq<Stmt>, next: nat)
    requires Terminated(toks) && pos < |toks|
    ensures LetBlock(toks, pos, []) == Ok(lets, next) <==> LetRun(toks, pos, lets, next) && next < |toks| && toks[next].kind == EndKw
  {
    LetBlockIsRun(toks, pos, []);
    var r := LetBlock(toks, pos, []);
    if r.Ok? {
      assert r.value[0..] == r.value;
    }
    if LetRun(toks, pos, lets, next) && next < |toks| && toks[next].kind == EndKw {
      RunIsLetBlock(toks, pos, lets, next, []);
      assert [] + lets == lets;
    }
  }

  // ---------------------------------------------------------------- declarations

  /**
   * `let NAME = expr`: an error at the first of the three leading tokens
   * that is wrong, and otherwise the `let` binds `NAME` to the expression
   * parsed after `=`, whose error is the declaration's error.
   */
  lemma LetDeclTakesExpression(toks: seq<Token>, pos: nat)
    requires Terminated(toks) && pos < |toks|
    ensures var r := LetDecl(toks, pos);
      && (toks[pos].kind != LetKw ==> r.Err? && r.line == toks[pos].line)
      && (toks[pos].kind == LetKw ==> pos + 1 < |toks|)
      && (toks[pos].kind == LetKw && toks[pos + 1].kind != Identifier ==> r.Err? && r.line == toks[pos + 1].line)
      && (toks[pos].kind == LetKw && toks[pos + 1].kind == Identifier ==> pos + 2 < |toks|)
      && (toks[pos].kind == LetKw && toks[pos + 1].kind == Identifier && toks[pos + 2].kind != Equal ==>
            r.Err? && r.line == toks[pos + 2].line)
      && (toks[pos].kind == LetKw && toks[pos + 1].kind == Identifier && toks[pos + 2].kind == Equal ==>
            pos + 3 < |toks|
            && var e := Expression(toks, pos + 3);
               && (e.Err? ==> r == Err(e.line, e.complaint))
               && (e.Ok? ==> r == Ok(Let(toks[pos + 1], e.value, 0), e.next)))
  {}

  /**
   * `if cond body (else body) end`: the condition is the expression after
   * `if`, and the then-body is the run of statements that follows it up to
   * `else` or `end`; an error in either is the statement's error.
   */
  lemma IfDeclParts(toks: seq<Token>, pos: nat)
    requires Terminated(toks) && pos < |toks| && toks[pos].kind == IfKw
    ensures pos + 1 < |toks|
    ensures var r, c := IfDecl(toks, pos), Expression(toks, pos + 1);
      && (c.Err? ==> r == Err(c.line, c.complaint))
      && (c.Ok? ==>
            var b := Statements(toks, c.next, {EndKw, ElseKw}, []);
            && (b.Err? ==> r == Err(b.line, b.complaint))
            && (b.Ok? ==> r == IfTail(toks, c.value, StmtList(b.value, 0), b.next)
                          && StatementRun(toks, c.next, {EndKw, ElseKw}, b.value, b.next)))
  {
    var kw := Eat(toks, pos, IfKw);
    assert kw == Ok(toks[pos], pos + 1);
    var c := Expression(toks, kw.next);
    if c.Ok? {
      var b := Statements(toks, c.next, {EndKw, ElseKw}, []);
      assert IfDecl(toks, pos) ==
        if b.Err? then Err(b.line, b.complaint) else IfTail(toks, c.value, StmtList(b.value, 0), b.next);
      BodyIsRun(toks, c.next, {EndKw, ElseKw});
    }
  }

  /** After `else`, the else-body is the run of statements up to `end`, and the `if` ends after that `end`. */
  lemma IfTailElseParts(toks: seq<Token>, cond: Expr, thenBody: Stmt, pos: nat)
    requires Terminated(toks) && pos < |toks| && toks[pos].kind == ElseKw
    ensures pos + 1 < |toks|
    ensures var r, b := IfTail(toks, cond, thenBody, pos), Statements(toks, pos + 1, {EndKw}, []);
      && (b.Err? ==> r == Err(b.line, b.complaint))
      && (b.Ok? ==> r == Ok(IfStmt(cond, thenBody, Some(StmtList(b.value, 0)), 0), b.next + 1)
                    && StatementRun(toks, pos + 1, {EndKw}, b.value, b.next))
  {
    assert !Peek(toks, pos, EndKw);
    var kw := Eat(toks, pos, ElseKw);
    assert kw == Ok(toks[pos], pos + 1);
    var b := Statements(toks, kw.next, {EndKw}, []);
    assert IfTail(toks, cond, thenBody, pos) ==
      if b.Err? then Err(b.line, b.complaint) else Ok(IfStmt(cond, thenBody, Some(StmtList(b.value, 0)), 0), b.next + 1);
    BodyIsRun(toks, kw.next, {EndKw});
  }

  /** The statements a body loop collects from scratch are a `StatementRun`. */
  lemma BodyIsRun(toks: seq<Token>, pos: nat, stop: set<TokenType>)
    requires Terminated(toks) && pos < |toks|
    ensures var b := Statements(toks, pos, stop, []);
      b.Ok? ==> StatementRun(toks, pos, stop, b.value, b.next)
  {
    StatementsAreRun(toks, pos, stop, []);
    var b := Statements(toks, pos, stop, []);
    if b.Ok? {
      assert b.value[0..] == b.value;
    }
  }

  /**
   * `while cond body end`: the condition is the expression after `while`,
   * the body is the run of statements up to `end`, and the loop ends after
   * that `end`; an error in either part is the statement's error.
   */
  lemma WhileDeclParts(toks: seq<Token>, pos: nat)
    requires Terminated(toks) && pos < |toks| && toks[pos].kind == WhileKw
    ensures pos + 1 < |toks|
    ensures var r, c := WhileDecl(toks, pos), Expression(toks, pos + 1);
      && (c.Err? ==> r == Err(c.line, c.complaint))
      && (c.Ok? ==>
            var b := Statements(toks, c.next, {EndKw}, []);
            && (b.Err? ==> r == Err(b.line, b.complaint))
            && (b.Ok? ==> r == Ok(WhileStmt(c.value, StmtList(b.value, 0), 0), b.next + 1)
                          && StatementRun(toks, c.next, {EndKw}, b.value, b.next)))
  {
    var kw := Eat(toks, pos, WhileKw);
    assert kw == Ok(toks[pos], pos + 1);
    var c := Expression(toks, kw.next);
    if c.Err? {
      assert WhileDecl(toks, pos) == Err(c.line, c.complaint);
    } else {
      var b := Statements(toks, c.next, {EndKw}, []);
      if b.Err? {
        assert WhileDecl(toks, pos) == Err(b.line, b.complaint);
      } else {
        assert WhileDecl(toks, pos) == Ok(WhileStmt(c.value, StmtList(b.value, 0), 0), b.next + 1);
        BodyIsRun(toks, c.next, {EndKw});
      }
    }
  }

  /**
   * `fn (params) body end`, up to the body: a missing `(` is an error at the
   * token after `fn`, the parameters are what `Params` parses after `(`,
   * and a parameter list not followed by `)` is an error at that token.
   */
  lemma FnDefHead(toks: seq<Token>, pos: nat)
    requires Terminated(toks) && pos < |toks| && toks[pos].kind == FnKw
    ensures pos + 1 < |toks|
    ensures var r := FnDef(toks, pos);
      && (toks[pos + 1].kind != LeftParen ==> r.Err? && r.line == toks[pos + 1].line)
      && (toks[pos + 1].kind == LeftParen ==>
            pos + 2 < |toks|
            && var ps := Params(toks, pos + 2);
               && (ps.Err? ==> r == Err(ps.line, ps.complaint))
               && (ps.Ok? && toks[ps.next].kind != RightParen ==> r.Err? && r.line == toks[ps.next].line))
  {
    assert Eat(toks, pos, FnKw) == Ok(toks[pos], pos + 1);
    var lp := Eat(toks, pos + 1, LeftParen);
    if lp.Err? {
      assert FnDef(toks, pos) == Err(lp.line, lp.complaint);
    } else {
      var ps := Params(toks, pos + 2);
      if ps.Err? {
        assert FnDef(toks, pos) == Err(ps.line, ps.complaint);
      } else {
        var rp := Eat(toks, ps.next, RightParen);
        if rp.Err? {
          assert FnDef(toks, pos) == Err(rp.line, rp.complaint);
        }
      }
    }
  }

  /**
   * `fn (params) body end`, once the parameters and `)` are read: the body
   * is the run of statements up to `end`, the literal ends after that `end`,
   * and an error in the body is the literal's error.
   */
  lemma FnDefParts(toks: seq<Token>, pos: nat)
    requires Terminated(toks) && pos + 2 < |toks| && toks[pos].kind == FnKw && toks[pos + 1].kind == LeftParen
    requires Params(toks, pos + 2).Ok? && toks[Params(toks, pos + 2).next].kind == RightParen
    ensures var ps := Params(toks, pos + 2);
      ps.next + 1 < |toks|
      && var r, b := FnDef(toks, pos), Statements(toks, ps.next + 1, {EndKw}, []);
         && (b.Err? ==> r == Err(b.line, b.complaint))
         && (b.Ok? ==> r == Ok(Func(ps.value, StmtList(b.value, 0), 0), b.next + 1)
                       && StatementRun(toks, ps.next + 1, {EndKw}, b.value, b.next))
  {
    var kw := Eat(toks, pos, FnKw);
    assert kw == Ok(toks[pos], pos + 1);
    var lp := Eat(toks, kw.next, LeftParen);
    assert lp == Ok(toks[pos + 1], pos + 2);
    var ps := Params(toks, lp.next);
    var rp := Eat(toks, ps.next, RightParen);
    assert rp == Ok(toks[ps.next], ps.next + 1);
    var b := Statements(toks, rp.next, {EndKw}, []);
    assert FnDef(toks, pos) == if b.Err? then Err(b.line, b.complaint)
                               else Ok(Func(ps.value, StmtList(b.value, 0), 0), b.next + 1);
    BodyIsRun(toks, rp.next, {EndKw});
  }
}
