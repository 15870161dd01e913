/**
 * What the evaluator makes of parsed programs: a subtraction chain grouped
 * to the right, and an assignment whose target is a literal.
 */
module ParsedPrograms {
  import opened Common
  import opened Syntax
  import opened Parser
  import opened Values
  import opened Natives
  import opened ParserFacts
  import Interpreter

  /** A number token carrying the literal `n`. */
  predicate NumberToken(t: Token, n: real)
  {
    t.kind == NumberLit && t.literal == NumConst(n)
  }

  /**
   * `x - y - z` evaluates to `x - (y - z)` with intended subtraction (so
   * `2 - 3 - 4` is 3, not -5) and to `x + y + z` as written, where `-` adds.
   */
  lemma SubtractionChainValue(h: Host, s: Store, e: nat, fuel: nat, toks: seq<Token>, x: real, y: real, z: real)
    requires Interpreter.Ready(h, s, e)
    requires Subtractions(toks)
    requires NumberToken(toks[0], x) && NumberToken(toks[2], y) && NumberToken(toks[4], z)
    ensures var r := Expression(toks, 0);
      && r.Ok?
      && Interpreter.Eval(h, s, e, r.value, fuel)
         == Val(Num(if h.dialect == Intended then x - (y - z) else x + (y + z)), s)
  {
    SubtractionsGroupRight(toks);
    SubtractionTreeValue(h, s, e, fuel, toks[1], toks[3], toks[4].line, x, y, z);
  }

  /** The tree `x - (y - z)` of number literals evaluates by the dialect's subtraction, inner node first. */
  lemma SubtractionTreeValue(h: Host, s: Store, e: nat, fuel: nat, op1: Token, op2: Token, l: int, x: real, y: real, z: real)
    requires Interpreter.Ready(h, s, e) && op1.kind == Minus && op2.kind == Minus
    ensures Interpreter.Eval(h, s, e, BinOp(Literal(NumConst(x), 0), op1,
                                            BinOp(Literal(NumConst(y), 0), op2, Literal(NumConst(z), l), l), l), fuel)
      == Val(Num(if h.dialect == Intended then x - (y - z) else x + (y + z)), s)
  {
    var inner := BinOp(Literal(NumConst(y), 0), op2, Literal(NumConst(z), l), l);
    assert Interpreter.Eval(h, s, e, Literal(NumConst(y), 0), fuel) == Val(Num(y), s);
    assert Interpreter.Eval(h, s, e, Literal(NumConst(z), l), fuel) == Val(Num(z), s);
    SubtractNumbers(h, s, e, fuel, Literal(NumConst(y), 0), op2, Literal(NumConst(z), l), l, y, z);
    var m := if h.dialect == Intended then y - z else y + z;
    assert Interpreter.Eval(h, s, e, Literal(NumConst(x), 0), fuel) == Val(Num(x), s);
    SubtractNumbers(h, s, e, fuel, Literal(NumConst(x), 0), op1, inner, l, x, m);
  }

  /** A subtraction whose operands evaluate to numbers without touching the store. */
  lemma SubtractNumbers(h: Host, s: Store, e: nat, fuel: nat, a: Expr, op: Token, b: Expr, line: int, x: real, y: real)
    requires Interpreter.Ready(h, s, e) && op.kind == Minus
    requires Interpreter.Eval(h, s, e, a, fuel) == Val(Num(x), s)
    requires Interpreter.Eval(h, s, e, b, fuel) == Val(Num(y), s)
    ensures Interpreter.Eval(h, s, e, BinOp(a, op, b, line), fuel)
      == Val(Num(if h.dialect == Intended then x - y else x + y), s)
  {
    var x' := BinOp(a, op, b, line);
    assert Interpreter.Eval(h, s, e, x', fuel) == Interpreter.EvalBinOp(h, s, e, x', fuel);
    assert Interpreter.Binary(h, s, Minus, line, Num(x), Num(y), fuel)
      == Interpreter.ArithmeticOn(h, s, Minus, line, Num(x), Num(y), fuel)
      == Interpreter.NumberResult(h, s, Minus, x, Num(y));
  }

  /**
   * The target of `=` is not checked when parsing: `1 = 2` parses, and only
   * evaluating it fails, with "Cannot assign" at the line of the `2`.
   */
  lemma LiteralTargetFailsWhenEvaluated(h: Host, s: Store, e: nat, fuel: nat, toks: seq<Token>)
    requires Interpreter.Ready(h, s, e)
    requires |toks| == 4 && toks[3].kind == Eof
    requires toks[0].kind == NumberLit && toks[1].kind == Equal && toks[2].kind == NumberLit
    ensures var r := Expression(toks, 0);
      && r.Ok?
      && Interpreter.Eval(h, s, e, r.value, fuel) == Raise(RuntimeError(toks[2].line, "Cannot assign"))
  {
    LiteralTargetParses(toks);
    var one := Literal(toks[0].literal, 0);
    var rhs := Literal(toks[2].literal, toks[2].line);
    var y := AssignmentExpr(one, rhs, toks[2].line);
    assert Interpreter.Eval(h, s, e, rhs, fuel) == Val(Interpreter.ConstValue(toks[2].literal), s);
    assert Interpreter.Eval(h, s, e, y, fuel) == Interpreter.EvalAssignment(h, s, e, y, fuel);
  }
}
