/**
 * Properties of the evaluator: equality, the arithmetic of the two dialects,
 * truthiness, evaluation order, assignment, calls, blocks and loops.
 */
module InterpreterFacts {
  import opened Common
  import opened Syntax
  import opened Values
  import opened Numbers
  import opened Natives
  import opened Interpreter
  import Environment
  import Prototypes

  // ---------------------------------------------------------------- equality

  /** `==` is symmetric, also on lists compared element by element, and also in when it runs out of budget. */
  lemma {:induction false} EqualsSymmetric(s: Store, a: Value, b: Value, fuel: nat)
    requires ValidStore(s) && ValidValue(s, a) && ValidValue(s, b)
    ensures Equals(s, a, b, fuel) == Equals(s, b, a, fuel)
    decreases fuel, 0, 0
  {
    if a.ListRef? && b.ListRef? && a.list != b.list && fuel > 0 {
      SameElementsSymmetric(s, s.lists[a.list], s.lists[b.list], fuel - 1);
    }
  }

  lemma {:induction false} SameElementsSymmetric(s: Store, xs: seq<Value>, ys: seq<Value>, fuel: nat)
    requires ValidStore(s) && ValidValues(s, xs) && ValidValues(s, ys)
    ensures SameElements(s, xs, ys, fuel) == SameElements(s, ys, xs, fuel)
    decreases fuel, 1, |xs|
  {
    if |xs| == |ys| && xs != [] {
      EqualsSymmetric(s, xs[0], ys[0], fuel);
      SameElementsSymmetric(s, xs[1..], ys[1..], fuel);
    }
  }

  /**
   * Two lists of the same size are equal exactly when their elements are
   * pairwise equal; a definite answer is only given when the budget allows,
   * and pairwise equal elements always give one.
   */
  lemma {:induction false} SameElementsElementwise(s: Store, xs: seq<Value>, ys: seq<Value>, fuel: nat)
    requires ValidStore(s) && ValidValues(s, xs) && ValidValues(s, ys)
    ensures var r := SameElements(s, xs, ys, fuel);
      && (r.Some? ==> (r.value <==> |xs| == |ys| && forall i :: 0 <= i < |xs| ==> Equals(s, xs[i], ys[i], fuel) == Some(true)))
      && (|xs| == |ys| && (forall i :: 0 <= i < |xs| ==> Equals(s, xs[i], ys[i], fuel) == Some(true)) ==> r == Some(true))
    decreases |xs|
  {
    if |xs| == |ys| && xs != [] && Equals(s, xs[0], ys[0], fuel) == Some(true) {
      SameElementsElementwise(s, xs[1..], ys[1..], fuel);
      assert forall i :: 1 <= i < |xs| ==> xs[1..][i - 1] == xs[i] && ys[1..][i - 1] == ys[i];
    }
  }

  /**
   * `==` on two different lists: no answer without budget, and otherwise
   * true exactly when they have the same size and pairwise equal elements.
   */
  lemma EqualsElementwise(s: Store, l1: nat, l2: nat, fuel: nat)
    requires ValidStore(s) && l1 < |s.lists| && l2 < |s.lists| && l1 != l2
    ensures var r, xs, ys := Equals(s, ListRef(l1), ListRef(l2), fuel), s.lists[l1], s.lists[l2];
      && (fuel == 0 ==> r == None)
      && (fuel > 0 && r.Some? ==>
            (r.value <==> |xs| == |ys| && forall i :: 0 <= i < |xs| ==> Equals(s, xs[i], ys[i], fuel - 1) == Some(true)))
      && (fuel > 0 && |xs| == |ys| && (forall i :: 0 <= i < |xs| ==> Equals(s, xs[i], ys[i], fuel - 1) == Some(true)) ==>
            r == Some(true))
  {
    if fuel > 0 {
      SameElementsElementwise(s, s.lists[l1], s.lists[l2], fuel - 1);
    }
  }

  /**
   * `!=` is the negation of `==`, both run out of budget together, and a
   * nil left operand equals exactly nil; a boxed `Int` never equals a `Double`.
   */
  lemma NotEqualNegatesEqual(h: Host, s: Store, line: int, a: Value, b: Value, fuel: nat)
    requires ValidStore(s) && ValidHost(s, h) && ValidValue(s, a) && ValidValue(s, b)
    ensures var eq, ne := Binary(h, s, EqualEqual, line, a, b, fuel), Binary(h, s, BangEqual, line, a, b, fuel);
      && (eq.OutOfFuel? <==> ne.OutOfFuel?) && !eq.Raise? && !ne.Raise?
      && (eq.Val? ==> eq.store == s && ne.store == s && eq.value.Bool? && ne.value == Bool(!eq.value.b))
    ensures a == Nil ==> Binary(h, s, EqualEqual, line, a, b, fuel) == Val(Bool(b == Nil), s)
    ensures a.Int? && b.Num? ==> Binary(h, s, EqualEqual, line, a, b, fuel) == Val(Bool(false), s)
  {}

  // ---------------------------------------------------------------- arithmetic

  /**
   * `+` dispatches on the left operand: a number adds a number (any other
   * right operand is a cast error), a text appends the right operand's text
   * form, a prototype calls its `__plus` slot with the right operand, and
   * anything else cannot be added.
   */
  lemma PlusDispatch(h: Host, s: Store, line: int, a: Value, b: Value, fuel: nat)
    requires ValidStore(s) && ValidHost(s, h) && ValidValue(s, a) && ValidValue(s, b)
    ensures var r := Binary(h, s, Plus, line, a, b, fuel);
      && (a.Num? && b.Num? ==> r == Val(Num(a.n + b.n), s))
      && (a.Num? && !b.Num? ==> r == Raise(CastFailure))
      && (a.Text? ==> r == Val(Text(a.s + Show(h, s, b)), s))
      && (a.ProtoRef? ==> r == Overload(h, s, a.proto, "__plus", b, fuel))
      && (!(a.Num? || a.Text? || a.ProtoRef?) ==> r == Raise(RuntimeError(line, "Cannot add")))
  {}

  /** As written, `-` on two numbers adds them and `/` multiplies them. */
  lemma MinusAndSlashAsWritten(h: Host, s: Store, line: int, a: real, b: real, fuel: nat)
    requires ValidStore(s) && ValidHost(s, h) && h.dialect == AsWritten
    ensures Binary(h, s, Minus, line, Num(a), Num(b), fuel) == Val(Num(a + b), s)
    ensures Binary(h, s, Slash, line, Num(a), Num(b), fuel) == Val(Num(a * b), s)
  {}

  /** As written, subtracting what was added does not give the number back: `(2 + 3) - 3` is 8. */
  lemma SubtractionDoesNotUndoAdditionAsWritten(h: Host, s: Store, line: int, fuel: nat)
    requires ValidStore(s) && ValidHost(s, h) && h.dialect == AsWritten
    ensures var sum := Binary(h, s, Plus, line, Num(2.0), Num(3.0), fuel);
      && sum == Val(Num(5.0), s)
      && Binary(h, s, Minus, line, sum.value, Num(3.0), fuel) == Val(Num(8.0), s)
  {
    MinusAndSlashAsWritten(h, s, line, 5.0, 3.0, fuel);
  }

  /** Intended arithmetic: subtraction undoes addition and division undoes multiplication by a non-zero number. */
  lemma ArithmeticInverses(h: Host, s: Store, line: int, a: real, b: real, fuel: nat)
    requires ValidStore(s) && ValidHost(s, h) && h.dialect == Intended
    ensures var sum := Binary(h, s, Plus, line, Num(a), Num(b), fuel);
      sum.Val? && sum.value.Num? && Binary(h, s, Minus, line, sum.value, Num(b), fuel) == Val(Num(a), s)
    ensures b != 0.0 ==> var prod := Binary(h, s, Star, line, Num(a), Num(b), fuel);
      prod.Val? && prod.value.Num? && Binary(h, s, Slash, line, prod.value, Num(b), fuel) == Val(Num(a), s)
    ensures Binary(h, s, Slash, line, Num(a), Num(0.0), fuel).Raise?
  {
    assert Binary(h, s, Slash, line, Num(a), Num(0.0), fuel) == ArithmeticOn(h, s, Slash, line, Num(a), Num(0.0), fuel)
      == NumberResult(h, s, Slash, a, Num(0.0));
    var sum := Binary(h, s, Plus, line, Num(a), Num(b), fuel);
    assert sum == NumberResult(h, s, Plus, a, Num(b));
    assert sum.value == Num(a + b);
    assert Binary(h, s, Minus, line, sum.value, Num(b), fuel) == ArithmeticOn(h, s, Minus, line, sum.value, Num(b), fuel)
      == NumberResult(h, s, Minus, a + b, Num(b));
    if b != 0.0 {
      var prod := Binary(h, s, Star, line, Num(a), Num(b), fuel);
      assert prod == ArithmeticOn(h, s, Star, line, Num(a), Num(b), fuel) == NumberResult(h, s, Star, a, Num(b));
      assert prod.value == Num(a * b);
      assert Binary(h, s, Slash, line, prod.value, Num(b), fuel) == ArithmeticOn(h, s, Slash, line, prod.value, Num(b), fuel)
        == NumberResult(h, s, Slash, a * b, Num(b));
      QuotientOfProduct(a, b);
    }
  }

  lemma QuotientOfProduct(a: real, b: real)
    requires b != 0.0
    ensures Arithmetic(Slash, a * b, b) == Pass(a)
  {
    var q := (a * b) / b;
    assert q * b == a * b;
    assert (q - a) * b == 0.0;
  }

  // ---------------------------------------------------------------- truthiness

  /** As written, `if 0` (a number literal) takes the then-branch; only the boxed `Int` 0 is falsy. */
  lemma ZeroConditionAsWritten(h: Host, s: Store, e: nat, t: Stmt, el: Stmt, line: int, fuel: nat)
    requires Ready(h, s, e) && h.dialect == AsWritten
    ensures Exec(h, s, e, IfStmt(Literal(NumConst(0.0), line), t, Some(el), line), fuel) == Exec(h, s, e, t, fuel)
    ensures !Truthy(AsWritten, Int(0)) && Truthy(AsWritten, Num(0.0))
  {}

  /** Intended truthiness: `if 0` takes the else-branch; the falsy values are exactly nil, false and both zeros. */
  lemma ZeroConditionIntended(h: Host, s: Store, e: nat, t: Stmt, el: Stmt, line: int, fuel: nat)
    requires Ready(h, s, e) && h.dialect == Intended
    ensures Exec(h, s, e, IfStmt(Literal(NumConst(0.0), line), t, Some(el), line), fuel) == Exec(h, s, e, el, fuel)
    ensures forall v: Value :: !Truthy(Intended, v) <==> v in {Nil, Bool(false), Int(0), Num(0.0)}
  {}

  // ---------------------------------------------------------------- evaluation order

  /**
   * Both operands are evaluated, left first, before the operator is looked
   * at: an error in the left operand wins, the right one runs in the store
   * the left one left, and an unknown operator is reported only after both.
   */
  lemma OperandsLeftToRight(h: Host, s: Store, e: nat, l: Expr, op: Token, r: Expr, line: int, fuel: nat)
    requires Ready(h, s, e)
    ensures var x, lv := Eval(h, s, e, BinOp(l, op, r, line), fuel), Eval(h, s, e, l, fuel);
      && (lv.Raise? ==> x == Raise(lv.error))
      && (lv.Val? ==> var rv := Eval(h, lv.store, e, r, fuel);
           && (rv.Raise? ==> x == Raise(rv.error))
           && (rv.Val? ==> x == Binary(h, rv.store, op.kind, line, lv.value, rv.value, fuel))
           && (rv.Val? && op.kind == Bang ==> x == Raise(RuntimeError(line, "Invalid operator"))))
  {}

  /**
   * The callee, then every argument, and only then the check that the
   * callee can be called: an error in an argument hides a non-callable callee.
   */
  lemma CalleeCheckedAfterArguments(h: Host, s: Store, e: nat, callee: Expr, args: seq<Expr>, line: int, fuel: nat)
    requires Ready(h, s, e)
    requires Eval(h, s, e, callee, fuel).Val? && !(Eval(h, s, e, callee, fuel).value.FnRef? || Eval(h, s, e, callee, fuel).value.Native?)
    ensures var a := EvalEach(h, Eval(h, s, e, callee, fuel).store, e, args, fuel);
      && (a.Raise? ==> Eval(h, s, e, FCallExpr(callee, args, line), fuel) == Raise(a.error))
      && (a.Val? ==> Eval(h, s, e, FCallExpr(callee, args, line), fuel) == Raise(CastFailure))
  {}

  /** Only a text or a list can be indexed, and that is decided before the index expression runs. */
  lemma IndexTargetCheckedFirst(h: Host, s: Store, e: nat, coll: Expr, index: Expr, line: int, fuel: nat)
    requires Ready(h, s, e)
    requires Eval(h, s, e, coll, fuel).Val? && !(Eval(h, s, e, coll, fuel).value.Text? || Eval(h, s, e, coll, fuel).value.ListRef?)
    ensures Eval(h, s, e, Indexer(coll, index, line), fuel) == Raise(RuntimeError(line, "Cannot index"))
  {}

  /** Indexing a text gives the character at the truncated index, or an index error outside the text. */
  lemma TextIndexing(h: Host, s: Store, e: nat, t: string, n: real, line: int, fuel: nat)
    requires Ready(h, s, e)
    ensures var k := ToInt(n);
      Eval(h, s, e, Indexer(Literal(TextConst(t), line), Literal(NumConst(n), line), line), fuel)
        == if 0 <= k < |t| then Val(Char(t[k]), s) else Raise(IndexFailure)
  {
    var x := Indexer(Literal(TextConst(t), line), Literal(NumConst(n), line), line);
    assert Eval(h, s, e, x.collection, fuel) == Val(Text(t), s);
    assert Eval(h, s, e, x.index, fuel) == Val(Num(n), s);
    assert Eval(h, s, e, x, fuel) == EvalIndexer(h, s, e, x, fuel);
  }

  /**
   * Indexing a list reads the element at the truncated index, evaluated after
   * the list; a non-number index is a cast error and an index outside the
   * list an index error.
   */
  lemma ListIndexing(h: Host, s: Store, e: nat, coll: Expr, index: Expr, line: int, fuel: nat)
    requires Ready(h, s, e)
    requires Eval(h, s, e, coll, fuel).Val? && Eval(h, s, e, coll, fuel).value.ListRef?
    ensures var c := Eval(h, s, e, coll, fuel);
      var i, r := Eval(h, c.store, e, index, fuel), Eval(h, s, e, Indexer(coll, index, line), fuel);
      && (i.Raise? ==> r == Raise(i.error))
      && (i.Val? && !i.value.Num? ==> r == Raise(CastFailure))
      && (i.Val? && i.value.Num? ==>
            var k, xs := ToInt(i.value.n), i.store.lists[c.value.list];
            && (r.Val? <==> 0 <= k < |xs|)
            && (r.Val? ==> r.value == xs[k] && r.store == i.store)
            && (!r.Val? ==> r == Raise(IndexFailure)))
  {
    assert Eval(h, s, e, Indexer(coll, index, line), fuel) == EvalIndexer(h, s, e, Indexer(coll, index, line), fuel);
  }

  // ---------------------------------------------------------------- reading and building values

  /** Parentheses add nothing: a group evaluates as the expression inside it. */
  lemma GroupIsTransparent(h: Host, s: Store, e: nat, inner: Expr, line: int, fuel: nat)
    requires Ready(h, s, e)
    ensures Eval(h, s, e, Group(inner, line), fuel) == Eval(h, s, e, inner, fuel)
  {}

  /**
   * Reading `obj:name` asks the prototype `obj` evaluates to: it succeeds
   * exactly when the prototype or its parent has the slot, an own slot wins,
   * a missing slot is the prototype's own error, and a value that is not a
   * prototype is a cast error.
   */
  lemma PropertyReadsSlot(h: Host, s: Store, e: nat, obj: Expr, name: Token, line: int, fuel: nat)
    requires Ready(h, s, e)
    ensures var o, r := Eval(h, s, e, obj, fuel), Eval(h, s, e, Property(obj, name, line), fuel);
      && (o.Raise? ==> r == Raise(o.error))
      && (o.Val? && !o.value.ProtoRef? ==> r == Raise(CastFailure))
      && (o.Val? && o.value.ProtoRef? ==>
            var p, k := o.value.proto, name.lexeme;
            && (r.Val? <==> Prototypes.Finds(o.store, p, k))
            && (r.Raise? ==> r.error == Prototypes.Missing(o.store, p, k))
            && (r.Val? && k in o.store.protos[p].slots ==> r.value == o.store.protos[p].slots[k]))
  {}

  /**
   * A function literal is a new closure over the current scope: calling it
   * opens a scope whose parent is the scope the literal was evaluated in,
   * and nothing else in the store changes.
   */
  lemma FuncCapturesScope(h: Host, s: Store, e: nat, params: seq<Token>, body: Stmt, line: int, fuel: nat, args: seq<Value>)
    requires Ready(h, s, e) && ValidValues(s, args)
    ensures var r := Eval(h, s, e, Func(params, body, line), fuel);
      && r.Val? && r.value == FnRef(|s.closures|)
      && r.store.closures == s.closures + [Closure(params, body, e)]
      && r.store.scopes == s.scopes && r.store.protos == s.protos && r.store.lists == s.lists
      && ValidValues(r.store, args)
      && var a := Activation(r.store, |s.closures|, args);
         && (a.Pass? <==> |params| <= |args|)
         && (a.Pass? ==> a.value.scopes[|s.scopes|].parent == Some(e) && a.value.scopes[|s.scopes|].vars.Keys == Names(params))
  {
    var r := Eval(h, s, e, Func(params, body, line), fuel);
    ValidValuesGrow(s, r.store, args);
  }

  // ---------------------------------------------------------------- assignment

  /**
   * The right-hand side runs first: its error wins even over an invalid
   * target, an invalid target is reported only after it, and a successful
   * assignment yields the right-hand side's value.
   */
  lemma AssignmentRhsFirst(h: Host, s: Store, e: nat, target: Expr, rhs: Expr, line: int, fuel: nat)
    requires Ready(h, s, e)
    ensures var a, v := Eval(h, s, e, AssignmentExpr(target, rhs, line), fuel), Eval(h, s, e, rhs, fuel);
      && (v.Raise? ==> a == Raise(v.error))
      && (v.Val? && !(target.Property? || target.Variable? || target.Indexer?) ==> a == Raise(RuntimeError(line, "Cannot assign")))
      && (a.Val? ==> v.Val? && a.value == v.value)
  {}

  /**
   * Assigning to `list:(i)` evaluates the right-hand side, then the target,
   * then the index: a target that is not a list (a text included) is a cast
   * error, and so is an index that is not a number.
   */
  lemma IndexAssignmentErrors(h: Host, s: Store, e: nat, coll: Expr, index: Expr, iline: int, rhs: Expr, line: int, fuel: nat)
    requires Ready(h, s, e)
    requires Eval(h, s, e, rhs, fuel).Val?
    ensures var v := Eval(h, s, e, rhs, fuel);
      var c, a := Eval(h, v.store, e, coll, fuel), Eval(h, s, e, AssignmentExpr(Indexer(coll, index, iline), rhs, line), fuel);
      && (c.Raise? ==> a == Raise(c.error))
      && (c.Val? && !c.value.ListRef? ==> a == Raise(CastFailure))
      && (c.Val? && c.value.ListRef? ==>
            var i := Eval(h, c.store, e, index, fuel);
            && (i.Raise? ==> a == Raise(i.error))
            && (i.Val? && !i.value.Num? ==> a == Raise(CastFailure))
            && (i.Val? && i.value.Num? && !(0 <= ToInt(i.value.n) < |i.store.lists[c.value.list]|) ==> a == Raise(IndexFailure)))
  {
    var v := Eval(h, s, e, rhs, fuel);
    var x := AssignmentExpr(Indexer(coll, index, iline), rhs, line);
    assert Eval(h, s, e, x, fuel) == AssignTo(h, v.store, e, x.target, v.value, line, fuel);
  }

  /**
   * A list element assignment within bounds replaces that one element in
   * place: the list keeps its length and every other element, other lists
   * and all scopes and prototypes stay as they were, and the assignment
   * yields the assigned value.
   */
  lemma IndexAssignmentReplaces(h: Host, s: Store, e: nat, coll: Expr, index: Expr, iline: int, rhs: Expr, line: int, fuel: nat)
    requires Ready(h, s, e)
    requires Eval(h, s, e, rhs, fuel).Val?
    requires var c := Eval(h, Eval(h, s, e, rhs, fuel).store, e, coll, fuel);
      && c.Val? && c.value.ListRef?
      && var i := Eval(h, c.store, e, index, fuel);
         i.Val? && i.value.Num? && 0 <= ToInt(i.value.n) < |i.store.lists[c.value.list]|
    ensures var v := Eval(h, s, e, rhs, fuel);
      var c := Eval(h, v.store, e, coll, fuel);
      var i := Eval(h, c.store, e, index, fuel);
      var l, k, xs := c.value.list, ToInt(i.value.n), i.store.lists[c.value.list];
      var a := Eval(h, s, e, AssignmentExpr(Indexer(coll, index, iline), rhs, line), fuel);
      && a.Val? && a.value == v.value
      && a.store.lists == i.store.lists[l := xs[k := v.value]]
      && a.store.scopes == i.store.scopes && a.store.protos == i.store.protos
  {
    var v := Eval(h, s, e, rhs, fuel);
    var x := AssignmentExpr(Indexer(coll, index, iline), rhs, line);
    assert Eval(h, s, e, x, fuel) == AssignTo(h, v.store, e, x.target, v.value, line, fuel);
  }


  /**
   * Assigning to `obj:name` evaluates the right-hand side, then `obj`: a
   * value that is not a prototype is a cast error, and a prototype gets the
   * slot set to the assigned value, which a later lookup reads back.
   */
  lemma PropertyAssignmentSets(h: Host, s: Store, e: nat, obj: Expr, name: Token, pline: int, rhs: Expr, line: int, fuel: nat)
    requires Ready(h, s, e)
    ensures var v, a := Eval(h, s, e, rhs, fuel), Eval(h, s, e, AssignmentExpr(Property(obj, name, pline), rhs, line), fuel);
      && (v.Raise? ==> a == Raise(v.error))
      && (v.Val? ==>
            var o := Eval(h, v.store, e, obj, fuel);
            && (o.Raise? ==> a == Raise(o.error))
            && (o.Val? && !o.value.ProtoRef? ==> a == Raise(CastFailure))
            && (o.Val? && o.value.ProtoRef? ==>
                  && a == Val(v.value, Prototypes.Set(o.store, o.value.proto, name.lexeme, v.value))
                  && Prototypes.Get(a.store, o.value.proto, name.lexeme).Val?
                  && Prototypes.Get(a.store, o.value.proto, name.lexeme).value == v.value))
  {
    var v := Eval(h, s, e, rhs, fuel);
    var x := AssignmentExpr(Property(obj, name, pline), rhs, line);
    if v.Val? {
      assert Eval(h, s, e, x, fuel) == AssignTo(h, v.store, e, x.target, v.value, line, fuel);
      var o := Eval(h, v.store, e, obj, fuel);
      if o.Val? && o.value.ProtoRef? {
        Prototypes.SetThenGet(o.store, o.value.proto, name.lexeme, v.value);
      }
    }
  }

  /** After `x = rhs` succeeds, reading `x` in the same environment gives the assigned value. */
  lemma AssignedVariableReadsBack(h: Host, s: Store, e: nat, name: Token, nline: int, rhs: Expr, line: int, fuel: nat)
    requires Ready(h, s, e)
    requires Eval(h, s, e, AssignmentExpr(Variable(name, nline), rhs, line), fuel).Val?
    ensures var a := Eval(h, s, e, AssignmentExpr(Variable(name, nline), rhs, line), fuel);
      Eval(h, a.store, e, Variable(name, nline), fuel) == Val(a.value, a.store)
  {
    var x := AssignmentExpr(Variable(name, nline), rhs, line);
    var v := Eval(h, s, e, rhs, fuel);
    assert Eval(h, s, e, x, fuel) == EvalAssignment(h, s, e, x, fuel) == AssignTo(h, v.store, e, x.target, v.value, line, fuel);
    Environment.AssignThenGet(v.store, e, name, v.value);
  }

  /** Assigning to a name no scope on the chain binds is an undefined-variable error: assignment never declares. */
  lemma AssignmentNeverDeclares(h: Host, s: Store, e: nat, name: Token, nline: int, rhs: Expr, line: int, fuel: nat)
    requires Ready(h, s, e)
    requires Eval(h, s, e, rhs, fuel).Val?
    requires Environment.Get(Eval(h, s, e, rhs, fuel).store, e, name).Fail?
    ensures Eval(h, s, e, AssignmentExpr(Variable(name, nline), rhs, line), fuel) == Raise(Environment.Undefined(name))
  {
    var x := AssignmentExpr(Variable(name, nline), rhs, line);
    var v := Eval(h, s, e, rhs, fuel);
    assert Eval(h, s, e, x, fuel) == EvalAssignment(h, s, e, x, fuel) == AssignTo(h, v.store, e, x.target, v.value, line, fuel);
    Environment.AssignFailsIffGetFails(v.store, e, name, v.value);
  }

  // ---------------------------------------------------------------- blocks and loops

  /**
   * A `let` inside an `if` body binds in the enclosing environment, so the
   * name is still defined after the `if`: bodies open no scope of their own.
   */
  lemma LetInIfBodyVisibleAfter(h: Host, s: Store, e: nat, cond: Expr, name: Token, init: Expr, line: int, fuel: nat)
    requires Ready(h, s, e)
    requires Eval(h, s, e, cond, fuel).Val? && Truthy(h.dialect, Eval(h, s, e, cond, fuel).value)
    requires Eval(h, Eval(h, s, e, cond, fuel).store, e, init, fuel).Val?
    ensures var c := Exec(h, s, e, IfStmt(cond, StmtList([Let(name, init, line)], line), None, line), fuel);
      && c.Normal?
      && Environment.Get(c.store, e, name) == Pass(Eval(h, Eval(h, s, e, cond, fuel).store, e, init, fuel).value)
  {
    var s1 := Eval(h, s, e, cond, fuel).store;
    var v := Eval(h, s1, e, init, fuel);
    var let := Let(name, init, line);
    var s2 := Environment.Define(v.store, e, name.lexeme, v.value);
    assert Exec(h, s1, e, let, fuel) == Normal(s2);
    assert ExecAll(h, s2, e, [let][1..], fuel) == Normal(s2);
    assert ExecAll(h, s1, e, [let], fuel) == Normal(s2);
    assert Exec(h, s1, e, StmtList([let], line), fuel) == Normal(s2);
    assert Exec(h, s, e, IfStmt(cond, StmtList([let], line), None, line), fuel) == Normal(s2);
    Environment.DefineThenGet(v.store, e, name, v.value);
  }

  /**
   * A `let` inside a `while` body binds in the enclosing environment, so
   * the name is still defined after the loop. The loop `while flag let name
   * = init let flag = false end` runs its body once.
   */
  lemma LetInLoopBodyVisibleAfter(h: Host, s: Store, e: nat, flag: Token, name: Token, init: Expr, line: int, fuel: nat)
    requires Ready(h, s, e) && fuel > 0 && name.lexeme != flag.lexeme
    requires Environment.Get(s, e, flag) == Pass(Bool(true))
    requires Eval(h, s, e, init, fuel).Val?
    ensures var w := WhileStmt(Variable(flag, line),
                               StmtList([Let(name, init, line), Let(flag, Literal(BoolConst(false), line), line)], line), line);
      var c := Exec(h, s, e, w, fuel);
      && c.Normal?
      && Environment.Get(c.store, e, name) == Pass(Eval(h, s, e, init, fuel).value)
      && Environment.Get(c.store, e, flag) == Pass(Bool(false))
  {
    var body := StmtList([Let(name, init, line), Let(flag, Literal(BoolConst(false), line), line)], line);
    var w := WhileStmt(Variable(flag, line), body, line);
    var v := Eval(h, s, e, init, fuel);
    var sA := Environment.Define(v.store, e, name.lexeme, v.value);
    var sB := Environment.Define(sA, e, flag.lexeme, Bool(false));
    TwoLetsRun(h, s, e, flag, name, init, line, fuel);
    assert Eval(h, s, e, w.cond, fuel) == Val(Bool(true), s);
    Environment.DefineThenGet(sA, e, flag, Bool(false));
    assert Eval(h, sB, e, w.cond, fuel - 1) == Val(Bool(false), sB);
    LoopOnce(h, s, e, w, fuel, sB);
    assert Exec(h, s, e, w, fuel) == Normal(sB);
    Environment.DefineThenGet(v.store, e, name, v.value);
    Environment.DefineOtherName(sA, e, flag.lexeme, Bool(false), name, e);
  }

  /** Helper: a loop whose condition holds once and then fails runs its body exactly once. */
  lemma LoopOnce(h: Host, s: Store, e: nat, w: Stmt, fuel: nat, s1: Store)
    requires Ready(h, s, e) && w.WhileStmt? && fuel > 0
    requires Eval(h, s, e, w.cond, fuel) == Val(Bool(true), s)
    requires Exec(h, s, e, w.body, fuel) == Normal(s1) && Ready(h, s1, e)
    requires Eval(h, s1, e, w.cond, fuel - 1) == Val(Bool(false), s1)
    ensures Loop(h, s, e, w, fuel) == Normal(s1)
  {
    assert Loop(h, s1, e, w, fuel - 1) == Normal(s1);
  }

  /** The body `let name = init let flag = false` defines both names in the current scope, in that order. */
  lemma TwoLetsRun(h: Host, s: Store, e: nat, flag: Token, name: Token, init: Expr, line: int, fuel: nat)
    requires Ready(h, s, e) && Eval(h, s, e, init, fuel).Val?
    ensures var v := Eval(h, s, e, init, fuel);
      var sA := Environment.Define(v.store, e, name.lexeme, v.value);
      Exec(h, s, e, StmtList([Let(name, init, line), Let(flag, Literal(BoolConst(false), line), line)], line), fuel)
        == Normal(Environment.Define(sA, e, flag.lexeme, Bool(false)))
  {
    var let1 := Let(name, init, line);
    var let2 := Let(flag, Literal(BoolConst(false), line), line);
    var v := Eval(h, s, e, init, fuel);
    var sA := Environment.Define(v.store, e, name.lexeme, v.value);
    var sB := Environment.Define(sA, e, flag.lexeme, Bool(false));
    assert Exec(h, s, e, let1, fuel) == Normal(sA);
    assert Eval(h, sA, e, let2.init, fuel) == Val(Bool(false), sA);
    assert Exec(h, sA, e, let2, fuel) == Normal(sB);
    assert [let1, let2][1..] == [let2] && [let2][1..] == [];
    assert ExecAll(h, sB, e, [], fuel) == Normal(sB);
    assert ExecAll(h, sA, e, [let2], fuel) == Normal(sB);
    assert ExecAll(h, s, e, [let1, let2], fuel) == Normal(sB);
  }

  /** `while true {}` never finishes: whatever the budget, it is spent. */
  lemma {:induction false} EndlessLoopExhausts(h: Host, s: Store, e: nat, line: int, fuel: nat)
    requires Ready(h, s, e)
    ensures Exec(h, s, e, WhileStmt(Literal(BoolConst(true), line), StmtList([], line), line), fuel) == Exhausted
    decreases fuel
  {
    var w := WhileStmt(Literal(BoolConst(true), line), StmtList([], line), line);
    assert Eval(h, s, e, w.cond, fuel) == Val(Bool(true), s);
    assert Exec(h, s, e, w.body, fuel) == ExecAll(h, s, e, [], fuel) == Normal(s);
    assert Exec(h, s, e, w, fuel) == Loop(h, s, e, w, fuel);
    if fuel > 0 {
      EndlessLoopExhausts(h, s, e, line, fuel - 1);
      assert Exec(h, s, e, w, fuel - 1) == Loop(h, s, e, w, fuel - 1);
    }
  }

  /** A loop whose condition is falsy runs its condition once and never its body. */
  lemma FalsyLoopSkipsBody(h: Host, s: Store, e: nat, cond: Expr, body: Stmt, line: int, fuel: nat)
    requires Ready(h, s, e)
    requires Eval(h, s, e, cond, fuel).Val? && !Truthy(h.dialect, Eval(h, s, e, cond, fuel).value)
    ensures Exec(h, s, e, WhileStmt(cond, body, line), fuel) == Normal(Eval(h, s, e, cond, fuel).store)
  {}

  /**
   * Running a block is running its first part and then, only if that
   * completed normally, the rest: a `return`, an error or an exhausted
   * budget in the first part skips every later statement.
   */
  lemma {:induction false} ExecAllSequence(h: Host, s: Store, e: nat, xs: seq<Stmt>, ys: seq<Stmt>, fuel: nat)
    requires Ready(h, s, e)
    ensures ExecAll(h, s, e, xs + ys, fuel) ==
      match ExecAll(h, s, e, xs, fuel)
      case Normal(s1) => ExecAll(h, s1, e, ys, fuel)
      case other => other
    decreases |xs|
  {
    if xs == [] {
      assert xs + ys == ys;
    } else {
      assert (xs + ys)[0] == xs[0] && (xs + ys)[1..] == xs[1..] + ys;
      match Exec(h, s, e, xs[0], fuel)
      case Normal(s1) => ExecAllSequence(h, s1, e, xs[1..], ys, fuel);
      case _ =>
    }
  }

  /** No `return` statement outside nested function literals. */
  predicate NoReturn(st: Stmt)
  {
    match st
    case RetStmt(_, _) => false
    case IfStmt(_, t, el, _) => NoReturn(t) && (el.Some? ==> NoReturn(el.value))
    case WhileStmt(_, b, _) => NoReturn(b)
    case StmtList(stmts, _) => forall i :: 0 <= i < |stmts| ==> NoReturn(stmts[i])
    case _ => true
  }

  /** A statement without `return` never completes by returning. */
  lemma {:induction false} ExecNoReturn(h: Host, s: Store, e: nat, st: Stmt, fuel: nat)
    requires Ready(h, s, e) && NoReturn(st)
    ensures !Exec(h, s, e, st, fuel).Returned?
    decreases fuel, StmtSize(st), 2
  {
    match st
    case IfStmt(cond, t, el, _) =>
      var v := Eval(h, s, e, cond, fuel);
      if v.Val? {
        if Truthy(h.dialect, v.value) {
          ExecNoReturn(h, v.store, e, t, fuel);
        } else if el.Some? {
          ExecNoReturn(h, v.store, e, el.value, fuel);
        }
      }
    case WhileStmt(_, _, _) => LoopNoReturn(h, s, e, st, fuel);
    case StmtList(stmts, _) => ExecAllNoReturn(h, s, e, stmts, fuel);
    case _ =>
  }

  lemma {:induction false} LoopNoReturn(h: Host, s: Store, e: nat, w: Stmt, fuel: nat)
    requires Ready(h, s, e) && w.WhileStmt? && NoReturn(w)
    ensures !Loop(h, s, e, w, fuel).Returned?
    decreases fuel, StmtSize(w), 1
  {
    var v := Eval(h, s, e, w.cond, fuel);
    if v.Val? && Truthy(h.dialect, v.value) {
      ExecNoReturn(h, v.store, e, w.body, fuel);
      match Exec(h, v.store, e, w.body, fuel)
      case Normal(s1) => if fuel > 0 { LoopNoReturn(h, s1, e, w, fuel - 1); }
      case _ =>
    }
  }

  lemma {:induction false} ExecAllNoReturn(h: Host, s: Store, e: nat, stmts: seq<Stmt>, fuel: nat)
    requires Ready(h, s, e) && forall i :: 0 <= i < |stmts| ==> NoReturn(stmts[i])
    ensures !ExecAll(h, s, e, stmts, fuel).Returned?
    decreases fuel, StmtsSize(stmts), 2
  {
    if stmts != [] {
      ExecNoReturn(h, s, e, stmts[0], fuel);
      match Exec(h, s, e, stmts[0], fuel)
      case Normal(s1) =>
        assert forall i :: 0 <= i < |stmts[1..]| ==> stmts[1..][i] == stmts[i + 1];
        ExecAllNoReturn(h, s1, e, stmts[1..], fuel);
      case _ =>
    }
  }

  // ---------------------------------------------------------------- calls

  /** Arguments beyond the parameters are never read: binding them changes nothing. */
  lemma {:induction false} BindIgnoresExtra(s: Store, env: nat, params: seq<Token>, args: seq<Value>, extra: seq<Value>)
    requires ValidStore(s) && env < |s.scopes| && ValidValues(s, args) && ValidValues(s, extra)
    requires |params| <= |args|
    ensures ValidValues(s, args + extra)
    ensures Bind(s, env, params, args + extra) == Bind(s, env, params, args)
    decreases |params|
  {
    assert forall i :: 0 <= i < |args + extra| ==> (args + extra)[i] == if i < |args| then args[i] else extra[i - |args|];
    if params != [] {
      assert (args + extra)[0] == args[0] && (args + extra)[1..] == args[1..] + extra;
      var s1 := Environment.Define(s, env, params[0].lexeme, args[0]);
      ValidValuesGrow(s, s1, args[1..]);
      ValidValuesGrow(s, s1, extra);
      BindIgnoresExtra(s1, env, params[1..], args[1..], extra);
    }
  }

  /**
   * There is no arity check: a user function called with more arguments than
   * parameters behaves as if called with just the first ones.
   */
  lemma CallIgnoresExtra(h: Host, s: Store, c: nat, args: seq<Value>, extra: seq<Value>, fuel: nat)
    requires ValidStore(s) && ValidHost(s, h) && c < |s.closures| && ValidValues(s, args) && ValidValues(s, extra)
    requires |s.closures[c].params| <= |args|
    ensures ValidValues(s, args + extra)
    ensures Call(h, s, c, args + extra, fuel) == Call(h, s, c, args, fuel)
  {
    var cl := s.closures[c];
    var s0 := NewScope(s, Some(cl.env));
    ValidValuesGrow(s, s0, args);
    ValidValuesGrow(s, s0, extra);
    BindIgnoresExtra(s0, |s.scopes|, cl.params, args, extra);
    assert Activation(s, c, args + extra) == Activation(s, c, args);
  }

  /** A function whose body has no `return` gives nil whenever its call completes. */
  lemma CallWithoutReturnGivesNil(h: Host, s: Store, c: nat, args: seq<Value>, fuel: nat)
    requires ValidStore(s) && ValidHost(s, h) && c < |s.closures| && ValidValues(s, args)
    requires NoReturn(s.closures[c].body)
    ensures Call(h, s, c, args, fuel).Val? ==> Call(h, s, c, args, fuel).value == Nil
  {
    if fuel > 0 {
      CallRunsBody(h, s, c, args, fuel);
      var b := Activation(s, c, args);
      if b.Pass? {
        ExecNoReturn(h, b.value, |s.scopes|, s.closures[c].body, fuel - 1);
      }
    }
  }

  /**
   * Helper: with budget left, a call fails with the binding error or runs the
   * body in the bound scope, and its outcome is the body's completion.
   */
  lemma CallRunsBody(h: Host, s: Store, c: nat, args: seq<Value>, fuel: nat)
    requires ValidStore(s) && ValidHost(s, h) && c < |s.closures| && ValidValues(s, args) && fuel > 0
    ensures var b := Activation(s, c, args);
      && (b.Fail? ==> Call(h, s, c, args, fuel) == Raise(b.error))
      && (b.Pass? ==> Ready(h, b.value, |s.scopes|))
      && (b.Pass? ==>
            Call(h, s, c, args, fuel) == match Exec(h, b.value, |s.scopes|, s.closures[c].body, fuel - 1)
              case Normal(s2) => Val(Nil, s2)
              case Returned(v, s2) => Val(v, s2)
              case Failed(err) => Raise(err)
              case Exhausted => OutOfFuel)
  {
  }

  /**
   * A body that is `return x` makes the call give what `x` evaluates to in
   * the scope that binds the parameters: the `Return` is caught by the call.
   */
  lemma ReturnGivesCallValue(h: Host, s: Store, env: nat, body: Stmt, bound: Checked<Store>, fuel: nat)
    requires ValidStore(s) && ValidHost(s, h)
    requires bound.Pass? && ValidStore(bound.value) && Grows(s, bound.value) && env < |bound.value.scopes|
    requires body.StmtList? && |body.stmts| == 1 && body.stmts[0].RetStmt? && body.stmts[0].result.Some?
    ensures RunBody(h, s, env, body, bound, fuel) == Eval(h, bound.value, env, body.stmts[0].result.value, fuel)
  {
    var s1 := bound.value;
    var ret := body.stmts[0];
    var v := Eval(h, s1, env, ret.result.value, fuel);
    assert Exec(h, s1, env, ret, fuel) == if v.Val? then Returned(v.value, v.store) else Halt(v);
    assert Exec(h, s1, env, body, fuel) == ExecAll(h, s1, env, body.stmts, fuel);
  }

  /**
   * A `return x` after statements that completed normally ends the body:
   * the later statements are skipped and the call gives what `x` evaluates
   * to where the `return` runs (or its error).
   */
  lemma ReturnAfterStatementsGivesCallValue(h: Host, s: Store, env: nat, xs: seq<Stmt>, x: Expr, rline: int, ys: seq<Stmt>, line: int, bound: Checked<Store>, fuel: nat)
    requires ValidStore(s) && ValidHost(s, h)
    requires bound.Pass? && ValidStore(bound.value) && Grows(s, bound.value) && env < |bound.value.scopes|
    requires ExecAll(h, bound.value, env, xs, fuel).Normal?
    ensures var s2 := ExecAll(h, bound.value, env, xs, fuel).store;
      RunBody(h, s, env, StmtList(xs + [RetStmt(Some(x), rline)] + ys, line), bound, fuel) == Eval(h, s2, env, x, fuel)
  {
    var s2 := ExecAll(h, bound.value, env, xs, fuel).store;
    var v := Eval(h, s2, env, x, fuel);
    var st := RetStmt(Some(x), rline);
    assert Exec(h, s2, env, st, fuel) == if v.Val? then Returned(v.value, v.store) else Halt(v);
    assert xs + [st] + ys == xs + ([st] + ys);
    ExecAllSequence(h, bound.value, env, xs, [st] + ys, fuel);
    assert ([st] + ys)[0] == st && ([st] + ys)[1..] == ys;
    assert Exec(h, bound.value, env, StmtList(xs + [st] + ys, line), fuel) == ExecAll(h, bound.value, env, xs + [st] + ys, fuel);
  }

  /**
   * Whatever statement returns, after earlier statements completed normally,
   * makes the call give the returned value, and the statements after it are
   * skipped; with `ReturnEscapesIf` and `ReturnEscapesLoop` this covers a
   * `return` nested in `if` and `while` bodies.
   */
  lemma ReturnAfterStatementsEndsBody(h: Host, s: Store, env: nat, xs: seq<Stmt>, st: Stmt, ys: seq<Stmt>, line: int, bound: Checked<Store>, fuel: nat)
    requires ValidStore(s) && ValidHost(s, h)
    requires bound.Pass? && ValidStore(bound.value) && Grows(s, bound.value) && env < |bound.value.scopes|
    requires ExecAll(h, bound.value, env, xs, fuel).Normal?
    ensures var c := Exec(h, ExecAll(h, bound.value, env, xs, fuel).store, env, st, fuel);
      c.Returned? ==> RunBody(h, s, env, StmtList(xs + [st] + ys, line), bound, fuel) == Val(c.value, c.store)
  {
    var s1 := bound.value;
    var s2 := ExecAll(h, s1, env, xs, fuel).store;
    assert xs + [st] + ys == xs + ([st] + ys);
    ExecAllSequence(h, s1, env, xs, [st] + ys, fuel);
    assert ([st] + ys)[0] == st && ([st] + ys)[1..] == ys;
    assert Exec(h, s1, env, StmtList(xs + [st] + ys, line), fuel) == ExecAll(h, s1, env, xs + [st] + ys, fuel);
  }

  /** A `return` in the branch an `if` takes leaves the `if` with the same value and store. */
  lemma ReturnEscapesIf(h: Host, s: Store, e: nat, cond: Expr, thenBody: Stmt, elseBody: Option<Stmt>, line: int, fuel: nat)
    requires Ready(h, s, e)
    ensures var v := Eval(h, s, e, cond, fuel);
      v.Val? ==>
        var taken := if Truthy(h.dialect, v.value) then Some(thenBody) else elseBody;
        taken.Some? && Exec(h, v.store, e, taken.value, fuel).Returned? ==>
          Exec(h, s, e, IfStmt(cond, thenBody, elseBody, line), fuel) == Exec(h, v.store, e, taken.value, fuel)
  {}

  /** A `return` in a loop body leaves the loop at once, with the same value and store. */
  lemma ReturnEscapesLoop(h: Host, s: Store, e: nat, cond: Expr, body: Stmt, line: int, fuel: nat)
    requires Ready(h, s, e)
    ensures var v := Eval(h, s, e, cond, fuel);
      v.Val? && Truthy(h.dialect, v.value) && Exec(h, v.store, e, body, fuel).Returned? ==>
        Exec(h, s, e, WhileStmt(cond, body, line), fuel) == Exec(h, v.store, e, body, fuel)
  {
    assert Exec(h, s, e, WhileStmt(cond, body, line), fuel) == Loop(h, s, e, WhileStmt(cond, body, line), fuel);
  }

  // ---------------------------------------------------------------- literals

  /**
   * A prototype literal without a named base inherits from the global
   * `base`, is a new object, and keeps the literal's line.
   */
  lemma ProtoLiteralLinks(h: Host, s: Store, e: nat, slots: seq<Stmt>, line: int, fuel: nat)
    requires Ready(h, s, e)
    requires Eval(h, s, e, Proto(None, slots, line), fuel).Val?
    ensures var r := Eval(h, s, e, Proto(None, slots, line), fuel);
      && r.value == ProtoRef(|s.protos|)
      && r.store.protos[|s.protos|].parent == Some(h.base)
      && r.store.protos[|s.protos|].line == line
  {
    var x := Proto(None, slots, line);
    var s0 := NewProto(s, Some(h.base), line);
    assert Eval(h, s, e, x, fuel) == EvalProto(h, s, e, x, fuel) == FillSlots(h, s0, e, |s.protos|, slots, fuel);
  }

  /**
   * A named base is looked up as a variable: an unbound name is an
   * undefined-variable error, nil gives no parent, and any value other than
   * a prototype is a cast error.
   */
  lemma ProtoNamedBase(h: Host, s: Store, e: nat, base: Token, slots: seq<Stmt>, line: int, fuel: nat)
    requires Ready(h, s, e)
    ensures var r, b := Eval(h, s, e, Proto(Some(base), slots, line), fuel), Environment.Get(s, e, base);
      && (b.Fail? ==> r == Raise(Environment.Undefined(base)))
      && (b.Pass? && !(b.value.Nil? || b.value.ProtoRef?) ==> r == Raise(CastFailure))
      && (b.Pass? && b.value.Nil? && r.Val? ==> r.store.protos[|s.protos|].parent == None)
      && (b.Pass? && b.value.ProtoRef? && r.Val? ==> r.store.protos[|s.protos|].parent == Some(b.value.proto))
  {
    var x := Proto(Some(base), slots, line);
    assert Eval(h, s, e, x, fuel) == EvalProto(h, s, e, x, fuel);
    var b := Environment.Get(s, e, base);
    if b.Pass? && (b.value.Nil? || b.value.ProtoRef?) {
      var p := if b.value.Nil? then None else Some(b.value.proto);
      assert EvalProto(h, s, e, x, fuel) == FillSlots(h, NewProto(s, p, line), e, |s.protos|, slots, fuel);
    }
  }

  /** A one-slot prototype literal holds the value of the slot's initialiser, evaluated in the current environment. */
  lemma ProtoSlotValue(h: Host, s: Store, e: nat, name: Token, init: Expr, line: int, fuel: nat)
    requires Ready(h, s, e)
    ensures var s0 := NewProto(s, Some(h.base), line);
      var v, r := Eval(h, s0, e, init, fuel), Eval(h, s, e, Proto(None, [Let(name, init, line)], line), fuel);
      && (v.Val? <==> r.Val?)
      && (v.Raise? ==> r == Raise(v.error))
      && (r.Val? ==> r.store.protos[|s.protos|].slots == v.store.protos[|s.protos|].slots[name.lexeme := v.value])
  {
    var x := Proto(None, [Let(name, init, line)], line);
    var s0 := NewProto(s, Some(h.base), line);
    assert Eval(h, s, e, x, fuel) == EvalProto(h, s, e, x, fuel) == FillSlots(h, s0, e, |s.protos|, x.slots, fuel);
    var v := Eval(h, s0, e, init, fuel);
    if v.Val? {
      assert x.slots[1..] == [];
      var s1 := Prototypes.Set(v.store, |s.protos|, name.lexeme, v.value);
      assert FillSlots(h, s0, e, |s.protos|, x.slots, fuel) == FillSlots(h, s1, e, |s.protos|, [], fuel) == Val(ProtoRef(|s.protos|), s1);
    }
  }

  /**
   * The slots of a prototype literal are filled in order: filling `xs + ys`
   * fills `xs` and then, only if that succeeded, fills `ys` on the store
   * `xs` left, so a later initialiser sees the earlier slots' effects and a
   * repeated name is set again.
   */
  lemma {:induction false} FillSlotsSequence(h: Host, s: Store, e: nat, p: nat, xs: seq<Stmt>, ys: seq<Stmt>, fuel: nat)
    requires Ready(h, s, e) && p < |s.protos|
    ensures FillSlots(h, s, e, p, xs + ys, fuel) ==
      match FillSlots(h, s, e, p, xs, fuel)
      case Val(_, s1) => FillSlots(h, s1, e, p, ys, fuel)
      case other => other
    decreases |xs|
  {
    if xs == [] {
      assert xs + ys == ys;
    } else {
      assert (xs + ys)[0] == xs[0] && (xs + ys)[1..] == xs[1..] + ys;
      if xs[0].Let? {
        var v := Eval(h, s, e, xs[0].init, fuel);
        if v.Val? {
          FillSlotsSequence(h, Prototypes.Set(v.store, p, xs[0].name.lexeme, v.value), e, p, xs[1..], ys, fuel);
        }
      }
    }
  }

  /** Two `let`s of the same name in one prototype body: the slot ends up holding the second value. */
  lemma RepeatedSlotKeepsLast(h: Host, s: Store, e: nat, p: nat, name: Token, a: Expr, b: Expr, line: int, fuel: nat)
    requires Ready(h, s, e) && p < |s.protos|
    requires Eval(h, s, e, a, fuel).Val?
    ensures var va := Eval(h, s, e, a, fuel);
      var s1 := Prototypes.Set(va.store, p, name.lexeme, va.value);
      var vb, r := Eval(h, s1, e, b, fuel), FillSlots(h, s, e, p, [Let(name, a, line), Let(name, b, line)], fuel);
      && (vb.Val? <==> r.Val?)
      && (vb.Val? ==> r.store == Prototypes.Set(vb.store, p, name.lexeme, vb.value) && r.store.protos[p].slots[name.lexeme] == vb.value)
  {
    var first, second := Let(name, a, line), Let(name, b, line);
    var va := Eval(h, s, e, a, fuel);
    var s1 := Prototypes.Set(va.store, p, name.lexeme, va.value);
    assert [first, second][1..] == [second] && [second][1..] == [];
    assert FillSlots(h, s, e, p, [first, second], fuel) == FillSlots(h, s1, e, p, [second], fuel);
    var vb := Eval(h, s1, e, b, fuel);
    if vb.Val? {
      var s2 := Prototypes.Set(vb.store, p, name.lexeme, vb.value);
      assert FillSlots(h, s1, e, p, [second], fuel) == FillSlots(h, s2, e, p, [], fuel) == Val(ProtoRef(p), s2);
    } else {
      assert FillSlots(h, s1, e, p, [second], fuel) == Stop(vb);
    }
  }

  /** A list literal evaluates its elements left to right into a new list of exactly those values. */
  lemma ListLiteralContents(h: Host, s: Store, e: nat, elements: seq<Expr>, line: int, fuel: nat)
    requires Ready(h, s, e)
    ensures var r, vs := Eval(h, s, e, OasisList(elements, line), fuel), EvalEach(h, s, e, elements, fuel);
      && (r.Val? <==> vs.Val?)
      && (vs.Raise? ==> r == Raise(vs.error))
      && (r.Val? ==> r.value == ListRef(|vs.store.lists|) && r.store.lists == vs.store.lists + [vs.value]
                     && |vs.value| == |elements|)
  {}

  /** Literals evaluate to their constants without touching the store. */
  lemma {:induction false} EvalEachLiterals(h: Host, s: Store, e: nat, xs: seq<Expr>, fuel: nat)
    requires Ready(h, s, e) && forall i :: 0 <= i < |xs| ==> xs[i].Literal?
    ensures var r := EvalEach(h, s, e, xs, fuel);
      && r.Val? && r.store == s && |r.value| == |xs|
      && forall i :: 0 <= i < |xs| ==> r.value[i] == ConstValue(xs[i].constant)
    decreases |xs|
  {
    if xs != [] {
      assert forall i :: 0 <= i < |xs[1..]| ==> xs[1..][i] == xs[i + 1];
      EvalEachLiterals(h, s, e, xs[1..], fuel);
    }
  }
}
