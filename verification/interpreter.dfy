/**
 * The tree-walking evaluator (`Interpreter`): one function per `visit*`
 * method, over the explicit store.
 *
 * The Kotlin interpreter keeps the current environment in a field that
 * `executeBlock` swaps and restores; here it is the parameter `e`, so every
 * exit (normal, `Return`, error) leaves the caller's environment as it was.
 * `if` and `while` bodies run in that same environment: only a closure call
 * creates a scope. A `while` may not terminate, so evaluation carries a
 * budget `fuel`; a closure call and a loop iteration each spend one unit,
 * and `OutOfFuel`/`Exhausted` report that the budget ran out.
 */
module Interpreter {
  import opened Common
  import opened Syntax
  import opened Values
  import opened Numbers
  import opened Natives
  import Environment
  import Prototypes

  /** How a statement completes: normally, with a `Return` unwinding, with an error, or out of budget. */
  datatype Completion =
    | Normal(store: Store)
    | Returned(value: Value, store: Store)
    | Failed(error: Error)
    | Exhausted

  predicate ValidCompletion(s: Store, c: Completion)
  {
    && (c.Normal? ==> ValidStore(c.store) && Grows(s, c.store))
    && (c.Returned? ==> ValidStore(c.store) && Grows(s, c.store) && ValidValue(c.store, c.value))
  }

  /** What evaluation needs: a closed store, the host's `base` in it, and a current environment. */
  predicate Ready(h: Host, s: Store, e: nat)
  {
    ValidStore(s) && ValidHost(s, h) && e < |s.scopes|
  }

  /** Pass on an error or an exhausted budget. */
  function Stop<T, U>(r: Step<T>): (r': Step<U>)
    requires !r.Val?
    ensures r'.Raise? <==> r.Raise?
    ensures r.Raise? ==> r'.error == r.error
  {
    if r.Raise? then Raise(r.error) else OutOfFuel
  }

  /** The same, for a statement. */
  function Halt<T>(r: Step<T>): (c: Completion)
    requires !r.Val?
    ensures c.Failed? <==> r.Raise?
    ensures r.Raise? ==> c.error == r.error
  {
    if r.Raise? then Failed(r.error) else Exhausted
  }

  /**
   * `isTruthy`: as written, `thing != 0` compares with the boxed `Int` 0, so
   * the number (`Double`) 0 is truthy; the intended reading makes it falsy.
   */
  predicate Truthy(d: Dialect, v: Value)
  {
    v != Nil && v != Bool(false) && v != Int(0) && (d == Intended ==> v != Num(0.0))
  }

  /** The runtime value of a literal token. */
  function ConstValue(c: Const): Value
  {
    match c
    case NilConst => Nil
    case BoolConst(b) => Bool(b)
    case NumConst(n) => Num(n)
    case TextConst(t) => Text(t)
    case CharConst(ch) => Char(ch)
  }

  /** `toString()` of a value, as string concatenation uses it; the host renders numbers and objects. */
  function Show(h: Host, s: Store, v: Value): string
  {
    match v
    case Nil => "null"
    case Unit => "kotlin.Unit"
    case Bool(b) => if b then "true" else "false"
    case Int(i) => DecimalText(i)
    case Text(t) => t
    case Char(ch) => [ch]
    case _ => h.render(s, v)
  }

  /**
   * Kotlin `==` on two values (`left.equals(right)`, and `null == null`):
   * prototypes and functions by identity, an `ArrayList` by identity or else
   * element by element, everything else by value. Comparing two distinct
   * lists spends budget, since a list can contain itself.
   */
  function Equals(s: Store, a: Value, b: Value, fuel: nat): (r: Option<bool>)
    requires ValidStore(s) && ValidValue(s, a) && ValidValue(s, b)
    ensures a == b ==> r == Some(true)
    ensures !(a.ListRef? && b.ListRef?) ==> r == Some(a == b)
    ensures r == Some(true) && !a.ListRef? ==> a == b
    decreases fuel, 0
  {
    if a.ListRef? && b.ListRef? && a.list != b.list then
      if fuel == 0 then None else SameElements(s, s.lists[a.list], s.lists[b.list], fuel - 1)
    else Some(a == b)
  }

  /** `AbstractList.equals` after the identity check: same size, then elementwise `==`, stopping at the first difference. */
  function SameElements(s: Store, xs: seq<Value>, ys: seq<Value>, fuel: nat): (r: Option<bool>)
    requires ValidStore(s) && ValidValues(s, xs) && ValidValues(s, ys)
    ensures |xs| != |ys| ==> r == Some(false)
    ensures xs == ys ==> r == Some(true)
    decreases fuel, |xs|
  {
    if |xs| != |ys| then Some(false)
    else if xs == [] then Some(true)
    else match Equals(s, xs[0], ys[0], fuel)
      case None => None
      case Some(false) => Some(false)
      case Some(true) => SameElements(s, xs[1..], ys[1..], fuel)
  }

  /** `+`, `-`, `*`, `/` on two numbers exactly as written: `-` adds and `/` multiplies. */
  function ArithmeticAsWritten(op: TokenType, a: real, b: real): (r: Checked<real>)
    requires op == Plus || op == Minus || op == Star || op == Slash
    ensures r.Pass?
    ensures op == Minus ==> r.value == a + b
    ensures op == Slash ==> r.value == a * b
  {
    match op
    case Plus => Pass(a + b)
    case Minus => Pass(a + b)
    case Star => Pass(a * b)
    case Slash => Pass(a * b)
  }

  /**
   * The evident intent: subtraction and division. A zero divisor is an
   * error here, since a `real` has no infinity.
   */
  function Arithmetic(op: TokenType, a: real, b: real): (r: Checked<real>)
    requires op == Plus || op == Minus || op == Star || op == Slash
    ensures r.Fail? <==> op == Slash && b == 0.0
    ensures r.Pass? && op == Minus ==> r.value + b == a
    ensures r.Pass? && op == Slash ==> r.value * b == a
  {
    match op
    case Plus => Pass(a + b)
    case Minus => Pass(a - b)
    case Star => Pass(a * b)
    case Slash => if b == 0.0 then Fail(HostError("division by zero")) else Pass(a / b)
  }

  /** The name of the overload slot and the error message of each arithmetic operator. */
  function OverloadSlot(op: TokenType): string
  {
    match op
    case Plus => "__plus"
    case Minus => "__sub"
    case Star => "__mul"
    case _ => "__div"
  }

  function CannotApply(op: TokenType): string
  {
    match op
    case Plus => "Cannot add"
    case Minus => "Cannot subtract"
    case Star => "Cannot multiply"
    case _ => "Cannot divide"
  }

  /** `environment.get(proto.base) as OasisPrototype?`: nil gives no parent, anything but a prototype is a cast error. */
  function AsParent(v: Value): (r: Checked<Option<nat>>)
    ensures r.Pass? <==> v.Nil? || v.ProtoRef?
    ensures r.Pass? && v.ProtoRef? ==> r.value == Some(v.proto)
    ensures r.Pass? && v.Nil? ==> r.value == None
  {
    match v
    case Nil => Pass(None)
    case ProtoRef(p) => Pass(Some(p))
    case _ => Fail(CastFailure)
  }

  // ---------------------------------------------------------------- expressions

  /** `eval`: dispatch on the node kind, as `accept` does. */
  function Eval(h: Host, s: Store, e: nat, x: Expr, fuel: nat): (r: Outcome)
    requires Ready(h, s, e)
    ensures ValidOutcome(s, r)
    decreases fuel, ExprSize(x), 2
  {
    match x
    case Literal(c, _) => Val(ConstValue(c), s)
    case AssignmentExpr(_, _, _) => EvalAssignment(h, s, e, x, fuel)
    case Property(obj, name, _) =>
      var o := Eval(h, s, e, obj, fuel);
      if !o.Val? then Stop(o)
      else if !o.value.ProtoRef? then Raise(CastFailure)
      else Prototypes.Get(o.store, o.value.proto, name.lexeme)
    case Func(params, body, _) => Val(FnRef(|s.closures|), NewClosure(s, params, body, e))
    case FCallExpr(_, _, _) => EvalCall(h, s, e, x, fuel)
    case BinOp(_, _, _, _) => EvalBinOp(h, s, e, x, fuel)
    case Group(inner, _) => Eval(h, s, e, inner, fuel)
    case Variable(name, _) =>
      (match Environment.Get(s, e, name)
       case Fail(err) => Raise(err)
       case Pass(v) => Val(v, s))
    case Proto(_, _, _) => EvalProto(h, s, e, x, fuel)
    case Indexer(_, _, _) => EvalIndexer(h, s, e, x, fuel)
    case OasisList(elements, _) =>
      var vs := EvalEach(h, s, e, elements, fuel);
      if !vs.Val? then Stop(vs)
      else Val(ListRef(|vs.store.lists|), NewList(vs.store, vs.value))
  }

  /** Evaluate expressions left to right, each in the store the previous one left. */
  function EvalEach(h: Host, s: Store, e: nat, xs: seq<Expr>, fuel: nat): (r: Step<seq<Value>>)
    requires Ready(h, s, e)
    ensures ValidOutcomes(s, r)
    ensures r.Val? ==> |r.value| == |xs|
    decreases fuel, ExprsSize(xs), 2
  {
    if xs == [] then Val([], s)
    else
      var v := Eval(h, s, e, xs[0], fuel);
      if !v.Val? then Stop(v)
      else
        var rest := EvalEach(h, v.store, e, xs[1..], fuel);
        if !rest.Val? then Stop(rest)
        else Val([v.value] + rest.value, rest.store)
  }

  /**
   * `visitAssignment`: the right-hand side first, then the target: a
   * property is set on the evaluated prototype, a variable is assigned
   * through the scope chain, a list slot is replaced in place.
   */
  function EvalAssignment(h: Host, s: Store, e: nat, x: Expr, fuel: nat): (r: Outcome)
    requires Ready(h, s, e) && x.AssignmentExpr?
    ensures ValidOutcome(s, r)
    decreases fuel, ExprSize(x), 1
  {
    var v := Eval(h, s, e, x.rhs, fuel);
    if !v.Val? then Stop(v)
    else AssignTo(h, v.store, e, x.target, v.value, x.line, fuel)
  }

  function AssignTo(h: Host, s: Store, e: nat, target: Expr, v: Value, line: int, fuel: nat): (r: Outcome)
    requires Ready(h, s, e) && ValidValue(s, v)
    ensures ValidOutcome(s, r)
    ensures r.Val? ==> r.value == v
    ensures !(target.Property? || target.Variable? || target.Indexer?) ==> r == Raise(RuntimeError(line, "Cannot assign"))
    decreases fuel, ExprSize(target), 2
  {
    match target
    case Property(obj, name, _) =>
      var o := Eval(h, s, e, obj, fuel);
      if !o.Val? then Stop(o)
      else if !o.value.ProtoRef? then Raise(CastFailure)
      else Val(v, Prototypes.Set(o.store, o.value.proto, name.lexeme, v))
    case Variable(name, _) =>
      (match Environment.Assign(s, e, name, v)
       case Fail(err) => Raise(err)
       case Pass(s') => Val(v, s'))
    case Indexer(collection, index, _) =>
      var c := Eval(h, s, e, collection, fuel);
      if !c.Val? then Stop(c)
      else if !c.value.ListRef? then Raise(CastFailure)
      else
        var i := Eval(h, c.store, e, index, fuel);
        if !i.Val? then Stop(i)
        else if !i.value.Num? then Raise(CastFailure)
        else
          var k, xs := ToInt(i.value.n), i.store.lists[c.value.list];
          if k < 0 || k >= |xs| then Raise(IndexFailure)
          else Val(v, SetList(i.store, c.value.list, xs[k := v]))
    case _ => Raise(RuntimeError(line, "Cannot assign"))
  }

  /** `visitFcall`: the callee, then the arguments left to right, and only then the check that the callee is callable. */
  function EvalCall(h: Host, s: Store, e: nat, x: Expr, fuel: nat): (r: Outcome)
    requires Ready(h, s, e) && x.FCallExpr?
    ensures ValidOutcome(s, r)
    decreases fuel, ExprSize(x), 1
  {
    var f := Eval(h, s, e, x.callee, fuel);
    if !f.Val? then Stop(f)
    else
      var a := EvalEach(h, f.store, e, x.args, fuel);
      if !a.Val? then Stop(a)
      else CallValue(h, a.store, f.value, a.value, fuel)
  }

  /** `visitBinOp`: both operands, left first, then the dispatch on the operator. */
  function EvalBinOp(h: Host, s: Store, e: nat, x: Expr, fuel: nat): (r: Outcome)
    requires Ready(h, s, e) && x.BinOp?
    ensures ValidOutcome(s, r)
    decreases fuel, ExprSize(x), 1
  {
    var l := Eval(h, s, e, x.left, fuel);
    if !l.Val? then Stop(l)
    else
      var rt := Eval(h, l.store, e, x.right, fuel);
      if !rt.Val? then Stop(rt)
      else Binary(h, rt.store, x.op.kind, x.line, l.value, rt.value, fuel)
  }

  /**
   * `visitProto`: the parent is the named base (looked up in the current
   * environment) or the global `base`; the prototype exists, carrying the
   * node's line, before its slots are evaluated in order in the current
   * environment.
   */
  function EvalProto(h: Host, s: Store, e: nat, x: Expr, fuel: nat): (r: Outcome)
    requires Ready(h, s, e) && x.Proto?
    ensures ValidOutcome(s, r)
    ensures r.Val? ==> r.value == ProtoRef(|s.protos|)
    decreases fuel, ExprSize(x), 1
  {
    var parent: Checked<Option<nat>> :=
      match x.base
      case None => Pass(Some(h.base))
      case Some(t) =>
        match Environment.Get(s, e, t)
        case Fail(err) => Fail(err)
        case Pass(b) => AsParent(b);
    if parent.Fail? then Raise(parent.error)
    else FillSlots(h, NewProto(s, parent.value, x.line), e, |s.protos|, x.slots, fuel)
  }

  /** Each body statement is cast to `Let`, its value evaluated, and the result stored as a slot of prototype `p`. */
  function FillSlots(h: Host, s: Store, e: nat, p: nat, slots: seq<Stmt>, fuel: nat): (r: Outcome)
    requires Ready(h, s, e) && p < |s.protos|
    ensures ValidOutcome(s, r)
    ensures r.Val? ==> r.value == ProtoRef(p)
    decreases fuel, StmtsSize(slots), 2
  {
    if slots == [] then Val(ProtoRef(p), s)
    else if !slots[0].Let? then Raise(CastFailure)
    else
      assert ExprSize(slots[0].init) < StmtSize(slots[0]) <= StmtsSize(slots);
      var v := Eval(h, s, e, slots[0].init, fuel);
      if !v.Val? then Stop(v)
      else FillSlots(h, Prototypes.Set(v.store, p, slots[0].name.lexeme, v.value), e, p, slots[1..], fuel)
  }

  /** `visitIndexer`: only a text or a list can be indexed, and that is checked before the index is evaluated. */
  function EvalIndexer(h: Host, s: Store, e: nat, x: Expr, fuel: nat): (r: Outcome)
    requires Ready(h, s, e) && x.Indexer?
    ensures ValidOutcome(s, r)
    decreases fuel, ExprSize(x), 1
  {
    var c := Eval(h, s, e, x.collection, fuel);
    if !c.Val? then Stop(c)
    else if !(c.value.Text? || c.value.ListRef?) then Raise(RuntimeError(x.line, "Cannot index"))
    else
      var i := Eval(h, c.store, e, x.index, fuel);
      if !i.Val? then Stop(i)
      else if !i.value.Num? then Raise(CastFailure)
      else
        var k := ToInt(i.value.n);
        match c.value
        case Text(t) => if 0 <= k < |t| then Val(Char(t[k]), i.store) else Raise(IndexFailure)
        case ListRef(l) =>
          var xs := i.store.lists[l];
          if 0 <= k < |xs| then Val(xs[k], i.store) else Raise(IndexFailure)
  }

  /** The operator dispatch of `visitBinOp`, on operand values already computed. */
  function Binary(h: Host, s: Store, op: TokenType, line: int, a: Value, b: Value, fuel: nat): (r: Outcome)
    requires ValidStore(s) && ValidHost(s, h) && ValidValue(s, a) && ValidValue(s, b)
    ensures ValidOutcome(s, r)
    decreases fuel, 0, 4
  {
    match op
    case Plus =>
      (match a
       case ProtoRef(p) => Overload(h, s, p, OverloadSlot(op), b, fuel)
       case Num(n) => NumberResult(h, s, op, n, b)
       case Text(t) => Val(Text(t + Show(h, s, b)), s)
       case _ => Raise(RuntimeError(line, CannotApply(op))))
    case Minus => ArithmeticOn(h, s, op, line, a, b, fuel)
    case Star => ArithmeticOn(h, s, op, line, a, b, fuel)
    case Slash => ArithmeticOn(h, s, op, line, a, b, fuel)
    case EqualEqual =>
      (match Equals(s, a, b, fuel)
       case None => OutOfFuel
       case Some(eq) => Val(Bool(eq), s))
    case BangEqual =>
      (match Equals(s, a, b, fuel)
       case None => OutOfFuel
       case Some(eq) => Val(Bool(!eq), s))
    case Greater => Comparison(s, op, a, b)
    case GreaterEqual => Comparison(s, op, a, b)
    case Less => Comparison(s, op, a, b)
    case LessEqual => Comparison(s, op, a, b)
    case _ => Raise(RuntimeError(line, "Invalid operator"))
  }

  /** `-`, `*`, `/`: a prototype operand calls its overload, a number computes, anything else is an error. */
  function ArithmeticOn(h: Host, s: Store, op: TokenType, line: int, a: Value, b: Value, fuel: nat): (r: Outcome)
    requires op == Minus || op == Star || op == Slash
    requires ValidStore(s) && ValidHost(s, h) && ValidValue(s, a) && ValidValue(s, b)
    ensures ValidOutcome(s, r)
    decreases fuel, 0, 3
  {
    match a
    case ProtoRef(p) => Overload(h, s, p, OverloadSlot(op), b, fuel)
    case Num(n) => NumberResult(h, s, op, n, b)
    case _ => Raise(RuntimeError(line, CannotApply(op)))
  }

  /** A number on the left: the right operand is cast to `Double`, then the host dialect's arithmetic applies. */
  function NumberResult(h: Host, s: Store, op: TokenType, n: real, b: Value): (r: Outcome)
    requires op == Plus || op == Minus || op == Star || op == Slash
    requires ValidStore(s)
    ensures ValidOutcome(s, r) && !r.OutOfFuel?
    ensures r.Val? ==> r.value.Num? && r.store == s
    ensures !b.Num? ==> r == Raise(CastFailure)
  {
    if !b.Num? then Raise(CastFailure)
    else
      match (if h.dialect == AsWritten then ArithmeticAsWritten(op, n, b.n) else Arithmetic(op, n, b.n))
      case Pass(m) => Val(Num(m), s)
      case Fail(err) => Raise(err)
  }

  /** `(left as Double) > (right as Double)` and its siblings. */
  function Comparison(s: Store, op: TokenType, a: Value, b: Value): (r: Outcome)
    requires op == Greater || op == GreaterEqual || op == Less || op == LessEqual
    requires ValidStore(s)
    ensures ValidOutcome(s, r) && !r.OutOfFuel?
    ensures r.Val? <==> a.Num? && b.Num?
    ensures r.Raise? ==> r.error == CastFailure
    ensures r.Val? ==> r.store == s && r.value.Bool?
    ensures r.Val? && op == Less ==> (r.value.b <==> a.n < b.n)
    ensures r.Val? && op == Greater ==> (r.value.b <==> b.n < a.n)
    ensures r.Val? && op == GreaterEqual ==> (r.value.b <==> !(a.n < b.n))
    ensures r.Val? && op == LessEqual ==> (r.value.b <==> !(b.n < a.n))
  {
    if !a.Num? || !b.Num? then Raise(CastFailure)
    else
      var x, y := a.n, b.n;
      Val(Bool(match op
        case Greater => x > y
        case GreaterEqual => x >= y
        case Less => x < y
        case _ => x <= y), s)
  }

  /** Operator overloading: look the slot up on the left prototype, then call it with the right operand. */
  function Overload(h: Host, s: Store, p: nat, slot: string, b: Value, fuel: nat): (r: Outcome)
    requires ValidStore(s) && ValidHost(s, h) && p < |s.protos| && ValidValue(s, b)
    ensures ValidOutcome(s, r)
    ensures !Prototypes.Finds(s, p, slot) ==> r == Raise(Prototypes.Missing(s, p, slot))
    decreases fuel, 0, 2
  {
    var f := Prototypes.Get(s, p, slot);
    if !f.Val? then Stop(f)
    else CallValue(h, f.store, f.value, [b], fuel)
  }

  // ---------------------------------------------------------------- calls

  /** `function as OasisCallable` followed by `call`. */
  function CallValue(h: Host, s: Store, f: Value, args: seq<Value>, fuel: nat): (r: Outcome)
    requires ValidStore(s) && ValidHost(s, h) && ValidValue(s, f) && ValidValues(s, args)
    ensures ValidOutcome(s, r)
    ensures !(f.FnRef? || f.Native?) ==> r == Raise(CastFailure)
    decreases fuel, 0, 1
  {
    match f
    case FnRef(c) => Call(h, s, c, args, fuel)
    case Native(id) => CallNative(h, s, id, args)
    case _ => Raise(CastFailure)
  }

  /**
   * `OasisFunction.call`: a fresh scope whose parent is the captured
   * environment, the parameters bound positionally, the body run in it; a
   * `Return` gives the call's value, falling off the end gives nil.
   */
  function Call(h: Host, s: Store, c: nat, args: seq<Value>, fuel: nat): (r: Outcome)
    requires ValidStore(s) && ValidHost(s, h) && c < |s.closures| && ValidValues(s, args)
    ensures ValidOutcome(s, r)
    ensures fuel > 0 && |args| < |s.closures[c].params| ==> r == Raise(IndexFailure)
    decreases fuel, 0, 0
  {
    if fuel == 0 then OutOfFuel
    else RunBody(h, s, |s.scopes|, s.closures[c].body, Activation(s, c, args), fuel - 1)
  }

  /**
   * The environment `call` creates: a fresh scope, after every existing one,
   * whose parent is the captured environment and which binds exactly the
   * parameter names; every existing scope stays as it was.
   */
  function Activation(s: Store, c: nat, args: seq<Value>): (r: Checked<Store>)
    requires ValidStore(s) && c < |s.closures| && ValidValues(s, args)
    ensures r.Pass? <==> |s.closures[c].params| <= |args|
    ensures r.Fail? ==> r.error == IndexFailure
    ensures r.Pass? ==> ValidStore(r.value) && Grows(s, r.value) && |r.value.scopes| == |s.scopes| + 1
    ensures r.Pass? ==> r.value.scopes[|s.scopes|].parent == Some(s.closures[c].env)
    ensures r.Pass? ==> r.value.scopes[|s.scopes|].vars.Keys == Names(s.closures[c].params)
    ensures r.Pass? ==> r.value.scopes[..|s.scopes|] == s.scopes
  {
    var cl := s.closures[c];
    var s0 := NewScope(s, Some(cl.env));
    ValidValuesGrow(s, s0, args);
    var b := Bind(s0, |s.scopes|, cl.params, args);
    if b.Fail? then b
    else
      assert s0.scopes[|s.scopes|] == Scope(map[], Some(cl.env));
      assert b.value.scopes[|s.scopes|].vars.Keys == s0.scopes[|s.scopes|].vars.Keys + Names(cl.params);
      BindKeepsEarlierScopes(s, s0, |s.scopes|, cl.params, args);
      GrowsTransitive(s, s0, b.value);
      b
  }

  /** Binding parameters in scope `env` leaves every scope before it as it was. */
  lemma BindKeepsEarlierScopes(s: Store, s0: Store, env: nat, params: seq<Token>, args: seq<Value>)
    requires ValidStore(s0) && env < |s0.scopes| && ValidValues(s0, args) && |params| <= |args|
    requires s0.scopes[..env] == s.scopes
    ensures Bind(s0, env, params, args).Pass?
    ensures Bind(s0, env, params, args).value.scopes[..env] == s.scopes
  {
    var b := Bind(s0, env, params, args).value;
    forall i | 0 <= i < env ensures b.scopes[i] == s.scopes[i] {
      assert s0.scopes[i] == s0.scopes[..env][i];
    }
  }

  /** The body run in the bound scope `env`: a `Return` gives the call's value, falling off the end gives nil. */
  function RunBody(h: Host, s: Store, env: nat, body: Stmt, bound: Checked<Store>, fuel: nat): (r: Outcome)
    requires ValidStore(s) && ValidHost(s, h)
    requires bound.Pass? ==> ValidStore(bound.value) && Grows(s, bound.value) && env < |bound.value.scopes|
    ensures ValidOutcome(s, r)
    ensures bound.Fail? ==> r == Raise(bound.error)
    decreases fuel, StmtSize(body), 3
  {
    match bound
    case Fail(err) => Raise(err)
    case Pass(s1) =>
      match Exec(h, s1, env, body, fuel)
      case Normal(s2) => Val(Nil, s2)
      case Returned(v, s2) => Val(v, s2)
      case Failed(err) => Raise(err)
      case Exhausted => OutOfFuel
  }

  /** The names a parameter list binds. */
  function Names(params: seq<Token>): set<string>
  {
    set i | 0 <= i < |params| :: params[i].lexeme
  }

  /**
   * The binding loop of `OasisFunction.call`: parameter i is defined as
   * argument i, in order, so a repeated name keeps its last argument; the
   * loop reads `arguments[i]` for every parameter, so fewer arguments than
   * parameters is an index error, while extra arguments are never read.
   */
  function Bind(s: Store, env: nat, params: seq<Token>, args: seq<Value>): (r: Checked<Store>)
    requires ValidStore(s) && env < |s.scopes| && ValidValues(s, args)
    ensures r.Pass? <==> |params| <= |args|
    ensures r.Fail? ==> r.error == IndexFailure
    ensures r.Pass? ==> ValidStore(r.value) && Grows(s, r.value) && Grows(r.value, s)
    ensures r.Pass? ==> r.value.scopes[env].vars == BindVars(s.scopes[env].vars, params, args)
    ensures r.Pass? ==> r.value.scopes[env].vars.Keys == s.scopes[env].vars.Keys + Names(params)
    ensures r.Pass? ==> forall i :: 0 <= i < |params| && params[i].lexeme !in Names(params[i+1..]) ==>
      r.value.scopes[env].vars[params[i].lexeme] == args[i]
    ensures r.Pass? ==> forall k :: k in s.scopes[env].vars && k !in Names(params) ==>
      r.value.scopes[env].vars[k] == s.scopes[env].vars[k]
    ensures r.Pass? ==> r.value.scopes[env].parent == s.scopes[env].parent
    ensures r.Pass? ==> forall i :: 0 <= i < |s.scopes| && i != env ==> r.value.scopes[i] == s.scopes[i]
    ensures r.Pass? ==> r.value.protos == s.protos && r.value.lists == s.lists && r.value.closures == s.closures
    decreases |params|
  {
    var r :=
      if params == [] then Pass(s)
      else if args == [] then Fail(IndexFailure)
      else Bind(Environment.Define(s, env, params[0].lexeme, args[0]), env, params[1..], args[1..]);
    if r.Pass? then
      BindVarsKeys(s.scopes[env].vars, params, args);
      BindVarsLastWins(s.scopes[env].vars, params, args);
      BindVarsKeepsOthers(s.scopes[env].vars, params, args);
      r
    else r
  }

  /** The call scope's variables after the binding loop, as a fold over the parameters. */
  function BindVars(vars: map<string, Value>, params: seq<Token>, args: seq<Value>): map<string, Value>
    requires |params| <= |args|
    decreases |params|
  {
    if params == [] then vars else BindVars(vars[params[0].lexeme := args[0]], params[1..], args[1..])
  }

  /** The first parameter's name together with the rest's. */
  lemma NamesCons(params: seq<Token>)
    requires params != []
    ensures Names(params) == {params[0].lexeme} + Names(params[1..])
  {
    forall i | 1 <= i < |params| ensures params[i].lexeme in Names(params[1..]) {
      assert params[i] == params[1..][i-1];
    }
  }

  /** Binding defines exactly the parameters' names on top of what was there. */
  lemma {:induction false} BindVarsKeys(vars: map<string, Value>, params: seq<Token>, args: seq<Value>)
    requires |params| <= |args|
    ensures BindVars(vars, params, args).Keys == vars.Keys + Names(params)
    decreases |params|
  {
    if params != [] {
      NamesCons(params);
      BindVarsKeys(vars[params[0].lexeme := args[0]], params[1..], args[1..]);
    }
  }

  /** A parameter whose name does not come again later holds its own argument. */
  lemma {:induction false} BindVarsLastWins(vars: map<string, Value>, params: seq<Token>, args: seq<Value>)
    requires |params| <= |args|
    ensures forall i :: 0 <= i < |params| && params[i].lexeme !in Names(params[i+1..]) ==>
      params[i].lexeme in BindVars(vars, params, args) && BindVars(vars, params, args)[params[i].lexeme] == args[i]
    decreases |params|
  {
    if params != [] {
      var vars1 := vars[params[0].lexeme := args[0]];
      BindVarsLastWins(vars1, params[1..], args[1..]);
      BindVarsKeepsOthers(vars1, params[1..], args[1..]);
      forall i | 0 <= i < |params| && params[i].lexeme !in Names(params[i+1..])
        ensures params[i].lexeme in BindVars(vars, params, args)
        ensures BindVars(vars, params, args)[params[i].lexeme] == args[i]
      {
        if i > 0 {
          assert params[i] == params[1..][i-1] && params[i+1..] == params[1..][i..];
        }
      }
    }
  }

  /** A name that is not a parameter keeps the value it had. */
  lemma {:induction false} BindVarsKeepsOthers(vars: map<string, Value>, params: seq<Token>, args: seq<Value>)
    requires |params| <= |args|
    ensures forall k :: k in vars && k !in Names(params) ==>
      k in BindVars(vars, params, args) && BindVars(vars, params, args)[k] == vars[k]
    decreases |params|
  {
    if params != [] {
      NamesCons(params);
      BindVarsKeepsOthers(vars[params[0].lexeme := args[0]], params[1..], args[1..]);
    }
  }

  // ---------------------------------------------------------------- statements

  /** `execute`: dispatch on the statement kind. */
  function Exec(h: Host, s: Store, e: nat, st: Stmt, fuel: nat): (c: Completion)
    requires Ready(h, s, e)
    ensures ValidCompletion(s, c)
    decreases fuel, StmtSize(st), 2
  {
    match st
    case Let(name, init, _) =>
      var v := Eval(h, s, e, init, fuel);
      if !v.Val? then Halt(v)
      else Normal(Environment.Define(v.store, e, name.lexeme, v.value))
    case IfStmt(cond, thenBody, elseBody, _) =>
      var v := Eval(h, s, e, cond, fuel);
      if !v.Val? then Halt(v)
      else if Truthy(h.dialect, v.value) then Exec(h, v.store, e, thenBody, fuel)
      else if elseBody.None? then Normal(v.store)
      else Exec(h, v.store, e, elseBody.value, fuel)
    case WhileStmt(_, _, _) => Loop(h, s, e, st, fuel)
    case StmtList(stmts, _) => ExecAll(h, s, e, stmts, fuel)
    case RetStmt(result, _) =>
      if result.None? then Returned(Nil, s)
      else
        var v := Eval(h, s, e, result.value, fuel);
        if !v.Val? then Halt(v) else Returned(v.value, v.store)
    case ExprStmt(x, _) =>
      var v := Eval(h, s, e, x, fuel);
      if !v.Val? then Halt(v) else Normal(v.store)
  }

  /** `visitWhileStmt`: re-test the condition before every iteration; each iteration spends one unit of budget. */
  function Loop(h: Host, s: Store, e: nat, w: Stmt, fuel: nat): (c: Completion)
    requires Ready(h, s, e) && w.WhileStmt?
    ensures ValidCompletion(s, c)
    decreases fuel, StmtSize(w), 1
  {
    var v := Eval(h, s, e, w.cond, fuel);
    if !v.Val? then Halt(v)
    else if !Truthy(h.dialect, v.value) then Normal(v.store)
    else
      match Exec(h, v.store, e, w.body, fuel)
      case Normal(s1) => if fuel == 0 then Exhausted else Loop(h, s1, e, w, fuel - 1)
      case Returned(x, s1) => Returned(x, s1)
      case Failed(err) => Failed(err)
      case Exhausted => Exhausted
  }

  /** `visitStmtList`: run the statements in order until one does not complete normally. */
  function ExecAll(h: Host, s: Store, e: nat, stmts: seq<Stmt>, fuel: nat): (c: Completion)
    requires Ready(h, s, e)
    ensures ValidCompletion(s, c)
    decreases fuel, StmtsSize(stmts), 2
  {
    if stmts == [] then Normal(s)
    else
      match Exec(h, s, e, stmts[0], fuel)
      case Normal(s1) => ExecAll(h, s1, e, stmts[1..], fuel)
      case Returned(x, s1) => Returned(x, s1)
      case Failed(err) => Failed(err)
      case Exhausted => Exhausted
  }
}
