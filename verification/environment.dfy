/**
 * `Environment`: a chain of mutable scopes. The Kotlin class itself is not
 * part of this model; its behaviour is the one its call sites rely on
 * (`Environment()`, `Environment(enclosing)`, `define`, `get`, `assign`):
 * `define` binds in the current scope only, `get` and `assign` search outward
 * and the first scope that binds the name wins.
 */
module Environment {
  import opened Common
  import opened Syntax
  import opened Values

  /** The scopes visited by an outward search from `e`, innermost first. */
  function Chain(s: Store, e: nat): (c: seq<nat>)
    requires ValidStore(s) && e < |s.scopes|
    ensures |c| >= 1 && c[0] == e
    ensures forall i :: 0 <= i < |c| ==> c[i] <= e
    ensures forall i :: 0 < i < |c| ==> c[i] < c[i-1] && Some(c[i]) == s.scopes[c[i-1]].parent
    ensures s.scopes[c[|c|-1]].parent.None?
    decreases e
  {
    match s.scopes[e].parent
    case None => [e]
    case Some(p) => [e] + Chain(s, p)
  }

  /** The nearest scope, searching outward from `e`, that binds `name`. */
  function Resolve(s: Store, e: nat, name: string): (r: Option<nat>)
    requires ValidStore(s) && e < |s.scopes|
    ensures r.Some? ==> r.value <= e && name in s.scopes[r.value].vars
    decreases e
  {
    if name in s.scopes[e].vars then Some(e)
    else match s.scopes[e].parent
      case None => None
      case Some(p) => Resolve(s, p, name)
  }

  function Undefined(name: Token): Error
  {
    RuntimeError(name.line, "Undefined variable '" + name.lexeme + "'.")
  }

  /** `Environment.get`: the value bound by the nearest scope, or an undefined-variable error at the token's line. */
  function Get(s: Store, e: nat, name: Token): (r: Checked<Value>)
    requires ValidStore(s) && e < |s.scopes|
    ensures r.Pass? <==> Resolve(s, e, name.lexeme).Some?
    ensures r.Pass? ==> ValidValue(s, r.value)
    ensures r.Fail? ==> r.error == Undefined(name)
  {
    match Resolve(s, e, name.lexeme)
    case None => Fail(Undefined(name))
    case Some(d) => Pass(s.scopes[d].vars[name.lexeme])
  }

  /** `Environment.define`: bind `name` in scope `e` itself, overwriting any binding there. */
  function Define(s: Store, e: nat, name: string, v: Value): (s': Store)
    requires ValidStore(s) && e < |s.scopes| && ValidValue(s, v)
    ensures ValidStore(s') && Grows(s, s') && Grows(s', s)
    ensures s'.scopes[e].vars == s.scopes[e].vars[name := v]
    ensures forall i :: 0 <= i < |s.scopes| ==> s'.scopes[i].parent == s.scopes[i].parent
    ensures forall i :: 0 <= i < |s.scopes| && i != e ==> s'.scopes[i] == s.scopes[i]
    ensures s'.protos == s.protos && s'.lists == s.lists && s'.closures == s.closures
  {
    var sc := s.scopes[e];
    s.(scopes := s.scopes[e := sc.(vars := sc.vars[name := v])])
  }

  /**
   * `Environment.assign`: overwrite the binding in the nearest scope that
   * binds `name`; an undefined-variable error when no scope on the chain does.
   */
  function Assign(s: Store, e: nat, name: Token, v: Value): (r: Checked<Store>)
    requires ValidStore(s) && e < |s.scopes| && ValidValue(s, v)
    ensures r.Pass? <==> Resolve(s, e, name.lexeme).Some?
    ensures r.Fail? ==> r.error == Undefined(name)
    ensures r.Pass? ==> ValidStore(r.value) && Grows(s, r.value) && Grows(r.value, s)
    ensures r.Pass? ==> var d := Resolve(s, e, name.lexeme).value;
      && r.value.scopes[d].vars == s.scopes[d].vars[name.lexeme := v]
      && (forall i :: 0 <= i < |s.scopes| && i != d ==> r.value.scopes[i] == s.scopes[i])
    ensures r.Pass? ==> r.value.protos == s.protos && r.value.lists == s.lists && r.value.closures == s.closures
  {
    match Resolve(s, e, name.lexeme)
    case None => Fail(Undefined(name))
    case Some(d) => Pass(Define(s, d, name.lexeme, v))
  }

  /** The search finds a scope exactly when some scope on the chain binds the name. */
  lemma {:induction false} ResolveFindsIffBound(s: Store, e: nat, name: string)
    requires ValidStore(s) && e < |s.scopes|
    ensures Resolve(s, e, name).Some? <==> exists i :: 0 <= i < |Chain(s, e)| && name in s.scopes[Chain(s, e)[i]].vars
    decreases e
  {
    var c := Chain(s, e);
    if name in s.scopes[e].vars {
      assert name in s.scopes[c[0]].vars;
    } else {
      match s.scopes[e].parent
      case None =>
      case Some(p) =>
        ResolveFindsIffBound(s, p, name);
        assert c == [e] + Chain(s, p);
        if exists i :: 0 <= i < |c| && name in s.scopes[c[i]].vars {
          var i :| 0 <= i < |c| && name in s.scopes[c[i]].vars;
          assert i > 0;
          assert name in s.scopes[Chain(s, p)[i-1]].vars;
        }
        if Resolve(s, p, name).Some? {
          var j :| 0 <= j < |Chain(s, p)| && name in s.scopes[Chain(s, p)[j]].vars;
          assert c[j+1] == Chain(s, p)[j];
        }
    }
  }

  /**
   * What the search finds is on the chain, and no scope nearer to `e` on the
   * chain binds the name: inner bindings shadow outer ones.
   */
  lemma {:induction false} ResolveFindsFirst(s: Store, e: nat, name: string)
    requires ValidStore(s) && e < |s.scopes| && Resolve(s, e, name).Some?
    ensures Resolve(s, e, name).value in Chain(s, e)
    ensures forall j :: 0 <= j < |Chain(s, e)| && Chain(s, e)[j] > Resolve(s, e, name).value ==>
      name !in s.scopes[Chain(s, e)[j]].vars
    decreases e
  {
    if name !in s.scopes[e].vars {
      var p := s.scopes[e].parent.value;
      ResolveFindsFirst(s, p, name);
      var c, cp := Chain(s, e), Chain(s, p);
      assert c == [e] + cp;
      forall j | 0 <= j < |c| && c[j] > Resolve(s, e, name).value
        ensures name !in s.scopes[c[j]].vars
      {
        if j > 0 { assert c[j] == cp[j-1]; }
      }
    }
  }

  /** The search only depends on the scope links and on which scopes bind `name`. */
  lemma {:induction false} ResolveFrame(s: Store, s': Store, e: nat, name: string)
    requires ValidStore(s) && ValidStore(s') && e < |s.scopes| && |s'.scopes| == |s.scopes|
    requires forall i :: 0 <= i < |s.scopes| ==> s'.scopes[i].parent == s.scopes[i].parent
    requires forall i :: 0 <= i < |s.scopes| ==> (name in s'.scopes[i].vars <==> name in s.scopes[i].vars)
    ensures Resolve(s', e, name) == Resolve(s, e, name)
    decreases e
  {
    if name !in s.scopes[e].vars && s.scopes[e].parent.Some? {
      ResolveFrame(s, s', s.scopes[e].parent.value, name);
    }
  }

  /** A name defined in the current scope is read back from it, whatever outer scopes bind. */
  lemma DefineThenGet(s: Store, e: nat, name: Token, v: Value)
    requires ValidStore(s) && e < |s.scopes| && ValidValue(s, v)
    ensures Get(Define(s, e, name.lexeme, v), e, name) == Pass(v)
  {}

  /** Defining one name leaves every other name's lookup, from every scope, as it was. */
  lemma DefineOtherName(s: Store, e: nat, name: string, v: Value, other: Token, from: nat)
    requires ValidStore(s) && e < |s.scopes| && ValidValue(s, v) && from < |s.scopes|
    requires other.lexeme != name
    ensures Get(Define(s, e, name, v), from, other) == Get(s, from, other)
  {
    ResolveFrame(s, Define(s, e, name, v), from, other.lexeme);
  }

  /** After a successful assignment the name reads back as the assigned value, from the same scope. */
  lemma AssignThenGet(s: Store, e: nat, name: Token, v: Value)
    requires ValidStore(s) && e < |s.scopes| && ValidValue(s, v)
    requires Assign(s, e, name, v).Pass?
    ensures Get(Assign(s, e, name, v).value, e, name) == Pass(v)
  {
    var s' := Assign(s, e, name, v).value;
    ResolveFrame(s, s', e, name.lexeme);
  }

  /** Assignment never creates a binding: it fails exactly when reading the name would fail. */
  lemma AssignFailsIffGetFails(s: Store, e: nat, name: Token, v: Value)
    requires ValidStore(s) && e < |s.scopes| && ValidValue(s, v)
    ensures Assign(s, e, name, v).Fail? <==> Get(s, e, name).Fail?
    ensures Assign(s, e, name, v).Fail? ==> Assign(s, e, name, v).error == Get(s, e, name).error
  {}
}
