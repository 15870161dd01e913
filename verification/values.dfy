/**
 * Runtime values and the store that holds every mutable, shared object of the
 * interpreter: environments (scopes), prototypes, lists and user closures.
 *
 * The Kotlin program shares these objects by reference; here a value refers to
 * them by index into the store, allocation appends, and mutation updates one
 * entry in place. Kotlin's `null` is `Nil`; `kotlin.Unit` (what `list.add` and
 * `io.print` return) is `Unit`; a script number is a Kotlin `Double` (`Num`),
 * while `Int` is the boxed Kotlin `Int` that only library code produces (the
 * elements of a range list, the fields of `time.now`).
 */
module Values {
  import opened Common
  import opened Syntax

  /** The host functions registered by the standard library, one per Kotlin wrapper instance. */
  datatype NativeId =
    | BaseToString
    | IoPrint | IoRead | IoOpen | IoWrite
    | TimeClock | TimeNow
    | ListAdd | ListSize | ListRemove
    | StringSize

  datatype Value =
    | Nil
    | Unit
    | Bool(b: bool)
    | Num(n: real)
    | Int(i: int)
    | Text(s: string)
    | Char(c: char)
    | ListRef(list: nat)
    | ProtoRef(proto: nat)
    | FnRef(fn: nat)
    | Native(id: NativeId)

  /** An `Environment`: its own bindings and the enclosing environment, if any. */
  datatype Scope = Scope(vars: map<string, Value>, parent: Option<nat>)

  /** An `OasisPrototype`: its own slots, its parent (`inherit`) and the line it was created on. */
  datatype Object = Object(slots: map<string, Value>, parent: Option<nat>, line: int)

  /** An `OasisFunction`: the declared parameters and body of its `Func` node, and its captured environment. */
  datatype Closure = Closure(params: seq<Token>, body: Stmt, env: nat)

  datatype Store = Store(scopes: seq<Scope>, protos: seq<Object>, lists: seq<seq<Value>>, closures: seq<Closure>)

  /**
   * The one error outcome: a `RuntimeError` with its line, or a Kotlin
   * exception (failed cast, index out of bounds, host failure) that has none.
   */
  datatype Error = RuntimeError(line: int, message: string) | HostError(message: string)

  /** A step that either yields a `T` or raises. */
  datatype Checked<+T> = Pass(value: T) | Fail(error: Error)

  /**
   * The result of a step that may change the store: a result and the store
   * after it, an error, or running out of the evaluation budget (the model's
   * stand-in for a computation that does not finish).
   */
  datatype Step<+T> = Val(value: T, store: Store) | Raise(error: Error) | OutOfFuel

  /** The result of evaluating an expression or calling a function. */
  type Outcome = Step<Value>

  /**
   * Which reading of the arithmetic and list-removal code to follow: the code
   * as written, or its evident intent (see the findings in the README).
   */
  datatype Dialect = AsWritten | Intended

  /** Kotlin exceptions other than `RuntimeError`; the model does not tell them apart by message. */
  const CastFailure := HostError("ClassCastException")
  const IndexFailure := HostError("IndexOutOfBoundsException")

  /** Every reference in `v` points into `s`. */
  predicate ValidValue(s: Store, v: Value)
  {
    match v
    case ListRef(i) => i < |s.lists|
    case ProtoRef(i) => i < |s.protos|
    case FnRef(i) => i < |s.closures|
    case _ => true
  }

  predicate ValidValues(s: Store, vs: seq<Value>)
  {
    forall i :: 0 <= i < |vs| ==> ValidValue(s, vs[i])
  }

  predicate ValidMap(s: Store, m: map<string, Value>)
  {
    forall k :: k in m ==> ValidValue(s, m[k])
  }

  /**
   * The store is closed under references, and an environment's parent was
   * always allocated before it (so walking the scope chain terminates).
   */
  predicate ValidStore(s: Store)
  {
    && (forall i :: 0 <= i < |s.scopes| ==>
          ValidMap(s, s.scopes[i].vars) && (s.scopes[i].parent.Some? ==> s.scopes[i].parent.value < i))
    && (forall i :: 0 <= i < |s.protos| ==>
          ValidMap(s, s.protos[i].slots) && (s.protos[i].parent.Some? ==> s.protos[i].parent.value < |s.protos|))
    && (forall i :: 0 <= i < |s.lists| ==> ValidValues(s, s.lists[i]))
    && (forall i :: 0 <= i < |s.closures| ==> s.closures[i].env < |s.scopes|)
  }

  /**
   * `s'` keeps every object of `s` (objects are never freed), and what is
   * fixed at creation stays fixed: a scope's parent, a prototype's parent and
   * line, and a closure.
   */
  predicate Grows(s: Store, s': Store)
  {
    && |s.scopes| <= |s'.scopes| && |s.protos| <= |s'.protos|
    && |s.lists| <= |s'.lists| && |s.closures| <= |s'.closures|
    && (forall i :: 0 <= i < |s.scopes| ==> s'.scopes[i].parent == s.scopes[i].parent)
    && (forall i :: 0 <= i < |s.protos| ==>
          s'.protos[i].parent == s.protos[i].parent && s'.protos[i].line == s.protos[i].line)
    && (forall i :: 0 <= i < |s.closures| ==> s'.closures[i] == s.closures[i])
  }

  lemma GrowsTransitive(s1: Store, s2: Store, s3: Store)
    requires Grows(s1, s2) && Grows(s2, s3)
    ensures Grows(s1, s3)
  {}

  lemma ValidValuesGrow(s: Store, s': Store, vs: seq<Value>)
    requires Grows(s, s') && ValidValues(s, vs)
    ensures ValidValues(s', vs)
  {}

  /** An outcome that leaves a closed store that extends `s`, and a value that points into it. */
  predicate ValidOutcome(s: Store, r: Outcome)
  {
    r.Val? ==> ValidStore(r.store) && Grows(s, r.store) && ValidValue(r.store, r.value)
  }

  predicate ValidOutcomes(s: Store, r: Step<seq<Value>>)
  {
    r.Val? ==> ValidStore(r.store) && Grows(s, r.store) && ValidValues(r.store, r.value)
  }

  /** Replacing a scope's bindings by valid ones keeps the store closed. */
  lemma ScopeUpdateValid(s: Store, x: nat, vars: map<string, Value>)
    requires ValidStore(s) && x < |s.scopes| && ValidMap(s, vars)
    ensures ValidStore(s.(scopes := s.scopes[x := s.scopes[x].(vars := vars)]))
  {}

  /** Replace the contents of list `l`. */
  function SetList(s: Store, l: nat, elems: seq<Value>): (s': Store)
    requires ValidStore(s) && l < |s.lists| && ValidValues(s, elems)
    ensures ValidStore(s') && Grows(s, s') && Grows(s', s)
    ensures s'.lists == s.lists[l := elems]
    ensures s'.scopes == s.scopes && s'.protos == s.protos && s'.closures == s.closures
  {
    s.(lists := s.lists[l := elems])
  }

  /** `Environment(enclosing)`: a fresh, empty scope; its index is the old scope count. */
  function NewScope(s: Store, parent: Option<nat>): (s': Store)
    requires ValidStore(s) && (parent.Some? ==> parent.value < |s.scopes|)
    ensures ValidStore(s') && Grows(s, s')
    ensures |s'.scopes| == |s.scopes| + 1 && s'.scopes[|s.scopes|] == Scope(map[], parent)
    ensures s'.scopes[..|s.scopes|] == s.scopes
    ensures s'.protos == s.protos && s'.lists == s.lists && s'.closures == s.closures
  {
    s.(scopes := s.scopes + [Scope(map[], parent)])
  }

  /** `OasisPrototype(inherit, line)`: a fresh prototype without slots. */
  function NewProto(s: Store, parent: Option<nat>, line: int): (s': Store)
    requires ValidStore(s) && (parent.Some? ==> parent.value < |s.protos|)
    ensures ValidStore(s') && Grows(s, s')
    ensures |s'.protos| == |s.protos| + 1 && s'.protos[|s.protos|] == Object(map[], parent, line)
    ensures s'.protos[..|s.protos|] == s.protos
    ensures s'.scopes == s.scopes && s'.lists == s.lists && s'.closures == s.closures
  {
    s.(protos := s.protos + [Object(map[], parent, line)])
  }

  /** A fresh `ArrayList` holding `elems`. */
  function NewList(s: Store, elems: seq<Value>): (s': Store)
    requires ValidStore(s) && ValidValues(s, elems)
    ensures ValidStore(s') && Grows(s, s')
    ensures s'.lists == s.lists + [elems]
    ensures s'.scopes == s.scopes && s'.protos == s.protos && s'.closures == s.closures
  {
    s.(lists := s.lists + [elems])
  }

  /** `OasisFunction(func, environment)`: a fresh closure capturing scope `env`. */
  function NewClosure(s: Store, params: seq<Token>, body: Stmt, env: nat): (s': Store)
    requires ValidStore(s) && env < |s.scopes|
    ensures ValidStore(s') && Grows(s, s')
    ensures s'.closures == s.closures + [Closure(params, body, env)]
    ensures s'.scopes == s.scopes && s'.protos == s.protos && s'.lists == s.lists
  {
    s.(closures := s.closures + [Closure(params, body, env)])
  }
}
