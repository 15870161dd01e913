/**
 * `StandardLibrary.generateLib`, the version `Interpreter()` calls: it gives
 * the global `base` prototype a `toString`, builds the `io`, `time`, `list`,
 * `sys` and `string` namespaces as children of `base`, fills them with
 * natives, and defines `io`, `time`, `list` and `sys` in the global
 * environment. The `string` namespace is built but never defined.
 */
module StandardLibrary {
  import opened Common
  import opened Syntax
  import opened Values
  import opened Natives
  import Environment
  import Prototypes

  /** The global environment (scope 0) and `base` (prototype 0), as they are before `generateLib` runs. */
  const Fresh := Store([Scope(map[], None)], [Object(map[], None, -1)], [], [])

  /** The native slots of each namespace, as the `set` calls after its creation leave them. */
  const IoSlots: map<string, Value> :=
    map["print" := Native(IoPrint), "read" := Native(IoRead), "open" := Native(IoOpen), "write" := Native(IoWrite)]
  const TimeSlots: map<string, Value> := map["clock" := Native(TimeClock), "now" := Native(TimeNow)]
  const ListSlots: map<string, Value> :=
    map["add" := Native(ListAdd), "size" := Native(ListSize), "remove" := Native(ListRemove)]
  const StringSlots: map<string, Value> := map["size" := Native(StringSize)]

  /** The five namespaces, children of `base` on line -1, in the order `generateLib` allocates them: io, time, list, sys, string. */
  function Namespaces(base: nat): seq<Object>
  {
    [Object(IoSlots, Some(base), -1), Object(TimeSlots, Some(base), -1), Object(ListSlots, Some(base), -1),
     Object(map[], Some(base), -1), Object(StringSlots, Some(base), -1)]
  }

  /** The four global names `generateLib` defines, given the index `n` of the first namespace. */
  function Registered(vars: map<string, Value>, n: nat): map<string, Value>
  {
    vars["io" := ProtoRef(n)]["time" := ProtoRef(n + 1)]["list" := ProtoRef(n + 2)]["sys" := ProtoRef(n + 3)]
  }

  lemma NamespacesValid(s: Store, base: nat)
    requires ValidStore(s) && base < |s.protos|
    ensures ValidStore(s.(protos := s.protos + Namespaces(base)))
  {
    var s' := s.(protos := s.protos + Namespaces(base));
    forall i | |s.protos| <= i < |s'.protos| ensures ValidMap(s', s'.protos[i].slots) {
      assert s'.protos[i] == Namespaces(base)[i - |s.protos|];
    }
  }

  lemma RegisteredValid(s: Store, vars: map<string, Value>, n: nat)
    requires ValidMap(s, vars) && n + 3 < |s.protos|
    ensures ValidMap(s, Registered(vars, n))
  {}

  /** `generateLib(x)`, with `base` the global prototype. */
  function GenerateLib(s: Store, x: nat, base: nat): (s': Store)
    requires ValidStore(s) && x < |s.scopes| && base < |s.protos|
    ensures ValidStore(s') && Grows(s, s')
    ensures s'.protos == Prototypes.Set(s, base, "toString", Native(BaseToString)).protos + Namespaces(base)
    ensures s'.scopes == s.scopes[x := s.scopes[x].(vars := Registered(s.scopes[x].vars, |s.protos|))]
    ensures s'.lists == s.lists && s'.closures == s.closures
  {
    var s0 := Prototypes.Set(s, base, "toString", Native(BaseToString));
    NamespacesValid(s0, base);
    var s5 := s0.(protos := s0.protos + Namespaces(base));
    RegisteredValid(s5, s5.scopes[x].vars, |s.protos|);
    ScopeUpdateValid(s5, x, Registered(s5.scopes[x].vars, |s.protos|));
    s5.(scopes := s5.scopes[x := s5.scopes[x].(vars := Registered(s5.scopes[x].vars, |s.protos|))])
  }

  /** `Interpreter()`: the global environment and `base`, then `generateLib(globals)`. */
  function Boot(): (s: Store)
    ensures ValidStore(s) && |s.scopes| == 1 && |s.protos| == 6
  {
    GenerateLib(Fresh, 0, 0)
  }

  /** A name as `Main.kt` spells it when it looks a global up. */
  function Global(name: string): Token
  {
    Token(Identifier, name, NilConst, -1)
  }

  /** After start-up the globals are exactly `io`, `time`, `list` and `sys`; `string` is built but not reachable. */
  lemma BootGlobals()
    ensures Environment.Get(Boot(), 0, Global("io")) == Pass(ProtoRef(1))
    ensures Environment.Get(Boot(), 0, Global("time")) == Pass(ProtoRef(2))
    ensures Environment.Get(Boot(), 0, Global("list")) == Pass(ProtoRef(3))
    ensures Environment.Get(Boot(), 0, Global("sys")) == Pass(ProtoRef(4))
    ensures Boot().scopes[0].vars.Keys == {"io", "time", "list", "sys"}
    ensures Environment.Get(Boot(), 0, Global("string")).Fail?
    ensures Boot().protos[5].slots == map["size" := Native(StringSize)]
  {}

  /** The list helpers sit in the `list` namespace with the arities of their wrappers. */
  lemma BootListHelpers()
    ensures Prototypes.Get(Boot(), 3, "add") == Val(Native(ListAdd), Boot()) && Arity(ListAdd) == 2
    ensures Prototypes.Get(Boot(), 3, "size") == Val(Native(ListSize), Boot()) && Arity(ListSize) == 1
    ensures Prototypes.Get(Boot(), 3, "remove") == Val(Native(ListRemove), Boot()) && Arity(ListRemove) == 2
  {
    BootLayout();
    assert Boot().protos[3] == Namespaces(0)[2];
  }

  /** Where `generateLib` left each prototype of a fresh interpreter. */
  lemma BootLayout()
    ensures Boot().protos[0] == Object(map["toString" := Native(BaseToString)], None, -1)
    ensures Boot().protos[1..] == Namespaces(0)
  {}

  /** The console and file functions are registered with their arities. */
  lemma BootConsoleFunctions()
    ensures Prototypes.Get(Boot(), 1, "print") == Val(Native(IoPrint), Boot()) && Arity(IoPrint) == 1
    ensures Prototypes.Get(Boot(), 1, "read") == Val(Native(IoRead), Boot()) && Arity(IoRead) == 0
    ensures Prototypes.Get(Boot(), 1, "open") == Val(Native(IoOpen), Boot()) && Arity(IoOpen) == 1
    ensures Prototypes.Get(Boot(), 1, "write") == Val(Native(IoWrite), Boot()) && Arity(IoWrite) == 2
  {
    BootLayout();
    assert Boot().protos[1] == Namespaces(0)[0];
  }

  /** The clock functions are registered with their arities. */
  lemma BootClockFunctions()
    ensures Prototypes.Get(Boot(), 2, "clock") == Val(Native(TimeClock), Boot()) && Arity(TimeClock) == 0
    ensures Prototypes.Get(Boot(), 2, "now") == Val(Native(TimeNow), Boot()) && Arity(TimeNow) == 0
  {
    BootLayout();
    assert Boot().protos[2] == Namespaces(0)[1];
  }

  /** Every namespace inherits `base:toString`, one hop up, and calling it gives "<obj>". */
  lemma BootToString(h: Host, ns: nat)
    requires 1 <= ns <= 5 && ValidHost(Boot(), h)
    ensures Prototypes.Get(Boot(), ns, "toString") == Val(Native(BaseToString), Boot())
    ensures CallNative(h, Boot(), BaseToString, []) == Val(Text("<obj>"), Boot())
  {}
}
