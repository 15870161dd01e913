/**
 * `OasisPrototype`: a record of named slots with at most one parent.
 * `get` looks in the prototype's own slots, then in its parent's OWN slots
 * only (one hop), and otherwise raises an error at the line the prototype
 * was created on. Reading an own slot that holds a user function first
 * defines `this` as the prototype in that function's captured environment.
 */
module Prototypes {
  import opened Common
  import opened Values
  import Environment

  /** `OasisPrototype.set`: write slot `name` of prototype `p` itself. */
  function Set(s: Store, p: nat, name: string, v: Value): (s': Store)
    requires ValidStore(s) && p < |s.protos| && ValidValue(s, v)
    ensures ValidStore(s') && Grows(s, s') && Grows(s', s)
    ensures s'.protos[p].slots == s.protos[p].slots[name := v]
    ensures s'.protos[p].parent == s.protos[p].parent && s'.protos[p].line == s.protos[p].line
    ensures forall i :: 0 <= i < |s.protos| && i != p ==> s'.protos[i] == s.protos[i]
    ensures s'.scopes == s.scopes && s'.lists == s.lists && s'.closures == s.closures
  {
    var o := s.protos[p];
    s.(protos := s.protos[p := o.(slots := o.slots[name := v])])
  }

  /** Whether a lookup of `name` on `p` succeeds: an own slot, or a slot of the parent itself. */
  predicate Finds(s: Store, p: nat, name: string)
    requires ValidStore(s) && p < |s.protos|
  {
    var o := s.protos[p];
    name in o.slots || (o.parent.Some? && name in s.protos[o.parent.value].slots)
  }

  function Missing(s: Store, p: nat, name: string): Error
    requires p < |s.protos|
  {
    RuntimeError(s.protos[p].line, "Prototype does not contain key '" + name + "'")
  }

  /** `OasisPrototype.get`. */
  function Get(s: Store, p: nat, name: string): (r: Outcome)
    requires ValidStore(s) && p < |s.protos|
    ensures ValidOutcome(s, r) && !r.OutOfFuel?
    ensures r.Val? <==> Finds(s, p, name)
    ensures r.Raise? ==> r.error == Missing(s, p, name)
    ensures r.Val? && name in s.protos[p].slots ==> r.value == s.protos[p].slots[name]
    ensures r.Val? && name !in s.protos[p].slots ==>
      r.value == s.protos[s.protos[p].parent.value].slots[name] && r.store == s
    ensures r.Val? ==> r.store.protos == s.protos && r.store.lists == s.lists && r.store.closures == s.closures
  {
    var o := s.protos[p];
    if name in o.slots then
      var v := o.slots[name];
      if v.FnRef? then Val(v, Environment.Define(s, s.closures[v.fn].env, "this", ProtoRef(p)))
      else Val(v, s)
    else if o.parent.Some? && name in s.protos[o.parent.value].slots then
      Val(s.protos[o.parent.value].slots[name], s)
    else
      Raise(Missing(s, p, name))
  }

  /** A value written with `set` is what `get` then reads; a non-function read changes nothing. */
  lemma SetThenGet(s: Store, p: nat, name: string, v: Value)
    requires ValidStore(s) && p < |s.protos| && ValidValue(s, v)
    ensures Get(Set(s, p, name, v), p, name).Val?
    ensures Get(Set(s, p, name, v), p, name).value == v
    ensures !v.FnRef? ==> Get(Set(s, p, name, v), p, name).store == Set(s, p, name, v)
  {}

  /** `set` writes only the prototype's own slot: lookups of other names, on any prototype, are unchanged. */
  lemma SetOtherName(s: Store, p: nat, name: string, v: Value, q: nat, other: string)
    requires ValidStore(s) && p < |s.protos| && ValidValue(s, v) && q < |s.protos|
    requires other != name
    ensures Get(Set(s, p, name, v), q, other).Val? <==> Get(s, q, other).Val?
    ensures Get(s, q, other).Val? ==> Get(Set(s, p, name, v), q, other).value == Get(s, q, other).value
  {}

  /** An own slot shadows a parent slot of the same name. */
  lemma OwnSlotShadowsParent(s: Store, p: nat, name: string)
    requires ValidStore(s) && p < |s.protos| && s.protos[p].parent.Some?
    requires name in s.protos[p].slots && name in s.protos[s.protos[p].parent.value].slots
    requires s.protos[p].slots[name] != s.protos[s.protos[p].parent.value].slots[name]
    ensures Get(s, p, name).value != s.protos[s.protos[p].parent.value].slots[name]
  {}

  /** Delegation is one hop: a slot held only by the grandparent is not found, and the error carries `p`'s creation line. */
  lemma GrandparentNotConsulted(s: Store, p: nat, name: string)
    requires ValidStore(s) && p < |s.protos|
    requires s.protos[p].parent.Some? && s.protos[s.protos[p].parent.value].parent.Some?
    requires name !in s.protos[p].slots && name !in s.protos[s.protos[p].parent.value].slots
    ensures Get(s, p, name) == Raise(RuntimeError(s.protos[p].line, "Prototype does not contain key '" + name + "'"))
  {}

  /**
   * Reading an own function slot binds `this` to the prototype in the
   * function's captured environment; nothing else in the store changes.
   */
  lemma OwnMethodBindsThis(s: Store, p: nat, name: string)
    requires ValidStore(s) && p < |s.protos|
    requires name in s.protos[p].slots && s.protos[p].slots[name].FnRef?
    ensures var env := s.closures[s.protos[p].slots[name].fn].env;
      && Get(s, p, name).store.scopes[env].vars == s.scopes[env].vars["this" := ProtoRef(p)]
      && (forall i :: 0 <= i < |s.scopes| && i != env ==> Get(s, p, name).store.scopes[i] == s.scopes[i])
  {}

  /** A function found through the parent is returned as it is: no `this` binding, no change to the store. */
  lemma InheritedMethodUnbound(s: Store, p: nat, name: string)
    requires ValidStore(s) && p < |s.protos| && s.protos[p].parent.Some?
    requires name !in s.protos[p].slots && name in s.protos[s.protos[p].parent.value].slots
    ensures Get(s, p, name) == Val(s.protos[s.protos[p].parent.value].slots[name], s)
  {}
}
