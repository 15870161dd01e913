/**
 * Native callables: the fixed-arity wrappers `KotlinFunction0` ..
 * `KotlinFunction3` and the host functions the standard library registers
 * through them. The list and string helpers are modelled in full; the
 * console, file and clock functions are answered by the host.
 */
module Natives {
  import opened Common
  import opened Values
  import opened Numbers
  import Prototypes
  import Utf16

  /** A value that holds no reference into the store: what the host can hand back. */
  type Scalar = v: Value | !v.ListRef? && !v.ProtoRef? && !v.FnRef? witness Nil

  /** The calendar fields `localtime` reports (`tm_year` counts from 1900). */
  datatype Calendar = Calendar(tmYear: int, tmMon: int, tmMday: int, tmHour: int, tmMin: int, tmSec: int)

  /**
   * Everything the model takes from outside: which reading of the defects to
   * follow, the `base` prototype, the current time, the replies of the
   * console and file functions (`None` when the host throws), and the text
   * Kotlin's `toString` gives a `Double`, a list or an object.
   */
  datatype Host = Host(
    dialect: Dialect,
    base: nat,
    now: Calendar,
    console: (NativeId, seq<Value>) -> Option<Scalar>,
    render: (Store, Value) -> string)

  predicate ValidHost(s: Store, h: Host)
  {
    h.base < |s.protos|
  }

  /** The wrapper class each native was registered with: `KotlinFunctionN` has arity N. */
  function Arity(id: NativeId): (n: nat)
    ensures n <= 3
  {
    match id
    case BaseToString => 0
    case IoPrint => 1
    case IoRead => 0
    case IoOpen => 1
    case IoWrite => 2
    case TimeClock => 0
    case TimeNow => 0
    case ListAdd => 2
    case ListSize => 1
    case ListRemove => 2
    case StringSize => 1
  }

  /**
   * `KotlinFunctionN.call`: read `arguments[0]` .. `arguments[N-1]` and hand
   * them, in order, to the wrapped function. The count is never checked:
   * extra arguments are ignored, and a missing one is an index error.
   */
  function Positional(arity: nat, args: seq<Value>): (r: Checked<seq<Value>>)
    requires arity <= 3
    ensures r.Pass? <==> arity <= |args|
    ensures r.Pass? ==> |r.value| == arity && forall i :: 0 <= i < arity ==> r.value[i] == args[i]
    ensures r.Fail? ==> r.error == IndexFailure
  {
    if |args| < arity then Fail(IndexFailure) else Pass(args[..arity])
  }

  /** Extra arguments never change what a native wrapper passes on. */
  lemma ExtraArgumentsIgnored(arity: nat, args: seq<Value>, extra: seq<Value>)
    requires arity <= 3 && arity <= |args|
    ensures Positional(arity, args + extra) == Positional(arity, args)
  {
    assert (args + extra)[..arity] == args[..arity];
  }

  /** `KotlinFunction0` ignores every argument it is given. */
  lemma NullaryIgnoresArguments(args: seq<Value>)
    ensures Positional(0, args) == Pass([])
  {}

  /** `list.add`: append to the list; the wrapped lambda's declared result is `Unit`. */
  function ListAdd(s: Store, z: Value, y: Value): (r: Outcome)
    requires ValidStore(s) && ValidValue(s, z) && ValidValue(s, y)
    ensures ValidOutcome(s, r) && !r.OutOfFuel?
    ensures r.Val? <==> z.ListRef?
    ensures r.Raise? ==> r.error == CastFailure
    ensures r.Val? ==> r.value == Unit && r.store.lists == s.lists[z.list := s.lists[z.list] + [y]]
    ensures r.Val? ==> r.store.scopes == s.scopes && r.store.protos == s.protos && r.store.closures == s.closures
  {
    match z
    case ListRef(l) => Val(Unit, SetList(s, l, s.lists[l] + [y]))
    case _ => Raise(CastFailure)
  }

  /** `list.size`: the element count, as a `Double`. */
  function ListSize(s: Store, z: Value): (r: Outcome)
    requires ValidStore(s) && ValidValue(s, z)
    ensures ValidOutcome(s, r) && !r.OutOfFuel?
    ensures r.Val? <==> z.ListRef?
    ensures r.Raise? ==> r.error == CastFailure
    ensures r.Val? ==> r.value == Num(|s.lists[z.list]| as real) && r.store == s
  {
    match z
    case ListRef(l) => Val(Num(|s.lists[l]| as real), s)
    case _ => Raise(CastFailure)
  }

  /** `List.indexOf`: the position of the first element equal to `x`. */
  function IndexOf(xs: seq<Value>, x: Value): (k: nat)
    requires x in xs
    ensures k < |xs| && xs[k] == x && x !in xs[..k]
  {
    if xs[0] == x then 0
    else
      var k := 1 + IndexOf(xs[1..], x);
      assert xs[..k] == [xs[0]] + xs[1..][..k-1];
      k
  }

  /**
   * `MutableList.remove(element)`: drop the first element equal to `x`; the
   * list is unchanged when none is.
   */
  function RemoveFirst(xs: seq<Value>, x: Value): (r: seq<Value>)
    ensures x !in xs ==> r == xs
    ensures x in xs ==> exists k :: 0 <= k < |xs| && xs[k] == x && x !in xs[..k] && r == xs[..k] + xs[k+1..]
    ensures x in xs ==> |r| == |xs| - 1 && multiset(r) + multiset{x} == multiset(xs)
  {
    if x in xs then
      var k := IndexOf(xs, x);
      assert xs == xs[..k] + [x] + xs[k+1..];
      xs[..k] + xs[k+1..]
    else xs
  }

  /**
   * `list.remove(z, y)`: the element at `y.toInt()` is read and returned.
   * As written the lambda then calls `z.remove(y)`, which removes the first
   * element equal to the number `y` (usually none), not the indexed one; the
   * intended reading removes the element it returns.
   */
  function ListRemove(d: Dialect, s: Store, z: Value, y: Value): (r: Outcome)
    requires ValidStore(s) && ValidValue(s, z) && ValidValue(s, y)
    ensures ValidOutcome(s, r) && !r.OutOfFuel?
    ensures r.Val? <==> z.ListRef? && y.Num? && 0 <= ToInt(y.n) < |s.lists[z.list]|
    ensures r.Raise? ==> r.error == CastFailure || r.error == IndexFailure
    ensures r.Val? ==> r.value == s.lists[z.list][ToInt(y.n)]
    ensures r.Val? && d == AsWritten ==> r.store.lists == s.lists[z.list := RemoveFirst(s.lists[z.list], y)]
    ensures r.Val? && d == Intended ==>
      var i := ToInt(y.n);
      r.store.lists == s.lists[z.list := s.lists[z.list][..i] + s.lists[z.list][i+1..]]
    ensures r.Val? ==> r.store.scopes == s.scopes && r.store.protos == s.protos && r.store.closures == s.closures
  {
    match z
    case ListRef(l) =>
      if !y.Num? then Raise(CastFailure)
      else
        var xs, i := s.lists[l], ToInt(y.n);
        if i < 0 || i >= |xs| then Raise(IndexFailure)
        else
          var rest := if d == AsWritten then RemoveFirst(xs, y) else xs[..i] + xs[i+1..];
          assert forall j :: 0 <= j < |rest| ==> rest[j] in xs;
          Val(xs[i], SetList(s, l, rest))
    case _ => Raise(CastFailure)
  }

  /**
   * `string.size`: the length of the text, as a `Double`. Kotlin counts
   * UTF-16 code units, so a character outside the Basic Multilingual Plane
   * counts twice.
   */
  function StringSize(s: Store, z: Value): (r: Outcome)
    requires ValidStore(s)
    ensures !r.OutOfFuel? && (r.Val? ==> r.store == s)
    ensures r.Val? <==> z.Text?
    ensures r.Val? ==> r.value == Num(|Utf16.Encode(z.s)| as real)
    ensures r.Val? ==> (r.value == Num(|z.s| as real) <==> Utf16.Bmp(z.s))
    ensures r.Raise? ==> r.error == CastFailure
  {
    match z
    case Text(t) => Val(Num(|Utf16.Encode(t)| as real), s)
    case _ => Raise(CastFailure)
  }

  /** `time.now`: a fresh prototype, child of `base`, whose slots hold the calendar fields as Kotlin `Int`s. */
  function TimeNow(h: Host, s: Store): (r: Outcome)
    requires ValidStore(s) && ValidHost(s, h)
    ensures ValidOutcome(s, r) && r.Val?
    ensures r.value == ProtoRef(|s.protos|) && |r.store.protos| == |s.protos| + 1
    ensures r.store.protos[|s.protos|] == Object(map[
      "year" := Int(h.now.tmYear + 1900), "month" := Int(h.now.tmMon), "day" := Int(h.now.tmMday),
      "hour" := Int(h.now.tmHour), "min" := Int(h.now.tmMin), "sec" := Int(h.now.tmSec)], Some(h.base), -1)
  {
    var p := |s.protos|;
    var s1 := NewProto(s, Some(h.base), -1);
    var s2 := Prototypes.Set(s1, p, "year", Int(h.now.tmYear + 1900));
    var s3 := Prototypes.Set(s2, p, "month", Int(h.now.tmMon));
    var s4 := Prototypes.Set(s3, p, "day", Int(h.now.tmMday));
    var s5 := Prototypes.Set(s4, p, "hour", Int(h.now.tmHour));
    var s6 := Prototypes.Set(s5, p, "min", Int(h.now.tmMin));
    Val(ProtoRef(p), Prototypes.Set(s6, p, "sec", Int(h.now.tmSec)))
  }

  /** A console, file or clock function: whatever the host answers, or an error when it throws. */
  function HostCall(h: Host, s: Store, id: NativeId, args: seq<Value>): (r: Outcome)
    requires ValidStore(s)
    ensures ValidOutcome(s, r) && !r.OutOfFuel? && (r.Val? ==> r.store == s)
    ensures r.Val? <==> h.console(id, args).Some?
  {
    match h.console(id, args)
    case Some(v) => Val(v, s)
    case None => Raise(HostError("host call failed"))
  }

  /** A native call: the wrapper selects the positional arguments, then the registered function runs. */
  function CallNative(h: Host, s: Store, id: NativeId, args: seq<Value>): (r: Outcome)
    requires ValidStore(s) && ValidValues(s, args) && ValidHost(s, h)
    ensures ValidOutcome(s, r) && !r.OutOfFuel?
    ensures |args| < Arity(id) ==> r == Raise(IndexFailure)
  {
    match Positional(Arity(id), args)
    case Fail(err) => Raise(err)
    case Pass(a) =>
      match id
      case BaseToString => Val(Text("<obj>"), s)
      case ListAdd => ListAdd(s, a[0], a[1])
      case ListSize => ListSize(s, a[0])
      case ListRemove => ListRemove(h.dialect, s, a[0], a[1])
      case StringSize => StringSize(s, a[0])
      case TimeNow => TimeNow(h, s)
      case _ => HostCall(h, s, id, a)
  }

  /** What a native does depends only on the first `Arity(id)` arguments. */
  lemma CallNativeIgnoresExtra(h: Host, s: Store, id: NativeId, args: seq<Value>, extra: seq<Value>)
    requires ValidStore(s) && ValidValues(s, args) && ValidValues(s, extra) && ValidHost(s, h)
    requires Arity(id) <= |args|
    ensures ValidValues(s, args + extra)
    ensures CallNative(h, s, id, args + extra) == CallNative(h, s, id, args)
  {
    ExtraArgumentsIgnored(Arity(id), args, extra);
  }

  /** After `list.add`, `list.size` reports one more element, and the added element is last. */
  lemma AddThenSize(s: Store, l: nat, y: Value)
    requires ValidStore(s) && l < |s.lists| && ValidValue(s, y)
    ensures var r := ListAdd(s, ListRef(l), y);
      && r.Val?
      && ListSize(r.store, ListRef(l)) == Val(Num((|s.lists[l]| + 1) as real), r.store)
      && r.store.lists[l][|s.lists[l]|] == y
  {}

  /**
   * As written, `list.remove` returns the indexed element but keeps it in the
   * list: removing at index 1 from `[5, 6, 7]` returns 6 and leaves the list
   * as it was, since no element equals the number 1.
   */
  lemma RemoveAsWrittenKeepsElement(s: Store, l: nat)
    requires ValidStore(s) && l < |s.lists| && s.lists[l] == [Num(5.0), Num(6.0), Num(7.0)]
    ensures ListRemove(AsWritten, s, ListRef(l), Num(1.0)) == Val(Num(6.0), s)
  {
    assert Num(1.0) !in s.lists[l];
    assert s.lists[l := s.lists[l]] == s.lists;
  }

  /** Read as intended, `list.remove` takes exactly the returned element out: one fewer element, the rest in order. */
  lemma RemoveIntendedTakesElement(s: Store, l: nat, y: real)
    requires ValidStore(s) && l < |s.lists| && 0 <= ToInt(y) < |s.lists[l]|
    ensures var r := ListRemove(Intended, s, ListRef(l), Num(y));
      && r.Val?
      && |r.store.lists[l]| == |s.lists[l]| - 1
      && multiset(r.store.lists[l]) + multiset{r.value} == multiset(s.lists[l])
  {
    var xs, i := s.lists[l], ToInt(y);
    assert xs == xs[..i] + [xs[i]] + xs[i+1..];
  }
}
