/**
 * `range`, `createRange` and `rangeFun` (RangeAndMap.kt): the list of
 * integers between two numbers, both ends included, counting down when the
 * first is the larger one, and the prototype that carries such a list.
 */
module RangeAndMap {
  import opened Common
  import opened Values
  import opened Numbers
  import Prototypes

  /** The inclusive run `lo, lo + 1, .., hi`: Kotlin's `lo .. hi`. */
  function Span(lo: int, hi: int): (r: seq<int>)
    requires lo <= hi
    ensures |r| == hi - lo + 1
    ensures forall i :: 0 <= i < |r| ==> r[i] == lo + i
    decreases hi - lo
  {
    if lo == hi then [lo] else [lo] + Span(lo + 1, hi)
  }

  /** `List.reversed()`. */
  function Reversed(xs: seq<int>): (r: seq<int>)
    ensures |r| == |xs|
    ensures forall i :: 0 <= i < |xs| ==> r[i] == xs[|xs| - 1 - i]
  {
    if xs == [] then [] else Reversed(xs[1..]) + [xs[0]]
  }

  function Abs(n: int): nat
  {
    if n < 0 then -n else n
  }

  /** `range(base, ceil)`. */
  method Range(base: real, ceil: real) returns (r: seq<int>)
    ensures base <= ceil ==> r == Span(ToInt(base), ToInt(ceil))
    ensures base > ceil ==> r == Reversed(Span(ToInt(ceil), ToInt(base)))
    ensures |r| == Abs(ToInt(ceil) - ToInt(base)) + 1
    ensures r[0] == ToInt(base) && r[|r| - 1] == ToInt(ceil)
    ensures base <= ceil ==> forall i :: 0 < i < |r| ==> r[i] == r[i - 1] + 1
    ensures base > ceil ==> forall i :: 0 < i < |r| ==> r[i] == r[i - 1] - 1
  {
    if base > ceil {
      ToIntMonotone(ceil, base);
      var up := Count(ToInt(ceil), ToInt(base));
      r := Reverse(up);
    } else {
      ToIntMonotone(base, ceil);
      r := Count(ToInt(base), ToInt(ceil));
    }
  }

  /** Iterate `lo .. hi` into a list. */
  method Count(lo: int, hi: int) returns (xs: seq<int>)
    requires lo <= hi
    ensures xs == Span(lo, hi)
  {
    xs := [];
    var k := lo;
    while k <= hi
      invariant lo <= k <= hi + 1
      invariant |xs| == k - lo
      invariant forall i :: 0 <= i < |xs| ==> xs[i] == lo + i
    {
      xs := xs + [k];
      k := k + 1;
    }
  }

  /** Copy a list back to front. */
  method Reverse(xs: seq<int>) returns (r: seq<int>)
    ensures r == Reversed(xs)
  {
    r := [];
    var j := |xs|;
    while j > 0
      invariant 0 <= j <= |xs|
      invariant |r| == |xs| - j
      invariant forall i :: 0 <= i < |r| ==> r[i] == xs[|xs| - 1 - i]
    {
      r := r + [xs[j - 1]];
      j := j - 1;
    }
  }

  /** The prototype `createRange` builds: a child of `parent` whose one slot `list` refers to list `l`. */
  function RangeObject(parent: nat, l: nat): Object
  {
    Object(map["list" := ListRef(l)], Some(parent), -1)
  }

  /**
   * `createRange(vals)`: a fresh prototype, child of `parent` on line -1,
   * whose `list` slot holds a list of the values as Kotlin `Int`s. The
   * `iter` slot is not modelled.
   */
  function CreateRange(s: Store, parent: nat, vals: seq<int>): (r: Outcome)
    requires ValidStore(s) && parent < |s.protos|
    ensures r.Val? && ValidOutcome(s, r)
    ensures r.value == ProtoRef(|s.protos|) && |r.store.protos| == |s.protos| + 1
    ensures r.store.protos[|s.protos|] == RangeObject(parent, |s.lists|)
    ensures |r.store.lists| == |s.lists| + 1 && |r.store.lists[|s.lists|]| == |vals|
    ensures forall i :: 0 <= i < |vals| ==> r.store.lists[|s.lists|][i] == Int(vals[i])
  {
    var elems := seq(|vals|, i requires 0 <= i < |vals| => Int(vals[i]));
    var s1 := NewProto(s, Some(parent), -1);
    var s2 := NewList(s1, elems);
    Val(ProtoRef(|s.protos|), Prototypes.Set(s2, |s.protos|, "list", ListRef(|s.lists|)))
  }

  /** `rangeFun(base, ceil)`: `createRange(range(base, ceil))`. */
  method RangeFun(s: Store, parent: nat, base: real, ceil: real) returns (r: Outcome)
    requires ValidStore(s) && parent < |s.protos|
    ensures r.Val? && ValidOutcome(s, r) && r.value == ProtoRef(|s.protos|)
    ensures |r.store.lists| == |s.lists| + 1
    ensures |r.store.protos| == |s.protos| + 1
    ensures r.store.protos[|s.protos|] == RangeObject(parent, |s.lists|)
    ensures |r.store.lists[|s.lists|]| == Abs(ToInt(ceil) - ToInt(base)) + 1
    ensures r.store.lists[|s.lists|][0] == Int(ToInt(base))
    ensures base <= ceil ==> forall i :: 0 <= i < |r.store.lists[|s.lists|]| ==> r.store.lists[|s.lists|][i] == Int(ToInt(base) + i)
    ensures base > ceil ==> forall i :: 0 <= i < |r.store.lists[|s.lists|]| ==> r.store.lists[|s.lists|][i] == Int(ToInt(base) - i)
  {
    var vals := Range(base, ceil);
    RangeElements(base, ceil, vals);
    r := CreateRange(s, parent, vals);
    RangeListElements(s, parent, base, ceil, vals);
  }

  /** The list `createRange` builds holds the run `range` yields, element by element. */
  lemma RangeListElements(s: Store, parent: nat, base: real, ceil: real, vals: seq<int>)
    requires ValidStore(s) && parent < |s.protos|
    requires base <= ceil ==> forall i :: 0 <= i < |vals| ==> vals[i] == ToInt(base) + i
    requires base > ceil ==> forall i :: 0 <= i < |vals| ==> vals[i] == ToInt(base) - i
    ensures var l := CreateRange(s, parent, vals).store.lists[|s.lists|];
      && (base <= ceil ==> forall i :: 0 <= i < |l| ==> l[i] == Int(ToInt(base) + i))
      && (base > ceil ==> forall i :: 0 <= i < |l| ==> l[i] == Int(ToInt(base) - i))
  {
    var l := CreateRange(s, parent, vals).store.lists[|s.lists|];
    assert forall i :: 0 <= i < |l| ==> l[i] == Int(vals[i]);
  }

  /** The values `range` yields, one by one: counting up or down from the first. */
  lemma RangeElements(base: real, ceil: real, vals: seq<int>)
    requires base <= ceil ==> vals == Span(ToInt(base), ToInt(ceil))
    requires base > ceil ==> vals == Reversed(Span(ToInt(ceil), ToInt(base)))
    ensures base <= ceil ==> forall i :: 0 <= i < |vals| ==> vals[i] == ToInt(base) + i
    ensures base > ceil ==> forall i :: 0 <= i < |vals| ==> vals[i] == ToInt(base) - i
  {
    if base > ceil {
      ToIntMonotone(ceil, base);
      var up := Span(ToInt(ceil), ToInt(base));
      assert forall i :: 0 <= i < |vals| ==> vals[i] == up[|up| - 1 - i];
    }
  }

  /** Reversing twice gives the list back: a descending range read back to front is the ascending run. */
  lemma {:induction false} ReversedTwice(xs: seq<int>)
    ensures Reversed(Reversed(xs)) == xs
  {
    if xs != [] {
      ReversedTwice(xs[1..]);
      var r := Reversed(xs);
      assert Reversed(r) == Reversed(Reversed(xs[1..]) + [xs[0]]);
      forall i | 0 <= i < |xs| ensures Reversed(r)[i] == xs[i] {}
    }
  }
}
