/**
 * `type.bytes` (standardLibrary/StandardLibrary.kt): encode a list or a
 * text as a Kotlin `ByteArray` of signed bytes.
 */
module TypeBytes {
  import opened Values
  import opened Numbers
  import Utf16

  /** The byte one list element becomes, or the error for an element that has none. */
  function ByteOf(v: Value): (r: Checked<Int8>)
    ensures r.Pass? <==> v.Num? || v.Int? || v.Bool? || v.Char?
    ensures v.Num? ==> r.value == ToByte(ToInt(v.n))
    ensures v.Int? ==> r.value == ToByte(v.i) && (-128 <= v.i < 128 ==> r.value as int == v.i)
    ensures v.Char? ==> r.value == ToByte(v.c as int) && (v.c as int < 128 ==> r.value as int == v.c as int)
    ensures v.Bool? ==> r.value == if v.b then 1 else 0
    ensures r.Fail? ==> r.error == HostError("cannot be converted to byte")
  {
    match v
    case Num(n) => Pass(ToByte(ToInt(n)))
    case Int(i) => Pass(ToByte(i))
    case Bool(b) => Pass(if b then 1 else 0)
    case Char(c) => Pass(ToByte(c as int))
    case _ => Fail(HostError("cannot be converted to byte"))
  }

  /**
   * The wrapped lambda of `type.bytes`: a list gives one byte per element,
   * in order, failing at the first element that has no byte; a text gives
   * one byte per UTF-16 code unit, its code narrowed; anything else is an
   * error.
   */
  method Bytes(s: Store, z: Value) returns (r: Checked<seq<Int8>>)
    requires ValidStore(s) && ValidValue(s, z)
    ensures z.ListRef? ==> (r.Pass? <==> forall i :: 0 <= i < |s.lists[z.list]| ==> ByteOf(s.lists[z.list][i]).Pass?)
    ensures z.ListRef? && r.Pass? ==> |r.value| == |s.lists[z.list]|
    ensures z.ListRef? && r.Pass? ==> forall i :: 0 <= i < |r.value| ==> r.value[i] == ByteOf(s.lists[z.list][i]).value
    ensures z.ListRef? && r.Fail? ==> exists i :: 0 <= i < |s.lists[z.list]| && ByteOf(s.lists[z.list][i]) == Fail(r.error)
    ensures z.Text? ==> r.Pass? && |r.value| == |Utf16.Encode(z.s)|
    ensures z.Text? ==> forall i :: 0 <= i < |r.value| ==> r.value[i] == ToByte(Utf16.Encode(z.s)[i] as int)
    ensures z.Text? && Utf16.Bmp(z.s) ==> |r.value| == |z.s|
    ensures z.Text? && Utf16.Bmp(z.s) ==> forall i :: 0 <= i < |z.s| ==> r.value[i] == ToByte(z.s[i] as int)
    ensures z.Text? && Utf16.Bmp(z.s) ==> forall i :: 0 <= i < |z.s| && z.s[i] as int < 128 ==> r.value[i] as int == z.s[i] as int
    ensures !z.ListRef? && !z.Text? ==> r == Fail(HostError("cannot be represented as a bytes-object"))
  {
    match z
    case ListRef(l) =>
      var xs := s.lists[l];
      var out: seq<Int8> := [];
      var li := 0;
      while li < |xs|
        invariant 0 <= li <= |xs| && |out| == li
        invariant forall i :: 0 <= i < li ==> ByteOf(xs[i]).Pass? && out[i] == ByteOf(xs[i]).value
      {
        var b := ByteOf(xs[li]);
        if b.Fail? {
          return Fail(b.error);
        }
        out := out + [b.value];
        li := li + 1;
      }
      r := Pass(out);
    case Text(t) =>
      var units := Utf16.Encode(t);
      var out: seq<Int8> := [];
      var li := 0;
      while li < |units|
        invariant 0 <= li <= |units| && |out| == li
        invariant forall i :: 0 <= i < li ==> out[i] == ToByte(units[i] as int)
      {
        out := out + [ToByte(units[li] as int)];
        li := li + 1;
      }
      r := Pass(out);
    case _ =>
      r := Fail(HostError("cannot be represented as a bytes-object"));
  }
}
