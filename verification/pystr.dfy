/** The two pieces of Python string semantics the exporter relies on:
    slicing with non-negative bounds, which clamps instead of failing,
    and `str.join`. */
module PyStr {

  function Min(a: int, b: int): int {
    if a <= b then a else b
  }

  /** Python's `s[lo:hi]` for `lo, hi >= 0`: both bounds are clamped to `len(s)`
      and an empty string results when the clamped stop is not after the start. */
  function Slice(s: string, lo: nat, hi: nat): (r: string)
    ensures |r| == if Min(hi, |s|) <= Min(lo, |s|) then 0 else Min(hi, |s|) - Min(lo, |s|)
    ensures forall i :: 0 <= i < |r| ==> lo + i < |s| && r[i] == s[lo + i]
  {
    var start := Min(lo, |s|);
    var stop := Min(hi, |s|);
    if stop <= start then "" else s[start..stop]
  }

  /** Python's `sep.join(parts)`: the parts with `sep` between each two
      neighbours. Read left to right, each further part is appended after one
      separator, as CPython builds the result. */
  function Join(sep: string, parts: seq<string>): (r: string)
    ensures |parts| >= 2 ==> r == Join(sep, parts[..|parts| - 1]) + sep + parts[|parts| - 1]
    decreases |parts|
  {
    if |parts| == 0 then ""
    else if |parts| == 1 then parts[0]
    else
      var rest := parts[1..];
      var r := parts[0] + sep + Join(sep, rest);
      if |parts| >= 3 then
        var init := parts[..|parts| - 1];
        assert init[1..] == rest[..|rest| - 1];
        assert init[0] == parts[0];
        r
      else
        assert parts[..1] == [parts[0]];
        r
  }
}
