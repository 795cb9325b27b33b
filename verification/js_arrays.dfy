/** The two array operations of the ECMAScript standard library that the
    scaffolding script's file patches rely on, restated over Dafny sequences:
    `Array.prototype.findIndex` with a strict-equality test, and
    `Array.prototype.splice` used as a pure insertion (delete count 0). */
module JsArrays {

  /** `s.findIndex(e => e === x)`: the position of the first element equal to
      `x`, or -1 when there is none. */
  function FindIndex<T(==)>(s: seq<T>, x: T): (r: int)
    ensures -1 <= r < |s|
    ensures r == -1 <==> x !in s
    ensures 0 <= r ==> s[r] == x && x !in s[..r]
    decreases |s|
  {
    if |s| == 0 then -1
    else if s[0] == x then 0
    else
      var k := FindIndex(s[1..], x);
      if k == -1 then -1
      else
        assert s[..k + 1] == [s[0]] + s[1..][..k];
        k + 1
  }

  /** Where `splice(start, ...)` starts on an array of length `len`: a negative
      start counts back from the end and is clamped at 0, a start beyond the end
      is clamped to the length, as ECMA-262 defines `Array.prototype.splice`. */
  function SpliceStart(len: nat, start: int): (k: nat)
    ensures k <= len
  {
    if start < 0 then (if len + start < 0 then 0 else len + start)
    else if start > len then len
    else start
  }

  /** The array `a` after `a.splice(start, 0, ...items)`: nothing is deleted and
      `items` now occupy the positions from the clamped start onwards. */
  function SpliceInsert<T>(a: seq<T>, start: int, items: seq<T>): (r: seq<T>)
    ensures |r| == |a| + |items|
    ensures forall i :: 0 <= i < SpliceStart(|a|, start) ==> r[i] == a[i]
    ensures forall i :: 0 <= i < |items| ==> r[SpliceStart(|a|, start) + i] == items[i]
    ensures forall i :: SpliceStart(|a|, start) <= i < |a| ==> r[i + |items|] == a[i]
  {
    var k := SpliceStart(|a|, start);
    a[..k] + items + a[k..]
  }

  /** Taking the inserted items back out of the spliced array gives the
      original array back. */
  lemma SpliceInsertRemovable<T>(a: seq<T>, start: int, items: seq<T>)
    ensures var k := SpliceStart(|a|, start);
            var r := SpliceInsert(a, start, items);
            r[..k] + r[k + |items|..] == a && r[k..k + |items|] == items
  {
    var k := SpliceStart(|a|, start);
    var r := SpliceInsert(a, start, items);
    assert r[..k] == a[..k];
    assert r[k + |items|..] == a[k..];
    assert a[..k] + a[k..] == a;
  }
}
