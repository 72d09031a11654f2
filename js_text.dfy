/**
 * The JavaScript view of a string. Dafny strings are sequences of Unicode
 * scalar values; a JavaScript string is a sequence of UTF-16 code units, so a
 * character outside the Basic Multilingual Plane is two units (a surrogate
 * pair). `str.length` and `str.charCodeAt(i)` see the units.
 */
module JsText {

  const SurrogateBase: int := 0x10000

  /** The UTF-16 encoding of one character. */
  function Units(c: char): (r: seq<int>)
    ensures 1 <= |r| <= 2
    ensures |r| == 1 <==> (c as int) < SurrogateBase
    ensures forall k :: 0 <= k < |r| ==> 0 <= r[k] < 0x10000
  {
    var v := c as int;
    if v < SurrogateBase then [v]
    else [0xD800 + (v - SurrogateBase) / 0x400, 0xDC00 + (v - SurrogateBase) % 0x400]
  }

  /** The code units JavaScript sees in a string, in order. */
  function CodeUnits(s: string): (r: seq<int>)
    ensures forall k :: 0 <= k < |r| ==> 0 <= r[k] < 0x10000
    ensures |r| >= |s|
  {
    if s == [] then [] else CodeUnits(s[..|s| - 1]) + Units(s[|s| - 1])
  }

  /** JavaScript's `str.length`. */
  function JsLength(s: string): nat {
    |CodeUnits(s)|
  }
}
