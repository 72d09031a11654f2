/**
 * Seeded randomness for the lottery: the string-seed hash, the Mulberry32
 * generator and the backward Fisher–Yates shuffle.
 *
 * JavaScript numbers are doubles, but every operation here is either a 32-bit
 * bitwise operation (which first wraps its operands to 32 bits) or an integer
 * computation far below 2^53, so the model uses exact integers and wraps
 * explicitly where the source's operators wrap.
 */
module Random {
  import opened JsText

  const TwoTo32: int := 0x1_0000_0000
  const TwoTo31: int := 0x8000_0000

  /** Unsigned 32-bit values: results of `>>> 0`. */
  type U32 = x: int | 0 <= x < 0x1_0000_0000
  /** Signed 32-bit values: results of `<<`, `&`, `|`, `^` and `Math.imul`. */
  type I32 = x: int | -0x8000_0000 <= x < 0x8000_0000

  /** ECMAScript ToInt32: the signed 32-bit value congruent to `x` modulo 2^32. */
  function ToInt32(x: int): (r: I32)
    ensures (x - r) % TwoTo32 == 0
  {
    var m := x % TwoTo32;
    if m < TwoTo31 then m else m - TwoTo32
  }

  /** ECMAScript ToUint32: the unsigned 32-bit value congruent to `x` modulo 2^32. */
  function ToUint32(x: int): (r: U32)
    ensures (x - r) % TwoTo32 == 0
  {
    x % TwoTo32
  }

  /** Congruent integers wrap to the same signed 32-bit value. */
  lemma ToInt32Congruent(x: int, y: int)
    requires (x - y) % TwoTo32 == 0
    ensures ToInt32(x) == ToInt32(y)
  {
    var k := (x - y) / TwoTo32;
    assert x == y + k * TwoTo32;
    assert x % TwoTo32 == y % TwoTo32;
  }

  // ---------------------------------------------------------------------------
  // hashSeed
  // ---------------------------------------------------------------------------

  /** The rolling hash as a left fold: h := int32(31 * h + unit), starting from 0. */
  function HashFold(units: seq<int>): I32 {
    if units == [] then 0
    else ToInt32(31 * HashFold(units[..|units| - 1]) + units[|units| - 1])
  }

  /** The same hash without wrapping: Horner's rule for the base-31 polynomial of the units. */
  function Polynomial(units: seq<int>): int {
    if units == [] then 0
    else 31 * Polynomial(units[..|units| - 1]) + units[|units| - 1]
  }

  /**
   * The source's step, `hash = ((hash << 5) - hash) + char` followed by
   * `hash = hash & hash`, is the ×31 step wrapped to 32 bits: the shift wraps
   * `32 * hash` and the `&` wraps the sum, and both wraps agree modulo 2^32.
   */
  lemma ShiftStepIsTimes31(h: I32, c: int)
    ensures ToInt32(ToInt32(h * 32) - h + c) == ToInt32(31 * h + c)
  {
    ToInt32Congruent(ToInt32(h * 32) - h + c, 31 * h + c);
  }

  /** Congruence modulo 2^32 survives one step of the rolling hash. */
  lemma CongruentStep(p: int, h: int, c: int)
    requires (p - h) % TwoTo32 == 0
    ensures ((31 * p + c) - (31 * h + c)) % TwoTo32 == 0
  {
    var k := (p - h) / TwoTo32;
    assert p - h == k * TwoTo32;
    assert (31 * p + c) - (31 * h + c) == (31 * k) * TwoTo32;
  }

  /** Wrapping at every step gives the same signed 32-bit value as wrapping the polynomial once. */
  lemma {:induction false} HashFoldIsPolynomial(units: seq<int>)
    ensures HashFold(units) == ToInt32(Polynomial(units))
  {
    if units != [] {
      var init, c := units[..|units| - 1], units[|units| - 1];
      HashFoldIsPolynomial(init);
      var h, p := HashFold(init), Polynomial(init);
      assert (p - h) % TwoTo32 == 0;
      CongruentStep(p, h, c);
      ToInt32Congruent(31 * p + c, 31 * h + c);
    }
  }

  /** `hashSeed`: fold the string's UTF-16 code units into a signed 32-bit integer. */
  method HashSeed(str: string) returns (hash: I32)
    ensures hash == HashFold(CodeUnits(str))
  {
    var units := CodeUnits(str);
    hash := 0;
    var i := 0;
    while i < |units|
      invariant 0 <= i <= |units|
      invariant hash == HashFold(units[..i])
    {
      var unit := units[i];
      ShiftStepIsTimes31(hash, unit);
      var shifted := ToInt32(hash * 32);
      hash := ToInt32(shifted - hash + unit);
      assert units[..i + 1][..i] == units[..i];
      i := i + 1;
    }
    assert units[..i] == units;
  }

  /** The empty seed hashes to 0. */
  lemma EmptySeedHashesToZero()
    ensures HashFold(CodeUnits("")) == 0
  {
  }

  // ---------------------------------------------------------------------------
  // mulberry32
  // ---------------------------------------------------------------------------

  /** The constant added to the generator state on every call. */
  const Increment: bv32 := 0x6D2B79F5

  /**
   * The state after one call: `seed += 0x6D2B79F5`. The bitwise operations
   * that read the state see it modulo 2^32, so the state is a 32-bit word and
   * the addition wraps.
   */
  function Advance(state: bv32): bv32 {
    state + Increment
  }

  /** The state after `k` calls (none when `k` is not positive). */
  function AdvanceBy(state: bv32, k: int): bv32
    decreases k
  {
    if k <= 0 then state else AdvanceBy(Advance(state), k - 1)
  }

  /**
   * The output drawn from the advanced state: the word `(t ^ t >>> 14) >>> 0`.
   * `Math.imul` keeps the low 32 bits of the product and `t + Math.imul(...)`
   * is wrapped by the following `^=`, so the whole mix is 32-bit word arithmetic.
   */
  function Mix(state: bv32): bv32 {
    var t1 := (state ^ (state >> 15)) * (state | 1);
    var t2 := t1 ^ (t1 + (t1 ^ (t1 >> 7)) * (t1 | 61));
    t2 ^ (t2 >> 14)
  }

  /** The generator's return value, `u / 4294967296`, in exact arithmetic. */
  function Fraction(u: U32): (r: real)
    ensures 0.0 <= r < 1.0
  {
    u as real / 4294967296.0
  }

  /** The closure returned by `mulberry32`: its captured `seed` is the state. */
  class Mulberry32 {
    var state: bv32

    /** `mulberry32(seed)`: the captured counter starts at the seed's 32-bit pattern. */
    constructor (seed: I32)
      ensures state == ToUint32(seed) as bv32
    {
      state := ToUint32(seed) as bv32;
    }

    /** One call of the generator: advance the state, then mix the new state; the result is `u / 2^32` for the returned `u`. */
    method Next() returns (u: bv32)
      modifies this
      ensures state == Advance(old(state))
      ensures u == Mix(state)
    {
      state := Advance(state);
      u := Mix(state);
    }
  }

  // ---------------------------------------------------------------------------
  // createShuffler / shuffle
  // ---------------------------------------------------------------------------

  /** `Math.floor(rng() * (i + 1))` for the output `u / 2^32`: a position in [0, i]. */
  function SwapIndex(u: U32, i: nat): (j: nat)
    ensures j <= i
  {
    assert u * (i + 1) < TwoTo32 * (i + 1);
    (u * (i + 1)) / TwoTo32
  }

  /** The swap index is the floor of the real product the source computes. */
  lemma SwapIndexIsFloor(u: U32, i: nat)
    ensures (SwapIndex(u, i) as real) <= Fraction(u) * ((i + 1) as real)
    ensures Fraction(u) * ((i + 1) as real) < ((SwapIndex(u, i) + 1) as real)
  {
    var j, p := SwapIndex(u, i), u * (i + 1);
    assert j * TwoTo32 <= p < (j + 1) * TwoTo32;
    var m := TwoTo32 as real;
    assert Fraction(u) * ((i + 1) as real) == (p as real) / m;
    assert (j as real) * m <= p as real;
    assert (p as real) < ((j + 1) as real) * m;
  }

  /** Exchange the elements at `i` and `j`. */
  function Swap<T>(a: seq<T>, i: nat, j: nat): (r: seq<T>)
    requires i < |a| && j < |a|
    ensures |r| == |a|
  {
    a[i := a[j]][j := a[i]]
  }

  /** An exchange keeps the elements. */
  lemma SwapPermutes<T>(a: seq<T>, i: nat, j: nat)
    requires i < |a| && j < |a|
    ensures multiset(Swap(a, i, j)) == multiset(a)
  {
  }

  /** The values that `n` successive calls of the generator return, starting from `state` (none when `n` is not positive). */
  function Draws(state: bv32, n: int): (r: seq<bv32>)
    ensures |r| == if n < 0 then 0 else n
    decreases n
  {
    if n <= 0 then [] else [Mix(Advance(state))] + Draws(Advance(state), n - 1)
  }

  /** The `k`-th call (from 0) returns the mix of the state after `k + 1` advances: each output depends only on the new state. */
  lemma {:induction false} DrawIsMixOfAdvancedState(state: bv32, n: nat, k: nat)
    requires k < n
    ensures Draws(state, n)[k] == Mix(AdvanceBy(state, k + 1))
    decreases n
  {
    if k > 0 {
      DrawIsMixOfAdvancedState(Advance(state), n - 1, k - 1);
    }
  }

  /**
   * Backward Fisher–Yates from position `i` down to 1, the swap at position
   * `i` using the next unused draw. The shuffler is generic in its generator,
   * so the draws are a parameter.
   */
  function ShuffleWith<T>(a: seq<T>, i: int, draws: seq<bv32>): (r: seq<T>)
    requires i < |a|
    requires i <= |draws|
    ensures |r| == |a|
    decreases i
  {
    if i <= 0 then a
    else ShuffleWith(Swap(a, i, SwapIndex(draws[0] as int, i)), i - 1, draws[1..])
  }

  /** The shuffle is a permutation: a sequence of exchanges keeps the elements. */
  lemma {:induction false} ShuffleWithPermutes<T>(a: seq<T>, i: int, draws: seq<bv32>)
    requires i < |a|
    requires i <= |draws|
    ensures multiset(ShuffleWith(a, i, draws)) == multiset(a)
    decreases i
  {
    if i > 0 {
      var b := Swap(a, i, SwapIndex(draws[0] as int, i));
      SwapPermutes(a, i, SwapIndex(draws[0] as int, i));
      ShuffleWithPermutes(b, i - 1, draws[1..]);
    }
  }

  /** One step of the loop: the first draw decides the swap at `i`; the rest of the draws continue from `i - 1`. */
  lemma ShuffleStep<T>(a: seq<T>, i: int, draws: seq<bv32>)
    requires 0 < i < |a| && i <= |draws|
    ensures ShuffleWith(a, i, draws) == ShuffleWith(Swap(a, i, SwapIndex(draws[0] as int, i)), i - 1, draws[1..])
  {
  }

  /** The first of `n > 0` draws mixes the advanced state; the others are the draws from the advanced state. */
  lemma FirstDraw(state: bv32, n: nat)
    requires n > 0
    ensures Draws(state, n) == [Mix(Advance(state))] + Draws(Advance(state), n - 1)
    ensures AdvanceBy(state, n) == AdvanceBy(Advance(state), n - 1)
  {
  }

  /** The number of generator calls a shuffle of `n` elements makes: `max(n - 1, 0)`. */
  function DrawCount(n: nat): (r: nat)
    ensures r < n || n == 0
  {
    if n <= 1 then 0 else n - 1
  }

  /** The shuffle of the whole sequence with generator state `state`, and the state after it. */
  function Shuffled<T>(a: seq<T>, state: bv32): (r: (seq<T>, bv32))
    ensures |r.0| == |a| && multiset(r.0) == multiset(a)
    ensures |a| <= 1 ==> r == (a, state)
    ensures r.1 == AdvanceBy(state, DrawCount(|a|))
  {
    ShuffleWithPermutes(a, |a| - 1, Draws(state, |a| - 1));
    (ShuffleWith(a, |a| - 1, Draws(state, |a| - 1)), AdvanceBy(state, |a| - 1))
  }

  /** The exchange in one pass of the shuffle loop: position `i` with the position drawn from `u`. */
  method SwapAt<T>(a: array<T>, i: int, u: bv32)
    requires 0 < i < a.Length
    modifies a
    ensures a[..] == Swap(old(a[..]), i, SwapIndex(u as int, i))
  {
    var j := SwapIndex(u as int, i);
    a[i], a[j] := a[j], a[i];
  }

  /** One pass of the shuffle loop: what is left to do from `i - 1` afterwards is what was left from `i` before. */
  method ShuffleRound<T>(rng: Mulberry32, a: array<T>, i: int)
    requires 0 < i < a.Length
    modifies rng, a
    ensures ShuffleWith(a[..], i - 1, Draws(rng.state, i - 1)) == ShuffleWith(old(a[..]), i, Draws(old(rng.state), i))
    ensures AdvanceBy(rng.state, i - 1) == AdvanceBy(old(rng.state), i)
  {
    ShuffleStep(a[..], i, Draws(rng.state, i));
    FirstDraw(rng.state, i);
    var u := rng.Next();
    SwapAt(a, i, u);
  }

  /**
   * `shuffle(array)`: copy the input, then for i from n - 1 down to 1 swap
   * position i with a drawn position in [0, i]. The input is a value and so
   * is left unchanged; the generator advances once per swap.
   */
  method Shuffle<T>(rng: Mulberry32, input: seq<T>) returns (result: seq<T>)
    modifies rng
    ensures (result, rng.state) == Shuffled(input, old(rng.state))
  {
    ghost var goal := Shuffled(input, rng.state);
    var a := new T[|input|](k requires 0 <= k < |input| => input[k]);
    var i := a.Length - 1;
    assert a[..] == input;
    while i > 0
      invariant -1 <= i < a.Length
      invariant ShuffleWith(a[..], i, Draws(rng.state, i)) == goal.0
      invariant AdvanceBy(rng.state, i) == goal.1
    {
      ShuffleRound(rng, a, i);
      i := i - 1;
    }
    result := a[..];
  }
}
