/**
 * Random draws. The program calls numpy's generator; the model receives the
 * draws as an oracle and maps each one into the range the call asks for, so a
 * property proved for every oracle holds whatever numbers the generator yields.
 */
module Draws {

  /** The draw for row `i` of the column `c` a call fills, as an arbitrary natural. */
  type Oracle = (string, nat) -> nat

  /** numpy's doubles in [0, 1) are multiples of 2^-53. */
  const Grain: nat := 9007199254740992

  /** `np.random.randint(lo, hi)`: an integer in lo..hi-1. */
  function RandInt(lo: int, hi: int, d: nat): (r: int)
    requires lo < hi
    ensures lo <= r < hi
  {
    lo + d % (hi - lo)
  }

  /** Every value of the range is some draw's image, so the bounds are exact. */
  lemma RandIntCovers(lo: int, hi: int, v: int)
    requires lo <= v < hi
    ensures RandInt(lo, hi, v - lo) == v
  {
    ModBelow(v - lo, hi - lo);
  }

  /** A draw below the range size maps to itself. */
  lemma ModBelow(k: nat, n: nat)
    requires k < n
    ensures k % n == k
  {
    var q := k / n;
    assert n * q + k % n == k;
  }

  /** `np.random.choice(options)`: one of the options. */
  function Choice<T>(options: seq<T>, d: nat): (r: T)
    requires |options| > 0
    ensures r in options
  {
    options[d % |options|]
  }

  /** Every option is some draw's image. */
  lemma ChoiceCovers<T>(options: seq<T>, k: nat)
    requires k < |options|
    ensures Choice(options, k) == options[k]
  {
    ModBelow(k, |options|);
  }

  /** `np.random.random()`: a multiple of 2^-53 in [0, 1). */
  function UnitSample(d: nat): (u: real)
    ensures 0.0 <= u < 1.0
  {
    var k := d % Grain;
    UnitBelowOne(k);
    k as real / Grain as real
  }

  lemma UnitBelowOne(k: nat)
    requires k < Grain
    ensures 0.0 <= k as real / Grain as real < 1.0
  {
    var g := Grain as real;
    assert k as real < g;
    assert (k as real / g) * g == k as real;
  }

  /** `np.random.uniform(lo, hi)`, read as exact arithmetic on the generator's 53-bit grid. */
  function Uniform(lo: real, hi: real, d: nat): (r: real)
    requires lo < hi
    ensures lo <= r < hi
  {
    var u := UnitSample(d);
    var w := hi - lo;
    ScaleBelow(lo, hi, u, w);
    lo + w * u
  }

  lemma ScaleBelow(lo: real, hi: real, u: real, w: real)
    requires lo < hi && 0.0 <= u < 1.0
    requires w == hi - lo
    ensures lo <= lo + w * u
    ensures lo + w * u < hi
  {
    var v := 1.0 - u;
    assert w * v > 0.0;
    assert w * u + w * v == w;
  }
}
