/** The result picker of src/App.js: `randomChoice` draws one element of a
    non-empty array at `Math.floor(Math.random() * arr.length)`.
    The random source is a parameter: `r` is the value `Math.random()`
    returned, a number in [0, 1). */
module Picker {

  /** A value `Math.random()` may return. */
  predicate IsDraw(r: real) {
    0.0 <= r < 1.0
  }

  /** The index `Math.floor(r * len)` that `randomChoice` reads. */
  function RandomIndex(r: real, len: nat): (i: nat)
    requires IsDraw(r)
    requires len > 0
    ensures i < len
  {
    assert r * len as real < 1.0 * len as real;
    (r * len as real).Floor
  }

  /** `randomChoice(arr)`: the element of `arr` at the drawn index. */
  function RandomChoice<T>(arr: seq<T>, r: real): (x: T)
    requires IsDraw(r)
    requires |arr| > 0
    ensures x in arr
  {
    arr[RandomIndex(r, |arr|)]
  }

  /** Every index gets the same share of the draws: index `i` is chosen
      exactly when the draw falls in [i/len, (i+1)/len), an interval of
      width 1/len. */
  lemma RandomIndexUniform(r: real, len: nat, i: nat)
    requires IsDraw(r)
    requires len > 0
    ensures RandomIndex(r, len) == i <==>
              i as real / len as real <= r < (i + 1) as real / len as real
  {
  }

  /** No element is out of reach: the draw k/len picks `arr[k]`. */
  lemma RandomChoiceReaches<T>(arr: seq<T>, k: nat)
    requires k < |arr|
    ensures IsDraw(k as real / |arr| as real)
    ensures RandomChoice(arr, k as real / |arr| as real) == arr[k]
  {
    RandomIndexUniform(k as real / |arr| as real, |arr|, k);
  }
}
