/** Helpers shared by the fitness, swarm and genetic-algorithm models. */
module Common {

  /** The result of a computation that may raise: `None` stands for the
      exception the Python code would propagate. */
  datatype Option<+T> = None | Some(value: T)

  /** Index of the first minimum of a non-empty list of fitness values:
      Python's `values.index(min(values))`. */
  function ArgMin(values: seq<real>): (k: nat)
    requires |values| > 0
    ensures k < |values|
  {
    ArgMinPrefix(values, |values|)
  }

  /** Index of the first minimum among the first `n` values. */
  function ArgMinPrefix(values: seq<real>, n: nat): (k: nat)
    requires 0 < n <= |values|
    ensures k < n
  {
    if n == 1 then 0
    else
      var k := ArgMinPrefix(values, n - 1);
      if values[n - 1] < values[k] then n - 1 else k
  }

  /** The index found among the first `n` values holds a least one of them,
      and every value before it is strictly larger. */
  lemma {:induction false} ArgMinPrefixIsFirstMin(values: seq<real>, n: nat)
    requires 0 < n <= |values|
    ensures var k := ArgMinPrefix(values, n);
            (forall j :: 0 <= j < n ==> values[k] <= values[j])
            && (forall j :: 0 <= j < k ==> values[k] < values[j])
  {
    if n > 1 {
      ArgMinPrefixIsFirstMin(values, n - 1);
    }
  }

  /** `ArgMin` is the first index of a least value. */
  lemma ArgMinIsFirstMin(values: seq<real>)
    requires |values| > 0
    ensures var k := ArgMin(values);
            (forall j :: 0 <= j < |values| ==> values[k] <= values[j])
            && (forall j :: 0 <= j < k ==> values[k] < values[j])
  {
    ArgMinPrefixIsFirstMin(values, |values|);
  }

  /** The values Python's `random.uniform(a, b)` can return: `a + (b - a) * random()`
      lies between the two bounds, whichever of them is larger. */
  predicate InUniformRange(x: real, a: real, b: real)
  {
    if a <= b then a <= x <= b else b <= x <= a
  }

  /** `np.zeros(n)` */
  function Zeros(n: nat): (r: seq<real>)
    ensures |r| == n
  {
    seq(n, _ => 0.0)
  }
}
