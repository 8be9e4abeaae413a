/** The sum of the values of a weights map, shared by the server-side
    validator (`sum(self.weights.values())`) and the editor's save check
    (`Object.values(currentWeights).reduce((a, b) => a + b, 0)`). The sum
    is defined by picking keys one at a time; `SumValuesRemove` shows the
    pick does not matter, and `Total` computes it with a loop. */
module WeightSum {

  /** Some key of a non-empty map. */
  ghost function Pick(m: map<string, int>): string
    requires m != map[]
  {
    var k :| k in m; k
  }

  /** The sum of the values of `m`. */
  ghost function SumValues(m: map<string, int>): int
    decreases |m.Keys|
  {
    if m == map[] then 0
    else
      var k := Pick(m);
      assert |(m - {k}).Keys| < |m.Keys| by { assert (m - {k}).Keys == m.Keys - {k}; }
      m[k] + SumValues(m - {k})
  }

  lemma RemoveShrinks(m: map<string, int>, k: string)
    requires k in m
    ensures |(m - {k}).Keys| == |m.Keys| - 1
  {
    assert (m - {k}).Keys == m.Keys - {k};
  }

  /** Any key can be taken out first: the sum does not depend on the order
      in which keys are visited. */
  lemma {:induction false} SumValuesRemove(m: map<string, int>, k: string)
    requires k in m
    ensures SumValues(m) == m[k] + SumValues(m - {k})
    decreases |m.Keys|
  {
    var j := Pick(m);
    if j != k {
      RemoveShrinks(m, j);
      RemoveShrinks(m, k);
      SumValuesRemove(m - {j}, k);
      SumValuesRemove(m - {k}, j);
      assert m - {j} - {k} == m - {k} - {j};
    }
  }

  /** Setting one key changes the sum by the difference of the values. */
  lemma SumValuesUpdate(m: map<string, int>, k: string, v: int)
    ensures SumValues(m[k := v]) == SumValues(m) - (if k in m then m[k] else 0) + v
  {
    SumValuesRemove(m[k := v], k);
    if k in m {
      SumValuesRemove(m, k);
      assert m[k := v] - {k} == m - {k};
    } else {
      assert m[k := v] - {k} == m;
    }
  }

  /** The sum, computed by visiting the keys one at a time. */
  method Total(m: map<string, int>) returns (total: int)
    ensures total == SumValues(m)
  {
    total := 0;
    var rest := m;
    while rest != map[]
      invariant total + SumValues(rest) == SumValues(m)
      decreases |rest.Keys|
    {
      var k :| k in rest;
      SumValuesRemove(rest, k);
      RemoveShrinks(rest, k);
      total := total + rest[k];
      rest := rest - {k};
    }
  }
}
