/** Named values: sums of maps and the largest value of one, as the agent and the hub both compute them in loops. */
module Series {

  type Series = map<string, real>

  function Get(m: Series, k: string): real {
    if k in m then m[k] else 0.0
  }

  function Added(m: Series, n: Series): Series {
    map k | k in m.Keys + n.Keys :: Get(m, k) + Get(n, k)
  }

  lemma AddedAt(x: Series, y: Series, k: string)
    ensures Get(Added(x, y), k) == Get(x, k) + Get(y, k)
  {
  }

  ghost predicate IsLargest(ms: Series, floor: real, m: real) {
    floor <= m && (forall k <- ms :: ms[k] <= m) && (m == floor || exists k <- ms :: ms[k] == m)
  }

  lemma LargestExists(ms: Series, floor: real)
    ensures exists m :: IsLargest(ms, floor, m)
    decreases |ms|
  {
    if ms == map[] {
      assert IsLargest(ms, floor, floor);
    } else {
      var k :| k in ms;
      var rest := ms - {k};
      LargestExists(rest, floor);
      var m :| IsLargest(rest, floor, m);
      assert forall j <- ms :: j == k || (j in rest && rest[j] == ms[j]);
      assert IsLargest(ms, floor, if ms[k] <= m then m else ms[k]);
    }
  }

  /** The largest value does not depend on the order in which the map is visited. */
  lemma LargestUnique(ms: Series, floor: real, m: real, n: real)
    requires IsLargest(ms, floor, m) && IsLargest(ms, floor, n)
    ensures m == n
  {
  }

  /** The largest value of a map, and at least the floor. */
  ghost function Largest(ms: Series, floor: real): (m: real)
    ensures IsLargest(ms, floor, m)
  {
    LargestExists(ms, floor);
    var m :| IsLargest(ms, floor, m);
    m
  }

  lemma LargestOneMore(ms: Series, floor: real, m: real, k: string, v: real)
    requires IsLargest(ms, floor, m) && k !in ms
    ensures IsLargest(ms[k := v], floor, if m < v then v else m)
  {
    var ns, n := ms[k := v], if m < v then v else m;
    if n == v {
      assert ns[k] == n;
    } else if m != floor {
      var j :| j in ms && ms[j] == m;
      assert ns[j] == n;
    }
  }

  /** `sums[name] += value` for each name and value. */
  method AddAll(totals: Series, values: Series) returns (sums: Series)
    ensures sums == Added(totals, values)
  {
    sums := totals;
    var rest := values.Keys;
    while rest != {}
      invariant rest <= values.Keys
      invariant sums == Added(totals, values - rest)
    {
      var k :| k in rest;
      ghost var done := values - rest;
      sums := sums[k := Get(sums, k) + values[k]];
      rest := rest - {k};
      assert values - rest == done[k := values[k]];
    }
    assert values - {} == values;
  }

  /** The largest value, found by visiting the map in any order. */
  method FindLargest(values: Series, floor: real) returns (most: real)
    ensures most == Largest(values, floor)
  {
    most := floor;
    var rest := values.Keys;
    while rest != {}
      invariant rest <= values.Keys
      invariant IsLargest(values - rest, floor, most)
    {
      var k :| k in rest;
      LargestOneMore(values - rest, floor, most, k, values[k]);
      assert values - (rest - {k}) == (values - rest)[k := values[k]];
      if values[k] > most {
        most := values[k];
      }
      rest := rest - {k};
    }
    assert values - {} == values;
    LargestUnique(values, floor, most, Largest(values, floor));
  }
}
