/** Probability mass held by a finite map: the sum of its values, and the
    facts about that sum that the odds engine relies on. */
module Mass {

  /** The sum of all values of `m`. */
  ghost function Total<K>(m: map<K, real>): real
    decreases |m.Keys|
  {
    if m.Keys == {} then 0.0
    else
      var k :| k in m.Keys;
      m[k] + Total(m - {k})
  }

  /** Any key may be taken out first: the sum does not depend on the order. */
  lemma {:induction false} TotalRemove<K>(m: map<K, real>, k: K)
    requires k in m
    ensures Total(m) == m[k] + Total(m - {k})
    decreases |m.Keys|
  {
    var j :| j in m.Keys && Total(m) == m[j] + Total(m - {j});
    if j != k {
      var mj, mk, both := m - {j}, m - {k}, m - {j, k};
      assert |mj.Keys| < |m.Keys| by { assert mj.Keys < m.Keys; }
      assert |mk.Keys| < |m.Keys| by { assert mk.Keys < m.Keys; }
      assert mj - {k} == both && mk - {j} == both;
      TotalRemove(mj, k);
      TotalRemove(mk, j);
    }
  }

  /** Adding a fresh key adds its value. */
  lemma TotalAdd<K>(m: map<K, real>, k: K, v: real)
    requires k !in m
    ensures Total(m[k := v]) == Total(m) + v
  {
    TotalRemove(m[k := v], k);
    assert m[k := v] - {k} == m;
  }

  /** Replacing the value of a present key changes the sum by the difference. */
  lemma TotalUpdate<K>(m: map<K, real>, k: K, v: real)
    requires k in m
    ensures Total(m[k := v]) == Total(m) - m[k] + v
  {
    TotalRemove(m[k := v], k);
    TotalRemove(m, k);
    assert m[k := v] - {k} == m - {k};
  }

  /** Adds v to the value of k, a missing key counting as 0. */
  function Accumulate<K>(m: map<K, real>, k: K, v: real): map<K, real>
  {
    m[k := (if k in m then m[k] else 0.0) + v]
  }

  /** Accumulating v under one key adds v to the sum. */
  lemma TotalAccumulate<K>(m: map<K, real>, k: K, v: real)
    ensures Total(Accumulate(m, k, v)) == Total(m) + v
  {
    if k in m { TotalUpdate(m, k, m[k] + v); } else { TotalAdd(m, k, v); }
  }

  /** A map of non-negative values has a non-negative sum. */
  lemma {:induction false} TotalNonNegative<K>(m: map<K, real>)
    requires forall k :: k in m ==> m[k] >= 0.0
    ensures Total(m) >= 0.0
    decreases |m.Keys|
  {
    if m.Keys != {} {
      var k :| k in m;
      TotalRemove(m, k);
      assert (m - {k}).Keys < m.Keys;
      TotalNonNegative(m - {k});
    }
  }

  /** A non-empty map of positive values has a positive sum. */
  lemma TotalPositive<K>(m: map<K, real>)
    requires m.Keys != {}
    requires forall k :: k in m ==> m[k] > 0.0
    ensures Total(m) > 0.0
  {
    var k :| k in m;
    TotalRemove(m, k);
    TotalNonNegative(m - {k});
  }

  /** Dropping entries of non-negative value never increases the sum. */
  lemma {:induction false} TotalSubMap<K>(sub: map<K, real>, m: map<K, real>)
    requires forall k :: k in sub ==> k in m && sub[k] == m[k]
    requires forall k :: k in m ==> m[k] >= 0.0
    ensures Total(sub) <= Total(m)
    decreases |m.Keys|
  {
    if m.Keys == {} {
      assert sub.Keys == {};
    } else {
      var k :| k in m;
      TotalRemove(m, k);
      assert (m - {k}).Keys < m.Keys;
      if k in sub {
        TotalRemove(sub, k);
        TotalSubMap(sub - {k}, m - {k});
      } else {
        assert sub == sub - {k};
        TotalSubMap(sub, m - {k});
      }
    }
  }

  /** Some element of a non-empty set, for definitions. */
  ghost function AnyOf<K>(s: set<K>): (k: K)
    requires s != {}
    ensures k in s
  {
    var k :| k in s; k
  }

  /** Some element of a non-empty set: how a loop over a dictionary takes its
      next key. */
  method Pick<K>(s: set<K>) returns (k: K)
    requires s != {}
    ensures k in s
  {
    k :| k in s;
  }

  /** The part of `m` whose keys lie outside `rest`: what a loop that has
      still to visit `rest` has already seen. */
  function Seen<K>(m: map<K, real>, rest: set<K>): (r: map<K, real>)
    ensures r.Keys == m.Keys - rest
    ensures forall k :: k in r ==> r[k] == m[k]
  {
    map k | k in m && k !in rest :: m[k]
  }

  /** Visiting one more key of `m` adds its value to what has been seen. */
  lemma TotalSeenStep<K>(m: map<K, real>, rest: set<K>, k: K)
    requires k in rest && k in m
    ensures Total(Seen(m, rest - {k})) == Total(Seen(m, rest)) + m[k]
  {
    assert Seen(m, rest - {k}) == Seen(m, rest)[k := m[k]];
    TotalAdd(Seen(m, rest), k, m[k]);
  }

  /** The part of `m` whose keys lie in `s`. */
  function Restrict<K>(m: map<K, real>, s: set<K>): (r: map<K, real>)
    ensures r.Keys == m.Keys * s
    ensures forall k :: k in r ==> r[k] == m[k]
  {
    map k | k in m && k in s :: m[k]
  }

  /** The mass of `m` is the mass inside `s` plus the mass outside it. */
  lemma {:induction false} TotalSplit<K>(m: map<K, real>, s: set<K>)
    ensures Total(m) == Total(Restrict(m, s)) + Total(m - s)
    decreases |m.Keys|
  {
    if m.Keys == {} {
      assert Restrict(m, s) == map[];
      assert (m - s).Keys == {};
    } else {
      var k :| k in m;
      var m' := m - {k};
      assert m'.Keys < m.Keys;
      TotalRemove(m, k);
      TotalSplit(m', s);
      if k in s {
        SplitInside(m, s, k);
      } else {
        SplitOutside(m, s, k);
      }
    }
  }

  lemma SplitInside<K>(m: map<K, real>, s: set<K>, k: K)
    requires k in m && k in s
    ensures Total(Restrict(m, s)) == Total(Restrict(m - {k}, s)) + m[k]
    ensures m - s == (m - {k}) - s
  {
    assert Restrict(m, s) == Restrict(m - {k}, s)[k := m[k]];
    TotalAdd(Restrict(m - {k}, s), k, m[k]);
  }

  lemma SplitOutside<K>(m: map<K, real>, s: set<K>, k: K)
    requires k in m && k !in s
    ensures Total(m - s) == Total((m - {k}) - s) + m[k]
    ensures Restrict(m, s) == Restrict(m - {k}, s)
  {
    assert m - s == ((m - {k}) - s)[k := m[k]];
    TotalAdd((m - {k}) - s, k, m[k]);
  }
}
