/** calculate_campaign: invasions chained over a list of target territories.

    A running distribution over the attacker counts standing in the current
    territory is carried from one target to the next. At each target, mass
    at exactly the retreat threshold cannot attack and fails at once; every
    other count leaves one unit behind as a garrison and invades; conquests
    (no defender left) carry their attacker count forward, and failures are
    recorded with the garrison unit counted back in. */
module Campaign {
  import opened Mass
  import opened Invasion

  /** The failure distribution of every territory, in order, and the
      distribution of attacker counts after the last conquest. */
  datatype CampaignResult = CampaignResult(failures: seq<map<Key, real>>, survivors: map<int, real>)

  /** The mass of a sequence of failure distributions. */
  ghost function FailureMass(fs: seq<map<Key, real>>): real
  {
    if fs == [] then 0.0 else FailureMass(fs[..|fs| - 1]) + Total(fs[|fs| - 1])
  }

  /** All the mass a campaign result holds. */
  ghost function CampaignMass(r: CampaignResult): real
  {
    FailureMass(r.failures) + Total(r.survivors)
  }

  /** A failure at a territory with `defenders` defenders: the attackers are
      back at the retreat threshold, or one above it once the garrison unit
      is counted back; mass is positive. */
  ghost predicate FailureShape(f: map<Key, real>, aMin: int, defenders: int)
  {
    forall k :: k in f ==> (k.0 == aMin || k.0 == aMin + 1) && 0 <= k.1 <= defenders && f[k] > 0.0
  }

  // ---- what one territory and the whole campaign compute ----

  /** Every attacker count one lower: the garrison unit left behind. */
  ghost function Decremented(m: map<int, real>): map<int, real>
    decreases |m.Keys|
  {
    if m.Keys == {} then map[]
    else
      var a := AnyOf(m.Keys);
      Decremented(m - {a})[a - 1 := m[a]]
  }

  /** The mass that cannot attack: all of it at exactly the retreat threshold. */
  ghost function Stranded(odds: map<int, real>, defenders: int, aMin: int): map<Key, real>
  {
    if aMin in odds && odds[aMin] != 0.0 then map[(aMin, defenders) := odds[aMin]] else map[]
  }

  /** The counts that go on to attack. */
  ghost function Remaining(odds: map<int, real>, aMin: int): map<int, real>
  {
    if aMin in odds && odds[aMin] != 0.0 then odds - {aMin} else odds
  }

  /** The conquests of an invasion, by attacker count. */
  ghost function Conquests(results: map<Key, real>): map<int, real>
    decreases |results.Keys|
  {
    if results.Keys == {} then map[]
    else
      var k := AnyOf(results.Keys);
      var rest := Conquests(results - {k});
      if k.1 == 0 then rest[k.0 := results[k]] else rest
  }

  /** The failures of a territory: the earlier ones, plus every outcome with
      defenders left, under its attacker count plus the garrison unit. */
  ghost function Failures(results: map<Key, real>, failure: map<Key, real>): map<Key, real>
    decreases |results.Keys|
  {
    if results.Keys == {} then failure
    else
      var r := AnyOf(results.Keys);
      var rest := Failures(results - {r}, failure);
      if r.1 != 0 then Accumulate(rest, (r.0 + 1, r.1), results[r]) else rest
  }

  /** One territory with `defenders` defenders, from the distribution `odds`
      of attacker counts in the territory before it: its failures, and the
      distribution carried into it after a conquest. */
  ghost function Territory(odds: map<int, real>, defenders: int, aMin: int): (map<Key, real>, map<int, real>)
    requires 0 <= aMin && 0 <= defenders
  {
    var results := InvasionOutcomes(Odds(Decremented(Remaining(odds, aMin))), defenders, aMin, 0);
    (Failures(results, Stranded(odds, defenders, aMin)), Conquests(results))
  }

  /** The campaign through the targets in order, from the distribution `odds`. */
  ghost function CampaignFrom(odds: map<int, real>, targets: seq<int>, aMin: int): CampaignResult
    requires 0 <= aMin && forall i :: 0 <= i < |targets| ==> targets[i] >= 0
    decreases |targets|
  {
    if targets == [] then CampaignResult([], odds)
    else
      var r := CampaignFrom(odds, targets[..|targets| - 1], aMin);
      var t := Territory(r.survivors, targets[|targets| - 1], aMin);
      CampaignResult(r.failures + [t.0], t.1)
  }

  /** Leaves one unit behind: every attacker count drops by one, its mass unchanged. */
  method Decrement(m: map<int, real>) returns (r: map<int, real>)
    ensures r == Decremented(m)
    ensures Total(r) == Total(m)
  {
    var rest := m.Keys;
    r := map[];
    assert Seen(m, rest) == map[];
    while rest != {}
      invariant rest <= m.Keys
      invariant forall a :: a in r <==> a + 1 in m && a + 1 !in rest
      invariant forall a :: a in r ==> r[a] == m[a + 1]
      invariant Total(r) == Total(Seen(m, rest))
      decreases rest
    {
      var a := Pick(rest);
      assert a - 1 !in r by { assert (a - 1) + 1 == a; }
      TotalAdd(r, a - 1, m[a]);
      TotalSeenStep(m, rest, a);
      r := r[a - 1 := m[a]];
      rest := rest - {a};
    }
    assert Seen(m, rest) == m;
    IsDecremented(m, r);
  }

  /** Count a is in the decremented distribution exactly when a + 1 was in
      the original one, with the same mass. */
  lemma {:induction false} DecrementedAt(m: map<int, real>)
    ensures forall a :: a in Decremented(m) ==> a + 1 in m
    ensures forall c :: c in m ==> c - 1 in Decremented(m) && Decremented(m)[c - 1] == m[c]
    decreases |m.Keys|
  {
    if m.Keys != {} {
      var a := AnyOf(m.Keys);
      var rest := m - {a};
      assert |rest.Keys| < |m.Keys| by { assert rest.Keys < m.Keys; }
      assert Decremented(m) == Decremented(rest)[a - 1 := m[a]];
      DecrementedAt(rest);
      forall c | c in m ensures c - 1 in Decremented(m) && Decremented(m)[c - 1] == m[c] {
        if c != a { assert c in rest; }
      }
    }
  }

  lemma IsDecremented(m: map<int, real>, r: map<int, real>)
    requires forall a :: a in r <==> a + 1 in m
    requires forall a :: a in r ==> r[a] == m[a + 1]
    ensures r == Decremented(m)
  {
    DecrementedAt(m);
    forall a ensures a in r <==> a in Decremented(m) {
      if a in r || a in Decremented(m) {
        var c := a + 1;
        assert c in m && c - 1 == a;
      }
    }
    forall a | a in r ensures r[a] == Decremented(m)[a] {
      var c := a + 1;
      assert c in m && c - 1 == a;
    }
  }

  /** The invasion outcome that a failure key k stands for: its attacker
      count without the garrison unit. */
  function Restored(k: Key): Key
  {
    (k.0 - 1, k.1)
  }

  /** Failure key k is fed by an outcome of `results` that is not in `rest`
      and is not a conquest. */
  ghost predicate Feeds(results: map<Key, real>, rest: set<Key>, k: Key)
  {
    k.1 != 0 && Restored(k) in results && Restored(k) !in rest
  }

  ghost function Fed(results: map<Key, real>, rest: set<Key>, k: Key): real
  {
    if Feeds(results, rest, k) then results[Restored(k)] else 0.0
  }

  ghost function Prior(failure: map<Key, real>, k: Key): real
  {
    if k in failure then failure[k] else 0.0
  }

  /** The state of the partition loop once every outcome not in `rest` has
      been placed. */
  ghost predicate Placed(results: map<Key, real>, failure: map<Key, real>, rest: set<Key>,
                         failure': map<Key, real>, carried: map<int, real>)
  {
    && (forall a :: a in carried <==> (a, 0) in results && (a, 0) !in rest)
    && (forall a :: a in carried ==> carried[a] == results[(a, 0)])
    && (forall k :: k in failure' <==> k in failure || Feeds(results, rest, k))
    && (forall k :: k in failure' ==> failure'[k] == Prior(failure, k) + Fed(results, rest, k))
  }

  /** The mass bookkeeping of the partition loop. */
  ghost predicate Balanced(results: map<Key, real>, failure: map<Key, real>, rest: set<Key>,
                           failure': map<Key, real>, carried: map<int, real>)
  {
    Total(failure') + Total(carried) == Total(failure) + Total(Seen(results, rest))
  }

  lemma PlaceConquest(results: map<Key, real>, failure: map<Key, real>, rest: set<Key>,
                      failure': map<Key, real>, carried: map<int, real>, result: Key)
    requires result in rest && result in results && result.1 == 0
    requires Placed(results, failure, rest, failure', carried)
    requires Balanced(results, failure, rest, failure', carried)
    ensures Placed(results, failure, rest - {result}, failure', carried[result.0 := results[result]])
    ensures Balanced(results, failure, rest - {result}, failure', carried[result.0 := results[result]])
  {
    TotalSeenStep(results, rest, result);
    TotalAdd(carried, result.0, results[result]);
    var a := result.0;
    assert result == (a, 0);
    var carried' := carried[a := results[result]];
    var rest' := rest - {result};
    forall b ensures b in carried' <==> (b, 0) in results && (b, 0) !in rest' {
      if b != a { assert (b, 0) != result; }
    }
    forall k ensures Feeds(results, rest, k) == Feeds(results, rest', k) {
      if Restored(k) == result { assert k.1 == 0; }
    }
    assert Placed(results, failure, rest', failure', carried');
  }

  lemma PlaceFailure(results: map<Key, real>, failure: map<Key, real>, rest: set<Key>,
                     failure': map<Key, real>, carried: map<int, real>, result: Key)
    requires result in rest && result in results && result.1 != 0
    requires Placed(results, failure, rest, failure', carried)
    requires Balanced(results, failure, rest, failure', carried)
    ensures Placed(results, failure, rest - {result}, Accumulate(failure', (result.0 + 1, result.1), results[result]), carried)
    ensures Balanced(results, failure, rest - {result}, Accumulate(failure', (result.0 + 1, result.1), results[result]), carried)
  {
    var key := (result.0 + 1, result.1);
    PlaceFailureShape(results, failure, rest, failure', carried, result);
    TotalSeenStep(results, rest, result);
    TotalAccumulate(failure', key, results[result]);
  }

  lemma PlaceFailureShape(results: map<Key, real>, failure: map<Key, real>, rest: set<Key>,
                          failure': map<Key, real>, carried: map<int, real>, result: Key)
    requires result in rest && result in results && result.1 != 0
    requires Placed(results, failure, rest, failure', carried)
    ensures Placed(results, failure, rest - {result}, Accumulate(failure', (result.0 + 1, result.1), results[result]), carried)
  {
    var key := (result.0 + 1, result.1);
    assert Restored(key) == result;
    forall k | k != key ensures Feeds(results, rest, k) == Feeds(results, rest - {result}, k) {
      assert Restored(k) != result;
    }
  }

  /** Once every outcome is placed, Placed says what Partition promises. */
  lemma PlacedAll(results: map<Key, real>, failure: map<Key, real>,
                  failure': map<Key, real>, carried: map<int, real>)
    requires Placed(results, failure, {}, failure', carried)
    ensures forall a :: a in carried <==> (a, 0) in results
    ensures forall k :: k in failure' <==> k in failure || (k.1 != 0 && Restored(k) in results)
    ensures forall k :: k in failure' ==>
      failure'[k] == (if k in failure then failure[k] else 0.0)
                   + (if k.1 != 0 && Restored(k) in results then results[Restored(k)] else 0.0)
  {
    forall k ensures Feeds(results, {}, k) == (k.1 != 0 && Restored(k) in results) {
      assert Restored(k) == (k.0 - 1, k.1);
    }
  }

  /** Places one outcome of the invasion: a conquest goes forward under its
      attacker count, anything else is a failure with the garrison unit
      given back. */
  method PlaceOutcome(results: map<Key, real>, ghost failure: map<Key, real>, ghost rest: set<Key>,
                      failure': map<Key, real>, carried: map<int, real>, result: Key)
    returns (failure'': map<Key, real>, carried': map<int, real>)
    requires result in rest && result in results
    requires Placed(results, failure, rest, failure', carried)
    requires Balanced(results, failure, rest, failure', carried)
    ensures Placed(results, failure, rest - {result}, failure'', carried')
    ensures Balanced(results, failure, rest - {result}, failure'', carried')
  {
    var probability := results[result];
    var a, d := result.0, result.1;
    if d == 0 {
      failure'', carried' := failure', carried[a := probability];
      PlaceConquest(results, failure, rest, failure', carried, result);
    } else {
      failure'', carried' := Accumulate(failure', (a + 1, d), probability), carried;
      PlaceFailure(results, failure, rest, failure', carried, result);
    }
  }

  /** Splits the outcomes of one invasion: a conquest (no defender left)
      keeps its attacker count and goes forward; a failure is added to the
      territory's failures under its attacker count plus the garrison unit. */
  method Partition(results: map<Key, real>, failure: map<Key, real>)
    returns (failure': map<Key, real>, carried: map<int, real>)
    ensures failure' == Failures(results, failure) && carried == Conquests(results)
    ensures Total(failure') + Total(carried) == Total(failure) + Total(results)
  {
    var rest := results.Keys;
    failure' := failure;
    carried := map[];
    assert Seen(results, rest) == map[];
    while rest != {}
      invariant rest <= results.Keys
      invariant Placed(results, failure, rest, failure', carried)
      invariant Balanced(results, failure, rest, failure', carried)
      decreases rest
    {
      var result := Pick(rest);
      failure', carried := PlaceOutcome(results, failure, rest, failure', carried, result);
      rest := rest - {result};
    }
    assert Seen(results, rest) == results;
    PlacedAll(results, failure, failure', carried);
    IsFailures(results, failure, failure');
    IsConquests(results, carried);
  }

  /** Count a is a conquest exactly when (a, 0) is an outcome, with that
      outcome's mass. */
  lemma {:induction false} ConquestsAt(results: map<Key, real>)
    ensures forall a :: a in Conquests(results) <==> (a, 0) in results
    ensures forall a :: a in Conquests(results) ==> Conquests(results)[a] == results[(a, 0)]
    decreases |results.Keys|
  {
    if results.Keys != {} {
      var k := AnyOf(results.Keys);
      var rest := results - {k};
      assert |rest.Keys| < |results.Keys| by { assert rest.Keys < results.Keys; }
      ConquestsAt(rest);
      forall a ensures a in Conquests(results) <==> (a, 0) in results {
        if k == (a, 0) { assert k.0 == a; }
      }
    }
  }

  /** Key k is a failure exactly when it was one already, or it has
      defenders and (k.0 - 1, k.1) is an outcome; its mass is the sum of the
      two. */
  lemma {:induction false} FailuresAt(results: map<Key, real>, failure: map<Key, real>)
    ensures FailuresOf(results, failure, Failures(results, failure))
    decreases |results.Keys|
  {
    if results.Keys != {} {
      var r := AnyOf(results.Keys);
      var rest := results - {r};
      assert |rest.Keys| < |results.Keys| by { assert rest.Keys < results.Keys; }
      FailuresAt(rest, failure);
      FailuresStep(results, failure, r, Failures(rest, failure));
    }
  }

  /** What FailuresAt states of f, key by key: (a, d) is a failure exactly
      when it was one already or (a - 1, d) is an outcome with defenders
      left, and its mass is the sum of the two. */
  ghost predicate FailuresOf(results: map<Key, real>, failure: map<Key, real>, f: map<Key, real>)
  {
    && (forall a, d {:trigger (a, d) in f} :: (a, d) in f ==> (a, d) in failure || (d != 0 && (a - 1, d) in results))
    && (forall a, d {:trigger (a, d) in failure} :: (a, d) in failure ==> (a, d) in f)
    && (forall a, d {:trigger (a, d) in results} :: (a, d) in results && d != 0 ==> (a + 1, d) in f)
    && (forall a, d {:trigger f[(a, d)]} :: (a, d) in f ==>
          f[(a, d)] == Prior(failure, (a, d)) + (if d != 0 && (a - 1, d) in results then results[(a - 1, d)] else 0.0))
  }

  /** One more outcome r placed on top of the failures f of the others. */
  lemma FailuresStep(results: map<Key, real>, failure: map<Key, real>, r: Key, f: map<Key, real>)
    requires r in results
    requires FailuresOf(results - {r}, failure, f)
    ensures FailuresOf(results, failure, if r.1 != 0 then Accumulate(f, (r.0 + 1, r.1), results[r]) else f)
  {
    var g := if r.1 != 0 then Accumulate(f, (r.0 + 1, r.1), results[r]) else f;
    FailuresStepKeys(results, failure, r, f, g);
    FailuresStepMass(results, failure, r, f, g);
  }

  lemma FailuresStepKeys(results: map<Key, real>, failure: map<Key, real>, r: Key, f: map<Key, real>, g: map<Key, real>)
    requires r in results
    requires FailuresOf(results - {r}, failure, f)
    requires g == if r.1 != 0 then Accumulate(f, (r.0 + 1, r.1), results[r]) else f
    ensures forall a, d {:trigger (a, d) in g} :: (a, d) in g ==> (a, d) in failure || (d != 0 && (a - 1, d) in results)
    ensures forall a, d {:trigger (a, d) in failure} :: (a, d) in failure ==> (a, d) in g
    ensures forall a, d {:trigger (a, d) in results} :: (a, d) in results && d != 0 ==> (a + 1, d) in g
  {
    var rest := results - {r};
    var ra, rd := r.0, r.1;
    assert r == (ra, rd);
    forall a, d | (a, d) in results && d != 0 ensures (a + 1, d) in g {
      if (a, d) != r { assert (a, d) in rest; }
    }
    forall a, d | (a, d) in g ensures (a, d) in failure || (d != 0 && (a - 1, d) in results) {
      if (a, d) in f {
        assert (a, d) in failure || (d != 0 && (a - 1, d) in rest);
      } else {
        assert (a - 1, d) == r;
      }
    }
  }

  lemma FailuresStepMass(results: map<Key, real>, failure: map<Key, real>, r: Key, f: map<Key, real>, g: map<Key, real>)
    requires r in results
    requires FailuresOf(results - {r}, failure, f)
    requires g == if r.1 != 0 then Accumulate(f, (r.0 + 1, r.1), results[r]) else f
    ensures forall a, d {:trigger g[(a, d)]} :: (a, d) in g ==>
      g[(a, d)] == Prior(failure, (a, d)) + (if d != 0 && (a - 1, d) in results then results[(a - 1, d)] else 0.0)
  {
    var rest := results - {r};
    var ra, rd := r.0, r.1;
    assert r == (ra, rd);
    forall a, d | (a, d) in g
      ensures g[(a, d)] == Prior(failure, (a, d)) + (if d != 0 && (a - 1, d) in results then results[(a - 1, d)] else 0.0)
    {
      if (a - 1, d) == r { assert (a, d) == (ra + 1, rd); }
      else { assert (a - 1, d) in results <==> (a - 1, d) in rest; }
    }
  }

  /** The failures of a territory key by key, in the terms Partition
      reaches them in. */
  lemma FailuresKeys(results: map<Key, real>, failure: map<Key, real>)
    ensures forall k :: k in Failures(results, failure) <==> k in failure || (k.1 != 0 && Restored(k) in results)
    ensures forall k :: k in Failures(results, failure) ==>
      Failures(results, failure)[k] == (if k in failure then failure[k] else 0.0)
                   + (if k.1 != 0 && Restored(k) in results then results[Restored(k)] else 0.0)
  {
    var f := Failures(results, failure);
    FailuresAt(results, failure);
    forall k ensures k in f <==> k in failure || (k.1 != 0 && Restored(k) in results) {
      var a, d := k.0, k.1;
      assert k == (a, d) && Restored(k) == (a - 1, d);
    }
    forall k | k in f
      ensures f[k] == (if k in failure then failure[k] else 0.0)
                    + (if k.1 != 0 && Restored(k) in results then results[Restored(k)] else 0.0)
    {
      var a, d := k.0, k.1;
      assert k == (a, d) && Restored(k) == (a - 1, d);
    }
  }

  lemma IsFailures(results: map<Key, real>, failure: map<Key, real>, failure': map<Key, real>)
    requires forall k :: k in failure' <==> k in failure || (k.1 != 0 && Restored(k) in results)
    requires forall k :: k in failure' ==>
      failure'[k] == (if k in failure then failure[k] else 0.0)
                   + (if k.1 != 0 && Restored(k) in results then results[Restored(k)] else 0.0)
    ensures failure' == Failures(results, failure)
  {
    FailuresKeys(results, failure);
  }

  lemma IsConquests(results: map<Key, real>, carried: map<int, real>)
    requires forall a :: a in carried <==> (a, 0) in results
    requires forall a :: a in carried ==> carried[a] == results[(a, 0)]
    ensures carried == Conquests(results)
  {
    var c := Conquests(results);
    ConquestsAt(results);
    forall a ensures a in carried <==> a in c {
      if a in carried || a in c { assert (a, 0) in results; }
    }
    forall a | a in carried ensures carried[a] == c[a] {
      assert (a, 0) in results;
    }
  }

  /** What the outcomes of one invasion, split by Partition, leave in the
      territory's failures and carry forward. */
  lemma SplitShape(results: map<Key, real>, stranded: map<Key, real>, failure: map<Key, real>,
                   carried: map<int, real>, dict: map<int, real>, defenders: int, aMin: int, top: int)
    requires 0 <= aMin && 0 <= defenders
    requires forall k :: k in stranded ==> k == (aMin, defenders) && stranded[k] > 0.0
    requires forall a :: a in dict ==> aMin <= a <= top - 1
    requires forall k :: k in results ==> results[k] > 0.0
    requires forall k :: k in results ==> k.0 <= aMin || k.1 <= 0
    requires forall k :: k in results ==>
      || (k.0 >= aMin && k.1 >= 0 && (k.0 == aMin || k.1 == 0))
      || (k.0 == aMin - 1 && k.1 > 0)
      || (k.1 == 0 - 1 && k.0 > aMin)
    requires forall k :: k in results ==> k.1 <= defenders && WithinStart(Odds(dict), k.0)
    requires forall k :: k in results ==> k.0 >= 0 && k.1 >= 0
    requires failure == Failures(results, stranded) && carried == Conquests(results)
    ensures FailureShape(failure, aMin, defenders)
    ensures forall a :: a in carried ==> aMin <= a <= top - 1 && carried[a] > 0.0
    ensures (aMin, defenders) in stranded ==>
      (aMin, defenders) in failure && failure[(aMin, defenders)] >= stranded[(aMin, defenders)]
  {
    FailuresKeys(results, stranded);
    ConquestsAt(results);
    FailureSplitShape(results, stranded, failure, defenders, aMin);
    CarriedShape(results, carried, dict, aMin, top);
  }

  /** The failures of one invasion: stranded mass and the outcomes the
      attacker did not win. */
  lemma FailureSplitShape(results: map<Key, real>, stranded: map<Key, real>, failure: map<Key, real>,
                          defenders: int, aMin: int)
    requires 0 <= aMin && 0 <= defenders
    requires forall k :: k in stranded ==> k == (aMin, defenders) && stranded[k] > 0.0
    requires forall k :: k in results ==> results[k] > 0.0
    requires forall k :: k in results ==> k.0 <= aMin || k.1 <= 0
    requires forall k :: k in results ==>
      || (k.0 >= aMin && k.1 >= 0 && (k.0 == aMin || k.1 == 0))
      || (k.0 == aMin - 1 && k.1 > 0)
      || (k.1 == 0 - 1 && k.0 > aMin)
    requires forall k :: k in results ==> k.1 <= defenders && k.0 >= 0 && k.1 >= 0
    requires forall k :: k in failure <==> k in stranded || (k.1 != 0 && Restored(k) in results)
    requires forall k :: k in failure ==>
      failure[k] == (if k in stranded then stranded[k] else 0.0)
                  + (if k.1 != 0 && Restored(k) in results then results[Restored(k)] else 0.0)
    ensures FailureShape(failure, aMin, defenders)
    ensures (aMin, defenders) in stranded ==>
      (aMin, defenders) in failure && failure[(aMin, defenders)] >= stranded[(aMin, defenders)]
  {
    forall k | k in failure
      ensures (k.0 == aMin || k.0 == aMin + 1) && 0 <= k.1 <= defenders && failure[k] > 0.0
    {
      if k.1 != 0 && Restored(k) in results {
        assert results[Restored(k)] > 0.0;
      }
    }
  }

  /** What goes forward: the counts of the conquests, within the counts the
      invasion started from. */
  lemma CarriedShape(results: map<Key, real>, carried: map<int, real>, dict: map<int, real>, aMin: int, top: int)
    requires forall a :: a in dict ==> aMin <= a <= top - 1
    requires forall k :: k in results ==> results[k] > 0.0
    requires forall k :: k in results ==> WithinStart(Odds(dict), k.0)
    requires forall k :: k in results ==>
      || (k.0 >= aMin && k.1 >= 0 && (k.0 == aMin || k.1 == 0))
      || (k.0 == aMin - 1 && k.1 > 0)
      || (k.1 == 0 - 1 && k.0 > aMin)
    requires forall a :: a in carried <==> (a, 0) in results
    requires forall a :: a in carried ==> carried[a] == results[(a, 0)]
    ensures forall a :: a in carried ==> aMin <= a <= top - 1 && carried[a] > 0.0
  {
    forall a | a in carried
      ensures aMin <= a <= top - 1 && carried[a] > 0.0
    {
      assert (a, 0) in results;
      assert WithinStart(Odds(dict), a);
      var c :| c in dict && a <= c;
    }
  }

  /** Mass at exactly the retreat threshold cannot attack: it fails at once
      under (aMin, defenders), and the rest goes on. */
  method Strand(odds: map<int, real>, defenders: int, aMin: int)
    returns (failure: map<Key, real>, rest: map<int, real>)
    ensures failure == Stranded(odds, defenders, aMin) && rest == Remaining(odds, aMin)
    ensures aMin in odds && odds[aMin] != 0.0 ==> failure == map[(aMin, defenders) := odds[aMin]] && aMin !in rest
    ensures forall a :: a != aMin ==> (a in rest <==> a in odds)
    ensures forall a :: a in rest ==> rest[a] == odds[a]
    ensures Total(failure) + Total(rest) == Total(odds)
  {
    rest := odds;
    failure := map[];
    if aMin in rest && rest[aMin] != 0.0 {
      TotalRemove(rest, aMin);
      TotalAdd(failure, (aMin, defenders), rest[aMin]);
      failure := failure[(aMin, defenders) := rest[aMin]];
      rest := rest - {aMin};
    } else {
      assert Total(failure) == 0.0;
    }
  }

  /** One territory of the campaign, from the running distribution `odds`
      over attacker counts in the current territory: the territory's
      failures and the distribution carried to the next one. No mass is
      lost; mass at exactly the retreat threshold fails at once under
      (aMin, defenders); what goes forward has one unit fewer than it
      started with. */
  method Advance(odds: map<int, real>, defenders: int, aMin: int, top: int)
    returns (failure: map<Key, real>, next: map<int, real>)
    requires 0 <= aMin && 0 <= defenders
    requires forall a :: a in odds ==> aMin <= a <= top && odds[a] > 0.0
    ensures Total(failure) + Total(next) == Total(odds)
    ensures FailureShape(failure, aMin, defenders)
    ensures aMin in odds ==> (aMin, defenders) in failure && failure[(aMin, defenders)] >= odds[aMin]
    ensures forall a :: a in next ==> aMin <= a <= top - 1 && next[a] > 0.0
    ensures (failure, next) == Territory(odds, defenders, aMin)
  {
    var a_dict;
    failure, a_dict := Strand(odds, defenders, aMin);
    ghost var remaining := a_dict;
    assert forall a :: a in a_dict ==> aMin + 1 <= a <= top;
    a_dict := Decrement(a_dict);
    DecrementedAt(remaining);
    failure, next := Invade(a_dict, failure, defenders, aMin, top);
  }

  /** The invasion of one territory by the attacker counts of `dict`, and
      the split of its outcomes into the territory's failures, on top of
      the stranded mass, and what goes forward. */
  method Invade(dict: map<int, real>, stranded: map<Key, real>, defenders: int, aMin: int, top: int)
    returns (failure: map<Key, real>, next: map<int, real>)
    requires 0 <= aMin && 0 <= defenders
    requires forall a :: a in dict ==> aMin <= a <= top - 1 && dict[a] > 0.0
    requires forall k :: k in stranded ==> k == (aMin, defenders) && stranded[k] > 0.0
    ensures Total(failure) + Total(next) == Total(stranded) + Total(dict)
    ensures FailureShape(failure, aMin, defenders)
    ensures (aMin, defenders) in stranded ==>
      (aMin, defenders) in failure && failure[(aMin, defenders)] >= stranded[(aMin, defenders)]
    ensures forall a :: a in next ==> aMin <= a <= top - 1 && next[a] > 0.0
    ensures var results := InvasionOutcomes(Odds(dict), defenders, aMin, 0);
      failure == Failures(results, stranded) && next == Conquests(results)
  {
    var results := CalculateInvasion(Odds(dict), defenders, aMin, 0);
    failure, next := Partition(results, stranded);
    SplitShape(results, stranded, failure, next, dict, defenders, aMin, top);
  }

  /** One more territory on top of the campaign through the targets before it. */
  lemma CampaignStep(odds: map<int, real>, targets: seq<int>, aMin: int, i: int,
                     outcomes: seq<map<Key, real>>, survivors: map<int, real>,
                     failure: map<Key, real>, next: map<int, real>)
    requires 0 <= aMin && forall j :: 0 <= j < |targets| ==> targets[j] >= 0
    requires 0 <= i < |targets|
    requires CampaignResult(outcomes, survivors) == CampaignFrom(odds, targets[..i], aMin)
    requires (failure, next) == Territory(survivors, targets[i], aMin)
    ensures CampaignResult(outcomes + [failure], next) == CampaignFrom(odds, targets[..i + 1], aMin)
  {
    assert targets[..i + 1][..i] == targets[..i];
  }

  /** One more failure distribution of the expected shape. */
  lemma FailureShapesAppend(fs: seq<map<Key, real>>, f: map<Key, real>, targets: seq<int>, aMin: int)
    requires |fs| < |targets|
    requires forall i :: 0 <= i < |fs| ==> FailureShape(fs[i], aMin, targets[i])
    requires FailureShape(f, aMin, targets[|fs|])
    ensures forall i :: 0 <= i < |fs| + 1 ==> FailureShape((fs + [f])[i], aMin, targets[i])
  {
    forall i | 0 <= i < |fs| + 1 ensures FailureShape((fs + [f])[i], aMin, targets[i]) {
      if i < |fs| { assert (fs + [f])[i] == fs[i]; }
    }
  }

  /** One more failure distribution adds its mass. */
  lemma FailureMassAppend(fs: seq<map<Key, real>>, f: map<Key, real>)
    ensures FailureMass(fs + [f]) == FailureMass(fs) + Total(f)
  {
    assert (fs + [f])[..|fs|] == fs;
  }

  /** One pass of the campaign loop: the invasion of targets[origin]. It
      appends the territory's failures, keeps the total mass 1, keeps the
      survivors within [aMin, attackers - (origin + 1)] and agrees with
      CampaignFrom on one more target. */
  method NextTerritory(attackers: int, targets: seq<int>, aMin: int, origin: int,
                       outcomes: seq<map<Key, real>>, a_dict: map<int, real>)
    returns (outcomes': seq<map<Key, real>>, a_dict': map<int, real>)
    requires 0 <= aMin && forall i :: 0 <= i < |targets| ==> targets[i] >= 0
    requires origin < |targets| && Marched(attackers, targets, aMin, origin, outcomes, a_dict)
    ensures Marched(attackers, targets, aMin, origin + 1, outcomes', a_dict')
  {
    var defenders := targets[origin];
    var failure;
    failure, a_dict' := Advance(a_dict, defenders, aMin, attackers - origin);
    CampaignStep(map[attackers := 1.0], targets, aMin, origin, outcomes, a_dict, failure, a_dict');
    FailureMassAppend(outcomes, failure);
    FailureShapesAppend(outcomes, failure, targets, aMin);
    outcomes' := outcomes + [failure];
  }

  /** calculate_campaign. One failure distribution per target and a final
      distribution of surviving attackers, holding together all of the
      starting mass 1; survivors stand at or above the retreat threshold and
      have left one unit behind in every conquered territory. */
  method CalculateCampaign(attackers: int, targets: seq<int>, aMin: int := 0) returns (r: CampaignResult)
    requires 0 <= aMin < attackers
    requires forall i :: 0 <= i < |targets| ==> targets[i] >= 0
    ensures |r.failures| == |targets|
    ensures CampaignMass(r) == 1.0
    ensures forall i :: 0 <= i < |targets| ==> FailureShape(r.failures[i], aMin, targets[i])
    ensures forall a :: a in r.survivors ==> aMin <= a <= attackers - |targets| && r.survivors[a] > 0.0
    ensures targets == [] ==> r.survivors == map[attackers := 1.0]
    ensures r == CampaignFrom(map[attackers := 1.0], targets, aMin)
  {
    var outcomes: seq<map<Key, real>> := [];
    var a_dict := map[attackers := 1.0];
    TotalAdd(map[], attackers, 1.0);
    for origin := 0 to |targets|
      invariant Marched(attackers, targets, aMin, origin, outcomes, a_dict)
    {
      outcomes, a_dict := NextTerritory(attackers, targets, aMin, origin, outcomes, a_dict);
    }
    assert targets[..|targets|] == targets;
    r := CampaignResult(outcomes, a_dict);
  }

  /** The invariant of the campaign loop once the first `origin` targets
      are invaded. */
  ghost predicate Marched(attackers: int, targets: seq<int>, aMin: int, origin: int,
                          outcomes: seq<map<Key, real>>, a_dict: map<int, real>)
    requires 0 <= aMin && forall i :: 0 <= i < |targets| ==> targets[i] >= 0
  {
    && 0 <= origin <= |targets| && |outcomes| == origin
    && FailureMass(outcomes) + Total(a_dict) == 1.0
    && (forall i :: 0 <= i < origin ==> FailureShape(outcomes[i], aMin, targets[i]))
    && (forall a :: a in a_dict ==> aMin <= a <= attackers - origin && a_dict[a] > 0.0)
    && (origin == 0 ==> a_dict == map[attackers := 1.0])
    && CampaignResult(outcomes, a_dict) == CampaignFrom(map[attackers := 1.0], targets[..origin], aMin)
  }

  // ---- the maximum as written ----

  /** The first territory of a campaign: nothing is stranded, since the
      campaign starts above a_min, and leaving the garrison unit behind
      turns {attackers: 1} into the one-count distribution
      {attackers - 1: 1}. On that distribution the maximum as written
      raises. */
  lemma FirstCampaignInvasionRaises(attackers: int, aMin: int)
    requires 0 <= aMin < attackers
    ensures Decremented(Remaining(map[attackers := 1.0], aMin)) == map[attackers - 1 := 1.0]
    ensures StarMax(KeyList(Decremented(Remaining(map[attackers := 1.0], aMin)))) == None
  {
    var m := map[attackers := 1.0];
    assert Remaining(m, aMin) == m;
    DecrementedAt(m);
    var r := Decremented(m);
    assert r.Keys == {attackers - 1} by {
      forall a | a in r ensures a == attackers - 1 { assert a + 1 in m; }
      assert attackers in m;
    }
    assert r[attackers - 1] == 1.0;
    StarMaxOfFew(r);
  }

  // ---- a worked example ----

  /** Two attackers leave one behind: {2: 1} becomes {1: 1}. */
  lemma GarrisonOfTwo()
    ensures Decremented(map[2 := 1.0]) == map[1 := 1.0]
  {
    var m := map[2 := 1.0];
    DecrementedAt(m);
    assert Decremented(m).Keys == {1} by {
      forall a | a in Decremented(m) ensures a == 1 { assert a + 1 in m; }
      assert 2 in m;
    }
  }

  /** The one failure and the one conquest of that invasion. */
  lemma OneRoundSplit(results: map<Key, real>)
    requires results == map[(1, 0) := 5.0 / 12.0, (0, 1) := 7.0 / 12.0]
    ensures Failures(results, map[]) == map[(1, 1) := 7.0 / 12.0]
    ensures Conquests(results) == map[1 := 5.0 / 12.0]
  {
    FailuresKeys(results, map[]);
    ConquestsAt(results);
    var f := Failures(results, map[]);
    assert Restored((1, 1)) == (0, 1);
    forall k | k in f ensures k == (1, 1) {
      assert Restored(k) in results && k.1 != 0;
    }
    assert f.Keys == {(1, 1)};
    var c := Conquests(results);
    forall a | a in c ensures a == 1 { assert (a, 0) in results; }
    assert c.Keys == {1};
  }

  /** Two attackers against one territory of one defender: one unit stays
      behind, and the single round that follows conquers the territory with
      chance 5/12, carrying one attacker forward, and fails with chance 7/12,
      recorded as one attacker (the garrison) and one defender. */
  lemma OneTerritoryCampaign()
    ensures CampaignFrom(map[2 := 1.0], [1], 0) == CampaignResult([map[(1, 1) := 7.0 / 12.0]], map[1 := 5.0 / 12.0])
  {
    var odds := map[2 := 1.0];
    assert [1][..0] == [];
    assert Stranded(odds, 1, 0) == map[] && Remaining(odds, 0) == odds;
    GarrisonOfTwo();
    OneRoundFromDistribution();
    OneRoundSplit(map[(1, 0) := 5.0 / 12.0, (0, 1) := 7.0 / 12.0]);
  }
}
