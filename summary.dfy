/** sum_invasion_odds and sum_campaign_odds: the chance of success read off
    an outcome distribution. */
module Summary {
  import opened Mass
  import opened Invasion
  import opened Campaign

  /** The outcomes in which the defender is down to the goal or below. */
  function Victories(outcomes: map<Key, real>, dMin: int): set<Key>
  {
    set k | k in outcomes && k.1 <= dMin
  }

  /** sum_invasion_odds: adds up, key by key, the mass of every outcome with
      at most dMin defenders left. The result is exactly the mass of those
      outcomes; for a distribution of non-negative masses it lies between 0
      and the total. */
  method SumInvasionOdds(outcomes: map<Key, real>, dMin: int := 0) returns (victory: real)
    ensures victory == Total(Restrict(outcomes, Victories(outcomes, dMin)))
    ensures (forall k :: k in outcomes ==> outcomes[k] >= 0.0) ==> 0.0 <= victory <= Total(outcomes)
  {
    var wins := Victories(outcomes, dMin);
    victory := 0.0;
    var rest := outcomes.Keys;
    assert Restrict(Seen(outcomes, rest), wins) == map[];
    while rest != {}
      invariant rest <= outcomes.Keys
      invariant victory == Total(Restrict(Seen(outcomes, rest), wins))
      decreases rest
    {
      var o := Pick(rest);
      var before := Seen(outcomes, rest);
      var after := Seen(outcomes, rest - {o});
      assert after == before[o := outcomes[o]];
      if o.1 <= dMin {
        assert Restrict(after, wins) == Restrict(before, wins)[o := outcomes[o]];
        TotalAdd(Restrict(before, wins), o, outcomes[o]);
        victory := victory + outcomes[o];
      } else {
        assert Restrict(after, wins) == Restrict(before, wins);
      }
      rest := rest - {o};
    }
    assert Seen(outcomes, rest) == outcomes;
    if forall k :: k in outcomes ==> outcomes[k] >= 0.0 {
      TotalNonNegative(Restrict(outcomes, wins));
      TotalSubMap(Restrict(outcomes, wins), outcomes);
    }
  }

  /** The chance of victory and the chance of the remaining outcomes (the
      attacker stopped at the retreat threshold) make up the whole mass. */
  lemma VictoryAndDefeat(outcomes: map<Key, real>, dMin: int)
    ensures Total(Restrict(outcomes, Victories(outcomes, dMin))) + Total(outcomes - Victories(outcomes, dMin))
         == Total(outcomes)
    ensures forall k :: k in outcomes - Victories(outcomes, dMin) ==> k.1 > dMin
  {
    TotalSplit(outcomes, Victories(outcomes, dMin));
  }

  /** For the outcomes of an invasion from a single attacker count, whose
      mass is 1, the chance of victory is a probability. */
  lemma InvasionOddsBounded(outcomes: map<Key, real>, dMin: int)
    requires Total(outcomes) == 1.0
    requires forall k :: k in outcomes ==> outcomes[k] > 0.0
    ensures 0.0 <= Total(Restrict(outcomes, Victories(outcomes, dMin))) <= 1.0
  {
    var wins := Restrict(outcomes, Victories(outcomes, dMin));
    TotalNonNegative(wins);
    TotalSubMap(wins, outcomes);
  }

  /** A sequence of failure distributions with non-negative masses has
      non-negative mass. */
  lemma {:induction false} FailureMassNonNegative(fs: seq<map<Key, real>>)
    requires forall i, k :: 0 <= i < |fs| && k in fs[i] ==> fs[i][k] >= 0.0
    ensures FailureMass(fs) >= 0.0
  {
    if fs != [] {
      FailureMassNonNegative(fs[..|fs| - 1]);
      TotalNonNegative(fs[|fs| - 1]);
    }
  }

  /** sum_campaign_odds: adds up the distribution of survivors after the
      last conquest. The result is exactly its mass; with non-negative masses
      throughout it lies between 0 and the mass of the whole result. */
  method SumCampaignOdds(r: CampaignResult) returns (victory: real)
    ensures victory == Total(r.survivors)
    ensures (forall a :: a in r.survivors ==> r.survivors[a] >= 0.0)
         && (forall i, k :: 0 <= i < |r.failures| && k in r.failures[i] ==> r.failures[i][k] >= 0.0)
        ==> 0.0 <= victory <= CampaignMass(r)
  {
    var survivors := r.survivors;
    victory := 0.0;
    var rest := survivors.Keys;
    assert Seen(survivors, rest) == map[];
    while rest != {}
      invariant rest <= survivors.Keys
      invariant victory == Total(Seen(survivors, rest))
      decreases rest
    {
      var o := Pick(rest);
      TotalSeenStep(survivors, rest, o);
      victory := victory + survivors[o];
      rest := rest - {o};
    }
    assert Seen(survivors, rest) == survivors;
    if (forall a :: a in r.survivors ==> r.survivors[a] >= 0.0)
       && (forall i, k :: 0 <= i < |r.failures| && k in r.failures[i] ==> r.failures[i][k] >= 0.0)
    {
      TotalNonNegative(survivors);
      FailureMassNonNegative(r.failures);
    }
  }

  /** For a campaign result, whose whole mass is 1, the chance of success
      is a probability. */
  lemma CampaignOddsBounded(r: CampaignResult, aMin: int, targets: seq<int>)
    requires CampaignMass(r) == 1.0 && |r.failures| == |targets|
    requires forall i :: 0 <= i < |targets| ==> FailureShape(r.failures[i], aMin, targets[i])
    requires forall a :: a in r.survivors ==> r.survivors[a] > 0.0
    ensures 0.0 <= Total(r.survivors) <= 1.0
  {
    forall i, k | 0 <= i < |r.failures| && k in r.failures[i]
      ensures r.failures[i][k] >= 0.0
    {
      assert FailureShape(r.failures[i], aMin, targets[i]);
    }
    FailureMassNonNegative(r.failures);
    assert forall a :: a in r.survivors ==> r.survivors[a] >= 0.0;
    TotalNonNegative(r.survivors);
  }
}
