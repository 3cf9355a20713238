/**
 The waiting budget of each agent: how many of its fail-fast runs wait at once. A counter per agent stands for
 the units handed out; this module shows that it is their number in every interleaving.
 */
module WaitingBudget {
  const MAX_QUEUED_RUNS_PER_AGENT: nat := 8

  type UnitId = nat

  function UnitsOf<A(==)>(units: map<UnitId, A>, agent: A): set<UnitId> {
    set u | u in units && units[u] == agent
  }

  lemma OneUnitMore<A>(units: map<UnitId, A>, unit: UnitId, agent: A)
    requires unit !in units
    ensures UnitsOf(units[unit := agent], agent) == UnitsOf(units, agent) + {unit}
    ensures forall a | a != agent :: UnitsOf(units[unit := agent], a) == UnitsOf(units, a)
  {
  }

  lemma OneUnitFewer<A>(units: map<UnitId, A>, unit: UnitId)
    requires unit in units
    ensures UnitsOf(units - {unit}, units[unit]) == UnitsOf(units, units[unit]) - {unit}
    ensures forall a | a != units[unit] :: UnitsOf(units - {unit}, a) == UnitsOf(units, a)
  {
  }

  class Budget<A(==, !new)> {
    var budget: map<A, nat>
    var units: map<UnitId, A>

    /** A counter for every agent with units, and no other: exact and within the limit. */
    ghost predicate Valid()
      reads this
    {
      && (forall a | a in budget :: 0 < budget[a] <= MAX_QUEUED_RUNS_PER_AGENT && budget[a] == |UnitsOf(units, a)|)
      && (forall a | a !in budget :: UnitsOf(units, a) == {})
    }

    constructor ()
      ensures Valid() && units == map[]
    {
      budget, units := map[], map[];
    }

    /** Takes a unit exactly when the agent has fewer than the limit; waits for nothing. */
    method TryTake(agent: A, unit: UnitId) returns (taken: bool)
      requires Valid() && unit !in units
      modifies this
      ensures Valid()
      ensures taken <==> |UnitsOf(old(units), agent)| < 8
      ensures units == if taken then old(units)[unit := agent] else old(units)
    {
      var waiting := if agent in budget then budget[agent] else 0;
      taken := waiting < MAX_QUEUED_RUNS_PER_AGENT;
      if taken {
        OneUnitMore(units, unit, agent);
        budget := budget[agent := waiting + 1];
        units := units[unit := agent];
      }
    }

    /** Dropping a unit gives it back; the counter of an agent without units is gone. */
    method DropUnit(unit: UnitId)
      requires Valid() && unit in units
      modifies this
      ensures Valid() && units == old(units) - {unit}
    {
      var agent := units[unit];
      OneUnitFewer(units, unit);
      assert unit in UnitsOf(units, agent);
      if agent in budget {
        var waiting := if budget[agent] > 0 then budget[agent] - 1 else 0;
        budget := if waiting == 0 then budget - {agent} else budget[agent := waiting];
      }
      units := units - {unit};
      assert |UnitsOf(units, agent)| == |UnitsOf(old(units), agent)| - 1;
      assert |UnitsOf(units, agent)| == 0 ==> UnitsOf(units, agent) == {};
    }
  }

  /** No agent ever has more than the limit, and nothing is remembered once the units are gone. */
  lemma NeverAboveTheLimit<A(!new)>(b: Budget<A>, agent: A)
    requires b.Valid()
    ensures |UnitsOf(b.units, agent)| <= 8
    ensures b.units == map[] ==> b.budget == map[]
  {
    assert agent !in b.budget ==> |UnitsOf(b.units, agent)| == 0;
    if b.units == map[] {
      assert forall a | a in b.budget :: UnitsOf(b.units, a) == {};
      assert b.budget.Keys == {};
    }
  }
}
