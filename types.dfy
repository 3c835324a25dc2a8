/** The records of the roster model: a stat is a named raw value, a profile or weapon is a named
    list of stats, and a unit gathers its profiles, weapons, abilities and rule names. */
module Types {

  /** A labelled raw value ("S" / "4", "BS" / "3+", "D" / "D6"); numbers are read from it on demand. */
  datatype Stat = Stat(name: string, value: string)

  /** A unit's statline. */
  datatype Profile = Profile(name: string, stats: seq<Stat>)

  /** A weapon's characteristics; the name may carry a multiplicity suffix such as "(x3)". */
  datatype Weapon = Weapon(name: string, stats: seq<Stat>)

  datatype Ability = Ability(name: string, description: string)

  datatype Unit = Unit(
    id: string,
    name: string,
    cost: int,
    unitProfiles: seq<Profile>,
    rangedWeapons: seq<Weapon>,
    meleeWeapons: seq<Weapon>,
    abilities: seq<Ability>,
    rules: seq<string>)

  /** A parsed roster. */
  datatype ArmyList = ArmyList(id: string, name: string, units: seq<Unit>, totalPoints: int)

  /** The units' costs added up in unit order. */
  function TotalCost(units: seq<Unit>): int {
    if units == [] then 0 else TotalCost(units[..|units| - 1]) + units[|units| - 1].cost
  }

  /** The total of a concatenation is the sum of the totals. */
  lemma {:induction false} TotalCostAppend(a: seq<Unit>, b: seq<Unit>)
    ensures TotalCost(a + b) == TotalCost(a) + TotalCost(b)
    decreases |b|
  {
    if b != [] {
      assert (a + b)[..|a + b| - 1] == a + b[..|b| - 1];
      TotalCostAppend(a, b[..|b| - 1]);
    } else {
      assert a + b == a;
    }
  }
}
