/** The rules panel: the sorted list of the distinct rules of the units of the rosters present,
    the search over it, and the description shown for a rule. */
module RuleReference {
  import opened Wrappers
  import opened Strings
  import opened Types
  import opened Sequences
  import opened Grouping
  import opened StringSort

  // ---------------------------------------------------------------------------------------
  // The distinct rules
  // ---------------------------------------------------------------------------------------

  /** The rules of the first `n` units, unit by unit, in order. */
  function RulesOfUnits(units: seq<Unit>, n: nat): seq<string>
    requires n <= |units|
  {
    if n == 0 then [] else RulesOfUnits(units, n - 1) + units[n - 1].rules
  }

  /** The rules of the units of the first `n` roster slots; an empty slot contributes nothing. */
  function RulesOfLists(armyLists: seq<Option<ArmyList>>, n: nat): seq<string>
    requires n <= |armyLists|
  {
    if n == 0 then []
    else
      RulesOfLists(armyLists, n - 1) + SlotRules(armyLists[n - 1])
  }

  /** The rules of the units of one roster slot, none for an empty slot. */
  function SlotRules(slot: Option<ArmyList>): seq<string> {
    match slot
    case None => []
    case Some(list) => RulesOfUnits(list.units, |list.units|)
  }

  /** The rule is a rule of some unit of the roster in the slot. */
  predicate RuleInSlot(slot: Option<ArmyList>, rule: string) {
    slot.Some? && exists j :: 0 <= j < |slot.value.units| && rule in slot.value.units[j].rules
  }

  function Same(rule: string): string { rule }

  /** The insertion-ordered set of `rules`. */
  function RuleSet(rules: seq<string>): seq<string> {
    KeysUpTo(rules, Same, |rules|)
  }

  /** `uniqueRules` as a value. */
  function UniqueRules(armyLists: seq<Option<ArmyList>>): seq<string> {
    Sort(RuleSet(RulesOfLists(armyLists, |armyLists|)))
  }

  /** The rule is a rule of some unit of some roster present. */
  predicate RuleOccurs(armyLists: seq<Option<ArmyList>>, rule: string) {
    exists i :: 0 <= i < |armyLists| && RuleInSlot(armyLists[i], rule)
  }

  lemma {:induction false} RulesOfUnitsMembers(units: seq<Unit>, n: nat, rule: string)
    requires n <= |units|
    ensures rule in RulesOfUnits(units, n) <==> exists j :: 0 <= j < n && rule in units[j].rules
  {
    if n > 0 {
      RulesOfUnitsMembers(units, n - 1, rule);
      if j :| 0 <= j < n && rule in units[j].rules {
        if j < n - 1 {
          assert rule in RulesOfUnits(units, n - 1);
        }
      }
    }
  }

  lemma SlotRulesMembers(slot: Option<ArmyList>, rule: string)
    ensures rule in SlotRules(slot) <==> RuleInSlot(slot, rule)
  {
    if slot.Some? {
      RulesOfUnitsMembers(slot.value.units, |slot.value.units|, rule);
    }
  }

  lemma {:induction false} RulesOfListsMembers(armyLists: seq<Option<ArmyList>>, n: nat, rule: string)
    requires n <= |armyLists|
    ensures rule in RulesOfLists(armyLists, n) <==> exists i :: 0 <= i < n && RuleInSlot(armyLists[i], rule)
  {
    if n > 0 {
      RulesOfListsMembers(armyLists, n - 1, rule);
      SlotRulesMembers(armyLists[n - 1], rule);
      if i :| 0 <= i < n && RuleInSlot(armyLists[i], rule) {
        if i < n - 1 {
          assert rule in RulesOfLists(armyLists, n - 1);
        }
      }
    }
  }

  /** The list is strictly increasing, so free of duplicates, and holds exactly the rules of the
      units of the rosters present; empty slots contribute nothing. */
  lemma UniqueRulesSpec(armyLists: seq<Option<ArmyList>>)
    ensures StrictlySorted(UniqueRules(armyLists)) && Distinct(UniqueRules(armyLists))
    ensures forall rule :: rule in UniqueRules(armyLists) <==> RuleOccurs(armyLists, rule)
  {
    var all := RulesOfLists(armyLists, |armyLists|);
    KeysUpToMembers(all, Same, |all|);
    SortSorted(RuleSet(all));
    SortedIsDistinct(UniqueRules(armyLists));
    forall rule ensures KeyOccurs(all, Same, rule, |all|) <==> RuleOccurs(armyLists, rule) {
      RulesOfListsMembers(armyLists, |armyLists|, rule);
      if KeyOccurs(all, Same, rule, |all|) {
        var k :| 0 <= k < |all| && Same(all[k]) == rule;
        assert rule in all;
      }
      if rule in all {
        var k :| 0 <= k < |all| && all[k] == rule;
        assert Same(all[k]) == rule;
      }
    }
  }

  /** The innermost loop of `uniqueRules`: the rules of one unit added to the set. */
  method AddRules(ghost before: seq<string>, rulesSet: seq<string>, rules: seq<string>) returns (r: seq<string>)
    requires rulesSet == RuleSet(before)
    ensures r == RuleSet(before + rules)
  {
    r := rulesSet;
    assert before + rules[..0] == before;
    for k := 0 to |rules|
      invariant r == RuleSet(before + rules[..k])
    {
      KeysUpToSnoc(before + rules[..k], rules[k], Same);
      assert before + rules[..k + 1] == before + rules[..k] + [rules[k]];
      r := Add(r, rules[k]);
    }
    assert rules[..|rules|] == rules;
  }

  /** The middle loop: the rules of every unit of one roster added to the set. */
  method AddUnitRules(ghost before: seq<string>, rulesSet: seq<string>, units: seq<Unit>) returns (r: seq<string>)
    requires rulesSet == RuleSet(before)
    ensures r == RuleSet(before + RulesOfUnits(units, |units|))
  {
    r := rulesSet;
    assert before + RulesOfUnits(units, 0) == before;
    for j := 0 to |units|
      invariant r == RuleSet(before + RulesOfUnits(units, j))
    {
      r := AddRules(before + RulesOfUnits(units, j), r, units[j].rules);
      assert before + RulesOfUnits(units, j) + units[j].rules == before + RulesOfUnits(units, j + 1);
    }
  }

  /** `uniqueRules`: nested loops adding every rule to a `Set`, then the sort. */
  method ComputeUniqueRules(armyLists: seq<Option<ArmyList>>) returns (r: seq<string>)
    ensures r == UniqueRules(armyLists)
    ensures StrictlySorted(r)
    ensures forall rule :: rule in r <==> RuleOccurs(armyLists, rule)
  {
    var rulesSet: seq<string> := [];
    for i := 0 to |armyLists|
      invariant rulesSet == RuleSet(RulesOfLists(armyLists, i))
    {
      if armyLists[i].Some? {
        var units := armyLists[i].value.units;
        rulesSet := AddUnitRules(RulesOfLists(armyLists, i), rulesSet, units);
        assert RulesOfLists(armyLists, i + 1) == RulesOfLists(armyLists, i) + RulesOfUnits(units, |units|);
      } else {
        assert RulesOfLists(armyLists, i + 1) == RulesOfLists(armyLists, i) + [];
        assert RulesOfLists(armyLists, i + 1) == RulesOfLists(armyLists, i);
      }
    }
    r := Sort(rulesSet);
    UniqueRulesSpec(armyLists);
  }

  // ---------------------------------------------------------------------------------------
  // Search
  // ---------------------------------------------------------------------------------------

  /** The lowercased rule contains `term`. */
  predicate RuleMentions(rule: string, term: string) {
    Contains(ToLower(rule), term)
  }

  /** `filteredRules`: all the rules for an empty term, else those that contain it, ignoring case. */
  function FilteredRules(uniqueRules: seq<string>, searchTerm: string): (r: seq<string>)
    ensures |searchTerm| == 0 ==> r == uniqueRules
    ensures |r| <= |uniqueRules|
  {
    if |searchTerm| == 0 then uniqueRules else Filter(uniqueRules, ToLower(searchTerm), RuleMentions)
  }

  /** A non-empty search keeps exactly the rules that contain the term, ignoring case. */
  lemma FilteredRulesMembers(uniqueRules: seq<string>, searchTerm: string)
    requires |searchTerm| > 0
    ensures forall rule :: rule in FilteredRules(uniqueRules, searchTerm) <==>
              rule in uniqueRules && Contains(ToLower(rule), ToLower(searchTerm))
  {
    FilterMembers(uniqueRules, ToLower(searchTerm), RuleMentions);
  }

  /** The search keeps the order of the list. */
  lemma FilteredRulesKeepOrder(a: seq<string>, b: seq<string>, searchTerm: string)
    ensures FilteredRules(a + b, searchTerm) == FilteredRules(a, searchTerm) + FilteredRules(b, searchTerm)
  {
    if |searchTerm| > 0 {
      FilterAppend(a, b, ToLower(searchTerm), RuleMentions);
    }
  }

  lemma {:induction false} FilterUpToSorted(xs: seq<string>, term: string, n: nat)
    requires n <= |xs| && StrictlySorted(xs)
    ensures StrictlySorted(FilterUpTo(xs, term, RuleMentions, n))
    ensures forall y :: y in FilterUpTo(xs, term, RuleMentions, n) ==> exists i :: 0 <= i < n && xs[i] == y
  {
    if n > 0 {
      FilterUpToSorted(xs, term, n - 1);
      var prev := FilterUpTo(xs, term, RuleMentions, n - 1);
      if RuleMentions(xs[n - 1], term) {
        var r := prev + [xs[n - 1]];
        forall p, q | 0 <= p < q < |r| ensures Less(r[p], r[q]) {
          if q == |prev| {
            assert r[p] in prev;
            var i :| 0 <= i < n - 1 && xs[i] == r[p];
          } else {
            assert r[p] == prev[p] && r[q] == prev[q];
          }
        }
      } else {
        assert FilterUpTo(xs, term, RuleMentions, n) == prev + [];
      }
    }
  }

  /** The rules found are in sorted order, like the full list. */
  lemma FilteredRulesSorted(armyLists: seq<Option<ArmyList>>, searchTerm: string)
    ensures StrictlySorted(FilteredRules(UniqueRules(armyLists), searchTerm))
  {
    UniqueRulesSpec(armyLists);
    var all := UniqueRules(armyLists);
    FilterUpToSorted(all, ToLower(searchTerm), |all|);
  }

  // ---------------------------------------------------------------------------------------
  // Descriptions
  // ---------------------------------------------------------------------------------------

  /** The built-in table of the descriptions of the common rules; None for a rule not in it. */
  function CommonRule(rule: string): Option<string> {
    match rule
    case "Deep Strike" => Some("During the Reinforcements step of your Movement phase, you can set up this unit anywhere on the battlefield that is more than 9\" away from any enemy models.")
    case "Lethal Hits" => Some("Each time an attack is made with this weapon, a Critical Hit automatically wounds the target.")
    case "Psychic" => Some("Each time a Psychic weapon or ability successfully wounds an enemy unit, that enemy unit cannot use any rules that ignore wounds.")
    case "Devastating Wounds" => Some("Each time an attack is made with this weapon, a Critical Wound inflicts a number of mortal wounds equal to the attack's normal damage value, and the attack sequence ends.")
    case "Torrent" => Some("Each time an attack is made with a Torrent weapon, that attack automatically hits its target.")
    case "Ignores Cover" => Some("Each time an attack is made with this weapon, the target cannot claim the benefits of cover against that attack.")
    case "The Shadow of Chaos" => Some("In your Command phase, if a unit from your army with this ability is within your army's Shadow of Chaos (see Codex), it gains the following benefit until the start of your next Command phase, depending on which Chaos God it is dedicated to: Khorne +1 to Strength, Tzeentch +1 to Save, Nurgle Feel No Pain 5+, Slaanesh +1 to Attacks.")
    case "Infiltrators" => Some("During deployment, you can set up this unit anywhere on the battlefield that is more than 9\" away from the enemy deployment zone and any enemy models.")
    case "Leader" => Some("This unit can be attached to a specified unit type to provide bonuses or abilities to that unit.")
    case "Scouts" => Some("After both sides have deployed, this unit can make a Scout move before the first turn begins. This unit can move a number of inches up to the value listed after this rule, provided it does not end up within 9\" of enemy models.")
    case "Deadly Demise" => Some("When this model is destroyed, roll a D6. On a 4+, each unit within range suffers a number of mortal wounds as indicated, typically shown as 'Deadly Demise X' where X is the number of mortal wounds inflicted.")
    case "Extra Attacks" => Some("The weapon with this ability grants additional attacks on top of the model's normal attack profile, not replacing its existing attacks.")
    case "Blast" => Some("Each time this weapon targets a unit containing 6+ models, it makes a minimum of 3 attacks. When targeting a unit with 11+ models, it makes the maximum number of attacks.")
    case "Indirect Fire" => Some("This weapon can target units that are not visible to the firing model. Units hit by Indirect Fire cannot claim the benefits of Dense Cover.")
    case _ => None
  }

  const Fallback: string := "No description available. Refer to your rulebook for details."

  /** `COMMON_RULES[rule] || fallback` */
  function RuleDescription(rule: string): (r: string)
    ensures CommonRule(rule).Some? ==> r == CommonRule(rule).value
    ensures CommonRule(rule).None? ==> r == Fallback
  {
    match CommonRule(rule)
    case Some(description) => description
    case None => Fallback
  }

  /** A rule of the table gets its entry. */
  lemma RuleDescriptionOfTorrent()
    ensures RuleDescription("Torrent") == "Each time an attack is made with a Torrent weapon, that attack automatically hits its target."
  {
  }

  /** A rule outside the table gets the fallback text. */
  lemma RuleDescriptionOfUnknown()
    ensures RuleDescription("Sustained Hits") == Fallback
  {
  }
}
