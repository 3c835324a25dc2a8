/** The comparison helpers: unit-name normalisation, grouping, counting, points breakdown, the
    units two rosters share, the sorted list of unit types and the unit search. */
module Comparison {
  import opened Wrappers
  import opened Strings
  import opened Types
  import opened ParseUtils
  import opened Sequences
  import opened Grouping
  import StringSort

  // ---------------------------------------------------------------------------------------
  // Normalisation: `name.replace(/\s*\(\w+\)\s*$/, '')`
  // ---------------------------------------------------------------------------------------

  /** The pattern matches at `p`: white space, "(", one or more word characters, ")", and only
      white space up to the end. */
  predicate TagAt(s: string, p: nat)
    requires p <= |s|
  {
    var a := SpaceRunEnd(s, p);
    a < |s| && s[a] == '(' &&
      var b := RunEnd(s, a + 1, Word);
      b > a + 1 && b < |s| && s[b] == ')' && SpaceRunEnd(s, b + 1) == |s|
  }

  /** The leftmost position from `p` on where the pattern matches. */
  function FirstTagFrom(s: string, p: nat): (r: Option<nat>)
    requires p <= |s|
    ensures r.Some? ==> p <= r.value <= |s|
    decreases |s| - p
  {
    if TagAt(s, p) then Some(p)
    else if p == |s| then None
    else FirstTagFrom(s, p + 1)
  }

  lemma {:induction false} FirstTagFromMatches(s: string, p: nat)
    requires p <= |s|
    ensures FirstTagFrom(s, p).Some? ==> TagAt(s, FirstTagFrom(s, p).value)
    decreases |s| - p
  {
    if !TagAt(s, p) && p < |s| {
      FirstTagFromMatches(s, p + 1);
    }
  }

  /** A match at `t` with none in `[p, t)` is the leftmost one. */
  lemma {:induction false} FirstTagFromIs(s: string, p: nat, t: nat)
    requires p <= t <= |s| && TagAt(s, t)
    requires forall q :: p <= q < t ==> !TagAt(s, q)
    ensures FirstTagFrom(s, p) == Some(t)
    decreases t - p
  {
    if p < t {
      FirstTagFromIs(s, p + 1, t);
    }
  }

  /** The normalised name: the name up to the leftmost match, which runs to the end. */
  function Normalize(name: string): (r: string)
    ensures |r| <= |name| && r == name[..|r|]
  {
    match FirstTagFrom(name, 0)
    case None => name
    case Some(p) => name[..p]
  }

  /** Only a tag is ever removed: what is cut off is a match of the pattern. */
  lemma NormalizeCutsTag(name: string)
    ensures Normalize(name) == name || TagAt(name, |Normalize(name)|)
  {
    FirstTagFromMatches(name, 0);
  }

  /** A run of a character class from `i` stops at or before a character `k` outside it. */
  lemma {:induction false} RunEndBefore(s: string, i: nat, cls: CharClass, k: nat)
    requires i <= k < |s| && !InClass(s[k], cls)
    ensures RunEnd(s, i, cls) <= k
    decreases k - i
  {
    if i < k && InClass(s[i], cls) {
      RunEndBefore(s, i + 1, cls, k);
    }
  }

  lemma {:induction false} SpaceRunEndBefore(s: string, i: nat, k: nat)
    requires i <= k < |s| && !IsSpace(s[k])
    ensures SpaceRunEnd(s, i) <= k
    decreases k - i
  {
    if i < k && IsSpace(s[i]) {
      SpaceRunEndBefore(s, i + 1, k);
    }
  }

  /** The shape of a name with a trailing tag: `base`, white space, "(word)", white space. */
  predicate Tagged(s: string, base: string, ws1: string, word: string, ws2: string) {
    s == base + ws1 + "(" + word + ")" + ws2
    && (|base| == 0 || !IsSpace(base[|base| - 1]))
    && AllSpace(ws1) && AllSpace(ws2)
    && |word| > 0 && forall i :: 0 <= i < |word| ==> IsWordChar(word[i])
  }

  /** Where the pieces of a tagged name sit. */
  lemma TaggedIndex(s: string, base: string, ws1: string, word: string, ws2: string)
    requires Tagged(s, base, ws1, word, ws2)
    ensures var t0 := |base| + |ws1|; var c := t0 + 1 + |word|;
      |s| == c + 1 + |ws2| && s[..|base|] == base && s[t0] == '(' && s[c] == ')'
      && (|base| > 0 ==> !IsSpace(s[|base| - 1]))
      && (forall j {:trigger IsSpace(s[j])} :: |base| <= j < t0 ==> IsSpace(s[j]))
      && (forall j {:trigger InClass(s[j], Word)} :: t0 < j < c ==> InClass(s[j], Word))
      && (forall j {:trigger IsSpace(s[j])} :: c < j < |s| ==> IsSpace(s[j]))
  {
    var t0 := |base| + |ws1|;
    var c := t0 + 1 + |word|;
    forall j | |base| <= j < t0 ensures IsSpace(s[j]) {
      assert s[j] == ws1[j - |base|];
    }
    forall j | t0 < j < c ensures InClass(s[j], Word) {
      assert s[j] == word[j - t0 - 1];
    }
    forall j | c < j < |s| ensures IsSpace(s[j]) {
      assert s[j] == ws2[j - c - 1];
    }
    if |base| > 0 {
      assert s[|base| - 1] == base[|base| - 1];
    }
  }

  /** The pattern matches where the white space before the tag begins. */
  lemma TagAtBase(s: string, base: string, ws1: string, word: string, ws2: string)
    requires Tagged(s, base, ws1, word, ws2)
    ensures TagAt(s, |base|)
  {
    TaggedIndex(s, base, ws1, word, ws2);
    var t0 := |base| + |ws1|;
    var c := t0 + 1 + |word|;
    SpaceRunEndAt(s, |base|, |ws1|);
    assert !InClass(s[c], Word);
    RunEndAt(s, t0 + 1, Word, |word|);
    SpaceRunEndAt(s, c + 1, |ws2|);
  }

  /** No match starts inside `base`: a match there would have to reach the end through the "(" of
      the tag, which is neither white space nor a word character. */
  lemma NoTagInBase(s: string, base: string, ws1: string, word: string, ws2: string, q: nat)
    requires Tagged(s, base, ws1, word, ws2) && q < |base|
    ensures !TagAt(s, q)
  {
    TaggedIndex(s, base, ws1, word, ws2);
    var t0 := |base| + |ws1|;
    SpaceRunEndBefore(s, q, |base| - 1);
    var a := SpaceRunEnd(s, q);
    if s[a] == '(' {
      RunEndBefore(s, a + 1, Word, t0);
      var b := RunEnd(s, a + 1, Word);
      if b < |s| && s[b] == ')' {
        SpaceRunEndBefore(s, b + 1, t0);
      }
    }
  }

  /** The tag and the white space around it are removed, and nothing else. */
  lemma NormalizeStripsTag(s: string, base: string, ws1: string, word: string, ws2: string)
    requires Tagged(s, base, ws1, word, ws2)
    ensures Normalize(s) == base
  {
    TagAtBase(s, base, ws1, word, ws2);
    forall q | 0 <= q < |base| ensures !TagAt(s, q) {
      NoTagInBase(s, base, ws1, word, ws2, q);
    }
    FirstTagFromIs(s, 0, |base|);
    TaggedIndex(s, base, ws1, word, ws2);
  }

  /** "Intercessor Squad (x5)" is grouped as "Intercessor Squad". */
  lemma NormalizeExample()
    ensures Normalize("Intercessor Squad (x5)") == "Intercessor Squad"
  {
    var s := "Intercessor Squad (x5)";
    assert s == "Intercessor Squad" + " " + "(" + "x5" + ")" + "";
    NormalizeStripsTag(s, "Intercessor Squad", " ", "x5", "");
  }

  // ---------------------------------------------------------------------------------------
  // Grouping, counting and the points breakdown
  // ---------------------------------------------------------------------------------------

  /** The group a unit belongs to: its normalised name. */
  function NameKey(unit: Unit): string {
    Normalize(unit.name)
  }

  /** The units of group `key`, in roster order. */
  function UnitsNamed(units: seq<Unit>, key: string): seq<Unit> {
    KeyedUpTo(units, NameKey, key, |units|)
  }

  /** Some unit has the normalised name `key`. */
  predicate NameOccurs(units: seq<Unit>, key: string) {
    exists i :: 0 <= i < |units| && Normalize(units[i].name) == key
  }

  lemma NameOccursIsKeyOccurs(units: seq<Unit>, key: string)
    ensures NameOccurs(units, key) <==> KeyOccurs(units, NameKey, key, |units|)
  {
    if KeyOccurs(units, NameKey, key, |units|) {
      var i :| 0 <= i < |units| && NameKey(units[i]) == key;
      assert Normalize(units[i].name) == key;
    }
  }

  /** `groupUnitsByName` as a value. */
  function Groups(units: seq<Unit>): map<string, seq<Unit>> {
    GroupUpTo(units, NameKey, |units|)
  }

  /** `groupUnitsByName`: the `reduce` pushing each unit onto the group of its name. */
  method GroupUnitsByName(armyList: ArmyList) returns (groups: map<string, seq<Unit>>)
    ensures groups == Groups(armyList.units)
  {
    var units := armyList.units;
    groups := map[];
    for i := 0 to |units|
      invariant groups == GroupUpTo(units, NameKey, i)
    {
      var normalizedName := Normalize(units[i].name);
      if normalizedName !in groups {
        groups := groups[normalizedName := []];
      }
      groups := groups[normalizedName := groups[normalizedName] + [units[i]]];
    }
  }

  /** Every unit is placed in the group of its name and nowhere else: a group exists exactly for
      the names some unit has, and holds exactly the units of that name, in roster order. */
  lemma GroupsAreFilters(units: seq<Unit>, key: string)
    ensures key in Groups(units) <==> NameOccurs(units, key)
    ensures key in Groups(units) ==> Groups(units)[key] == UnitsNamed(units, key)
  {
    GroupUpToAt(units, NameKey, |units|, key);
    KeyedUpToNonEmpty(units, NameKey, key, |units|);
    NameOccursIsKeyOccurs(units, key);
  }

  function Cost(unit: Unit): int { unit.cost }

  lemma {:induction false} WeightSumOfCost(units: seq<Unit>)
    ensures WeightSum(units, Cost) == TotalCost(units)
  {
    if |units| > 0 {
      WeightSumOfCost(units[..|units| - 1]);
    }
  }

  /** `countUnitsByType` as a value. */
  function Counts(units: seq<Unit>): map<string, int> {
    TallyUpTo(units, NameKey, One, |units|)
  }

  /** `getPointsBreakdown` as a value. */
  function Breakdown(units: seq<Unit>): map<string, int> {
    TallyUpTo(units, NameKey, Cost, |units|)
  }

  /** The count of a type is the number of units with that normalised name. */
  lemma CountIsGroupSize(units: seq<Unit>, key: string)
    ensures key in Counts(units) <==> NameOccurs(units, key)
    ensures key in Counts(units) ==> Counts(units)[key] == |UnitsNamed(units, key)|
  {
    TallyUpToAt(units, NameKey, One, |units|, key);
    GroupsAreFilters(units, key);
    WeightSumOfOne(UnitsNamed(units, key));
  }

  /** The points of a type are the total cost of the units with that normalised name. */
  lemma BreakdownIsGroupCost(units: seq<Unit>, key: string)
    ensures key in Breakdown(units) <==> NameOccurs(units, key)
    ensures key in Breakdown(units) ==> Breakdown(units)[key] == TotalCost(UnitsNamed(units, key))
  {
    TallyUpToAt(units, NameKey, Cost, |units|, key);
    GroupsAreFilters(units, key);
    WeightSumOfCost(UnitsNamed(units, key));
  }

  /** `countUnitsByType`: the `for` loop over a counter dictionary. */
  method CountUnitsByType(armyList: ArmyList) returns (counters: map<string, int>)
    ensures counters == Counts(armyList.units)
  {
    var units := armyList.units;
    counters := map[];
    for i := 0 to |units|
      invariant counters == TallyUpTo(units, NameKey, One, i)
    {
      var unitType := Normalize(units[i].name);
      if unitType !in counters {
        counters := counters[unitType := 0];
      }
      counters := counters[unitType := counters[unitType] + 1];
    }
  }

  /** `getPointsBreakdown`: the same loop adding each unit's cost. An entry that is 0 is set to 0
      again before the addition, which changes nothing. */
  method GetPointsBreakdown(armyList: ArmyList) returns (breakdown: map<string, int>)
    ensures breakdown == Breakdown(armyList.units)
  {
    var units := armyList.units;
    breakdown := map[];
    for i := 0 to |units|
      invariant breakdown == TallyUpTo(units, NameKey, Cost, i)
    {
      var unitType := Normalize(units[i].name);
      if unitType !in breakdown || breakdown[unitType] == 0 {
        breakdown := breakdown[unitType := 0];
      }
      breakdown := breakdown[unitType := breakdown[unitType] + units[i].cost];
    }
  }

  /** The counts add up to the number of units: every unit is counted once. */
  lemma CountsSum(units: seq<Unit>)
    ensures MapSum(Counts(units)) == |units|
  {
    TallyUpToSum(units, NameKey, One, |units|);
    assert units[..|units|] == units;
    WeightSumOfOne(units);
  }

  /** The breakdown adds up to the total cost of the roster. */
  lemma BreakdownSum(units: seq<Unit>)
    ensures MapSum(Breakdown(units)) == TotalCost(units)
  {
    TallyUpToSum(units, NameKey, Cost, |units|);
    assert units[..|units|] == units;
    WeightSumOfCost(units);
  }

  // ---------------------------------------------------------------------------------------
  // Similar units
  // ---------------------------------------------------------------------------------------

  /** `findSimilarUnits`: for every name grouped in both rosters, the pair of its two groups. */
  function FindSimilarUnits(armyList1: ArmyList, armyList2: ArmyList): (r: map<string, seq<seq<Unit>>>)
    ensures forall k :: k in r ==> |r[k]| == 2
  {
    var groups1 := Groups(armyList1.units);
    var groups2 := Groups(armyList2.units);
    map unitType | unitType in groups1 && unitType in groups2 :: [groups1[unitType], groups2[unitType]]
  }

  /** The shared names are exactly those both rosters have, and the entry of a name holds the
      units of that name of each roster, in order. */
  lemma FindSimilarUnitsAt(armyList1: ArmyList, armyList2: ArmyList, key: string)
    ensures key in FindSimilarUnits(armyList1, armyList2) <==>
              NameOccurs(armyList1.units, key) && NameOccurs(armyList2.units, key)
    ensures key in FindSimilarUnits(armyList1, armyList2) ==>
              FindSimilarUnits(armyList1, armyList2)[key] ==
                [UnitsNamed(armyList1.units, key), UnitsNamed(armyList2.units, key)]
  {
    GroupsAreFilters(armyList1.units, key);
    GroupsAreFilters(armyList2.units, key);
  }

  // ---------------------------------------------------------------------------------------
  // All unit types
  // ---------------------------------------------------------------------------------------

  /** A name occurs in a concatenation of rosters exactly when it occurs in one of them. */
  lemma NameOccursAppend(a: seq<Unit>, b: seq<Unit>, key: string)
    ensures NameOccurs(a + b, key) <==> NameOccurs(a, key) || NameOccurs(b, key)
  {
    var units := a + b;
    if i :| 0 <= i < |units| && Normalize(units[i].name) == key {
      if i < |a| {
        assert units[i] == a[i];
      } else {
        assert units[i] == b[i - |a|];
      }
    }
    if i :| 0 <= i < |a| && Normalize(a[i].name) == key {
      assert units[i] == a[i];
    }
    if j :| 0 <= j < |b| && Normalize(b[j].name) == key {
      assert units[|a| + j] == b[j];
    }
  }

  /** `getAllUnitTypes` as a value: the sorted names of the units of both rosters. */
  function AllUnitTypes(armyList1: ArmyList, armyList2: ArmyList): seq<string> {
    var units := armyList1.units + armyList2.units;
    StringSort.Sort(KeysUpTo(units, NameKey, |units|))
  }

  /** The list is strictly increasing, so free of duplicates, and holds exactly the names of the
      units of either roster. */
  lemma AllUnitTypesSpec(armyList1: ArmyList, armyList2: ArmyList)
    ensures StringSort.StrictlySorted(AllUnitTypes(armyList1, armyList2))
    ensures StringSort.Distinct(AllUnitTypes(armyList1, armyList2))
    ensures forall t :: t in AllUnitTypes(armyList1, armyList2) <==>
              NameOccurs(armyList1.units, t) || NameOccurs(armyList2.units, t)
  {
    var units := armyList1.units + armyList2.units;
    KeysUpToMembers(units, NameKey, |units|);
    StringSort.SortSorted(KeysUpTo(units, NameKey, |units|));
    StringSort.SortedIsDistinct(AllUnitTypes(armyList1, armyList2));
    forall t ensures KeyOccurs(units, NameKey, t, |units|) <==>
                     NameOccurs(armyList1.units, t) || NameOccurs(armyList2.units, t)
    {
      NameOccursIsKeyOccurs(units, t);
      NameOccursAppend(armyList1.units, armyList2.units, t);
    }
  }

  /** `getAllUnitTypes`: a `Set` filled in a loop over both rosters, then sorted. */
  method GetAllUnitTypes(armyList1: ArmyList, armyList2: ArmyList) returns (r: seq<string>)
    ensures r == AllUnitTypes(armyList1, armyList2)
    ensures StringSort.StrictlySorted(r)
    ensures forall t :: t in r <==> NameOccurs(armyList1.units, t) || NameOccurs(armyList2.units, t)
  {
    var units := armyList1.units + armyList2.units;
    var types: seq<string> := [];
    for i := 0 to |units|
      invariant types == KeysUpTo(units, NameKey, i)
    {
      var unitType := Normalize(units[i].name);
      if unitType !in types {
        types := types + [unitType];
      }
    }
    r := StringSort.Sort(types);
    AllUnitTypesSpec(armyList1, armyList2);
  }

  // ---------------------------------------------------------------------------------------
  // Search
  // ---------------------------------------------------------------------------------------

  /** The lowercased `term` occurs in the unit's name, an ability's name or description, a rule,
      or a ranged or melee weapon's name. */
  predicate Mentions(unit: Unit, term: string) {
    Contains(ToLower(unit.name), term)
    || (exists i :: 0 <= i < |unit.abilities| &&
          (Contains(ToLower(unit.abilities[i].name), term) || Contains(ToLower(unit.abilities[i].description), term)))
    || (exists i :: 0 <= i < |unit.rules| && Contains(ToLower(unit.rules[i]), term))
    || (exists i :: 0 <= i < |unit.rangedWeapons| && Contains(ToLower(unit.rangedWeapons[i].name), term))
    || (exists i :: 0 <= i < |unit.meleeWeapons| && Contains(ToLower(unit.meleeWeapons[i].name), term))
  }

  /** `searchUnits` */
  function SearchUnits(armyList: ArmyList, searchTerm: string): (r: seq<Unit>)
    ensures |searchTerm| == 0 ==> r == []
    ensures |r| <= |armyList.units|
  {
    if |searchTerm| == 0 then [] else Filter(armyList.units, ToLower(searchTerm), Mentions)
  }

  /** A non-empty search finds exactly the units that mention the term. */
  lemma SearchUnitsMembers(armyList: ArmyList, searchTerm: string)
    requires |searchTerm| > 0
    ensures forall u :: u in SearchUnits(armyList, searchTerm) <==>
              u in armyList.units && Mentions(u, ToLower(searchTerm))
  {
    FilterMembers(armyList.units, ToLower(searchTerm), Mentions);
  }

  /** The search keeps roster order: searching a concatenation of rosters searches each. */
  lemma SearchUnitsKeepsOrder(a: ArmyList, b: ArmyList, both: ArmyList, searchTerm: string)
    requires both.units == a.units + b.units
    ensures SearchUnits(both, searchTerm) == SearchUnits(a, searchTerm) + SearchUnits(b, searchTerm)
  {
    if |searchTerm| > 0 {
      FilterAppend(a.units, b.units, ToLower(searchTerm), Mentions);
    }
  }
}
