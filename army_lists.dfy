/** The roster store of the army-list hook: the assembly of a roster from a parsed document by
    the parsing helpers, and the state the page keeps (the roster slots and the highlighted unit). */
module ArmyLists {
  import opened Wrappers
  import opened Strings
  import opened Types
  import opened Dom
  import opened ParseUtils
  import Parser

  // ---------------------------------------------------------------------------------------
  // Assembly
  // ---------------------------------------------------------------------------------------

  /** The `.profile` elements of a section: those under its container, none without a container. */
  function SectionProfiles(unitElement: Node, sectionName: string): (r: seq<ElementRef>)
    ensures FindSectionContainer(unitElement, sectionName).None? ==> r == []
  {
    match FindSectionContainer(unitElement, sectionName)
    case None => []
    case Some(c) => QuerySelectorAll(c.node, ClassSel("profile"))
  }

  /** The `.map` over the `.profile` elements of a section: one entry per element, in document
      order. */
  function ProfilesIn(elements: seq<ElementRef>): (r: seq<Profile>)
    ensures |r| == |elements|
    ensures forall k :: 0 <= k < |elements| ==> r[k] == ParseProfile(elements[k].node)
  {
    seq(|elements|, k requires 0 <= k < |elements| => ParseProfile(elements[k].node))
  }

  function WeaponsIn(elements: seq<ElementRef>): (r: seq<Weapon>)
    ensures |r| == |elements|
    ensures forall k :: 0 <= k < |elements| ==> r[k] == ParseWeapon(elements[k].node)
  {
    seq(|elements|, k requires 0 <= k < |elements| => ParseWeapon(elements[k].node))
  }

  function AbilitiesIn(elements: seq<ElementRef>): (r: seq<Ability>)
    ensures |r| == |elements|
    ensures forall k :: 0 <= k < |elements| ==> r[k] == ParseAbility(elements[k].node)
  {
    seq(|elements|, k requires 0 <= k < |elements| => ParseAbility(elements[k].node))
  }

  /** The container of the rules: the parent of the first `.rule`, none without one. */
  function RulesContainer(unitElement: Node): Option<Node> {
    match QuerySelector(unitElement, ClassSel("rule"))
    case None => None
    case Some(r) => Some(ParentElement(r))
  }

  /** The unit of the card at position `unitIndex`. */
  function AssembleUnit(unitElement: Node, unitIndex: nat): (u: Unit)
    ensures u.name == GetTextContent(NodeOf(QuerySelector(unitElement, ClassSel("name"))))
    ensures u.id == Parser.UnitId(u.name, unitIndex)
    ensures u.cost == ParseCost(GetTextContent(NodeOf(QuerySelector(unitElement, ClassSel("cost")))))
    ensures IsTrimmed(u.name)
    ensures u.unitProfiles == ProfilesIn(SectionProfiles(unitElement, "Unit"))
    ensures u.rangedWeapons == WeaponsIn(SectionProfiles(unitElement, "Ranged Weapons"))
    ensures u.meleeWeapons == WeaponsIn(SectionProfiles(unitElement, "Melee Weapons"))
    ensures u.abilities == AbilitiesIn(SectionProfiles(unitElement, "Abilities"))
    ensures u.rules == ParseRules(RulesContainer(unitElement))
  {
    var unitName := GetTextContent(NodeOf(QuerySelector(unitElement, ClassSel("name"))));
    var costText := GetTextContent(NodeOf(QuerySelector(unitElement, ClassSel("cost"))));
    Unit(Parser.UnitId(unitName, unitIndex), unitName, ParseCost(costText),
         ProfilesIn(SectionProfiles(unitElement, "Unit")),
         WeaponsIn(SectionProfiles(unitElement, "Ranged Weapons")),
         WeaponsIn(SectionProfiles(unitElement, "Melee Weapons")),
         AbilitiesIn(SectionProfiles(unitElement, "Abilities")),
         ParseRules(RulesContainer(unitElement)))
  }

  /** `units.reduce((sum, unit) => sum + unit.cost, start)`: a fold from the left. */
  function ReduceCost(units: seq<Unit>, start: int): int
    decreases |units|
  {
    if |units| == 0 then start else ReduceCost(units[1..], start + units[0].cost)
  }

  /** The left fold is the total cost. */
  lemma {:induction false} ReduceCostIsTotal(units: seq<Unit>, start: int)
    ensures ReduceCost(units, start) == start + TotalCost(units)
    decreases |units|
  {
    if |units| > 0 {
      ReduceCostIsTotal(units[1..], start + units[0].cost);
      TotalCostAppend([units[0]], units[1..]);
      assert [units[0]] + units[1..] == units;
      assert TotalCost([units[0]]) == units[0].cost by {
        assert [units[0]][..0] == [];
      }
    }
  }

  /** The inner `parseArmyList` of the hook. `doc` is the outcome of parsing the uploaded HTML:
      None when parsing throws, which the hook turns into null. `now` is the clock reading the
      roster id is made from. */
  function AssembleArmyList(doc: Option<Document>, name: string, now: nat): (r: Option<ArmyList>)
    ensures doc.None? <==> r.None?
    ensures r.Some? ==> r.value.name == name && r.value.id == "army-" + NatToString(now)
    ensures r.Some? ==> r.value.totalPoints == TotalCost(r.value.units)
    ensures r.Some? ==> |r.value.units| == |Parser.Cards(doc.value)|
  {
    match doc
    case None => None
    case Some(d) =>
      var units := Parser.MapIndexed(Parser.Cards(d), AssembleUnit, |Parser.Cards(d)|);
      ReduceCostIsTotal(units, 0);
      Some(ArmyList("army-" + NatToString(now), name, units, ReduceCost(units, 0)))
  }

  /** The unit at position `i` is the one assembled from card `i`. */
  lemma {:induction false} AssembledUnitAt(doc: Document, name: string, now: nat, i: nat)
    requires i < |Parser.Cards(doc)|
    ensures AssembleArmyList(Some(doc), name, now).value.units[i] == AssembleUnit(Parser.Cards(doc)[i].node, i)
  {
    Parser.MapIndexedAt(Parser.Cards(doc), AssembleUnit, |Parser.Cards(doc)|, i);
  }

  /** The units of an assembled roster have pairwise distinct ids. */
  lemma {:induction false} AssembledIdsDistinct(doc: Document, name: string, now: nat)
    ensures var units := AssembleArmyList(Some(doc), name, now).value.units;
            forall i, j :: 0 <= i < |units| && 0 <= j < |units| && i != j ==> units[i].id != units[j].id
  {
    var units := AssembleArmyList(Some(doc), name, now).value.units;
    forall i, j | 0 <= i < |units| && 0 <= j < |units| && units[i].id == units[j].id
      ensures i == j
    {
      AssembledUnitAt(doc, name, now, i);
      AssembledUnitAt(doc, name, now, j);
      Parser.UnitIdDeterminesIndex(units[i].name, i, units[j].name, j);
    }
  }

  // ---------------------------------------------------------------------------------------
  // The store
  // ---------------------------------------------------------------------------------------

  /** `updated[index] = list` on a copy of the slots: the slot is replaced, and a slot past the
      end extends the slots with holes (None) up to it. */
  function SetSlot(slots: seq<Option<ArmyList>>, index: nat, list: ArmyList): (r: seq<Option<ArmyList>>)
    ensures |r| == if index < |slots| then |slots| else index + 1
    ensures r[index] == Some(list)
    ensures forall j :: 0 <= j < |r| && j != index ==> r[j] == if j < |slots| then slots[j] else None
  {
    if index < |slots| then slots[index := Some(list)]
    else slots + seq(index - |slots|, _ => None) + [Some(list)]
  }

  /** Slot 1 of no slots: two slots, a hole and the list. */
  lemma SetSlotExample(list: ArmyList)
    ensures SetSlot([], 1, list) == [None, Some(list)]
  {
    var r := SetSlot([], 1, list);
    assert r[0] == None;
  }

  /** `prevId === unitId ? null : unitId` */
  function Toggle(prev: Option<string>, unitId: string): (r: Option<string>)
    ensures r.None? <==> prev == Some(unitId)
    ensures r.Some? ==> r.value == unitId
  {
    if prev == Some(unitId) then None else Some(unitId)
  }

  /** Toggling the same id twice from nothing, or from that id, restores the highlight. */
  lemma ToggleTwice(prev: Option<string>, unitId: string)
    requires prev.None? || prev == Some(unitId)
    ensures Toggle(Toggle(prev, unitId), unitId) == prev
  {
  }

  class ArmyListStore {
    /** The roster slots; None is a hole left by an upload past the end. */
    var armyLists: seq<Option<ArmyList>>
    var highlightedUnitId: Option<string>

    constructor()
      ensures armyLists == [] && highlightedUnitId == None
    {
      armyLists := [];
      highlightedUnitId := None;
    }

    /** `handleArmyListUpload`: a roster that parses goes into slot `index`; a failed parse
        changes nothing. */
    method Upload(doc: Option<Document>, name: string, now: nat, index: nat)
      modifies this
      ensures AssembleArmyList(doc, name, now).None? ==> armyLists == old(armyLists)
      ensures AssembleArmyList(doc, name, now).Some? ==>
                armyLists == SetSlot(old(armyLists), index, AssembleArmyList(doc, name, now).value)
      ensures highlightedUnitId == old(highlightedUnitId)
    {
      var parsedList := AssembleArmyList(doc, name, now);
      if parsedList.Some? {
        armyLists := SetSlot(armyLists, index, parsedList.value);
      }
    }

    /** `handleHighlightUnit` */
    method Highlight(unitId: string)
      modifies this
      ensures highlightedUnitId == Toggle(old(highlightedUnitId), unitId)
      ensures armyLists == old(armyLists)
    {
      highlightedUnitId := Toggle(highlightedUnitId, unitId);
    }

    /** `resetArmyLists` */
    method Reset()
      modifies this
      ensures armyLists == [] && highlightedUnitId == None
    {
      armyLists := [];
      highlightedUnitId := None;
    }
  }
}
