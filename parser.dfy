/** The roster parser as written in the parser module: one pass over the unit cards of a parsed
    document that accumulates the units and the points total, walks the siblings that follow a
    "Unit" heading, fills the stat lists by pushing, and keeps the section of the last matching
    heading. Each loop is proved against a function that states what it computes. */
module Parser {
  import opened Wrappers
  import opened Strings
  import opened Types
  import opened Dom
  import Sequences
  import ParseUtils

  // ---------------------------------------------------------------------------------------
  // Text and cost
  // ---------------------------------------------------------------------------------------

  /** `el ? el.textContent || '' : ''`: the untrimmed text of an element, "" for a missing one. */
  function RawText(r: Option<ElementRef>): (t: string)
    ensures r.None? ==> t == ""
    ensures r.Some? ==> t == TextContent(r.value.node)
  {
    match r
    case Some(x) => TextContent(x.node)
    case None => ""
  }

  /** `parseInt(costText.replace('pts:', '').trim()) || 0` */
  function CostOf(costText: string): int {
    ParseIntOr(Trim(ReplaceFirst(costText, "pts:", "")), 0)
  }

  /** A cost written "pts:", white space and a numeral is that number. */
  lemma {:induction false} CostOfPoints(ws: string, n: nat)
    requires AllSpace(ws)
    ensures CostOf("pts:" + ws + NatToString(n)) == n
  {
    var t := NatToString(n);
    var s := "pts:" + ws + t;
    assert OccursAt(s, "pts:", 0) by {
      assert s[0] == 'p' && s[1] == 't' && s[2] == 's' && s[3] == ':';
    }
    IndexOfAt(s, "pts:", 0);
    assert s[..0] + "" + s[4..] == ws + t;
    TrimOfSpacePrefix(ws, t);
    ParseIntOfNatToString(n);
  }

  /** Trimming white space followed by a numeral leaves the numeral. */
  lemma {:induction false} TrimOfSpacePrefix(ws: string, t: string)
    requires AllSpace(ws) && |t| >= 1 && AllDigits(t)
    ensures Trim(ws + t) == t
  {
    var s := ws + t;
    assert forall j :: 0 <= j < |ws| ==> IsSpace(s[j]) by {
      forall j | 0 <= j < |ws| ensures IsSpace(s[j]) {
        assert s[j] == ws[j];
        assert IsSpace(ws[j]);
      }
    }
    assert s[|ws|] == t[0] && IsDigit(t[0]);
    SpaceRunIs(s, |ws|);
    assert TrimStart(s) == t;
    assert IsDigit(t[|t| - 1]);
    TrimEndUnchanged(t);
  }

  lemma {:induction false} SpaceRunIs(s: string, n: nat)
    requires n < |s| && !IsSpace(s[n]) && forall j {:trigger IsSpace(s[j])} :: 0 <= j < n ==> IsSpace(s[j])
    ensures SpaceRunEnd(s, 0) == n
  {
    SpaceRunFrom(s, 0, n);
  }

  lemma {:induction false} SpaceRunFrom(s: string, i: nat, n: nat)
    requires i <= n < |s| && !IsSpace(s[n]) && forall j {:trigger IsSpace(s[j])} :: i <= j < n ==> IsSpace(s[j])
    ensures SpaceRunEnd(s, i) == n
    decreases n - i
  {
    if i < n {
      assert IsSpace(s[i]);
      SpaceRunFrom(s, i + 1, n);
    }
  }

  // ---------------------------------------------------------------------------------------
  // Stats of unit profiles and weapons
  // ---------------------------------------------------------------------------------------

  /** A unit-profile stat: the text split on single spaces; skipped (None) when there is no
      space, otherwise the first part trimmed as the name and the other parts rejoined, without
      `<strong>` tags and trimmed, as the value. */
  function ProfileStat(text: string): Option<Stat> {
    var parts := Split(text, ' ');
    if |parts| >= 2 then Some(Stat(Trim(parts[0]), Trim(StripStrong(Join(parts[1..], ' '))))) else None
  }

  /** A profile stat exists exactly when the text has a space; its name is the text before the
      first space and its value the text after it. */
  lemma {:induction false} ProfileStatSplitsAtFirstSpace(text: string)
    ensures ProfileStat(text).Some? <==> CharIndexFrom(text, ' ', 0).Some?
    ensures ProfileStat(text).Some? ==>
              var i := CharIndexFrom(text, ' ', 0).value;
              ProfileStat(text).value == Stat(Trim(text[..i]), Trim(StripStrong(text[i + 1..])))
  {
    SplitHead(text, ' ');
    SplitTail(text, ' ');
  }

  /** A weapon stat: `const [name, valueWithTags] = text.split(' ')`, so the name is the first
      part and the value only the second part without `<strong>` tags ("" when there is none). */
  function WeaponStat(text: string): Stat {
    var parts := Split(text, ' ');
    Stat(parts[0], if |parts| >= 2 then StripStrong(parts[1]) else "")
  }

  /** The text before the first space of `s` (all of `s` when there is none). */
  function FirstWord(s: string): (r: string)
    ensures |r| <= |s| && ' ' !in r
  {
    match CharIndexFrom(s, ' ', 0)
    case Some(i) => s[..i]
    case None => s
  }

  /** The weapon stat's name is the first word and its value the second word: every part after
      the second is dropped, and a text without a space has an empty value. */
  lemma {:induction false} WeaponStatKeepsSecondWord(text: string)
    ensures WeaponStat(text).name == FirstWord(text)
    ensures CharIndexFrom(text, ' ', 0).None? ==> WeaponStat(text).value == ""
    ensures CharIndexFrom(text, ' ', 0).Some? ==>
              WeaponStat(text).value == StripStrong(FirstWord(text[CharIndexFrom(text, ' ', 0).value + 1..]))
  {
    SplitHead(text, ' ');
    if CharIndexFrom(text, ' ', 0).Some? {
      var i := CharIndexFrom(text, ' ', 0).value;
      SplitHead(text[i + 1..], ' ');
    }
  }

  /** The values of the first `n` entries that are present, in order. */
  function Present<T>(xs: seq<Option<T>>, n: nat): (r: seq<T>)
    requires n <= |xs|
    ensures |r| <= n
  {
    if n == 0 then []
    else Present(xs, n - 1) + (if xs[n - 1].Some? then [xs[n - 1].value] else [])
  }

  /** With every entry present, nothing is dropped. */
  lemma {:induction false} PresentOfAllSome<T>(xs: seq<Option<T>>, n: nat)
    requires n <= |xs| && forall k :: 0 <= k < n ==> xs[k].Some?
    ensures |Present(xs, n)| == n
    ensures forall k :: 0 <= k < n ==> Some(Present(xs, n)[k]) == xs[k]
  {
    if n > 0 {
      PresentOfAllSome(xs, n - 1);
    }
  }

  /** Each stat element's text read as a unit-profile stat. */
  function StatOptions(statElements: seq<ElementRef>): (r: seq<Option<Stat>>)
    ensures |r| == |statElements|
  {
    seq(|statElements|, k requires 0 <= k < |statElements| => ProfileStat(TextContent(statElements[k].node)))
  }

  /** The stats of a unit profile, in order: those of the stat elements whose text splits. */
  function ProfileStats(statElements: seq<ElementRef>): seq<Stat> {
    Present(StatOptions(statElements), |statElements|)
  }

  /** When every stat text has a space, there is one stat per element, in order. */
  lemma {:induction false} ProfileStatsOfSpaced(statElements: seq<ElementRef>)
    requires forall k :: 0 <= k < |statElements| ==> ' ' in TextContent(statElements[k].node)
    ensures |ProfileStats(statElements)| == |statElements|
    ensures forall k :: 0 <= k < |statElements| ==> Some(ProfileStats(statElements)[k]) == ProfileStat(TextContent(statElements[k].node))
  {
    var opts := StatOptions(statElements);
    forall k | 0 <= k < |statElements| ensures opts[k].Some? {
      CharIndexOfPresent(TextContent(statElements[k].node), ' ');
      ProfileStatSplitsAtFirstSpace(TextContent(statElements[k].node));
    }
    PresentOfAllSome(opts, |statElements|);
  }

  lemma {:induction false} CharIndexOfPresent(s: string, c: char)
    requires c in s
    ensures CharIndexFrom(s, c, 0).Some?
  {
    var k :| 0 <= k < |s| && s[k] == c;
  }

  /** The `push` loop over a unit profile's stat elements. */
  method ReadProfileStats(statElements: seq<ElementRef>) returns (stats: seq<Stat>)
    ensures stats == ProfileStats(statElements)
  {
    stats := [];
    for i := 0 to |statElements|
      invariant stats == Present(StatOptions(statElements), i)
    {
      var parts := Split(TextContent(statElements[i].node), ' ');
      if |parts| >= 2 {
        stats := stats + [Stat(Trim(parts[0]), Trim(StripStrong(Join(parts[1..], ' '))))];
      }
    }
  }

  /** The `push` loop over a weapon's stat elements: one stat per element, in order. */
  method ReadWeaponStats(statElements: seq<ElementRef>) returns (stats: seq<Stat>)
    ensures |stats| == |statElements|
    ensures forall k :: 0 <= k < |stats| ==> stats[k] == WeaponStat(TextContent(statElements[k].node))
  {
    stats := [];
    for i := 0 to |statElements|
      invariant |stats| == i
      invariant forall k :: 0 <= k < i ==> stats[k] == WeaponStat(TextContent(statElements[k].node))
    {
      var parts := Split(TextContent(statElements[i].node), ' ');
      var value := if |parts| >= 2 then StripStrong(parts[1]) else "";
      stats := stats + [Stat(parts[0], value)];
    }
  }

  // ---------------------------------------------------------------------------------------
  // Sections
  // ---------------------------------------------------------------------------------------

  /** `findElementsWithText`: the elements matching `selector` below `parent` whose untrimmed
      text contains `text`, in document order. */
  function ElementsWithText(refs: seq<ElementRef>, text: string): (r: seq<ElementRef>)
    ensures |r| <= |refs|
  {
    if |refs| == 0 then []
    else (if Contains(TextContent(refs[0].node), text) then [refs[0]] else []) + ElementsWithText(refs[1..], text)
  }

  /** The filter keeps exactly the elements whose text contains `text`. */
  lemma {:induction false} ElementsWithTextMembers(refs: seq<ElementRef>, text: string)
    ensures forall x :: x in ElementsWithText(refs, text) <==> x in refs && Contains(TextContent(x.node), text)
  {
    if |refs| > 0 {
      ElementsWithTextMembers(refs[1..], text);
      assert refs == [refs[0]] + refs[1..];
    }
  }

  function Headings(unit: Node, text: string): seq<ElementRef> {
    ElementsWithText(QuerySelectorAll(unit, ClassSel("type")), text)
  }

  /** The measure of a sibling walk: how many positions are left after an element. */
  function Remaining(r: Option<ElementRef>): nat {
    match r
    case Some(x) => if x.index < |Kids(x.parent)| then |Kids(x.parent)| - x.index + 1 else 1
    case None => 0
  }

  /** The elements from `r` on while they have class `profile`, each the next element sibling of
      the one before. */
  function ProfileRun(r: Option<ElementRef>): seq<ElementRef>
    decreases Remaining(r)
  {
    if r.Some? && HasClass(r.value.node, "profile") then [r.value] + ProfileRun(NextElementSibling(r.value))
    else []
  }

  /** The walk follows the siblings and stops at the first element without class `profile`. */
  lemma {:induction false} ProfileRunFollowsSiblings(r: Option<ElementRef>)
    ensures var run := ProfileRun(r);
            forall k :: 0 <= k < |run| ==> HasClass(run[k].node, "profile")
    ensures var run := ProfileRun(r);
            |run| > 0 ==> run[0] == r.value
    ensures var run := ProfileRun(r);
            forall k :: 0 <= k < |run| - 1 ==> NextElementSibling(run[k]) == Some(run[k + 1])
    ensures var run := ProfileRun(r);
            |run| == 0 ==> r.None? || !HasClass(r.value.node, "profile")
    ensures var run := ProfileRun(r);
            |run| > 0 ==> var after := NextElementSibling(run[|run| - 1]);
                          after.None? || !HasClass(after.value.node, "profile")
    decreases Remaining(r)
  {
    if r.Some? && HasClass(r.value.node, "profile") {
      var next := NextElementSibling(r.value);
      ProfileRunFollowsSiblings(next);
      var run := ProfileRun(r);
      var rest := ProfileRun(next);
      assert run == [r.value] + rest;
      forall k | 0 <= k < |run| - 1 ensures NextElementSibling(run[k]) == Some(run[k + 1]) {
        if k > 0 {
          assert run[k] == rest[k - 1] && run[k + 1] == rest[k];
        }
      }
      forall k | 0 <= k < |run| ensures HasClass(run[k].node, "profile") {
        if k > 0 {
          assert run[k] == rest[k - 1];
        }
      }
    }
  }

  /** The `while` walk from one heading: the profiles that immediately follow it. */
  method WalkProfiles(heading: ElementRef) returns (found: seq<ElementRef>)
    ensures found == ProfileRun(NextElementSibling(heading))
  {
    found := [];
    var next := NextElementSibling(heading);
    while next.Some? && HasClass(next.value.node, "profile")
      invariant found + ProfileRun(next) == ProfileRun(NextElementSibling(heading))
      decreases Remaining(next)
    {
      found := found + [next.value];
      next := NextElementSibling(next.value);
    }
  }

  /** The profiles following each of the first `n` "Unit" headings, heading by heading. */
  function UnitProfileElementsUpTo(headings: seq<ElementRef>, n: nat): seq<ElementRef>
    requires n <= |headings|
  {
    if n == 0 then []
    else UnitProfileElementsUpTo(headings, n - 1) + ProfileRun(NextElementSibling(headings[n - 1]))
  }

  function UnitProfileElements(headings: seq<ElementRef>): seq<ElementRef> {
    UnitProfileElementsUpTo(headings, |headings|)
  }

  /** The `forEach` over the "Unit" headings. */
  method CollectProfileElements(headings: seq<ElementRef>) returns (elements: seq<ElementRef>)
    ensures elements == UnitProfileElements(headings)
  {
    elements := [];
    for i := 0 to |headings|
      invariant elements == UnitProfileElementsUpTo(headings, i)
    {
      var run := WalkProfiles(headings[i]);
      elements := elements + run;
    }
  }

  /** A heading whose next element sibling is a DIV holds its section there. */
  predicate HoldsSection(heading: ElementRef) {
    var d := NextElementSibling(heading);
    d.Some? && d.value.node.tag == "DIV"
  }

  /** The last of the first `n` headings that holds a section: later headings win. */
  function LastHolderBefore(headings: seq<ElementRef>, n: nat): (r: Option<nat>)
    requires n <= |headings|
    ensures r.Some? ==> r.value < n && HoldsSection(headings[r.value])
    ensures r.Some? ==> forall j :: r.value < j < n ==> !HoldsSection(headings[j])
    ensures r.None? ==> forall j :: 0 <= j < n ==> !HoldsSection(headings[j])
  {
    if n == 0 then None
    else if HoldsSection(headings[n - 1]) then Some(n - 1)
    else LastHolderBefore(headings, n - 1)
  }

  /** The `.profile` elements of the DIV after the heading at `holder`; none without one. */
  function SectionOf(headings: seq<ElementRef>, holder: Option<nat>): seq<ElementRef>
    requires holder.Some? ==> holder.value < |headings| && HoldsSection(headings[holder.value])
  {
    match holder
    case None => []
    case Some(k) => QuerySelectorAll(NextElementSibling(headings[k]).value.node, ClassSel("profile"))
  }

  function SectionElements(headings: seq<ElementRef>): seq<ElementRef> {
    SectionOf(headings, LastHolderBefore(headings, |headings|))
  }

  /** The `forEach` over the headings that reassigns the section's elements. */
  method FindSectionElements(headings: seq<ElementRef>) returns (elements: seq<ElementRef>)
    ensures elements == SectionElements(headings)
  {
    elements := [];
    for i := 0 to |headings|
      invariant elements == SectionOf(headings, LastHolderBefore(headings, i))
    {
      var containerDiv := NextElementSibling(headings[i]);
      assert LastHolderBefore(headings, i + 1) == if HoldsSection(headings[i]) then Some(i) else LastHolderBefore(headings, i);
      if containerDiv.Some? && containerDiv.value.node.tag == "DIV" {
        elements := QuerySelectorAll(containerDiv.value.node, ClassSel("profile"));
      }
    }
  }

  // ---------------------------------------------------------------------------------------
  // Profiles, weapons, abilities and rules
  // ---------------------------------------------------------------------------------------

  function ProfileOf(profileElement: Node): (p: Profile)
    ensures p.stats == ProfileStats(QuerySelectorAll(profileElement, ClassSel("stat")))
  {
    Profile(RawText(QuerySelector(profileElement, NotClass("stat"))),
            ProfileStats(QuerySelectorAll(profileElement, ClassSel("stat"))))
  }

  /** A weapon: the untrimmed text of the first element that is not a `.stat`, and one weapon
      stat per `.stat` element, in document order. */
  function WeaponOf(weaponElement: Node): (w: Weapon)
    ensures w.name == RawText(QuerySelector(weaponElement, NotClass("stat")))
    ensures var stats := QuerySelectorAll(weaponElement, ClassSel("stat"));
            |w.stats| == |stats| &&
            forall k :: 0 <= k < |stats| ==> w.stats[k] == WeaponStat(TextContent(stats[k].node))
  {
    var stats := QuerySelectorAll(weaponElement, ClassSel("stat"));
    Weapon(RawText(QuerySelector(weaponElement, NotClass("stat"))),
           seq(|stats|, k requires 0 <= k < |stats| => WeaponStat(TextContent(stats[k].node))))
  }

  /** The position of the first element at or after `i` whose untrimmed text contains "Description". */
  function FirstDescriptionFrom(stats: seq<ElementRef>, i: nat): (r: Option<nat>)
    ensures r.Some? ==> i <= r.value < |stats| && Contains(TextContent(stats[r.value].node), "Description")
    ensures r.Some? ==> forall j :: i <= j < r.value ==> !Contains(TextContent(stats[j].node), "Description")
    ensures r.None? ==> forall j :: i <= j < |stats| ==> !Contains(TextContent(stats[j].node), "Description")
    decreases |stats| - i
  {
    if i >= |stats| then None
    else if Contains(TextContent(stats[i].node), "Description") then Some(i)
    else FirstDescriptionFrom(stats, i + 1)
  }

  /** The description of an ability: the first stat mentioning "Description", with the first
      "Description" and every `<strong>` tag removed, trimmed; "" when no stat mentions it. */
  function DescriptionOf(abilityElement: Node): (d: string)
    ensures FirstDescriptionFrom(QuerySelectorAll(abilityElement, ClassSel("stat")), 0).None? ==> d == ""
    ensures var stats := QuerySelectorAll(abilityElement, ClassSel("stat"));
            FirstDescriptionFrom(stats, 0).Some? ==>
              var k := FirstDescriptionFrom(stats, 0).value;
              d == Trim(StripStrong(ReplaceFirst(TextContent(stats[k].node), "Description", "")))
    ensures IsTrimmed(d)
  {
    var stats := QuerySelectorAll(abilityElement, ClassSel("stat"));
    match FirstDescriptionFrom(stats, 0)
    case None => ""
    case Some(k) =>
      var d := Trim(StripStrong(ReplaceFirst(TextContent(stats[k].node), "Description", "")));
      TrimIsTrimmed(StripStrong(ReplaceFirst(TextContent(stats[k].node), "Description", "")));
      d
  }

  /** An ability: the untrimmed name and the description that `DescriptionOf` reads. */
  function AbilityOf(abilityElement: Node): (a: Ability)
    ensures a.name == RawText(QuerySelector(abilityElement, NotClass("stat")))
    ensures a.description == DescriptionOf(abilityElement) && IsTrimmed(a.description)
    ensures FirstDescriptionFrom(QuerySelectorAll(abilityElement, ClassSel("stat")), 0).None? ==>
              a.description == ""
  {
    Ability(RawText(QuerySelector(abilityElement, NotClass("stat"))), DescriptionOf(abilityElement))
  }

  /** The non-empty untrimmed texts of the first `n` elements, in order. */
  function RuleTextsUpTo(ruleElements: seq<ElementRef>, n: nat): (r: seq<string>)
    requires n <= |ruleElements|
    ensures |r| <= n
  {
    if n == 0 then []
    else
      var t := TextContent(ruleElements[n - 1].node);
      RuleTextsUpTo(ruleElements, n - 1) + (if |t| > 0 then [t] else [])
  }

  function RuleTexts(ruleElements: seq<ElementRef>): seq<string> {
    RuleTextsUpTo(ruleElements, |ruleElements|)
  }

  /** The untrimmed text of each element, in order. */
  function RawTexts(ruleElements: seq<ElementRef>): (r: seq<string>)
    ensures |r| == |ruleElements|
    ensures forall k :: 0 <= k < |ruleElements| ==> r[k] == TextContent(ruleElements[k].node)
  {
    seq(|ruleElements|, k requires 0 <= k < |ruleElements| => TextContent(ruleElements[k].node))
  }

  /** The pushed rules are the order-keeping filter of the raw texts that drops the empty ones,
      the same `filter(Boolean)` as in `parseRules`. */
  lemma {:induction false} RuleTextsAreFilter(ruleElements: seq<ElementRef>, n: nat)
    requires n <= |ruleElements|
    ensures RuleTextsUpTo(ruleElements, n) ==
              Sequences.FilterUpTo(RawTexts(ruleElements), (), ParseUtils.IsNonEmptyText, n)
  {
    if n > 0 {
      RuleTextsAreFilter(ruleElements, n - 1);
    }
  }

  /** Document order and repeats: the rules of two runs of elements are those of the first run
      followed by those of the second, and one element gives its text exactly when it is not
      empty. */
  lemma RuleTextsKeepOrder(a: seq<ElementRef>, b: seq<ElementRef>, e: ElementRef)
    ensures RuleTexts(a + b) == RuleTexts(a) + RuleTexts(b)
    ensures RuleTexts([e]) == if |TextContent(e.node)| > 0 then [TextContent(e.node)] else []
  {
    RuleTextsAreFilter(a + b, |a + b|);
    RuleTextsAreFilter(a, |a|);
    RuleTextsAreFilter(b, |b|);
    RuleTextsAreFilter([e], 1);
    assert RawTexts(a + b) == RawTexts(a) + RawTexts(b);
    Sequences.FilterAppend(RawTexts(a), RawTexts(b), (), ParseUtils.IsNonEmptyText);
    assert RawTexts([e]) == [TextContent(e.node)];
    Sequences.FilterOfOne(TextContent(e.node), (), ParseUtils.IsNonEmptyText);
  }

  /** The rules are the non-empty texts of the elements and nothing else. */
  lemma {:induction false} RuleTextsMembers(ruleElements: seq<ElementRef>, n: nat)
    requires n <= |ruleElements|
    ensures forall x :: x in RuleTextsUpTo(ruleElements, n) <==>
              |x| > 0 && exists k :: 0 <= k < n && TextContent(ruleElements[k].node) == x
  {
    if n > 0 {
      RuleTextsMembers(ruleElements, n - 1);
    }
  }

  /** The rules of a unit: the texts of every `.rule` element under the parent of the first
      `.rule`, empty ones dropped; none when the unit has no `.rule`. */
  function RulesOf(unit: Node): (rules: seq<string>)
    ensures QuerySelector(unit, ClassSel("rule")).None? ==> rules == []
    ensures var first := QuerySelector(unit, ClassSel("rule"));
            first.Some? ==>
              rules == Sequences.Filter(RawTexts(QuerySelectorAll(ParentElement(first.value), ClassSel("rule"))),
                                        (), ParseUtils.IsNonEmptyText)
  {
    match QuerySelector(unit, ClassSel("rule"))
    case None => []
    case Some(r) =>
      var es := QuerySelectorAll(ParentElement(r), ClassSel("rule"));
      RuleTextsAreFilter(es, |es|);
      RuleTexts(es)
  }

  /** The `push` loop over the rule elements. */
  method ReadRules(ruleElements: seq<ElementRef>) returns (rules: seq<string>)
    ensures rules == RuleTexts(ruleElements)
  {
    rules := [];
    for i := 0 to |ruleElements|
      invariant rules == RuleTextsUpTo(ruleElements, i)
    {
      var rule := TextContent(ruleElements[i].node);
      if |rule| > 0 {
        rules := rules + [rule];
      }
    }
  }

  /** One entry per element, in document order. */
  function ProfilesOf(elements: seq<ElementRef>): (r: seq<Profile>)
    ensures |r| == |elements|
    ensures forall k :: 0 <= k < |elements| ==> r[k] == ProfileOf(elements[k].node)
  {
    seq(|elements|, k requires 0 <= k < |elements| => ProfileOf(elements[k].node))
  }

  function WeaponsOf(elements: seq<ElementRef>): (r: seq<Weapon>)
    ensures |r| == |elements|
    ensures forall k :: 0 <= k < |elements| ==> r[k] == WeaponOf(elements[k].node)
  {
    seq(|elements|, k requires 0 <= k < |elements| => WeaponOf(elements[k].node))
  }

  function AbilitiesOf(elements: seq<ElementRef>): (r: seq<Ability>)
    ensures |r| == |elements|
    ensures forall k :: 0 <= k < |elements| ==> r[k] == AbilityOf(elements[k].node)
  {
    seq(|elements|, k requires 0 <= k < |elements| => AbilityOf(elements[k].node))
  }

  /** The `forEach` over the profile elements. */
  method ReadProfiles(elements: seq<ElementRef>) returns (profiles: seq<Profile>)
    ensures profiles == ProfilesOf(elements)
  {
    profiles := [];
    for k := 0 to |elements|
      invariant |profiles| == k
      invariant forall m :: 0 <= m < k ==> profiles[m] == ProfileOf(elements[m].node)
    {
      var pe := elements[k].node;
      var stats := ReadProfileStats(QuerySelectorAll(pe, ClassSel("stat")));
      profiles := profiles + [Profile(RawText(QuerySelector(pe, NotClass("stat"))), stats)];
    }
  }

  /** The `forEach` over the weapon elements of a section. */
  method ReadWeapons(elements: seq<ElementRef>) returns (weapons: seq<Weapon>)
    ensures weapons == WeaponsOf(elements)
  {
    weapons := [];
    for k := 0 to |elements|
      invariant |weapons| == k
      invariant forall m :: 0 <= m < k ==> weapons[m] == WeaponOf(elements[m].node)
    {
      var we := elements[k].node;
      var stats := ReadWeaponStats(QuerySelectorAll(we, ClassSel("stat")));
      weapons := weapons + [Weapon(RawText(QuerySelector(we, NotClass("stat"))), stats)];
    }
  }

  /** The `forEach` over the ability elements. */
  method ReadAbilities(elements: seq<ElementRef>) returns (abilities: seq<Ability>)
    ensures abilities == AbilitiesOf(elements)
  {
    abilities := [];
    for k := 0 to |elements|
      invariant |abilities| == k
      invariant forall m :: 0 <= m < k ==> abilities[m] == AbilityOf(elements[m].node)
    {
      abilities := abilities + [AbilityOf(elements[k].node)];
    }
  }

  // ---------------------------------------------------------------------------------------
  // Units and the roster
  // ---------------------------------------------------------------------------------------

  /** `${name}-${index}` */
  function UnitId(name: string, index: nat): string {
    name + "-" + NatToString(index)
  }

  /** The unit read from the card at position `index`. */
  function UnitOf(card: Node, index: nat): (u: Unit)
    ensures u.id == UnitId(u.name, index)
    ensures u.name == RawText(QuerySelector(card, ClassSel("name")))
    ensures u.cost == CostOf(RawText(QuerySelector(card, ClassSel("cost"))))
    ensures u.unitProfiles == ProfilesOf(UnitProfileElements(Headings(card, "Unit")))
    ensures u.rangedWeapons == WeaponsOf(SectionElements(Headings(card, "Ranged Weapons")))
    ensures u.meleeWeapons == WeaponsOf(SectionElements(Headings(card, "Melee Weapons")))
    ensures u.abilities == AbilitiesOf(SectionElements(Headings(card, "Abilities")))
    ensures u.rules == RulesOf(card)
  {
    var name := RawText(QuerySelector(card, ClassSel("name")));
    Unit(UnitId(name, index), name, CostOf(RawText(QuerySelector(card, ClassSel("cost")))),
         ProfilesOf(UnitProfileElements(Headings(card, "Unit"))),
         WeaponsOf(SectionElements(Headings(card, "Ranged Weapons"))),
         WeaponsOf(SectionElements(Headings(card, "Melee Weapons"))),
         AbilitiesOf(SectionElements(Headings(card, "Abilities"))),
         RulesOf(card))
  }

  /** The unit assembly of one card, as the `forEach` body does it. */
  method ParseUnit(card: Node, index: nat) returns (u: Unit)
    ensures u == UnitOf(card, index)
  {
    var name := RawText(QuerySelector(card, ClassSel("name")));
    var cost := CostOf(RawText(QuerySelector(card, ClassSel("cost"))));
    var profileElements := CollectProfileElements(Headings(card, "Unit"));
    var unitProfiles := ReadProfiles(profileElements);
    var rangedElements := FindSectionElements(Headings(card, "Ranged Weapons"));
    var rangedWeapons := ReadWeapons(rangedElements);
    var meleeElements := FindSectionElements(Headings(card, "Melee Weapons"));
    var meleeWeapons := ReadWeapons(meleeElements);
    var abilityElements := FindSectionElements(Headings(card, "Abilities"));
    var abilities := ReadAbilities(abilityElements);
    var rules: seq<string> := [];
    var ruleElement := QuerySelector(card, ClassSel("rule"));
    if ruleElement.Some? {
      rules := ReadRules(QuerySelectorAll(ParentElement(ruleElement.value), ClassSel("rule")));
    }
    u := Unit(UnitId(name, index), name, cost, unitProfiles, rangedWeapons, meleeWeapons, abilities, rules);
  }

  /** The unit cards of a document: `.unit[type="card"]` in document order. */
  function Cards(doc: Document): seq<ElementRef> {
    DocumentQuerySelectorAll(doc, ClassAttr("unit", "type", "card"))
  }

  /** `f` applied to each of the first `n` cards together with its position. */
  function MapIndexed<T>(cards: seq<ElementRef>, f: (Node, nat) -> T, n: nat): (r: seq<T>)
    requires n <= |cards|
    ensures |r| == n
  {
    if n == 0 then [] else MapIndexed(cards, f, n - 1) + [f(cards[n - 1].node, n - 1)]
  }

  lemma {:induction false} MapIndexedAt<T>(cards: seq<ElementRef>, f: (Node, nat) -> T, n: nat, i: nat)
    requires i < n <= |cards|
    ensures MapIndexed(cards, f, n)[i] == f(cards[i].node, i)
  {
    if i < n - 1 {
      MapIndexedAt(cards, f, n - 1, i);
    }
  }

  /** The units of a roster: one per card, in card order. */
  function UnitsOf(cards: seq<ElementRef>): (units: seq<Unit>)
    ensures |units| == |cards|
  {
    MapIndexed(cards, UnitOf, |cards|)
  }

  /** In `a-x` with no dash in `x`, the dash before `x` is the last one. */
  lemma {:induction false} LastDash(s: string, a: string, x: string)
    requires s == a + "-" + x && '-' !in x
    ensures s[|s| - |x| - 1] == '-'
    ensures forall p :: |s| - |x| <= p < |s| ==> s[p] != '-'
  {
    forall p | |s| - |x| <= p < |s| ensures s[p] != '-' {
      assert s[p] == x[p - (|s| - |x|)];
    }
  }

  /** Two ids built from a name and a card index are equal only for the same index. */
  lemma {:induction false} UnitIdDeterminesIndex(a: string, i: nat, b: string, j: nat)
    requires UnitId(a, i) == UnitId(b, j)
    ensures i == j
  {
    var s := UnitId(a, i);
    var x, y := NatToString(i), NatToString(j);
    NotInNumeral(i, '-');
    NotInNumeral(j, '-');
    LastDash(s, a, x);
    LastDash(s, b, y);
    assert x == s[|s| - |x|..] == y;
    NatToStringInjective(i, j);
  }

  /** The units of a roster have pairwise distinct ids. */
  lemma {:induction false} UnitIdsDistinct(cards: seq<ElementRef>)
    ensures var units := UnitsOf(cards);
            forall i, j :: 0 <= i < |units| && 0 <= j < |units| && i != j ==> units[i].id != units[j].id
  {
    var units := UnitsOf(cards);
    forall i, j | 0 <= i < |units| && 0 <= j < |units| && units[i].id == units[j].id
      ensures i == j
    {
      MapIndexedAt(cards, UnitOf, |cards|, i);
      MapIndexedAt(cards, UnitOf, |cards|, j);
      UnitIdDeterminesIndex(units[i].name, i, units[j].name, j);
    }
  }

  /** One step of the card loop: the next unit extends the list and adds its cost. */
  lemma NextUnit(cards: seq<ElementRef>, index: nat, units: seq<Unit>, u: Unit)
    requires index < |cards| && units == MapIndexed(cards, UnitOf, index)
    requires u == UnitOf(cards[index].node, index)
    ensures units + [u] == MapIndexed(cards, UnitOf, index + 1)
    ensures TotalCost(units + [u]) == TotalCost(units) + u.cost
  {
    assert (units + [u])[..|units + [u]| - 1] == units;
  }

  /** `parseArmyList`: one unit per card in card order, and the points total accumulated over
      them; `id` stands for the clock reading the roster id is made from. */
  method ParseArmyList(doc: Document, armyName: string, id: string) returns (list: ArmyList)
    ensures list.units == UnitsOf(Cards(doc))
    ensures list.totalPoints == TotalCost(list.units)
    ensures list.name == armyName && list.id == id
  {
    var cards := Cards(doc);
    var units: seq<Unit> := [];
    var totalPoints := 0;
    for index := 0 to |cards|
      invariant units == MapIndexed(cards, UnitOf, index)
      invariant totalPoints == TotalCost(units)
    {
      var u := ParseUnit(cards[index].node, index);
      NextUnit(cards, index, units, u);
      totalPoints := totalPoints + u.cost;
      units := units + [u];
    }
    list := ArmyList(id, armyName, units, totalPoints);
  }
}
