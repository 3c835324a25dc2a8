/** The element-level helpers of the roster parser: trimmed text, stat lines, profiles, weapons,
    abilities, rules, costs, and the look-up of an element or a section by its text. */
module ParseUtils {
  import opened Wrappers
  import opened Strings
  import opened Types
  import opened Dom
  import Sequences

  // ---------------------------------------------------------------------------------------
  // Text
  // ---------------------------------------------------------------------------------------

  /** `getTextContent`: the trimmed text of an element, "" for a missing one. */
  function GetTextContent(e: Option<Node>): (r: string)
    ensures e.None? ==> r == ""
    ensures IsTrimmed(r)
    ensures e.Some? && IsTrimmed(TextContent(e.value)) ==> r == TextContent(e.value)
  {
    match e
    case None => ""
    case Some(n) =>
      TrimIsTrimmed(TextContent(n));
      if IsTrimmed(TextContent(n)) then TrimmedIsFixed(TextContent(n)); Trim(TextContent(n))
      else Trim(TextContent(n))
  }

  /** The node of an element that may be missing. */
  function NodeOf(r: Option<ElementRef>): Option<Node> {
    match r
    case Some(x) => Some(x.node)
    case None => None
  }

  // ---------------------------------------------------------------------------------------
  // Stat lines
  // ---------------------------------------------------------------------------------------

  /** The ways `^(\w+)\s+(.+)$` can match `text`: the word `text[..w]`, the white space
      `text[w..e]`, and the rest `text[e..]`, which is not empty and holds no line terminator
      (the regular-expression `.` does not match one). */
  predicate RegexSplit(text: string, w: nat, e: nat) {
    1 <= w < e < |text|
    && (forall j {:trigger IsWordChar(text[j])} :: 0 <= j < w ==> IsWordChar(text[j]))
    && (forall j {:trigger IsSpace(text[j])} :: w <= j < e ==> IsSpace(text[j]))
    && NoLineTerminatorFrom(text, e)
  }

  predicate NoLineTerminatorFrom(text: string, i: nat) {
    forall j {:trigger IsLineTerminator(text[j])} :: i <= j < |text| ==> !IsLineTerminator(text[j])
  }

  /** The match the regular-expression engine reports: the longest word, then the longest run of
      white space that still leaves a non-empty rest. */
  function MatchStat(text: string): (r: Option<(nat, nat)>)
    ensures r.Some? ==> RegexSplit(text, r.value.0, r.value.1)
  {
    var w := RunEnd(text, 0, Word);
    if w == 0 || w >= |text| || !IsSpace(text[w]) then None
    else
      assert forall j :: 0 <= j < w ==> IsWordChar(text[j]) by {
        forall j | 0 <= j < w ensures IsWordChar(text[j]) {
          assert InClass(text[j], Word);
        }
      }
      var e := SpaceRunEnd(text, w);
      if e < |text| then
        if NoLineTerminatorFrom(text, e) then Some((w, e)) else None
      else if e - 1 > w && !IsLineTerminator(text[e - 1]) then Some((w, e - 1))
      else None
  }

  /** The reported match is the greedy one: no other split has a different word, or longer white
      space; and when no match is reported, there is none. */
  lemma {:induction false} MatchStatIsGreedy(text: string)
    ensures MatchStat(text).Some? ==>
              forall w: nat, e: nat :: RegexSplit(text, w, e) ==> w == MatchStat(text).value.0 && e <= MatchStat(text).value.1
    ensures MatchStat(text).None? ==> forall w: nat, e: nat :: !RegexSplit(text, w, e)
  {
    forall w: nat, e: nat | RegexSplit(text, w, e)
      ensures MatchStat(text).Some? && w == MatchStat(text).value.0 && e <= MatchStat(text).value.1
    {
      assert IsSpace(text[w]);
      RunEndAt(text, 0, Word, w);
      SpaceRunEndPast(text, w, e - w);
    }
  }

  /** `parseStat` on the trimmed text of a stat element: the regular expression when it matches,
      otherwise the text before the first space and the rest rejoined; `<strong>` tags are
      removed from the value, and the value is trimmed. */
  function ParseStatText(text: string): (r: Stat)
    ensures |r.name| <= |text| && r.name == text[..|r.name|]
  {
    match MatchStat(text)
    case Some((w, e)) => Stat(text[..w], Trim(StripStrong(text[e..])))
    case None =>
      var parts := Split(text, ' ');
      SplitHead(text, ' ');
      Stat(parts[0], Trim(StripStrong(Join(parts[1..], ' '))))
  }

  /** `parseStat` */
  function ParseStat(statElement: Node): Stat {
    ParseStatText(GetTextContent(Some(statElement)))
  }

  /** A word, white space and a rest: the word is the name and the rest, without tags and
      trimmed, is the value. */
  lemma {:induction false} ParseStatOfMatch(text: string, w: nat, e: nat)
    requires RegexSplit(text, w, e)
    requires !IsSpace(text[e])
    ensures ParseStatText(text) == Stat(text[..w], Trim(StripStrong(text[e..])))
  {
    assert IsSpace(text[w]);
    RunEndAt(text, 0, Word, w);
    SpaceRunEndAt(text, w, e - w);
  }

  /** When the regular expression does not match, the name is the text before the first space
      (all of it when there is none) and the value is the text after it, without tags and trimmed. */
  lemma {:induction false} ParseStatFallback(text: string)
    requires forall w: nat, e: nat :: !RegexSplit(text, w, e)
    ensures CharIndexFrom(text, ' ', 0).None? ==> ParseStatText(text) == Stat(text, "")
    ensures CharIndexFrom(text, ' ', 0).Some? ==>
              var i := CharIndexFrom(text, ' ', 0).value;
              ParseStatText(text) == Stat(text[..i], Trim(StripStrong(text[i + 1..])))
  {
    assert MatchStat(text).None?;
    SplitHead(text, ' ');
    SplitTail(text, ' ');
    if CharIndexFrom(text, ' ', 0).None? {
      assert StripStrong("") == "";
      assert Trim("") == "";
    }
  }

  /** An empty stat element gives an empty name and value. */
  lemma ParseStatOfEmpty()
    ensures ParseStatText("") == Stat("", "")
  {
    ParseStatFallback("");
  }

  /** "Sv 3+": the name is "Sv" and the value is what follows the space. */
  lemma ParseStatExample(t: string)
    requires t == "Sv 3+"
    ensures ParseStatText(t) == Stat("Sv", "3+")
  {
    ExampleSplits(t);
    ParseStatOfMatch(t, 2, 3);
    assert t[..2] == "Sv";
    ExampleValue(t[3..]);
  }

  lemma ExampleSplits(t: string)
    requires t == "Sv 3+"
    ensures RegexSplit(t, 2, 3) && !IsSpace(t[3])
  {
    assert IsWordChar(t[0]) && IsWordChar(t[1]) && IsSpace(t[2]) && !IsSpace(t[3]);
    assert NoLineTerminatorFrom(t, 3);
  }

  lemma ExampleValue(v: string)
    requires v == "3+"
    ensures Trim(StripStrong(v)) == "3+"
  {
    StripStrongNoTag(v);
    TrimmedIsFixed(v);
  }

  // ---------------------------------------------------------------------------------------
  // Profiles, weapons and abilities
  // ---------------------------------------------------------------------------------------

  /** The stats of the `.stat` elements, in document order. */
  function StatsOf(statElements: seq<ElementRef>): (r: seq<Stat>)
    ensures |r| == |statElements|
    ensures forall i :: 0 <= i < |r| ==> r[i] == ParseStat(statElements[i].node)
  {
    seq(|statElements|, i requires 0 <= i < |statElements| => ParseStat(statElements[i].node))
  }

  /** The trimmed text of the first element below `n` that is not a `.stat`. */
  function NameOf(n: Node): string {
    GetTextContent(NodeOf(QuerySelector(n, NotClass("stat"))))
  }

  /** `parseProfile` */
  function ParseProfile(profileElement: Node): (r: Profile)
    ensures r.stats == StatsOf(QuerySelectorAll(profileElement, ClassSel("stat")))
    ensures IsTrimmed(r.name)
  {
    Profile(NameOf(profileElement), StatsOf(QuerySelectorAll(profileElement, ClassSel("stat"))))
  }

  /** `parseWeapon` */
  function ParseWeapon(weaponElement: Node): (r: Weapon)
    ensures r.stats == StatsOf(QuerySelectorAll(weaponElement, ClassSel("stat")))
    ensures IsTrimmed(r.name)
  {
    Weapon(NameOf(weaponElement), StatsOf(QuerySelectorAll(weaponElement, ClassSel("stat"))))
  }

  /** A weapon and a profile read from the same element have the same name and stats. */
  lemma ProfileAndWeaponAgree(n: Node)
    ensures ParseProfile(n).name == ParseWeapon(n).name && ParseProfile(n).stats == ParseWeapon(n).stats
  {
  }

  /** "description" in any letter case, followed by white space, starts at `i`. */
  predicate LabelAt(s: string, i: nat) {
    i + 11 < |s| && IsSpace(s[i + 11])
    && forall k {:trigger ToLowerChar(s[i + k])} :: 0 <= k < 11 ==> ToLowerChar(s[i + k]) == "description"[k]
  }

  function FirstLabelFrom(s: string, i: nat): (r: Option<nat>)
    ensures r.Some? ==> i <= r.value && LabelAt(s, r.value)
    ensures r.Some? ==> forall j :: i <= j < r.value ==> !LabelAt(s, j)
    ensures r.None? ==> forall j :: i <= j ==> !LabelAt(s, j)
    decreases |s| - i
  {
    if i + 11 >= |s| then None
    else if LabelAt(s, i) then Some(i)
    else FirstLabelFrom(s, i + 1)
  }

  /** `s.replace(/Description\s+/i, '')`: the leftmost "description" (any letter case) that is
      followed by white space is removed together with all of that white space. */
  function RemoveDescriptionLabel(s: string): (r: string)
    ensures FirstLabelFrom(s, 0).None? ==> r == s
    ensures FirstLabelFrom(s, 0).Some? ==>
              var i := FirstLabelFrom(s, 0).value;
              var e := SpaceRunEnd(s, i + 11);
              |r| <= |s| - 12 && r == s[..i] + s[e..]
  {
    match FirstLabelFrom(s, 0)
    case None => s
    case Some(i) => s[..i] + s[SpaceRunEnd(s, i + 11)..]
  }

  /** A label, its white space and a text that does not start with white space: only the text remains. */
  lemma {:induction false} RemoveLabelPrefix(lbl: string, ws: string, t: string)
    requires |lbl| == 11 && forall k :: 0 <= k < 11 ==> ToLowerChar(lbl[k]) == "description"[k]
    requires |ws| > 0 && AllSpace(ws)
    requires |t| == 0 || !IsSpace(t[0])
    ensures RemoveDescriptionLabel(lbl + ws + t) == t
  {
    var s := lbl + ws + t;
    assert IsSpace(ws[0]);
    assert LabelAt(s, 0) by {
      assert forall k :: 0 <= k < 11 ==> s[0 + k] == lbl[k];
    }
    assert FirstLabelFrom(s, 0) == Some(0);
    assert forall j :: 11 <= j < 11 + |ws| ==> IsSpace(s[j]) by {
      forall j | 11 <= j < 11 + |ws| ensures IsSpace(s[j]) {
        assert s[j] == ws[j - 11];
      }
    }
    if |t| > 0 {
      assert s[11 + |ws|] == t[0];
    }
    SpaceRunEndAt(s, 11, |ws|);
    assert s[11 + |ws|..] == t;
  }

  /** A run of `n` white-space characters at `i` that is not followed by more ends at `i + n`. */
  lemma {:induction false} SpaceRunEndAt(s: string, i: nat, n: nat)
    requires i + n <= |s| && forall j {:trigger IsSpace(s[j])} :: i <= j < i + n ==> IsSpace(s[j])
    requires i + n == |s| || !IsSpace(s[i + n])
    ensures SpaceRunEnd(s, i) == i + n
    decreases n
  {
    if n > 0 {
      assert IsSpace(s[i]);
      SpaceRunEndAt(s, i + 1, n - 1);
    }
  }

  /** A run of `n` white-space characters at `i` ends at or after `i + n`. */
  lemma {:induction false} SpaceRunEndPast(s: string, i: nat, n: nat)
    requires i + n <= |s| && forall j {:trigger IsSpace(s[j])} :: i <= j < i + n ==> IsSpace(s[j])
    ensures SpaceRunEnd(s, i) >= i + n
    decreases n
  {
    if n > 0 {
      assert IsSpace(s[i]);
      SpaceRunEndPast(s, i + 1, n - 1);
    }
  }

  /** The description: the trimmed text of the first `.stat` that has a `strong` inside, with its
      "Description" label removed; "" when there is no such stat. */
  function AbilityDescription(abilityElement: Node): (r: string)
    ensures QuerySelector(abilityElement, ClassHasTag("stat", "STRONG")).None? ==> r == ""
    ensures var q := QuerySelector(abilityElement, ClassHasTag("stat", "STRONG"));
            q.Some? ==> r == RemoveDescriptionLabel(GetTextContent(Some(q.value.node)))
  {
    match QuerySelector(abilityElement, ClassHasTag("stat", "STRONG"))
    case None => ""
    case Some(d) => RemoveDescriptionLabel(GetTextContent(Some(d.node)))
  }

  /** `parseAbility` */
  function ParseAbility(abilityElement: Node): (r: Ability)
    ensures IsTrimmed(r.name)
    ensures r.description == AbilityDescription(abilityElement)
    ensures var stats := QuerySelectorAll(abilityElement, ClassHasTag("stat", "STRONG"));
            if stats == [] then r.description == ""
            else r.description == RemoveDescriptionLabel(GetTextContent(Some(stats[0].node)))
  {
    QuerySelectorIsFirst(abilityElement, ClassHasTag("stat", "STRONG"));
    Ability(NameOf(abilityElement), AbilityDescription(abilityElement))
  }

  // ---------------------------------------------------------------------------------------
  // Rules
  // ---------------------------------------------------------------------------------------

  /** The trimmed texts of the elements, in order. */
  function Texts(refs: seq<ElementRef>): (r: seq<string>)
    ensures |r| == |refs|
    ensures forall i :: 0 <= i < |r| ==> r[i] == GetTextContent(Some(refs[i].node))
  {
    seq(|refs|, i requires 0 <= i < |refs| => GetTextContent(Some(refs[i].node)))
  }

  predicate IsNonEmptyText(x: string, unused: ()) {
    |x| > 0
  }

  /** `filter(Boolean)` on strings: the non-empty ones, in order, repeats kept. */
  function NonEmpty(xs: seq<string>): (r: seq<string>)
    ensures |r| <= |xs|
    ensures forall x :: x in r <==> x in xs && |x| > 0
  {
    Sequences.FilterMembers(xs, (), IsNonEmptyText);
    Sequences.Filter(xs, (), IsNonEmptyText)
  }

  /** The filter keeps order and repeats: it works element by element, and a text is kept
      exactly when it is non-empty. */
  lemma NonEmptyKeepsOrder(a: seq<string>, b: seq<string>, x: string)
    ensures NonEmpty(a + b) == NonEmpty(a) + NonEmpty(b)
    ensures NonEmpty([x]) == if |x| > 0 then [x] else []
  {
    Sequences.FilterAppend(a, b, (), IsNonEmptyText);
    Sequences.FilterOfOne(x, (), IsNonEmptyText);
  }

  /** Strings none of which is empty pass the filter unchanged. */
  lemma {:induction false} NonEmptyKeepsAll(xs: seq<string>)
    requires forall i :: 0 <= i < |xs| ==> |xs[i]| > 0
    ensures NonEmpty(xs) == xs
  {
    if |xs| > 0 {
      var init, last := xs[..|xs| - 1], xs[|xs| - 1];
      NonEmptyKeepsAll(init);
      NonEmptyKeepsOrder(init, [last], last);
      assert init + [last] == xs;
    }
  }

  /** `parseRules`: nothing without a container, otherwise the non-empty trimmed texts of its
      `.rule` elements in document order. */
  function ParseRules(container: Option<Node>): (r: seq<string>)
    ensures container.None? ==> r == []
    ensures container.Some? ==> r == NonEmpty(Texts(QuerySelectorAll(container.value, ClassSel("rule"))))
    ensures forall i :: 0 <= i < |r| ==> |r[i]| > 0 && IsTrimmed(r[i])
  {
    match container
    case None => []
    case Some(c) =>
      var r := NonEmpty(Texts(QuerySelectorAll(c, ClassSel("rule"))));
      assert forall i :: 0 <= i < |r| ==> |r[i]| > 0 && IsTrimmed(r[i]) by {
        forall i | 0 <= i < |r| ensures |r[i]| > 0 && IsTrimmed(r[i]) {
          assert r[i] in r;
        }
      }
      r
  }

  // ---------------------------------------------------------------------------------------
  // Cost
  // ---------------------------------------------------------------------------------------

  /** The first digit at or after `i`. */
  function FirstDigitFrom(s: string, i: nat): (r: Option<nat>)
    ensures r.Some? ==> i <= r.value < |s| && IsDigit(s[r.value])
    ensures r.Some? ==> forall j :: i <= j < r.value ==> !IsDigit(s[j])
    ensures r.None? ==> forall j :: i <= j < |s| ==> !IsDigit(s[j])
    decreases |s| - i
  {
    if i >= |s| then None
    else if IsDigit(s[i]) then Some(i)
    else FirstDigitFrom(s, i + 1)
  }

  /** `parseCost`: the value of the first maximal run of digits, 0 when there is none. */
  function ParseCost(costText: string): (r: nat)
    ensures FirstDigitFrom(costText, 0).None? ==> r == 0
  {
    match FirstDigitFrom(costText, 0)
    case None => 0
    case Some(d) =>
      var e := RunEnd(costText, d, Digit);
      assert forall j :: d <= j < e ==> IsHexDigit(costText[j]) by {
        forall j | d <= j < e ensures IsHexDigit(costText[j]) {
          assert InClass(costText[j], Digit);
        }
      }
      DigitsValue(costText, d, e, false)
  }

  /** A numeral between a text without digits and a text that does not start with one is read back. */
  lemma {:induction false} ParseCostOfNumeral(prefix: string, n: nat, suffix: string)
    requires forall j :: 0 <= j < |prefix| ==> !IsDigit(prefix[j])
    requires |suffix| == 0 || !IsDigit(suffix[0])
    ensures ParseCost(prefix + NatToString(n) + suffix) == n
  {
    var t := NatToString(n);
    var s := prefix + t + suffix;
    var d := |prefix|;
    assert forall j :: 0 <= j < d ==> !IsDigit(s[j]) by {
      forall j | 0 <= j < d ensures !IsDigit(s[j]) {
        assert s[j] == prefix[j];
      }
    }
    assert forall k :: d <= k < d + |t| ==> s[k] == t[k - d] by {
      forall k | d <= k < d + |t| ensures s[k] == t[k - d] {
        assert s[k] == (prefix + t)[k];
      }
    }
    if d + |t| < |s| {
      assert s[d + |t|] == suffix[0];
    }
    ParseCostOfRun(s, d, t);
    DecimalValueOfNatToString(n);
  }

  /** The cost of a text whose first digit run is a copy of the digits `t` is their value. */
  lemma {:induction false} ParseCostOfRun(s: string, d: nat, t: string)
    requires d + |t| <= |s| && |t| > 0 && AllDigits(t)
    requires forall j :: 0 <= j < d ==> !IsDigit(s[j])
    requires forall k :: d <= k < d + |t| ==> s[k] == t[k - d]
    requires d + |t| == |s| || !IsDigit(s[d + |t|])
    ensures ParseCost(s) == DecimalValue(t)
  {
    assert s[d] == t[0] && IsDigit(t[0]);
    FirstDigitAt(s, d);
    assert forall j :: d <= j < d + |t| ==> InClass(s[j], Digit) by {
      forall j | d <= j < d + |t| ensures InClass(s[j], Digit) {
        assert s[j] == t[j - d];
      }
    }
    RunEndAt(s, d, Digit, |t|);
    DigitsValueShift(s, d, t, 0, false, |t|);
  }

  lemma {:induction false} FirstDigitAt(s: string, d: nat)
    requires d < |s| && IsDigit(s[d])
    requires forall j :: 0 <= j < d ==> !IsDigit(s[j])
    ensures FirstDigitFrom(s, 0) == Some(d)
  {
  }

  /** A run of `n` characters of a class at `i` that is not followed by another ends at `i + n`. */
  lemma {:induction false} RunEndAt(s: string, i: nat, cls: CharClass, n: nat)
    requires i + n <= |s| && forall j {:trigger InClass(s[j], cls)} :: i <= j < i + n ==> InClass(s[j], cls)
    requires i + n == |s| || !InClass(s[i + n], cls)
    ensures RunEnd(s, i, cls) == i + n
    decreases n
  {
    if n > 0 {
      assert InClass(s[i], cls);
      RunEndAt(s, i + 1, cls, n - 1);
    }
  }

  // ---------------------------------------------------------------------------------------
  // Looking up elements by text
  // ---------------------------------------------------------------------------------------

  /** The position of the first entry at or after `i` that equals `x`. */
  function FirstIndexFrom(xs: seq<string>, x: string, i: nat): (r: Option<nat>)
    ensures r.Some? ==> i <= r.value < |xs| && xs[r.value] == x
    ensures r.Some? ==> forall j :: i <= j < r.value ==> xs[j] != x
    ensures r.None? ==> forall j :: i <= j < |xs| ==> xs[j] != x
    decreases |xs| - i
  {
    if i >= |xs| then None
    else if xs[i] == x then Some(i)
    else FirstIndexFrom(xs, x, i + 1)
  }

  /** `findElementByText`: the first element matching `selector` whose trimmed text is exactly
      `text`, or null. */
  function FindElementByText(container: Node, selector: Selector, text: string): (r: Option<ElementRef>)
    ensures var all := QuerySelectorAll(container, selector);
            r.Some? ==> exists k :: (0 <= k < |all| && all[k] == r.value
              && Texts(all)[k] == text && forall j :: 0 <= j < k ==> Texts(all)[j] != text)
    ensures var all := QuerySelectorAll(container, selector);
            r.None? ==> forall j :: 0 <= j < |all| ==> Texts(all)[j] != text
  {
    var all := QuerySelectorAll(container, selector);
    match FirstIndexFrom(Texts(all), text, 0)
    case Some(k) => Some(all[k])
    case None => None
  }

  /** A `.indent` element heads the section `name` when its first `.type` element's trimmed text is `name`. */
  predicate IsSection(container: Node, name: string) {
    var t := QuerySelector(container, ClassSel("type"));
    t.Some? && GetTextContent(Some(t.value.node)) == name
  }

  function FirstSectionFrom(refs: seq<ElementRef>, name: string, i: nat): (r: Option<nat>)
    ensures r.Some? ==> i <= r.value < |refs| && IsSection(refs[r.value].node, name)
    ensures r.Some? ==> forall j :: i <= j < r.value ==> !IsSection(refs[j].node, name)
    ensures r.None? ==> forall j :: i <= j < |refs| ==> !IsSection(refs[j].node, name)
    decreases |refs| - i
  {
    if i >= |refs| then None
    else if IsSection(refs[i].node, name) then Some(i)
    else FirstSectionFrom(refs, name, i + 1)
  }

  /** `findSectionContainer`: the first `.indent` element below the unit, in document order, that
      heads the section `name`; null when there is none. */
  function FindSectionContainer(unitElement: Node, sectionName: string): (r: Option<ElementRef>)
    ensures r.Some? ==> exists k :: (0 <= k < |QuerySelectorAll(unitElement, ClassSel("indent"))|
              && QuerySelectorAll(unitElement, ClassSel("indent"))[k] == r.value
              && IsSection(r.value.node, sectionName)
              && forall j :: 0 <= j < k ==> !IsSection(QuerySelectorAll(unitElement, ClassSel("indent"))[j].node, sectionName))
    ensures r.None? ==> forall x :: x in QuerySelectorAll(unitElement, ClassSel("indent")) ==> !IsSection(x.node, sectionName)
  {
    var all := QuerySelectorAll(unitElement, ClassSel("indent"));
    match FirstSectionFrom(all, sectionName, 0)
    case Some(k) => Some(all[k])
    case None => None
  }
}
