/** The damage panel: for every weapon result of the engine it re-derives, for display, the hit
    and wound thresholds, the number of copies of the weapon written into its name, the effective
    save against it and the figures scaled by that number of copies. Its wound thresholds agree with
    the engine's table; for an armour save "d+" that AP keeps at 6+ or better its save agrees with
    the engine's, and it differs from it (a 6+ save where the engine allows none) beyond that. With
    no armour save, or one `parseInt` cannot read, the two differ as well (`LoneInvulnDiverges`). */
module DamagePanel {
  import opened Wrappers
  import opened Strings
  import opened Types
  import opened DamageCalculator

  // ---------------------------------------------------------------------------------------
  // Wound threshold
  // ---------------------------------------------------------------------------------------

  /** `getWoundThreshold`: the table of the engine written as thresholds. The toughness may be NaN
      (None), which fails every comparison and so falls through to "5+". */
  function WoundThreshold(strength: int, toughness: Option<int>): (r: string)
    ensures r in ["2+", "3+", "4+", "5+", "6+"]
    ensures toughness.None? ==> r == "5+"
  {
    match toughness
    case None => "5+"
    case Some(t) =>
      if strength >= t * 2 then "2+"
      else if strength > t then "3+"
      else if strength == t then "4+"
      else if strength * 2 <= t then "6+"
      else "5+"
  }

  /** The threshold shown is the engine's wound chance: (7 - threshold) / 6 is the wound probability
      for every strength and toughness. */
  lemma {:induction false} WoundThresholdAgrees(strength: int, toughness: int)
    ensures Threshold(WoundThreshold(strength, Some(toughness))).Some?
    ensures HitProbability(WoundThreshold(strength, Some(toughness))) == WoundProbability(strength, toughness)
  {
    ThresholdOfPlus(2);
    ThresholdOfPlus(3);
    ThresholdOfPlus(4);
    ThresholdOfPlus(5);
    ThresholdOfPlus(6);
    assert [DigitChar(2), '+'] == "2+" && [DigitChar(3), '+'] == "3+" && [DigitChar(4), '+'] == "4+";
    assert [DigitChar(5), '+'] == "5+" && [DigitChar(6), '+'] == "6+";
  }

  /** The defender's toughness as the panel reads it: the "T" stat of the first profile, 0 when
      there is no profile, no such stat or an empty value, otherwise `parseInt` of it (maybe NaN). */
  function DefenderToughness(defender: Unit): Option<int> {
    if |defender.unitProfiles| == 0 then Some(0)
    else
      var stats := defender.unitProfiles[0].stats;
      match FindStat(stats, "T", 0)
      case None => Some(0)
      case Some(k) => if |stats[k].value| == 0 then Some(0) else ParseInt(stats[k].value)
  }

  /** The panel's toughness is the engine's whenever it is a number; where the panel reads NaN the
      engine reads 0, and then wounds on 2+ where the panel shows 5+. */
  lemma {:induction false} DefenderToughnessAgrees(defender: Unit, strength: int)
    requires |defender.unitProfiles| > 0
    ensures var engine := ParseIntOr(GetStatValue(defender.unitProfiles[0].stats, "T", "0"), 0);
            match DefenderToughness(defender)
            case Some(t) =>
              t == engine && HitProbability(WoundThreshold(strength, Some(t))) == WoundProbability(strength, engine)
            case None =>
              engine == 0 && WoundThreshold(strength, None) == "5+"
              && (strength >= 0 ==> WoundProbability(strength, engine) == 5.0 / 6.0)
  {
    var stats := defender.unitProfiles[0].stats;
    ParseIntOfNatToString(0);
    assert NatToString(0) == "0";
    assert ParseInt("") == None by {
      assert SpaceRunEnd("", 0) == 0;
    }
    match DefenderToughness(defender)
    case Some(t) => WoundThresholdAgrees(strength, t);
    case None =>
  }

  // ---------------------------------------------------------------------------------------
  // Weapon count
  // ---------------------------------------------------------------------------------------

  /** The start of the longest run of characters of class `cls` that ends at `k`. */
  function RunStart(s: string, k: nat, cls: CharClass): (b: nat)
    requires k <= |s|
    ensures b <= k
    ensures forall j {:trigger InClass(s[j], cls)} :: b <= j < k ==> InClass(s[j], cls)
    ensures b > 0 ==> !InClass(s[b - 1], cls)
  {
    if k > 0 && InClass(s[k - 1], cls) then RunStart(s, k - 1, cls) else k
  }

  /** A run that reaches back to `b` and no further starts at `b`. */
  lemma {:induction false} RunStartIs(s: string, k: nat, cls: CharClass, b: nat)
    requires b <= k <= |s|
    requires forall j :: b <= j < k ==> InClass(s[j], cls)
    requires b == 0 || !InClass(s[b - 1], cls)
    ensures RunStart(s, k, cls) == b
    decreases k
  {
    if k > b {
      RunStartIs(s, k - 1, cls, b);
    }
  }

  /** The name ends in "(x" digits ")" and that suffix starts at `p`: where `\(x(\d+)\)$` matches. */
  predicate CountSuffixAt(name: string, p: int) {
    0 <= p && p + 4 <= |name| && name[p] == '(' && name[p + 1] == 'x' && name[|name| - 1] == ')'
    && forall j {:trigger IsDigit(name[j])} :: p + 2 <= j < |name| - 1 ==> IsDigit(name[j])
  }

  datatype WeaponCount = WeaponCount(cleanName: string, count: nat)

  /** `extractWeaponCount`: a name ending in "(xN)" is N copies of the weapon named without that
      suffix and the white space before it; any other name is one copy of itself. */
  function ExtractWeaponCount(name: string): (r: WeaponCount)
    ensures |r.cleanName| <= |name| && r.cleanName == name[..|r.cleanName|]
  {
    var e := |name|;
    if e >= 4 && name[e - 1] == ')' then
      var b := RunStart(name, e - 1, Digit);
      if 2 <= b < e - 1 && name[b - 2] == '(' && name[b - 1] == 'x' then
        assert forall j :: b <= j < e - 1 ==> IsHexDigit(name[j]) by {
          forall j | b <= j < e - 1 ensures IsHexDigit(name[j]) {
            assert InClass(name[j], Digit);
          }
        }
        WeaponCount(name[..RunStart(name, b - 2, Space)], DigitsValue(name, b, e - 1, false))
      else WeaponCount(name, 1)
    else WeaponCount(name, 1)
  }

  /** The digits of the suffix form the longest digit run before the final ')'. */
  lemma {:induction false} CountDigitsStart(name: string, p: int)
    requires CountSuffixAt(name, p)
    ensures RunStart(name, |name| - 1, Digit) == p + 2
  {
    assert !IsDigit(name[p + 1]);
    forall j | p + 2 <= j < |name| - 1 ensures InClass(name[j], Digit) {
      assert IsDigit(name[j]);
    }
    RunStartIs(name, |name| - 1, Digit, p + 2);
  }

  /** A name with the count suffix at `p`: the count is the value of its digits, and the clean
      name is what comes before the suffix with the white space that precedes it removed. */
  lemma {:induction false} ExtractWeaponCountSuffixed(name: string, p: int)
    requires CountSuffixAt(name, p)
    ensures var r := ExtractWeaponCount(name);
            |r.cleanName| <= p && r.cleanName == name[..|r.cleanName|]
            && (forall j :: |r.cleanName| <= j < p ==> IsSpace(name[j]))
            && (|r.cleanName| == 0 || !IsSpace(name[|r.cleanName| - 1]))
            && r.count == DigitsValue(name, p + 2, |name| - 1, false)
  {
    CountDigitsStart(name, p);
    var c := RunStart(name, p, Space);
    forall j | c <= j < p ensures IsSpace(name[j]) {
      assert InClass(name[j], Space);
    }
    assert c > 0 ==> !InClass(name[c - 1], Space);
  }

  /** Any other name is one copy of itself. */
  lemma {:induction false} ExtractWeaponCountPlain(name: string)
    requires forall p :: !CountSuffixAt(name, p)
    ensures ExtractWeaponCount(name) == WeaponCount(name, 1)
  {
    var e := |name|;
    if e >= 4 && name[e - 1] == ')' {
      var b := RunStart(name, e - 1, Digit);
      if 2 <= b < e - 1 && name[b - 2] == '(' && name[b - 1] == 'x' {
        forall j | b <= j < e - 1 ensures IsDigit(name[j]) {
          assert InClass(name[j], Digit);
        }
        assert CountSuffixAt(name, b - 2);
        assert false;
      }
    }
  }

  /** A name built as base, white space, "(x", digits, ")" gives back the base and the digits' value. */
  lemma {:induction false} ExtractWeaponCountOfParts(base: string, ws: string, digits: string)
    requires |base| == 0 || !IsSpace(base[|base| - 1])
    requires AllSpace(ws) && |digits| > 0 && AllDigits(digits)
    ensures ExtractWeaponCount(base + ws + ("(x" + digits + ")")) == WeaponCount(base, DecimalValue(digits))
  {
    var pre := base + ws;
    var tail := "(x" + digits + ")";
    var name := pre + tail;
    var p := |pre|;
    SuffixOfParts(pre, digits);
    ExtractWeaponCountSuffixed(name, p);
    var c := ExtractWeaponCount(name).cleanName;
    if |base| > 0 {
      assert name[|base| - 1] == base[|base| - 1];
    }
    assert c == base;
    DigitsOfParts(pre, digits);
  }

  lemma {:induction false} DigitsOfParts(pre: string, digits: string)
    requires |digits| > 0 && AllDigits(digits)
    ensures var name := pre + ("(x" + digits + ")");
            DigitsValue(name, |pre| + 2, |name| - 1, false) == DecimalValue(digits)
  {
    var tail := "(x" + digits + ")";
    var name := pre + tail;
    var lo := |pre| + 2;
    forall k | lo <= k < lo + |digits| ensures name[k] == digits[k - lo + 0] {
      assert name[k] == tail[k - |pre|];
    }
    forall j | 0 <= j < |digits| ensures IsHexDigit(digits[j]) {
      assert IsDigit(digits[j]);
    }
    DigitsValueShift(name, lo, digits, 0, false, |digits|);
  }

  lemma {:induction false} SuffixOfParts(pre: string, digits: string)
    requires |digits| > 0 && AllDigits(digits)
    ensures CountSuffixAt(pre + ("(x" + digits + ")"), |pre|)
  {
    var tail := "(x" + digits + ")";
    var name := pre + tail;
    assert name[|pre|] == tail[0] == '(' && name[|pre| + 1] == tail[1] == 'x';
    assert name[|name| - 1] == tail[|tail| - 1] == ')';
    forall j | |pre| + 2 <= j < |name| - 1 ensures IsDigit(name[j]) {
      assert name[j] == tail[j - |pre|] == digits[j - |pre| - 2];
    }
  }

  lemma ExtractWeaponCountExamples()
    ensures ExtractWeaponCount("Bolt pistol (x2)") == WeaponCount("Bolt pistol", 2)
    ensures ExtractWeaponCount("Bolt pistol") == WeaponCount("Bolt pistol", 1)
  {
    ExtractWeaponCountOfParts("Bolt pistol", " ", "2");
    assert "Bolt pistol" + " " + ("(x" + "2" + ")") == "Bolt pistol (x2)";
    forall p ensures !CountSuffixAt("Bolt pistol", p) {
      assert "Bolt pistol"[|"Bolt pistol"| - 1] == 'l';
    }
    ExtractWeaponCountPlain("Bolt pistol");
  }

  // ---------------------------------------------------------------------------------------
  // Save fail rate
  // ---------------------------------------------------------------------------------------

  /** `calculateSaveFailRate`: every roll fails against a save of 7 or more; otherwise a save of v
      fails on the v - 1 faces below it, the complement of rolling v or more. NaN stays NaN. */
  function SaveFailRate(saveValue: Option<int>): (r: Num)
    ensures saveValue.None? ==> r.None?
    ensures saveValue.Some? && saveValue.value >= 7 ==> r == Some(1.0)
    ensures saveValue.Some? && saveValue.value < 7 ==> r == Some(1.0 - RollChance(saveValue.value))
  {
    match saveValue
    case None => None
    case Some(v) => if v >= 7 then Some(1.0) else Some((v - 1) as real / 6.0)
  }

  // ---------------------------------------------------------------------------------------
  // Invulnerable save scan
  // ---------------------------------------------------------------------------------------

  /** The panel's own scan of the defender's abilities, which stops at the first ability whose name
      mentions an invulnerable save and whose description holds a "d+": it finds what the engine finds. */
  method ScanInvulnSave(abilities: seq<Ability>) returns (invulnSave: string)
    ensures invulnSave == InvulnSaveOf(abilities)
  {
    invulnSave := "";
    var i := 0;
    while i < |abilities|
      invariant 0 <= i <= |abilities|
      invariant invulnSave == ""
      invariant forall j :: 0 <= j < i ==> !GrantsInvuln(abilities[j])
    {
      var ability := abilities[i];
      if Contains(ability.name, "Invulnerable Save") {
        var matches := FirstThresholdFrom(ability.description, 0);
        if matches.Some? {
          invulnSave := [ability.description[matches.value], '+'];
          assert GrantsInvuln(ability) && invulnSave == InvulnText(ability);
          assert FirstGrantFrom(abilities, 0) == Some(i);
          break;
        }
      }
      i := i + 1;
    }
  }

  // ---------------------------------------------------------------------------------------
  // Effective save
  // ---------------------------------------------------------------------------------------

  /** A number as a template literal writes it; NaN is written "NaN". */
  function NumText(v: Option<int>): string {
    match v
    case Some(n) => IntToString(n)
    case None => "NaN"
  }

  /** `parseInt(save.replace('+', ''))`: the number of a save such as "3+". */
  function SaveNumber(save: string): Option<int> {
    ParseInt(ReplaceFirst(save, "+", ""))
  }

  /** `Math.min(6, armour + ap)`; NaN when the armour is NaN. */
  function ModifiedArmour(armour: Option<int>, ap: int): Option<int> {
    match armour
    case Some(a) => Some(if a + ap < 6 then a + ap else 6)
    case None => None
  }

  /** `a < b` on numbers that may be NaN: false when either is. */
  predicate Below(a: Option<int>, b: Option<int>) {
    a.Some? && b.Some? && a.value < b.value
  }

  /** The save shown in a row: its text and the number the fail rate is computed from. */
  datatype SaveChoice = SaveChoice(text: string, value: Option<int>)

  /** The effective save of a row. With an armour save it is the armour value worsened by the AP
      magnitude and capped at 6, unless the invulnerable save is strictly better (lower), which is
      then written "v++". Without an armour save (absent or empty) it is 7, written "", whether or
      not there is an invulnerable save. */
  function PanelSave(armorSave: Option<string>, invulnSave: string, ap: int): (r: SaveChoice)
    ensures armorSave.None? || armorSave.value == "" ==> r == SaveChoice("", Some(7))
    ensures r.value.Some? ==> r.value.value <= 7
  {
    if armorSave.Some? && |armorSave.value| > 0 then
      var m := ModifiedArmour(SaveNumber(armorSave.value), ap);
      var i := SaveNumber(invulnSave);
      if |invulnSave| > 0 && Below(i, m) then SaveChoice(NumText(i) + "++", i)
      else SaveChoice(NumText(m) + "+", m)
    else SaveChoice("", Some(7))
  }

  /** The row code that reassigns `effectiveSave` and `effectiveSaveValue` across its branches. */
  method ComputeEffectiveSave(armorSave: Option<string>, invulnSave: string, apValue: int)
    returns (effectiveSave: string, effectiveSaveValue: Option<int>)
    ensures SaveChoice(effectiveSave, effectiveSaveValue) == PanelSave(armorSave, invulnSave, apValue)
  {
    effectiveSave := "";
    effectiveSaveValue := Some(7);
    if armorSave.Some? && |armorSave.value| > 0 && |invulnSave| > 0 {
      var armorValue := SaveNumber(armorSave.value);
      var invulnValue := SaveNumber(invulnSave);
      var modifiedArmorValue := ModifiedArmour(armorValue, apValue);
      if Below(invulnValue, modifiedArmorValue) {
        effectiveSave := NumText(invulnValue) + "++";
        effectiveSaveValue := invulnValue;
      } else {
        effectiveSave := NumText(modifiedArmorValue) + "+";
        effectiveSaveValue := modifiedArmorValue;
      }
    } else if armorSave.Some? && |armorSave.value| > 0 {
      var armorValue := SaveNumber(armorSave.value);
      var modifiedArmorValue := ModifiedArmour(armorValue, apValue);
      effectiveSave := NumText(modifiedArmorValue) + "+";
      effectiveSaveValue := modifiedArmorValue;
    }
  }

  /** What the save cell shows: "None" for a save of 7, the save text otherwise. */
  function SaveLabel(c: SaveChoice): string {
    if c.value == Some(7) then "None" else c.text
  }

  /** The text marks the invulnerable save: it ends in "++". */
  predicate MarksInvuln(text: string) {
    |text| >= 2 && text[|text| - 2] == '+'
  }

  lemma {:induction false} IntToStringEndsInDigit(n: int)
    ensures IsDigit(IntToString(n)[|IntToString(n)| - 1])
  {
    var s := if n < 0 then NatToString(-n) else NatToString(n);
    assert IsDigit(s[|s| - 1]);
    if n < 0 {
      assert IntToString(n)[|IntToString(n)| - 1] == s[|s| - 1];
    }
  }

  /** Without an armour save the row shows "None" and every wound goes through, even against a
      defender with an invulnerable save. */
  lemma {:induction false} PanelSaveWithoutArmour(armorSave: Option<string>, invulnSave: string, ap: int)
    requires armorSave.None? || |armorSave.value| == 0
    ensures SaveLabel(PanelSave(armorSave, invulnSave, ap)) == "None"
    ensures SaveFailRate(PanelSave(armorSave, invulnSave, ap).value) == Some(1.0)
  {
  }

  /** The divergence this causes: a defender with no armour save ("0" is the engine's default)
      but an invulnerable save "d+" saves with chance (7 - d) / 6 in the engine, while the panel
      lets every wound through. */
  lemma {:induction false} LoneInvulnDiverges(ap: string, d: nat)
    requires 2 <= d <= 6
    ensures EffectiveSave(SaveProbability("0", ap), [DigitChar(d), '+']) == RollChance(d)
    ensures RollChance(d) > 0.0
    ensures SaveFailRate(PanelSave(None, [DigitChar(d), '+'], ApMagnitude(ap)).value) == Some(1.0)
  {
    ThresholdOfPlus(d);
    assert Threshold("0").None? by {
      assert !ThresholdAt("0", 0);
    }
  }

  /** With both saves readable, the row takes the lower (better) of the invulnerable save and the
      modified armour, min(6, armour + ap); it marks the invulnerable save exactly when that is
      strictly lower, so a tie goes to the armour. */
  lemma {:induction false} PanelSaveChoosesBetter(armorSave: string, invulnSave: string, ap: int, a: int, i: int)
    requires |armorSave| > 0 && |invulnSave| > 0
    requires SaveNumber(armorSave) == Some(a) && SaveNumber(invulnSave) == Some(i)
    ensures var m := if a + ap < 6 then a + ap else 6;
            var c := PanelSave(Some(armorSave), invulnSave, ap);
            c.value == Some(if i < m then i else m)
            && (MarksInvuln(c.text) <==> i < m)
  {
    var m := if a + ap < 6 then a + ap else 6;
    var c := PanelSave(Some(armorSave), invulnSave, ap);
    if i < m {
      assert c.text == IntToString(i) + "++";
      assert c.text[|c.text| - 2] == '+';
    } else {
      IntToStringEndsInDigit(m);
      assert c.text == IntToString(m) + "+";
      assert c.text[|c.text| - 2] == IntToString(m)[|IntToString(m)| - 1];
    }
  }

  /** The number of a save "d+" is d. */
  lemma {:induction false} SaveNumberOfThreshold(d: nat)
    requires d < 10
    ensures SaveNumber([DigitChar(d), '+']) == Some(d)
  {
    var s := [DigitChar(d), '+'];
    IndexOfAt(s, "+", 1);
    assert ReplaceFirst(s, "+", "") == [DigitChar(d)];
    ParseIntOfNatToString(d);
    assert NatToString(d) == [DigitChar(d)];
  }

  /** While AP leaves the armour save "d+" at 6+ or better, the row's fail rate is the complement of
      the engine's save chance, with or without an invulnerable save "i+". */
  lemma {:induction false} PanelSaveMatchesEngine(d: nat, ap: string, invulnSave: string)
    requires d < 10 && d + ApMagnitude(ap) <= 6
    requires invulnSave == "" || (|invulnSave| == 2 && IsDigit(invulnSave[0]) && invulnSave[1] == '+')
    ensures var c := PanelSave(Some([DigitChar(d), '+']), invulnSave, ApMagnitude(ap));
            IsNumber(SaveFailRate(c.value), 1.0 - EffectiveSave(SaveProbability([DigitChar(d), '+'], ap), invulnSave))
  {
    var armour := [DigitChar(d), '+'];
    var m := d + ApMagnitude(ap);
    SaveNumberOfThreshold(d);
    ThresholdOfPlus(d);
    assert SaveProbability(armour, ap) == RollChance(m);
    if |invulnSave| > 0 {
      var i := HexDigitValue(invulnSave[0]);
      assert DigitChar(i) == invulnSave[0];
      assert invulnSave == [DigitChar(i), '+'];
      SaveNumberOfThreshold(i);
      ThresholdOfPlus(i);
      assert InvulnChance(invulnSave) == RollChance(i);
      PanelSaveChoosesBetter(armour, invulnSave, ApMagnitude(ap), d, i);
    }
  }

  /** Where AP worsens the armour save "d+" beyond 6+ and there is no invulnerable save, the row
      still shows a 6+ save that stops a sixth of the wounds, while the engine allows no save. */
  lemma {:induction false} PanelSaveCapsAtSix(d: nat, ap: string)
    requires d < 10 && d + ApMagnitude(ap) > 6
    ensures var c := PanelSave(Some([DigitChar(d), '+']), "", ApMagnitude(ap));
            c.value == Some(6) && SaveFailRate(c.value) == Some(5.0 / 6.0)
            && SaveProbability([DigitChar(d), '+'], ap) == 0.0
  {
    SaveNumberOfThreshold(d);
    ThresholdOfPlus(d);
  }

  // ---------------------------------------------------------------------------------------
  // Rows
  // ---------------------------------------------------------------------------------------

  /** The index of the first weapon at or after `i` named `name` or `cleanName`. */
  function FindWeaponFrom(weapons: seq<Weapon>, name: string, cleanName: string, i: nat): (r: Option<nat>)
    ensures r.Some? ==> i <= r.value < |weapons| && (weapons[r.value].name == name || weapons[r.value].name == cleanName)
    ensures r.Some? ==> forall j :: i <= j < r.value ==> weapons[j].name != name && weapons[j].name != cleanName
    ensures r.None? ==> forall j :: i <= j < |weapons| ==> weapons[j].name != name && weapons[j].name != cleanName
    decreases |weapons| - i
  {
    if i >= |weapons| then None
    else if weapons[i].name == name || weapons[i].name == cleanName then Some(i)
    else FindWeaponFrom(weapons, name, cleanName, i + 1)
  }

  /** The weapon whose stats a row shows: the first named like the result or like its clean name. */
  function FindWeapon(weapons: seq<Weapon>, name: string, cleanName: string): (r: Option<Weapon>)
    ensures r.Some? ==> r.value in weapons && (r.value.name == name || r.value.name == cleanName)
    ensures r.None? <==> forall k :: 0 <= k < |weapons| ==> weapons[k].name != name && weapons[k].name != cleanName
  {
    match FindWeaponFrom(weapons, name, cleanName, 0)
    case Some(k) => Some(weapons[k])
    case None => None
  }

  /** `weapon?.stats.find(s => s.name === name)?.value || ''`. */
  function WeaponStat(weapon: Option<Weapon>, name: string): string {
    match weapon
    case Some(w) => GetStatValue(w.stats, name, "")
    case None => ""
  }

  /** The figures of a row, for `count` copies of the weapon. */
  datatype Figures = Figures(attacks: Num, hits: Num, wounds: Num, unsavedWounds: Num, finalDamage: Num)

  /** One row of a weapon table. */
  datatype Row = Row(
    cleanName: string,
    count: nat,
    strengthStat: string,
    apStat: string,
    damageStat: string,
    hitThreshold: string,
    woundThreshold: string,
    saveLabel: string,
    failRate: Num,
    damageValue: int,
    figures: Figures)

  /** The engine's figures for one copy scaled to `count` copies, then the unsaved wounds and the
      damage the panel works out from them. */
  function RowFigures(result: AttackResult, count: nat, failRate: Num, damageValue: int): Figures {
    var k := count as real;
    var wounds := Scale(result.wounds, k);
    var unsaved := Mul(wounds, failRate);
    Figures(Scale(result.attacks, k), Scale(result.hits, k), wounds, unsaved, Scale(unsaved, damageValue as real))
  }

  /** The row for an engine result: `skill` is "WS" in the melee table and "BS" in the ranged one. */
  function PanelRow(result: AttackResult, weapons: seq<Weapon>, skill: string, toughness: Option<int>,
                    armorSave: Option<string>, invulnSave: string): Row
  {
    var wc := ExtractWeaponCount(result.weaponName);
    var weapon := FindWeapon(weapons, result.weaponName, wc.cleanName);
    var strengthStat := WeaponStat(weapon, "S");
    var apStat := WeaponStat(weapon, "AP");
    var damageStat := WeaponStat(weapon, "D");
    var hitThreshold := if Contains(WeaponStat(weapon, "Keywords"), "Torrent") then "Auto" else WeaponStat(weapon, skill);
    var save := PanelSave(armorSave, invulnSave, ApMagnitude(apStat));
    var failRate := SaveFailRate(save.value);
    var damageValue := ParseIntOr(damageStat, 1);
    Row(wc.cleanName, wc.count, strengthStat, apStat, damageStat, hitThreshold,
        WoundThreshold(ParseIntOr(strengthStat, 0), toughness), SaveLabel(save), failRate,
        damageValue, RowFigures(result, wc.count, failRate, damageValue))
  }

  /** Attacks, hits and wounds are the single-copy figures times the number of copies; the damage
      is wounds × copies × fail rate × damage value, NaN when the wounds or the fail rate are. */
  lemma {:induction false} RowFiguresProducts(result: AttackResult, count: nat, failRate: Num, damageValue: int)
    ensures var f := RowFigures(result, count, failRate, damageValue);
            var n := count as real;
            (f.attacks.Some? <==> result.attacks.Some?) && (f.hits.Some? <==> result.hits.Some?)
            && (result.attacks.Some? ==> IsNumber(f.attacks, result.attacks.value * n))
            && (result.hits.Some? ==> IsNumber(f.hits, result.hits.value * n))
            && (result.wounds.Some? ==> IsNumber(f.wounds, result.wounds.value * n))
            && (f.finalDamage.Some? <==> result.wounds.Some? && failRate.Some?)
            && (result.wounds.Some? && failRate.Some? ==>
                  IsNumber(f.unsavedWounds, result.wounds.value * n * failRate.value)
                  && IsNumber(f.finalDamage, result.wounds.value * n * failRate.value * damageValue as real))
  {
  }

  /** A row's figures are those of its number of copies, its fail rate and its damage value; the
      damage value is never 0, and it is 1 when the damage stat is not a number. */
  lemma {:induction false} PanelRowFigures(result: AttackResult, weapons: seq<Weapon>, skill: string,
                                           toughness: Option<int>, armorSave: Option<string>, invulnSave: string)
    ensures var r := PanelRow(result, weapons, skill, toughness, armorSave, invulnSave);
            r.count == ExtractWeaponCount(result.weaponName).count
            && r.figures == RowFigures(result, r.count, r.failRate, r.damageValue)
            && r.damageValue != 0
            && (ParseInt(r.damageStat).None? ==> r.damageValue == 1)
  {
  }

  /** One copy of a weapon shows the engine's own attacks, hits and wounds. */
  lemma {:induction false} SingleCopyRow(result: AttackResult, weapons: seq<Weapon>, skill: string,
                                         toughness: Option<int>, armorSave: Option<string>, invulnSave: string)
    requires forall p :: !CountSuffixAt(result.weaponName, p)
    ensures var r := PanelRow(result, weapons, skill, toughness, armorSave, invulnSave);
            r.cleanName == result.weaponName && r.count == 1
            && r.figures.attacks == result.attacks && r.figures.hits == result.hits
            && r.figures.wounds == result.wounds
  {
    ExtractWeaponCountPlain(result.weaponName);
    ScaleByOne(result.attacks);
    ScaleByOne(result.hits);
    ScaleByOne(result.wounds);
  }

  lemma ScaleByOne(a: Num)
    ensures Scale(a, 1.0) == a
  {
  }

  // ---------------------------------------------------------------------------------------
  // The panel
  // ---------------------------------------------------------------------------------------

  /** The defender's armour save as the panel reads it: the "SV" stat of the first profile, absent
      when there is none. */
  function DefenderArmour(defender: Unit): Option<string> {
    if |defender.unitProfiles| == 0 then None
    else
      var stats := defender.unitProfiles[0].stats;
      match FindStat(stats, "SV", 0)
      case Some(k) => Some(stats[k].value)
      case None => None
  }

  /** One row per engine result, in result order. */
  function Rows(results: seq<AttackResult>, weapons: seq<Weapon>, skill: string, defender: Unit): (r: seq<Row>)
    ensures |r| == |results|
    ensures forall i :: 0 <= i < |results| ==> r[i].figures.attacks == Scale(results[i].attacks, r[i].count as real)
  {
    seq(|results|, i requires 0 <= i < |results| =>
      PanelRow(results[i], weapons, skill, DefenderToughness(defender), DefenderArmour(defender),
               InvulnSaveOf(defender.abilities)))
  }

  datatype Panel = Panel(meleeRows: seq<Row>, rangedRows: seq<Row>)

  /** The panel for the selected units: nothing unless both are selected; otherwise one row per
      melee weapon and one per ranged weapon of the attacker, from the engine's results. */
  function RenderPanel(attacker: Option<Unit>, defender: Option<Unit>): (r: Option<Panel>)
    requires defender.Some? ==> |defender.value.unitProfiles| > 0
    ensures r.Some? <==> attacker.Some? && defender.Some?
    ensures r.Some? ==> |r.value.meleeRows| == |attacker.value.meleeWeapons|
                        && |r.value.rangedRows| == |attacker.value.rangedWeapons|
  {
    if attacker.None? || defender.None? then None
    else
      var result := CalculateDamage(attacker.value, defender.value);
      Some(Panel(Rows(result.meleeResults, attacker.value.meleeWeapons, "WS", defender.value),
                 Rows(result.rangedResults, attacker.value.rangedWeapons, "BS", defender.value)))
  }

  /** A weapon that no earlier weapon shares a name with is the one its row reads its stats from. */
  lemma {:induction false} FindWeaponOwn(weapons: seq<Weapon>, k: nat, cleanName: string)
    requires k < |weapons|
    requires forall j :: 0 <= j < k ==> weapons[j].name != weapons[k].name && weapons[j].name != cleanName
    ensures FindWeapon(weapons, weapons[k].name, cleanName) == Some(weapons[k])
  {
    var r := FindWeaponFrom(weapons, weapons[k].name, cleanName, 0);
    assert r.Some?;
  }

  /** The AP value reads the same whether a missing stat counts as "" or as "0". */
  lemma {:induction false} ApOfMissingStat(stats: seq<Stat>)
    ensures ApMagnitude(GetStatValue(stats, "AP", "")) == ApMagnitude(GetStatValue(stats, "AP", "0"))
  {
    ApMagnitudeOfSigned(0);
    assert ParseInt("") == None by {
      assert SpaceRunEnd("", 0) == 0;
    }
    assert ReplaceFirst("", "-", "") == "";
  }

  /** The invulnerable save the engine finds is "" or a digit followed by '+'. */
  lemma {:induction false} InvulnSaveShape(abilities: seq<Ability>)
    ensures var v := InvulnSaveOf(abilities);
            v == "" || (|v| == 2 && IsDigit(v[0]) && v[1] == '+')
  {
    match FirstGrantFrom(abilities, 0)
    case Some(k) =>
      var a := abilities[k];
      var i := FirstThresholdFrom(a.description, 0).value;
      assert ThresholdAt(a.description, i);
    case None =>
  }

  /** The engine's unsaved wounds are its wounds times the chance that the effective save fails. */
  lemma {:induction false} EngineUnsaved(w: Weapon, p: Profile, invuln: string)
    ensures var r := WeaponDamageWith(w, p, invuln);
            var e := EffectiveSave(SaveProbability(GetStatValue(p.stats, "SV", "0"), GetStatValue(w.stats, "AP", "0")), invuln);
            r.weaponName == w.name && (r.unsavedWounds.Some? <==> r.wounds.Some?)
            && (r.wounds.Some? ==> IsNumber(r.unsavedWounds, Unsaved(r.wounds.value, e)))
  {
    var h := if Contains(Keywords(w), "Torrent") then 1.0 else HitProbability(HitSkill(w.stats));
    var wp := WoundProbability(ParseIntOr(GetStatValue(w.stats, "S", "0"), 0), ParseIntOr(GetStatValue(p.stats, "T", "0"), 0));
    var e := EffectiveSave(SaveProbability(GetStatValue(p.stats, "SV", "0"), GetStatValue(w.stats, "AP", "0")), invuln);
    var attacks := ExpectedValue(GetStatValue(w.stats, "A", "0"));
    var damage := ExpectedValue(GetStatValue(w.stats, "D", "0"));
    var lethal := Contains(Keywords(w), "Lethal Hits");
    var devastating := Contains(Keywords(w), "Devastating Wounds");
    assert WeaponDamageWith(w, p, invuln) == Resolve(w.name, attacks, h, wp, e, damage, lethal, devastating);
    ResolveUnsaved(w.name, attacks, h, wp, e, damage, lethal, devastating);
  }

  /** The wounds that get past a save that succeeds with chance `save`. */
  function Unsaved(wounds: real, save: real): real {
    wounds * (1.0 - save)
  }

  lemma {:induction false} ResolveUnsaved(name: string, attacks: Num, h: real, w: real, e: real, damage: Num,
                                          lethal: bool, devastating: bool)
    ensures var r := Resolve(name, attacks, h, w, e, damage, lethal, devastating);
            r.weaponName == name && (r.unsavedWounds.Some? <==> r.wounds.Some?)
            && (r.wounds.Some? ==> IsNumber(r.unsavedWounds, Unsaved(r.wounds.value, e)))
  {
  }

  /** The armour save the panel reads is the one the engine reads, when there is one. */
  lemma {:induction false} DefenderArmourAgrees(defender: Unit)
    requires |defender.unitProfiles| > 0 && DefenderArmour(defender).Some?
    ensures DefenderArmour(defender).value == GetStatValue(defender.unitProfiles[0].stats, "SV", "0")
  {
  }

  /** The row of a single-copy weapon that no earlier weapon shares a name with, against a defender
      with an armour save "d+" that AP leaves at 6+ or better, shows the engine's unsaved wounds. */
  lemma {:induction false} SingleCopyRowMatchesEngine(weapons: seq<Weapon>, k: nat, skill: string, defender: Unit, d: nat)
    requires |defender.unitProfiles| > 0 && k < |weapons|
    requires forall p :: !CountSuffixAt(weapons[k].name, p)
    requires forall j :: 0 <= j < k ==> weapons[j].name != weapons[k].name
    requires d < 10 && DefenderArmour(defender) == Some([DigitChar(d), '+'])
    requires d + ApMagnitude(GetStatValue(weapons[k].stats, "AP", "0")) <= 6
    ensures var result := WeaponDamage(weapons[k], defender);
            PanelRow(result, weapons, skill, DefenderToughness(defender), DefenderArmour(defender),
                     InvulnSaveOf(defender.abilities)).figures.unsavedWounds == result.unsavedWounds
  {
    var w := weapons[k];
    var invuln := InvulnSaveOf(defender.abilities);
    var result := WeaponDamage(w, defender);
    var e := EffectiveSave(SaveProbability([DigitChar(d), '+'], GetStatValue(w.stats, "AP", "0")), invuln);
    EngineUnsaved(w, defender.unitProfiles[0], invuln);
    DefenderArmourAgrees(defender);
    RowFailRate(result, weapons, k, skill, defender, d);
    ExtractWeaponCountPlain(w.name);
    var row := PanelRow(result, weapons, skill, DefenderToughness(defender), DefenderArmour(defender), invuln);
    RowUnsaved(result, row.failRate, row.damageValue, e);
    if result.wounds.Some? {
      assert row.figures.unsavedWounds.value == result.unsavedWounds.value;
    }
  }

  /** Such a row's fail rate is the complement of the engine's effective save. */
  lemma {:induction false} RowFailRate(result: AttackResult, weapons: seq<Weapon>, k: nat, skill: string,
                                       defender: Unit, d: nat)
    requires k < |weapons| && result.weaponName == weapons[k].name
    requires forall p :: !CountSuffixAt(weapons[k].name, p)
    requires forall j :: 0 <= j < k ==> weapons[j].name != weapons[k].name
    requires d < 10 && DefenderArmour(defender) == Some([DigitChar(d), '+'])
    requires d + ApMagnitude(GetStatValue(weapons[k].stats, "AP", "0")) <= 6
    ensures var invuln := InvulnSaveOf(defender.abilities);
            var row := PanelRow(result, weapons, skill, DefenderToughness(defender), DefenderArmour(defender), invuln);
            row.count == 1
    ensures var invuln := InvulnSaveOf(defender.abilities);
            var row := PanelRow(result, weapons, skill, DefenderToughness(defender), DefenderArmour(defender), invuln);
            IsNumber(row.failRate, 1.0 - EffectiveSave(SaveProbability([DigitChar(d), '+'], GetStatValue(weapons[k].stats, "AP", "0")), invuln))
  {
    var w := weapons[k];
    var invuln := InvulnSaveOf(defender.abilities);
    ExtractWeaponCountPlain(w.name);
    FindWeaponOwn(weapons, k, w.name);
    ApOfMissingStat(w.stats);
    InvulnSaveShape(defender.abilities);
    PanelSaveMatchesEngine(d, GetStatValue(w.stats, "AP", "0"), invuln);
    var wc := ExtractWeaponCount(result.weaponName);
    assert wc == WeaponCount(w.name, 1);
    assert FindWeapon(weapons, result.weaponName, wc.cleanName) == Some(w);
    var apStat := WeaponStat(Some(w), "AP");
    assert apStat == GetStatValue(w.stats, "AP", "");
    var row := PanelRow(result, weapons, skill, DefenderToughness(defender), DefenderArmour(defender), invuln);
    assert row.failRate == SaveFailRate(PanelSave(DefenderArmour(defender), invuln, ApMagnitude(apStat)).value);
    var ap := GetStatValue(w.stats, "AP", "0");
    assert ApMagnitude(apStat) == ApMagnitude(ap);
    assert PanelSave(DefenderArmour(defender), invuln, ApMagnitude(apStat))
        == PanelSave(Some([DigitChar(d), '+']), invuln, ApMagnitude(ap));
  }

  /** With one copy and a fail rate of 1 - e, the row's unsaved wounds are the wounds not stopped by e. */
  lemma {:induction false} RowUnsaved(result: AttackResult, failRate: Num, damageValue: int, e: real)
    requires IsNumber(failRate, 1.0 - e)
    ensures var f := RowFigures(result, 1, failRate, damageValue);
            (f.unsavedWounds.Some? <==> result.wounds.Some?)
            && (result.wounds.Some? ==> IsNumber(f.unsavedWounds, Unsaved(result.wounds.value, e)))
  {
    ScaleByOne(result.wounds);
    if result.wounds.Some? {
      MulIsUnsaved(result.wounds.value, e);
    }
  }

  lemma MulIsUnsaved(wounds: real, e: real)
    ensures IsNumber(Mul(Some(wounds), Some(1.0 - e)), Unsaved(wounds, e))
  {
  }

  /** In the rendered panel, the melee row of such a weapon shows the engine's unsaved wounds. */
  lemma {:induction false} MeleeRowMatchesEngine(attacker: Unit, defender: Unit, k: nat, d: nat)
    requires |defender.unitProfiles| > 0 && k < |attacker.meleeWeapons|
    requires forall p :: !CountSuffixAt(attacker.meleeWeapons[k].name, p)
    requires forall j :: 0 <= j < k ==> attacker.meleeWeapons[j].name != attacker.meleeWeapons[k].name
    requires d < 10 && DefenderArmour(defender) == Some([DigitChar(d), '+'])
    requires d + ApMagnitude(GetStatValue(attacker.meleeWeapons[k].stats, "AP", "0")) <= 6
    ensures RenderPanel(Some(attacker), Some(defender)).value.meleeRows[k].figures.unsavedWounds
            == CalculateDamage(attacker, defender).meleeResults[k].unsavedWounds
  {
    SingleCopyRowMatchesEngine(attacker.meleeWeapons, k, "WS", defender, d);
  }

  /** The same for the ranged table. */
  lemma {:induction false} RangedRowMatchesEngine(attacker: Unit, defender: Unit, k: nat, d: nat)
    requires |defender.unitProfiles| > 0 && k < |attacker.rangedWeapons|
    requires forall p :: !CountSuffixAt(attacker.rangedWeapons[k].name, p)
    requires forall j :: 0 <= j < k ==> attacker.rangedWeapons[j].name != attacker.rangedWeapons[k].name
    requires d < 10 && DefenderArmour(defender) == Some([DigitChar(d), '+'])
    requires d + ApMagnitude(GetStatValue(attacker.rangedWeapons[k].stats, "AP", "0")) <= 6
    ensures RenderPanel(Some(attacker), Some(defender)).value.rangedRows[k].figures.unsavedWounds
            == CalculateDamage(attacker, defender).rangedResults[k].unsavedWounds
  {
    SingleCopyRowMatchesEngine(attacker.rangedWeapons, k, "BS", defender, d);
  }
}
