/** The expected-damage engine: dice notation to expected values, "n+" thresholds to success
    probabilities, the strength-against-toughness wound table, armour and invulnerable saves, and
    their combination into per-weapon and per-unit expected damage and turns to kill.

    Every quantity is a quotient of small integers, so it is an exact `real` here. JavaScript's
    NaN is `None` of an `Option<real>`, and it propagates through the arithmetic as NaN does. */
module DamageCalculator {
  import opened Wrappers
  import opened Strings
  import opened Types

  // ---------------------------------------------------------------------------------------
  // Arithmetic with NaN
  // ---------------------------------------------------------------------------------------

  /** A JavaScript number in the engine: a finite exact value, or NaN as `None`. */
  type Num = Option<real>

  function Add(a: Num, b: Num): Num
  {
    if a.Some? && b.Some? then Some(a.value + b.value) else None
  }

  function Sub(a: Num, b: Num): Num
  {
    if a.Some? && b.Some? then Some(a.value - b.value) else None
  }

  function Mul(a: Num, b: Num): Num
  {
    if a.Some? && b.Some? then Some(a.value * b.value) else None
  }

  /** `n` is the finite number `v`. */
  predicate IsNumber(n: Num, v: real) {
    n.Some? && n.value == v
  }

  /** `a * k` for a number `k` that is never NaN. */
  function Scale(a: Num, k: real): Num {
    match a
    case Some(v) => Some(v * k)
    case None => None
  }

  // ---------------------------------------------------------------------------------------
  // Stat lookup
  // ---------------------------------------------------------------------------------------

  /** The index of the first stat at or after `i` with the given name. */
  function FindStat(stats: seq<Stat>, name: string, i: nat): (r: Option<nat>)
    ensures r.Some? ==> i <= r.value < |stats| && stats[r.value].name == name
    ensures r.Some? ==> forall j :: i <= j < r.value ==> stats[j].name != name
    ensures r.None? ==> forall j :: i <= j < |stats| ==> stats[j].name != name
    decreases |stats| - i
  {
    if i >= |stats| then None
    else if stats[i].name == name then Some(i)
    else FindStat(stats, name, i + 1)
  }

  /** The value of the first stat with the given name, or `default` when there is none. */
  function GetStatValue(stats: seq<Stat>, name: string, default: string): (r: string)
    ensures (forall j :: 0 <= j < |stats| ==> stats[j].name != name) ==> r == default
    ensures (exists j :: 0 <= j < |stats| && stats[j].name == name) ==>
              exists k :: 0 <= k < |stats| && stats[k].name == name && r == stats[k].value
                && forall j :: 0 <= j < k ==> stats[j].name != name
  {
    match FindStat(stats, name, 0)
    case Some(k) => stats[k].value
    case None => default
  }

  // ---------------------------------------------------------------------------------------
  // Dice notation
  // ---------------------------------------------------------------------------------------

  /** `c` followed by a digit at `i`: where the regular expression `\+(\d+)` (or `\-(\d+)`) can match. */
  predicate ModifierAt(s: string, c: char, i: int) {
    0 <= i && i + 1 < |s| && s[i] == c && IsDigit(s[i + 1])
  }

  function FirstModifierFrom(s: string, c: char, i: nat): (r: Option<nat>)
    ensures r.Some? ==> i <= r.value && ModifierAt(s, c, r.value)
    ensures r.Some? ==> forall j :: i <= j < r.value ==> !ModifierAt(s, c, j)
    ensures r.None? ==> forall j :: i <= j ==> !ModifierAt(s, c, j)
    decreases |s| - i
  {
    if i + 1 >= |s| then None
    else if ModifierAt(s, c, i) then Some(i)
    else FirstModifierFrom(s, c, i + 1)
  }

  /** The number captured by the leftmost match of `\c(\d+)`: the whole digit run after the first
      `c` that is followed by a digit. */
  function Modifier(s: string, c: char): (r: Option<nat>)
    ensures r.None? <==> forall j :: !ModifierAt(s, c, j)
  {
    match FirstModifierFrom(s, c, 0)
    case Some(i) => LeadingValue(s, i + 1, false)
    case None => None
  }

  /** The dice count written before the first `die`: 1 when nothing is written, otherwise what
      `parseInt` reads there (NaN when that is not a number). */
  function DiceCount(s: string, die: string): Num {
    var before := BeforeFirst(s, die);
    if |before| == 0 then Some(1.0)
    else
      match ParseInt(before)
      case Some(k) => Some(k as real)
      case None => None
  }

  /** The running total after the step for the dice `die`. */
  function AddDice(total: Num, s: string, die: string, mean: real): Num {
    if Contains(s, die) then Add(total, Scale(DiceCount(s, die), mean)) else total
  }

  /** The running total after the step for the modifier `c` (`+` adds, `-` subtracts). */
  function AddModifier(total: Num, s: string, c: char): Num {
    match Modifier(s, c)
    case Some(n) => if c == '-' then Sub(total, Some(n as real)) else Add(total, Some(n as real))
    case None => total
  }

  /** The expected value of a dice expression: 0 for the empty string, the number itself for a
      number, otherwise 0 plus the D6 term, plus the D3 term, plus the first `+n`, minus the first `-n`. */
  function ExpectedValue(s: string): Num {
    if |s| == 0 then Some(0.0)
    else
      match DecimalNumber(s)
      case Some(n) => Some(n as real)
      case None => AddModifier(AddModifier(AddDice(AddDice(Some(0.0), s, "D6", 3.5), s, "D3", 2.0), s, '+'), s, '-')
  }

  /** `parseAttacks`: the running total is built up term by term. */
  method ParseAttacks(s: string) returns (total: Num)
    ensures total == ExpectedValue(s)
  {
    if |s| == 0 {
      return Some(0.0);
    }
    var number := DecimalNumber(s);
    if number.Some? {
      return Some(number.value as real);
    }
    total := Some(0.0);
    if Contains(s, "D6") {
      total := Add(total, Scale(DiceCount(s, "D6"), 3.5));
    }
    if Contains(s, "D3") {
      total := Add(total, Scale(DiceCount(s, "D3"), 2.0));
    }
    var plus := Modifier(s, '+');
    if plus.Some? {
      total := Add(total, Some(plus.value as real));
    }
    var minus := Modifier(s, '-');
    if minus.Some? {
      total := Sub(total, Some(minus.value as real));
    }
  }

  lemma ExpectedValueOfEmpty()
    ensures ExpectedValue("") == Some(0.0)
  {
  }

  /** A decimal numeral is its own expected value, with or without a minus sign. */
  lemma {:induction false} ExpectedValueOfNumeral(n: nat)
    ensures ExpectedValue(NatToString(n)) == Some(n as real)
    ensures ExpectedValue("-" + NatToString(n)) == Some(-(n as real))
  {
    DecimalNumberOfNatToString(n);
    DecimalNumberOfSigned('-', n);
    assert "-" + NatToString(n) == ['-'] + NatToString(n);
  }

  /** The written count of a dice expression: nothing (one die) or a numeral. */
  function CountText(k: Option<nat>): string {
    match k
    case Some(n) => NatToString(n)
    case None => ""
  }

  function CountOf(k: Option<nat>): nat {
    match k
    case Some(n) => n
    case None => 1
  }

  /** The written modifier of a dice expression: nothing for 0, else `+n` or `-n`. */
  function ModifierText(m: int): string {
    if m > 0 then "+" + NatToString(m) else if m < 0 then "-" + NatToString(-m) else ""
  }

  function Die(six: bool): string {
    if six then "D6" else "D3"
  }

  /** The expected total of `count` dice: 3.5 per D6, 2 per D3. */
  function DiceMean(count: real, six: bool): real {
    if six then count * 3.5 else count * 2.0
  }

  /** How a dice count is written: nothing for one die, or digits that `parseInt` reads as `count`. */
  predicate IsCountText(ct: string, count: nat) {
    (|ct| == 0 && count == 1) || (|ct| > 0 && AllDigits(ct) && ParseInt(ct) == Some(count))
  }

  /** How a modifier is written: nothing for 0, otherwise its sign followed by the digits of its size. */
  predicate IsModifierText(mt: string, m: int) {
    (|mt| == 0 && m == 0)
    || (m != 0 && |mt| >= 2 && mt[0] == (if m > 0 then '+' else '-') && DigitsIn(mt, 1, |mt|)
        && DigitsValue(mt, 1, |mt|, false) == (if m > 0 then m else -m))
  }

  /** The dice steps of such a text total the dice, and its modifier steps add the modifier. */
  lemma {:induction false} StepsOfDiceText(ct: string, count: nat, six: bool, mt: string, m: int)
    requires IsCountText(ct, count) && IsModifierText(mt, m)
    ensures var s := ct + Die(six) + mt;
            var dice := DiceMean(count as real, six);
            AddDice(AddDice(Some(0.0), s, "D6", 3.5), s, "D3", 2.0) == Some(dice)
            && AddModifier(AddModifier(Some(dice), s, '+'), s, '-') == Add(Some(dice), Some(m as real))
  {
    MarkersOfTexts(ct, count, mt, m);
    SignsOfPrefix(ct, six);
    DiceOfText(ct, count, six, mt);
    ModifiersOfText(ct + Die(six), mt, m, Some(DiceMean(count as real, six)));
  }

  /** A text with a 'D' after its digits is not a number. */
  lemma {:induction false} DiceTextNotNumber(ct: string, six: bool, mt: string)
    ensures |ct + Die(six) + mt| > 0 && DecimalNumber(ct + Die(six) + mt) == None
  {
    var s := ct + Die(six) + mt;
    assert s[|ct|] == 'D';
    DecimalNumberOfNonNumeral(s, |ct|);
  }

  lemma {:induction false} SignsOfPrefix(ct: string, six: bool)
    requires '+' !in ct && '-' !in ct
    ensures '+' !in ct + Die(six) && '-' !in ct + Die(six)
  {
  }

  /** A count text holds no 'D' and no sign, and a modifier text holds no 'D'. */
  lemma {:induction false} MarkersOfTexts(ct: string, count: nat, mt: string, m: int)
    requires IsCountText(ct, count) && IsModifierText(mt, m)
    ensures 'D' !in ct && '+' !in ct && '-' !in ct && 'D' !in mt
  {
    forall j | 0 <= j < |ct| ensures ct[j] != 'D' && ct[j] != '+' && ct[j] != '-' {
      assert IsDigit(ct[j]);
    }
    forall j | 0 <= j < |mt| ensures mt[j] != 'D' {
      if j > 0 {
        assert IsDigit(mt[j]);
      }
    }
  }

  /** Dice notation is additive: a count `k` before `D6` contributes k × 3.5 and before `D3`
      contributes k × 2 (k = 1 when no count is written), and a modifier `+n` adds n while `-n`
      subtracts n. */
  lemma {:induction false} ExpectedValueOfDice(k: Option<nat>, six: bool, m: int)
    ensures ExpectedValue(CountText(k) + Die(six) + ModifierText(m)) == Some(DiceMean(CountOf(k) as real, six) + m as real)
  {
    StepsOfDice(k, six, m);
    DiceTextNotNumber(CountText(k), six, ModifierText(m));
    ExpectedValueOfSteps(CountText(k) + Die(six) + ModifierText(m), DiceMean(CountOf(k) as real, six), m);
  }

  lemma {:induction false} StepsOfDice(k: Option<nat>, six: bool, m: int)
    ensures var s := CountText(k) + Die(six) + ModifierText(m);
            var dice := DiceMean(CountOf(k) as real, six);
            AddDice(AddDice(Some(0.0), s, "D6", 3.5), s, "D3", 2.0) == Some(dice)
            && AddModifier(AddModifier(Some(dice), s, '+'), s, '-') == Add(Some(dice), Some(m as real))
  {
    CountTextIsCount(k);
    ModifierTextIsModifier(m);
    StepsOfDiceText(CountText(k), CountOf(k), six, ModifierText(m), m);
  }

  lemma {:induction false} CountTextIsCount(k: Option<nat>)
    ensures IsCountText(CountText(k), CountOf(k))
  {
    if k.Some? {
      ParseIntOfNatToString(k.value);
    }
  }

  lemma {:induction false} ModifierTextIsModifier(m: int)
    ensures IsModifierText(ModifierText(m), m)
  {
    if m != 0 {
      var n: nat := if m > 0 then m else -m;
      var mt := ModifierText(m);
      var t := NatToString(n);
      assert mt == [mt[0]] + t;
      assert forall j :: 1 <= j < |mt| ==> mt[j] == t[j - 1];
      assert DigitsIn(mt, 1, |mt|);
      DigitsValueShift(mt, 1, t, 0, false, |t|);
      DecimalValueOfNatToString(n);
    }
  }

  /** A string that is neither empty nor a number is read step by step as a dice expression:
      the total of its dice steps, then its modifier steps. */
  lemma {:induction false} ExpectedValueOfSteps(s: string, dice: real, m: int)
    requires |s| > 0 && DecimalNumber(s) == None
    requires AddDice(AddDice(Some(0.0), s, "D6", 3.5), s, "D3", 2.0) == Some(dice)
    requires AddModifier(AddModifier(Some(dice), s, '+'), s, '-') == Add(Some(dice), Some(m as real))
    ensures ExpectedValue(s) == Some(dice + m as real)
  {
  }

  /** The two dice steps of `ct + Die(six) + mt`, where `mt` holds no 'D'. */
  lemma {:induction false} DiceOfText(ct: string, count: nat, six: bool, mt: string)
    requires IsCountText(ct, count) && 'D' !in mt
    ensures var s := ct + Die(six) + mt;
            AddDice(AddDice(Some(0.0), s, "D6", 3.5), s, "D3", 2.0) == Some(DiceMean(count as real, six))
  {
    var die := Die(six);
    var s := ct + die + mt;
    var d := |ct|;
    assert OccursAt(s, die, d) by {
      assert s[d + 0] == die[0] && s[d + 1] == die[1];
    }
    assert forall j :: 0 <= j < d ==> s[j] != 'D' by {
      forall j | 0 <= j < d ensures s[j] != 'D' {
        assert s[j] == ct[j] && IsDigit(ct[j]);
      }
    }
    IndexOfAt(s, die, d);
    assert s[..d] == ct;
    assert DiceCount(s, die) == Some(count as real);
    var other := Die(!six);
    assert IndexOf(s, other) == None by {
      forall j | 0 <= j ensures !OccursAt(s, other, j) {
        if j + 2 <= |s| {
          if j < d {
            assert s[j] == ct[j] && IsDigit(ct[j]);
            assert s[j + 0] != other[0];
          } else if j == d {
            assert s[j + 1] != other[1];
          } else if j == d + 1 {
            assert s[j + 0] != other[0];
          } else {
            assert s[j] == mt[j - d - 2] && mt[j - d - 2] in mt;
            assert s[j + 0] != other[0];
          }
        }
      }
    }
  }

  /** The two modifier steps of `p + mt`, where `p` holds neither sign: they add `m`. */
  lemma {:induction false} ModifiersOfText(p: string, mt: string, m: int, t: Num)
    requires '+' !in p && '-' !in p && IsModifierText(mt, m)
    ensures AddModifier(AddModifier(t, p + mt, '+'), p + mt, '-') == Add(t, Some(m as real))
  {
    var s := p + mt;
    if m != 0 {
      var c := mt[0];
      var other := if m > 0 then '-' else '+';
      ModifierOfTail(p, c, mt);
      assert other !in s by {
        forall j | 0 <= j < |s| ensures s[j] != other {
          if j > |p| {
            assert s[j] == mt[j - |p|] && IsDigit(mt[j - |p|]);
          } else if j < |p| {
            assert s[j] == p[j] && p[j] in p;
          }
        }
      }
      NoModifier(s, other);
    } else {
      assert s == p;
      NoModifier(s, '+');
      NoModifier(s, '-');
    }
  }

  /** The modifier `c` of `p + mt`, for a `mt` made of `c` and digits and a `p` without `c`. */
  lemma {:induction false} ModifierOfTail(p: string, c: char, mt: string)
    requires c !in p && |mt| >= 2 && mt[0] == c && DigitsIn(mt, 1, |mt|)
    ensures Modifier(p + mt, c) == Some(DigitsValue(mt, 1, |mt|, false))
  {
    var s := p + mt;
    var i := |p|;
    assert ModifierAt(s, c, i) by {
      assert s[i] == mt[0] && s[i + 1] == mt[1] && IsDigit(mt[1]);
    }
    assert forall j :: 0 <= j < i ==> !ModifierAt(s, c, j) by {
      forall j | 0 <= j < i ensures !ModifierAt(s, c, j) {
        assert s[j] == p[j];
        assert p[j] in p;
      }
    }
    assert forall j :: i + 1 <= j < |s| ==> IsDigit(s[j]) by {
      forall j | i + 1 <= j < |s| ensures IsDigit(s[j]) {
        assert s[j] == mt[j - i] && IsDigit(mt[j - i]);
      }
    }
    RunEndOfDigits(s, i + 1);
    assert forall j :: 1 <= j < |mt| ==> IsHexDigit(mt[j]) by {
      forall j | 1 <= j < |mt| ensures IsHexDigit(mt[j]) {
        assert IsDigit(mt[j]);
      }
    }
    DigitsValueShift(s, i + 1, mt, 1, false, |mt| - 1);
  }

  /** No modifier `c` where `c` does not occur. */
  lemma {:induction false} NoModifier(s: string, c: char)
    requires c !in s
    ensures Modifier(s, c) == None
  {
    forall j | 0 <= j < |s| ensures s[j] != c {
      assert s[j] in s;
    }
  }

  /** The worked examples: D6 is 3.5, 2D6+3 is 10 and D3-1 is 1. */
  lemma ExpectedValueOfOneD6()
    ensures ExpectedValue("D6") == Some(3.5)
  {
    ExpectedValueOfDice(None, true, 0);
    assert CountText(None) + Die(true) + ModifierText(0) == "D6";
  }

  lemma ExpectedValueOfTwoD6Plus3()
    ensures ExpectedValue("2D6+3") == Some(10.0)
  {
    ExpectedValueOfDice(Some(2), true, 3);
    assert CountText(Some(2)) + Die(true) + ModifierText(3) == "2D6+3";
  }

  lemma ExpectedValueOfD3Minus1()
    ensures ExpectedValue("D3-1") == Some(1.0)
  {
    ExpectedValueOfDice(None, false, -1);
    assert CountText(None) + Die(false) + ModifierText(-1) == "D3-1";
  }

  /** "5" is 5 and "" is 0. */
  lemma ExpectedValueNumberExamples()
    ensures ExpectedValue("5") == Some(5.0)
    ensures ExpectedValue("") == Some(0.0)
  {
    ExpectedValueOfNumeral(5);
    assert NatToString(5) == "5";
  }

  /** Mixing the two dice is not summed: the D3 count is read from the text before "D3", which
      here is "D6+", and `parseInt` of that is NaN. */
  lemma ExpectedValueOfMixedDice()
    ensures ExpectedValue("D6+D3") == None
  {
    var s := "D6+D3";
    DecimalNumberOfNonNumeral(s, 0);
    assert OccursAt(s, "D3", 3) by {
      assert s[3 + 0] == 'D' && s[3 + 1] == '3';
    }
    assert !OccursAt(s, "D3", 0) by {
      assert s[0 + 1] != "D3"[1];
    }
    assert !OccursAt(s, "D3", 1) by {
      assert s[1 + 0] != "D3"[0];
    }
    assert !OccursAt(s, "D3", 2) by {
      assert s[2 + 0] != "D3"[0];
    }
    assert IndexOf(s, "D3") == Some(3);
    assert BeforeFirst(s, "D3") == "D6+";
    assert ParseInt("D6+") == None by {
      assert SpaceRunEnd("D6+", 0) == 0;
    }
  }

  // ---------------------------------------------------------------------------------------
  // Thresholds and probabilities
  // ---------------------------------------------------------------------------------------

  /** A digit followed by '+' at `i`: where the regular expression `(\d)\+` can match. */
  predicate ThresholdAt(s: string, i: int) {
    0 <= i && i + 1 < |s| && IsDigit(s[i]) && s[i + 1] == '+'
  }

  function FirstThresholdFrom(s: string, i: nat): (r: Option<nat>)
    ensures r.Some? ==> i <= r.value && ThresholdAt(s, r.value)
    ensures r.Some? ==> forall j :: i <= j < r.value ==> !ThresholdAt(s, j)
    ensures r.None? ==> forall j :: i <= j ==> !ThresholdAt(s, j)
    decreases |s| - i
  {
    if i + 1 >= |s| then None
    else if ThresholdAt(s, i) then Some(i)
    else FirstThresholdFrom(s, i + 1)
  }

  /** The digit captured by the leftmost match of `(\d)\+`, as `parseInt` reads it. */
  function Threshold(s: string): (r: Option<nat>)
    ensures r.None? <==> forall j :: !ThresholdAt(s, j)
    ensures r.Some? ==> r.value < 10
    ensures r.Some? ==> exists i :: (ThresholdAt(s, i) && r.value == HexDigitValue(s[i])
                                     && forall j :: 0 <= j < i ==> !ThresholdAt(s, j))
  {
    match FirstThresholdFrom(s, 0)
    case Some(i) => Some(HexDigitValue(s[i]))
    case None => None
  }

  /** The chance of rolling at least `d` on a six-sided die, by the formula (7 - d) / 6. */
  function RollChance(d: int): real {
    (7 - d) as real / 6.0
  }

  /** `calculateHitProbability`: (7 - d) / 6 for the first "d+" of the skill, 0 when there is none. */
  function HitProbability(skill: string): (p: real)
    ensures Threshold(skill).None? ==> p == 0.0
    ensures Threshold(skill).Some? ==> p == RollChance(Threshold(skill).value)
  {
    match Threshold(skill)
    case Some(d) => RollChance(d)
    case None => 0.0
  }

  /** The text "d+" has threshold `d`. */
  lemma {:induction false} ThresholdOfPlus(d: nat)
    requires d < 10
    ensures Threshold([DigitChar(d), '+']) == Some(d)
  {
    assert ThresholdAt([DigitChar(d), '+'], 0);
  }

  /** "3+" hits four times in six, "Auto" never; every threshold of 1 to 6 gives a proper probability. */
  lemma {:induction false} HitProbabilityExamples(d: nat)
    requires 1 <= d <= 6
    ensures HitProbability([DigitChar(d), '+']) == RollChance(d)
    ensures 0.0 < HitProbability([DigitChar(d), '+']) <= 1.0
    ensures HitProbability("3+") == 4.0 / 6.0
    ensures HitProbability("Auto") == 0.0
  {
    ThresholdOfPlus(d);
    ThresholdOfPlus(3);
    assert [DigitChar(3), '+'] == "3+";
    assert forall j :: !ThresholdAt("Auto", j);
  }

  /** `calculateWoundProbability`: the strength-against-toughness table, tested in this order:
      S >= 2T wounds on 2+, S > T on 3+, S = T on 4+, 2S <= T on 6+, anything else on 5+. */
  function WoundProbability(strength: int, toughness: int): (p: real)
    ensures p in {5.0 / 6.0, 4.0 / 6.0, 3.0 / 6.0, 2.0 / 6.0, 1.0 / 6.0}
    ensures 1.0 / 6.0 <= p <= 5.0 / 6.0
    ensures strength >= 2 * toughness <==> p == 5.0 / 6.0
    ensures p == 4.0 / 6.0 <==> toughness < strength < 2 * toughness
    ensures p == 3.0 / 6.0 <==> strength == toughness && toughness > 0
    ensures p == 2.0 / 6.0 <==> 2 * strength > toughness && strength < toughness
  {
    if strength >= toughness * 2 then 5.0 / 6.0
    else if strength > toughness then 4.0 / 6.0
    else if strength == toughness then 3.0 / 6.0
    else if strength * 2 <= toughness then 1.0 / 6.0
    else 2.0 / 6.0
  }

  /** A stronger attack never wounds less easily. */
  lemma {:induction false} WoundProbabilityMonotone(s1: int, s2: int, t: int)
    requires s1 <= s2
    ensures WoundProbability(s1, t) <= WoundProbability(s2, t)
  {
  }

  /** The magnitude of an AP value: `parseInt` after removing the first '-', 0 when that is NaN or 0. */
  function ApMagnitude(ap: string): int {
    ParseIntOr(ReplaceFirst(ap, "-", ""), 0)
  }

  /** `calculateSaveProbability`: the save threshold worsened by the AP magnitude; no save when there
      is no "d+" or the modified threshold is above 6. */
  function SaveProbability(armourSave: string, ap: string): (p: real)
    ensures Threshold(armourSave).None? ==> p == 0.0
    ensures Threshold(armourSave).Some? && Threshold(armourSave).value + ApMagnitude(ap) > 6 ==> p == 0.0
    ensures Threshold(armourSave).Some? && Threshold(armourSave).value + ApMagnitude(ap) <= 6 ==>
              p == RollChance(Threshold(armourSave).value + ApMagnitude(ap))
  {
    match Threshold(armourSave)
    case None => 0.0
    case Some(d) =>
      var modified := d + ApMagnitude(ap);
      if modified > 6 then 0.0 else RollChance(modified)
  }

  /** AP written "-n" worsens the save by n; no AP leaves it as it is. */
  lemma {:induction false} ApMagnitudeOfSigned(n: nat)
    ensures ApMagnitude("-" + NatToString(n)) == n
    ensures ApMagnitude(NatToString(n)) == n
    ensures ApMagnitude("0") == 0
  {
    var s := NatToString(n);
    IndexOfAt("-" + s, "-", 0);
    assert ReplaceFirst("-" + s, "-", "") == s by {
      assert ("-" + s)[1..] == s;
    }
    NotInNumeral(n, '-');
    IndexOfAbsent(s, "-");
    ParseIntOfNatToString(n);
    NotInNumeral(0, '-');
    IndexOfAbsent("0", "-");
    ParseIntOfNatToString(0);
    assert NatToString(0) == "0";
  }

  /** `calculateInvulnSaveProbability`: (7 - d) / 6 for the first "d+", 0 when there is none; AP plays no part. */
  function InvulnSaveProbability(invulnSave: string): (p: real)
    ensures Threshold(invulnSave).None? ==> p == 0.0
    ensures Threshold(invulnSave).Some? ==> p == RollChance(Threshold(invulnSave).value)
  {
    match Threshold(invulnSave)
    case Some(d) => RollChance(d)
    case None => 0.0
  }

  /** Without AP the armour save is the invulnerable-save formula, for any threshold of 1 to 6. */
  lemma {:induction false} SaveWithoutAp(armourSave: string)
    requires Threshold(armourSave).Some? && 1 <= Threshold(armourSave).value <= 6
    ensures SaveProbability(armourSave, "0") == InvulnSaveProbability(armourSave)
  {
    ApMagnitudeOfSigned(0);
  }

  // ---------------------------------------------------------------------------------------
  // Invulnerable save scan
  // ---------------------------------------------------------------------------------------

  /** Whether an ability grants an invulnerable save: its name mentions one and its description has a "d+". */
  predicate GrantsInvuln(a: Ability) {
    Contains(a.name, "Invulnerable Save") && Threshold(a.description).Some?
  }

  /** The save text "d+" of an ability that grants an invulnerable save. */
  function InvulnText(a: Ability): string
    requires GrantsInvuln(a)
  {
    var i := FirstThresholdFrom(a.description, 0).value;
    [a.description[i], '+']
  }

  /** The index of the first ability at or after `i` that grants an invulnerable save. */
  function FirstGrantFrom(abilities: seq<Ability>, i: nat): (r: Option<nat>)
    ensures r.Some? ==> i <= r.value < |abilities| && GrantsInvuln(abilities[r.value])
    ensures r.Some? ==> forall j :: i <= j < r.value ==> !GrantsInvuln(abilities[j])
    ensures r.None? ==> forall j :: i <= j < |abilities| ==> !GrantsInvuln(abilities[j])
    decreases |abilities| - i
  {
    if i >= |abilities| then None
    else if GrantsInvuln(abilities[i]) then Some(i)
    else FirstGrantFrom(abilities, i + 1)
  }

  /** The invulnerable save the defender has: "d+" from the first granting ability, "" when none grants one. */
  function InvulnSaveOf(abilities: seq<Ability>): (r: string)
    ensures |r| == 0 <==> forall i :: 0 <= i < |abilities| ==> !GrantsInvuln(abilities[i])
    ensures |r| > 0 ==> exists i :: 0 <= i < |abilities| && GrantsInvuln(abilities[i]) && r == InvulnText(abilities[i])
                                    && forall j :: 0 <= j < i ==> !GrantsInvuln(abilities[j])
  {
    match FirstGrantFrom(abilities, 0)
    case Some(k) => InvulnText(abilities[k])
    case None => ""
  }

  /** The save text found keeps the ability's threshold. */
  lemma {:induction false} InvulnTextThreshold(a: Ability)
    requires GrantsInvuln(a)
    ensures Threshold(InvulnText(a)) == Threshold(a.description)
    ensures InvulnSaveProbability(InvulnText(a)) == RollChance(Threshold(a.description).value)
  {
    var t := InvulnText(a);
    assert ThresholdAt(t, 0);
  }

  /** The engine's scan: the first ability whose name mentions an invulnerable save and whose
      description holds a "d+" supplies it, and the scan stops there. */
  method FindInvulnSave(abilities: seq<Ability>) returns (invuln: string)
    ensures invuln == InvulnSaveOf(abilities)
  {
    invuln := "";
    var i := 0;
    while i < |abilities|
      invariant 0 <= i <= |abilities|
      invariant FirstGrantFrom(abilities, 0) == FirstGrantFrom(abilities, i)
    {
      var ability := abilities[i];
      if Contains(ability.name, "Invulnerable Save") {
        var m := FirstThresholdFrom(ability.description, 0);
        if m.Some? {
          invuln := [ability.description[m.value], '+'];
          return;
        }
      }
      i := i + 1;
    }
  }

  // ---------------------------------------------------------------------------------------
  // Per-weapon damage
  // ---------------------------------------------------------------------------------------

  datatype AttackResult = AttackResult(
    weaponName: string,
    attacks: Num,
    hits: Num,
    wounds: Num,
    unsavedWounds: Num,
    damage: Num,
    lethalHits: bool,
    devastatingWounds: bool)

  /** The hit skill: BS when the weapon has that stat, otherwise WS. */
  function HitSkill(stats: seq<Stat>): (r: string)
    ensures FindStat(stats, "BS", 0).Some? ==> r == GetStatValue(stats, "BS", "0")
    ensures FindStat(stats, "BS", 0).None? ==> r == GetStatValue(stats, "WS", "0")
  {
    if FindStat(stats, "BS", 0).Some? then GetStatValue(stats, "BS", "0") else GetStatValue(stats, "WS", "0")
  }

  /** The keywords of a weapon, "-" when it has none. */
  function Keywords(w: Weapon): (r: string)
    ensures FindStat(w.stats, "Keywords", 0).None? ==> r == "-"
  {
    GetStatValue(w.stats, "Keywords", "-")
  }

  /** The effective save: the better of the armour save and the invulnerable save. */
  function EffectiveSave(armour: real, invuln: string): (e: real)
    ensures e >= armour && e >= InvulnChance(invuln)
    ensures e == armour || e == InvulnChance(invuln)
  {
    var inv := InvulnChance(invuln);
    if armour >= inv then armour else inv
  }

  /** The chance of the invulnerable save, 0 when the defender has none. */
  function InvulnChance(invuln: string): real {
    if |invuln| > 0 then InvulnSaveProbability(invuln) else 0.0
  }

  /** `calculateWeaponDamage` once the defender's invulnerable save text is known: the inputs
      are read from the weapon's and the target's stats, then resolved. */
  function WeaponDamageWith(w: Weapon, target: Profile, invuln: string): AttackResult {
    var attacks := ExpectedValue(GetStatValue(w.stats, "A", "0"));
    var strength := ParseIntOr(GetStatValue(w.stats, "S", "0"), 0);
    var ap := GetStatValue(w.stats, "AP", "0");
    var damage := ExpectedValue(GetStatValue(w.stats, "D", "0"));
    var toughness := ParseIntOr(GetStatValue(target.stats, "T", "0"), 0);
    var armourSave := GetStatValue(target.stats, "SV", "0");
    var lethal := Contains(Keywords(w), "Lethal Hits");
    var devastating := Contains(Keywords(w), "Devastating Wounds");
    var torrent := Contains(Keywords(w), "Torrent");
    var hitProb := if torrent then 1.0 else HitProbability(HitSkill(w.stats));
    var woundProb := WoundProbability(strength, toughness);
    var save := EffectiveSave(SaveProbability(armourSave, ap), invuln);
    Resolve(w.name, attacks, hitProb, woundProb, save, damage, lethal, devastating)
  }

  /** The arithmetic of an attack: hits, wounds (a sixth of the hits wounding automatically with
      Lethal Hits), unsaved wounds, and damage (plus mortal wounds with Devastating Wounds). */
  function Resolve(name: string, attacks: Num, hitProb: real, woundProb: real, save: real, damage: Num,
                   lethal: bool, devastating: bool): AttackResult
  {
    var autoWounds := Mul(Mul(attacks, Some(hitProb)), Some(if lethal then 1.0 / 6.0 else 0.0));
    var hits := Mul(attacks, Some(hitProb));
    var normalWounds := Add(Mul(Sub(hits, autoWounds), Some(woundProb)), autoWounds);
    var mortal := Mul(Mul(Mul(hits, Some(woundProb)), Some(if devastating then 1.0 / 6.0 else 0.0)), damage);
    var unsaved := Mul(normalWounds, Some(1.0 - save));
    AttackResult(name, attacks, hits, normalWounds, unsaved, Add(Mul(unsaved, damage), mortal), lethal, devastating)
  }

  /** The figures of an attack stage by stage, for attacks A, hit, wound and save chances h, w and e,
      and damage D: hits = A h; without Lethal Hits the wounds are hits × w, with it a sixth of the
      hits wounds automatically and the rest on w; the unsaved wounds are wounds × (1 - e); the damage
      is unsaved × D, plus the mortal wounds hits × w × D / 6 with Devastating Wounds, which no save
      reduces. NaN attacks or damage make the damage NaN. */
  lemma {:induction false} ResolveFigures(name: string, attacks: Num, h: real, w: real, e: real, damage: Num,
                                          lethal: bool, devastating: bool)
    ensures var r := Resolve(name, attacks, h, w, e, damage, lethal, devastating);
            (r.damage.Some? <==> attacks.Some? && damage.Some?)
            && (r.hits.Some? <==> attacks.Some?) && (r.wounds.Some? <==> attacks.Some?)
            && (r.unsavedWounds.Some? <==> attacks.Some?)
            && r.weaponName == name && r.attacks == attacks && r.lethalHits == lethal && r.devastatingWounds == devastating
            && (attacks.Some? ==> IsNumber(r.hits, attacks.value * h))
            && (attacks.Some? && !lethal ==> IsNumber(r.wounds, r.hits.value * w))
            && (attacks.Some? && lethal ==> IsNumber(r.wounds, r.hits.value * (5.0 / 6.0) * w + r.hits.value / 6.0))
            && (attacks.Some? ==> IsNumber(r.unsavedWounds, r.wounds.value * (1.0 - e)))
            && (attacks.Some? && damage.Some? && !devastating ==> IsNumber(r.damage, r.unsavedWounds.value * damage.value))
            && (attacks.Some? && damage.Some? && devastating ==>
                  IsNumber(r.damage, r.unsavedWounds.value * damage.value + r.hits.value * w * damage.value / 6.0))
  {
    var r := Resolve(name, attacks, h, w, e, damage, lethal, devastating);
    if attacks.Some? {
      var hits := r.hits.value;
      var auto := if lethal then hits * (1.0 / 6.0) else 0.0;
      assert r.wounds.value == (hits - auto) * w + auto;
      assert lethal ==> (hits - auto) * w + auto == hits * (5.0 / 6.0) * w + hits / 6.0;
      if damage.Some? {
        var d := damage.value;
        var mortal := hits * w * (if devastating then 1.0 / 6.0 else 0.0) * d;
        assert r.damage.value == r.unsavedWounds.value * d + mortal;
        assert devastating ==> mortal == hits * w * d / 6.0;
      }
    }
  }

  /** `calculateWeaponDamage`: the weapon against the defender's first profile and invulnerable save. */
  function WeaponDamage(w: Weapon, defender: Unit): AttackResult
    requires |defender.unitProfiles| > 0
  {
    WeaponDamageWith(w, defender.unitProfiles[0], InvulnSaveOf(defender.abilities))
  }

  /** `calculateWeaponDamage` as the engine runs it, scanning the abilities first. */
  method CalculateWeaponDamage(w: Weapon, defender: Unit) returns (r: AttackResult)
    requires |defender.unitProfiles| > 0
    ensures r == WeaponDamage(w, defender)
  {
    var invuln := FindInvulnSave(defender.abilities);
    r := WeaponDamageWith(w, defender.unitProfiles[0], invuln);
  }

  /** Torrent hits automatically, whatever the skill says. */
  lemma {:induction false} TorrentAlwaysHits(w: Weapon, defender: Unit)
    requires |defender.unitProfiles| > 0
    requires Contains(Keywords(w), "Torrent")
    ensures WeaponDamage(w, defender).attacks.Some? ==>
              WeaponDamage(w, defender).hits == WeaponDamage(w, defender).attacks
  {
    var r := WeaponDamage(w, defender);
    ResolveFigures(r.weaponName, r.attacks, 1.0, 0.0, 0.0, None, false, false);
  }

  /** Two attacks hitting on 3+ with strength 4, AP -1 and damage 1 against toughness 4 and a 3+
      save, with no invulnerable save, do 1/3 of a wound on average. */
  lemma WorkedExample()
    ensures var w := Weapon("Bolt rifle", [Stat("A", "2"), Stat("BS", "3+"), Stat("S", "4"), Stat("AP", "-1"), Stat("D", "1")]);
            var p := Profile("Target", [Stat("T", "4"), Stat("SV", "3+"), Stat("W", "2")]);
            WeaponDamageWith(w, p, "").damage == Some(1.0 / 3.0)
  {
    var w := Weapon("Bolt rifle", [Stat("A", "2"), Stat("BS", "3+"), Stat("S", "4"), Stat("AP", "-1"), Stat("D", "1")]);
    var p := Profile("Target", [Stat("T", "4"), Stat("SV", "3+"), Stat("W", "2")]);
    WorkedExampleStats(w, p);
    WorkedExampleNumbers();
    ResolveFigures(w.name, Some(2.0), 4.0 / 6.0, 3.0 / 6.0, 3.0 / 6.0, Some(1.0), false, false);
  }

  lemma WorkedExampleStats(w: Weapon, p: Profile)
    requires w == Weapon("Bolt rifle", [Stat("A", "2"), Stat("BS", "3+"), Stat("S", "4"), Stat("AP", "-1"), Stat("D", "1")])
    requires p == Profile("Target", [Stat("T", "4"), Stat("SV", "3+"), Stat("W", "2")])
    ensures GetStatValue(w.stats, "A", "0") == "2" && GetStatValue(w.stats, "D", "0") == "1"
    ensures GetStatValue(w.stats, "S", "0") == "4" && GetStatValue(w.stats, "AP", "0") == "-1"
    ensures HitSkill(w.stats) == "3+" && Keywords(w) == "-"
    ensures GetStatValue(p.stats, "T", "0") == "4" && GetStatValue(p.stats, "SV", "0") == "3+"
  {
    WeaponStatsOfExample(w.stats);
    ProfileStatsOfExample(p.stats);
  }

  lemma WeaponStatsOfExample(stats: seq<Stat>)
    requires stats == [Stat("A", "2"), Stat("BS", "3+"), Stat("S", "4"), Stat("AP", "-1"), Stat("D", "1")]
    ensures GetStatValue(stats, "A", "0") == "2" && GetStatValue(stats, "D", "0") == "1"
    ensures GetStatValue(stats, "S", "0") == "4" && GetStatValue(stats, "AP", "0") == "-1"
    ensures HitSkill(stats) == "3+" && GetStatValue(stats, "Keywords", "-") == "-"
  {
    StatValueAt(stats, "A", "0", 0);
    StatValueAt(stats, "S", "0", 2);
    StatValueAt(stats, "AP", "0", 3);
    StatValueAt(stats, "D", "0", 4);
    SkillAndKeywordsOfExample(stats);
  }

  lemma SkillAndKeywordsOfExample(stats: seq<Stat>)
    requires stats == [Stat("A", "2"), Stat("BS", "3+"), Stat("S", "4"), Stat("AP", "-1"), Stat("D", "1")]
    ensures HitSkill(stats) == "3+" && GetStatValue(stats, "Keywords", "-") == "-"
  {
    StatValueAt(stats, "BS", "0", 1);
    assert forall j :: 0 <= j < |stats| ==> stats[j].name != "Keywords";
  }

  lemma ProfileStatsOfExample(stats: seq<Stat>)
    requires stats == [Stat("T", "4"), Stat("SV", "3+"), Stat("W", "2")]
    ensures GetStatValue(stats, "T", "0") == "4" && GetStatValue(stats, "SV", "0") == "3+"
  {
    StatValueAt(stats, "T", "0", 0);
    StatValueAt(stats, "SV", "0", 1);
  }

  /** The value of the first stat with a name. */
  lemma StatValueAt(stats: seq<Stat>, name: string, default: string, k: nat)
    requires k < |stats| && stats[k].name == name
    requires forall j :: 0 <= j < k ==> stats[j].name != name
    ensures GetStatValue(stats, name, default) == stats[k].value
  {
  }

  lemma WorkedExampleNumbers()
    ensures ExpectedValue("2") == Some(2.0) && ExpectedValue("1") == Some(1.0)
    ensures ParseIntOr("4", 0) == 4 && WoundProbability(4, 4) == 3.0 / 6.0
    ensures HitProbability("3+") == 4.0 / 6.0
    ensures SaveProbability("3+", "-1") == 3.0 / 6.0 && EffectiveSave(3.0 / 6.0, "") == 3.0 / 6.0
    ensures !Contains("-", "Torrent") && !Contains("-", "Lethal Hits") && !Contains("-", "Devastating Wounds")
  {
    ExpectedValueOfNumeral(2);
    ExpectedValueOfNumeral(1);
    ParseIntOfNatToString(4);
    assert NatToString(2) == "2" && NatToString(1) == "1" && NatToString(4) == "4";
    ApMagnitudeOfSigned(1);
    assert "-" + NatToString(1) == "-1";
    ThresholdOfPlus(3);
    assert [DigitChar(3), '+'] == "3+";
  }

  // ---------------------------------------------------------------------------------------
  // Per-unit damage
  // ---------------------------------------------------------------------------------------

  /** Rounds to kill: a whole number, or an infinity. */
  datatype Turns = Finite(rounds: int) | PosInfinity | NegInfinity

  datatype DamageCalculation = DamageCalculation(
    attackingUnit: Unit,
    defendingUnit: Unit,
    meleeResults: seq<AttackResult>,
    rangedResults: seq<AttackResult>,
    totalDamage: Num,
    averageWoundsPerRound: Num,
    turnsToKill: Turns)

  /** Every weapon of the list against the defender, in weapon order. */
  function WeaponResults(weapons: seq<Weapon>, defender: Unit): (r: seq<AttackResult>)
    requires |defender.unitProfiles| > 0
    ensures |r| == |weapons|
    ensures forall i :: 0 <= i < |weapons| ==> r[i] == WeaponDamage(weapons[i], defender)
  {
    seq(|weapons|, i requires 0 <= i < |weapons| => WeaponDamage(weapons[i], defender))
  }

  /** The damage of the results added up in order, starting from 0. */
  function SumDamage(results: seq<AttackResult>): Num {
    if results == [] then Some(0.0) else Add(SumDamage(results[..|results| - 1]), results[|results| - 1].damage)
  }

  /** The sum is a number exactly when every weapon's damage is. */
  lemma {:induction false} SumDamageDefined(results: seq<AttackResult>)
    ensures SumDamage(results).Some? <==> forall i :: 0 <= i < |results| ==> results[i].damage.Some?
  {
    if results != [] {
      var init := results[..|results| - 1];
      SumDamageDefined(init);
      assert forall i :: 0 <= i < |init| ==> init[i] == results[i];
    }
  }

  /** The sum is additive over concatenation. */
  lemma {:induction false} SumDamageAppend(a: seq<AttackResult>, b: seq<AttackResult>)
    ensures SumDamage(a + b) == Add(SumDamage(a), SumDamage(b))
    decreases |b|
  {
    if b == [] {
      assert a + b == a;
    } else {
      assert (a + b)[..|a + b| - 1] == a + b[..|b| - 1];
      SumDamageAppend(a, b[..|b| - 1]);
    }
  }

  /** `Math.ceil` */
  function Ceil(x: real): (c: int)
    ensures c as real - 1.0 < x <= c as real
  {
    -((-x).Floor)
  }

  /** `Math.ceil(wounds / total) || Infinity`: NaN and 0 become Infinity, and dividing a negative
      number of wounds by no damage gives -Infinity. */
  function TurnsToKill(wounds: int, total: Num): (t: Turns)
    ensures t.Finite? ==> total.Some? && total.value != 0.0 && t.rounds != 0
    ensures t.Finite? ==> t.rounds as real - 1.0 < wounds as real / total.value <= t.rounds as real
    ensures t.NegInfinity? <==> total == Some(0.0) && wounds < 0
    ensures total.None? || (total == Some(0.0) && wounds >= 0) ==> t.PosInfinity?
    ensures wounds >= 1 && total.Some? && total.value > 0.0 ==> t.Finite?
  {
    match total
    case None => PosInfinity
    case Some(d) =>
      if d == 0.0 then (if wounds < 0 then NegInfinity else PosInfinity)
      else
        var c := Ceil(wounds as real / d);
        if c == 0 then PosInfinity else Finite(c)
  }

  /** With positive damage and wounds, the kill takes the least number of rounds whose damage covers the wounds. */
  lemma {:induction false} TurnsToKillCovers(wounds: int, total: real)
    requires wounds >= 1 && total > 0.0
    ensures TurnsToKill(wounds, Some(total)).Finite?
    ensures var c := TurnsToKill(wounds, Some(total)).rounds;
            c >= 1 && (c - 1) as real * total < wounds as real <= c as real * total
  {
    var q := wounds as real / total;
    var c := Ceil(q);
    assert q > 0.0;
    assert q * total == wounds as real;
    MulLess((c - 1) as real, q, total);
    MulAtMost(q, c as real, total);
  }

  lemma MulLess(a: real, b: real, t: real)
    requires a < b && t > 0.0
    ensures a * t < b * t
  {
    assert b * t - a * t == (b - a) * t;
  }

  lemma MulAtMost(a: real, b: real, t: real)
    requires a <= b && t > 0.0
    ensures a * t <= b * t
  {
    assert b * t - a * t == (b - a) * t;
  }

  /** `calculateDamage`: every melee and every ranged weapon against the defender, the damage summed,
      and the defender's wounds (1 when unparseable or 0) divided by it and rounded up. */
  function CalculateDamage(attacker: Unit, defender: Unit): (r: DamageCalculation)
    requires |defender.unitProfiles| > 0
    ensures r.meleeResults == WeaponResults(attacker.meleeWeapons, defender)
    ensures r.rangedResults == WeaponResults(attacker.rangedWeapons, defender)
    ensures r.totalDamage == SumDamage(r.meleeResults + r.rangedResults)
    ensures r.averageWoundsPerRound == r.totalDamage
    ensures r.turnsToKill == TurnsToKill(ParseIntOr(GetStatValue(defender.unitProfiles[0].stats, "W", "0"), 1), r.totalDamage)
  {
    var melee := WeaponResults(attacker.meleeWeapons, defender);
    var ranged := WeaponResults(attacker.rangedWeapons, defender);
    var total := Add(SumDamage(melee), SumDamage(ranged));
    SumDamageAppend(melee, ranged);
    var wounds := ParseIntOr(GetStatValue(defender.unitProfiles[0].stats, "W", "0"), 1);
    DamageCalculation(attacker, defender, melee, ranged, total, total, TurnsToKill(wounds, total))
  }

  /** An attacker without weapons does no damage, so it never kills (a negative wounds
      characteristic divided by that zero gives -Infinity instead). */
  lemma {:induction false} NoWeaponsNeverKills(attacker: Unit, defender: Unit)
    requires |defender.unitProfiles| > 0
    requires attacker.meleeWeapons == [] && attacker.rangedWeapons == []
    ensures CalculateDamage(attacker, defender).totalDamage == Some(0.0)
    ensures var wounds := ParseIntOr(GetStatValue(defender.unitProfiles[0].stats, "W", "0"), 1);
            CalculateDamage(attacker, defender).turnsToKill == if wounds < 0 then NegInfinity else PosInfinity
  {
    var r := CalculateDamage(attacker, defender);
    assert r.meleeResults + r.rangedResults == [];
  }
}
