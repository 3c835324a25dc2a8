# list_collider in Dafny

list_collider loads two tabletop-wargame army rosters exported as HTML, compares them unit by unit, and estimates the expected damage one unit deals to another. This project models its logic in Dafny and proves properties of that model:

- the expected-damage engine: dice notation, roll thresholds, the wound table, armour and invulnerable saves, per-weapon damage with Lethal Hits, Devastating Wounds and Torrent, and rounds to kill;
- the two roster readers: the standalone parser, and the parsing helpers with the assembly done by the army-list hook;
- the roster-slot store with its highlight toggle;
- the comparison utilities: grouping, counts, point breakdown, shared unit types, all unit types, search;
- the rules reference: unique sorted rules, search filter, description lookup;
- the arithmetic the damage panel redoes on its own: wound threshold, weapon count, save fail rate, effective save, per-row figures. It is proved to agree with the engine where it does, and shown to diverge where it does not;
- the home page's attacker/defender selection and its view switch.

Each source file has one module:

| module | file | models |
|---|---|---|
| `DamageCalculator` | `damage_calculator.dfy` | `app/lib/damageCalculator.ts` |
| `ParseUtils` | `parse_utils.dfy` | `app/parser/parseUtils.ts` |
| `Parser` | `parser.dfy` | `app/parser/parser.ts` |
| `ArmyLists` | `army_lists.dfy` | `app/hooks/useArmyLists.ts` |
| `Comparison` | `comparison.dfy` | `app/lib/comparisonUtils.ts` |
| `RuleReference` | `rule_reference.dfy` | `app/components/RuleReference.tsx` |
| `DamagePanel` | `damage_panel.dfy` | `app/components/DamagePanel.tsx` |
| `Page` | `page.dfy` | `app/page.tsx` |

Supporting modules:

- `Types` (`types.dfy`) holds the records of `app/types/types.ts`.
- `Wrappers` holds `Option`.
- `Strings` holds the JavaScript string built-ins the code relies on: `trim`, `split`/`join`, `indexOf`, `includes`, `replace` with a string pattern, `parseInt` (including its `0x` prefix), `Number` on decimal integers, and ASCII `toLowerCase`.
- `Dom` is an abstract element tree. It provides text nodes, `textContent`, `querySelector`/`querySelectorAll` (pre-order descendants), `nextElementSibling` and `parentElement`, for the selectors the code uses.
- `Sequences` holds `filter`. `Grouping` holds the specification functions of the dictionary-filling loops (`GroupUpTo`, `TallyUpTo`, `KeysUpTo`); the loops themselves are in `comparison.dfy`. `StringSort` holds the sorted string set.

How the model represents JavaScript behaviour:

- **Numbers.** A JavaScript number in the engine is `Option<real>`, with `None` for NaN. Every quantity is an exact quotient of small integers, so Dafny's exact `real` arithmetic stands in for floating point. The rounds-to-kill result is a datatype with a finite case and both infinities.
- **Loops.** Code that loops is a `method` with loop invariants, proved equal to a specification function. This covers both invulnerable-save scans (`FindInvulnSave`, `ScanInvulnSave`), the parser's push loops, accumulation and sibling walk, the comparison dictionaries and type set, and the rule set.
- **Step-by-step code without a loop.** `parseAttacks` and the panel's save branches reassign local variables in straight-line code. They are straight-line methods, `ParseAttacks` and `ComputeEffectiveSave`, proved equal to `ExpectedValue` and `PanelSave`.
- **Pure code.** Expression code (`map`, `filter`, `reduce`, `find`, regular expressions) is a `function`. Each regular expression is stated as a predicate on string positions: "a digit followed by '+' at i", "a trailing `\s*\(\w+\)\s*`".
- **State.** The hook's state is the class `ArmyListStore` and the page's state is the class `Home`. Their methods state their whole new state.

## Model

| member | source | states |
|---|---|---|
| DamageCalculator.FindStat | app/lib/damageCalculator.ts:26 | the index found is the first stat at or after the start with that name; none means no such stat |
| DamageCalculator.GetStatValue | app/lib/damageCalculator.ts:25-28 | the default when no stat has the name, otherwise the value of the first stat with that name |
| DamageCalculator.FirstModifierFrom | app/lib/damageCalculator.ts:57-63 | the leftmost position where a sign followed by a digit occurs, at or after the start |
| DamageCalculator.Modifier | app/lib/damageCalculator.ts:57-66 | no modifier exactly when the sign is never followed by a digit |
| DamageCalculator.ParseAttacks | app/lib/damageCalculator.ts:31-69 | the loop-free running total of the source (empty, number, D6 step, D3 step, plus step, minus step) equals the expected value `ExpectedValue` of the text |
| DamageCalculator.ExpectedValue | app/lib/damageCalculator.ts:31-69 | the specification of `parseAttacks`; `ExpectedValueOfNumeral`, `ExpectedValueOfDice` and the examples state its values |
| DamageCalculator.ExpectedValueOfEmpty | app/lib/damageCalculator.ts:32 | the empty text is worth 0 |
| DamageCalculator.ExpectedValueOfNumeral | app/lib/damageCalculator.ts:35-37 | a decimal numeral, with or without a minus sign, is worth its own value |
| DamageCalculator.ExpectedValueOfDice | app/lib/damageCalculator.ts:42-66 | a text written count, die, modifier is worth count × 3.5 (D6) or count × 2 (D3) plus the modifier |
| DamageCalculator.StepsOfDice | app/lib/damageCalculator.ts:42-66 | for such a text the two dice steps give the dice total and the two modifier steps add the modifier |
| DamageCalculator.StepsOfDiceText | app/lib/damageCalculator.ts:42-66 | the same for any count text `parseInt` reads as the count and any modifier text |
| DamageCalculator.DiceTextNotNumber | app/lib/damageCalculator.ts:35 | a text with a die in it is not read by `Number`, so it goes down the dice path |
| DamageCalculator.CountTextIsCount | app/lib/damageCalculator.ts:44-45 | the written count is read back as the count by `parseInt`, or as 1 when omitted |
| DamageCalculator.ModifierTextIsModifier | app/lib/damageCalculator.ts:57-66 | the written modifier is a sign followed by the digits of its size |
| DamageCalculator.DiceOfText | app/lib/damageCalculator.ts:42-54 | the D6 and D3 steps of count + die + tail add up to the mean of the dice |
| DamageCalculator.ModifiersOfText | app/lib/damageCalculator.ts:57-66 | the plus and minus steps add the signed modifier |
| DamageCalculator.ModifierOfTail | app/lib/damageCalculator.ts:57-63 | the captured modifier is the whole digit run after the sign |
| DamageCalculator.NoModifier | app/lib/damageCalculator.ts:58-64 | no sign, no modifier step |
| DamageCalculator.ExpectedValueOfSteps | app/lib/damageCalculator.ts:31-69 | a non-empty non-number is read by the four steps |
| DamageCalculator.ExpectedValueOfOneD6 | app/lib/damageCalculator.ts:42-47 | "D6" is worth 3.5 |
| DamageCalculator.ExpectedValueOfTwoD6Plus3 | app/lib/damageCalculator.ts:42-60 | "2D6+3" is worth 10 |
| DamageCalculator.ExpectedValueOfD3Minus1 | app/lib/damageCalculator.ts:50-66 | "D3-1" is worth 1 |
| DamageCalculator.ExpectedValueNumberExamples | app/lib/damageCalculator.ts:32-37 | "5" is worth 5 and "" is worth 0 |
| DamageCalculator.ExpectedValueOfMixedDice | app/lib/damageCalculator.ts:50-53 | "D6+D3" is NaN: the D3 count is read from "D6+", which `parseInt` rejects |
| DamageCalculator.FirstThresholdFrom | app/lib/damageCalculator.ts:74 | the leftmost position of a digit followed by '+', at or after the start |
| DamageCalculator.Threshold | app/lib/damageCalculator.ts:74-76 | no threshold exactly when no digit is followed by '+'; otherwise the digit of the leftmost such match, below 10 |
| DamageCalculator.HitProbability | app/lib/damageCalculator.ts:72-81 | (7 - d) / 6 for the first "d+" of the skill, 0 when there is none |
| DamageCalculator.ThresholdOfPlus | app/lib/damageCalculator.ts:74 | the text "d+" has threshold d |
| DamageCalculator.HitProbabilityExamples | app/lib/damageCalculator.ts:72-81 | "d+" hits with chance (7 - d) / 6, which lies in (0, 1] for d from 1 to 6; "3+" is 4/6; "Auto" is 0 |
| DamageCalculator.WoundProbability | app/lib/damageCalculator.ts:84-90 | one of five sixths, and each value in both directions: 5/6 exactly when S ≥ 2T, 4/6 exactly when T < S < 2T, 3/6 exactly when S = T > 0, 2/6 exactly when T/2 < S < T |
| DamageCalculator.WoundProbabilityMonotone | app/lib/damageCalculator.ts:84-90 | raising the strength never lowers the chance to wound |
| DamageCalculator.SaveProbability | app/lib/damageCalculator.ts:93-108 | 0 without a "d+"; 0 when d plus the AP magnitude passes 6; otherwise (7 - d - AP) / 6 |
| DamageCalculator.ApMagnitudeOfSigned | app/lib/damageCalculator.ts:101 | "-n" and "n" both have magnitude n; "0" has none |
| DamageCalculator.ApMagnitude | app/lib/damageCalculator.ts:101 | the AP magnitude; `ApMagnitudeOfSigned` states it for "-n", "n" and "0" |
| DamageCalculator.InvulnSaveProbability | app/lib/damageCalculator.ts:111-118 | (7 - d) / 6 for the first "d+", 0 without one |
| DamageCalculator.SaveWithoutAp | app/lib/damageCalculator.ts:93-118 | with AP "0" the armour save is the invulnerable-save formula |
| DamageCalculator.FirstGrantFrom | app/lib/damageCalculator.ts:143-151 | the first ability at or after the start whose name mentions an invulnerable save and whose description has a "d+" |
| DamageCalculator.InvulnSaveOf | app/lib/damageCalculator.ts:142-151 | empty exactly when no ability grants one; otherwise the "d+" of the first granting ability |
| DamageCalculator.InvulnTextThreshold | app/lib/damageCalculator.ts:145-147 | the rebuilt text "d+" keeps the description's threshold and its probability |
| DamageCalculator.FindInvulnSave | app/lib/damageCalculator.ts:142-151 | the loop with its early exit returns `InvulnSaveOf` of the abilities |
| DamageCalculator.HitSkill | app/lib/damageCalculator.ts:131-133 | BS when the weapon has a BS stat, otherwise WS |
| DamageCalculator.Keywords | app/lib/damageCalculator.ts:134 | the keywords of a weapon, "-" when it has no Keywords stat |
| DamageCalculator.EffectiveSave | app/lib/damageCalculator.ts:169-172 | the larger of the armour chance and the invulnerable chance (0 without an invulnerable save) |
| DamageCalculator.ResolveFigures | app/lib/damageCalculator.ts:174-204 | stage by stage: hits = A·h; wounds = hits·w, or hits·(5/6)·w + hits/6 with Lethal Hits; unsaved = wounds·(1 - e); damage = unsaved·D, plus hits·w·D/6 with Devastating Wounds; NaN attacks or damage propagate |
| DamageCalculator.Resolve | app/lib/damageCalculator.ts:174-204 | the arithmetic of an attack; `ResolveFigures` states every figure |
| DamageCalculator.WeaponDamageWith | app/lib/damageCalculator.ts:126-205 | the weapon against a profile and an invulnerable save; `WorkedExample` and `TorrentAlwaysHits` state its results |
| DamageCalculator.WeaponDamage | app/lib/damageCalculator.ts:121-205 | the specification of `calculateWeaponDamage`, which `CalculateWeaponDamage` meets |
| DamageCalculator.CalculateWeaponDamage | app/lib/damageCalculator.ts:121-205 | the engine's procedure (scan the abilities, then compute) returns `WeaponDamage` of the weapon and the defender |
| DamageCalculator.TorrentAlwaysHits | app/lib/damageCalculator.ts:163-166 | a Torrent weapon hits with every attack whatever its skill |
| DamageCalculator.WorkedExample | app/lib/damageCalculator.ts:121-205 | two attacks, 3+ to hit, S4, AP -1, D1 against T4 and a 3+ save deal 1/3 damage |
| DamageCalculator.WorkedExampleStats | app/lib/damageCalculator.ts:127-138 | the stats the engine reads from the example weapon and profile |
| DamageCalculator.WeaponStatsOfExample | app/lib/damageCalculator.ts:127-134 | the example weapon's attacks, damage, strength, AP, skill and keywords |
| DamageCalculator.SkillAndKeywordsOfExample | app/lib/damageCalculator.ts:131-134 | the example weapon's skill and keywords |
| DamageCalculator.ProfileStatsOfExample | app/lib/damageCalculator.ts:137-138 | the example profile's toughness and save |
| DamageCalculator.WorkedExampleNumbers | app/lib/damageCalculator.ts:154-172 | the intermediate numbers of the example |
| DamageCalculator.WeaponResults | app/lib/damageCalculator.ts:213-220 | one result per weapon, in weapon order, each the weapon's damage against the defender |
| DamageCalculator.SumDamage | app/lib/damageCalculator.ts:223-224 | the `reduce` of the damage; `SumDamageDefined` and `SumDamageAppend` state when it is a number and that it adds over concatenation |
| DamageCalculator.SumDamageDefined | app/lib/damageCalculator.ts:223-224 | the sum is a number exactly when every weapon's damage is |
| DamageCalculator.SumDamageAppend | app/lib/damageCalculator.ts:223-225 | summing melee and ranged separately and adding equals summing the concatenation |
| DamageCalculator.Ceil | app/lib/damageCalculator.ts:234 | the least integer at or above the value |
| DamageCalculator.TurnsToKill | app/lib/damageCalculator.ts:234 | a finite count c only for a non-zero damage, with c - 1 < W / damage ≤ c; -Infinity exactly for 0 damage and negative W; +Infinity for NaN damage (the `|| Infinity`) and for 0 damage with W ≥ 0; always finite for W ≥ 1 and positive damage |
| DamageCalculator.TurnsToKillCovers | app/lib/damageCalculator.ts:234 | for W ≥ 1 and positive damage, c ≥ 1 rounds and c is the least count whose damage reaches W |
| DamageCalculator.CalculateDamage | app/lib/damageCalculator.ts:208-245 | melee and ranged results per weapon, total = average = their sum, turns to kill from the first profile's W (its `parseInt`, or 1 when that is NaN or 0) |
| DamageCalculator.NoWeaponsNeverKills | app/lib/damageCalculator.ts:223-234 | an attacker without weapons deals 0 and never kills (+Infinity, or -Infinity for a negative W) |
| ParseUtils.GetTextContent | app/parser/parseUtils.ts:4-6 | "" for a missing element; always trimmed; an already trimmed text content comes back unchanged |
| ParseUtils.MatchStat | app/parser/parseUtils.ts:11 | a match of `^(\w+)\s+(.+)$` splits the text into a word, a whitespace run and a non-empty rest |
| ParseUtils.MatchStatIsGreedy | app/parser/parseUtils.ts:11 | the match found is the one the regular expression picks (the word is the whole leading word run and the whitespace group is greedy); no match means no split exists |
| ParseUtils.ParseStatText | app/parser/parseUtils.ts:9-26 | the stat name is always a prefix of the text |
| ParseUtils.ParseStat | app/parser/parseUtils.ts:9-26 | `parseStat` of an element is `ParseStatText` of its trimmed text; `ParseStatOfMatch` and `ParseStatFallback` state both branches |
| ParseUtils.ParseStatOfMatch | app/parser/parseUtils.ts:13-17 | on a match the name is the word and the value is the rest without `<strong>` tags, trimmed |
| ParseUtils.ParseStatFallback | app/parser/parseUtils.ts:20-25 | without a match the name is the text before the first space and the value what follows it, tags removed and trimmed; no space gives an empty value |
| ParseUtils.ParseStatOfEmpty | app/parser/parseUtils.ts:21-25 | the empty text gives an empty name and value |
| ParseUtils.ParseStatExample | app/parser/parseUtils.ts:9-18 | "Sv 3+" is the stat Sv with value 3+ |
| ParseUtils.ExampleSplits | app/parser/parseUtils.ts:11 | "Sv 3+" matches with the word "Sv" |
| ParseUtils.ExampleValue | app/parser/parseUtils.ts:16 | "3+" is left as it is by the tag removal and trimming |
| ParseUtils.StatsOf | app/parser/parseUtils.ts:33-34 | one stat per `.stat` element, in document order |
| ParseUtils.ParseProfile | app/parser/parseUtils.ts:29-40 | the stats of every `.stat` element in document order and a trimmed name |
| ParseUtils.ParseWeapon | app/parser/parseUtils.ts:43-54 | the same reading as for a profile |
| ParseUtils.ProfileAndWeaponAgree | app/parser/parseUtils.ts:29-54 | a profile and a weapon read from the same element have the same name and stats |
| ParseUtils.FirstLabelFrom | app/parser/parseUtils.ts:63 | the leftmost case-insensitive "Description" followed by whitespace |
| ParseUtils.RemoveDescriptionLabel | app/parser/parseUtils.ts:63 | without the label the text is unchanged; otherwise the first label and the whitespace after it are cut out, shortening the text by at least 12 |
| ParseUtils.RemoveLabelPrefix | app/parser/parseUtils.ts:63 | "Description" in any case, whitespace, then a text: only the text is left |
| ParseUtils.SpaceRunEndAt | app/parser/parseUtils.ts:63 | the end of a whitespace run of n characters |
| ParseUtils.SpaceRunEndPast | app/parser/parseUtils.ts:63 | a whitespace run reaches at least past n spaces |
| ParseUtils.AbilityDescription | app/parser/parseUtils.ts:61-64 | "" when no `.stat` element holds a `strong`; otherwise the trimmed text of the first such element with its first "Description" label removed |
| ParseUtils.ParseAbility | app/parser/parseUtils.ts:57-70 | a trimmed name; the description is "" when no `.stat` element holds a `strong`, and otherwise the trimmed text of the first of them (in document order) with its label removed |
| ParseUtils.Texts | app/parser/parseUtils.ts:77 | the text content of each element, in order |
| ParseUtils.NonEmpty | app/parser/parseUtils.ts:77 | `filter(Boolean)` is `filter` with the test "non-empty": exactly the non-empty texts are kept |
| ParseUtils.NonEmptyKeepsOrder | app/parser/parseUtils.ts:77 | the filter of two joined lists is the concatenation of their filters, and one text is kept exactly when it is non-empty: order and repeats are kept |
| ParseUtils.NonEmptyKeepsAll | app/parser/parseUtils.ts:77 | when every text is non-empty nothing is dropped |
| ParseUtils.ParseRules | app/parser/parseUtils.ts:73-78 | [] without a container; otherwise the non-empty texts of the `.rule` elements in document order, each trimmed |
| ParseUtils.FirstDigitFrom | app/parser/parseUtils.ts:82 | the leftmost digit at or after the start |
| ParseUtils.ParseCost | app/parser/parseUtils.ts:81-84 | 0 when the text has no digit |
| ParseUtils.ParseCostOfNumeral | app/parser/parseUtils.ts:81-84 | a numeral after a digit-free prefix is read as its value, whatever follows it |
| ParseUtils.ParseCostOfRun | app/parser/parseUtils.ts:81-84 | a text whose first digit run copies the digits t costs their decimal value |
| ParseUtils.FirstDigitAt | app/parser/parseUtils.ts:82 | the first digit is where no digit precedes |
| ParseUtils.RunEndAt | app/parser/parseUtils.ts:82 | a digit run of n characters ends n further on |
| ParseUtils.FirstIndexFrom | app/parser/parseUtils.ts:89 | the first position at or after the start holding the string |
| ParseUtils.FindElementByText | app/parser/parseUtils.ts:87-90 | the first selected element whose trimmed text equals the text; none when none does |
| ParseUtils.FirstSectionFrom | app/parser/parseUtils.ts:96-101 | the first `.indent` at or after the start whose `.type` reads the section name |
| ParseUtils.FindSectionContainer | app/parser/parseUtils.ts:93-104 | the first `.indent` element whose first `.type` reads the section name; none when none does |
| Parser.RawText | app/parser/parser.ts:21-22 | the raw, untrimmed text content of the element, "" when it is missing |
| Parser.CostOf | app/parser/parser.ts:23 | the cost of a card; `CostOfPoints` states it for "pts:", whitespace, numeral |
| Parser.CostOfPoints | app/parser/parser.ts:23 | a cost text "pts:", whitespace, numeral gives the numeral's value |
| Parser.TrimOfSpacePrefix | app/parser/parser.ts:23 | trimming leading whitespace off a digit run leaves the digits |
| Parser.SpaceRunIs | app/parser/parser.ts:23 | the leading whitespace run ends at the first non-space |
| Parser.SpaceRunFrom | app/parser/parser.ts:23 | the same from any start |
| Parser.ProfileStatSplitsAtFirstSpace | app/parser/parser.ts:47-52 | a profile stat exists exactly when its text has a space; its name is the trimmed text before the first space and its value the rest without `<strong>` tags, trimmed |
| Parser.ProfileStat | app/parser/parser.ts:47-52 | the stat of a profile line; `ProfileStatSplitsAtFirstSpace` states when it exists and what it holds |
| Parser.FirstWord | app/parser/parser.ts:78 | the text before the first space, which holds no space |
| Parser.WeaponStatKeepsSecondWord | app/parser/parser.ts:76-81 | a weapon stat's name is the first word and its value only the second word, tags removed; "" when there is no space |
| Parser.WeaponStat | app/parser/parser.ts:76-81 | the stat of a weapon line; `WeaponStatKeepsSecondWord` states its name and value |
| Parser.Present | app/parser/parser.ts:46-52 | the stats that were pushed, no more than were read |
| Parser.PresentOfAllSome | app/parser/parser.ts:46-52 | when every element gives a stat, all of them are kept in order |
| Parser.StatOptions | app/parser/parser.ts:46-52 | one optional stat per `.stat` element |
| Parser.ProfileStatsOfSpaced | app/parser/parser.ts:46-53 | when every stat text holds a space, the profile has one stat per element, in order |
| Parser.CharIndexOfPresent | app/parser/parser.ts:47 | a character that occurs is found |
| Parser.ReadProfileStats | app/parser/parser.ts:45-53 | the push loop returns the profile stats `ProfileStats` of the elements |
| Parser.ReadWeaponStats | app/parser/parser.ts:75-82 | the push loop returns one weapon stat per element, in order |
| Parser.ElementsWithText | app/parser/parser.ts:12-15 | a sublist of the selected elements |
| Parser.ElementsWithTextMembers | app/parser/parser.ts:12-15 | exactly the elements whose text content contains the text |
| Parser.ProfileRunFollowsSiblings | app/parser/parser.ts:34-38 | the run walked from a heading: all `.profile`, starting at the next sibling, each the next sibling of the one before, and stopped at the first sibling that is not a `.profile` |
| Parser.WalkProfiles | app/parser/parser.ts:34-38 | the sibling walk returns the run `ProfileRun` after the heading |
| Parser.CollectProfileElements | app/parser/parser.ts:29-39 | the runs after every "Unit" heading, concatenated in heading order |
| Parser.LastHolderBefore | app/parser/parser.ts:64-69 | the last heading before n whose next sibling is a DIV |
| Parser.FindSectionElements | app/parser/parser.ts:60-69 | the loop that overwrites its result returns the `.profile` elements of the last heading followed by a DIV, none when there is none |
| Parser.ProfileOf | app/parser/parser.ts:41-56 | a profile's stats are the profile stats of its `.stat` elements |
| Parser.FirstDescriptionFrom | app/parser/parser.ts:134 | the first `.stat` at or after the start whose text contains "Description" |
| Parser.DescriptionOf | app/parser/parser.ts:133-138 | "" when no stat mentions "Description"; otherwise the text of the first stat that does, with its first "Description" and every strong tag removed, trimmed |
| Parser.WeaponOf | app/parser/parser.ts:71-85 | the untrimmed name of the first non-`.stat` element, and one weapon stat per `.stat` element in document order |
| Parser.AbilityOf | app/parser/parser.ts:129-141 | the untrimmed name, and a trimmed description that is `DescriptionOf` of the element, "" when no stat mentions "Description" |
| Parser.RuleTextsUpTo | app/parser/parser.ts:150-153 | no more rules than rule elements; `RuleTextsAreFilter` states which, in order |
| Parser.RawTexts | app/parser/parser.ts:151 | the untrimmed text of each rule element, in order |
| Parser.RuleTextsAreFilter | app/parser/parser.ts:150-153 | the pushed rules are the order-keeping filter of the raw texts that drops the empty ones |
| Parser.RuleTextsKeepOrder | app/parser/parser.ts:150-153 | the rules of two runs of elements are those of the first followed by those of the second, repeats kept; one element gives its text exactly when it is not empty |
| Parser.RuleTextsMembers | app/parser/parser.ts:150-153 | exactly the non-empty raw texts of the rule elements |
| Parser.ReadRules | app/parser/parser.ts:146-154 | the push loop returns `RuleTexts` of the elements |
| Parser.RulesOf | app/parser/parser.ts:144-154 | no rules without a `.rule`; otherwise the non-empty raw texts of the `.rule` elements under the parent of the first one, in document order with repeats kept |
| Parser.ReadProfiles | app/parser/parser.ts:41-56 | the push loop returns one profile per element |
| Parser.ReadWeapons | app/parser/parser.ts:71-85 | the push loop returns one weapon per element |
| Parser.ReadAbilities | app/parser/parser.ts:129-141 | the push loop returns one ability per element |
| Parser.ProfilesOf | app/parser/parser.ts:41-56 | one profile per element, the k-th read from the k-th element, in document order |
| Parser.WeaponsOf | app/parser/parser.ts:71-85 | one weapon per element, the k-th read from the k-th element, in document order |
| Parser.AbilitiesOf | app/parser/parser.ts:129-141 | one ability per element, the k-th read from the k-th element, in document order |
| Parser.UnitOf | app/parser/parser.ts:18-165 | every field of the unit of a card: the raw `.name` text, the id `name-index`, the cost read from `.cost`, the profiles of the `.profile` runs after the "Unit" headings, the weapons of the last "Ranged Weapons" and "Melee Weapons" DIVs, the abilities of the last "Abilities" DIV, and the non-empty texts of the `.rule` elements under the parent of the first `.rule`, in document order |
| Parser.ParseUnit | app/parser/parser.ts:17-166 | the procedure for one card returns `UnitOf` of the card and its index |
| Parser.MapIndexed | app/parser/parser.ts:17 | one result per card |
| Parser.MapIndexedAt | app/parser/parser.ts:17 | the i-th result is computed from the i-th card and index i |
| Parser.Cards | app/parser/parser.ts:6 | the `.unit[type="card"]` elements in document order, by `Dom.SelectMembers` |
| Parser.UnitsOf | app/parser/parser.ts:17-166 | one unit per `.unit[type="card"]` element |
| Parser.LastDash | app/parser/parser.ts:157 | the dash before the index is the last dash of an id |
| Parser.UnitId | app/parser/parser.ts:157 | the id `name-index`; `UnitIdDeterminesIndex` states that it determines the index |
| Parser.UnitIdDeterminesIndex | app/parser/parser.ts:157 | two equal ids have the same index |
| Parser.UnitIdsDistinct | app/parser/parser.ts:157 | the units of one roster have pairwise distinct ids, whatever their names |
| Parser.ParseArmyList | app/parser/parser.ts:3-174 | the units are `UnitsOf` the cards, the total is the sum of the unit costs, the name is the given one and the id is the given clock text |
| ArmyLists.SectionProfiles | app/hooks/useArmyLists.ts:28-31 | no section container, no profiles |
| ArmyLists.ProfilesIn | app/hooks/useArmyLists.ts:30 | one profile per `.profile` element, the k-th being `parseProfile` of the k-th element, in document order |
| ArmyLists.WeaponsIn | app/hooks/useArmyLists.ts:35-43 | one weapon per `.profile` element, the k-th being `parseWeapon` of the k-th element, in document order |
| ArmyLists.AbilitiesIn | app/hooks/useArmyLists.ts:48 | one ability per `.profile` element, the k-th being `parseAbility` of the k-th element, in document order |
| ArmyLists.AssembleUnit | app/hooks/useArmyLists.ts:18-66 | every field of the unit of a card: a trimmed name from `.name`, the id `name-index`, the cost parsed from the trimmed `.cost` text, the profiles, ranged weapons, melee weapons and abilities read from the `.profile` elements of the matching section container (none without one), and `parseRules` of the parent of the first `.rule` |
| ArmyLists.ReduceCostIsTotal | app/hooks/useArmyLists.ts:69 | the `reduce` from a start value adds the total cost of the units to it |
| ArmyLists.ReduceCost | app/hooks/useArmyLists.ts:69 | the `reduce`; `ReduceCostIsTotal` states that it adds the total cost to the start value |
| ArmyLists.RulesContainer | app/hooks/useArmyLists.ts:52-53 | the parent of the first `.rule`, none without one |
| ArmyLists.AssembleArmyList | app/hooks/useArmyLists.ts:9-82 | null exactly when the document cannot be parsed; otherwise the given name, the id "army-" followed by the clock, one unit per card and the total of the unit costs |
| ArmyLists.AssembledUnitAt | app/hooks/useArmyLists.ts:18 | the i-th unit is assembled from the i-th card with index i |
| ArmyLists.AssembledIdsDistinct | app/hooks/useArmyLists.ts:57 | the units of an uploaded roster have pairwise distinct ids |
| ArmyLists.SetSlot | app/hooks/useArmyLists.ts:88-92 | slot `index` holds the roster, every other slot is as before, and a slot past the end extends the list with holes |
| ArmyLists.SetSlotExample | app/hooks/useArmyLists.ts:88-92 | uploading the second roster first leaves a hole at slot 0 |
| ArmyLists.Toggle | app/hooks/useArmyLists.ts:96-98 | clicking the highlighted unit clears the highlight; clicking any other unit highlights it |
| ArmyLists.ToggleTwice | app/hooks/useArmyLists.ts:96-98 | two clicks on the same unit restore the state before them, from no highlight or from that unit |
| ArmyLists.ArmyListStore.constructor | app/hooks/useArmyLists.ts:6-7 | no rosters and no highlight |
| ArmyLists.ArmyListStore.Upload | app/hooks/useArmyLists.ts:84-94 | a failed parse changes nothing; otherwise the roster goes into its slot; the highlight is kept |
| ArmyLists.ArmyListStore.Highlight | app/hooks/useArmyLists.ts:96-98 | the highlight is toggled and the rosters are kept |
| ArmyLists.ArmyListStore.Reset | app/hooks/useArmyLists.ts:100-103 | no rosters and no highlight |
| Comparison.FirstTagFrom | app/lib/comparisonUtils.ts:7 | the leftmost position at or after p where the pattern `\s*\(\w+\)\s*$` matches |
| Comparison.FirstTagFromMatches | app/lib/comparisonUtils.ts:7 | the position found is a match of the pattern |
| Comparison.FirstTagFromIs | app/lib/comparisonUtils.ts:7 | a match with none before it is the one found |
| Comparison.Normalize | app/lib/comparisonUtils.ts:7 | the normalised name is a prefix of the name |
| Comparison.NormalizeCutsTag | app/lib/comparisonUtils.ts:7 | either the name is unchanged or it is cut where the trailing tag pattern matches |
| Comparison.TaggedIndex | app/lib/comparisonUtils.ts:7 | the positions of base, spaces, parenthesised word and trailing spaces in a tagged name |
| Comparison.TagAtBase | app/lib/comparisonUtils.ts:7 | in "base ws (word) ws" the pattern matches right after the base |
| Comparison.NoTagInBase | app/lib/comparisonUtils.ts:7 | and nowhere inside the base |
| Comparison.NormalizeStripsTag | app/lib/comparisonUtils.ts:7 | normalising "base ws (word) ws" gives the base, for a base that ends in a non-space |
| Comparison.NormalizeExample | app/lib/comparisonUtils.ts:6-7 | "Intercessor Squad (x5)" becomes "Intercessor Squad" |
| Comparison.NameOccursIsKeyOccurs | app/lib/comparisonUtils.ts:7 | a unit type occurs exactly when some unit normalises to it |
| Comparison.GroupUnitsByName | app/lib/comparisonUtils.ts:4-16 | the `reduce` builds the groups of the units by normalised name, in one pass |
| Comparison.GroupsAreFilters | app/lib/comparisonUtils.ts:4-16 | a group exists exactly for the types that occur, and holds exactly the units of that type, in roster order |
| Comparison.Groups | app/lib/comparisonUtils.ts:4-16 | the groups by normalised name; `GroupsAreFilters` states them |
| Comparison.WeightSumOfCost | app/lib/comparisonUtils.ts:76 | the tally of costs is the total cost |
| Comparison.CountUnitsByType | app/lib/comparisonUtils.ts:19-34 | the loop builds the counters `Counts` of the units |
| Comparison.CountIsGroupSize | app/lib/comparisonUtils.ts:19-34 | a counter exists exactly for the types that occur and equals the size of the group |
| Comparison.CountsSum | app/lib/comparisonUtils.ts:19-34 | the counters add up to the number of units |
| Comparison.Counts | app/lib/comparisonUtils.ts:19-34 | the counters by type; `CountIsGroupSize` and `CountsSum` state them |
| Comparison.GetPointsBreakdown | app/lib/comparisonUtils.ts:66-80 | the loop builds the per-type point totals `Breakdown` of the units |
| Comparison.BreakdownIsGroupCost | app/lib/comparisonUtils.ts:66-80 | an entry exists exactly for the types that occur and is the total cost of the group |
| Comparison.BreakdownSum | app/lib/comparisonUtils.ts:66-80 | the breakdown adds up to the roster's total cost |
| Comparison.Breakdown | app/lib/comparisonUtils.ts:66-80 | the points by type; `BreakdownIsGroupCost` and `BreakdownSum` state them |
| Comparison.FindSimilarUnits | app/lib/comparisonUtils.ts:37-51 | every entry is a pair |
| Comparison.FindSimilarUnitsAt | app/lib/comparisonUtils.ts:37-51 | an entry exists exactly for the types in both rosters, and is the pair of the two groups |
| Comparison.NameOccursAppend | app/lib/comparisonUtils.ts:57 | a type occurs in the joined rosters exactly when it occurs in one of them |
| Comparison.AllUnitTypesSpec | app/lib/comparisonUtils.ts:54-63 | the types are strictly sorted, distinct, and exactly those of either roster |
| Comparison.GetAllUnitTypes | app/lib/comparisonUtils.ts:54-63 | the set-building loop and the sort return exactly those types, strictly sorted |
| Comparison.AllUnitTypes | app/lib/comparisonUtils.ts:54-63 | the sorted types of both rosters; `AllUnitTypesSpec` states them |
| Comparison.SearchUnits | app/lib/comparisonUtils.ts:83-84 | an empty search term finds nothing |
| Comparison.SearchUnitsMembers | app/lib/comparisonUtils.ts:83-106 | for a non-empty term, exactly the units whose name, ability names or descriptions, rules or weapon names contain the lower-cased term |
| Comparison.SearchUnitsKeepsOrder | app/lib/comparisonUtils.ts:88 | the search keeps roster order: searching two joined rosters is the concatenation of the searches |
| Comparison.Mentions | app/lib/comparisonUtils.ts:88-106 | the search test; `SearchUnitsMembers` states which units pass it |
| RuleReference.RulesOfUnitsMembers | app/components/RuleReference.tsx:35-39 | the rules met in the first n units are exactly the rules of those units |
| RuleReference.SlotRulesMembers | app/components/RuleReference.tsx:33-39 | the rules of a slot are exactly those of the units of the roster in it; an empty slot has none |
| RuleReference.RulesOfListsMembers | app/components/RuleReference.tsx:32-40 | the rules met in the first n slots are exactly the rules of the rosters present there; a hole contributes nothing |
| RuleReference.UniqueRulesSpec | app/components/RuleReference.tsx:29-43 | the unique rules are strictly sorted, distinct and exactly the rules that occur in some roster |
| RuleReference.AddRules | app/components/RuleReference.tsx:36-38 | adding one unit's rules to the set gives the set of all rules met so far |
| RuleReference.AddUnitRules | app/components/RuleReference.tsx:35-39 | the same for all units of a roster |
| RuleReference.ComputeUniqueRules | app/components/RuleReference.tsx:29-43 | the nested loops and the sort return `UniqueRules`: strictly sorted and exactly the rules that occur |
| RuleReference.UniqueRules | app/components/RuleReference.tsx:29-43 | the specification of the `useMemo`; `UniqueRulesSpec` states it |
| RuleReference.FilteredRules | app/components/RuleReference.tsx:46-51 | an empty search term keeps every rule; the filter never adds any |
| RuleReference.FilteredRulesMembers | app/components/RuleReference.tsx:48-50 | for a non-empty term, exactly the rules whose lower-cased text contains the lower-cased term |
| RuleReference.FilteredRulesKeepOrder | app/components/RuleReference.tsx:48-50 | the filter keeps order: the filter of two joined lists is the concatenation of the filters |
| RuleReference.FilterUpToSorted | app/components/RuleReference.tsx:48-50 | filtering a strictly sorted list keeps it strictly sorted |
| RuleReference.FilteredRulesSorted | app/components/RuleReference.tsx:46-51 | the rules listed are strictly sorted, with or without a search term |
| RuleReference.RuleDescription | app/components/RuleReference.tsx:8-23 | the table's text for the fourteen known rules, the fallback text for any other |
| RuleReference.RuleDescriptionOfTorrent | app/components/RuleReference.tsx:13 | the description shown for Torrent |
| RuleReference.RuleDescriptionOfUnknown | app/components/RuleReference.tsx:72 | a rule outside the table shows the fallback text |
| RuleReference.CommonRule | app/components/RuleReference.tsx:8-23 | the table of fourteen rules; `RuleDescription` and its two lemmas state the lookup |
| DamagePanel.WoundThresholdAgrees | app/components/DamagePanel.tsx:12-18 | the wound roll the panel prints is a "d+" whose chance is exactly the engine's wound probability for the same strength and toughness |
| DamagePanel.WoundThreshold | app/components/DamagePanel.tsx:12-18 | `getWoundThreshold` always prints one of "2+" to "6+", and "5+" for a NaN toughness; `WoundThresholdAgrees` ties the printed roll to the engine |
| DamagePanel.DefenderToughness | app/components/DamagePanel.tsx:53-54 | the panel's toughness; `DefenderToughnessAgrees` states when it is the engine's and what happens when it is NaN |
| DamagePanel.DefenderToughnessAgrees | app/components/DamagePanel.tsx:53-54 | a toughness read as a number is the engine's, and the printed threshold agrees with the engine; a toughness that reads as NaN is 0 in the engine, is printed "5+" by the panel, and the engine then wounds on 2+ |
| DamagePanel.RunStart | app/components/DamagePanel.tsx:22-25 | the start of the run of characters of a class that ends at k |
| DamagePanel.RunStartIs | app/components/DamagePanel.tsx:22-25 | a run bounded by a character outside the class starts there |
| DamagePanel.CountDigitsStart | app/components/DamagePanel.tsx:22 | the digits of a "(xN)" suffix start right after "(x" |
| DamagePanel.ExtractWeaponCountSuffixed | app/components/DamagePanel.tsx:21-27 | with a "(xN)" suffix the clean name is the name before it without the whitespace in between and the count is N |
| DamagePanel.ExtractWeaponCountPlain | app/components/DamagePanel.tsx:28 | without such a suffix the name is kept and the count is 1 |
| DamagePanel.ExtractWeaponCountOfParts | app/components/DamagePanel.tsx:21-29 | the name "base ws (xN)" is split back into base and N, for any whitespace and any digits |
| DamagePanel.DigitsOfParts | app/components/DamagePanel.tsx:22-24 | the digits after "(x" are read as their decimal value |
| DamagePanel.SuffixOfParts | app/components/DamagePanel.tsx:22 | a name ending in "(x" digits ")" has the suffix |
| DamagePanel.ExtractWeaponCountExamples | app/components/DamagePanel.tsx:21-29 | "Bolt pistol (x2)" is two Bolt pistols; "Bolt pistol" is one |
| DamagePanel.ExtractWeaponCount | app/components/DamagePanel.tsx:21-29 | the clean name is always a prefix of the weapon name; `ExtractWeaponCountSuffixed`, `ExtractWeaponCountPlain` and `ExtractWeaponCountOfParts` give the name and the count |
| DamagePanel.SaveFailRate | app/components/DamagePanel.tsx:32-36 | 1 for a save value of 7 or more, otherwise (v - 1) / 6, the complement of rolling v or better; NaN stays NaN |
| DamagePanel.ScanInvulnSave | app/components/DamagePanel.tsx:59-69 | the panel's own scan with its early exit finds the same invulnerable save as the engine |
| DamagePanel.ComputeEffectiveSave | app/components/DamagePanel.tsx:144-172 | the branches over armour and invulnerable save give the save choice `PanelSave` |
| DamagePanel.PanelSave | app/components/DamagePanel.tsx:145-172 | without an armour value the save is 7 with no text; any save value is at most 7; `PanelSaveChoosesBetter` and `PanelSaveMatchesEngine` give the choice and its relation to the engine |
| DamagePanel.IntToStringEndsInDigit | app/components/DamagePanel.tsx:159-163 | a printed number ends in a digit |
| DamagePanel.PanelSaveWithoutArmour | app/components/DamagePanel.tsx:145-175 | with no armour save the label is "None" and every wound goes through, even when an invulnerable save exists |
| DamagePanel.LoneInvulnDiverges | app/components/DamagePanel.tsx:145-175 | without an armour save but with an invulnerable "d+" (d from 2 to 6), the engine saves with chance (7 - d) / 6 > 0 while the panel lets every wound through |
| DamagePanel.PanelSaveChoosesBetter | app/components/DamagePanel.tsx:148-165 | with both saves the value is the smaller of the invulnerable value and the armour value worsened by AP and capped at 6, and the label is an invulnerable one exactly when the invulnerable value is strictly smaller |
| DamagePanel.SaveNumberOfThreshold | app/components/DamagePanel.tsx:150 | the save "d+" is read as d |
| DamagePanel.PanelSaveMatchesEngine | app/components/DamagePanel.tsx:144-175 | for an armour "d+" that AP does not push past 6, the panel's fail rate is 1 minus the engine's effective save |
| DamagePanel.PanelSaveCapsAtSix | app/components/DamagePanel.tsx:150-171 | when AP pushes the save past 6 the panel still saves on 6+ (fail rate 5/6) while the engine allows no save |
| DamagePanel.FindWeaponFrom | app/components/DamagePanel.tsx:128-129 | the first weapon at or after the start named like the result or like its clean name |
| DamagePanel.FindWeapon | app/components/DamagePanel.tsx:128-129 | a weapon found is one of the attacker's, named like the result or like its clean name; none is found exactly when no weapon has either name |
| DamagePanel.WeaponStat | app/components/DamagePanel.tsx:130-134 | the value of the named stat of the weapon found, "" without a weapon or a stat; `ApOfMissingStat` relates the "" default to the engine's |
| DamagePanel.RowFiguresProducts | app/components/DamagePanel.tsx:177-187 | attacks, hits, wounds are the engine's times the count; unsaved = wounds × count × fail rate; damage = that times the damage value |
| DamagePanel.RowFigures | app/components/DamagePanel.tsx:177-187 | `RowFiguresProducts` states each figure as a product of the engine's figure, the count, the fail rate and the damage value |
| DamagePanel.PanelRow | app/components/DamagePanel.tsx:123-187 | `PanelRowFigures` and `SingleCopyRow` state the count, the figures and the damage value of a row |
| DamagePanel.PanelRowFigures | app/components/DamagePanel.tsx:123-187 | a row's count comes from the weapon name, its figures from the engine result, and its damage value is never 0 (1 when D reads as NaN or 0) |
| DamagePanel.SingleCopyRow | app/components/DamagePanel.tsx:177-180 | a weapon without a count suffix keeps its name, count 1, and the engine's attacks, hits and wounds |
| DamagePanel.ScaleByOne | app/components/DamagePanel.tsx:178-180 | scaling by a count of 1 changes nothing |
| DamagePanel.RenderPanel | app/components/DamagePanel.tsx:45-50 | nothing is rendered unless both units are present; otherwise one row per melee and per ranged weapon |
| DamagePanel.DefenderArmour | app/components/DamagePanel.tsx:57 | the SV value of the first profile; `DefenderArmourAgrees` ties it to the engine's |
| DamagePanel.Rows | app/components/DamagePanel.tsx:123-187 | one row per engine result, in result order, with the engine's attacks times the row's count |
| DamagePanel.FindWeaponOwn | app/components/DamagePanel.tsx:128-129 | the lookup finds the row's own weapon when no earlier weapon has its name |
| DamagePanel.ApOfMissingStat | app/components/DamagePanel.tsx:132-144 | the panel's default "" for a missing AP and the engine's "0" give the same magnitude |
| DamagePanel.InvulnSaveShape | app/components/DamagePanel.tsx:60-69 | the invulnerable save found is "" or a digit followed by '+' |
| DamagePanel.EngineUnsaved | app/lib/damageCalculator.ts:168-189 | the engine's unsaved wounds are its wounds times 1 minus its effective save |
| DamagePanel.ResolveUnsaved | app/lib/damageCalculator.ts:189 | the same for the arithmetic stage |
| DamagePanel.DefenderArmourAgrees | app/components/DamagePanel.tsx:57 | the armour the panel reads is the engine's SV value when present |
| DamagePanel.SingleCopyRowMatchesEngine | app/components/DamagePanel.tsx:123-187 | for a single weapon with its own name and an armour that AP does not push past 6, the row's unsaved wounds equal the engine's |
| DamagePanel.RowFailRate | app/components/DamagePanel.tsx:141-175 | under the same conditions the row's fail rate is 1 minus the engine's effective save |
| DamagePanel.RowUnsaved | app/components/DamagePanel.tsx:183 | a fail rate of 1 - e turns one copy's wounds into the engine's unsaved wounds |
| DamagePanel.MulIsUnsaved | app/components/DamagePanel.tsx:183 | wounds × (1 - e) is `Unsaved` |
| DamagePanel.MeleeRowMatchesEngine | app/components/DamagePanel.tsx:123-187 | the rendered melee row shows the engine's unsaved wounds for its weapon under those conditions |
| DamagePanel.RangedRowMatchesEngine | app/components/DamagePanel.tsx:259-321 | the same for the ranged table, which reads BS |
| Page.Start | app/page.tsx:29-33 | selection of the attacker begins with both units cleared |
| Page.Pick | app/page.tsx:36-44 | the first pick sets the attacker and waits for the defender, the second sets the defender and ends the selection, and a pick outside a selection is ignored |
| Page.Cancel | app/page.tsx:47-51 | no selection and no units |
| Page.NextView | app/page.tsx:59-65 | on the length of the list of roster slots (a hole at slot 0 counts): length 0 gives the upload view, length 2 gives the comparison, any other length keeps the view |
| Page.TransitionsKeepReachable | app/page.tsx:29-51 | every transition keeps the selection in a reachable state: nothing set while the attacker is awaited, only the attacker while the defender is |
| Page.PanelOnlyWhenIdle | app/page.tsx:182-188 | the panel is never shown while a selection is in progress |
| Page.StartThenTwoPicks | app/page.tsx:29-44 | start and two picks show the panel for the first unit against the second; later picks change nothing |
| Page.OnePickHidesPanel | app/page.tsx:36-40 | after one pick the panel is hidden |
| Page.StartAndCancelHidePanel | app/page.tsx:29-51 | starting over and cancelling hide the panel |
| Page.ShownPanelRenders | app/page.tsx:182-188 | the damage panel renders exactly while both units are set, with a row per melee weapon |
| Page.NextViewSettles | app/page.tsx:59-65 | running the view effect again on the same list of slots keeps the view |
| Page.CompareNeedsTwo | app/page.tsx:59-65 | the comparison is shown only after the effect saw a list of slots of length two (a hole at slot 0 counts) |
| Page.CompareWithOneRoster | app/page.tsx:59-65 | uploading only into slot 1 gives a list of length two with a hole at slot 0, and the comparison opens with that single roster |
| Page.Home.constructor | app/page.tsx:12-26 | the upload view, no selection, and an empty roster store |
| Page.Home.StartDamageCalculation | app/page.tsx:29-33 | the selection becomes `Start` of the old one and the view is kept |
| Page.Home.SelectUnitForDamage | app/page.tsx:36-44 | the selection becomes `Pick` of the old one and the unit |
| Page.Home.ResetDamageCalculation | app/page.tsx:47-51 | the selection is cancelled |
| Page.Home.SyncView | app/page.tsx:59-65 | the view becomes `NextView` of the old view and the number of roster slots |
| Page.Home.UploadArmyList | app/page.tsx:59-65 | the roster store takes the upload and the view effect follows |
| Page.Home.HandleReset | app/page.tsx:67-70 | the rosters and the highlight are cleared and the upload view returns; the damage selection is kept |
| Strings.TrimStart | app/parser/parseUtils.ts:5 | the suffix left after dropping leading whitespace, which starts with a non-space |
| Strings.TrimEnd | app/parser/parseUtils.ts:5 | the prefix left after dropping trailing whitespace, which ends in a non-space |
| Strings.Trim | app/parser/parseUtils.ts:5 | `trim`; `TrimIsTrimmed` and `TrimmedIsFixed` state that its result is trimmed and that trimmed text is kept |
| Strings.TrimIsTrimmed | app/parser/parseUtils.ts:5 | `trim` gives a trimmed string and is idempotent |
| Strings.TrimmedIsFixed | app/parser/parseUtils.ts:5 | a trimmed string is left unchanged |
| Strings.IndexOf | app/lib/damageCalculator.ts:101 | the first occurrence of a pattern, none when it does not occur |
| Strings.ReplaceFirst | app/lib/damageCalculator.ts:101 | `replace` with a string pattern: the first occurrence is replaced, a string without one is unchanged |
| Strings.Contains | app/lib/damageCalculator.ts:161-163 | `includes`: the pattern occurs; `ContainsAppend` states that an occurrence survives appending |
| Strings.Split | app/parser/parseUtils.ts:21 | `split` on one character: at least one part, none holding the separator |
| Strings.JoinSplit | app/parser/parseUtils.ts:21-24 | joining the parts with the separator gives the string back |
| Strings.SplitHead | app/parser/parseUtils.ts:21-23 | the first part is the text before the first separator |
| Strings.SplitTail | app/parser/parseUtils.ts:24 | the remaining parts joined are the text after the first separator |
| Strings.Join | app/parser/parseUtils.ts:24 | `join`; `JoinSplit` states that it undoes `split` |
| Strings.ParseIntOr | app/lib/damageCalculator.ts:155-158 | `parseInt` with a fallback: the default for NaN and for 0, otherwise the number |
| Strings.ParseInt | app/lib/damageCalculator.ts:155 | `parseInt`; `ParseIntOfNatToString` and `ParseIntOfSigned` state that it reads numerals with their sign |
| Strings.ParseIntOfNatToString | app/lib/damageCalculator.ts:155 | `parseInt` reads a numeral as its value |
| Strings.ParseIntOfSigned | app/lib/damageCalculator.ts:101 | `parseInt` reads a signed numeral with its sign |
| Strings.DecimalNumberOfNatToString | app/lib/damageCalculator.ts:35 | `Number` reads a numeral as its value |
| Strings.DecimalNumberOfSigned | app/lib/damageCalculator.ts:35 | `Number` reads a signed numeral with its sign |
| Strings.DecimalNumberOfSpace | app/lib/damageCalculator.ts:35 | `Number` reads blank text as 0 |
| Strings.DecimalNumberOfNonNumeral | app/lib/damageCalculator.ts:35 | `Number` is NaN for a text with a character outside a numeral |
| Strings.DecimalNumber | app/lib/damageCalculator.ts:35 | `Number` on decimal text; the four `DecimalNumberOf` lemmas state its values |
| Strings.NatToString | app/components/DamagePanel.tsx:159-163 | the decimal numeral of a natural number, without leading zeros |
| Strings.IntToString | app/components/DamagePanel.tsx:159-163 | the numeral of an integer, with a minus sign when it is negative |
| Strings.NatToStringInjective | app/parser/parser.ts:157 | different numbers print differently |
| Strings.ToLower | app/lib/comparisonUtils.ts:86 | lower-casing maps each character and keeps the length |
| Strings.StripStrong | app/parser/parseUtils.ts:16 | removing `<strong>` tags never lengthens the text; the lemmas below state that the tags go and all other text stays in order |
| Strings.StripStrongNoTag | app/parser/parseUtils.ts:16 | a text without '<' is left as it is |
| Strings.StripStrongOpenTag | app/parser/parseUtils.ts:16 | a leading `<strong>` is removed |
| Strings.StripStrongCloseTag | app/parser/parseUtils.ts:16 | a leading `</strong>` is removed |
| Strings.StripStrongPlainHead | app/parser/parseUtils.ts:16 | a leading character other than "<" is kept in front |
| Strings.StripStrongKeepsPlain | app/parser/parseUtils.ts:16 | text before the next "<" is kept unchanged and in place |
| Strings.StripStrongOfClosed | app/parser/parseUtils.ts:16 | `q</strong>r` becomes `qr` when q and r hold no "<" |
| Strings.StripStrongOfTagged | app/parser/parseUtils.ts:16 | `p<strong>q</strong>r` becomes `pqr` when p, q and r hold no "<" |
| Dom.QuerySelectorIsFirst | app/parser/parseUtils.ts:30 | `querySelector` is the first element of `querySelectorAll`, none when that is empty |
| Dom.SelectMembers | app/parser/parseUtils.ts:33 | `querySelectorAll` yields exactly the descendants that match |
| Dom.NextElementFrom | app/parser/parser.ts:34-37 | `nextElementSibling`: the first element child of the parent after the given position |
| Dom.TextContent | app/parser/parser.ts:21-22 | `textContent`: the text nodes below an element concatenated in document order |
| Dom.QuerySelectorAll | app/parser/parseUtils.ts:33 | `querySelectorAll`; `SelectMembers` states that it yields exactly the matching descendants |
| Dom.QuerySelector | app/parser/parseUtils.ts:30 | `querySelector`; `QuerySelectorIsFirst` states that it is the first match |
| Dom.NextElementSibling | app/parser/parser.ts:34-37 | `nextElementSibling`; `NextElementFrom` states that it is the next element child of the same parent |
| Dom.ParentElement | app/parser/parser.ts:145 | `parentElement`: the element a reference was found under |
| Types.TotalCostAppend | app/hooks/useArmyLists.ts:69 | the points of two joined lists of units are the sum of their points |
| Types.TotalCost | app/parser/parser.ts:25 | the sum of the unit costs; `TotalCostAppend` states that it adds over concatenation |
| Sequences.FilterMembers | app/lib/comparisonUtils.ts:88 | `filter` keeps exactly the accepted elements |
| Sequences.FilterAppend | app/lib/comparisonUtils.ts:88 | `filter` keeps order: the filter of a concatenation is the concatenation of the filters |
| Grouping.GroupUpToAt | app/lib/comparisonUtils.ts:5-15 | a group exists for a key exactly when some element has it, and holds exactly those elements in order |
| Grouping.TallyUpToAt | app/lib/comparisonUtils.ts:19-34 | a tally entry exists exactly when a group does and is the weight of the group |
| Grouping.TallyUpToSum | app/lib/comparisonUtils.ts:19-34 | the entries of a tally add up to the weight of all the elements |
| Grouping.KeysUpToMembers | app/lib/comparisonUtils.ts:55-60 | the set of keys is duplicate-free and holds exactly the keys that occur |
| StringSort.Add | app/lib/comparisonUtils.ts:59 | `Set.add`: the element joins the set, which stays duplicate-free |
| StringSort.Sort | app/lib/comparisonUtils.ts:62 | `sort` keeps the length and the members |
| StringSort.SortSorted | app/lib/comparisonUtils.ts:62 | sorting distinct strings gives a strictly increasing list |

## Left out

- **Parsing HTML.** `DOMParser` and HTML tokenising are foreign browser code. The document is an abstract element tree, and a document that fails to parse (the hook's `catch`) is the input `None`.
- **Environment checks.** `createParserForBrowser` and the `typeof window` guards only detect the environment and are not modelled.
- **The clock.** `Date.now()` is a parameter: the standalone parser takes the id text, and the hook takes the clock value.
- **Floating point.** IEEE-754 rounding, `toFixed` formatting and `Math.ceil` on huge values are not modelled. The numbers are exact and the ceiling is the exact integer ceiling.
- **`Number()`.** It is restricted to optionally signed decimal integers with surrounding whitespace. Hexadecimal, exponent and fraction forms are not modelled.
- **Text handling.** `toLowerCase` and `\w` are ASCII only. JavaScript's fixed whitespace set for `trim` and `\s` is modelled in full.
- **String order.** `Array.prototype.sort` on strings compares UTF-16 code units. The model compares characters, which agrees for text in the Basic Multilingual Plane.
- **Dictionaries.** A `Record` is a Dafny `map`. The insertion order of its keys is not modelled, nor are special keys such as `__proto__`. The key order of `Array.from(new Set(...))` is modelled, and the sort makes it irrelevant.
- **React and rendering.** The React scheduling of `useState`, `useEffect` and `useMemo` is modelled as synchronous updates, and the view effect as the method `SyncView`, run after a roster upload. The JSX markup, the charts tab of the damage panel, the `isClient` hydration flag and `console.error` are not modelled. Nor are the components Tooltip, UnitCard, ArmyList and ArmyListUploader, whose file reading and drag-and-drop are I/O.
- **Negative slot indices.** The upload index is a `nat`. A negative index, which JavaScript would store as a property, is not modelled.
- **Comparison with one roster.** The view effect counts the slots of the roster list, holes included, as `armyLists.length` does (page.tsx:59-65 with useArmyLists.ts:88-92). Uploading only into slot 1 therefore opens the comparison with a single roster, although the comment at page.tsx:58 says both lists must be loaded; the model keeps the code's behaviour (`CompareWithOneRoster`).
- **Reset.** `handleReset` is modelled as the code has it. It clears the rosters and the highlight and returns to the upload view, but it does not cancel a damage selection in progress.
- **Save monotonicity.** That a better save never increases damage is not proved. The per-stage figures are proved instead (`ResolveFigures`).
- DamageCalculator.ExpectedValueOfDice: additivity is proved for counts and modifiers written as numerals, not for every digit text `parseInt` accepts, such as leading zeros.
- DamagePanel.SingleCopyRowMatchesEngine: agreement is proved only where the panel and the engine agree. The panel diverges from the engine in at least these cases. First, it caps a worsened save at 6+ where the engine allows no save (`PanelSaveCapsAtSix`). Second, it shows a toughness that reads as NaN as "5+" where the engine wounds on 2+ (`DefenderToughnessAgrees`). Third, it multiplies by `parseInt(D)`, or 1, instead of the expected value of the damage dice. Fourth, it may look up an earlier weapon with the same name. Fifth, a defender with no armour save, or an empty one, but with an invulnerable save gets no save in the panel, while the engine applies the invulnerable save (`LoneInvulnDiverges`). Sixth, an armour value that `parseInt` cannot read once '+' is removed, such as "-", makes the panel's fail rate NaN, while the engine uses only the invulnerable save, if there is one. Seventh, the panel's final damage is unsaved wounds times copies times the damage value (DamagePanel.tsx:182-186), which never includes the mortal wounds the engine adds for Devastating Wounds (damageCalculator.ts:183-193).
- DamagePanel.RenderPanel: the engine is called only for a defender with at least one profile. The code indexes the first profile without checking and would throw on a defender without one.
- DamageCalculator.CalculateDamage: it and `WeaponDamage`, `CalculateWeaponDamage`, `TorrentAlwaysHits`, `WeaponResults` and `NoWeaponsNeverKills` require the defender to have at least one profile. The code reads the first profile without checking (damageCalculator.ts lines 137 and 228) and throws on a defender without one. That case is not modelled.
- **Illustrations.** Some lemmas are worked examples or one-step facts: `SetSlotExample`, `ToggleTwice`, `ExampleSplits`, `ExampleValue`, `ScaleByOne`, `MulIsUnsaved`, `IntToStringEndsInDigit` and the other `Example` lemmas. They document the model. The general properties are stated by the other lemmas.
