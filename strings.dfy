/** The JavaScript string built-ins the roster application relies on, over `string = seq<char>`:
    white space and `trim`, `indexOf`/`includes`, `replace` of the first occurrence, `split`/`join`
    on a one-character separator, `parseInt`, `Number` (decimal integers only), `toLowerCase`
    (ASCII letters only) and the removal of `<strong>` tags. */
module Strings {
  import opened Wrappers

  // ---------------------------------------------------------------------------------------
  // Character classes
  // ---------------------------------------------------------------------------------------

  /** The white-space and line-terminator code points of ECMAScript: what `trim` removes and
      what the regular-expression class `\s` matches. */
  predicate IsSpace(c: char) {
    var k := c as int;
    k == 0x09 || k == 0x0A || k == 0x0B || k == 0x0C || k == 0x0D || k == 0x20 || k == 0xA0
    || k == 0x1680 || (0x2000 <= k <= 0x200A) || k == 0x2028 || k == 0x2029
    || k == 0x202F || k == 0x205F || k == 0x3000 || k == 0xFEFF
  }

  /** The characters the regular-expression `.` does not match. */
  predicate IsLineTerminator(c: char) {
    var k := c as int;
    k == 0x0A || k == 0x0D || k == 0x2028 || k == 0x2029
  }

  /** `\d` */
  predicate IsDigit(c: char) { '0' <= c <= '9' }

  /** `\w` */
  predicate IsWordChar(c: char) { 'a' <= c <= 'z' || 'A' <= c <= 'Z' || IsDigit(c) || c == '_' }

  predicate IsHexDigit(c: char) { IsDigit(c) || 'a' <= c <= 'f' || 'A' <= c <= 'F' }

  datatype CharClass = Digit | HexDigit | Space | Word

  predicate InClass(c: char, cls: CharClass) {
    match cls
    case Digit => IsDigit(c)
    case HexDigit => IsHexDigit(c)
    case Space => IsSpace(c)
    case Word => IsWordChar(c)
  }

  /** The end of the longest run of characters of class `cls` that starts at `i`. */
  function RunEnd(s: string, i: nat, cls: CharClass): (k: nat)
    requires i <= |s|
    ensures i <= k <= |s|
    ensures forall j {:trigger InClass(s[j], cls)} :: i <= j < k ==> InClass(s[j], cls)
    ensures k < |s| ==> !InClass(s[k], cls)
    decreases |s| - i
  {
    if i < |s| && InClass(s[i], cls) then RunEnd(s, i + 1, cls) else i
  }

  // ---------------------------------------------------------------------------------------
  // Numerals
  // ---------------------------------------------------------------------------------------

  predicate AllDigits(s: string) { forall i {:trigger IsDigit(s[i])} :: 0 <= i < |s| ==> IsDigit(s[i]) }

  function HexDigitValue(c: char): (d: nat)
    requires IsHexDigit(c)
    ensures d < 16 && (IsDigit(c) <==> d < 10)
  {
    if IsDigit(c) then c as int - '0' as int
    else if 'a' <= c <= 'f' then c as int - 'a' as int + 10
    else c as int - 'A' as int + 10
  }

  function DigitChar(d: nat): (c: char)
    requires d < 10
    ensures IsDigit(c) && HexDigitValue(c) == d
  {
    (d + '0' as int) as char
  }

  /** The value of the digits `s[lo..hi]` in base 16 (when `hex`) or 10, most significant first. */
  function DigitsValue(s: string, lo: nat, hi: nat, hex: bool): nat
    requires lo <= hi <= |s| && forall j {:trigger IsHexDigit(s[j])} :: lo <= j < hi ==> IsHexDigit(s[j])
    decreases hi
  {
    if hi == lo then 0
    else if hex then DigitsValue(s, lo, hi - 1, hex) * 16 + HexDigitValue(s[hi - 1])
    else DigitsValue(s, lo, hi - 1, hex) * 10 + HexDigitValue(s[hi - 1])
  }

  /** The value of a run of decimal digits. */
  function DecimalValue(s: string): nat
    requires AllDigits(s)
  {
    DigitsValue(s, 0, |s|, false)
  }

  /** Digits that agree give the same value, wherever they sit. */
  lemma {:induction false} DigitsValueShift(s: string, lo: nat, t: string, tlo: nat, hex: bool, n: nat)
    requires lo + n <= |s| && tlo + n <= |t|
    requires forall j {:trigger IsHexDigit(t[j])} :: tlo <= j < tlo + n ==> IsHexDigit(t[j])
    requires forall k :: lo <= k < lo + n ==> s[k] == t[k - lo + tlo]
    ensures DigitsValue(s, lo, lo + n, hex) == DigitsValue(t, tlo, tlo + n, hex)
    decreases n
  {
    if n > 0 {
      DigitsValueShift(s, lo, t, tlo, hex, n - 1);
    }
  }

  /** The decimal numeral of `n`, as JavaScript's template literals and `toString` write it. */
  function NatToString(n: nat): (r: string)
    ensures |r| >= 1 && AllDigits(r)
    ensures r[0] == '0' ==> n == 0
  {
    if n < 10 then [DigitChar(n)] else NatToString(n / 10) + [DigitChar(n % 10)]
  }

  /** The numeral of an integer, with a leading '-' when it is negative. */
  function IntToString(i: int): (r: string)
    ensures |r| >= 1
    ensures i >= 0 ==> r == NatToString(i)
    ensures i < 0 ==> r == "-" + NatToString(-i)
  {
    if i < 0 then "-" + NatToString(-i) else NatToString(i)
  }

  /** Reading a numeral back gives the number it was written from. */
  lemma {:induction false} DecimalValueOfNatToString(n: nat)
    ensures DecimalValue(NatToString(n)) == n
  {
    if n >= 10 {
      DecimalValueOfNatToString(n / 10);
      var s := NatToString(n);
      var p := NatToString(n / 10);
      assert s == p + [DigitChar(n % 10)];
      DigitsValueShift(s, 0, p, 0, false, |p|);
    }
  }

  /** A numeral holds digits only. */
  lemma NotInNumeral(n: nat, c: char)
    requires !IsDigit(c)
    ensures c !in NatToString(n)
  {
    var s := NatToString(n);
    forall j | 0 <= j < |s| ensures s[j] != c {
      assert IsDigit(s[j]);
    }
  }

  /** Different numbers have different numerals. */
  lemma {:induction false} NatToStringInjective(m: nat, n: nat)
    requires NatToString(m) == NatToString(n)
    ensures m == n
  {
    DecimalValueOfNatToString(m);
    DecimalValueOfNatToString(n);
  }

  // ---------------------------------------------------------------------------------------
  // White space
  // ---------------------------------------------------------------------------------------

  predicate AllSpace(s: string) { forall i {:trigger IsSpace(s[i])} :: 0 <= i < |s| ==> IsSpace(s[i]) }

  /** The end of the run of white space that starts at `i`. */
  function SpaceRunEnd(s: string, i: nat): (k: nat)
    requires i <= |s|
    ensures i <= k <= |s|
    ensures forall j {:trigger IsSpace(s[j])} :: i <= j < k ==> IsSpace(s[j])
    ensures k < |s| ==> !IsSpace(s[k])
    decreases |s| - i
  {
    if i < |s| && IsSpace(s[i]) then SpaceRunEnd(s, i + 1) else i
  }

  /** `s` without its leading white space. */
  function TrimStart(s: string): (r: string)
    ensures |r| <= |s| && r == s[|s| - |r|..]
    ensures forall i {:trigger IsSpace(s[i])} :: 0 <= i < |s| - |r| ==> IsSpace(s[i])
    ensures r == [] || !IsSpace(r[0])
  {
    s[SpaceRunEnd(s, 0)..]
  }

  /** The end of `s[..k]` once its trailing white space is dropped. */
  function TrimEndIndex(s: string, k: nat): (e: nat)
    requires k <= |s|
    ensures e <= k
    ensures forall i {:trigger IsSpace(s[i])} :: e <= i < k ==> IsSpace(s[i])
    ensures e == 0 || !IsSpace(s[e - 1])
  {
    if k > 0 && IsSpace(s[k - 1]) then TrimEndIndex(s, k - 1) else k
  }

  /** `s` without its trailing white space. */
  function TrimEnd(s: string): (r: string)
    ensures |r| <= |s| && r == s[..|r|]
    ensures forall i {:trigger IsSpace(s[i])} :: |r| <= i < |s| ==> IsSpace(s[i])
    ensures r == [] || !IsSpace(r[|r| - 1])
  {
    s[..TrimEndIndex(s, |s|)]
  }

  /** A string that does not start with white space has none to drop at its start. */
  lemma {:induction false} TrimStartUnchanged(s: string)
    requires s == [] || !IsSpace(s[0])
    ensures TrimStart(s) == s
  {
    assert SpaceRunEnd(s, 0) == 0;
    assert s[0..] == s;
  }

  /** A string that does not end with white space has none to drop at its end. */
  lemma {:induction false} TrimEndUnchanged(s: string)
    requires s == [] || !IsSpace(s[|s| - 1])
    ensures TrimEnd(s) == s
  {
    assert TrimEndIndex(s, |s|) == |s|;
    assert s[..|s|] == s;
  }

  /** JavaScript's `String.prototype.trim`. */
  function Trim(s: string): string {
    TrimEnd(TrimStart(s))
  }

  predicate IsTrimmed(s: string) {
    s == [] || (!IsSpace(s[0]) && !IsSpace(s[|s| - 1]))
  }

  lemma {:induction false} TrimmedIsFixed(s: string)
    requires IsTrimmed(s)
    ensures Trim(s) == s
  {
    TrimStartUnchanged(s);
    TrimEndUnchanged(s);
  }

  /** The result of `trim` neither starts nor ends with white space, and trimming it again changes nothing. */
  lemma {:induction false} TrimIsTrimmed(s: string)
    ensures IsTrimmed(Trim(s))
    ensures Trim(Trim(s)) == Trim(s)
  {
    var u := TrimStart(s);
    var r := TrimEnd(u);
    if r != [] {
      assert r[0] == u[0];
    }
    TrimmedIsFixed(r);
  }

  // ---------------------------------------------------------------------------------------
  // Searching
  // ---------------------------------------------------------------------------------------

  predicate OccursAt(s: string, pat: string, i: int) {
    0 <= i && i + |pat| <= |s| && forall k :: 0 <= k < |pat| ==> s[i + k] == pat[k]
  }

  function IndexOfFrom(s: string, pat: string, i: nat): (r: Option<nat>)
    ensures r.Some? ==> i <= r.value && OccursAt(s, pat, r.value)
    ensures r.Some? ==> forall j :: i <= j < r.value ==> !OccursAt(s, pat, j)
    ensures r.None? ==> forall j :: i <= j ==> !OccursAt(s, pat, j)
    decreases |s| - i
  {
    if i + |pat| > |s| then None
    else if OccursAt(s, pat, i) then Some(i)
    else IndexOfFrom(s, pat, i + 1)
  }

  /** JavaScript's `s.indexOf(pat)`, with None for -1: the leftmost occurrence. */
  function IndexOf(s: string, pat: string): (r: Option<nat>)
    ensures r.Some? ==> OccursAt(s, pat, r.value) && forall j :: 0 <= j < r.value ==> !OccursAt(s, pat, j)
    ensures r.None? ==> forall j :: !OccursAt(s, pat, j)
  {
    IndexOfFrom(s, pat, 0)
  }

  /** JavaScript's `s.includes(pat)`. */
  predicate Contains(s: string, pat: string) {
    IndexOf(s, pat).Some?
  }

  lemma {:induction false} ContainsAt(s: string, pat: string, i: int)
    requires OccursAt(s, pat, i)
    ensures Contains(s, pat)
  {
  }

  lemma {:induction false} ContainsAppend(a: string, b: string, pat: string)
    requires Contains(a, pat) || Contains(b, pat)
    ensures Contains(a + b, pat)
  {
    if Contains(a, pat) {
      var i := IndexOf(a, pat).value;
      assert (a + b)[i..i + |pat|] == a[i..i + |pat|];
      ContainsAt(a + b, pat, i);
    } else {
      var i := IndexOf(b, pat).value;
      assert (a + b)[|a| + i..|a| + i + |pat|] == b[i..i + |pat|];
      ContainsAt(a + b, pat, |a| + i);
    }
  }

  /** A pattern whose first character is nowhere in `s` does not occur in it. */
  lemma {:induction false} IndexOfAbsent(s: string, pat: string)
    requires pat != [] && pat[0] !in s
    ensures IndexOf(s, pat) == None
  {
    forall j | 0 <= j
      ensures !OccursAt(s, pat, j)
    {
      if j + |pat| <= |s| {
        assert s[j] in s;
        assert s[j + 0] != pat[0];
      }
    }
  }

  /** An occurrence at `d` with no earlier place holding the pattern's first character is the first. */
  lemma {:induction false} IndexOfAt(s: string, pat: string, d: nat)
    requires OccursAt(s, pat, d) && pat != []
    requires forall j :: 0 <= j < d ==> s[j] != pat[0]
    ensures IndexOf(s, pat) == Some(d)
  {
    forall j | 0 <= j < d
      ensures !OccursAt(s, pat, j)
    {
      assert s[j + 0] != pat[0];
    }
  }

  /** The text before the first occurrence of `pat` (all of `s` when there is none):
      JavaScript's `s.split(pat)[0]`. */
  function BeforeFirst(s: string, pat: string): (r: string)
    ensures |r| <= |s| && forall k :: 0 <= k < |r| ==> r[k] == s[k]
  {
    match IndexOf(s, pat)
    case Some(i) => s[..i]
    case None => s
  }

  /** JavaScript's `s.replace(pat, rep)` with a string pattern: only the first occurrence is replaced. */
  function ReplaceFirst(s: string, pat: string, rep: string): (r: string)
    ensures IndexOf(s, pat).None? ==> r == s
    ensures IndexOf(s, pat).Some? ==>
              var i := IndexOf(s, pat).value; r == s[..i] + rep + s[i + |pat|..]
  {
    match IndexOf(s, pat)
    case Some(i) => s[..i] + rep + s[i + |pat|..]
    case None => s
  }

  /** The first index at or after `i` holding `c`. */
  function CharIndexFrom(s: string, c: char, i: nat): (r: Option<nat>)
    ensures r.Some? ==> i <= r.value < |s| && s[r.value] == c && forall j :: i <= j < r.value ==> s[j] != c
    ensures r.None? ==> forall j :: i <= j < |s| ==> s[j] != c
    decreases |s| - i
  {
    if i >= |s| then None else if s[i] == c then Some(i) else CharIndexFrom(s, c, i + 1)
  }

  // ---------------------------------------------------------------------------------------
  // Split and join on a one-character separator
  // ---------------------------------------------------------------------------------------

  /** JavaScript's `s.split(sep)` for a one-character separator: the pieces between separators,
      empty pieces included; the empty string gives `[""]`. */
  function Split(s: string, sep: char): (r: seq<string>)
    ensures |r| >= 1
    ensures forall i :: 0 <= i < |r| ==> sep !in r[i]
  {
    if s == [] then [""]
    else
      var rest := Split(s[1..], sep);
      if s[0] == sep then [""] + rest else [[s[0]] + rest[0]] + rest[1..]
  }

  /** JavaScript's `parts.join(sep)`. */
  function Join(parts: seq<string>, sep: char): string {
    if |parts| == 0 then ""
    else if |parts| == 1 then parts[0]
    else parts[0] + [sep] + Join(parts[1..], sep)
  }

  /** Joining the pieces of a split with the same separator gives back the original text. */
  lemma {:induction false} JoinSplit(s: string, sep: char)
    ensures Join(Split(s, sep), sep) == s
  {
    if s != [] {
      var rest := Split(s[1..], sep);
      JoinSplit(s[1..], sep);
      if s[0] == sep {
        assert Split(s, sep)[1..] == rest;
      } else if |rest| > 1 {
        var r := Split(s, sep);
        assert r[1..] == rest[1..];
        assert Join(rest, sep) == rest[0] + [sep] + Join(rest[1..], sep);
        assert r[0] + [sep] + Join(r[1..], sep) == [s[0]] + (rest[0] + [sep] + Join(rest[1..], sep));
      }
    }
  }

  /** The first piece of a split is the text before the first separator; there are at least two
      pieces exactly when the separator occurs, and then the rest, joined, is the text after it. */
  lemma {:induction false} SplitHead(s: string, sep: char)
    ensures CharIndexFrom(s, sep, 0).None? ==> Split(s, sep) == [s]
    ensures CharIndexFrom(s, sep, 0).Some? ==>
              var i := CharIndexFrom(s, sep, 0).value;
              |Split(s, sep)| >= 2 && Split(s, sep)[0] == s[..i] && Split(s, sep)[1..] == Split(s[i + 1..], sep)
  {
    if s != [] {
      SplitHead(s[1..], sep);
      if s[0] != sep {
        CharIndexShift(s, sep);
        var rest := Split(s[1..], sep);
        assert Split(s, sep) == [[s[0]] + rest[0]] + rest[1..];
        if CharIndexFrom(s[1..], sep, 0).None? {
          assert [s[0]] + s[1..] == s;
        } else {
          var k := CharIndexFrom(s[1..], sep, 0).value;
          assert [s[0]] + s[1..][..k] == s[..k + 1];
          assert s[1..][k + 1..] == s[k + 2..];
        }
      }
    }
  }

  lemma {:induction false} CharIndexShift(s: string, c: char)
    requires s != [] && s[0] != c
    ensures CharIndexFrom(s, c, 0).None? <==> CharIndexFrom(s[1..], c, 0).None?
    ensures CharIndexFrom(s, c, 0).Some? ==> CharIndexFrom(s, c, 0).value == CharIndexFrom(s[1..], c, 0).value + 1
  {
    var b := CharIndexFrom(s[1..], c, 0);
    if b.Some? {
      assert s[b.value + 1] == c;
      assert forall j :: 0 <= j < b.value + 1 ==> s[j] != c by {
        forall j | 0 <= j < b.value + 1 ensures s[j] != c {
          if j > 0 {
            assert s[j] == s[1..][j - 1];
          }
        }
      }
    } else {
      assert forall j :: 0 <= j < |s| ==> s[j] != c by {
        forall j | 0 <= j < |s| ensures s[j] != c {
          if j > 0 {
            assert s[j] == s[1..][j - 1];
          }
        }
      }
    }
  }

  /** The pieces after the first, joined again: the text after the first separator, or "" when there is none. */
  lemma {:induction false} SplitTail(s: string, sep: char)
    ensures CharIndexFrom(s, sep, 0).None? ==> Join(Split(s, sep)[1..], sep) == ""
    ensures CharIndexFrom(s, sep, 0).Some? ==>
              Join(Split(s, sep)[1..], sep) == s[CharIndexFrom(s, sep, 0).value + 1..]
  {
    SplitHead(s, sep);
    if CharIndexFrom(s, sep, 0).Some? {
      JoinSplit(s[CharIndexFrom(s, sep, 0).value + 1..], sep);
    }
  }

  // ---------------------------------------------------------------------------------------
  // Number parsing
  // ---------------------------------------------------------------------------------------

  /** The value of the longest run of digits of base 10 (or 16 when `hex`) that starts at `i`;
      None when there is no such digit there. */
  function LeadingValue(s: string, i: nat, hex: bool): (r: Option<nat>)
    requires i <= |s|
    ensures r.None? <==> (i == |s| || !InClass(s[i], if hex then HexDigit else Digit))
  {
    var cls := if hex then HexDigit else Digit;
    var end := RunEnd(s, i, cls);
    if end == i then None
    else
      assert forall j :: i <= j < end ==> IsHexDigit(s[j]) by {
        forall j | i <= j < end ensures IsHexDigit(s[j]) {
          assert InClass(s[j], cls);
        }
      }
      Some(DigitsValue(s, i, end, hex))
  }

  /** `parseInt` from position `i`, after the sign: a `0x`/`0X` prefix selects base 16. */
  function ParseUnsigned(s: string, i: nat): Option<nat>
    requires i <= |s|
  {
    if i + 2 <= |s| && s[i] == '0' && (s[i + 1] == 'x' || s[i + 1] == 'X') then LeadingValue(s, i + 2, true)
    else LeadingValue(s, i, false)
  }

  function Negate(r: Option<nat>): Option<int> {
    match r
    case Some(m) => Some(-(m as int))
    case None => None
  }

  function AsInt(r: Option<nat>): Option<int> {
    match r
    case Some(m) => Some(m)
    case None => None
  }

  /** JavaScript's `parseInt(s)` without a radix: leading white space is skipped, then an optional
      sign, then an optional `0x`/`0X` prefix that selects base 16, then the longest run of digits;
      NaN (None) when that run is empty. */
  function ParseInt(s: string): Option<int> {
    var a := SpaceRunEnd(s, 0);
    if a < |s| && s[a] == '-' then Negate(ParseUnsigned(s, a + 1))
    else if a < |s| && s[a] == '+' then AsInt(ParseUnsigned(s, a + 1))
    else AsInt(ParseUnsigned(s, a))
  }

  /** JavaScript's `parseInt(s) || default`: NaN and 0 both give way to the default. */
  function ParseIntOr(s: string, default: int): (r: int)
    ensures ParseInt(s).None? ==> r == default
    ensures ParseInt(s).Some? ==> r == if ParseInt(s).value == 0 then default else ParseInt(s).value
  {
    match ParseInt(s)
    case Some(n) => if n == 0 then default else n
    case None => default
  }

  /** A run of digits that reaches the end of the string. */
  lemma {:induction false} RunEndOfDigits(s: string, i: nat)
    requires i <= |s| && forall j :: i <= j < |s| ==> IsDigit(s[j])
    ensures RunEnd(s, i, Digit) == |s|
    decreases |s| - i
  {
    if i < |s| {
      assert InClass(s[i], Digit);
      RunEndOfDigits(s, i + 1);
    }
  }

  /** A numeral that fills the rest of the string from `i` is read back as its number. */
  lemma {:induction false} ParseUnsignedOfNumeral(s: string, i: nat, n: nat)
    requires i <= |s| && s[i..] == NatToString(n)
    ensures ParseUnsigned(s, i) == Some(n)
  {
    var t := NatToString(n);
    assert forall j :: i <= j < |s| ==> IsDigit(s[j]) by {
      forall j | i <= j < |s| ensures IsDigit(s[j]) {
        assert s[j] == t[j - i];
      }
    }
    assert IsDigit(s[i]);
    if i + 1 < |s| {
      assert IsDigit(s[i + 1]);
    }
    RunEndOfDigits(s, i);
    DigitsValueShift(s, i, t, 0, false, |t|);
    DecimalValueOfNatToString(n);
  }

  /** `parseInt` reads a numeral back as the number it was written from. */
  lemma {:induction false} ParseIntOfNatToString(n: nat)
    ensures ParseInt(NatToString(n)) == Some(n)
  {
    var s := NatToString(n);
    assert IsDigit(s[0]);
    assert SpaceRunEnd(s, 0) == 0;
    assert s[0..] == s;
    ParseUnsignedOfNumeral(s, 0, n);
  }

  /** `parseInt` of a signed numeral. */
  lemma {:induction false} ParseIntOfSigned(n: nat)
    ensures ParseInt("-" + NatToString(n)) == Some(-(n as int))
    ensures ParseInt("+" + NatToString(n)) == Some(n)
  {
    var s := NatToString(n);
    var m, p := "-" + s, "+" + s;
    assert SpaceRunEnd(m, 0) == 0 && SpaceRunEnd(p, 0) == 0;
    assert m[1..] == s && p[1..] == s;
    ParseUnsignedOfNumeral(m, 1, n);
    ParseUnsignedOfNumeral(p, 1, n);
  }

  /** `s[lo..hi]` consists of decimal digits. */
  predicate DigitsIn(s: string, lo: nat, hi: nat)
    requires hi <= |s|
  {
    forall j {:trigger IsDigit(s[j])} :: lo <= j < hi ==> IsDigit(s[j])
  }

  /** JavaScript's `Number(s)`, restricted in this model to decimal integers: surrounding white
      space is ignored, an empty or all-white-space string is 0, an optional sign followed by
      digits gives their value, and every other string is NaN (None). The trimmed text is
      `s[a..b]`. */
  function DecimalNumber(s: string): Option<int> {
    var a := SpaceRunEnd(s, 0);
    var b := TrimEndIndex(s, |s|);
    if b <= a then Some(0) else SignedDecimal(s, a, b)
  }

  /** `s[a..b]` read as an optional sign followed by one or more decimal digits, and nothing else. */
  function SignedDecimal(s: string, a: nat, b: nat): Option<int>
    requires a < b <= |s|
  {
    var u := if s[a] == '-' || s[a] == '+' then a + 1 else a;
    if u < b && DigitsIn(s, u, b) then
      assert forall j :: u <= j < b ==> IsHexDigit(s[j]) by {
        forall j | u <= j < b ensures IsHexDigit(s[j]) {
          assert IsDigit(s[j]);
        }
      }
      var v := DigitsValue(s, u, b, false);
      Some(if s[a] == '-' then -(v as int) else v)
    else None
  }

  /** A string of white space only is the number 0. */
  lemma {:induction false} DecimalNumberOfSpace(s: string)
    requires AllSpace(s)
    ensures DecimalNumber(s) == Some(0)
  {
    assert TrimEndIndex(s, |s|) == 0;
  }

  /** Only strings of signs, digits and white space are numbers in this model. */
  lemma {:induction false} DecimalNumberOfNonNumeral(s: string, i: int)
    requires 0 <= i < |s| && !IsDigit(s[i]) && !IsSpace(s[i]) && s[i] != '-' && s[i] != '+'
    ensures DecimalNumber(s) == None
  {
    var a := SpaceRunEnd(s, 0);
    var b := TrimEndIndex(s, |s|);
    assert a <= i < b;
    assert !DigitsIn(s, if s[a] == '-' || s[a] == '+' then a + 1 else a, b) by {
      assert !IsDigit(s[i]);
    }
  }

  /** `Number` reads a numeral as the number it was written from. */
  lemma {:induction false} DecimalNumberOfNatToString(n: nat)
    ensures DecimalNumber(NatToString(n)) == Some(n)
  {
    var s := NatToString(n);
    DecimalValueOfNatToString(n);
    assert IsDigit(s[0]) && IsDigit(s[|s| - 1]);
    assert SpaceRunEnd(s, 0) == 0;
    assert TrimEndIndex(s, |s|) == |s|;
    assert DigitsIn(s, 0, |s|);
  }

  /** `Number` reads a numeral after a sign as the signed number. */
  lemma {:induction false} DecimalNumberOfSigned(c: char, n: nat)
    requires c == '-' || c == '+'
    ensures DecimalNumber([c] + NatToString(n)) == Some(if c == '-' then -(n as int) else n)
  {
    var s := NatToString(n);
    var m := [c] + s;
    DecimalValueOfNatToString(n);
    DigitsValueShift(m, 1, s, 0, false, |s|);
    assert IsDigit(m[|m| - 1]);
    assert SpaceRunEnd(m, 0) == 0;
    assert TrimEndIndex(m, |m|) == |m|;
    assert DigitsIn(m, 1, |m|) by {
      forall j | 1 <= j < |m| ensures IsDigit(m[j]) {
        assert m[j] == s[j - 1];
      }
    }
  }

  // ---------------------------------------------------------------------------------------
  // Case and markup
  // ---------------------------------------------------------------------------------------

  function ToLowerChar(c: char): char {
    if 'A' <= c <= 'Z' then (c as int + 32) as char else c
  }

  /** JavaScript's `toLowerCase`, for the ASCII letters. */
  function ToLower(s: string): (r: string)
    ensures |r| == |s| && forall i :: 0 <= i < |s| ==> r[i] == ToLowerChar(s[i])
  {
    seq(|s|, i requires 0 <= i < |s| => ToLowerChar(s[i]))
  }

  /** `s.replace(/<\/?strong>/g, '')`: every `<strong>` and `</strong>` tag, scanning left to
      right, is removed. */
  function StripStrong(s: string): (r: string)
    ensures |r| <= |s|
    decreases |s|
  {
    if |s| >= 8 && s[..8] == "<strong>" then StripStrong(s[8..])
    else if |s| >= 9 && s[..9] == "</strong>" then StripStrong(s[9..])
    else if s == [] then []
    else [s[0]] + StripStrong(s[1..])
  }

  /** Text without a '<' carries no tag, so stripping leaves it as it is. */
  lemma {:induction false} StripStrongNoTag(s: string)
    requires '<' !in s
    ensures StripStrong(s) == s
    decreases |s|
  {
    if s != [] {
      assert s[0] != '<';
      StripStrongNoTag(s[1..]);
    }
  }
  /** An opening tag is removed. */
  lemma StripStrongOpenTag(s: string)
    ensures StripStrong("<strong>" + s) == StripStrong(s)
  {
    assert ("<strong>" + s)[..8] == "<strong>";
    assert ("<strong>" + s)[8..] == s;
  }

  /** A closing tag is removed. */
  lemma StripStrongCloseTag(s: string)
    ensures StripStrong("</strong>" + s) == StripStrong(s)
  {
    assert ("</strong>" + s)[1] == '/';
    assert ("</strong>" + s)[..9] == "</strong>";
    assert ("</strong>" + s)[9..] == s;
  }

  /** A character other than '<' is kept. */
  lemma StripStrongPlainHead(c: char, s: string)
    requires c != '<'
    ensures StripStrong([c] + s) == [c] + StripStrong(s)
  {
    var t := [c] + s;
    assert t[0] == c;
    assert t[1..] == s;
  }

  /** Text before the next '<' is kept as it is. */
  lemma {:induction false} StripStrongKeepsPlain(p: string, s: string)
    requires '<' !in p
    ensures StripStrong(p + s) == p + StripStrong(s)
    decreases |p|
  {
    if p == [] {
      assert p + s == s;
    } else {
      assert StripStrong(p + s) == [p[0]] + StripStrong(p[1..] + s) by {
        assert p[0] in p;
        assert p + s == [p[0]] + (p[1..] + s);
        StripStrongPlainHead(p[0], p[1..] + s);
      }
      assert StripStrong(p[1..] + s) == p[1..] + StripStrong(s) by {
        StripStrongKeepsPlain(p[1..], s);
      }
      assert [p[0]] + (p[1..] + StripStrong(s)) == p + StripStrong(s);
    }
  }

  /** A closing tag after plain text: `q</strong>r` keeps `qr`. */
  lemma StripStrongOfClosed(q: string, r: string)
    requires '<' !in q && '<' !in r
    ensures StripStrong(q + ("</strong>" + r)) == q + r
  {
    StripStrongCloseTag(r);
    StripStrongNoTag(r);
    StripStrongKeepsPlain(q, "</strong>" + r);
  }

  /** Together: a tagged text `p<strong>q</strong>r` keeps exactly `pqr` when no other '<'
      occurs in it. */
  lemma StripStrongOfTagged(p: string, q: string, r: string)
    requires '<' !in p && '<' !in q && '<' !in r
    ensures StripStrong(p + ("<strong>" + (q + ("</strong>" + r)))) == p + (q + r)
  {
    StripStrongOfClosed(q, r);
    StripStrongOpenTag(q + ("</strong>" + r));
    StripStrongKeepsPlain(p, "<strong>" + (q + ("</strong>" + r)));
  }
}
