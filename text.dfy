/**
 * The Python string operations the RamSleuth sources rely on: strip, lower/upper,
 * substring search, split, splitlines, join and decimal/hexadecimal conversion.
 * Characters are classified over ASCII (and the Latin-1 whitespace characters);
 * see README for the Unicode classes that are not modelled.
 */
module Text {
  import opened Outcome

  // ---------------------------------------------------------------- character classes

  /** Python's str.isspace() restricted to ASCII and Latin-1. */
  predicate IsSpace(c: char)
  {
    c == ' ' || c == '\t' || c == '\n' || c == '\r' || c == '\U{000B}' || c == '\U{000C}'
    || ('\U{001C}' <= c <= '\U{001F}') || c == '\U{0085}' || c == '\U{00A0}'
  }

  predicate NotSpace(c: char) { !IsSpace(c) }

  /** The characters at which str.splitlines() breaks. */
  predicate IsLineBreak(c: char)
  {
    c == '\n' || c == '\r' || c == '\U{000B}' || c == '\U{000C}' || c == '\U{001C}'
    || c == '\U{001D}' || c == '\U{001E}' || c == '\U{0085}' || c == '\U{2028}' || c == '\U{2029}'
  }

  predicate NotLineBreak(c: char) { !IsLineBreak(c) }

  predicate IsDigit(c: char) { '0' <= c <= '9' }

  predicate IsHexDigit(c: char) { IsDigit(c) || 'a' <= c <= 'f' || 'A' <= c <= 'F' }

  predicate IsAlpha(c: char) { 'a' <= c <= 'z' || 'A' <= c <= 'Z' }

  /** A regular-expression word character (\w). */
  predicate IsWordChar(c: char) { IsAlpha(c) || IsDigit(c) || c == '_' }

  predicate AllDigits(s: string) { forall i :: 0 <= i < |s| ==> IsDigit(s[i]) }

  /** Python's str.isdigit(): at least one character, all of them digits. */
  predicate IsDigitString(s: string) { |s| > 0 && AllDigits(s) }

  // ---------------------------------------------------------------- case

  function LowerChar(c: char): char
  {
    if 'A' <= c <= 'Z' then (c as int + 32) as char else c
  }

  function UpperChar(c: char): char
  {
    if 'a' <= c <= 'z' then (c as int - 32) as char else c
  }

  function Lower(s: string): (r: string)
    ensures |r| == |s|
  {
    seq(|s|, i requires 0 <= i < |s| => LowerChar(s[i]))
  }

  /** Lower works character by character, so it distributes over concatenation. */
  lemma LowerAppend(a: string, b: string)
    ensures Lower(a + b) == Lower(a) + Lower(b)
  {
    assert forall i :: 0 <= i < |a + b| ==> Lower(a + b)[i] == LowerChar((a + b)[i]);
  }

  function Upper(s: string): (r: string)
    ensures |r| == |s|
  {
    seq(|s|, i requires 0 <= i < |s| => UpperChar(s[i]))
  }

  // ---------------------------------------------------------------- runs and stripping

  /** The end of the run of characters satisfying p that starts at i. */
  function RunEnd(s: string, i: nat, p: char -> bool): (j: nat)
    requires i <= |s|
    ensures i <= j <= |s|
    ensures forall k :: i <= k < j ==> p(s[k])
    ensures j == |s| || !p(s[j])
    decreases |s| - i
  {
    if i < |s| && p(s[i]) then RunEnd(s, i + 1, p) else i
  }

  /** The first true entry of a table of tests at or after i. */
  function FirstTrue(t: seq<bool>, i: nat): (r: Option<nat>)
    requires i <= |t|
    ensures r.Some? ==> i <= r.value < |t| && t[r.value]
    ensures r.Some? ==> forall j :: i <= j < r.value ==> !t[j]
    ensures r.None? ==> forall j :: i <= j < |t| ==> !t[j]
    decreases |t| - i
  {
    if i == |t| then None
    else if t[i] then Some(i)
    else FirstTrue(t, i + 1)
  }

  function LStrip(s: string): string
  {
    if s != [] && IsSpace(s[0]) then LStrip(s[1..]) else s
  }

  function RStrip(s: string): string
  {
    if s != [] && IsSpace(s[|s| - 1]) then RStrip(s[..|s| - 1]) else s
  }

  /** Python's str.strip() with no argument. */
  function Strip(s: string): string
  {
    LStrip(RStrip(s))
  }

  /** LStrip removes exactly the leading whitespace. */
  lemma {:induction false} LStripSpec(s: string)
    ensures |LStrip(s)| <= |s| && LStrip(s) == s[|s| - |LStrip(s)|..]
    ensures LStrip(s) == [] || !IsSpace(LStrip(s)[0])
    ensures forall k :: 0 <= k < |s| - |LStrip(s)| ==> IsSpace(s[k])
  {
    if s != [] && IsSpace(s[0]) {
      var t := s[1..];
      LStripSpec(t);
      assert LStrip(s) == LStrip(t);
      assert s[|s| - |LStrip(s)|..] == t[|t| - |LStrip(t)|..];
      assert forall k :: 1 <= k < |s| ==> s[k] == t[k - 1];
    }
  }

  /** RStrip removes exactly the trailing whitespace. */
  lemma {:induction false} RStripSpec(s: string)
    ensures |RStrip(s)| <= |s| && RStrip(s) == s[..|RStrip(s)|]
    ensures RStrip(s) == [] || !IsSpace(RStrip(s)[|RStrip(s)| - 1])
    ensures forall k :: |RStrip(s)| <= k < |s| ==> IsSpace(s[k])
  {
    if s != [] && IsSpace(s[|s| - 1]) {
      var t := s[..|s| - 1];
      RStripSpec(t);
      assert RStrip(s) == RStrip(t);
      assert s[..|RStrip(s)|] == t[..|RStrip(t)|];
    }
  }

  /** Strip leaves no whitespace at either end. */
  lemma StripSpec(s: string)
    ensures Strip(s) == [] || (!IsSpace(Strip(s)[0]) && !IsSpace(Strip(s)[|Strip(s)| - 1]))
  {
    RStripSpec(s);
    LStripSpec(RStrip(s));
  }

  /** A string with no whitespace at either end is its own strip. */
  lemma StripTrimmed(s: string)
    requires s == [] || (!IsSpace(s[0]) && !IsSpace(s[|s| - 1]))
    ensures Strip(s) == s
  {
  }

  /** A string of digits has no whitespace to strip. */
  lemma DigitsTrimmed(s: string)
    ensures IsDigitString(s) ==> Strip(s) == s
  {
    if IsDigitString(s) {
      StripTrimmed(s);
    }
  }

  predicate AllSpace(s: string)
  {
    forall k :: 0 <= k < |s| ==> IsSpace(s[k])
  }

  /** A string of whitespace strips to nothing. */
  lemma AllSpaceStripped()
    ensures forall s :: AllSpace(s) ==> Strip(s) == []
  {
    forall s | AllSpace(s) ensures Strip(s) == [] {
      RStripSpec(s);
    }
  }

  /** strip() is idempotent. */
  lemma StripIdempotent(s: string)
    ensures Strip(Strip(s)) == Strip(s)
  {
    StripSpec(s);
    StripTrimmed(Strip(s));
  }

  /** Python's str.rstrip(c) for a single character c. */
  function RStripChar(s: string, c: char): (r: string)
    ensures |r| <= |s| && r == s[..|r|]
    ensures r == [] || r[|r| - 1] != c
  {
    if s != [] && s[|s| - 1] == c then RStripChar(s[..|s| - 1], c) else s
  }

  // ---------------------------------------------------------------- search

  predicate StartsWith(s: string, prefix: string)
  {
    |prefix| <= |s| && s[..|prefix|] == prefix
  }

  predicate EndsWith(s: string, suffix: string)
  {
    |suffix| <= |s| && s[|s| - |suffix|..] == suffix
  }

  predicate OccursAt(s: string, sub: string, i: int)
  {
    0 <= i && i + |sub| <= |s| && s[i..i + |sub|] == sub
  }

  /** Python's `sub in s`. */
  predicate Contains(s: string, sub: string)
  {
    exists i :: 0 <= i <= |s| - |sub| && OccursAt(s, sub, i)
  }

  /** Every string contains itself. */
  lemma ContainsSelf()
    ensures forall s: string :: Contains(s, s)
  {
    forall s: string ensures Contains(s, s) {
      assert OccursAt(s, s, 0);
    }
  }

  /** A substring whose first character does not occur in s is not in s. */
  lemma NotContainsFirstChar(s: string, sub: string)
    requires sub != [] && sub[0] !in s
    ensures !Contains(s, sub)
  {
    forall i | 0 <= i <= |s| - |sub| ensures !OccursAt(s, sub, i) {
      assert s[i] in s;
      assert s[i..i + |sub|][0] == s[i];
    }
  }

  /** The first occurrence of sub in s at or after i (Python's str.find). */
  function FindFrom(s: string, sub: string, i: nat): (r: Option<nat>)
    requires i <= |s|
    ensures r.Some? ==> i <= r.value && OccursAt(s, sub, r.value)
    ensures r.Some? ==> forall j :: i <= j < r.value ==> !OccursAt(s, sub, j)
    ensures r.None? ==> forall j :: i <= j ==> !OccursAt(s, sub, j)
    decreases |s| - i
  {
    if i + |sub| > |s| then None
    else if s[i..i + |sub|] == sub then Some(i)
    else FindFrom(s, sub, i + 1)
  }

  function Find(s: string, sub: string): (r: Option<nat>)
    ensures r.Some? <==> Contains(s, sub)
    ensures r.Some? ==> OccursAt(s, sub, r.value)
    ensures r.Some? ==> forall j :: 0 <= j < r.value ==> !OccursAt(s, sub, j)
  {
    FindFrom(s, sub, 0)
  }

  /** The characters s[i..j] exist and are all digits. */
  predicate DigitsAt(s: string, i: nat, j: nat)
  {
    i <= j <= |s| && forall k :: i <= k < j ==> IsDigit(s[k])
  }

  /** The slice over a run of digits is all digits, and a digit string when not empty. */
  lemma DigitsSlice(s: string, i: nat, j: nat)
    requires DigitsAt(s, i, j)
    ensures AllDigits(s[i..j]) && (i < j ==> IsDigitString(s[i..j]))
  {
    assert forall k :: 0 <= k < j - i ==> s[i..j][k] == s[i + k];
  }

  /** The first digit at or after i (|s| when there is none). */
  function FirstDigitFrom(s: string, i: nat): (k: nat)
    requires i <= |s|
    ensures i <= k <= |s|
    ensures forall j :: i <= j < k ==> !IsDigit(s[j])
    ensures k < |s| ==> IsDigit(s[k])
    decreases |s| - i
  {
    if i == |s| || IsDigit(s[i]) then i else FirstDigitFrom(s, i + 1)
  }

  /** re.search(r"(\d+)", s).group(1): the leftmost whole run of digits. */
  function FirstDigitRun(s: string): (r: Option<string>)
    ensures r.Some? ==> IsDigitString(r.value)
  {
    var k := FirstDigitFrom(s, 0);
    if k == |s| then None
    else
      var e := RunEnd(s, k, IsDigit);
      assert forall j :: k <= j < e ==> s[k..e][j - k] == s[j];
      Some(s[k..e])
  }

  /** There is a digit run exactly when s has a digit, and it starts at the first digit. */
  lemma FirstDigitRunSpec(s: string)
    ensures FirstDigitRun(s).None? <==> forall j :: 0 <= j < |s| ==> !IsDigit(s[j])
    ensures FirstDigitRun(s).Some? ==>
      exists k :: 0 <= k < |s| && (forall j :: 0 <= j < k ==> !IsDigit(s[j]))
        && FirstDigitRun(s).value == s[k..RunEnd(s, k, IsDigit)]
  {
  }

  // ---------------------------------------------------------------- splitting and joining

  /** Python's s.split(sep, 1) when sep occurs: the text before and after its first occurrence. */
  function SplitOnce(s: string, sep: string): (r: Option<(string, string)>)
    requires sep != []
    ensures r.Some? <==> Contains(s, sep)
    ensures r.Some? ==> s == r.value.0 + sep + r.value.1 && !Contains(r.value.0, sep)
  {
    match Find(s, sep)
    case None => None
    case Some(i) =>
      var before := s[..i];
      assert s == before + sep + s[i + |sep|..];
      assert !Contains(before, sep) by {
        forall j | 0 <= j <= |before| - |sep| ensures !OccursAt(before, sep, j) {
          assert !OccursAt(s, sep, j);
          assert before[j..j + |sep|] == s[j..j + |sep|];
        }
      }
      Some((before, s[i + |sep|..]))
  }

  /** Python's s.split(c) for a one-character separator. */
  function SplitOn(s: string, c: char): (r: seq<string>)
    ensures |r| >= 1
    ensures forall k :: 0 <= k < |r| ==> c !in r[k]
    decreases |s|
  {
    match SplitOnce(s, [c])
    case None =>
      forall i | 0 <= i < |s| ensures s[i] != c {
        assert !OccursAt(s, [c], i);
        assert s[i..i + 1] == [s[i]];
      }
      [s]
    case Some((before, after)) =>
      forall i | 0 <= i < |before| ensures before[i] != c {
        assert !OccursAt(before, [c], i);
        assert before[i..i + 1] == [before[i]];
      }
      [before] + SplitOn(after, c)
  }

  /** Python's s.split() with no argument: the maximal runs of non-whitespace. */
  function SplitWs(s: string): (r: seq<string>)
    ensures LStrip(s) != [] ==> |r| > 0
    decreases |s|
  {
    LStripSpec(s);
    var t := LStrip(s);
    if t == [] then []
    else
      var n := RunEnd(t, 0, NotSpace);
      [t[..n]] + SplitWs(t[n..])
  }

  /** Python's str.splitlines(): "\r\n" is one break and there is no empty last line. */
  function SplitLines(s: string): (r: seq<string>)
    decreases |s|
  {
    if s == [] then []
    else
      var e := RunEnd(s, 0, NotLineBreak);
      if e == |s| then [s]
      else
        var next := if s[e] == '\r' && e + 1 < |s| && s[e + 1] == '\n' then e + 2 else e + 1;
        [s[..e]] + SplitLines(s[next..])
  }

  /** A single word with no whitespace in it splits to itself. */
  lemma SplitWsWord(s: string)
    requires s != [] && forall k :: 0 <= k < |s| ==> !IsSpace(s[k])
    ensures SplitWs(s) == [s]
  {
    assert LStrip(s) == s;
    assert RunEnd(s, 0, NotSpace) == |s|;
    assert s[..|s|] == s;
    assert SplitWs(s[|s|..]) == [];
  }

  /** Python's sep.join(parts). */
  function Join(parts: seq<string>, sep: string): string
  {
    if parts == [] then ""
    else if |parts| == 1 then parts[0]
    else parts[0] + sep + Join(parts[1..], sep)
  }

  /** Splitting a join on its one-character separator gives the parts back when none holds it. */
  lemma {:induction false} SplitOnJoin(parts: seq<string>, c: char)
    requires |parts| >= 1 && forall k :: 0 <= k < |parts| ==> c !in parts[k]
    ensures SplitOn(Join(parts, [c]), c) == parts
  {
    var p := parts[0];
    NotContainsFirstChar(p, [c]);
    if |parts| > 1 {
      var rest := Join(parts[1..], [c]);
      var s := Join(parts, [c]);
      assert s == p + [c] + rest;
      assert s[|p|..|p| + 1] == [c];
      forall j | 0 <= j < |p| ensures !OccursAt(s, [c], j) {
        assert s[j..j + 1] == [p[j]];
      }
      assert OccursAt(s, [c], |p|);
      assert Contains(s, [c]);
      var v := Find(s, [c]).value;
      assert v == |p|;
      assert s[..|p|] == p && s[|p| + 1..] == rest;
      SplitOnJoin(parts[1..], c);
    }
  }

  /** Python's s.replace(a, b) for one-character a and b. */
  function ReplaceChar(s: string, a: char, b: char): (r: string)
    ensures |r| == |s|
  {
    seq(|s|, i requires 0 <= i < |s| => if s[i] == a then b else s[i])
  }

  /** Python's s.replace(c, "") for a one-character c. */
  function RemoveChar(s: string, c: char): (r: string)
    ensures c !in r
  {
    if s == [] then [] else (if s[0] == c then [] else [s[0]]) + RemoveChar(s[1..], c)
  }

  /** Removing a character that does not occur changes nothing. */
  lemma {:induction false} RemoveCharAbsent(s: string, c: char)
    requires c !in s
    ensures RemoveChar(s, c) == s
  {
    if s != [] {
      RemoveCharAbsent(s[1..], c);
      assert s == [s[0]] + s[1..];
    }
  }

  // ---------------------------------------------------------------- numbers

  function DigitValue(c: char): nat
    requires IsDigit(c)
  {
    c as int - '0' as int
  }

  function DigitChar(d: nat): (c: char)
    requires d < 10
    ensures IsDigit(c) && DigitValue(c) == d
  {
    ('0' as int + d) as char
  }

  /** Python's int(s) for a string of decimal digits. */
  function DecimalValue(s: string): nat
    requires AllDigits(s)
  {
    if s == [] then 0 else DecimalValue(s[..|s| - 1]) * 10 + DigitValue(s[|s| - 1])
  }

  /** Python's str(n) for a natural number; it reads back as n. */
  function NatToString(n: nat): (r: string)
    ensures IsDigitString(r) && DecimalValue(r) == n
    ensures |r| > 1 ==> r[0] != '0'
  {
    if n < 10 then [DigitChar(n)]
    else
      var prefix := NatToString(n / 10);
      var r := prefix + [DigitChar(n % 10)];
      assert r[..|r| - 1] == prefix;
      r
  }

  function IntToString(i: int): string
  {
    if i < 0 then "-" + NatToString(-i) else NatToString(i)
  }

  function HexDigitValue(c: char): nat
    requires IsHexDigit(c)
  {
    if IsDigit(c) then DigitValue(c)
    else if 'a' <= c <= 'f' then c as int - 'a' as int + 10
    else c as int - 'A' as int + 10
  }

  /** Python's int(s, 16) for a string of hexadecimal digits. */
  function HexValue(s: string): nat
    requires forall k :: 0 <= k < |s| ==> IsHexDigit(s[k])
  {
    if s == [] then 0 else HexValue(s[..|s| - 1]) * 16 + HexDigitValue(s[|s| - 1])
  }

  function Pow10(k: nat): (p: nat)
    ensures p >= 1
  {
    if k == 0 then 1 else 10 * Pow10(k - 1)
  }

  /**
   * The text of the regular expression \d+(?:\.\d+)? matched at the start of s:
   * a digit run, then a dot and a second digit run when both are present.
   */
  function LeadingNumber(s: string): (r: Option<string>)
    ensures r.Some? ==> r.value != [] && StartsWith(s, r.value) && IsDigit(r.value[0])
  {
    var e := RunEnd(s, 0, IsDigit);
    if e == 0 then None
    else if e + 1 < |s| && s[e] == '.' && IsDigit(s[e + 1]) then Some(s[..RunEnd(s, e + 1, IsDigit)])
    else Some(s[..e])
  }

  /** The value of a decimal numeral digits[.digits], as Python's float() reads it. */
  function NumeralValue(s: string): real
  {
    var e := RunEnd(s, 0, IsDigit);
    var whole := DecimalValue(s[..e]);
    if e < |s| && s[e] == '.' then
      var f := RunEnd(s, e + 1, IsDigit);
      whole as real + DecimalValue(s[e + 1..f]) as real / Pow10(f - e - 1) as real
    else whole as real
  }

  /** A numeral without a fraction has its integer value. */
  lemma NumeralOfDigits(s: string)
    ensures IsDigitString(s) ==> NumeralValue(s) == DecimalValue(s) as real
  {
    if IsDigitString(s) {
      assert RunEnd(s, 0, IsDigit) == |s|;
      assert s[..|s|] == s;
    }
  }

  /** The whole of s matches \d+(?:\.\d+)?. */
  predicate IsNumeral(s: string)
  {
    LeadingNumber(s) == Some(s)
  }

  // ---------------------------------------------------------------- ordering

  /** Python's a < b on str: lexicographic by code point, a proper prefix first. */
  predicate StrLess(a: string, b: string)
    decreases |a|
  {
    if a == [] then b != []
    else if b == [] then false
    else if a[0] != b[0] then a[0] < b[0]
    else StrLess(a[1..], b[1..])
  }

  lemma {:induction false} StrLessIrreflexive(a: string)
    ensures !StrLess(a, a)
  {
    if a != [] {
      StrLessIrreflexive(a[1..]);
    }
  }

  lemma {:induction false} StrLessTransitive(a: string, b: string, c: string)
    requires StrLess(a, b) && StrLess(b, c)
    ensures StrLess(a, c)
    decreases |a|
  {
    if a != [] && b != [] && c != [] && a[0] == b[0] && b[0] == c[0] {
      StrLessTransitive(a[1..], b[1..], c[1..]);
    }
  }

  /** Any two different strings are ordered one way or the other. */
  lemma {:induction false} StrLessTotal(a: string, b: string)
    requires a != b
    ensures StrLess(a, b) || StrLess(b, a)
    decreases |a|
  {
    if a != [] && b != [] && a[0] == b[0] {
      assert a == [a[0]] + a[1..] && b == [b[0]] + b[1..];
      StrLessTotal(a[1..], b[1..]);
    }
  }

  lemma StrLessAsymmetric(a: string, b: string)
    requires StrLess(a, b)
    ensures !StrLess(b, a)
  {
    if StrLess(b, a) {
      StrLessTransitive(a, b, a);
      StrLessIrreflexive(a);
    }
  }
}
