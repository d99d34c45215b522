/**
 * The two regular expressions of the SPD profile scan (extract_profiles_from_spd in
 * ramsleuth_pkg/parser.py), written out as scanners over the line, and the JEDEC
 * fallback table of infer_timings.
 */
module Timings {
  import opened Outcome
  import opened Text

  // ---------------------------------------------------------------- the timing pattern
  //
  // \b(\d{1,3})[ -]+(\d{1,3})[ -]+(\d{1,3})(?:[ -]+(\d{1,3}))?\b
  //
  // Every group is followed by a separator, a word boundary or the end of the line and
  // never by a digit, and every separator run by a digit, so backtracking never helps:
  // each group is a whole run of digits and each separator a whole run of [ -].

  /** The separator class [ -]. */
  predicate IsSep(c: char) { c == ' ' || c == '-' }

  /** \b in front of position i, where a digit stands. */
  predicate BoundaryBefore(s: string, i: nat)
    requires i <= |s|
  {
    i == 0 || !IsWordChar(s[i - 1])
  }

  /** \b after position j, behind a digit. */
  predicate BoundaryAfter(s: string, j: nat)
    requires j <= |s|
  {
    j == |s| || !IsWordChar(s[j])
  }

  /** The end of a group (\d{1,3}) starting at i: a whole run of one to three digits. */
  function GroupEnd(s: string, i: nat): (r: Option<nat>)
    requires i <= |s|
    ensures r.Some? ==> i < r.value <= i + 3 && r.value <= |s| && DigitsAt(s, i, r.value)
    ensures r.Some? ==> r.value == |s| || !IsDigit(s[r.value])
  {
    var e := RunEnd(s, i, IsDigit);
    if i < e <= i + 3 then Some(e) else None
  }

  /** The end of a separator run [ -]+ starting at i. */
  function SepEnd(s: string, i: nat): (r: Option<nat>)
    requires i <= |s|
    ensures r.Some? ==> i < r.value <= |s| && forall k :: i <= k < r.value ==> IsSep(s[k])
  {
    var e := RunEnd(s, i, IsSep);
    if e > i then Some(e) else None
  }

  /** One match of the timing pattern: its span and its three or four groups. */
  datatype TimingMatch = TimingMatch(start: nat, end: nat, groups: seq<string>)

  /** A four-group match (m.group(4) is set). */
  predicate IsFour(m: TimingMatch) { |m.groups| == 4 }

  /**
   * What every match is: three or four groups of one to three digits, the first at the
   * start of the span and the last at its end, the span a whole word of the line.
   */
  predicate WellFormed(s: string, m: TimingMatch)
  {
    && m.start < m.end <= |s|
    && 3 <= |m.groups| <= 4
    && (forall k :: 0 <= k < |m.groups| ==> IsDigitString(m.groups[k]) && |m.groups[k]| <= 3)
    && BoundaryBefore(s, m.start) && BoundaryAfter(s, m.end)
    && StartsWith(s[m.start..], m.groups[0])
    && EndsWith(s[..m.end], m.groups[|m.groups| - 1])
  }

  /** A group and the separator run behind it, starting at i: the ends of both. */
  function GroupThenSep(s: string, i: nat): (r: Option<(nat, nat)>)
    requires i <= |s|
    ensures r.Some? ==> i < r.value.0 < r.value.1 <= |s| && r.value.0 <= i + 3 && DigitsAt(s, i, r.value.0)
  {
    match GroupEnd(s, i)
    case None => None
    case Some(d) =>
      match SepEnd(s, d)
      case None => None
      case Some(p) => Some((d, p))
  }

  /** A run of digits cut out of the line: a digit string, a prefix of the line from i, a suffix up to j. */
  lemma DigitGroup(s: string, i: nat, j: nat)
    requires i < j && DigitsAt(s, i, j)
    ensures IsDigitString(s[i..j]) && StartsWith(s[i..], s[i..j]) && EndsWith(s[..j], s[i..j])
  {
    assert s[i..][..j - i] == s[i..j];
    assert s[..j][j - (j - i)..] == s[i..j];
  }

  /** The three digit groups between the given positions. */
  function Cut3(s: string, i: nat, d1: nat, p1: nat, d2: nat, p2: nat, d3: nat): (g: seq<string>)
    requires i < d1 <= i + 3 && d1 < p1 < d2 <= p1 + 3 && d2 < p2 < d3 <= p2 + 3 && d3 <= |s|
    requires DigitsAt(s, i, d1) && DigitsAt(s, p1, d2) && DigitsAt(s, p2, d3)
    ensures |g| == 3 && forall k :: 0 <= k < 3 ==> IsDigitString(g[k]) && |g[k]| <= 3
    ensures StartsWith(s[i..], g[0]) && EndsWith(s[..d3], g[2])
  {
    DigitGroup(s, i, d1);
    DigitGroup(s, p1, d2);
    DigitGroup(s, p2, d3);
    [s[i..d1], s[p1..d2], s[p2..d3]]
  }

  /** \b(\d{1,3})[ -]+(\d{1,3})[ -]+(\d{1,3}) at i: the three groups and where the third ends. */
  function ThreeGroups(s: string, i: nat): (r: Option<(seq<string>, nat)>)
    requires i <= |s|
    ensures r.Some? ==> i < r.value.1 <= |s| && |r.value.0| == 3
    ensures r.Some? ==> forall k :: 0 <= k < 3 ==> IsDigitString(r.value.0[k]) && |r.value.0[k]| <= 3
    ensures r.Some? ==> StartsWith(s[i..], r.value.0[0]) && EndsWith(s[..r.value.1], r.value.0[2])
  {
    if !(i < |s| && BoundaryBefore(s, i)) then None
    else
      match GroupThenSep(s, i)
      case None => None
      case Some((d1, p1)) =>
        match GroupThenSep(s, p1)
        case None => None
        case Some((d2, p2)) =>
          match GroupEnd(s, p2)
          case None => None
          case Some(d3) =>
            Some((Cut3(s, i, d1, p1, d2, p2, d3), d3))
  }

  /** The optional (?:[ -]+(\d{1,3}))? behind the third group, when \b follows it: its span. */
  function FourthGroup(s: string, d3: nat): (r: Option<(nat, nat)>)
    requires d3 <= |s|
    ensures r.Some? ==> d3 < r.value.0 < r.value.1 <= |s| && r.value.1 <= r.value.0 + 3
    ensures r.Some? ==> DigitsAt(s, r.value.0, r.value.1) && BoundaryAfter(s, r.value.1)
  {
    match SepEnd(s, d3)
    case None => None
    case Some(p3) =>
      match GroupEnd(s, p3)
      case None => None
      case Some(d4) => if BoundaryAfter(s, d4) then Some((p3, d4)) else None
  }

  /**
   * What follows the third group, which ends at d3: the fourth group when it can be taken,
   * else \b right behind the third.  The end of the match and the extra groups.
   */
  function Tail(s: string, d3: nat): (r: Option<(nat, seq<string>)>)
    requires d3 <= |s|
    ensures r.Some? ==> d3 <= r.value.0 <= |s| && BoundaryAfter(s, r.value.0) && |r.value.1| <= 1
    ensures r.Some? && r.value.1 == [] ==> r.value.0 == d3
    ensures r.Some? && r.value.1 != [] ==>
      IsDigitString(r.value.1[0]) && |r.value.1[0]| <= 3 && EndsWith(s[..r.value.0], r.value.1[0])
  {
    match FourthGroup(s, d3)
    case Some((p3, d4)) =>
      assert s[..d4][d4 - (d4 - p3)..] == s[p3..d4];
      Some((d4, [s[p3..d4]]))
    case None =>
      if BoundaryAfter(s, d3) then Some((d3, [])) else None
  }

  /** The match of the timing pattern that starts at i, if there is one. */
  function MatchAt(s: string, i: nat): (r: Option<TimingMatch>)
    requires i <= |s|
    ensures r.Some? ==> r.value.start == i && WellFormed(s, r.value)
  {
    match ThreeGroups(s, i)
    case None => None
    case Some((three, d3)) =>
      match Tail(s, d3)
      case None => None
      case Some((e, more)) => Some(TimingMatch(i, e, three + more))
  }

  /** The match of the pattern at every position of the line, as a table. */
  function Found(s: string): (f: seq<Option<TimingMatch>>)
    ensures |f| == |s| && Consistent(f)
    ensures forall i :: 0 <= i < |s| ==> f[i] == MatchAt(s, i)
  {
    seq(|s|, i requires 0 <= i < |s| => MatchAt(s, i))
  }

  /** Each entry of the table is a match that starts at its own position and ends within the line. */
  predicate Consistent(f: seq<Option<TimingMatch>>)
  {
    forall i :: 0 <= i < |f| && f[i].Some? ==> f[i].value.start == i < f[i].value.end <= |f|
  }

  /** The search of re.finditer over the table from pos: each resumes where the previous match ended. */
  function Scan(f: seq<Option<TimingMatch>>, pos: nat): (ms: seq<TimingMatch>)
    requires Consistent(f) && pos <= |f|
    ensures forall k :: 0 <= k < |ms| ==> pos <= ms[k].start < ms[k].end <= |f|
    decreases |f| - pos
  {
    if pos == |f| then []
    else
      match f[pos]
      case Some(m) => [m] + Scan(f, m.end)
      case None => Scan(f, pos + 1)
  }

  /** re.finditer from pos. */
  function Matches(s: string, pos: nat): seq<TimingMatch>
    requires pos <= |s|
  {
    Scan(Found(s), pos)
  }

  lemma {:induction false} ScanSound(f: seq<Option<TimingMatch>>, pos: nat, m: TimingMatch)
    requires Consistent(f) && pos <= |f| && m in Scan(f, pos)
    ensures f[m.start] == Some(m)
    decreases |f| - pos
  {
    if f[pos].None? {
      ScanSound(f, pos + 1, m);
    } else if m != f[pos].value {
      ScanSound(f, f[pos].value.end, m);
    }
  }

  /** Every reported match is a match of the pattern at its start. */
  lemma MatchesSound(s: string, pos: nat, m: TimingMatch)
    requires pos <= |s| && m in Matches(s, pos)
    ensures MatchAt(s, m.start) == Some(m) && WellFormed(s, m)
  {
    ScanSound(Found(s), pos, m);
  }

  /** Each match starts at or after the end of every earlier one. */
  predicate Ordered(ms: seq<TimingMatch>)
  {
    forall k, l :: 0 <= k < l < |ms| ==> ms[k].end <= ms[l].start
  }

  lemma {:induction false} ScanOrdered(f: seq<Option<TimingMatch>>, pos: nat)
    requires Consistent(f) && pos <= |f|
    ensures Ordered(Scan(f, pos))
    decreases |f| - pos
  {
    if pos < |f| {
      match f[pos]
      case None =>
        ScanOrdered(f, pos + 1);
        assert Scan(f, pos) == Scan(f, pos + 1);
      case Some(m) =>
        ScanOrdered(f, m.end);
        var rest := Scan(f, m.end);
        assert Scan(f, pos) == [m] + rest;
        assert forall l :: 0 <= l < |rest| ==> m.end <= rest[l].start;
        assert forall k, l :: 1 <= k < l < |rest| + 1 ==> ([m] + rest)[k] == rest[k - 1] && ([m] + rest)[l] == rest[l - 1];
    }
  }

  /** The matches come in order and do not overlap: each starts at or after the end of the previous one. */
  lemma MatchesOrdered(s: string, pos: nat)
    requires pos <= |s|
    ensures Ordered(Matches(s, pos))
  {
    ScanOrdered(Found(s), pos);
    assert Matches(s, pos) == Scan(Found(s), pos);
  }

  /** Position j lies inside one of the matches. */
  predicate Covered(ms: seq<TimingMatch>, j: nat)
  {
    exists k :: 0 <= k < |ms| && ms[k].start <= j < ms[k].end
  }

  lemma {:induction false} ScanComplete(f: seq<Option<TimingMatch>>, pos: nat, j: nat)
    requires Consistent(f) && pos <= j < |f| && f[j].Some?
    ensures Covered(Scan(f, pos), j)
    decreases |f| - pos
  {
    match f[pos]
    case None =>
      ScanComplete(f, pos + 1, j);
    case Some(m) =>
      var ms := Scan(f, pos);
      assert ms[0] == m;
      if m.end <= j {
        var rest := Scan(f, m.end);
        ScanComplete(f, m.end, j);
        var k :| 0 <= k < |rest| && rest[k].start <= j < rest[k].end;
        assert ms[k + 1] == rest[k];
      }
  }

  /** No match is missed: every position where the pattern matches lies inside a reported match. */
  lemma MatchesComplete(s: string, pos: nat, j: nat)
    requires pos <= j < |s| && MatchAt(s, j).Some?
    ensures Covered(Matches(s, pos), j)
  {
    ScanComplete(Found(s), pos, j);
  }

  // ---------------------------------------------------------------- choosing among the matches

  /** The match is not followed by '.', so it is not the whole-number part of a voltage. */
  predicate Eligible(s: string, m: TimingMatch)
  {
    !(m.end < |s| && s[m.end] == '.')
  }

  /** The first eligible four-group match. */
  function FirstFour(s: string, ms: seq<TimingMatch>): Option<TimingMatch>
  {
    if ms == [] then None
    else
      var m := ms[|ms| - 1];
      var f := FirstFour(s, ms[..|ms| - 1]);
      if f.Some? then f
      else if Eligible(s, m) && IsFour(m) then Some(m)
      else None
  }

  /** The last eligible match. */
  function LastEligible(s: string, ms: seq<TimingMatch>): Option<TimingMatch>
  {
    if ms == [] then None
    else if Eligible(s, ms[|ms| - 1]) then Some(ms[|ms| - 1])
    else LastEligible(s, ms[..|ms| - 1])
  }

  /** The choice of the selection loop: the first eligible four-group match, else the last eligible one. */
  function Chosen(s: string, ms: seq<TimingMatch>): Option<TimingMatch>
  {
    if FirstFour(s, ms).Some? then FirstFour(s, ms) else LastEligible(s, ms)
  }

  /** The timings a line yields: the chosen match's groups joined with '-'. */
  function TimingsOf(line: string): Option<string>
  {
    match Chosen(line, Matches(line, 0))
    case None => None
    case Some(m) => Some(Join(m.groups, "-"))
  }

  lemma {:induction false} FirstFourSpec(s: string, ms: seq<TimingMatch>)
    ensures FirstFour(s, ms).None? <==> forall k :: 0 <= k < |ms| ==> !(Eligible(s, ms[k]) && IsFour(ms[k]))
    ensures FirstFour(s, ms).Some? ==>
      exists k :: 0 <= k < |ms| && FirstFour(s, ms) == Some(ms[k]) && Eligible(s, ms[k]) && IsFour(ms[k])
        && forall j :: 0 <= j < k ==> !(Eligible(s, ms[j]) && IsFour(ms[j]))
  {
    if ms != [] {
      var n := |ms| - 1;
      FirstFourSpec(s, ms[..n]);
      if FirstFour(s, ms[..n]).Some? {
        var k :| 0 <= k < n && FirstFour(s, ms[..n]) == Some(ms[..n][k])
          && Eligible(s, ms[k]) && IsFour(ms[k])
          && forall j :: 0 <= j < k ==> !(Eligible(s, ms[..n][j]) && IsFour(ms[..n][j]));
        assert FirstFour(s, ms) == Some(ms[k]);
      } else {
        assert forall j :: 0 <= j < n ==> ms[..n][j] == ms[j];
      }
    }
  }

  lemma {:induction false} LastEligibleSpec(s: string, ms: seq<TimingMatch>)
    ensures LastEligible(s, ms).None? <==> forall k :: 0 <= k < |ms| ==> !Eligible(s, ms[k])
    ensures LastEligible(s, ms).Some? ==>
      exists k :: 0 <= k < |ms| && LastEligible(s, ms) == Some(ms[k]) && Eligible(s, ms[k])
        && forall j :: k < j < |ms| ==> !Eligible(s, ms[j])
  {
    if ms != [] {
      var n := |ms| - 1;
      LastEligibleSpec(s, ms[..n]);
      if !Eligible(s, ms[n]) {
        assert forall j :: 0 <= j < n ==> ms[..n][j] == ms[j];
        if LastEligible(s, ms[..n]).Some? {
          var k :| 0 <= k < n && LastEligible(s, ms[..n]) == Some(ms[..n][k])
            && Eligible(s, ms[k]) && forall j :: k < j < n ==> !Eligible(s, ms[..n][j]);
          assert LastEligible(s, ms) == Some(ms[k]);
        }
      }
    }
  }

  /**
   * What the selection loop picks: nothing exactly when no match is eligible; a four-group
   * match when any eligible one exists, and then the first; otherwise the last eligible match.
   */
  lemma ChosenSpec(s: string, ms: seq<TimingMatch>)
    ensures Chosen(s, ms).None? <==> forall k :: 0 <= k < |ms| ==> !Eligible(s, ms[k])
    ensures (exists k :: 0 <= k < |ms| && Eligible(s, ms[k]) && IsFour(ms[k])) ==>
      exists k :: 0 <= k < |ms| && Chosen(s, ms) == Some(ms[k]) && IsFour(ms[k])
        && forall j :: 0 <= j < k ==> !(Eligible(s, ms[j]) && IsFour(ms[j]))
    ensures (forall k :: 0 <= k < |ms| ==> !(Eligible(s, ms[k]) && IsFour(ms[k]))) && Chosen(s, ms).Some? ==>
      exists k :: 0 <= k < |ms| && Chosen(s, ms) == Some(ms[k]) && Eligible(s, ms[k])
        && forall j :: k < j < |ms| ==> !Eligible(s, ms[j])
  {
    FirstFourSpec(s, ms);
    LastEligibleSpec(s, ms);
  }

  lemma {:induction false} FirstFourKept(s: string, p: seq<TimingMatch>, q: seq<TimingMatch>)
    requires FirstFour(s, p).Some?
    ensures FirstFour(s, p + q) == FirstFour(s, p)
  {
    if q != [] {
      assert (p + q)[..|p + q| - 1] == p + q[..|q| - 1];
      FirstFourKept(s, p, q[..|q| - 1]);
    } else {
      assert p + q == p;
    }
  }

  /**
   * The selection loop of extract_profiles_from_spd: skip matches followed by '.', keep the
   * latest, stop at the first four-group match; the groups are joined with '-'.
   */
  method SelectTimings(line: string) returns (timings: Option<string>)
    ensures timings == TimingsOf(line)
  {
    var ms := Matches(line, 0);
    var selected: Option<TimingMatch> := None;
    var k := 0;
    while k < |ms|
      invariant 0 <= k <= |ms|
      invariant FirstFour(line, ms[..k]).None?
      invariant selected == LastEligible(line, ms[..k])
    {
      var m := ms[k];
      assert ms[..k + 1][..k] == ms[..k];
      if !Eligible(line, m) {
        k := k + 1;
        continue;
      }
      selected := Some(m);
      if IsFour(m) {
        FirstFourKept(line, ms[..k + 1], ms[k + 1..]);
        assert ms[..k + 1] + ms[k + 1..] == ms;
        break;
      }
      k := k + 1;
    }
    if k == |ms| {
      assert ms[..k] == ms;
    }
    match selected
    case None =>
      timings := None;
    case Some(m) =>
      timings := Some(Join(m.groups, "-"));
  }

  /** The timings text is digits and dashes, and splitting it on '-' gives back the groups. */
  lemma TimingsRoundTrip(line: string)
    requires TimingsOf(line).Some?
    ensures exists m ::
      && m in Matches(line, 0) && WellFormed(line, m) && TimingsOf(line) == Some(Join(m.groups, "-"))
      && SplitOn(TimingsOf(line).value, '-') == m.groups
  {
    var ms := Matches(line, 0);
    ChosenSpec(line, ms);
    FirstFourSpec(line, ms);
    LastEligibleSpec(line, ms);
    var m := Chosen(line, ms).value;
    var k :| 0 <= k < |ms| && m == ms[k];
    MatchesSound(line, 0, m);
    forall i | 0 <= i < |m.groups| ensures '-' !in m.groups[i] {
      assert IsDigitString(m.groups[i]);
    }
    SplitOnJoin(m.groups, '-');
  }

  // ---------------------------------------------------------------- an example line

  /** The timings line of the multi-line XMP case in verify_max_xmp.py, once stripped. */
  const SpacedTimings := "18 22 22 42"

  lemma SpacedFirst()
    ensures GroupThenSep(SpacedTimings, 0) == Some((2, 3))
  {
    var s := SpacedTimings;
    assert RunEnd(s, 2, IsSep) == 3;
    assert RunEnd(s, 0, IsDigit) == 2;
  }

  lemma SpacedSecond()
    ensures GroupThenSep(SpacedTimings, 3) == Some((5, 6))
  {
    var s := SpacedTimings;
    assert RunEnd(s, 5, IsSep) == 6;
    assert RunEnd(s, 3, IsDigit) == 5;
  }

  lemma SpacedThird()
    ensures GroupEnd(SpacedTimings, 6) == Some(8)
  {
    assert RunEnd(SpacedTimings, 6, IsDigit) == 8;
  }

  lemma SpacedHead()
    ensures ThreeGroups(SpacedTimings, 0) == Some((["18", "22", "22"], 8))
  {
    var s := SpacedTimings;
    SpacedFirst();
    SpacedSecond();
    SpacedThird();
    assert s[0..2] == "18" && s[3..5] == "22" && s[6..8] == "22";
  }

  lemma SpacedTail()
    ensures Tail(SpacedTimings, 8) == Some((11, ["42"]))
  {
    var s := SpacedTimings;
    assert RunEnd(s, 9, IsDigit) == 11;
    assert RunEnd(s, 8, IsSep) == 9;
    assert GroupEnd(s, 9) == Some(11);
    assert FourthGroup(s, 8) == Some((9, 11));
    assert s[9..11] == "42";
  }

  lemma SpacedMatches()
    ensures Matches(SpacedTimings, 0) == [TimingMatch(0, 11, ["18", "22", "22", "42"])]
  {
    SpacedHead();
    SpacedTail();
    assert ["18", "22", "22"] + ["42"] == ["18", "22", "22", "42"];
  }

  lemma JoinSpaced()
    ensures Join(["18", "22", "22", "42"], "-") == "18-22-22-42"
  {
    var a := ["18", "22", "22", "42"];
    assert a[3..] == ["42"];
    assert a[2..][1..] == a[3..];
    assert Join(a[2..], "-") == "22" + "-" + "42";
    assert "22" + "-" + "42" == "22-42";
    assert a[1..][1..] == a[2..];
    assert Join(a[1..], "-") == "22" + "-" + "22-42";
    assert "22" + "-" + "22-42" == "22-22-42";
    assert "18" + "-" + "22-22-42" == "18-22-22-42";
  }

  /** Space-separated timings are found and normalised to dashes. */
  lemma SpacedTimingsExample()
    ensures TimingsOf(SpacedTimings) == Some("18-22-22-42")
  {
    var m := TimingMatch(0, 11, ["18", "22", "22", "42"]);
    SpacedMatches();
    assert FirstFour(SpacedTimings, [m]) == Some(m);
    JoinSpaced();
  }

  // ---------------------------------------------------------------- the speed pattern

  /** The literal "MT/s" at position w. */
  predicate UnitAt(s: string, w: nat)
  {
    w + 4 <= |s| && s[w] == 'M' && s[w + 1] == 'T' && s[w + 2] == '/' && s[w + 3] == 's'
  }

  /** (\d+)\s*MT/s tried at i: a digit run, optional whitespace, then "MT/s"; the end of the digits. */
  function SpeedAt(s: string, i: nat): (r: Option<nat>)
    requires i <= |s|
    ensures r.Some? ==> i < r.value <= |s| && DigitsAt(s, i, r.value)
  {
    var e := RunEnd(s, i, IsDigit);
    var w := RunEnd(s, e, IsSpace);
    if e > i && UnitAt(s, w) then Some(e) else None
  }

  /** Where the speed pattern matches, position by position. */
  function SpeedTable(s: string): (t: seq<bool>)
    ensures |t| == |s|
    ensures forall j :: 0 <= j < |s| ==> t[j] == SpeedAt(s, j).Some?
  {
    seq(|s|, j requires 0 <= j < |s| => SpeedAt(s, j).Some?)
  }

  /** re.search: the first position at or after i where the speed pattern matches. */
  function FindSpeed(s: string, i: nat): (r: Option<nat>)
    requires i <= |s|
    ensures r.Some? ==> i <= r.value < |s| && SpeedAt(s, r.value).Some?
    ensures r.Some? ==> forall j :: i <= j < r.value ==> SpeedAt(s, j).None?
    ensures r.None? ==> forall j :: i <= j < |s| ==> SpeedAt(s, j).None?
  {
    FirstTrue(SpeedTable(s), i)
  }

  /** The speed group of the first match: the digits in front of "MT/s". */
  function SpeedOf(line: string): (r: Option<string>)
    ensures r.Some? ==> IsDigitString(r.value)
  {
    match FindSpeed(line, 0)
    case None => None
    case Some(i) => Some(line[i..SpeedAt(line, i).value])
  }

  /** The speed found is a whole number: the character in front of it is not a digit. */
  lemma SpeedIsWholeNumber(line: string)
    requires FindSpeed(line, 0).Some?
    ensures var i := FindSpeed(line, 0).value; i == 0 || !IsDigit(line[i - 1])
  {
    var i := FindSpeed(line, 0).value;
    if i > 0 && IsDigit(line[i - 1]) {
      SpeedAtExtends(line, i);
    }
  }

  /** A match of the speed pattern also matches one digit earlier. */
  lemma SpeedAtExtends(s: string, i: nat)
    requires 0 < i <= |s| && IsDigit(s[i - 1]) && SpeedAt(s, i).Some?
    ensures SpeedAt(s, i - 1).Some?
  {
    assert RunEnd(s, i - 1, IsDigit) == RunEnd(s, i, IsDigit);
  }

  // ---------------------------------------------------------------- infer_timings

  /**
   * infer_timings: the JEDEC primary timings for a speed, by the first of DDR4, DDR5 and
   * DDR3 that the upper-cased generation contains; "Unknown" below the slowest bin.
   */
  function InferTimings(speedMt: int, generation: string): (r: string)
    ensures speedMt < 1066 ==> r == "Unknown"
    ensures r == "Unknown" || StartsWith(r, "CL")
  {
    var gen := Upper(generation);
    if Contains(gen, "DDR4") then
      if speedMt >= 3200 then "CL22-22-22"
      else if speedMt >= 2933 then "CL21-21-21"
      else if speedMt >= 2666 then "CL19-19-19"
      else if speedMt >= 2400 then "CL17-17-17"
      else if speedMt >= 2133 then "CL15-15-15"
      else "Unknown"
    else if Contains(gen, "DDR5") then
      if speedMt >= 6400 then "CL52-52-52"
      else if speedMt >= 6000 then "CL48-48-48"
      else if speedMt >= 5600 then "CL46-46-46"
      else if speedMt >= 5200 then "CL42-42-42"
      else if speedMt >= 4800 then "CL40-39-39"
      else "Unknown"
    else if Contains(gen, "DDR3") then
      if speedMt >= 1866 then "CL13-13-13"
      else if speedMt >= 1600 then "CL11-11-11"
      else if speedMt >= 1333 then "CL9-9-9"
      else if speedMt >= 1066 then "CL7-7-7"
      else "Unknown"
    else "Unknown"
  }

  /** One row of a JEDEC speed table: the lowest speed it covers, its CAS latency and its timings. */
  datatype SpeedBin = SpeedBin(minSpeed: int, cas: nat, timings: string)

  const Ddr4Bins: seq<SpeedBin> := [
    SpeedBin(3200, 22, "CL22-22-22"), SpeedBin(2933, 21, "CL21-21-21"), SpeedBin(2666, 19, "CL19-19-19"),
    SpeedBin(2400, 17, "CL17-17-17"), SpeedBin(2133, 15, "CL15-15-15")]

  const Ddr5Bins: seq<SpeedBin> := [
    SpeedBin(6400, 52, "CL52-52-52"), SpeedBin(6000, 48, "CL48-48-48"), SpeedBin(5600, 46, "CL46-46-46"),
    SpeedBin(5200, 42, "CL42-42-42"), SpeedBin(4800, 40, "CL40-39-39")]

  const Ddr3Bins: seq<SpeedBin> := [
    SpeedBin(1866, 13, "CL13-13-13"), SpeedBin(1600, 11, "CL11-11-11"),
    SpeedBin(1333, 9, "CL9-9-9"), SpeedBin(1066, 7, "CL7-7-7")]

  /** The table for a generation: the first family named in it, in the order DDR4, DDR5, DDR3. */
  function BinsFor(generation: string): seq<SpeedBin>
  {
    var gen := Upper(generation);
    if Contains(gen, "DDR4") then Ddr4Bins
    else if Contains(gen, "DDR5") then Ddr5Bins
    else if Contains(gen, "DDR3") then Ddr3Bins
    else []
  }

  /** The first (fastest) bin the speed reaches. */
  function Lookup(bins: seq<SpeedBin>, speedMt: int): Option<SpeedBin>
  {
    if bins == [] then None
    else if speedMt >= bins[0].minSpeed then Some(bins[0])
    else Lookup(bins[1..], speedMt)
  }

  /** Bins from fastest to slowest, latency never rising towards the slow end. */
  predicate Descending(bins: seq<SpeedBin>)
  {
    forall i, j :: 0 <= i < j < |bins| ==> bins[i].minSpeed > bins[j].minSpeed && bins[i].cas >= bins[j].cas
  }

  /** infer_timings is a lookup in the JEDEC table of the generation. */
  lemma InferTimingsIsLookup(speedMt: int, generation: string)
    ensures InferTimings(speedMt, generation) ==
      match Lookup(BinsFor(generation), speedMt) case None => "Unknown" case Some(b) => b.timings
  {
    var gen := Upper(generation);
    var speed := speedMt;
    if Contains(gen, "DDR4") {
      var b := Ddr4Bins;
      assert Lookup(b[1..][1..][1..][1..], speed) == if speed >= 2133 then Some(b[4]) else None;
      assert Lookup(b[1..][1..][1..], speed) == if speed >= 2400 then Some(b[3]) else Lookup(b[1..][1..][1..][1..], speed);
      assert Lookup(b[1..][1..], speed) == if speed >= 2666 then Some(b[2]) else Lookup(b[1..][1..][1..], speed);
      assert Lookup(b[1..], speed) == if speed >= 2933 then Some(b[1]) else Lookup(b[1..][1..], speed);
    } else if Contains(gen, "DDR5") {
      var b := Ddr5Bins;
      assert Lookup(b[1..][1..][1..][1..], speed) == if speed >= 4800 then Some(b[4]) else None;
      assert Lookup(b[1..][1..][1..], speed) == if speed >= 5200 then Some(b[3]) else Lookup(b[1..][1..][1..][1..], speed);
      assert Lookup(b[1..][1..], speed) == if speed >= 5600 then Some(b[2]) else Lookup(b[1..][1..][1..], speed);
      assert Lookup(b[1..], speed) == if speed >= 6000 then Some(b[1]) else Lookup(b[1..][1..], speed);
    } else if Contains(gen, "DDR3") {
      var b := Ddr3Bins;
      assert Lookup(b[1..][1..][1..], speed) == if speed >= 1066 then Some(b[3]) else None;
      assert Lookup(b[1..][1..], speed) == if speed >= 1333 then Some(b[2]) else Lookup(b[1..][1..][1..], speed);
      assert Lookup(b[1..], speed) == if speed >= 1600 then Some(b[1]) else Lookup(b[1..][1..], speed);
    }
  }

  /** The timings are known exactly for a recognised generation at or above its slowest bin. */
  lemma InferTimingsKnown(speedMt: int, generation: string)
    ensures InferTimings(speedMt, generation) != "Unknown" <==>
      var gen := Upper(generation);
      || (Contains(gen, "DDR4") && speedMt >= 2133)
      || (!Contains(gen, "DDR4") && Contains(gen, "DDR5") && speedMt >= 4800)
      || (!Contains(gen, "DDR4") && !Contains(gen, "DDR5") && Contains(gen, "DDR3") && speedMt >= 1066)
  {
  }

  lemma TablesDescending()
    ensures Descending(Ddr4Bins) && Descending(Ddr5Bins) && Descending(Ddr3Bins)
  {
  }

  lemma {:induction false} LookupMonotone(bins: seq<SpeedBin>, slower: int, faster: int)
    requires Descending(bins) && slower <= faster && Lookup(bins, slower).Some?
    ensures Lookup(bins, faster).Some? && Lookup(bins, faster).value.cas >= Lookup(bins, slower).value.cas
    ensures Lookup(bins, faster).value.minSpeed >= Lookup(bins, slower).value.minSpeed
  {
    if faster < bins[0].minSpeed {
      LookupMonotone(bins[1..], slower, faster);
    } else if slower < bins[0].minSpeed {
      LookupIn(bins[1..], slower);
    }
  }

  lemma {:induction false} LookupIn(bins: seq<SpeedBin>, speedMt: int)
    requires Lookup(bins, speedMt).Some?
    ensures Lookup(bins, speedMt).value in bins
  {
    if speedMt < bins[0].minSpeed {
      LookupIn(bins[1..], speedMt);
    }
  }

  /** A faster module of the same generation is never given a lower inferred CAS latency. */
  lemma FasterNeverLowerLatency(generation: string, slower: int, faster: int)
    requires slower <= faster && Lookup(BinsFor(generation), slower).Some?
    ensures Lookup(BinsFor(generation), faster).Some?
    ensures Lookup(BinsFor(generation), faster).value.cas >= Lookup(BinsFor(generation), slower).value.cas
  {
    TablesDescending();
    LookupMonotone(BinsFor(generation), slower, faster);
  }
}
