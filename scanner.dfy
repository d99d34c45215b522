/**
 * The decisions inside the hardware scan (ramsleuth_pkg/scanner.py, with the same loops
 * in ramsleuth.py): which SMBus adapters i2cdetect -l lists, which SPD addresses
 * i2cdetect -y shows, and which memory profile is active given the configured speed.
 * The tools' output is an input string here.
 */
module Scanner {
  import opened Outcome
  import opened Text
  import opened DimmRecords
  import opened Profiles

  // ---------------------------------------------------------------- sorted(...)

  predicate Increasing(s: seq<nat>)
  {
    forall i, j :: 0 <= i < j < |s| ==> s[i] < s[j]
  }

  predicate Distinct(s: seq<nat>)
  {
    forall i, j :: 0 <= i < j < |s| ==> s[i] != s[j]
  }

  function Insert(x: nat, s: seq<nat>): (r: seq<nat>)
    ensures multiset(r) == multiset(s) + multiset{x}
    ensures forall y :: y in r ==> y in s || y == x
  {
    if s == [] || x <= s[0] then [x] + s
    else
      assert s == [s[0]] + s[1..];
      [s[0]] + Insert(x, s[1..])
  }

  /** Python's sorted() on a list of integers. */
  function Sorted(xs: seq<nat>): (r: seq<nat>)
    ensures multiset(r) == multiset(xs)
  {
    if xs == [] then []
    else
      assert xs == [xs[0]] + xs[1..];
      Insert(xs[0], Sorted(xs[1..]))
  }

  lemma {:induction false} InsertIncreasing(x: nat, s: seq<nat>)
    requires Increasing(s) && x !in s
    ensures Increasing(Insert(x, s))
  {
    if s != [] && x > s[0] {
      var t := s[1..];
      InsertIncreasing(x, t);
      var r := Insert(x, t);
      assert forall y :: y in t ==> y > s[0];
      var out := Insert(x, s);
      assert out == [s[0]] + r;
      forall i, j | 0 <= i < j < |out| ensures out[i] < out[j] {
        assert out[j] == r[j - 1] && r[j - 1] in r;
        if i > 0 {
          assert out[i] == r[i - 1];
        }
      }
    }
  }

  /** Sorting distinct numbers gives them in strictly increasing order. */
  lemma {:induction false} SortedIncreasing(xs: seq<nat>)
    requires Distinct(xs)
    ensures Increasing(Sorted(xs))
  {
    if xs != [] {
      var t := xs[1..];
      SortedIncreasing(t);
      assert xs[0] !in t;
      assert xs[0] !in multiset(Sorted(t));
      InsertIncreasing(xs[0], Sorted(t));
    }
  }

  /**
   * The candidates list of the loops: each value found, in order of first appearance,
   * appended only when it is not already there.
   */
  function Collect(found: seq<Option<nat>>): (r: seq<nat>)
    ensures Distinct(r)
    ensures forall x :: x in r <==> Some(x) in found
    decreases |found|
  {
    if found == [] then []
    else
      var n := |found| - 1;
      assert found == found[..n] + [found[n]];
      var pre := Collect(found[..n]);
      match found[n]
      case None => pre
      case Some(x) => if x in pre then pre else pre + [x]
  }

  lemma CollectStep(found: seq<Option<nat>>, o: Option<nat>)
    ensures Collect(found + [o]) ==
      match o
      case None => Collect(found)
      case Some(x) => if x in Collect(found) then Collect(found) else Collect(found) + [x]
  {
    assert (found + [o])[..|found|] == found;
  }

  /** The sorted candidates: strictly increasing, and exactly the values found. */
  lemma SortedCollect(found: seq<Option<nat>>)
    ensures Increasing(Sorted(Collect(found)))
    ensures forall x :: x in Sorted(Collect(found)) <==> Some(x) in found
  {
    SortedIncreasing(Collect(found));
    forall x ensures x in Sorted(Collect(found)) <==> x in Collect(found) {
      assert x in Sorted(Collect(found)) <==> x in multiset(Sorted(Collect(found)));
    }
  }

  // ---------------------------------------------------------------- find_smbus

  /** A line naming a graphics adapter (compared lower-cased). */
  predicate IsGpuLine(lower: string)
  {
    Contains(lower, "nvidia") || Contains(lower, "gpu") || Contains(lower, "graphics")
  }

  /** A line naming a chipset SMBus adapter (compared lower-cased). */
  predicate IsSmbusLine(lower: string)
  {
    Contains(lower, "smbus") || Contains(lower, "piix4") || Contains(lower, "amd") || Contains(lower, "intel")
  }

  /** The adapter number of a line of i2cdetect -l, when the line is a chipset SMBus adapter. */
  function BusIdOf(raw: string): Option<nat>
  {
    var line := Strip(raw);
    var lower := Lower(line);
    var words := SplitWs(line);
    if line == [] || IsGpuLine(lower) || !IsSmbusLine(lower) || words == [] then None
    else if StartsWith(words[0], "i2c-") && IsDigitString(words[0][4..]) then Some(DecimalValue(words[0][4..]))
    else None
  }

  /** The bus number each line gives, line by line. */
  function BusFound(lines: seq<string>): (r: seq<Option<nat>>)
    ensures |r| == |lines|
  {
    if lines == [] then [] else BusFound(lines[..|lines| - 1]) + [BusIdOf(lines[|lines| - 1])]
  }

  lemma {:induction false} BusFoundAt(lines: seq<string>, i: nat)
    requires i < |lines|
    ensures BusFound(lines)[i] == BusIdOf(lines[i])
  {
    var n := |lines| - 1;
    if i < n {
      BusFoundAt(lines[..n], i);
    }
  }

  /** What find_smbus returns for the output of i2cdetect -l. */
  function BusIds(stdout: string): seq<nat>
  {
    Sorted(Collect(BusFound(SplitLines(stdout))))
  }

  /** The filters find_smbus applies to one line. */
  method LineBusId(raw: string) returns (busId: Option<nat>)
    ensures busId == BusIdOf(raw)
  {
    var line := Strip(raw);
    if line == [] {
      return None;
    }
    var lower := Lower(line);
    if IsGpuLine(lower) {
      return None;
    }
    if !IsSmbusLine(lower) {
      return None;
    }
    var words := SplitWs(line);
    if words == [] {
      return None;
    }
    var first := words[0];
    busId := None;
    if StartsWith(first, "i2c-") {
      var numStr := first[4..];
      if IsDigitString(numStr) {
        busId := Some(DecimalValue(numStr));
      }
    }
  }

  /** The candidate loop of find_smbus. */
  method FindSmbus(stdout: string) returns (ids: seq<nat>)
    ensures ids == BusIds(stdout)
  {
    var lines := SplitLines(stdout);
    var candidates: seq<nat> := [];
    for i := 0 to |lines|
      invariant candidates == Collect(BusFound(lines[..i]))
    {
      var busId := LineBusId(lines[i]);
      assert lines[..i + 1][..i] == lines[..i];
      assert BusFound(lines[..i + 1]) == BusFound(lines[..i]) + [busId];
      CollectStep(BusFound(lines[..i]), busId);
      if busId.Some? && busId.value !in candidates {
        candidates := candidates + [busId.value];
      }
    }
    assert lines[..|lines|] == lines;
    ids := Sorted(candidates);
  }

  /**
   * find_smbus returns bus numbers in strictly increasing order: exactly the numbers the
   * lines of the output give, each once.
   */
  lemma BusIdsSpec(stdout: string)
    ensures Increasing(BusIds(stdout))
    ensures forall x :: x in BusIds(stdout) <==>
      exists i :: 0 <= i < |SplitLines(stdout)| && BusIdOf(SplitLines(stdout)[i]) == Some(x)
  {
    var lines := SplitLines(stdout);
    var found := BusFound(lines);
    SortedCollect(found);
    forall x ensures x in BusIds(stdout) <==> exists i :: 0 <= i < |lines| && BusIdOf(lines[i]) == Some(x) {
      if x in BusIds(stdout) {
        var i :| 0 <= i < |found| && found[i] == Some(x);
        BusFoundAt(lines, i);
      }
      if exists i :: 0 <= i < |lines| && BusIdOf(lines[i]) == Some(x) {
        var i :| 0 <= i < |lines| && BusIdOf(lines[i]) == Some(x);
        BusFoundAt(lines, i);
        assert found[i] == Some(x);
      }
    }
  }

  /**
   * A line gives a bus number only when, stripped and lower-cased, it names a chipset
   * SMBus adapter and no graphics adapter, and its first word is "i2c-" and digits
   * whose value is that number.
   */
  lemma BusIdOfSpec(raw: string)
    ensures BusIdOf(raw).Some? ==>
      var line := Strip(raw);
      && !IsGpuLine(Lower(line)) && IsSmbusLine(Lower(line))
      && SplitWs(line) != [] && StartsWith(SplitWs(line)[0], "i2c-")
      && IsDigitString(SplitWs(line)[0][4..]) && DecimalValue(SplitWs(line)[0][4..]) == BusIdOf(raw).value
  {
  }

  // ---------------------------------------------------------------- scan_bus

  predicate IsHexToken(t: string)
  {
    forall k :: 0 <= k < |t| ==> IsHexDigit(t[k])
  }

  /** The SPD address a token of the i2cdetect -y table shows, if any. */
  function AddressOf(token: string): Option<nat>
  {
    if EndsWith(token, ":") then None
    else if IsHexToken(token) && (|token| == 2 || |token| == 3) then
      var v := HexValue(token);
      if 0x50 <= v <= 0x57 then Some(v) else None
    else None
  }

  /** The words of the table, line after line. */
  function Tokens(lines: seq<string>): seq<string>
  {
    if lines == [] then []
    else Tokens(lines[..|lines| - 1]) + SplitWs(Strip(lines[|lines| - 1]))
  }

  function AddressFound(tokens: seq<string>): (r: seq<Option<nat>>)
    ensures |r| == |tokens|
  {
    seq(|tokens|, i requires 0 <= i < |tokens| => AddressOf(tokens[i]))
  }

  /** What scan_bus returns for the output of i2cdetect -y. */
  function Addresses(stdout: string): seq<nat>
  {
    Sorted(Collect(AddressFound(Tokens(SplitLines(stdout)))))
  }

  lemma TokensStep(lines: seq<string>, i: nat)
    requires i < |lines|
    ensures Tokens(lines[..i + 1]) == Tokens(lines[..i]) + SplitWs(Strip(lines[i]))
  {
    assert lines[..i + 1][..i] == lines[..i];
  }

  lemma TokenStep(before: seq<string>, parts: seq<string>, j: nat)
    requires j < |parts|
    ensures Collect(AddressFound(before + parts[..j + 1])) ==
      match AddressOf(parts[j])
      case None => Collect(AddressFound(before + parts[..j]))
      case Some(x) =>
        if x in Collect(AddressFound(before + parts[..j])) then Collect(AddressFound(before + parts[..j]))
        else Collect(AddressFound(before + parts[..j])) + [x]
  {
    assert before + parts[..j + 1] == (before + parts[..j]) + [parts[j]];
    assert AddressFound(before + parts[..j + 1]) == AddressFound(before + parts[..j]) + [AddressOf(parts[j])];
    CollectStep(AddressFound(before + parts[..j]), AddressOf(parts[j]));
  }

  /** The filters scan_bus applies to one token. */
  method TokenAddress(token: string) returns (address: Option<nat>)
    ensures address == AddressOf(token)
  {
    if EndsWith(token, ":") {
      return None;
    }
    address := None;
    if IsHexToken(token) && (|token| == 2 || |token| == 3) {
      var val := HexValue(token);
      if 0x50 <= val <= 0x57 {
        address := Some(val);
      }
    }
  }

  /** The two loops of scan_bus. */
  method ScanBus(stdout: string) returns (addresses: seq<nat>)
    ensures addresses == Addresses(stdout)
  {
    var lines := SplitLines(stdout);
    var addrs: seq<nat> := [];
    for i := 0 to |lines|
      invariant addrs == Collect(AddressFound(Tokens(lines[..i])))
    {
      var parts := SplitWs(Strip(lines[i]));
      ghost var before := Tokens(lines[..i]);
      TokensStep(lines, i);
      assert before + parts[..0] == before;
      for j := 0 to |parts|
        invariant addrs == Collect(AddressFound(before + parts[..j]))
      {
        TokenStep(before, parts, j);
        var val := TokenAddress(parts[j]);
        if val.Some? && val.value !in addrs {
          addrs := addrs + [val.value];
        }
      }
      assert parts[..|parts|] == parts;
    }
    assert lines[..|lines|] == lines;
    addresses := Sorted(addrs);
  }

  /**
   * scan_bus returns strictly increasing addresses in 0x50..0x57, exactly those shown by
   * a token of two or three hex digits that does not end in ':'.
   */
  lemma AddressesSpec(stdout: string)
    ensures Increasing(Addresses(stdout))
    ensures forall x :: x in Addresses(stdout) ==> 0x50 <= x <= 0x57
    ensures forall x :: x in Addresses(stdout) <==>
      exists t :: t in Tokens(SplitLines(stdout)) && AddressOf(t) == Some(x)
    ensures forall t :: t in Tokens(SplitLines(stdout)) && AddressOf(t).Some? ==>
      !EndsWith(t, ":") && IsHexToken(t) && 2 <= |t| <= 3 && HexValue(t) == AddressOf(t).value
  {
    var tokens := Tokens(SplitLines(stdout));
    AddressTokens(tokens);
    var found := AddressFound(tokens);
    SortedCollect(found);
    forall x | x in Addresses(stdout)
      ensures 0x50 <= x <= 0x57 && exists t :: t in tokens && AddressOf(t) == Some(x)
    {
      var i :| 0 <= i < |found| && found[i] == Some(x);
      assert AddressOf(tokens[i]) == Some(x);
    }
    forall x | exists t :: t in tokens && AddressOf(t) == Some(x)
      ensures x in Addresses(stdout)
    {
      var t :| t in tokens && AddressOf(t) == Some(x);
      var i :| 0 <= i < |tokens| && tokens[i] == t;
      assert found[i] == Some(x);
    }
  }

  lemma AddressTokens(tokens: seq<string>)
    ensures forall t :: t in tokens && AddressOf(t).Some? ==>
      !EndsWith(t, ":") && IsHexToken(t) && 2 <= |t| <= 3 && HexValue(t) == AddressOf(t).value
  {
  }

  /** An increasing list of addresses in 0x50..0x57 has at most eight entries. */
  lemma {:induction false} AtMostEight(s: seq<nat>)
    requires Increasing(s) && forall x :: x in s ==> 0x50 <= x <= 0x57
    ensures |s| <= 8
  {
    if s != [] {
      Climb(s, |s| - 1);
      assert s[|s| - 1] in s;
    }
  }

  lemma {:induction false} Climb(s: seq<nat>, k: nat)
    requires Increasing(s) && forall x :: x in s ==> 0x50 <= x
    requires k < |s|
    ensures s[k] >= 0x50 + k
  {
    assert s[k] in s;
    if k > 0 {
      Climb(s, k - 1);
    }
  }

  lemma AddressesAtMostEight(stdout: string)
    ensures |Addresses(stdout)| <= 8
  {
    AddressesSpec(stdout);
    AtMostEight(Addresses(stdout));
  }

  // ---------------------------------------------------------------- the rated profile

  /** The speed and profile of the highest memory profile found so far. */
  datatype Best = Best(speed: nat, profile: Option<Profile>)

  const NoBest := Best(0, None)

  /** re.search(r"(\d+)", key) as a number. */
  function SpeedOfKey(key: string): Option<nat>
  {
    match FirstDigitRun(key)
    case Some(d) => Some(DecimalValue(d))
    case None => None
  }

  /** One step of the maximum loop: only a strictly higher speed replaces the best so far. */
  function Consider(b: Best, entry: (string, Profile)): Best
  {
    match SpeedOfKey(entry.0)
    case Some(v) => if v > b.speed then Best(v, Some(entry.1)) else b
    case None => b
  }

  /** The maximum loop over the profiles dictionary. */
  function MaxBest(t: Table): Best
  {
    if t == [] then NoBest else Consider(MaxBest(t[..|t| - 1]), t[|t| - 1])
  }

  /** The best speed is 0 exactly while no profile is picked, and no profile's speed exceeds it. */
  lemma {:induction false} MaxBestBound(t: Table)
    ensures MaxBest(t).profile.None? <==> MaxBest(t).speed == 0
    ensures forall i :: 0 <= i < |t| && SpeedOfKey(t[i].0).Some? ==> SpeedOfKey(t[i].0).value <= MaxBest(t).speed
  {
    if t != [] {
      var n := |t| - 1;
      MaxBestBound(t[..n]);
      assert forall i :: 0 <= i < n ==> t[i] == t[..n][i];
    }
  }

  /** A picked profile is the first one that reaches the best speed. */
  lemma {:induction false} MaxBestWitness(t: Table)
    ensures MaxBest(t).profile.Some? ==>
      exists i :: 0 <= i < |t| && SpeedOfKey(t[i].0) == Some(MaxBest(t).speed) && Some(t[i].1) == MaxBest(t).profile
        && forall j :: 0 <= j < i && SpeedOfKey(t[j].0).Some? ==> SpeedOfKey(t[j].0).value < MaxBest(t).speed
  {
    if t != [] {
      var n := |t| - 1;
      var pre := t[..n];
      var b := MaxBest(pre);
      if MaxBest(t) != b {
        MaxBestBound(pre);
        assert forall i :: 0 <= i < n ==> t[i] == pre[i];
        assert SpeedOfKey(t[n].0) == Some(MaxBest(t).speed);
      } else if b.profile.Some? {
        MaxBestWitness(pre);
        var i :| 0 <= i < |pre| && SpeedOfKey(pre[i].0) == Some(b.speed) && Some(pre[i].1) == b.profile
          && forall j :: 0 <= j < i && SpeedOfKey(pre[j].0).Some? ==> SpeedOfKey(pre[j].0).value < b.speed;
        assert forall j :: 0 <= j <= i ==> t[j] == pre[j];
      }
    }
  }

  /**
   * The maximum loop picks a profile of strictly highest speed, the first of them when
   * several share it; it picks none, at speed 0, when no profile has a speed above 0.
   */
  lemma MaxBestSpec(t: Table)
    ensures MaxBest(t).profile.None? ==> MaxBest(t).speed == 0
    ensures forall i :: 0 <= i < |t| && SpeedOfKey(t[i].0).Some? ==> SpeedOfKey(t[i].0).value <= MaxBest(t).speed
    ensures MaxBest(t).profile.Some? ==>
      exists i :: 0 <= i < |t| && SpeedOfKey(t[i].0) == Some(MaxBest(t).speed) && Some(t[i].1) == MaxBest(t).profile
        && forall j :: 0 <= j < i && SpeedOfKey(t[j].0).Some? ==> SpeedOfKey(t[j].0).value < MaxBest(t).speed
    ensures MaxBest(t).profile.Some? ==> MaxBest(t).speed > 0
  {
    MaxBestBound(t);
    MaxBestWitness(t);
  }

  const SummaryKind := "XMP/EXPO"
  const PartKind := "Inferred from Part #"

  /** The fallback on the first DIMM's timings_xmp, such as "3600-18-22-22". */
  function SummaryBest(dimms: seq<Dimm>): Best
  {
    if dimms == [] then NoBest
    else
      var xmp := Field(dimms[0], "timings_xmp");
      var k := RunEnd(xmp, 0, IsDigit);
      if k == 0 then NoBest
      else
        var speed := DecimalValue(xmp[..k]);
        var timings := match SplitOnce(xmp, "-") case Some(parts) => parts.1 case None => UnknownTimings;
        Best(speed, Some(Profile(SummaryKind, timings, NatToString(speed) + " MT/s (Inferred from Summary)")))
  }

  /** (\d{4})[CJ](\d+) matched at i. */
  predicate SpeedClAt(s: string, i: nat)
  {
    i + 6 <= |s| && DigitsAt(s, i, i + 4) && (s[i + 4] == 'C' || s[i + 4] == 'J') && IsDigit(s[i + 5])
  }

  /** (?:KF|HX)4(\d{2})C(\d+) matched at i. */
  predicate KingstonAt(s: string, i: nat)
  {
    && i + 7 <= |s|
    && ((s[i] == 'K' && s[i + 1] == 'F') || (s[i] == 'H' && s[i + 1] == 'X'))
    && s[i + 2] == '4' && DigitsAt(s, i + 3, i + 5) && s[i + 5] == 'C' && IsDigit(s[i + 6])
  }

  /** The leftmost match of (\d{4})[CJ](\d+) at or after i. */
  function FindSpeedCl(s: string, i: nat): (r: Option<nat>)
    requires i <= |s|
    ensures r.Some? ==> i <= r.value && SpeedClAt(s, r.value)
    ensures r.Some? ==> forall j :: i <= j < r.value ==> !SpeedClAt(s, j)
    ensures r.None? ==> forall j :: i <= j ==> !SpeedClAt(s, j)
    decreases |s| - i
  {
    if i + 6 > |s| then None
    else if SpeedClAt(s, i) then Some(i)
    else FindSpeedCl(s, i + 1)
  }

  /** The leftmost match of (?:KF|HX)4(\d{2})C(\d+) at or after i. */
  function FindKingston(s: string, i: nat): (r: Option<nat>)
    requires i <= |s|
    ensures r.Some? ==> i <= r.value && KingstonAt(s, r.value)
    ensures r.Some? ==> forall j :: i <= j < r.value ==> !KingstonAt(s, j)
    ensures r.None? ==> forall j :: i <= j ==> !KingstonAt(s, j)
    decreases |s| - i
  {
    if i + 7 > |s| then None
    else if KingstonAt(s, i) then Some(i)
    else FindKingston(s, i + 1)
  }

  /** The speed and CAS latency a part number encodes, from the first pattern that matches at all. */
  function PartSpeedCl(p: string): (r: Option<(nat, string)>)
    ensures r.Some? ==> IsDigitString(r.value.1)
  {
    match FindSpeedCl(p, 0)
    case Some(i) =>
      var e := RunEnd(p, i + 5, IsDigit);
      DigitsSlice(p, i, i + 4);
      DigitsSlice(p, i + 5, e);
      Some((DecimalValue(p[i..i + 4]), p[i + 5..e]))
    case None =>
      match FindKingston(p, 0)
      case Some(i) =>
        var e := RunEnd(p, i + 6, IsDigit);
        DigitsSlice(p, i + 3, i + 5);
        DigitsSlice(p, i + 6, e);
        Some((DecimalValue(p[i + 3..i + 5]) * 100, p[i + 6..e]))
      case None => None
  }

  /** The fallback on the part number, accepted only for speeds from 1000 to 10000. */
  function PartBest(partNumber: Option<string>): Best
  {
    match partNumber
    case None => NoBest
    case Some(part) =>
      if part == [] || part == "Unknown" then NoBest
      else
        match PartSpeedCl(Strip(Upper(part)))
        case None => NoBest
        case Some((speed, cl)) =>
          if speed > 0 && cl != [] && 1000 <= speed <= 10000 then
            Best(speed, Some(Profile(PartKind, "CL" + cl, NatToString(speed) + " MT/s (Inferred from Part #)")))
          else NoBest
  }

  /** The highest profile: from the profiles dictionary, else the summary, else the part number. */
  function MaxCapability(t: Table, dimms: seq<Dimm>, partNumber: Option<string>): Best
  {
    var b := MaxBest(t);
    var b' := if b.profile.None? && SummaryBest(dimms).profile.Some? then SummaryBest(dimms) else b;
    if b'.profile.None? && PartBest(partNumber).profile.Some? then PartBest(partNumber) else b'
  }

  /**
   * A part-number profile has a speed from 1000 to 10000, timings "CL" and the digits
   * after the speed, and a description naming the speed; the patterns are tried on the
   * upper-cased, stripped part number.
   */
  lemma PartBestSpec(partNumber: Option<string>)
    ensures var b := PartBest(partNumber);
      b.profile.Some? ==>
        && partNumber.Some? && partNumber.value != [] && partNumber.value != "Unknown"
        && 1000 <= b.speed <= 10000
        && var cl := PartSpeedCl(Strip(Upper(partNumber.value)));
        && cl.Some? && cl.value.0 == b.speed
        && b.profile.value == Profile(PartKind, "CL" + cl.value.1, NatToString(b.speed) + " MT/s (Inferred from Part #)")
        && IsDigitString(cl.value.1)
  {
  }

  /** F4-3600C18 reads as 3600 MT/s at CL18: the search skips the "F4-" prefix. */
  lemma GSkillExample()
    ensures PartSpeedCl("F4-3600C18") == Some((3600, "18"))
  {
    var g := "F4-3600C18";
    GSkillMatch();
    NatToStringExamples();
    assert g[3..7] == NatToString(3600);
    assert RunEnd(g, 8, IsDigit) == 10;
    assert DecimalValue(g[3..7]) == 3600;
    assert g[8..10] == "18";
  }

  /** KF432C16 reads as 3200 MT/s at CL16. */
  lemma KingstonExample()
    ensures PartSpeedCl("KF432C16") == Some((3200, "16"))
  {
    var k := "KF432C16";
    KingstonMatch();
    NatToStringExamples();
    assert k[3..5] == NatToString(32);
    assert RunEnd(k, 6, IsDigit) == 8;
    assert DecimalValue(k[3..5]) * 100 == 3200;
    assert k[6..8] == "16";
  }

  /** In F4-3600C18 the first speed-and-latency match starts after the "F4-" prefix. */
  lemma GSkillMatch()
    ensures FindSpeedCl("F4-3600C18", 0) == Some(3)
  {
    var g := "F4-3600C18";
    assert !IsDigit(g[0]) && !IsDigit(g[2]);
    assert FindSpeedCl(g, 3) == Some(3);
  }

  /** KF432C16 has no four-digit speed, so only the Kingston pattern matches it. */
  lemma KingstonMatch()
    ensures FindSpeedCl("KF432C16", 0) == None
    ensures FindKingston("KF432C16", 0) == Some(0)
  {
    var k := "KF432C16";
    assert !IsDigit(k[0]) && !IsDigit(k[1]) && !IsDigit(k[5]);
    assert FindSpeedCl(k, 2) == None;
  }

  lemma NatToStringExamples()
    ensures NatToString(32) == "32" && NatToString(3200) == "3200" && NatToString(3600) == "3600"
  {
    assert NatToString(32) == NatToString(3) + [DigitChar(2)];
    assert NatToString(320) == NatToString(32) + [DigitChar(0)];
    assert NatToString(3200) == NatToString(320) + [DigitChar(0)];
    assert NatToString(36) == NatToString(3) + [DigitChar(6)];
    assert NatToString(360) == NatToString(36) + [DigitChar(0)];
    assert NatToString(3600) == NatToString(360) + [DigitChar(0)];
  }

  // ---------------------------------------------------------------- the active profile

  /** abs(a - b) < 100 */
  predicate Near(a: int, b: int)
  {
    -100 < a - b < 100
  }

  /** The first listed profile within 100 MT/s of speed v. */
  function FirstNear(v: nat, t: Table): Option<Profile>
  {
    if t == [] then None
    else if SpeedOfKey(t[0].0).Some? && Near(v, SpeedOfKey(t[0].0).value) then Some(t[0].1)
    else FirstNear(v, t[1..])
  }

  /** The profile the configured speed v runs: the highest one if near, else the first near one. */
  function Matched(v: nat, b: Best, t: Table): Option<Profile>
  {
    if b.speed > 0 then
      if Near(v, b.speed) then b.profile else FirstNear(v, t)
    else None
  }

  lemma {:induction false} FirstNearSpec(v: nat, t: Table)
    ensures FirstNear(v, t).Some? <==> exists i :: 0 <= i < |t| && SpeedOfKey(t[i].0).Some? && Near(v, SpeedOfKey(t[i].0).value)
    ensures FirstNear(v, t).Some? ==> exists i :: (
      && 0 <= i < |t| && SpeedOfKey(t[i].0).Some? && Near(v, SpeedOfKey(t[i].0).value)
      && FirstNear(v, t) == Some(t[i].1)
      && forall j :: 0 <= j < i ==> !(SpeedOfKey(t[j].0).Some? && Near(v, SpeedOfKey(t[j].0).value)))
  {
    if t != [] {
      FirstNearSpec(v, t[1..]);
      assert forall i :: 1 <= i < |t| ==> t[i] == t[1..][i - 1];
      if !(SpeedOfKey(t[0].0).Some? && Near(v, SpeedOfKey(t[0].0).value)) && FirstNear(v, t).Some? {
        var i :| 0 <= i < |t[1..]| && SpeedOfKey(t[1..][i].0).Some? && Near(v, SpeedOfKey(t[1..][i].0).value)
          && FirstNear(v, t[1..]) == Some(t[1..][i].1)
          && forall j :: 0 <= j < i ==> !(SpeedOfKey(t[1..][j].0).Some? && Near(v, SpeedOfKey(t[1..][j].0).value));
        assert t[i + 1] == t[1..][i];
      }
    }
  }

  /** The settings filled once the configured speed is known. */
  function Rated(settings: map<string, string>, b: Best): map<string, string>
  {
    match b.profile
    case None => settings
    case Some(p) =>
      var rated := if p.timings != UnknownTimings then RatedText(b.speed, p.timings) else NatToString(b.speed) + " MT/s";
      settings["Rated XMP" := rated]["Rated XMP Timings" := p.timings]
  }

  /** "<speed> MT/s (CL…)", with "CL" put in front of the timings only when they lack it. */
  function RatedText(speed: nat, timings: string): string
  {
    var shown := if StartsWith(timings, "CL") then timings else "CL" + timings;
    NatToString(speed) + " MT/s (" + shown + ")"
  }

  /** The rated text shows the timings after exactly one "CL" unless the timings already begin "CLCL". */
  lemma RatedTextSpec(speed: nat, timings: string)
    ensures exists shown :: (
      && RatedText(speed, timings) == NatToString(speed) + " MT/s (" + shown + ")"
      && StartsWith(shown, "CL")
      && (StartsWith(timings, "CL") ==> shown == timings)
      && (!StartsWith(timings, "CL") ==> shown[2..] == timings)
      && (StartsWith(shown[2..], "CL") <==> StartsWith(timings, "CLCL")))
  {
    var shown := if StartsWith(timings, "CL") then timings else "CL" + timings;
    assert ("CL" + timings)[..2] == "CL" && ("CL" + timings)[2..] == timings;
    DoubledPrefix(timings);
  }

  /** A text starting "CLCL" starts "CL", and past its first two characters it starts "CL". */
  lemma DoubledPrefix(s: string)
    ensures StartsWith(s, "CLCL") ==> StartsWith(s, "CL")
    ensures StartsWith(s, "CL") ==> (StartsWith(s[2..], "CL") <==> StartsWith(s, "CLCL"))
  {
    if StartsWith(s, "CLCL") {
      assert s[..2] == s[..4][..2];
      assert s[2..][..2] == s[..4][2..];
    }
    if StartsWith(s, "CL") && StartsWith(s[2..], "CL") {
      assert s[..4] == s[..2] + s[2..][..2];
    }
  }

  lemma RatedTextExample()
    ensures RatedText(3600, "18-22-22-42") == "3600 MT/s (CL18-22-22-42)"
    ensures RatedText(3200, "CL16") == "3200 MT/s (CL16)"
  {
    RatedTextBare();
    RatedTextPrefixed();
  }

  /** The pieces of the rated text for 3600 MT/s with bare timings. */
  lemma RatedTextBarePieces()
    ensures "3600" + " MT/s (" + ("CL" + "18-22-22-42") + ")" == "3600 MT/s (CL18-22-22-42)"
  {
  }

  lemma RatedTextBare()
    ensures RatedText(3600, "18-22-22-42") == "3600 MT/s (CL18-22-22-42)"
  {
    NatToStringExamples();
    var t := "18-22-22-42";
    assert t[..2][0] == '1';
    assert !StartsWith(t, "CL");
    RatedTextBarePieces();
  }

  lemma RatedTextPrefixed()
    ensures RatedText(3200, "CL16") == "3200 MT/s (CL16)"
  {
    NatToStringExamples();
    assert StartsWith("CL16", "CL");
  }

  /** The verdict once the configured speed v is known. */
  function Activate(settings: map<string, string>, v: nat, m: Option<Profile>): map<string, string>
  {
    match m
    case Some(p) =>
      settings["Active Profile" := "XMP/EXPO (Active)"]["Active Timings" := p.timings]["XMP Profile" := p.description]
    case None =>
      settings["Active Profile" := if v > 2666 then "Manual / OC" else "JEDEC / Standard"]
  }

  /** A value Python treats as true: present and not empty. */
  predicate Given(s: Option<string>)
  {
    s.Some? && s.value != []
  }

  /**
   * get_current_memory_settings from the first populated memory device on: its
   * configured speed and voltage and part number, the decode-dimms SPD output and the
   * parsed DIMMs.
   */
  function MemorySettings(settings: map<string, string>, currentSpeed: Option<string>, currentVoltage: Option<string>,
                          partNumber: Option<string>, spdOutput: string, dimms: seq<Dimm>): map<string, string>
  {
    var s1 := if Given(currentSpeed) then settings["Configured Speed" := currentSpeed.value] else settings;
    var s2 := if Given(currentVoltage) then s1["Configured Voltage" := currentVoltage.value] else s1;
    if !Given(currentSpeed) then s2
    else
      match FirstDigitRun(currentSpeed.value)
      case None => s2
      case Some(digits) =>
        Inference(s2, DecimalValue(digits), SpdProfiles(spdOutput), dimms, partNumber)
  }

  /** The profiles decode-dimms lists, when its output was captured. */
  function SpdProfiles(spdOutput: string): Table
  {
    if spdOutput != [] then ProfilesOf(spdOutput) else []
  }

  /** The inference for configured speed v: the highest profile, then the verdict. */
  function Inference(settings: map<string, string>, v: nat, t: Table, dimms: seq<Dimm>, partNumber: Option<string>): map<string, string>
  {
    var b := MaxCapability(t, dimms, partNumber);
    Activate(Rated(settings["Active Profile" := "JEDEC / Manual"], b), v, Matched(v, b, t))
  }

  /** The inference steps of get_current_memory_settings, with its two loops over the profiles. */
  method InferMemorySettings(settings: map<string, string>, currentSpeed: Option<string>, currentVoltage: Option<string>,
                             partNumber: Option<string>, spdOutput: string, dimms: seq<Dimm>)
    returns (result: map<string, string>)
    ensures result == MemorySettings(settings, currentSpeed, currentVoltage, partNumber, spdOutput, dimms)
  {
    result := settings;
    if Given(currentSpeed) {
      result := result["Configured Speed" := currentSpeed.value];
    }
    if Given(currentVoltage) {
      result := result["Configured Voltage" := currentVoltage.value];
    }
    if !Given(currentSpeed) {
      return;
    }
    var digits := FirstDigitRun(currentSpeed.value);
    if digits.None? {
      return;
    }
    var v := DecimalValue(digits.value);
    var profiles: Table := [];
    if spdOutput != [] {
      profiles := ExtractProfiles(spdOutput);
    }
    result := InferActiveProfile(result, v, profiles, dimms, partNumber);
  }

  /** The inference steps once the configured speed v is known. */
  method InferActiveProfile(settings: map<string, string>, v: nat, profiles: Table, dimms: seq<Dimm>, partNumber: Option<string>)
    returns (result: map<string, string>)
    ensures result == Inference(settings, v, profiles, dimms, partNumber)
  {
    result := settings["Active Profile" := "JEDEC / Manual"];
    var best := ChooseBest(profiles, dimms, partNumber);
    result := Rated(result, best);
    var matched := MatchProfile(v, best, profiles);
    result := Activate(result, v, matched);
  }

  /** The rated profile: the maximum loop, then the two fallbacks when it found none. */
  method ChooseBest(profiles: Table, dimms: seq<Dimm>, partNumber: Option<string>) returns (best: Best)
    ensures best == MaxCapability(profiles, dimms, partNumber)
  {
    best := MaxProfile(profiles);
    if best.profile.None? && SummaryBest(dimms).profile.Some? {
      best := SummaryBest(dimms);
    }
    if best.profile.None? && PartBest(partNumber).profile.Some? {
      best := PartBest(partNumber);
    }
  }

  /** The profile the configured speed v runs: the rated one when near it, else the first near one. */
  method MatchProfile(v: nat, best: Best, profiles: Table) returns (matched: Option<Profile>)
    ensures matched == Matched(v, best, profiles)
  {
    matched := None;
    if best.speed > 0 {
      if Near(v, best.speed) {
        matched := best.profile;
      } else {
        matched := FindNear(v, profiles);
      }
    }
  }

  /** The maximum loop: the running maximum speed and its profile. */
  method MaxProfile(profiles: Table) returns (best: Best)
    ensures best == MaxBest(profiles)
  {
    best := NoBest;
    for i := 0 to |profiles|
      invariant best == MaxBest(profiles[..i])
    {
      assert profiles[..i + 1][..i] == profiles[..i];
      var speed := SpeedOfKey(profiles[i].0);
      if speed.Some? && speed.value > best.speed {
        best := Best(speed.value, Some(profiles[i].1));
      }
    }
    assert profiles[..|profiles|] == profiles;
  }

  /** The matching loop over the listed profiles, stopping at the first near one. */
  method FindNear(v: nat, profiles: Table) returns (matched: Option<Profile>)
    ensures matched == FirstNear(v, profiles)
  {
    matched := None;
    var i := 0;
    while i < |profiles|
      invariant 0 <= i <= |profiles|
      invariant FirstNear(v, profiles[i..]) == FirstNear(v, profiles)
    {
      assert profiles[i..][0] == profiles[i] && profiles[i..][1..] == profiles[i + 1..];
      var speed := SpeedOfKey(profiles[i].0);
      if speed.Some? && Near(v, speed.value) {
        matched := Some(profiles[i].1);
        return;
      }
      i := i + 1;
    }
  }

  /** The highest profile has a speed above 0 exactly when it exists. */
  lemma MaxCapabilityShape(t: Table, dimms: seq<Dimm>, partNumber: Option<string>)
    ensures MaxCapability(t, dimms, partNumber).speed > 0 ==> MaxCapability(t, dimms, partNumber).profile.Some?
  {
    MaxBestSpec(t);
  }

  /**
   * With a configured speed v that has digits, the verdict is "XMP/EXPO (Active)"
   * exactly when the highest profile or a listed profile lies within 100 MT/s of v
   * (and a highest profile exists); the highest one wins when it is near, else the first
   * near listed one; otherwise the verdict is "Manual / OC" above 2666 MT/s and
   * "JEDEC / Standard" at or below.
   */
  lemma ActiveProfileSpec(v: nat, b: Best, t: Table)
    requires b.speed > 0 ==> b.profile.Some?
    ensures Matched(v, b, t).Some? <==>
      b.speed > 0 && (Near(v, b.speed) || exists i :: 0 <= i < |t| && SpeedOfKey(t[i].0).Some? && Near(v, SpeedOfKey(t[i].0).value))
    ensures b.speed > 0 && Near(v, b.speed) ==> Matched(v, b, t) == b.profile
    ensures b.speed > 0 && !Near(v, b.speed) && Matched(v, b, t).Some? ==>
      exists i :: 0 <= i < |t| && SpeedOfKey(t[i].0).Some? && Near(v, SpeedOfKey(t[i].0).value)
        && Matched(v, b, t) == Some(t[i].1)
        && forall j :: 0 <= j < i ==> !(SpeedOfKey(t[j].0).Some? && Near(v, SpeedOfKey(t[j].0).value))
    ensures forall s: map<string, string> :: "Active Profile" in Activate(s, v, Matched(v, b, t))
    ensures forall s: map<string, string> :: (Activate(s, v, Matched(v, b, t))["Active Profile"] ==
      if Matched(v, b, t).Some? then "XMP/EXPO (Active)" else if v > 2666 then "Manual / OC" else "JEDEC / Standard")
  {
    FirstNearSpec(v, t);
  }

  /** Without a configured speed nothing is inferred: only the voltage may be filled in. */
  lemma NoSpeedNoInference(settings: map<string, string>, currentSpeed: Option<string>, currentVoltage: Option<string>,
                           partNumber: Option<string>, spdOutput: string, dimms: seq<Dimm>)
    requires !Given(currentSpeed)
    ensures MemorySettings(settings, currentSpeed, currentVoltage, partNumber, spdOutput, dimms) ==
      if Given(currentVoltage) then settings["Configured Voltage" := currentVoltage.value] else settings
  {
  }
}
