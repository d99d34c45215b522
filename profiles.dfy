/**
 * extract_profiles_from_spd (ramsleuth_pkg/parser.py): the XMP/EXPO profiles listed in
 * decode-dimms output, keyed by speed, with the timings found on the profile line or on
 * a following line.
 */
module Profiles {
  import opened Outcome
  import opened Text
  import opened Timings

  /** One profile: its type, its timings ("Unknown" until found) and the line that announced it. */
  datatype Profile = Profile(kind: string, timings: string, description: string)

  const UnknownTimings := "Unknown"
  const ProfileKind := "XMP/EXPO"

  // ---------------------------------------------------------------- the profiles dictionary

  /** A Python dict from speed labels to profiles: its entries in insertion order. */
  type Table = seq<(string, Profile)>

  predicate DistinctKeys(t: Table)
  {
    forall i, j :: 0 <= i < j < |t| ==> t[i].0 != t[j].0
  }

  predicate HasKey(t: Table, key: string)
  {
    exists i :: 0 <= i < |t| && t[i].0 == key
  }

  /** t[key], when key is present. */
  function Get(t: Table, key: string): (r: Option<Profile>)
    ensures r.Some? <==> HasKey(t, key)
  {
    if t == [] then None
    else if t[0].0 == key then Some(t[0].1)
    else
      assert forall i :: 1 <= i < |t| ==> t[i] == t[1..][i - 1];
      Get(t[1..], key)
  }

  /** t[key] = p: an existing entry keeps its place, a new one goes last. */
  function Put(t: Table, key: string, p: Profile): (r: Table)
    ensures |r| == if HasKey(t, key) then |t| else |t| + 1
  {
    if t == [] then [(key, p)]
    else if t[0].0 == key then [(key, p)] + t[1..]
    else
      assert forall i :: 1 <= i < |t| ==> t[i] == t[1..][i - 1];
      [t[0]] + Put(t[1..], key, p)
  }

  lemma {:induction false} GetEntry(t: Table, i: nat)
    requires DistinctKeys(t) && i < |t|
    ensures Get(t, t[i].0) == Some(t[i].1)
  {
    if i > 0 {
      assert t[1..][i - 1] == t[i];
      GetEntry(t[1..], i - 1);
    }
  }

  /** Assignment replaces the entry under key where it stands, or appends one. */
  lemma {:induction false} PutEntries(t: Table, key: string, p: Profile)
    requires DistinctKeys(t)
    ensures forall i :: 0 <= i < |t| ==> Put(t, key, p)[i] == if t[i].0 == key then (key, p) else t[i]
    ensures !HasKey(t, key) ==> Put(t, key, p)[|t|] == (key, p)
  {
    if t != [] && t[0].0 != key {
      assert forall i :: 1 <= i < |t| ==> t[i] == t[1..][i - 1];
      PutEntries(t[1..], key, p);
    }
  }

  /** The keys after an assignment: the old ones in place, then key if it is new. */
  lemma PutKeys(t: Table, key: string, p: Profile)
    requires DistinctKeys(t)
    ensures forall i :: 0 <= i < |Put(t, key, p)| ==> Put(t, key, p)[i].0 == if i < |t| then t[i].0 else key
    ensures DistinctKeys(Put(t, key, p))
  {
    PutEntries(t, key, p);
  }

  /** After t[key] = p, t[key] is p and every other key maps to what it mapped to before. */
  lemma PutGet(t: Table, key: string, p: Profile, k: string)
    requires DistinctKeys(t)
    ensures Get(Put(t, key, p), k) == if k == key then Some(p) else Get(t, k)
  {
    var r := Put(t, key, p);
    PutEntries(t, key, p);
    PutKeys(t, key, p);
    if k == key {
      var i :| 0 <= i < |r| && r[i].0 == key;
      GetEntry(r, i);
    } else if HasKey(t, k) {
      var i :| 0 <= i < |t| && t[i].0 == k;
      GetEntry(t, i);
      GetEntry(r, i);
    } else {
      assert !HasKey(r, k);
    }
  }

  // ---------------------------------------------------------------- the scan, line by line

  /** The loop's state: the profiles so far and the key of the profile being read. */
  datatype ScanState = ScanState(profiles: Table, current: Option<string>)

  /** A line that announces a profile: it names XMP or EXPO and carries "MT/s". */
  predicate IsProfileHeader(line: string)
  {
    (Contains(line, "XMP") || Contains(line, "EXPO")) && Contains(line, "MT/s")
  }

  /** The dictionary key of a profile line: its speed and " MT/s". */
  function SpeedKey(speed: string): string
  {
    speed + " MT/s"
  }

  /**
   * What the loop reads off one line: the stripped line, whether it is a "---" line, the
   * speed when it announces a profile, and the timings the selection finds in it.
   */
  datatype LineFacts = LineFacts(line: string, skipped: bool, speed: Option<string>, timings: Option<string>)

  function Facts(raw: string): LineFacts
  {
    var line := Strip(raw);
    LineFacts(line, Contains(line, "---"), if IsProfileHeader(line) then SpeedOf(line) else None, TimingsOf(line))
  }

  /** One line of the loop. */
  function ScanStep(st: ScanState, f: LineFacts): ScanState
  {
    if f.skipped then st
    else if f.speed.Some? then
      var key := SpeedKey(f.speed.value);
      ScanState(Put(st.profiles, key, Profile(ProfileKind, f.timings.GetOr(UnknownTimings), f.line)), Some(key))
    else
      match st.current
      case None => st
      case Some(key) =>
        match Get(st.profiles, key)
        case None => st
        case Some(p) =>
          if p.timings == UnknownTimings && f.timings.Some? then
            ScanState(Put(st.profiles, key, p.(timings := f.timings.value)), st.current)
          else st
  }

  function Scan(lines: seq<string>): ScanState
  {
    if lines == [] then ScanState([], None)
    else ScanStep(Scan(lines[..|lines| - 1]), Facts(lines[|lines| - 1]))
  }

  /** The profiles extract_profiles_from_spd returns for a decode-dimms output. */
  function ProfilesOf(spdOutput: string): Table
  {
    Scan(SplitLines(spdOutput)).profiles
  }

  /** extract_profiles_from_spd. */
  method ExtractProfiles(spdOutput: string) returns (profiles: Table)
    ensures profiles == ProfilesOf(spdOutput)
  {
    profiles := [];
    var current: Option<string> := None;
    if spdOutput == [] {
      return;
    }
    var lines := SplitLines(spdOutput);
    var i := 0;
    while i < |lines|
      invariant 0 <= i <= |lines|
      invariant ScanState(profiles, current) == Scan(lines[..i])
    {
      assert lines[..i + 1][..i] == lines[..i];
      profiles, current := ScanLine(profiles, current, lines[i]);
      i := i + 1;
    }
    assert lines[..i] == lines;
  }

  /** The body of the loop of extract_profiles_from_spd, for one line. */
  method ScanLine(profiles: Table, current: Option<string>, raw: string)
    returns (profiles': Table, current': Option<string>)
    ensures ScanState(profiles', current') == ScanStep(ScanState(profiles, current), Facts(raw))
  {
    profiles', current' := profiles, current;
    var line := Strip(raw);
    if Contains(line, "---") {
      return;
    }
    if IsProfileHeader(line) {
      var speed := SpeedOf(line);
      if speed.Some? {
        var key := SpeedKey(speed.value);
        var found := SelectTimings(line);
        var timings := if found.Some? then found.value else UnknownTimings;
        profiles' := Put(profiles, key, Profile(ProfileKind, timings, line));
        current' := Some(key);
        return;
      }
    }
    if current.Some? && Get(profiles, current.value).Some? && Get(profiles, current.value).value.timings == UnknownTimings {
      var found := SelectTimings(line);
      if found.Some? {
        var p := Get(profiles, current.value).value;
        profiles' := Put(profiles, current.value, p.(timings := found.value));
      }
    }
  }

  // ---------------------------------------------------------------- what the profiles are

  /** A timings text: three or four groups of one to three digits, joined with '-'. */
  predicate IsTimingText(t: string)
  {
    var parts := SplitOn(t, '-');
    3 <= |parts| <= 4 && forall k :: 0 <= k < |parts| ==> IsDigitString(parts[k]) && |parts[k]| <= 3
  }

  /** What is true of the facts of any line. */
  predicate FactsHold(f: LineFacts)
  {
    && Strip(f.line) == f.line
    && (f.speed.Some? ==> IsProfileHeader(f.line) && SpeedOf(f.line) == f.speed)
    && (f.timings.Some? ==> IsTimingText(f.timings.value))
  }

  lemma FactsOfLine(raw: string)
    ensures FactsHold(Facts(raw))
  {
    StripIdempotent(raw);
    var line := Strip(raw);
    if TimingsOf(line).Some? {
      TimingsRoundTrip(line);
    }
  }

  /**
   * An entry as the scan writes it: an XMP/EXPO profile keyed by the speed its own
   * (stripped) description line states, with timings "Unknown" or a timings text.
   */
  predicate ValidEntry(key: string, p: Profile)
  {
    && p.kind == ProfileKind
    && Strip(p.description) == p.description
    && IsProfileHeader(p.description)
    && SpeedOf(p.description).Some?
    && key == SpeedKey(SpeedOf(p.description).value)
    && (p.timings == UnknownTimings || IsTimingText(p.timings))
  }

  predicate Valid(st: ScanState)
  {
    && DistinctKeys(st.profiles)
    && (forall i :: 0 <= i < |st.profiles| ==> ValidEntry(st.profiles[i].0, st.profiles[i].1))
    && (st.current.Some? ==> HasKey(st.profiles, st.current.value))
  }

  lemma PutValid(t: Table, key: string, p: Profile)
    requires DistinctKeys(t) && (forall i :: 0 <= i < |t| ==> ValidEntry(t[i].0, t[i].1))
    requires ValidEntry(key, p)
    ensures forall i :: 0 <= i < |Put(t, key, p)| ==> ValidEntry(Put(t, key, p)[i].0, Put(t, key, p)[i].1)
    ensures DistinctKeys(Put(t, key, p)) && HasKey(Put(t, key, p), key)
  {
    PutEntries(t, key, p);
    PutKeys(t, key, p);
    PutGet(t, key, p, key);
  }

  lemma StepValid(st: ScanState, f: LineFacts)
    requires Valid(st) && FactsHold(f)
    ensures Valid(ScanStep(st, f))
  {
    if f.skipped {
    } else if f.speed.Some? {
      var key := SpeedKey(f.speed.value);
      var p := Profile(ProfileKind, f.timings.GetOr(UnknownTimings), f.line);
      assert ValidEntry(key, p);
      PutValid(st.profiles, key, p);
      assert ScanStep(st, f) == ScanState(Put(st.profiles, key, p), Some(key));
    } else if st.current.Some? && Get(st.profiles, st.current.value).Some? {
      FillValid(st, f.timings);
    }
  }

  lemma FillValid(st: ScanState, found: Option<string>)
    requires Valid(st) && st.current.Some? && Get(st.profiles, st.current.value).Some?
    requires found.Some? ==> IsTimingText(found.value)
    ensures var key := st.current.value; var p := Get(st.profiles, key).value;
      p.timings == UnknownTimings && found.Some? ==> Valid(ScanState(Put(st.profiles, key, p.(timings := found.value)), st.current))
  {
    var key := st.current.value;
    var p := Get(st.profiles, key).value;
    if p.timings == UnknownTimings && found.Some? {
      var k :| 0 <= k < |st.profiles| && st.profiles[k].0 == key;
      GetEntry(st.profiles, k);
      assert ValidEntry(key, p);
      PutValid(st.profiles, key, p.(timings := found.value));
    }
  }

  /**
   * Every profile the scan keeps is an XMP/EXPO profile under the speed of its own line,
   * each speed at most once, with timings "Unknown" or three or four dash-joined groups.
   */
  lemma {:induction false} ScanValid(lines: seq<string>)
    ensures Valid(Scan(lines))
  {
    if lines != [] {
      ScanValid(lines[..|lines| - 1]);
      FactsOfLine(lines[|lines| - 1]);
      StepValid(Scan(lines[..|lines| - 1]), Facts(lines[|lines| - 1]));
    }
  }

  /**
   * A line that announces no profile never adds or reorders profiles, and changes at most
   * the current profile, only when its timings were still "Unknown", and only its timings.
   */
  lemma NonHeaderLineFillsTimingsOnly(st: ScanState, f: LineFacts)
    requires DistinctKeys(st.profiles) && f.speed.None?
    ensures |ScanStep(st, f).profiles| == |st.profiles|
    ensures ScanStep(st, f).current == st.current
    ensures forall i :: 0 <= i < |st.profiles| ==> ScanStep(st, f).profiles[i].0 == st.profiles[i].0
    ensures forall i :: 0 <= i < |st.profiles| && ScanStep(st, f).profiles[i] != st.profiles[i] ==>
      && Some(st.profiles[i].0) == st.current
      && st.profiles[i].1.timings == UnknownTimings
      && ScanStep(st, f).profiles[i].1 == st.profiles[i].1.(timings := ScanStep(st, f).profiles[i].1.timings)
  {
    if !f.skipped && st.current.Some? && Get(st.profiles, st.current.value).Some? {
      var key := st.current.value;
      var p := Get(st.profiles, key).value;
      if p.timings == UnknownTimings && f.timings.Some? {
        var k :| 0 <= k < |st.profiles| && st.profiles[k].0 == key;
        GetEntry(st.profiles, k);
        PutEntries(st.profiles, key, p.(timings := f.timings.value));
      }
    }
  }

  /**
   * The multi-line case: a profile line without timings followed by a line that has them
   * (and is neither a "---" line nor a profile line) gives the profile those timings.
   */
  lemma ProfileThenTimingLine(header: string, next: string)
    requires !Facts(header).skipped && Facts(header).speed.Some? && Facts(header).timings.None?
    requires !Facts(next).skipped && Facts(next).speed.None? && Facts(next).timings.Some?
    ensures Scan([header, next]).profiles ==
      [(SpeedKey(Facts(header).speed.value), Profile(ProfileKind, Facts(next).timings.value, Strip(header)))]
  {
    assert [header, next][..1] == [header];
    assert [header][..0] == [];
    var key := SpeedKey(Facts(header).speed.value);
    var t := [(key, Profile(ProfileKind, UnknownTimings, Strip(header)))];
    assert Scan([header]) == ScanState(t, Some(key));
    GetEntry(t, 0);
  }

  /** A profile line that carries its own timings records them at once and becomes current. */
  lemma ProfileLineWithTimings(st: ScanState, f: LineFacts)
    requires Valid(st) && !f.skipped && f.speed.Some? && f.timings.Some?
    ensures ScanStep(st, f).current == Some(SpeedKey(f.speed.value))
    ensures Get(ScanStep(st, f).profiles, SpeedKey(f.speed.value)) == Some(Profile(ProfileKind, f.timings.value, f.line))
  {
    PutGet(st.profiles, SpeedKey(f.speed.value), Profile(ProfileKind, f.timings.value, f.line), SpeedKey(f.speed.value));
  }
}
