/**
 * Matching a normalised DIMM record against the heuristic database and choosing a
 * die type (RamSleuth_DB.py, is_match and find_die_type).
 */
module Resolver {
  import opened Outcome
  import opened Text
  import opened Values
  import opened RuleDatabase

  // ---------------------------------------------------------------- the constraints

  /** The constraint keys a rule may carry; every other key of a rule is ignored. */
  datatype Constraint =
    | Generation | Manufacturer | DramMfg | ModuleGb | ModuleRanks | ChipOrg
    | PartNumberContains | PartNumberExact | TimingsXmp | TimingsJdec | VoltageXmp
    | CorsairVersion | GskillStickerCode | CrucialStickerSuffix | HynixEighth

  /** The rule key of each constraint. */
  function KeyOf(c: Constraint): string
  {
    match c
    case Generation => "generation"
    case Manufacturer => "manufacturer"
    case DramMfg => "dram_mfg"
    case ModuleGb => "module_gb"
    case ModuleRanks => "module_ranks"
    case ChipOrg => "chip_org"
    case PartNumberContains => "part_number_contains"
    case PartNumberExact => "part_number_exact"
    case TimingsXmp => "timings_xmp"
    case TimingsJdec => "timings_jdec"
    case VoltageXmp => "voltage_xmp"
    case CorsairVersion => "corsair_version"
    case GskillStickerCode => "gskill_sticker_code"
    case CrucialStickerSuffix => "crucial_sticker_suffix"
    case HynixEighth => "hynix_ic_parse_8th"
  }

  /** The record field each constraint reads; the Hynix check reads the normalised IC part number first. */
  function FieldOf(c: Constraint): string
  {
    match c
    case Generation => "generation"
    case Manufacturer => "manufacturer"
    case DramMfg => "dram_mfg"
    case ModuleGb => "module_gb"
    case ModuleRanks => "module_ranks"
    case ChipOrg => "chip_org"
    case PartNumberContains => "module_part_number"
    case PartNumberExact => "module_part_number"
    case TimingsXmp => "timings_xmp"
    case TimingsJdec => "timings_jdec"
    case VoltageXmp => "voltage_xmp"
    case CorsairVersion => "corsair_version"
    case GskillStickerCode => "gskill_sticker_code"
    case CrucialStickerSuffix => "crucial_sticker_suffix"
    case HynixEighth => "hynix_ic_part_number"
  }

  /** str(v).lower(), where str() is modelled. */
  function LowerStr(v: Json): Option<string>
  {
    match PyStr(v)
    case None => None
    case Some(s) => Some(Lower(s))
  }

  /** `str(expected).lower() in str(dimm.get(key, "")).lower()`. */
  predicate ContainsIgnoringCase(dimm: Record, key: string, expected: Json)
    ensures expected.Str? && Get(dimm, key) == expected ==> ContainsIgnoringCase(dimm, key, expected)
    ensures key !in dimm ==> (ContainsIgnoringCase(dimm, key, expected) <==> LowerStr(expected) == Some(""))
  {
    ContainsSelf();
    var e := LowerStr(expected);
    var a := LowerStr(GetOr(dimm, key, Str("")));
    e.Some? && a.Some? && Contains(a.value, e.value)
  }

  /** `isinstance(actual, str) and actual.lower() == str(expected).lower()` for actual = dimm.get(key). */
  predicate EqualsIgnoringCase(dimm: Record, key: string, expected: Json)
    ensures EqualsIgnoringCase(dimm, key, expected) ==> key in dimm && dimm[key].Str?
    ensures expected.Str? && Get(dimm, key) == expected ==> EqualsIgnoringCase(dimm, key, expected)
  {
    var a := Get(dimm, key);
    var e := LowerStr(expected);
    a.Str? && e.Some? && Lower(a.s) == e.value
  }

  /** module_gb: present, and equal to the rule's value once both go through float(). */
  predicate CapacityEquals(dimm: Record, expected: Json)
    ensures CapacityEquals(dimm, expected) ==> "module_gb" in dimm
    ensures !expected.Null? && PyFloat(expected).Some? && Get(dimm, "module_gb") == expected ==> CapacityEquals(dimm, expected)
    ensures forall n: nat :: Get(dimm, "module_gb") == Str(NatToString(n)) && expected == Int(n) ==> CapacityEquals(dimm, expected)
  {
    var a := Get(dimm, "module_gb");
    !a.Null? && PyFloat(a).Some? && PyFloat(expected).Some? && PyFloat(a).value == PyFloat(expected).value
  }

  /** timings_xmp: equal to, or containing, str() of the rule's value. */
  predicate XmpTimingsMatch(dimm: Record, expected: Json)
    ensures XmpTimingsMatch(dimm, expected) <==>
      && PyStr(expected).Some? && PyStr(GetOr(dimm, "timings_xmp", Str(""))).Some?
      && Contains(PyStr(GetOr(dimm, "timings_xmp", Str(""))).value, PyStr(expected).value)
    ensures expected.Str? && Get(dimm, "timings_xmp") == expected ==> XmpTimingsMatch(dimm, expected)
  {
    ContainsSelf();
    var e := PyStr(expected);
    var a := PyStr(GetOr(dimm, "timings_xmp", Str("")));
    e.Some? && a.Some? && (a.value == e.value || Contains(a.value, e.value))
  }

  /** timings_jdec: a string equal to str() of the rule's value. */
  predicate JedecTimingsEqual(dimm: Record, expected: Json)
    ensures JedecTimingsEqual(dimm, expected) ==>
      "timings_jdec" in dimm && PyStr(expected).Some? && dimm["timings_jdec"] == Str(PyStr(expected).value)
    ensures expected.Str? && Get(dimm, "timings_jdec") == expected ==> JedecTimingsEqual(dimm, expected)
  {
    var a := Get(dimm, "timings_jdec");
    var e := PyStr(expected);
    a.Str? && e.Some? && a.s == e.value
  }

  /** voltage_xmp: present, and equal to the rule's value once both go through str(). */
  predicate XmpVoltageEqual(dimm: Record, expected: Json)
    ensures XmpVoltageEqual(dimm, expected) ==> "voltage_xmp" in dimm
    ensures !expected.Null? && PyStr(expected).Some? && Get(dimm, "voltage_xmp") == expected ==> XmpVoltageEqual(dimm, expected)
  {
    var a := Get(dimm, "voltage_xmp");
    !a.Null? && PyStr(a).Some? && PyStr(expected).Some? && PyStr(a).value == PyStr(expected).value
  }

  /** corsair_version: a rule value ending in "." is a prefix, any other must be equal. */
  predicate CorsairVersionMatches(dimm: Record, expected: Json)
    ensures CorsairVersionMatches(dimm, expected) ==>
      PyStr(expected).Some? && PyStr(GetOr(dimm, "corsair_version", Str(""))).Some?
      && StartsWith(PyStr(GetOr(dimm, "corsair_version", Str(""))).value, PyStr(expected).value)
    ensures expected.Str? && Get(dimm, "corsair_version") == expected ==> CorsairVersionMatches(dimm, expected)
  {
    var e := PyStr(expected);
    var a := PyStr(GetOr(dimm, "corsair_version", Str("")));
    e.Some? && a.Some? && (if EndsWith(e.value, ".") then StartsWith(a.value, e.value) else a.value == e.value)
  }

  /** The IC part number: the first truthy of the normalised key and the two raw spellings. */
  function HynixIc(dimm: Record): (r: Json)
    ensures r in [Get(dimm, "hynix_ic_part_number"), Get(dimm, "Hynix IC Part Number"), Get(dimm, "hynix_ic_pn")]
    ensures Truthy(Get(dimm, "hynix_ic_part_number")) ==> r == dimm["hynix_ic_part_number"]
    ensures Truthy(r) <==>
      Truthy(Get(dimm, "hynix_ic_part_number")) || Truthy(Get(dimm, "Hynix IC Part Number")) || Truthy(Get(dimm, "hynix_ic_pn"))
  {
    var vs := [Get(dimm, "hynix_ic_part_number"), Get(dimm, "Hynix IC Part Number"), Get(dimm, "hynix_ic_pn")];
    assert Truthy(vs[0]) || Truthy(vs[1]) || Truthy(vs[2]) <==> exists k :: 0 <= k < |vs| && Truthy(vs[k]);
    FirstTruthy(vs)
  }

  /** hynix_ic_parse_8th: the IC string has an 8th character, equal to the rule's value ignoring case. */
  predicate HynixEighthMatches(dimm: Record, expected: Json)
    ensures HynixEighthMatches(dimm, expected) ==>
      PyStr(expected).Some? && |PyStr(expected).value| == 1 && HynixIc(dimm).Str? && |HynixIc(dimm).s| >= 8
  {
    var e := PyStr(expected);
    var ic := HynixIc(dimm);
    e.Some? && ic.Str? && |ic.s| >= 8 && [UpperChar(ic.s[7])] == Upper(e.value)
  }

  /** Whether the record satisfies constraint c with the rule's value `expected`. */
  predicate Holds(dimm: Record, c: Constraint, expected: Json)
    ensures c != ModuleGb && c != HynixEighth && expected.Str? && Get(dimm, FieldOf(c)) == expected ==> Holds(dimm, c, expected)
  {
    match c
    case Generation => PyEq(Get(dimm, "generation"), expected)
    case Manufacturer => ContainsIgnoringCase(dimm, "manufacturer", expected)
    case DramMfg => EqualsIgnoringCase(dimm, "dram_mfg", expected)
    case ModuleGb => CapacityEquals(dimm, expected)
    case ModuleRanks => PyEq(Get(dimm, "module_ranks"), expected)
    case ChipOrg => PyEq(Get(dimm, "chip_org"), expected)
    case PartNumberContains => ContainsIgnoringCase(dimm, "module_part_number", expected)
    case PartNumberExact => EqualsIgnoringCase(dimm, "module_part_number", expected)
    case TimingsXmp => XmpTimingsMatch(dimm, expected)
    case TimingsJdec => JedecTimingsEqual(dimm, expected)
    case VoltageXmp => XmpVoltageEqual(dimm, expected)
    case CorsairVersion => CorsairVersionMatches(dimm, expected)
    case GskillStickerCode => ContainsIgnoringCase(dimm, "gskill_sticker_code", expected)
    case CrucialStickerSuffix => EqualsIgnoringCase(dimm, "crucial_sticker_suffix", expected)
    case HynixEighth => HynixEighthMatches(dimm, expected)
  }

  /** Constraint c, if the rule carries it. */
  predicate Satisfies(dimm: Record, entry: Record, c: Constraint)
  {
    KeyOf(c) in entry ==> Holds(dimm, c, entry[KeyOf(c)])
  }

  /** The recognised constraints, in the order the source checks them. */
  const Constraints: seq<Constraint> := [
    Generation, Manufacturer, DramMfg, ModuleGb, ModuleRanks, ChipOrg,
    PartNumberContains, PartNumberExact, TimingsXmp, TimingsJdec, VoltageXmp,
    CorsairVersion, GskillStickerCode, CrucialStickerSuffix, HynixEighth]

  /** Every constraint of cs that the rule carries holds. */
  predicate AllSatisfied(dimm: Record, entry: Record, cs: seq<Constraint>)
  {
    cs == [] || (Satisfies(dimm, entry, cs[0]) && AllSatisfied(dimm, entry, cs[1..]))
  }

  /** is_match: the checks of the source, in its order, each applied only when the rule has its key. */
  predicate IsMatch(dimm: Record, entry: Record)
    ensures IsMatch(dimm, entry) <==> forall c :: c in Constraints ==> Satisfies(dimm, entry, c)
  {
    AllSatisfiedSpec(dimm, entry, Constraints);
    AllSatisfied(dimm, entry, Constraints)
  }

  lemma {:induction false} AllSatisfiedSpec(dimm: Record, entry: Record, cs: seq<Constraint>)
    ensures AllSatisfied(dimm, entry, cs) <==> forall c :: c in cs ==> Satisfies(dimm, entry, c)
  {
    if cs != [] {
      AllSatisfiedSpec(dimm, entry, cs[1..]);
      assert forall c :: c in cs <==> c == cs[0] || c in cs[1..];
    }
  }

  /** is_match is the AND of the recognised constraints the rule carries, and of nothing else. */
  lemma IsMatchIsConjunction(dimm: Record, entry: Record)
    ensures IsMatch(dimm, entry) <==> forall c :: Satisfies(dimm, entry, c)
  {
    AllSatisfiedSpec(dimm, entry, Constraints);
    forall c ensures c in Constraints {
      ConstraintListed(c);
    }
  }

  /** Every constraint is in the list. */
  lemma ConstraintListed(c: Constraint)
    ensures c in Constraints
  {
    match c
    case Generation => assert Constraints[0] == c;
    case Manufacturer => assert Constraints[1] == c;
    case DramMfg => assert Constraints[2] == c;
    case ModuleGb => assert Constraints[3] == c;
    case ModuleRanks => assert Constraints[4] == c;
    case ChipOrg => assert Constraints[5] == c;
    case PartNumberContains => assert Constraints[6] == c;
    case PartNumberExact => assert Constraints[7] == c;
    case TimingsXmp => assert Constraints[8] == c;
    case TimingsJdec => assert Constraints[9] == c;
    case VoltageXmp => assert Constraints[10] == c;
    case CorsairVersion => assert Constraints[11] == c;
    case GskillStickerCode => assert Constraints[12] == c;
    case CrucialStickerSuffix => assert Constraints[13] == c;
    case HynixEighth => assert Constraints[14] == c;
  }

  /** A key that names no constraint does not change whether a rule matches. */
  lemma UnknownKeyIgnored(dimm: Record, entry: Record, k: string, v: Json)
    requires forall c :: KeyOf(c) != k
    ensures IsMatch(dimm, entry[k := v]) == IsMatch(dimm, entry)
  {
    var e := entry[k := v];
    IsMatchIsConjunction(dimm, entry);
    IsMatchIsConjunction(dimm, e);
    forall c ensures Satisfies(dimm, e, c) <==> Satisfies(dimm, entry, c) {
      assert KeyOf(c) != k;
      assert KeyOf(c) in e <==> KeyOf(c) in entry;
      if KeyOf(c) in entry {
        assert e[KeyOf(c)] == entry[KeyOf(c)];
      }
    }
  }

  /** A rule that carries no constraint key matches every record. */
  lemma UnconstrainedRuleMatches(dimm: Record, entry: Record)
    requires forall c :: KeyOf(c) !in entry
    ensures IsMatch(dimm, entry)
  {
    IsMatchIsConjunction(dimm, entry);
  }

  /** A rule whose one key is that of constraint c0 matches exactly when c0 holds. */
  lemma SingleConstraintRule(dimm: Record, entry: Record, c0: Constraint)
    requires entry.Keys == {KeyOf(c0)}
    requires forall c :: c != c0 ==> KeyOf(c) != KeyOf(c0)
    ensures IsMatch(dimm, entry) <==> Holds(dimm, c0, entry[KeyOf(c0)])
  {
    IsMatchIsConjunction(dimm, entry);
    assert Satisfies(dimm, entry, c0) <==> Holds(dimm, c0, entry[KeyOf(c0)]);
  }

  /** Only the generation constraint reads the key "generation". */
  lemma GenerationKeyOnly()
    ensures forall c :: c != Generation ==> KeyOf(c) != "generation"
  {
  }

  /** Only the chip_org constraint reads the key "chip_org". */
  lemma ChipOrgKeyOnly()
    ensures forall c :: c != ChipOrg ==> KeyOf(c) != "chip_org"
  {
  }

  /** The generation check uses Python's ==, so a record's [1] satisfies a rule's [1.0]. */
  lemma NestedListMatches()
    ensures IsMatch(map["generation" := List([Int(1)])], map["generation" := List([Real(1.0)])])
  {
    var dimm, entry := map["generation" := List([Int(1)])], map["generation" := List([Real(1.0)])];
    PyEqNested();
    assert Holds(dimm, Generation, entry["generation"]);
    assert entry.Keys == {KeyOf(Generation)};
    GenerationKeyOnly();
    SingleConstraintRule(dimm, entry, Generation);
  }

  /** The chip_org check uses Python's == too, so a record's {"a": 1} satisfies a rule's {"a": 1.0}. */
  lemma NestedObjectMatches()
    ensures IsMatch(map["chip_org" := Object(map["a" := Int(1)])], map["chip_org" := Object(map["a" := Real(1.0)])])
  {
    var dimm, entry := map["chip_org" := Object(map["a" := Int(1)])], map["chip_org" := Object(map["a" := Real(1.0)])];
    PyEqNested();
    assert Holds(dimm, ChipOrg, entry["chip_org"]);
    assert entry.Keys == {KeyOf(ChipOrg)};
    ChipOrgKeyOnly();
    SingleConstraintRule(dimm, entry, ChipOrg);
  }

  /** The Hynix check compares the IC string's 8th character, ignoring case. */
  lemma HynixEighthExamples()
    ensures HynixEighthMatches(map["hynix_ic_part_number" := Str("H5CG48AGBDX018")], Str("g"))
    ensures !HynixEighthMatches(map["hynix_ic_part_number" := Str("H5CG48AGBDX018")], Str("B"))
    ensures !HynixEighthMatches(map["hynix_ic_part_number" := Str("H5CG48A")], Str("A"))
  {
    var d := map["hynix_ic_part_number" := Str("H5CG48AGBDX018")];
    assert Truthy(Get(d, "hynix_ic_part_number"));
    assert HynixIc(d) == Str("H5CG48AGBDX018");
    assert Upper("g") == "G";
    assert Upper("B") == "B";
    var short := map["hynix_ic_part_number" := Str("H5CG48A")];
    assert Truthy(Get(short, "hynix_ic_part_number"));
    assert HynixIc(short) == Str("H5CG48A");
  }

  /** A Corsair version ending in "." matches as a prefix, any other only exactly. */
  lemma CorsairVersionExamples()
    ensures CorsairVersionMatches(map["corsair_version" := Str("3.31")], Str("3."))
    ensures !CorsairVersionMatches(map["corsair_version" := Str("4.20")], Str("3."))
    ensures !CorsairVersionMatches(map["corsair_version" := Str("4.321")], Str("4.32"))
  {
    assert EndsWith("3.", ".");
    assert StartsWith("3.31", "3.");
    assert !StartsWith("4.20", "3.") by { assert "4.20"[..2][0] == '4'; }
    assert !EndsWith("4.32", ".") by { assert "4.32"[3..][0] == '2'; }
  }

  // ---------------------------------------------------------------- choosing the die type

  /** The rules of db that match, in database order. */
  function Matching(dimm: Record, db: seq<Rule>): (r: seq<Rule>)
    ensures |r| <= |db|
    ensures forall x :: x in r ==> x in db && IsMatch(dimm, x.fields)
  {
    if db == [] then []
    else
      var last := db[|db| - 1];
      assert forall x :: x in db[..|db| - 1] ==> x in db;
      Matching(dimm, db[..|db| - 1]) + (if IsMatch(dimm, last.fields) then [last] else [])
  }

  /** The matching rules are the rules of the database that match. */
  lemma {:induction false} MatchingMembers(dimm: Record, db: seq<Rule>)
    ensures forall x :: x in Matching(dimm, db) <==> x in db && IsMatch(dimm, x.fields)
  {
    if db != [] {
      var init, last := db[..|db| - 1], db[|db| - 1];
      MatchingMembers(dimm, init);
      assert db == init + [last];
      assert Matching(dimm, db) == Matching(dimm, init) + (if IsMatch(dimm, last.fields) then [last] else []);
      forall x ensures x in Matching(dimm, db) <==> x in db && IsMatch(dimm, x.fields) {
        assert x in db <==> x in init || x == last;
      }
    }
  }

  lemma {:induction false} MatchingNone(dimm: Record, db: seq<Rule>)
    requires forall x :: x in db ==> !IsMatch(dimm, x.fields)
    ensures Matching(dimm, db) == []
  {
    if db != [] {
      var init := db[..|db| - 1];
      assert forall x :: x in init ==> x in db;
      MatchingNone(dimm, init);
      assert db[|db| - 1] in db;
    }
  }

  /** The highest priority in a non-empty list of rules. */
  function MaxPriority(s: seq<Rule>): (p: int)
    requires s != []
    ensures exists x :: x in s && x.priority == p
    ensures forall x :: x in s ==> x.priority <= p
  {
    if |s| == 1 then s[0].priority
    else
      var q := MaxPriority(s[..|s| - 1]);
      assert forall x :: x in s ==> x in s[..|s| - 1] || x == s[|s| - 1];
      if s[|s| - 1].priority > q then s[|s| - 1].priority else q
  }

  /** The matching rules of the highest matching priority, in database order. */
  function BestMatches(dimm: Record, db: seq<Rule>): (r: seq<Rule>)
    ensures r == [] <==> forall x :: x in db ==> !IsMatch(dimm, x.fields)
  {
    var m := Matching(dimm, db);
    MatchingMembers(dimm, db);
    if m == [] then []
    else
      assert m[0] in m;
      AtPriorityMembers(m, MaxPriority(m));
      AtPriority(m, MaxPriority(m))
  }

  lemma {:induction false} AtPriorityMembers(s: seq<Rule>, p: int)
    ensures forall x :: x in AtPriority(s, p) <==> x in s && x.priority == p
  {
    if s != [] {
      AtPriorityMembers(s[1..], p);
      assert forall x :: x in s <==> x == s[0] || x in s[1..];
    }
  }

  /**
   * A rule is among the best matches exactly when it matches and no matching rule
   * has a higher priority.
   */
  lemma BestMatchesSpec(dimm: Record, db: seq<Rule>, x: Rule)
    ensures x in BestMatches(dimm, db) <==>
      x in db && IsMatch(dimm, x.fields)
      && forall y :: y in db && IsMatch(dimm, y.fields) ==> y.priority <= x.priority
  {
    var m := Matching(dimm, db);
    MatchingMembers(dimm, db);
    if m != [] {
      AtPriorityMembers(m, MaxPriority(m));
    }
  }

  /** The best matches all share one priority. */
  lemma BestMatchesSamePriority(dimm: Record, db: seq<Rule>)
    ensures forall x, y :: x in BestMatches(dimm, db) && y in BestMatches(dimm, db) ==> x.priority == y.priority
  {
    var m := Matching(dimm, db);
    if m != [] {
      AtPriorityMembers(m, MaxPriority(m));
    }
  }

  lemma MatchingAppend(dimm: Record, db: seq<Rule>, x: Rule)
    ensures IsMatch(dimm, x.fields) ==> Matching(dimm, db + [x]) == Matching(dimm, db) + [x]
    ensures !IsMatch(dimm, x.fields) ==> Matching(dimm, db + [x]) == Matching(dimm, db)
  {
    assert (db + [x])[..|db|] == db;
    assert Matching(dimm, db) + [] == Matching(dimm, db);
  }

  lemma MaxPriorityAppend(m: seq<Rule>, x: Rule)
    requires m != []
    ensures MaxPriority(m + [x]) == if x.priority > MaxPriority(m) then x.priority else MaxPriority(m)
  {
    assert (m + [x])[..|m|] == m;
  }

  /** A rule that does not match changes nothing. */
  lemma AppendNonMatching(dimm: Record, db: seq<Rule>, x: Rule)
    requires !IsMatch(dimm, x.fields)
    ensures Matching(dimm, db + [x]) == Matching(dimm, db)
    ensures BestMatches(dimm, db + [x]) == BestMatches(dimm, db)
  {
    MatchingAppend(dimm, db, x);
  }

  lemma {:induction false} AtPriorityAbove(s: seq<Rule>, p: int)
    requires forall y :: y in s ==> y.priority < p
    ensures AtPriority(s, p) == []
  {
    if s != [] {
      assert forall y :: y in s[1..] ==> y in s;
      AtPriorityAbove(s[1..], p);
      assert s[0] in s;
    }
  }

  /** A matching rule above every earlier match becomes the only best match. */
  lemma AppendHigherPriority(dimm: Record, db: seq<Rule>, x: Rule)
    requires IsMatch(dimm, x.fields)
    requires Matching(dimm, db) == [] || x.priority > MaxPriority(Matching(dimm, db))
    ensures Matching(dimm, db + [x]) != [] && MaxPriority(Matching(dimm, db + [x])) == x.priority
    ensures BestMatches(dimm, db + [x]) == [x]
  {
    MatchingAppend(dimm, db, x);
    var m := Matching(dimm, db);
    var p := x.priority;
    assert AtPriority([x], p) == [x] by {
      assert [x][1..] == [];
    }
    if m == [] {
      assert m + [x] == [x];
    } else {
      MaxPriorityAppend(m, x);
      AtPriorityAppend(m, [x], p);
      AtPriorityAbove(m, p);
    }
  }

  /** A matching rule at the best priority joins the best matches, after them. */
  lemma AppendEqualPriority(dimm: Record, db: seq<Rule>, x: Rule)
    requires IsMatch(dimm, x.fields)
    requires Matching(dimm, db) != [] && x.priority == MaxPriority(Matching(dimm, db))
    ensures Matching(dimm, db + [x]) != [] && MaxPriority(Matching(dimm, db + [x])) == x.priority
    ensures BestMatches(dimm, db + [x]) == BestMatches(dimm, db) + [x]
  {
    MatchingAppend(dimm, db, x);
    var m := Matching(dimm, db);
    assert Matching(dimm, db + [x]) == m + [x];
    MaxPriorityAppend(m, x);
    assert BestMatches(dimm, db) == AtPriority(m, x.priority);
    assert BestMatches(dimm, db + [x]) == AtPriority(m + [x], x.priority);
    AtPriorityAppend(m, [x], x.priority);
    assert AtPriority([x], x.priority) == [x] by {
      assert [x][1..] == [];
    }
  }

  /** A matching rule below the best priority changes nothing. */
  lemma AppendLowerPriority(dimm: Record, db: seq<Rule>, x: Rule)
    requires IsMatch(dimm, x.fields)
    requires Matching(dimm, db) != [] && x.priority < MaxPriority(Matching(dimm, db))
    ensures Matching(dimm, db + [x]) != [] && MaxPriority(Matching(dimm, db + [x])) == MaxPriority(Matching(dimm, db))
    ensures BestMatches(dimm, db + [x]) == BestMatches(dimm, db)
  {
    MatchingAppend(dimm, db, x);
    var m := Matching(dimm, db);
    var p := MaxPriority(m);
    MaxPriorityAppend(m, x);
    AtPriorityAppend(m, [x], p);
    assert AtPriority([x], p) == [];
  }

  /** Whatever its priority, a rule below some best match leaves the best matches as they were. */
  lemma AppendBelowBest(dimm: Record, db: seq<Rule>, x: Rule, y: Rule)
    requires y in BestMatches(dimm, db) && x.priority < y.priority
    ensures BestMatches(dimm, db + [x]) == BestMatches(dimm, db)
  {
    var m := Matching(dimm, db);
    assert m != [];
    AtPriorityMembers(m, MaxPriority(m));
    if IsMatch(dimm, x.fields) {
      AppendLowerPriority(dimm, db, x);
    } else {
      AppendNonMatching(dimm, db, x);
    }
  }

  // ---------------------------------------------------------------- resolving ties

  predicate StrictlySorted(s: seq<string>)
  {
    forall i, j :: 0 <= i < j < |s| ==> StrLess(s[i], s[j])
  }

  /** Inserts x into a strictly sorted list unless it is already there. */
  function InsertUnique(x: string, s: seq<string>): seq<string>
  {
    if s == [] then [x]
    else if x == s[0] then s
    else if StrLess(x, s[0]) then [x] + s
    else [s[0]] + InsertUnique(x, s[1..])
  }

  /** sorted(set(xs)). */
  function SortedDistinct(xs: seq<string>): seq<string>
  {
    if xs == [] then [] else InsertUnique(xs[|xs| - 1], SortedDistinct(xs[..|xs| - 1]))
  }

  lemma {:induction false} InsertUniqueSpec(x: string, s: seq<string>)
    requires StrictlySorted(s)
    ensures StrictlySorted(InsertUnique(x, s))
    ensures forall y :: y in InsertUnique(x, s) <==> y == x || y in s
  {
    if s == [] {
    } else if x == s[0] {
    } else if StrLess(x, s[0]) {
      var r := [x] + s;
      forall i, j | 0 <= i < j < |r| ensures StrLess(r[i], r[j]) {
        if i == 0 && j > 1 {
          StrLessTransitive(x, s[0], s[j - 1]);
        }
      }
    } else {
      InsertUniqueSpec(x, s[1..]);
      StrLessTotal(x, s[0]);
      var t := InsertUnique(x, s[1..]);
      var r := [s[0]] + t;
      assert forall y :: y in s <==> y == s[0] || y in s[1..];
      forall i, j | 0 <= i < j < |r| ensures StrLess(r[i], r[j]) {
        if i == 0 {
          assert r[j] in t;
        }
      }
    }
  }

  /** The die types are listed once each, in ascending order, and are exactly those of the input. */
  lemma {:induction false} SortedDistinctSpec(xs: seq<string>)
    ensures StrictlySorted(SortedDistinct(xs))
    ensures forall y :: y in SortedDistinct(xs) <==> y in xs
  {
    if xs != [] {
      var init := xs[..|xs| - 1];
      SortedDistinctSpec(init);
      InsertUniqueSpec(xs[|xs| - 1], SortedDistinct(init));
      assert forall y :: y in xs <==> y in init || y == xs[|xs| - 1];
    }
  }

  /** The head of a strictly sorted list precedes every other element. */
  lemma SortedHeadLeast(s: seq<string>, y: string)
    requires StrictlySorted(s) && y in s
    ensures y == s[0] || StrLess(s[0], y)
  {
    var i :| 0 <= i < |s| && s[i] == y;
  }

  /** Two strictly sorted lists with the same elements are equal: SortedDistinct is sorted(set(xs)). */
  lemma {:induction false} StrictlySortedUnique(a: seq<string>, b: seq<string>)
    requires StrictlySorted(a) && StrictlySorted(b)
    requires forall y :: y in a <==> y in b
    ensures a == b
    decreases |a|
  {
    assert a != [] ==> a[0] in b;
    assert b != [] ==> b[0] in a;
    if a != [] && b != [] {
      SortedHeadLeast(a, b[0]);
      SortedHeadLeast(b, a[0]);
      if a[0] != b[0] {
        StrLessAsymmetric(a[0], b[0]);
      }
      StrLessIrreflexive(a[0]);
      forall y ensures y in a[1..] <==> y in b[1..] {
        if y in a[1..] {
          var i :| 1 <= i < |a| && a[i] == y;
          assert y != a[0] && y in b;
          var k :| 0 <= k < |b| && b[k] == y;
          assert b[1..][k - 1] == y;
        }
        if y in b[1..] {
          var i :| 1 <= i < |b| && b[i] == y;
          assert y != b[0] && y in a;
          var k :| 0 <= k < |a| && a[k] == y;
          assert a[1..][k - 1] == y;
        }
      }
      StrictlySortedUnique(a[1..], b[1..]);
      assert a == [a[0]] + a[1..] && b == [b[0]] + b[1..];
    }
  }

  // ---------------------------------------------------------------- find_die_type

  /** What find_die_type returns: a die type and its notes (Python's None is Null). */
  datatype Verdict = Verdict(dieType: string, notes: Json)

  const NoMatchNote := "No heuristic match found in database."
  const AmbiguousPrefix := "Multiple matching heuristics at same priority: "

  /** The die types of the rules, in order. */
  function DieTypesOf(rules: seq<Rule>): (r: seq<string>)
    ensures |r| == |rules|
    ensures forall t :: t in r <==> exists x :: x in rules && x.dieType == t
  {
    if rules == [] then [] else [rules[0].dieType] + DieTypesOf(rules[1..])
  }

  /** The rule carries a note: a string with something besides whitespace. */
  predicate HasNote(x: Rule)
  {
    Get(x.fields, "notes").Str? && Strip(Get(x.fields, "notes").s) != ""
  }

  /** The notes of the rules that are strings with something besides whitespace, stripped, in order. */
  function NotesOf(rules: seq<Rule>): (r: seq<string>)
    ensures forall n :: n in r ==> n != "" && Strip(n) == n
  {
    if rules == [] then []
    else
      var init := NotesOf(rules[..|rules| - 1]);
      var note := Get(rules[|rules| - 1].fields, "notes");
      if note.Str? && Strip(note.s) != "" then
        StripIdempotent(note.s);
        init + [Strip(note.s)]
      else init
  }

  /** There are no notes exactly when no rule carries one. */
  lemma {:induction false} NotesOfEmpty(rules: seq<Rule>)
    ensures NotesOf(rules) == [] <==> forall x :: x in rules ==> !HasNote(x)
  {
    if rules != [] {
      var init := rules[..|rules| - 1];
      var last := rules[|rules| - 1];
      NotesOfEmpty(init);
      assert forall x :: x in rules <==> x in init || x == last;
      if HasNote(last) {
        assert |NotesOf(rules)| == |NotesOf(init)| + 1;
      } else {
        assert NotesOf(rules) == NotesOf(init);
      }
    }
  }

  /** The notes of rules that agree on the die type, joined by " | ", or None when there are none. */
  function CombinedNotes(rules: seq<Rule>): (r: Json)
    ensures r.Null? || r.Str?
    ensures r.Null? <==> forall x :: x in rules ==> !HasNote(x)
  {
    NotesOfEmpty(rules);
    var notes := NotesOf(rules);
    if notes == [] then Null else Str(Join(notes, " | "))
  }

  /** The answer find_die_type gives for the best matches. */
  function Resolve(best: seq<Rule>): (v: Verdict)
    ensures best != [] ==> v.dieType == "Ambiguous" || exists x :: x in best && x.dieType == v.dieType
  {
    if best == [] then Verdict("Unknown", Str(NoMatchNote))
    else if |best| == 1 then
      assert best[0] in best;
      Verdict(best[0].dieType, Get(best[0].fields, "notes"))
    else
      var types := SortedDistinct(DieTypesOf(best));
      SortedDistinctSpec(DieTypesOf(best));
      assert |types| == 1 ==> types[0] in types;
      if |types| == 1 then Verdict(types[0], CombinedNotes(best))
      else Verdict("Ambiguous", Str(AmbiguousPrefix + Join(types, ", ")))
  }

  /** Rules that all carry die type t have t as their only distinct die type. */
  lemma OneDistinctType(best: seq<Rule>, t: string)
    requires best != [] && forall x :: x in best ==> x.dieType == t
    ensures SortedDistinct(DieTypesOf(best)) == [t]
  {
    var ts := SortedDistinct(DieTypesOf(best));
    SortedDistinctSpec(DieTypesOf(best));
    assert best[0] in best;
    assert t in ts;
    if |ts| > 1 {
      assert ts[0] in ts && ts[1] in ts;
      StrLessIrreflexive(t);
    }
    assert ts[0] in ts;
  }

  /** Two best matches with different die types leave at least two distinct die types. */
  lemma TwoDistinctTypes(best: seq<Rule>, x: Rule, y: Rule)
    requires x in best && y in best && x.dieType != y.dieType
    ensures |SortedDistinct(DieTypesOf(best))| > 1
  {
    var ts := SortedDistinct(DieTypesOf(best));
    SortedDistinctSpec(DieTypesOf(best));
    assert x.dieType in ts && y.dieType in ts;
  }

  /** With no matching rule the verdict is Unknown with the fixed note. */
  lemma NoMatchIsUnknown(dimm: Record, db: seq<Rule>)
    requires forall x :: x in db ==> !IsMatch(dimm, x.fields)
    ensures Resolve(BestMatches(dimm, db)) == Verdict("Unknown", Str(NoMatchNote))
  {
    MatchingNone(dimm, db);
  }

  /** Best matches that agree on a die type give that die type, with their notes combined when there are several. */
  lemma UnanimousVerdict(best: seq<Rule>, t: string)
    requires best != [] && forall x :: x in best ==> x.dieType == t
    ensures Resolve(best).dieType == t
    ensures |best| > 1 ==> Resolve(best).notes == CombinedNotes(best)
  {
    OneDistinctType(best, t);
    assert best[0] in best;
  }

  /** Best matches that disagree give Ambiguous, listing every die type once, in ascending order. */
  lemma AmbiguousVerdict(best: seq<Rule>, x: Rule, y: Rule)
    requires x in best && y in best && x.dieType != y.dieType
    ensures Resolve(best).dieType == "Ambiguous"
    ensures exists ts ::
      && StrictlySorted(ts)
      && (forall t :: t in ts <==> exists z :: z in best && z.dieType == t)
      && Resolve(best).notes == Str(AmbiguousPrefix + Join(ts, ", "))
  {
    TwoDistinctTypes(best, x, y);
    SortedDistinctSpec(DieTypesOf(best));
    var i :| 0 <= i < |best| && best[i] == x;
    var j :| 0 <= j < |best| && best[j] == y;
    assert i != j;
  }

  /** The state the scan keeps after reading seen: the best priority so far and the best matches so far. */
  predicate ScanInvariant(dimm: Record, seen: seq<Rule>, best: seq<Rule>, bestPriority: Option<int>)
  {
    && (bestPriority.None? <==> Matching(dimm, seen) == [])
    && (bestPriority.Some? ==> bestPriority.value == MaxPriority(Matching(dimm, seen)))
    && best == BestMatches(dimm, seen)
  }

  /** Each branch of one scan step keeps the scan's state. */
  lemma ScanStep(dimm: Record, seen: seq<Rule>, x: Rule, best: seq<Rule>, bestPriority: Option<int>)
    requires ScanInvariant(dimm, seen, best, bestPriority)
    ensures !IsMatch(dimm, x.fields) ==> ScanInvariant(dimm, seen + [x], best, bestPriority)
    ensures IsMatch(dimm, x.fields) && (bestPriority.None? || x.priority > bestPriority.value) ==>
      ScanInvariant(dimm, seen + [x], [x], Some(x.priority))
    ensures IsMatch(dimm, x.fields) && bestPriority.Some? && x.priority == bestPriority.value ==>
      ScanInvariant(dimm, seen + [x], best + [x], bestPriority)
    ensures IsMatch(dimm, x.fields) && bestPriority.Some? && x.priority < bestPriority.value ==>
      ScanInvariant(dimm, seen + [x], best, bestPriority)
  {
    if !IsMatch(dimm, x.fields) {
      AppendNonMatching(dimm, seen, x);
    } else if bestPriority.None? || x.priority > bestPriority.value {
      AppendHigherPriority(dimm, seen, x);
    } else if x.priority == bestPriority.value {
      AppendEqualPriority(dimm, seen, x);
    } else {
      AppendLowerPriority(dimm, seen, x);
    }
  }


  /** The scan of find_die_type: the best priority among matching rules and the matches at it. */
  method ScanBest(dimm: Record, db: seq<Rule>) returns (best: seq<Rule>)
    ensures best == BestMatches(dimm, db)
  {
    best := [];
    var bestPriority: Option<int> := None;
    var i := 0;
    while i < |db|
      invariant 0 <= i <= |db|
      invariant ScanInvariant(dimm, db[..i], best, bestPriority)
    {
      var entry := db[i];
      ScanStep(dimm, db[..i], entry, best, bestPriority);
      assert db[..i + 1] == db[..i] + [entry];
      if IsMatch(dimm, entry.fields) {
        var priority := entry.priority;
        if bestPriority.None? || priority > bestPriority.value {
          bestPriority := Some(priority);
          best := [entry];
        } else if priority == bestPriority.value {
          best := best + [entry];
        }
      }
      i := i + 1;
    }
    assert db[..i] == db;
  }

  /** The notes loop of find_die_type. */
  method CollectNotes(best: seq<Rule>) returns (notes: Json)
    ensures notes == CombinedNotes(best)
  {
    var notesList: seq<string> := [];
    var j := 0;
    while j < |best|
      invariant 0 <= j <= |best|
      invariant notesList == NotesOf(best[..j])
    {
      var note := Get(best[j].fields, "notes");
      assert best[..j + 1][..j] == best[..j];
      assert best[..j + 1][j] == best[j];
      if note.Str? && Strip(note.s) != "" {
        notesList := notesList + [Strip(note.s)];
      }
      j := j + 1;
    }
    assert best[..j] == best;
    notes := if notesList == [] then Null else Str(Join(notesList, " | "));
  }

  /** find_die_type: the verdict for the best-priority matches of the database, scanned in order. */
  method FindDieType(dimm: Record, db: seq<Rule>) returns (dieType: string, notes: Json)
    ensures Verdict(dieType, notes) == Resolve(BestMatches(dimm, db))
  {
    var best := ScanBest(dimm, db);
    if best == [] {
      return "Unknown", Str(NoMatchNote);
    }
    if |best| == 1 {
      return best[0].dieType, Get(best[0].fields, "notes");
    }
    var dieTypes := SortedDistinct(DieTypesOf(best));
    if |dieTypes| == 1 {
      notes := CollectNotes(best);
      return dieTypes[0], notes;
    }
    return "Ambiguous", Str(AmbiguousPrefix + Join(dieTypes, ", "));
  }
}
