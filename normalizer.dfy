/**
 * The field normalisers of RamSleuth_DB.py: they turn the raw key/value pairs of a
 * decoded DIMM into the canonical fields that database rules constrain.
 */
module Normalizer {
  import opened Outcome
  import opened Text
  import opened Values

  // ---------------------------------------------------------------- XMP timings in a part number

  /** \d{4}-\d{2}-\d{2}-\d{2} matches at i. */
  predicate FullTimingAt(s: string, i: int)
  {
    0 <= i && i + 13 <= |s| && DigitsAt(s, i, i + 4) && s[i + 4] == '-' && DigitsAt(s, i + 5, i + 7)
    && s[i + 7] == '-' && DigitsAt(s, i + 8, i + 10) && s[i + 10] == '-' && DigitsAt(s, i + 11, i + 13)
  }

  /** \d{4}C\d{2} matches at i. */
  predicate SpeedClAt(s: string, i: int)
  {
    0 <= i && i + 7 <= |s| && DigitsAt(s, i, i + 4) && s[i + 4] == 'C' && DigitsAt(s, i + 5, i + 7)
  }

  /** The leftmost i >= from at which \d{4}-\d{2}-\d{2}-\d{2} matches. */
  function FullTimingFrom(s: string, from: nat): (r: Option<nat>)
    ensures r.Some? ==> from <= r.value && FullTimingAt(s, r.value)
    ensures r.Some? ==> forall j :: from <= j < r.value ==> !FullTimingAt(s, j)
    ensures r.None? ==> forall j :: from <= j ==> !FullTimingAt(s, j)
    decreases |s| - from
  {
    if from >= |s| then None
    else if FullTimingAt(s, from) then Some(from)
    else FullTimingFrom(s, from + 1)
  }

  /** The leftmost i >= from at which \d{4}C\d{2} matches. */
  function SpeedClFrom(s: string, from: nat): (r: Option<nat>)
    ensures r.Some? ==> from <= r.value && SpeedClAt(s, r.value)
    ensures r.Some? ==> forall j :: from <= j < r.value ==> !SpeedClAt(s, j)
    ensures r.None? ==> forall j :: from <= j ==> !SpeedClAt(s, j)
    decreases |s| - from
  {
    if from >= |s| then None
    else if SpeedClAt(s, from) then Some(from)
    else SpeedClFrom(s, from + 1)
  }

  /**
   * parse_xmp_from_part_number: the leftmost full timing group, else the leftmost
   * speed-C-latency group written "speed-CL", else None.
   */
  function XmpFromPartNumber(partNumber: string): (r: Option<string>)
    ensures (exists i :: FullTimingAt(partNumber, i)) ==>
      exists i :: FullTimingAt(partNumber, i) && (forall j :: 0 <= j < i ==> !FullTimingAt(partNumber, j))
        && r == Some(partNumber[i..i + 13])
    ensures (forall i :: !FullTimingAt(partNumber, i)) && (exists i :: SpeedClAt(partNumber, i)) ==>
      exists i :: SpeedClAt(partNumber, i) && (forall j :: 0 <= j < i ==> !SpeedClAt(partNumber, j))
        && r == Some(partNumber[i..i + 4] + "-" + partNumber[i + 5..i + 7])
    ensures r.None? <==> forall i :: !FullTimingAt(partNumber, i) && !SpeedClAt(partNumber, i)
  {
    if partNumber == "" then None
    else
      match FullTimingFrom(partNumber, 0)
      case Some(i) => Some(partNumber[i..i + 13])
      case None =>
        match SpeedClFrom(partNumber, 0)
        case Some(i) => Some(partNumber[i..i + 4] + "-" + partNumber[i + 5..i + 7])
        case None => None
  }

  // ---------------------------------------------------------------- single-field normalisers

  const Generations: set<string> := {"DDR1", "DDR2", "DDR3", "DDR4", "DDR5"}

  /** The generation a dash-free first word names; a bare "DDR" is DDR1. */
  function GenerationName(core: string): (r: Option<string>)
    ensures r.Some? ==> r.value in Generations
    ensures core in Generations ==> r == Some(core)
  {
    if core == "DDR" || core == "DDR1" then Some("DDR1")
    else if core in {"DDR2", "DDR3", "DDR4", "DDR5"} then Some(core)
    else None
  }

  /** The generation named by stripped, upper-cased text: its first word with dashes removed. */
  function GenerationOfText(s: string): Option<string>
  {
    if !StartsWith(s, "DDR") then None
    else
      assert LStrip(s) == s;
      GenerationName(RemoveChar(SplitWs(s)[0], '-'))
  }

  /** _normalize_generation: the generation the upper-cased, stripped str() of a truthy value names. */
  function NormalizeGeneration(v: Json): (r: Option<string>)
    ensures r.Some? ==> r.value in Generations && Truthy(v)
  {
    if !Truthy(v) then None
    else
      match PyStr(v)
      case None => None
      case Some(text) => GenerationOfText(Upper(Strip(text)))
  }

  /** _normalize_manufacturer: the stripped text, or None when it is empty. */
  function NormalizeManufacturer(value: Option<string>): (r: Option<string>)
    ensures r.Some? ==> r.value != "" && value.Some? && r.value == Strip(value.value)
  {
    match value
    case None => None
    case Some(s) => if Strip(s) == "" then None else Some(Strip(s))
  }

  /** _normalize_dram_mfg: vendor aliases for Hynix, Samsung, Micron and Nanya, else the stripped text. */
  function NormalizeDramMfg(value: Option<string>): (r: Option<string>)
    ensures value.Some? && Strip(value.value) != "" && Contains(Lower(Strip(value.value)), "hynix") ==> r == Some("SK Hynix")
    ensures r.Some? ==> r.value != "" && value.Some?
  {
    match value
    case None => None
    case Some(raw) =>
      var s := Strip(raw);
      if s == "" then None
      else
        var lower := Lower(s);
        if Contains(lower, "sk") && Contains(lower, "hynix") then Some("SK Hynix")
        else if Contains(lower, "hynix") then Some("SK Hynix")
        else if Contains(lower, "samsung") then Some("Samsung")
        else if Contains(lower, "micron") then Some("Micron")
        else if Contains(lower, "nanya") then Some("Nanya")
        else Some(s)
  }

  /**
   * The amount in ^\s*(\d+(?:\.\d+)?)\s*UNIT\s*$: a numeral at the start, then
   * optional whitespace, the unit, and nothing else but whitespace.
   */
  function UnitAmount(s: string, unit: string): Option<real>
  {
    var start := RunEnd(s, 0, IsSpace);
    match LeadingNumber(s[start..])
    case None => None
    case Some(num) =>
      var w := RunEnd(s, start + |num|, IsSpace);
      if RStrip(s[w..]) == unit then Some(NumeralValue(num)) else None
  }

  /** The capacity text rules of _parse_module_gb, on the stripped, upper-cased text. */
  function CapacityFromText(s: string): Option<real>
  {
    match UnitAmount(s, "MB")
    case Some(mb) => Some(mb / 1024.0)
    case None =>
      match UnitAmount(s, "GB")
      case Some(gb) => Some(gb)
      case None => if IsNumeral(s) then Some(NumeralValue(s)) else None
  }

  /** _parse_module_gb: a capacity in GB from a number, "<n> MB", "<n> GB" or a bare numeral. */
  function ParseModuleGb(v: Json): (r: Option<real>)
    ensures (v.Int? || v.Bool? || v.Real?) ==> r == NumValue(v)
    ensures v.Null? || v.List? || v.Object? ==> r.None?
  {
    match v
    case Str(raw) => if Upper(Strip(raw)) == "" then None else CapacityFromText(Upper(Strip(raw)))
    case Null => None
    case List(_) => None
    case Object(_) => None
    case _ => NumValue(v)
  }

  /** `int(x) if x.is_integer() else x`. */
  function CapacityValue(x: real): (r: Json)
    ensures r.Int? || r.Real?
    ensures NumValue(r) == Some(x)
    ensures r.Real? <==> !IsWhole(x)
  {
    if IsWhole(x) then Int(x.Floor) else Real(x)
  }

  /** _normalize_module_ranks: "<digit>R" kept, SINGLE/DUAL/QUAD words, a bare number gets an "R". */
  function NormalizeModuleRanks(v: Json): (r: Option<string>)
    ensures r.Some? ==> |r.value| >= 2 && r.value[|r.value| - 1] == 'R' && IsDigitString(r.value[..|r.value| - 1])
  {
    if !Truthy(v) then None
    else
      match PyStr(v)
      case None => None
      case Some(text) =>
        var s := Upper(Strip(text));
        if s == "" then None
        else if |s| == 2 && IsDigit(s[0]) && s[1] == 'R' then
          assert s[..1] == [s[0]];
          Some(s)
        else if s == "SINGLE" || s == "SINGLE RANK" then Some("1R")
        else if s == "DUAL" || s == "DUAL RANK" then Some("2R")
        else if s == "QUAD" || s == "QUAD RANK" then Some("4R")
        else if IsDigitString(s) then
          assert (s + "R")[..|s|] == s;
          Some(s + "R")
        else None
  }

  /** (\d+)\s*bits? matches at i. */
  predicate BitsAt(s: string, i: int)
  {
    0 <= i < |s| && IsDigit(s[i]) && BitsWordAt(s, RunEnd(s, RunEnd(s, i, IsDigit), IsSpace))
  }

  /** "bit" starts at j. */
  predicate BitsWordAt(s: string, j: nat)
  {
    j + 3 <= |s| && s[j] == 'b' && s[j + 1] == 'i' && s[j + 2] == 't'
  }

  /** The leftmost i >= from at which (\d+)\s*bits? matches. */
  function BitsFrom(s: string, from: nat): (r: Option<nat>)
    ensures r.Some? ==> from <= r.value && BitsAt(s, r.value)
    ensures r.Some? ==> forall j :: from <= j < r.value ==> !BitsAt(s, j)
    ensures r.None? ==> forall j :: from <= j ==> !BitsAt(s, j)
    decreases |s| - from
  {
    if from >= |s| then None
    else if BitsAt(s, from) then Some(from)
    else BitsFrom(s, from + 1)
  }

  /** _normalize_chip_org: "x<width>" from "<width> bits", or an "x<digits>" value as it is. */
  function NormalizeChipOrg(v: Json): (r: Option<string>)
    ensures r.Some? ==> |r.value| >= 2 && r.value[0] == 'x' && IsDigitString(r.value[1..])
  {
    if !Truthy(v) then None
    else
      match PyStr(v)
      case None => None
      case Some(text) =>
        var s := Lower(Strip(text));
        if s == "" then None
        else
          match BitsFrom(s, 0)
          case Some(i) =>
            var digits := s[i..RunEnd(s, i, IsDigit)];
            assert ("x" + digits)[1..] == digits;
            Some("x" + digits)
          case None => if s[0] == 'x' && IsDigitString(s[1..]) then Some(s) else None
  }

  /** str(v).strip(), where str() is modelled. */
  function StrippedText(v: Json): Option<string>
  {
    match PyStr(v)
    case None => None
    case Some(t) => Some(Strip(t))
  }

  /** _extract_first_str: the first key holding a truthy value whose stripped text is non-empty. */
  function ExtractFirstStr(d: Record, keys: seq<string>): (r: Option<string>)
    ensures r.Some? ==> r.value != "" && exists k :: k in keys && k in d && Truthy(d[k]) && StrippedText(d[k]) == r
  {
    if keys == [] then None
    else
      var k := keys[0];
      if k in d && Truthy(d[k]) && StrippedText(d[k]).Some? && StrippedText(d[k]).value != "" then
        StrippedText(d[k])
      else ExtractFirstStr(d, keys[1..])
  }

  /** The voltage_xmp rule: str() of a number; else the leading numeral of the text, else the text. */
  function NormalizeVoltageXmp(src: Json): (r: Option<string>)
    ensures r.Some? ==> r.value != "" && !src.Null?
  {
    if src.Null? then None
    else if src.Int? || src.Bool? || src.Real? then
      match PyStr(src)
      case None => None
      case Some(t) => if t != "" then Some(t) else None
    else
      match PyStr(src)
      case None => None
      case Some(t) =>
        var s := Strip(t);
        match LeadingNumber(s)
        case Some(num) => Some(num)
        case None => if s != "" then Some(s) else None
  }

  /** The voltage_jdec rule: float() of a number, else the float of the leading numeral of the text. */
  function NormalizeVoltageJdec(src: Json): (r: Option<real>)
    ensures NumValue(src).Some? ==> r == NumValue(src)
    ensures r.Some? ==> !src.Null?
  {
    if src.Null? then None
    else if NumValue(src).Some? then NumValue(src)
    else
      match PyStr(src)
      case None => None
      case Some(t) =>
        match LeadingNumber(Strip(t))
        case Some(num) => Some(NumeralValue(num))
        case None => None
  }

  // ---------------------------------------------------------------- normalize_dimm_data

  const ManufacturerKeys: seq<string> := ["Module Manufacturer", "Manufacturer", "manufacturer", "Brand", "Module Vendor"]
  const DramMfgKeys: seq<string> := ["DRAM Manufacturer", "DRAM MFG", "IC Manufacturer", "dram_mfg"]
  const CapacityKeys: seq<string> := ["module_gb", "Module Capacity", "Module Capacity (MB)", "Size", "Module Size"]
  const RankKeys: seq<string> := ["module_ranks", "Ranks", "Rank", "rank", "Module Ranks"]
  const ChipOrgKeys: seq<string> := ["chip_org", "SDRAM Device Width", "Chip Organization", "Organization"]
  const PartNumberKeys: seq<string> := ["Part Number", "Module Part Number", "module_part_number", "PartNumber", "P/N"]
  const StickerKeys: seq<string> := ["gskill_sticker_code", "corsair_version", "crucial_sticker_suffix", "hynix_ic_part_number"]
  const JedecTimingKeys: seq<string> := ["timings_jdec", "timings_jedec", "JEDEC Timings"]
  const XmpVoltageKeys: seq<string> := ["voltage_xmp", "XMP Voltage", "Voltage XMP"]
  const JedecVoltageKeys: seq<string> := ["JEDEC_voltage", "Module Nominal Voltage", "Nominal Voltage"]

  /** Every key normalize_dimm_data can emit. */
  const NormalizedKeys: set<string> := {
    "generation", "manufacturer", "dram_mfg", "module_gb", "module_ranks", "chip_org",
    "module_part_number", "gskill_sticker_code", "corsair_version", "crucial_sticker_suffix",
    "hynix_ic_part_number", "timings_xmp", "timings_jdec", "voltage_xmp", "voltage_jdec"
  }

  /** Python's `a or b` on two optional non-empty strings. */
  function OrElse(a: Option<string>, b: Option<string>): Option<string>
  {
    if a.Some? then a else b
  }

  function GenerationOf(d: Record): Option<string>
  {
    OrElse(NormalizeGeneration(Get(d, "generation")),
      OrElse(NormalizeGeneration(Get(d, "Memory Type")), NormalizeGeneration(Get(d, "DRAM Generation"))))
  }

  function PartNumberOf(d: Record): Option<string>
  {
    ExtractFirstStr(d, PartNumberKeys)
  }

  function ModuleGbOf(d: Record): Option<Json>
  {
    match ParseModuleGb(GetFirst(d, CapacityKeys))
    case None => None
    case Some(x) => Some(CapacityValue(x))
  }

  /** The sticker loop: a truthy value whose stripped text is non-empty. */
  function StickerOf(d: Record, key: string): Option<string>
  {
    if key in d && Truthy(d[key]) && PyStr(d[key]).Some? && Strip(PyStr(d[key]).value) != "" then
      Some(Strip(PyStr(d[key]).value))
    else None
  }

  /** timings_xmp: the record's own value stripped, else the timings in the part number. */
  function TimingsXmpOf(d: Record): Option<string>
  {
    var own := Get(d, "timings_xmp");
    var s := if Truthy(own) then (match PyStr(own) case None => None case Some(t) => Some(Strip(t)))
             else (match PartNumberOf(d) case None => None case Some(pn) => XmpFromPartNumber(pn));
    if s.Some? && s.value != "" then s else None
  }

  function TimingsJdecOf(d: Record): Option<string>
  {
    var src := GetFirst(d, JedecTimingKeys);
    if Truthy(src) && PyStr(src).Some? && Strip(PyStr(src).value) != "" then Some(Strip(PyStr(src).value)) else None
  }

  /** The entry for key in a dict, if any. */
  function Field(d: Record, key: string): Option<Json>
  {
    if key in d then Some(d[key]) else None
  }

  function AsStr(o: Option<string>): Option<Json>
  {
    match o
    case None => None
    case Some(s) => Some(Str(s))
  }

  function AsReal(o: Option<real>): Option<Json>
  {
    match o
    case None => None
    case Some(x) => Some(Real(x))
  }

  /** One of the sticker keys, written out. */
  predicate IsStickerKey(k: string)
  {
    k == "gskill_sticker_code" || k == "corsair_version" || k == "crucial_sticker_suffix" || k == "hynix_ic_part_number"
  }

  /** The entry for sticker key k after the loop: the sticker text if there is one, else what d held. */
  function StickerUpdate(dimm: Record, d: Record, k: string): Option<Json>
  {
    if StickerOf(dimm, k).Some? then AsStr(StickerOf(dimm, k)) else Field(d, k)
  }

  function PutOpt(d: Record, key: string, value: Option<Json>): Record
  {
    if value.Some? then d[key := value.value] else d
  }

  /** d after the sticker loop of normalize_dimm_data has run over keys. */
  function WithStickers(dimm: Record, d: Record, keys: seq<string>): Record
  {
    if keys == [] then d
    else
      var last := keys[|keys| - 1];
      PutOpt(WithStickers(dimm, d, keys[..|keys| - 1]), last, AsStr(StickerOf(dimm, last)))
  }

  /** The loop sets exactly the listed keys that hold a usable sticker value, and leaves every other entry alone. */
  lemma {:induction false} WithStickersField(dimm: Record, d: Record, keys: seq<string>, k: string)
    ensures Field(WithStickers(dimm, d, keys), k) == if k in keys then StickerUpdate(dimm, d, k) else Field(d, k)
  {
    if keys != [] {
      WithStickersField(dimm, d, keys[..|keys| - 1], k);
      assert keys == keys[..|keys| - 1] + [keys[|keys| - 1]];
    }
  }

  /** The loop over the four sticker keys, key by key. */
  lemma StickerLoopFields(dimm: Record, d: Record)
    ensures Field(WithStickers(dimm, d, StickerKeys), "gskill_sticker_code") == StickerUpdate(dimm, d, "gskill_sticker_code")
    ensures Field(WithStickers(dimm, d, StickerKeys), "corsair_version") == StickerUpdate(dimm, d, "corsair_version")
    ensures Field(WithStickers(dimm, d, StickerKeys), "crucial_sticker_suffix") == StickerUpdate(dimm, d, "crucial_sticker_suffix")
    ensures Field(WithStickers(dimm, d, StickerKeys), "hynix_ic_part_number") == StickerUpdate(dimm, d, "hynix_ic_part_number")
    ensures forall k :: !IsStickerKey(k) ==> Field(WithStickers(dimm, d, StickerKeys), k) == Field(d, k)
  {
    WithStickersField(dimm, d, StickerKeys, "gskill_sticker_code");
    WithStickersField(dimm, d, StickerKeys, "corsair_version");
    WithStickersField(dimm, d, StickerKeys, "crucial_sticker_suffix");
    WithStickersField(dimm, d, StickerKeys, "hynix_ic_part_number");
    forall k | !IsStickerKey(k) ensures Field(WithStickers(dimm, d, StickerKeys), k) == Field(d, k) {
      WithStickersField(dimm, d, StickerKeys, k);
    }
  }

  /** The sticker loop of normalize_dimm_data: for each sticker key, a truthy value with non-empty stripped text is copied. */
  method PutStickers(dimm: Record, d: Record) returns (r: Record)
    ensures Field(r, "gskill_sticker_code") == StickerUpdate(dimm, d, "gskill_sticker_code")
    ensures Field(r, "corsair_version") == StickerUpdate(dimm, d, "corsair_version")
    ensures Field(r, "crucial_sticker_suffix") == StickerUpdate(dimm, d, "crucial_sticker_suffix")
    ensures Field(r, "hynix_ic_part_number") == StickerUpdate(dimm, d, "hynix_ic_part_number")
    ensures forall k {:trigger Field(r, k)} :: !IsStickerKey(k) ==> Field(r, k) == Field(d, k)
  {
    r := d;
    for i := 0 to |StickerKeys|
      invariant r == WithStickers(dimm, d, StickerKeys[..i])
    {
      assert StickerKeys[..i + 1][..i] == StickerKeys[..i];
      var key := StickerKeys[i];
      r := PutOpt(r, key, AsStr(StickerOf(dimm, key)));
    }
    assert StickerKeys[..|StickerKeys|] == StickerKeys;
    StickerLoopFields(dimm, d);
  }

  /** The value normalize_dimm_data derives for each canonical field other than the stickers, None where it emits nothing. */
  datatype Canonical = Canonical(
    generation: Option<Json>, manufacturer: Option<Json>, dramMfg: Option<Json>,
    moduleGb: Option<Json>, moduleRanks: Option<Json>, chipOrg: Option<Json>,
    partNumber: Option<Json>, timingsXmp: Option<Json>, timingsJdec: Option<Json>,
    voltageXmp: Option<Json>, voltageJdec: Option<Json>)

  function CanonicalOf(dimm: Record): Canonical
  {
    Canonical(
      AsStr(GenerationOf(dimm)),
      AsStr(NormalizeManufacturer(ExtractFirstStr(dimm, ManufacturerKeys))),
      AsStr(NormalizeDramMfg(ExtractFirstStr(dimm, DramMfgKeys))),
      ModuleGbOf(dimm),
      AsStr(NormalizeModuleRanks(GetFirst(dimm, RankKeys))),
      AsStr(NormalizeChipOrg(GetFirst(dimm, ChipOrgKeys))),
      AsStr(PartNumberOf(dimm)),
      AsStr(TimingsXmpOf(dimm)),
      AsStr(TimingsJdecOf(dimm)),
      AsStr(NormalizeVoltageXmp(GetFirst(dimm, XmpVoltageKeys))),
      AsReal(NormalizeVoltageJdec(GetFirst(dimm, JedecVoltageKeys))))
  }

  /** The generation, module manufacturer and DRAM manufacturer entries. */
  method PutIdentity(d: Record, c: Canonical) returns (r: Record)
    ensures Field(r, "generation") == if c.generation.Some? then c.generation else Field(d, "generation")
    ensures Field(r, "manufacturer") == if c.manufacturer.Some? then c.manufacturer else Field(d, "manufacturer")
    ensures Field(r, "dram_mfg") == if c.dramMfg.Some? then c.dramMfg else Field(d, "dram_mfg")
    ensures forall k {:trigger Field(r, k)} :: k != "generation" && k != "manufacturer" && k != "dram_mfg" ==> Field(r, k) == Field(d, k)
  {
    r := d;
    var generation := c.generation;
    if generation.Some? {
      r := r["generation" := generation.value];
    }
    var manufacturer := c.manufacturer;
    if manufacturer.Some? {
      r := r["manufacturer" := manufacturer.value];
    }
    var dramMfg := c.dramMfg;
    if dramMfg.Some? {
      r := r["dram_mfg" := dramMfg.value];
    }
  }

  /** The capacity, rank, chip organisation and part number entries. */
  method PutGeometry(d: Record, c: Canonical) returns (r: Record)
    ensures Field(r, "module_gb") == if c.moduleGb.Some? then c.moduleGb else Field(d, "module_gb")
    ensures Field(r, "module_ranks") == if c.moduleRanks.Some? then c.moduleRanks else Field(d, "module_ranks")
    ensures Field(r, "chip_org") == if c.chipOrg.Some? then c.chipOrg else Field(d, "chip_org")
    ensures Field(r, "module_part_number") == if c.partNumber.Some? then c.partNumber else Field(d, "module_part_number")
    ensures forall k {:trigger Field(r, k)} :: k != "module_gb" && k != "module_ranks" && k != "chip_org" && k != "module_part_number" ==> Field(r, k) == Field(d, k)
  {
    r := d;
    var moduleGb := c.moduleGb;
    if moduleGb.Some? {
      r := r["module_gb" := moduleGb.value];
    }
    var moduleRanks := c.moduleRanks;
    if moduleRanks.Some? {
      r := r["module_ranks" := moduleRanks.value];
    }
    var chipOrg := c.chipOrg;
    if chipOrg.Some? {
      r := r["chip_org" := chipOrg.value];
    }
    var modulePartNumber := c.partNumber;
    if modulePartNumber.Some? {
      r := r["module_part_number" := modulePartNumber.value];
    }
  }

  /** The timing and voltage entries. */
  method PutTimings(d: Record, c: Canonical) returns (r: Record)
    ensures Field(r, "timings_xmp") == if c.timingsXmp.Some? then c.timingsXmp else Field(d, "timings_xmp")
    ensures Field(r, "timings_jdec") == if c.timingsJdec.Some? then c.timingsJdec else Field(d, "timings_jdec")
    ensures Field(r, "voltage_xmp") == if c.voltageXmp.Some? then c.voltageXmp else Field(d, "voltage_xmp")
    ensures Field(r, "voltage_jdec") == if c.voltageJdec.Some? then c.voltageJdec else Field(d, "voltage_jdec")
    ensures forall k {:trigger Field(r, k)} :: k != "timings_xmp" && k != "timings_jdec" && k != "voltage_xmp" && k != "voltage_jdec" ==> Field(r, k) == Field(d, k)
  {
    r := d;
    var timingsXmp := c.timingsXmp;
    if timingsXmp.Some? {
      r := r["timings_xmp" := timingsXmp.value];
    }
    var timingsJdec := c.timingsJdec;
    if timingsJdec.Some? {
      r := r["timings_jdec" := timingsJdec.value];
    }
    var voltageXmp := c.voltageXmp;
    if voltageXmp.Some? {
      r := r["voltage_xmp" := voltageXmp.value];
    }
    var voltageJdec := c.voltageJdec;
    if voltageJdec.Some? {
      r := r["voltage_jdec" := voltageJdec.value];
    }
  }

  /** The entries assigned after the part number: the stickers, then the timings and voltages. */
  method PutTail(dimm: Record, d: Record, c: Canonical) returns (r: Record)
    ensures Field(r, "gskill_sticker_code") == StickerUpdate(dimm, d, "gskill_sticker_code")
    ensures Field(r, "corsair_version") == StickerUpdate(dimm, d, "corsair_version")
    ensures Field(r, "crucial_sticker_suffix") == StickerUpdate(dimm, d, "crucial_sticker_suffix")
    ensures Field(r, "hynix_ic_part_number") == StickerUpdate(dimm, d, "hynix_ic_part_number")
    ensures Field(r, "timings_xmp") == if c.timingsXmp.Some? then c.timingsXmp else Field(d, "timings_xmp")
    ensures Field(r, "timings_jdec") == if c.timingsJdec.Some? then c.timingsJdec else Field(d, "timings_jdec")
    ensures Field(r, "voltage_xmp") == if c.voltageXmp.Some? then c.voltageXmp else Field(d, "voltage_xmp")
    ensures Field(r, "voltage_jdec") == if c.voltageJdec.Some? then c.voltageJdec else Field(d, "voltage_jdec")
    ensures forall k {:trigger Field(r, k)} :: !IsTailKey(k) ==> Field(r, k) == Field(d, k)
  {
    r := PutStickers(dimm, d);
    r := PutTimings(r, c);
  }

  /** The keys assigned before the sticker loop. */
  predicate IsHeadKey(k: string)
  {
    k == "generation" || k == "manufacturer" || k == "dram_mfg" || k == "module_gb" || k == "module_ranks" || k == "chip_org" || k == "module_part_number"
  }

  /** The keys assigned from the sticker loop on. */
  predicate IsTailKey(k: string)
  {
    IsStickerKey(k) || k == "timings_xmp" || k == "timings_jdec" || k == "voltage_xmp" || k == "voltage_jdec"
  }

  /** No key assigned before the sticker loop is assigned again after it. */
  lemma HeadKeysNotTail()
    ensures !IsTailKey("generation")
    ensures !IsTailKey("manufacturer")
    ensures !IsTailKey("dram_mfg")
    ensures !IsTailKey("module_gb")
    ensures !IsTailKey("module_ranks")
    ensures !IsTailKey("chip_org")
    ensures !IsTailKey("module_part_number")
  {
  }

  /** No key assigned from the sticker loop on was assigned before it. */
  lemma TailKeysNotHead()
    ensures !IsHeadKey("gskill_sticker_code")
    ensures !IsHeadKey("corsair_version")
    ensures !IsHeadKey("crucial_sticker_suffix")
    ensures !IsHeadKey("hynix_ic_part_number")
    ensures !IsHeadKey("timings_xmp")
    ensures !IsHeadKey("timings_jdec")
    ensures !IsHeadKey("voltage_xmp")
    ensures !IsHeadKey("voltage_jdec")
  {
  }

  /** The entries assigned before the stickers, into an empty dict. */
  method PutHead(c: Canonical) returns (r: Record)
    ensures Field(r, "generation") == c.generation
    ensures Field(r, "manufacturer") == c.manufacturer
    ensures Field(r, "dram_mfg") == c.dramMfg
    ensures Field(r, "module_gb") == c.moduleGb
    ensures Field(r, "module_ranks") == c.moduleRanks
    ensures Field(r, "chip_org") == c.chipOrg
    ensures Field(r, "module_part_number") == c.partNumber
    ensures forall k {:trigger Field(r, k)} :: !IsHeadKey(k) ==> Field(r, k) == None
  {
    r := PutIdentity(map[], c);
    r := PutGeometry(r, c);
  }

  /** The dict normalize_dimm_data builds from the derived values, assigned in the source's order. */
  method BuildNormalized(dimm: Record, c: Canonical) returns (norm: Record)
    ensures Field(norm, "generation") == c.generation
    ensures Field(norm, "manufacturer") == c.manufacturer
    ensures Field(norm, "dram_mfg") == c.dramMfg
    ensures Field(norm, "module_gb") == c.moduleGb
    ensures Field(norm, "module_ranks") == c.moduleRanks
    ensures Field(norm, "chip_org") == c.chipOrg
    ensures Field(norm, "module_part_number") == c.partNumber
    ensures Field(norm, "gskill_sticker_code") == AsStr(StickerOf(dimm, "gskill_sticker_code"))
    ensures Field(norm, "corsair_version") == AsStr(StickerOf(dimm, "corsair_version"))
    ensures Field(norm, "crucial_sticker_suffix") == AsStr(StickerOf(dimm, "crucial_sticker_suffix"))
    ensures Field(norm, "hynix_ic_part_number") == AsStr(StickerOf(dimm, "hynix_ic_part_number"))
    ensures Field(norm, "timings_xmp") == c.timingsXmp
    ensures Field(norm, "timings_jdec") == c.timingsJdec
    ensures Field(norm, "voltage_xmp") == c.voltageXmp
    ensures Field(norm, "voltage_jdec") == c.voltageJdec
    ensures forall k {:trigger Field(norm, k)} :: !IsHeadKey(k) && !IsTailKey(k) ==> Field(norm, k) == None
  {
    HeadKeysNotTail();
    TailKeysNotHead();
    norm := PutHead(c);
    norm := PutTail(dimm, norm, c);
  }

  /**
   * normalize_dimm_data: a fresh dict holding, for each canonical field, the normalised
   * value its synonyms yield, and nothing for a field with no safe interpretation.
   * The input is a value and so is never changed.
   */
  method NormalizeDimmData(dimm: Record) returns (norm: Record)
    ensures Field(norm, "generation") == AsStr(GenerationOf(dimm))
    ensures Field(norm, "manufacturer") == AsStr(NormalizeManufacturer(ExtractFirstStr(dimm, ManufacturerKeys)))
    ensures Field(norm, "dram_mfg") == AsStr(NormalizeDramMfg(ExtractFirstStr(dimm, DramMfgKeys)))
    ensures Field(norm, "module_gb") == ModuleGbOf(dimm)
    ensures Field(norm, "module_ranks") == AsStr(NormalizeModuleRanks(GetFirst(dimm, RankKeys)))
    ensures Field(norm, "chip_org") == AsStr(NormalizeChipOrg(GetFirst(dimm, ChipOrgKeys)))
    ensures Field(norm, "module_part_number") == AsStr(PartNumberOf(dimm))
    ensures Field(norm, "gskill_sticker_code") == AsStr(StickerOf(dimm, "gskill_sticker_code"))
    ensures Field(norm, "corsair_version") == AsStr(StickerOf(dimm, "corsair_version"))
    ensures Field(norm, "crucial_sticker_suffix") == AsStr(StickerOf(dimm, "crucial_sticker_suffix"))
    ensures Field(norm, "hynix_ic_part_number") == AsStr(StickerOf(dimm, "hynix_ic_part_number"))
    ensures Field(norm, "timings_xmp") == AsStr(TimingsXmpOf(dimm))
    ensures Field(norm, "timings_jdec") == AsStr(TimingsJdecOf(dimm))
    ensures Field(norm, "voltage_xmp") == AsStr(NormalizeVoltageXmp(GetFirst(dimm, XmpVoltageKeys)))
    ensures Field(norm, "voltage_jdec") == AsReal(NormalizeVoltageJdec(GetFirst(dimm, JedecVoltageKeys)))
    ensures forall k {:trigger Field(norm, k)} :: !IsHeadKey(k) && !IsTailKey(k) ==> Field(norm, k) == None
  {
    norm := BuildNormalized(dimm, CanonicalOf(dimm));
  }

  // ---------------------------------------------------------------- properties of the normalisers

  /** "F4-3600C16D-16GTZ" holds no full timing group: there is no dash four places after any start. */
  lemma NoFullTimingInExample()
    ensures forall i :: !FullTimingAt("F4-3600C16D-16GTZ", i)
  {
    var s := "F4-3600C16D-16GTZ";
    forall i ensures !FullTimingAt(s, i) {
      if 0 <= i && i + 13 <= |s| {
        assert s[i + 4] != '-';
      }
    }
  }

  /** In "F4-3600C16D-16GTZ" the speed-CL group starts at index 3 and nowhere before. */
  lemma SpeedClInExample()
    ensures SpeedClAt("F4-3600C16D-16GTZ", 3)
    ensures forall j :: 0 <= j < 3 ==> !SpeedClAt("F4-3600C16D-16GTZ", j)
  {
    var s := "F4-3600C16D-16GTZ";
    assert !SpeedClAt(s, 0) && !SpeedClAt(s, 1) && !SpeedClAt(s, 2);
  }

  /** The documented example of parse_xmp_from_part_number. */
  lemma XmpPartNumberExample()
    ensures XmpFromPartNumber("F4-3600C16D-16GTZ") == Some("3600-16")
  {
    var s := "F4-3600C16D-16GTZ";
    NoFullTimingInExample();
    SpeedClInExample();
    assert FullTimingFrom(s, 0).None?;
    assert SpeedClFrom(s, 0) == Some(3);
    XmpExampleSlices();
    assert "3600" + "-" + "16" == "3600-16";
  }

  lemma XmpExampleSlices()
    ensures "F4-3600C16D-16GTZ"[3..7] == "3600" && "F4-3600C16D-16GTZ"[8..10] == "16"
  {
    var s := "F4-3600C16D-16GTZ";
    assert s[3] == '3' && s[4] == '6' && s[5] == '0' && s[6] == '0';
    assert s[8] == '1' && s[9] == '6';
  }

  /** A word with no whitespace and no dash is its own first word. */
  lemma GenerationOfWord(s: string)
    requires s != [] && StartsWith(s, "DDR")
    requires forall k :: 0 <= k < |s| ==> !IsSpace(s[k]) && s[k] != '-'
    ensures GenerationOfText(s) == GenerationName(s)
  {
    SplitWsWord(s);
    RemoveCharAbsent(s, '-');
  }

  /** A generation _normalize_generation emits is read back as itself. */
  lemma GenerationIdempotent(g: string)
    requires g in Generations
    ensures NormalizeGeneration(Str(g)) == Some(g)
  {
    assert |g| == 4 && g[..3] == "DDR" && '1' <= g[3] <= '5';
    StripTrimmed(g);
    assert Upper(g) == g;
    GenerationOfWord(g);
    assert Truthy(Str(g)) && PyStr(Str(g)) == Some(g);
    assert GenerationOfText(Upper(Strip(g))) == Some(g);
  }

  /** A bare "DDR" is taken as DDR1. */
  lemma GenerationBareDdr()
    ensures NormalizeGeneration(Str("DDR")) == Some("DDR1")
  {
    var s := "DDR";
    StripTrimmed(s);
    assert Upper(s) == s;
    GenerationOfWord(s);
    assert Truthy(Str(s)) && PyStr(Str(s)) == Some(s);
    assert GenerationOfText(Upper(Strip(s))) == Some("DDR1");
  }

  /** _normalize_manufacturer accepts its own output unchanged. */
  lemma ManufacturerIdempotent(value: Option<string>)
    requires NormalizeManufacturer(value).Some?
    ensures NormalizeManufacturer(NormalizeManufacturer(value)) == NormalizeManufacturer(value)
  {
    StripIdempotent(value.value);
  }

  lemma HynixNameFixed()
    ensures NormalizeDramMfg(Some("SK Hynix")) == Some("SK Hynix")
  {
    StripTrimmed("SK Hynix");
    assert Lower("SK Hynix") == "sk hynix";
    assert OccursAt("sk hynix", "sk", 0);
    assert OccursAt("sk hynix", "hynix", 3);
  }

  lemma SamsungNameFixed()
    ensures NormalizeDramMfg(Some("Samsung")) == Some("Samsung")
  {
    StripTrimmed("Samsung");
    assert Lower("Samsung") == "samsung";
    NotContainsFirstChar("samsung", "hynix");
    assert OccursAt("samsung", "samsung", 0);
  }

  lemma MicronNameFixed()
    ensures NormalizeDramMfg(Some("Micron")) == Some("Micron")
  {
    StripTrimmed("Micron");
    assert Lower("Micron") == "micron";
    NotContainsFirstChar("micron", "hynix");
    NotContainsFirstChar("micron", "samsung");
    assert OccursAt("micron", "micron", 0);
  }

  lemma NanyaNameFixed()
    ensures NormalizeDramMfg(Some("Nanya")) == Some("Nanya")
  {
    StripTrimmed("Nanya");
    assert Lower("Nanya") == "nanya";
    NotContainsFirstChar("nanya", "hynix");
    NotContainsFirstChar("nanya", "samsung");
    NotContainsFirstChar("nanya", "micron");
    assert OccursAt("nanya", "nanya", 0);
  }

  /** _normalize_dram_mfg accepts its own output unchanged: the vendor names are fixed points. */
  lemma DramMfgIdempotent(value: Option<string>)
    requires NormalizeDramMfg(value).Some?
    ensures NormalizeDramMfg(NormalizeDramMfg(value)) == NormalizeDramMfg(value)
  {
    var lower := Lower(Strip(value.value));
    if Contains(lower, "hynix") {
      HynixNameFixed();
    } else if Contains(lower, "samsung") {
      SamsungNameFixed();
    } else if Contains(lower, "micron") {
      MicronNameFixed();
    } else if Contains(lower, "nanya") {
      NanyaNameFixed();
    } else {
      StripIdempotent(value.value);
    }
  }

  /** "<digit>R" is already a normal rank count. */
  lemma RanksShortForm(w: string)
    requires |w| == 2 && IsDigit(w[0]) && w[1] == 'R'
    ensures NormalizeModuleRanks(Str(w)) == Some(w)
  {
    StripTrimmed(w);
    assert Upper(w) == w;
    assert Truthy(Str(w));
  }

  /** _normalize_module_ranks accepts its own single-digit output unchanged. */
  lemma RanksIdempotent(v: Json)
    requires NormalizeModuleRanks(v).Some? && |NormalizeModuleRanks(v).value| == 2
    ensures NormalizeModuleRanks(Str(NormalizeModuleRanks(v).value)) == NormalizeModuleRanks(v)
  {
    var w := NormalizeModuleRanks(v).value;
    assert w[..1] == [w[0]];
    RanksShortForm(w);
  }

  /** Without a 'b' there is no "bits" match. */
  lemma NoBitsWithoutB(s: string)
    requires 'b' !in s
    ensures BitsFrom(s, 0).None?
  {
    forall j | 0 <= j ensures !BitsAt(s, j) {
      if 0 <= j < |s| {
        var e := RunEnd(s, RunEnd(s, j, IsDigit), IsSpace);
        assert e < |s| ==> s[e] in s;
      }
    }
  }

  /** "x<digits>" is already a normal chip width. */
  lemma ChipOrgOfWidth(w: string)
    requires |w| >= 2 && w[0] == 'x' && IsDigitString(w[1..])
    ensures NormalizeChipOrg(Str(w)) == Some(w)
  {
    assert forall k :: 1 <= k < |w| ==> IsDigit(w[k]) by {
      forall k | 1 <= k < |w| ensures IsDigit(w[k]) {
        assert w[1..][k - 1] == w[k];
      }
    }
    StripTrimmed(w);
    assert Lower(w) == w;
    NoBitsWithoutB(w);
    assert Truthy(Str(w));
    assert PyStr(Str(w)) == Some(w);
  }

  /** _normalize_chip_org accepts its own output unchanged. */
  lemma ChipOrgIdempotent(v: Json)
    requires NormalizeChipOrg(v).Some?
    ensures NormalizeChipOrg(Str(NormalizeChipOrg(v).value)) == NormalizeChipOrg(v)
  {
    ChipOrgOfWidth(NormalizeChipOrg(v).value);
  }

  lemma DecimalExample()
    ensures DecimalValue("16384") == 16384
  {
    assert "16384"[..4] == "1638";
    assert "1638"[..3] == "163";
    assert "163"[..2] == "16";
    assert "16"[..1] == "1";
    assert "1"[..0] == "";
  }

  lemma NumeralExample()
    ensures NumeralValue("16384") == 16384.0
  {
    var n := "16384";
    assert RunEnd(n, 0, IsDigit) == 5;
    assert n[..5] == n;
    DecimalExample();
  }

  lemma UnitAmountExample()
    ensures UnitAmount("16384 MB", "MB") == Some(16384.0)
  {
    var s := "16384 MB";
    assert RunEnd(s, 0, IsSpace) == 0;
    assert s[0..] == s;
    assert RunEnd(s, 0, IsDigit) == 5;
    assert s[..5] == "16384";
    assert LeadingNumber(s) == Some("16384");
    assert RunEnd(s, 5, IsSpace) == 6;
    assert s[6..] == "MB";
    assert RStrip("MB") == "MB";
    NumeralExample();
  }

  /** A capacity of "16384 MB" is emitted as the integer 16. */
  lemma CapacityMbExample()
    ensures ModuleGbOf(map["module_gb" := Str("16384 MB")]) == Some(Int(16))
  {
    var d := map["module_gb" := Str("16384 MB")];
    var s := "16384 MB";
    assert Get(d, "module_gb") == Str(s);
    assert GetFirst(d, CapacityKeys) == Str(s);
    StripTrimmed(s);
    assert Upper(s) == s;
    UnitAmountExample();
    assert CapacityFromText(s) == Some(16.0);
    assert ParseModuleGb(Str(s)) == Some(16.0);
  }

  /** An emitted entry is never an empty string. */
  predicate NonEmptyText(o: Option<Json>)
  {
    o.Some? && o.value.Str? ==> o.value.s != ""
  }

  /** The generation normalize_dimm_data emits is one of DDR1..DDR5. */
  lemma GenerationValueNamed(dimm: Record)
    ensures GenerationOf(dimm).Some? ==> GenerationOf(dimm).value in Generations
  {
  }

  /** The identity entries normalize_dimm_data emits are non-empty text. */
  lemma IdentityValuesNonEmpty(dimm: Record)
    ensures NonEmptyText(AsStr(NormalizeManufacturer(ExtractFirstStr(dimm, ManufacturerKeys))))
    ensures NonEmptyText(AsStr(NormalizeDramMfg(ExtractFirstStr(dimm, DramMfgKeys))))
    ensures NonEmptyText(AsStr(PartNumberOf(dimm)))
  {
  }

  /** The geometry entries are non-empty text, and module_gb is an int or a float. */
  lemma GeometryValuesNonEmpty(dimm: Record)
    ensures ModuleGbOf(dimm).Some? ==> ModuleGbOf(dimm).value.Int? || ModuleGbOf(dimm).value.Real?
    ensures NonEmptyText(AsStr(NormalizeModuleRanks(GetFirst(dimm, RankKeys))))
    ensures NonEmptyText(AsStr(NormalizeChipOrg(GetFirst(dimm, ChipOrgKeys))))
  {
  }

  /** The sticker, timing and voltage entries are non-empty text. */
  lemma TimingValuesNonEmpty(dimm: Record)
    ensures forall k :: NonEmptyText(AsStr(StickerOf(dimm, k)))
    ensures NonEmptyText(AsStr(TimingsXmpOf(dimm)))
    ensures NonEmptyText(AsStr(TimingsJdecOf(dimm)))
    ensures NonEmptyText(AsStr(NormalizeVoltageXmp(GetFirst(dimm, XmpVoltageKeys))))
  {
  }
}
