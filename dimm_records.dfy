/**
 * The raw DIMM records parse_output builds (ramsleuth_pkg/parser.py): string fields by
 * name, and the field names the parser writes under its own spelling.
 */
module DimmRecords {
  /** The two copies of parse_output: the package one, and the older one in ramsleuth.py. */
  datatype Dialect = Package | Legacy

  /** A raw record: a Python dict of str to str. */
  type Dimm = map<string, string>

  /** d.get(key, "") */
  function Field(d: Dimm, key: string): (r: string)
    ensures key !in d ==> r == ""
    ensures key in d ==> r == d[key]
  {
    if key in d then d[key] else ""
  }

  /** d.setdefault(key, ""): adds the key with an empty value only when it is missing. */
  function SetDefault(d: Dimm, key: string): (r: Dimm)
    ensures key in r && r.Keys == d.Keys + {key}
    ensures forall k :: k in d ==> r[k] == d[k]
    ensures key !in d ==> r[key] == ""
  {
    if key in d then d else d[key := ""]
  }

  const SlotKey := "slot"
  const GuessKey := "Guessing DIMM is in"
  const MalformedTimingsKey := "Additional JEDEC Timings malformed"
  const MalformedColumnsKey := "Malformed Line With Too Many Columns"
  const TimingsKey := "timings"

  /** The lower-cased labels matrix mode drops. */
  predicate IsNoiseLabel(lower: string)
  {
    lower == "noise" || lower == "random garbage line not using pipes at all" || lower == ""
  }

  /** The keys plain mode drops, compared exactly. */
  predicate IsPlainNoiseKey(key: string)
  {
    key == "Noise" || key == "Debug" || key == GarbageLabel
  }

  /** The pipe-less garbage line both modes drop. */
  const GarbageLabel := "Random garbage line not using pipes at all"

  /** What no returned record holds as a key: the "Noise" label, the garbage line and the blank label. */
  predicate NoNoise(d: Dimm)
    ensures (forall k :: k in d ==> k != "" && !IsPlainNoiseKey(k)) ==> NoNoise(d)
  {
    "Noise" !in d && GarbageLabel !in d && "" !in d
  }

  /** The field names matrix mode maps its labels to. */
  predicate IsMatrixKey(k: string)
  {
    || k == "module_gb" || k == "manufacturer" || k == "dram_mfg" || k == "module_part_number"
    || k == "generation" || k == "JEDEC_voltage" || k == "min_voltage" || k == "max_voltage"
    || k == "configured_voltage" || k == "configured_speed" || k == "module_ranks"
    || k == "SDRAM Device Width" || k == GuessKey || k == "JEDEC Timings"
    || k == MalformedTimingsKey || k == MalformedColumnsKey || k == "PMIC Manufacturer"
    || k == "Hynix IC Part Number"
  }

  /** The field names plain mode writes for the labels it recognises. */
  predicate IsPlainKey(k: string)
  {
    || k == "generation" || k == "manufacturer" || k == "dram_mfg" || k == "Module Capacity"
    || k == "module_gb" || k == "Ranks" || k == "module_ranks" || k == "SDRAM Device Width"
    || k == "JEDEC_voltage" || k == "min_voltage" || k == "max_voltage"
    || k == "configured_voltage" || k == "configured_speed" || k == "module_part_number"
    || k == "timings_xmp" || k == GuessKey
  }

  /** The names the slot fan-out and the final pass add. */
  predicate IsAddedKey(k: string)
  {
    k == SlotKey || k == MalformedTimingsKey || k == MalformedColumnsKey || k == TimingsKey
  }

  /** No matrix field name has the length of a noise label. */
  lemma MatrixKeyLengths(k: string)
    requires IsMatrixKey(k)
    ensures |k| != 0 && |k| != 5 && |k| != 42
  {
  }

  lemma PlainKeyNotNoise(k: string)
    requires IsPlainKey(k)
    ensures k != "Noise"
  {
  }

  lemma PlainKeyNotDebug(k: string)
    requires IsPlainKey(k)
    ensures k != "Debug"
  {
  }

  lemma PlainKeyNotGarbage(k: string)
    requires IsPlainKey(k)
    ensures k != "Random garbage line not using pipes at all" && k != ""
  {
  }

  /** No plain field name is a key plain mode drops, nor blank. */
  lemma PlainKeyClean(k: string)
    requires IsPlainKey(k)
    ensures !IsPlainNoiseKey(k) && k != ""
  {
    PlainKeyNotNoise(k);
    PlainKeyNotDebug(k);
    PlainKeyNotGarbage(k);
  }

  /** The added names are neither noise nor blank. */
  lemma AddedKeyClean(k: string)
    requires IsAddedKey(k)
    ensures !IsPlainNoiseKey(k) && k != "" && |k| != 5
  {
  }
}
