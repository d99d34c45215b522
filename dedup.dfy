/**
 * The two record deduplications: deduplicate_dimms (ramsleuth_pkg/parser.py and
 * ramsleuth.py), keyed on (slot, part number, manufacturer), and the scan dedup of
 * perform_system_scan (ramsleuth_pkg/scanner.py, and main in ramsleuth.py), keyed on
 * (slot, part, manufacturer, generation), followed by the default slot names.
 */
module Dedup {
  import opened Text
  import opened DimmRecords

  /** The two dedup loops. */
  datatype Style = ByPart | ByScan

  /** A dedup key; deduplicate_dimms has no generation and leaves it empty. */
  datatype RecordKey = RecordKey(slot: string, part: string, mfg: string, gen: string)

  /** str(d.get(key, "")).strip().lower() */
  function KeyPart(d: Dimm, key: string): string
  {
    Lower(Strip(Field(d, key)))
  }

  /** The scan dedup reads the part number from "Part Number" when module_part_number is absent. */
  function ScanPart(d: Dimm): string
  {
    if "module_part_number" in d then KeyPart(d, "module_part_number") else KeyPart(d, "Part Number")
  }

  function KeyOf(d: Dimm, style: Style): RecordKey
  {
    match style
    case ByPart => RecordKey(KeyPart(d, SlotKey), KeyPart(d, "module_part_number"), KeyPart(d, "manufacturer"), "")
    case ByScan => RecordKey(KeyPart(d, SlotKey), ScanPart(d), KeyPart(d, "manufacturer"), KeyPart(d, "generation"))
  }

  /** not any(key) */
  predicate Blank(k: RecordKey)
  {
    k.slot == [] && k.part == [] && k.mfg == [] && k.gen == []
  }

  /** The key of every record. */
  function KeysOf(s: seq<Dimm>, style: Style): (keys: seq<RecordKey>)
    ensures |keys| == |s|
  {
    seq(|s|, i requires 0 <= i < |s| => KeyOf(s[i], style))
  }

  /** No record before position i has the key of record i. */
  predicate FirstOfKey(keys: seq<RecordKey>, i: nat)
    requires i < |keys|
  {
    forall j :: 0 <= j < i ==> keys[j] != keys[i]
  }

  /**
   * Whether record i survives: deduplicate_dimms keeps the first record of each key that
   * is not blank; the scan dedup keeps the first record of each key and every blank one.
   */
  predicate Kept(keys: seq<RecordKey>, i: nat, style: Style)
    requires i < |keys|
  {
    match style
    case ByPart => !Blank(keys[i]) && FirstOfKey(keys, i)
    case ByScan => Blank(keys[i]) || FirstOfKey(keys, i)
  }

  /** The surviving records, in input order. */
  function Picked(s: seq<Dimm>, keys: seq<RecordKey>, style: Style): seq<Dimm>
    requires |keys| == |s|
    decreases |s|
  {
    if s == [] then []
    else
      var n := |s| - 1;
      Picked(s[..n], keys[..n], style) + (if Kept(keys, n, style) then [s[n]] else [])
  }

  function Deduped(s: seq<Dimm>, style: Style): seq<Dimm>
  {
    Picked(s, KeysOf(s, style), style)
  }

  /** The positions of the surviving records. */
  function KeptPositions(keys: seq<RecordKey>, style: Style): seq<nat>
    decreases |keys|
  {
    if keys == [] then []
    else
      var n := |keys| - 1;
      KeptPositions(keys[..n], style) + (if Kept(keys, n, style) then [n] else [])
  }

  /** Whether a record survives depends on the records up to it only. */
  lemma KeptPrefix(keys: seq<RecordKey>, n: nat, i: nat, style: Style)
    requires i < n <= |keys|
    ensures Kept(keys[..n], i, style) == Kept(keys, i, style)
  {
    assert forall j :: 0 <= j <= i ==> keys[..n][j] == keys[j];
  }

  /** The positions are increasing, and a position is among them exactly when its record survives. */
  lemma {:induction false} KeptPositionsSpec(keys: seq<RecordKey>, style: Style)
    ensures var p := KeptPositions(keys, style);
      && (forall k :: 0 <= k < |p| ==> p[k] < |keys|)
      && (forall k, l :: 0 <= k < l < |p| ==> p[k] < p[l])
      && (forall i :: 0 <= i < |keys| ==> (i in p <==> Kept(keys, i, style)))
    decreases |keys|
  {
    if keys != [] {
      var n := |keys| - 1;
      KeptPositionsSpec(keys[..n], style);
      var p0 := KeptPositions(keys[..n], style);
      var p := KeptPositions(keys, style);
      assert forall k :: 0 <= k < |p0| ==> p[k] == p0[k];
      forall i | 0 <= i < n ensures (i in p <==> Kept(keys, i, style)) {
        KeptPrefix(keys, n, i, style);
        assert i in p <==> i in p0;
      }
    }
  }

  /** Position k of the result is the input record at the k-th surviving position. */
  lemma {:induction false} PickedAt(s: seq<Dimm>, keys: seq<RecordKey>, style: Style)
    requires |keys| == |s|
    ensures var p := KeptPositions(keys, style);
      && |p| == |Picked(s, keys, style)|
      && (forall k :: 0 <= k < |p| ==> p[k] < |s| && Picked(s, keys, style)[k] == s[p[k]])
    decreases |s|
  {
    KeptPositionsSpec(keys, style);
    if s != [] {
      var n := |s| - 1;
      PickedAt(s[..n], keys[..n], style);
      var p0 := KeptPositions(keys[..n], style);
      var p := KeptPositions(keys, style);
      assert forall k :: 0 <= k < |p0| ==> p[k] == p0[k];
    }
  }

  /**
   * The result is exactly the surviving records in input order: position k of the
   * result is input record p[k] for strictly increasing positions p, and an input
   * position is among them exactly when its record survives.
   */
  lemma PickedPositions(s: seq<Dimm>, keys: seq<RecordKey>, style: Style)
    requires |keys| == |s|
    ensures var p := KeptPositions(keys, style);
      && |p| == |Picked(s, keys, style)|
      && (forall k :: 0 <= k < |p| ==> p[k] < |s| && Picked(s, keys, style)[k] == s[p[k]])
      && (forall k, l :: 0 <= k < l < |p| ==> p[k] < p[l])
      && (forall i :: 0 <= i < |s| ==> (i in p <==> Kept(keys, i, style)))
  {
    KeptPositionsSpec(keys, style);
    PickedAt(s, keys, style);
  }

  lemma DedupedPositions(s: seq<Dimm>, style: Style)
    ensures var p := KeptPositions(KeysOf(s, style), style);
      && |p| == |Deduped(s, style)|
      && (forall k :: 0 <= k < |p| ==> p[k] < |s| && Deduped(s, style)[k] == s[p[k]])
      && (forall k, l :: 0 <= k < l < |p| ==> p[k] < p[l])
      && (forall i :: 0 <= i < |s| ==> (i in p <==> Kept(KeysOf(s, style), i, style)))
  {
    PickedPositions(s, KeysOf(s, style), style);
  }

  /** The keys of the first records: the seen set of the loops. */
  function Seen(keys: seq<RecordKey>): set<RecordKey>
  {
    set j | 0 <= j < |keys| :: keys[j]
  }

  lemma FirstOfKeySeen(keys: seq<RecordKey>, i: nat)
    requires i < |keys|
    ensures FirstOfKey(keys, i) <==> keys[i] !in Seen(keys[..i])
  {
    var pre := keys[..i];
    if keys[i] in Seen(pre) {
      var j :| 0 <= j < |pre| && pre[j] == keys[i];
      assert keys[j] == keys[i];
    }
  }

  /** One loop step: the prefix grows by one record and one key. */
  lemma PickedStep(s: seq<Dimm>, keys: seq<RecordKey>, i: nat, style: Style)
    requires |keys| == |s| && i < |s|
    ensures Picked(s[..i + 1], keys[..i + 1], style)
      == Picked(s[..i], keys[..i], style) + (if Kept(keys[..i + 1], i, style) then [s[i]] else [])
    ensures Kept(keys[..i + 1], i, style) == Kept(keys, i, style)
    ensures Seen(keys[..i + 1]) == Seen(keys[..i]) + {keys[i]}
    ensures FirstOfKey(keys, i) <==> keys[i] !in Seen(keys[..i])
  {
    assert s[..i + 1][..i] == s[..i] && keys[..i + 1][..i] == keys[..i];
    assert forall j :: 0 <= j <= i ==> keys[..i + 1][j] == keys[j];
    FirstOfKeySeen(keys, i);
    var a := Seen(keys[..i + 1]);
    var b := Seen(keys[..i]) + {keys[i]};
    forall x | x in a ensures x in b {
      var j :| 0 <= j <= i && keys[..i + 1][j] == x;
      if j < i {
        assert keys[..i][j] == x;
      }
    }
    forall x | x in b ensures x in a {
      if x != keys[i] {
        var j :| 0 <= j < i && keys[..i][j] == x;
        assert keys[..i + 1][j] == x;
      } else {
        assert keys[..i + 1][i] == x;
      }
    }
  }

  /**
   * deduplicate_dimms: the first record of each not-blank key, in input order. Its seen
   * set holds the not-blank keys so far; since blank keys are skipped before the test,
   * holding every key so far gives the same answers.
   */
  method DeduplicateDimms(dimms: seq<Dimm>) returns (deduped: seq<Dimm>)
    ensures deduped == Deduped(dimms, ByPart)
  {
    ghost var keys := KeysOf(dimms, ByPart);
    var seen: set<RecordKey> := {};
    deduped := [];
    for i := 0 to |dimms|
      invariant deduped == Picked(dimms[..i], keys[..i], ByPart)
      invariant forall k :: !Blank(k) ==> (k in seen <==> k in Seen(keys[..i]))
    {
      var d := dimms[i];
      var key := KeyOf(d, ByPart);
      assert key == keys[i];
      PickedStep(dimms, keys, i, ByPart);
      if !Blank(key) {
        if key !in seen {
          seen := seen + {key};
          deduped := deduped + [d];
        }
      }
    }
    assert dimms[..|dimms|] == dimms && keys[..|dimms|] == keys;
  }

  /** One step of the scan dedup, from the seen set and the records kept so far. */
  lemma ScanDedupStep(parsed: seq<Dimm>, keys: seq<RecordKey>, i: nat, seen: set<RecordKey>, deduped: seq<Dimm>)
    requires |keys| == |parsed| && i < |parsed|
    requires deduped == Picked(parsed[..i], keys[..i], ByScan) && seen == Seen(keys[..i])
    ensures keys[i] in seen && !Blank(keys[i]) ==>
      deduped == Picked(parsed[..i + 1], keys[..i + 1], ByScan) && seen == Seen(keys[..i + 1])
    ensures !(keys[i] in seen && !Blank(keys[i])) ==>
      deduped + [parsed[i]] == Picked(parsed[..i + 1], keys[..i + 1], ByScan) && seen + {keys[i]} == Seen(keys[..i + 1])
  {
    PickedStep(parsed, keys, i, ByScan);
  }

  /** The scan dedup: a record is dropped only when its key is not blank and was seen before. */
  method ScanDedup(parsed: seq<Dimm>) returns (deduped: seq<Dimm>)
    ensures deduped == Deduped(parsed, ByScan)
  {
    ghost var keys := KeysOf(parsed, ByScan);
    var seen: set<RecordKey> := {};
    deduped := [];
    for i := 0 to |parsed|
      invariant deduped == Picked(parsed[..i], keys[..i], ByScan)
      invariant seen == Seen(keys[..i])
    {
      var d := parsed[i];
      var key := KeyOf(d, ByScan);
      assert key == keys[i];
      ScanDedupStep(parsed, keys, i, seen, deduped);
      if key in seen && !Blank(key) {
        continue;
      }
      seen := seen + {key};
      deduped := deduped + [d];
    }
    assert parsed[..|parsed|] == parsed && keys[..|parsed|] == keys;
  }

  /** No two surviving records share a key, except blank-key records of the scan dedup. */
  lemma DedupedUnique(s: seq<Dimm>, style: Style)
    ensures var r := Deduped(s, style);
      forall k, l :: 0 <= k < l < |r| && KeyOf(r[k], style) == KeyOf(r[l], style) ==>
        style == ByScan && Blank(KeyOf(r[k], style))
  {
    DedupedPositions(s, style);
    var r := Deduped(s, style);
    var keys := KeysOf(s, style);
    var p := KeptPositions(keys, style);
    forall k, l | 0 <= k < l < |r| && KeyOf(r[k], style) == KeyOf(r[l], style)
      ensures style == ByScan && Blank(KeyOf(r[k], style))
    {
      assert p[k] < p[l] && p[l] in p;
      assert Kept(keys, p[l], style);
      assert keys[p[k]] == keys[p[l]];
    }
  }

  /** deduplicate_dimms drops every record whose key is blank. */
  lemma PartDedupNoBlank(s: seq<Dimm>)
    ensures forall k :: 0 <= k < |Deduped(s, ByPart)| ==> !Blank(KeyOf(Deduped(s, ByPart)[k], ByPart))
  {
    DedupedPositions(s, ByPart);
    var keys := KeysOf(s, ByPart);
    var p := KeptPositions(keys, ByPart);
    forall k | 0 <= k < |Deduped(s, ByPart)| ensures !Blank(KeyOf(Deduped(s, ByPart)[k], ByPart)) {
      assert p[k] in p;
      assert Kept(keys, p[k], ByPart);
    }
  }

  /** Every blank-key record survives the scan dedup. */
  lemma ScanDedupKeepsBlank(s: seq<Dimm>, i: nat)
    requires i < |s| && Blank(KeyOf(s[i], ByScan))
    ensures i in KeptPositions(KeysOf(s, ByScan), ByScan)
  {
    DedupedPositions(s, ByScan);
  }

  /** The earliest record with the key of record i is at or before i and is first of its key. */
  lemma {:induction false} FirstWithKey(keys: seq<RecordKey>, i: nat) returns (j: nat)
    requires i < |keys|
    ensures j <= i && keys[j] == keys[i] && FirstOfKey(keys, j)
    decreases i
  {
    if FirstOfKey(keys, i) {
      j := i;
    } else {
      var j0 :| 0 <= j0 < i && keys[j0] == keys[i];
      j := FirstWithKey(keys, j0);
    }
  }

  /** Every not-blank key of the input is carried by a surviving record. */
  lemma DedupedComplete(s: seq<Dimm>, style: Style, i: nat)
    requires i < |s| && !Blank(KeyOf(s[i], style))
    ensures exists k :: 0 <= k < |Deduped(s, style)| && KeyOf(Deduped(s, style)[k], style) == KeyOf(s[i], style)
  {
    var keys := KeysOf(s, style);
    var j := FirstWithKey(keys, i);
    DedupedPositions(s, style);
    var p := KeptPositions(keys, style);
    assert Kept(keys, j, style);
    var k :| 0 <= k < |p| && p[k] == j;
    assert Deduped(s, style)[k] == s[j];
  }

  // ---------------------------------------------------------------- default slot names

  /** The name perform_system_scan gives a record with no slot: "DIMM_" and its position. */
  function DefaultSlot(i: nat): string
  {
    "DIMM_" + NatToString(i)
  }

  function WithSlot(d: Dimm, i: nat): Dimm
  {
    if SlotKey in d then d else d[SlotKey := DefaultSlot(i)]
  }

  /** Records without a slot are given "DIMM_<index>", in place. */
  method AssignDefaultSlots(dimms: seq<Dimm>) returns (r: seq<Dimm>)
    ensures |r| == |dimms|
    ensures forall i :: 0 <= i < |r| ==> r[i] == WithSlot(dimms[i], i)
  {
    r := dimms;
    for i := 0 to |dimms|
      invariant |r| == |dimms|
      invariant forall j :: 0 <= j < |r| ==> r[j] == if j < i then WithSlot(dimms[j], j) else dimms[j]
    {
      if SlotKey !in r[i] {
        r := r[i := r[i][SlotKey := DefaultSlot(i)]];
      }
    }
  }

  lemma DefaultSlotInjective(i: nat, j: nat)
    requires i != j
    ensures DefaultSlot(i) != DefaultSlot(j)
  {
    assert DefaultSlot(i)[5..] == NatToString(i);
    assert DefaultSlot(j)[5..] == NatToString(j);
  }

  /**
   * After the default pass every record has a slot; a record that had one keeps it and
   * all its fields; a record that had none gains only the slot, and no two records get
   * the same default name.
   */
  lemma WithSlotSpec(d: Dimm, e: Dimm, i: nat, j: nat)
    ensures SlotKey in WithSlot(d, i)
    ensures SlotKey in d ==> WithSlot(d, i) == d
    ensures SlotKey !in d ==>
      WithSlot(d, i).Keys == d.Keys + {SlotKey} && WithSlot(d, i)[SlotKey] == DefaultSlot(i)
    ensures forall k :: k in d ==> WithSlot(d, i)[k] == d[k]
    ensures SlotKey !in d && SlotKey !in e && i != j ==> WithSlot(d, i)[SlotKey] != WithSlot(e, j)[SlotKey]
  {
    if i != j {
      DefaultSlotInjective(i, j);
    }
  }
}
