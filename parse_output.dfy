/**
 * parse_output (ramsleuth_pkg/parser.py, and the older copy in ramsleuth.py): matrix
 * records and plain records merged by slot, then completed with the diagnostic keys and,
 * in the package copy, an inferred JEDEC timing.
 */
module ParseOutput {
  import opened Outcome
  import opened Text
  import opened DimmRecords
  import opened Timings
  import Matrix
  import Plain

  // ---------------------------------------------------------------- the merge

  /** The records in order whose slot is non-empty and not already taken. */
  function Keep(records: seq<Dimm>, seen: set<string>): seq<Dimm>
    decreases |records|
  {
    if records == [] then []
    else
      var slot := Field(records[0], SlotKey);
      if slot != [] && slot !in seen then [records[0]] + Keep(records[1..], seen + {slot})
      else Keep(records[1..], seen)
  }

  /** The slots a list of records holds. */
  function SlotsOf(records: seq<Dimm>): set<string>
  {
    set i | 0 <= i < |records| :: Field(records[i], SlotKey)
  }

  /** The merge loops: matrix records first, then plain ones, one record per slot. */
  function Merge(matrix: seq<Dimm>, plain: seq<Dimm>): seq<Dimm>
  {
    Keep(matrix + plain, {})
  }

  /**
   * The merge keeps records of the input only, each with a non-empty slot that was not
   * taken before, and no slot twice.
   */
  lemma {:induction false} KeepSound(records: seq<Dimm>, seen: set<string>)
    ensures forall k :: 0 <= k < |Keep(records, seen)| ==> Keep(records, seen)[k] in records
    ensures forall k :: 0 <= k < |Keep(records, seen)| ==>
      Field(Keep(records, seen)[k], SlotKey) != [] && Field(Keep(records, seen)[k], SlotKey) !in seen
    ensures forall k, l :: 0 <= k < l < |Keep(records, seen)| ==>
      Field(Keep(records, seen)[k], SlotKey) != Field(Keep(records, seen)[l], SlotKey)
    decreases |records|
  {
    if records != [] {
      var slot := Field(records[0], SlotKey);
      var rest := records[1..];
      if slot != [] && slot !in seen {
        KeepSound(rest, seen + {slot});
        var out := Keep(records, seen);
        var t := Keep(rest, seen + {slot});
        assert out == [records[0]] + t;
        forall k | 1 <= k < |out| ensures out[k] in records {
          assert out[k] == t[k - 1];
          assert t[k - 1] in rest;
        }
      } else {
        KeepSound(rest, seen);
        assert forall x :: x in rest ==> x in records;
      }
    }
  }

  /** Every slot of the input that was not taken before is represented by a kept record. */
  lemma {:induction false} KeepComplete(records: seq<Dimm>, seen: set<string>)
    ensures forall i :: 0 <= i < |records| && Field(records[i], SlotKey) != [] ==>
      Field(records[i], SlotKey) in seen || Field(records[i], SlotKey) in SlotsOf(Keep(records, seen))
    decreases |records|
  {
    if records != [] {
      var slot := Field(records[0], SlotKey);
      var rest := records[1..];
      assert forall i :: 1 <= i < |records| ==> records[i] == rest[i - 1];
      if slot != [] && slot !in seen {
        KeepComplete(rest, seen + {slot});
        var out := Keep(records, seen);
        var t := Keep(rest, seen + {slot});
        assert out == [records[0]] + t;
        assert Field(out[0], SlotKey) == slot;
        forall i | 0 <= i < |records| && Field(records[i], SlotKey) != [] && Field(records[i], SlotKey) !in seen
          ensures Field(records[i], SlotKey) in SlotsOf(out)
        {
          if Field(records[i], SlotKey) != slot {
            var k :| 0 <= k < |t| && Field(t[k], SlotKey) == Field(records[i], SlotKey);
            assert out[k + 1] == t[k];
          }
        }
      } else {
        KeepComplete(rest, seen);
      }
    }
  }

  lemma SlotsOfCons(d: Dimm, t: seq<Dimm>)
    ensures SlotsOf([d] + t) == {Field(d, SlotKey)} + SlotsOf(t)
  {
    var s := [d] + t;
    forall x | x in SlotsOf(s) ensures x in {Field(d, SlotKey)} + SlotsOf(t) {
      var i :| 0 <= i < |s| && Field(s[i], SlotKey) == x;
      if i > 0 {
        assert s[i] == t[i - 1];
      }
    }
    forall x | x in SlotsOf(t) ensures x in SlotsOf(s) {
      var i :| 0 <= i < |t| && Field(t[i], SlotKey) == x;
      assert s[i + 1] == t[i];
    }
    assert Field(s[0], SlotKey) == Field(d, SlotKey);
  }

  /** The two merge loops are one pass over the matrix records followed by the plain ones. */
  lemma {:induction false} KeepAppend(a: seq<Dimm>, b: seq<Dimm>, seen: set<string>)
    ensures Keep(a + b, seen) == Keep(a, seen) + Keep(b, seen + SlotsOf(Keep(a, seen)))
    decreases |a|
  {
    if a == [] {
      assert a + b == b;
      assert SlotsOf(Keep(a, seen)) == {};
      assert seen + SlotsOf(Keep(a, seen)) == seen;
    } else {
      assert (a + b)[0] == a[0] && (a + b)[1..] == a[1..] + b;
      var slot := Field(a[0], SlotKey);
      if slot != [] && slot !in seen {
        KeepAppend(a[1..], b, seen + {slot});
        var t := Keep(a[1..], seen + {slot});
        assert Keep(a, seen) == [a[0]] + t;
        SlotsOfCons(a[0], t);
        assert seen + {slot} + SlotsOf(t) == seen + SlotsOf(Keep(a, seen));
      } else {
        KeepAppend(a[1..], b, seen);
      }
    }
  }

  /**
   * The merge returns the kept matrix records first, then the plain records whose slot
   * none of them has.
   */
  lemma MergeMatrixFirst(matrix: seq<Dimm>, plain: seq<Dimm>)
    ensures var kept := Keep(matrix, {});
      Merge(matrix, plain) == kept + Keep(plain, SlotsOf(kept))
    ensures var kept := Keep(matrix, {});
      forall k :: 0 <= k < |Keep(plain, SlotsOf(kept))| ==> Field(Keep(plain, SlotsOf(kept))[k], SlotKey) !in SlotsOf(kept)
  {
    KeepAppend(matrix, plain, {});
    var seen: set<string> := {};
    assert seen + SlotsOf(Keep(matrix, {})) == SlotsOf(Keep(matrix, {}));
    KeepSound(plain, SlotsOf(Keep(matrix, {})));
  }

  /**
   * The merge keeps records of its input only, none without a slot, no slot twice, and
   * every slot of either list is represented.
   */
  lemma MergeSpec(matrix: seq<Dimm>, plain: seq<Dimm>)
    ensures forall k :: 0 <= k < |Merge(matrix, plain)| ==>
      Merge(matrix, plain)[k] in matrix + plain && Field(Merge(matrix, plain)[k], SlotKey) != []
    ensures forall k, l :: 0 <= k < l < |Merge(matrix, plain)| ==>
      Field(Merge(matrix, plain)[k], SlotKey) != Field(Merge(matrix, plain)[l], SlotKey)
    ensures forall i :: 0 <= i < |matrix + plain| && Field((matrix + plain)[i], SlotKey) != [] ==>
      Field((matrix + plain)[i], SlotKey) in SlotsOf(Merge(matrix, plain))
  {
    KeepSound(matrix + plain, {});
    KeepComplete(matrix + plain, {});
  }

  /** One step of Keep: the head is kept exactly when it has a slot not yet seen. */
  lemma KeepStep(all: seq<Dimm>, i: nat, seen: set<string>)
    requires i < |all|
    ensures var slot := Field(all[i], SlotKey);
      Keep(all[i..], seen) ==
        if slot != [] && slot !in seen then [all[i]] + Keep(all[i + 1..], seen + {slot})
        else Keep(all[i + 1..], seen)
  {
    assert all[i..][0] == all[i] && all[i..][1..] == all[i + 1..];
  }

  /** The merge loops, with their seen-slot set. */
  method MergeRecords(matrix: seq<Dimm>, plain: seq<Dimm>) returns (result: seq<Dimm>)
    ensures result == Merge(matrix, plain)
  {
    var all := matrix + plain;
    result := [];
    var seen: set<string> := {};
    var i := 0;
    while i < |all|
      invariant 0 <= i <= |all|
      invariant result + Keep(all[i..], seen) == Keep(all, {})
    {
      KeepStep(all, i, seen);
      var d := all[i];
      var slot := Field(d, SlotKey);
      if slot != [] && slot !in seen {
        result := result + [d];
        seen := seen + {slot};
      }
      i := i + 1;
    }
  }

  // ---------------------------------------------------------------- the final pass

  /** The final pass over one record. */
  function Finalize(d: Dimm, dialect: Dialect): Dimm
  {
    var d1 := SetDefault(SetDefault(d, MalformedTimingsKey), MalformedColumnsKey);
    if dialect == Legacy then d1
    else
      var conf := Field(d1, "configured_speed");
      var gen := Field(d1, "generation");
      if conf != [] && gen != [] && TimingsKey !in d1 then
        match FirstDigitRun(conf)
        case Some(digits) => d1[TimingsKey := InferTimings(DecimalValue(digits), gen)]
        case None => d1
      else d1
  }

  /** When the final pass adds a timing: package copy, a configured speed with digits, a generation, no timing yet. */
  predicate InfersTimings(d: Dimm, dialect: Dialect)
  {
    && dialect == Package
    && Field(d, "configured_speed") != []
    && Field(d, "generation") != []
    && TimingsKey !in d
    && FirstDigitRun(Field(d, "configured_speed")).Some?
  }

  lemma DistinctFinalKeys()
    ensures "configured_speed" != MalformedTimingsKey && "configured_speed" != MalformedColumnsKey
    ensures "generation" != MalformedTimingsKey && "generation" != MalformedColumnsKey
    ensures TimingsKey != MalformedTimingsKey && TimingsKey != MalformedColumnsKey
    ensures SlotKey != MalformedTimingsKey && SlotKey != MalformedColumnsKey && SlotKey != TimingsKey
  {
    assert |"configured_speed"| == 16 && |"generation"| == 10 && |TimingsKey| == 7 && |SlotKey| == 4;
    assert |MalformedTimingsKey| == 34 && |MalformedColumnsKey| == 36;
  }

  /**
   * The final pass keeps every field, adds both diagnostic keys (empty when missing),
   * and adds a timing exactly when InfersTimings holds: the JEDEC timing for the first
   * digit run of the configured speed and the generation.
   */
  lemma FinalizeSpec(d: Dimm, dialect: Dialect)
    ensures var r := Finalize(d, dialect);
      && MalformedTimingsKey in r && MalformedColumnsKey in r
      && (forall k :: k in d ==> k in r && r[k] == d[k])
      && (forall k :: k in r && k !in d ==> k == MalformedTimingsKey || k == MalformedColumnsKey || k == TimingsKey)
      && (MalformedTimingsKey !in d ==> r[MalformedTimingsKey] == "")
      && (MalformedColumnsKey !in d ==> r[MalformedColumnsKey] == "")
      && (TimingsKey in r && TimingsKey !in d <==> InfersTimings(d, dialect))
      && (InfersTimings(d, dialect) ==>
            r[TimingsKey] == InferTimings(DecimalValue(FirstDigitRun(Field(d, "configured_speed")).value), Field(d, "generation")))
  {
    DistinctFinalKeys();
    var conf := Field(d, "configured_speed");
    FirstDigitRunSpec(conf);
  }

  function FinalizeEach(records: seq<Dimm>, dialect: Dialect): seq<Dimm>
  {
    seq(|records|, i requires 0 <= i < |records| => Finalize(records[i], dialect))
  }

  /** The final loop, completing each record in place. */
  method FinalizeRecords(records: seq<Dimm>, dialect: Dialect) returns (result: seq<Dimm>)
    ensures result == FinalizeEach(records, dialect)
  {
    result := records;
    for i := 0 to |records|
      invariant |result| == |records|
      invariant forall j :: 0 <= j < |records| ==> result[j] == if j < i then Finalize(records[j], dialect) else records[j]
    {
      var d := result[i];
      d := SetDefault(d, MalformedTimingsKey);
      d := SetDefault(d, MalformedColumnsKey);
      if dialect == Package {
        var conf := Field(d, "configured_speed");
        var gen := Field(d, "generation");
        if conf != [] && gen != [] && TimingsKey !in d {
          var digits := FirstDigitRun(conf);
          if digits.Some? {
            d := d[TimingsKey := InferTimings(DecimalValue(digits.value), gen)];
          }
        }
      }
      result := result[i := d];
    }
  }

  // ---------------------------------------------------------------- parse_output

  function ParseOutputOf(rawOutput: string, dialect: Dialect): seq<Dimm>
  {
    var lines := SplitLines(rawOutput);
    if lines == [] then []
    else FinalizeEach(Merge(Matrix.MatrixRecords(lines, dialect), Plain.PlainRecords(lines, dialect)), dialect)
  }

  /** parse_output: matrix mode, plain mode, the merge, the final pass. */
  method ParseOutput(rawOutput: string, dialect: Dialect) returns (result: seq<Dimm>)
    ensures result == ParseOutputOf(rawOutput, dialect)
  {
    var lines := SplitLines(rawOutput);
    if lines == [] {
      return [];
    }
    var matrix := Matrix.ParseMatrix(lines, dialect);
    var plain := Plain.ParsePlain(lines, dialect);
    var merged := MergeRecords(matrix, plain);
    result := FinalizeRecords(merged, dialect);
  }

  // ---------------------------------------------------------------- what parse_output promises

  lemma LowerNoise()
    ensures Lower("Noise") == "noise"
  {
    assert Lower("Noise") == [LowerChar('N')] + "oise";
  }

  /** Only the garbage line's first letter changes case. */
  /** Only the first letter of the garbage line's first half changes case. */
  lemma LowerGarbageHead()
    ensures Lower("Random garbage line") == "random garbage line"
  {
    var head := "Random garbage line";
    var lh := Lower(head);
    forall i | 0 <= i < |head| ensures lh[i] == "random garbage line"[i] {
      assert lh[i] == LowerChar(head[i]);
    }
  }

  /** The second half of the garbage line is already lower case. */
  lemma LowerGarbageTail()
    ensures Lower(" not using pipes at all") == " not using pipes at all"
  {
    var tail := " not using pipes at all";
    var lt := Lower(tail);
    forall i | 0 <= i < |tail| ensures lt[i] == tail[i] {
      assert lt[i] == LowerChar(tail[i]);
    }
  }

  /** The garbage line, cut after "line". */
  lemma GarbageHalves()
    ensures GarbageLabel == "Random garbage line" + " not using pipes at all"
  {
  }

  /** Its lower-case spelling, cut at the same place. */
  lemma GarbageHalvesLower()
    ensures "random garbage line not using pipes at all" == "random garbage line" + " not using pipes at all"
  {
  }

  lemma LowerGarbage()
    ensures Lower(GarbageLabel) == "random garbage line not using pipes at all"
  {
    GarbageHalves();
    GarbageHalvesLower();
    LowerAppend("Random garbage line", " not using pipes at all");
    LowerGarbageHead();
    LowerGarbageTail();
  }

  /** A matrix record holds neither "Noise", the garbage line nor a blank key. */
  lemma MatrixRecordNoNoise(d: Dimm)
    requires Matrix.MatrixClean(d)
    ensures NoNoise(d)
  {
    LowerNoise();
    LowerGarbage();
    assert Lower("") == "";
  }

  /** The final pass adds no "Noise", garbage-line or blank key. */
  lemma FinalizeNoNoise(d: Dimm, dialect: Dialect)
    requires NoNoise(d)
    ensures NoNoise(Finalize(d, dialect))
  {
    FinalizeSpec(d, dialect);
    AddedKeyClean(MalformedTimingsKey);
    AddedKeyClean(MalformedColumnsKey);
    AddedKeyClean(TimingsKey);
  }

  /** Every record parse_output returns has a non-empty slot, and no slot occurs twice. */
  lemma ParseOutputSlots(rawOutput: string, dialect: Dialect)
    ensures var r := ParseOutputOf(rawOutput, dialect);
      && (forall i :: 0 <= i < |r| ==> SlotKey in r[i] && r[i][SlotKey] != [])
      && (forall i, j :: 0 <= i < j < |r| ==> r[i][SlotKey] != r[j][SlotKey])
  {
    var lines := SplitLines(rawOutput);
    if lines != [] {
      var matrix := Matrix.MatrixRecords(lines, dialect);
      var plain := Plain.PlainRecords(lines, dialect);
      var merged := Merge(matrix, plain);
      MergeSpec(matrix, plain);
      DistinctFinalKeys();
      forall i | 0 <= i < |merged| ensures Field(Finalize(merged[i], dialect), SlotKey) == Field(merged[i], SlotKey) {
        FinalizeSpec(merged[i], dialect);
      }
    }
  }

  /** Neither the matrix records nor the plain records hold "Noise", the garbage line or a blank key. */
  lemma SourcesNoNoise(lines: seq<string>, dialect: Dialect)
    ensures forall d :: d in Matrix.MatrixRecords(lines, dialect) + Plain.PlainRecords(lines, dialect) ==> NoNoise(d)
  {
    var matrix := Matrix.MatrixRecords(lines, dialect);
    var plain := Plain.PlainRecords(lines, dialect);
    Matrix.MatrixRecordsClean(lines, dialect);
    Plain.PlainRecordsClean(lines, dialect);
    forall d | d in matrix + plain ensures NoNoise(d) {
      if d in matrix {
        var k :| 0 <= k < |matrix| && matrix[k] == d;
        MatrixRecordNoNoise(d);
      } else {
        var k :| 0 <= k < |plain| && plain[k] == d;
        assert Plain.SlotRecord(d);
      }
    }
  }

  /** The final pass gives every record both diagnostic keys and keeps it free of noise keys. */
  lemma FinalizeEachKeys(records: seq<Dimm>, dialect: Dialect)
    requires forall i :: 0 <= i < |records| ==> NoNoise(records[i])
    ensures forall i :: 0 <= i < |FinalizeEach(records, dialect)| ==>
      var r := FinalizeEach(records, dialect)[i];
      MalformedTimingsKey in r && MalformedColumnsKey in r && NoNoise(r)
  {
    forall i | 0 <= i < |records|
      ensures MalformedTimingsKey in Finalize(records[i], dialect) && MalformedColumnsKey in Finalize(records[i], dialect)
      ensures NoNoise(Finalize(records[i], dialect))
    {
      FinalizeSpec(records[i], dialect);
      FinalizeNoNoise(records[i], dialect);
    }
  }

  /**
   * Every returned record carries both diagnostic keys and holds neither the "Noise"
   * label, the garbage line nor a blank key.
   */
  lemma ParseOutputKeys(rawOutput: string, dialect: Dialect)
    ensures var r := ParseOutputOf(rawOutput, dialect);
      forall i :: 0 <= i < |r| ==> MalformedTimingsKey in r[i] && MalformedColumnsKey in r[i] && NoNoise(r[i])
  {
    var lines := SplitLines(rawOutput);
    if lines != [] {
      var matrix := Matrix.MatrixRecords(lines, dialect);
      var plain := Plain.PlainRecords(lines, dialect);
      var merged := Merge(matrix, plain);
      MergeSpec(matrix, plain);
      SourcesNoNoise(lines, dialect);
      FinalizeEachKeys(merged, dialect);
    }
  }

  /** Output with no lines gives no records. */
  lemma EmptyOutputNoRecords()
    ensures ParseOutputOf("", Package) == [] && ParseOutputOf("", Legacy) == []
  {
  }
}
