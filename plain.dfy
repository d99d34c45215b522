/**
 * Plain-block mode of parse_output (ramsleuth_pkg/parser.py): "Decoding EEPROM" blocks of
 * "key  value" lines, gathered into pending fields and fanned out into one record per
 * slot named by the block's "Guessing DIMM is in" line.
 */
module Plain {
  import opened Outcome
  import opened Text
  import opened DimmRecords

  // ---------------------------------------------------------------- slots from a guess

  /** _normalize_slot_string: lower-cased, whitespace runs collapsed to one space, trimmed. */
  function Normalize(raw: string): string
  {
    Join(SplitWs(Lower(raw)), " ")
  }

  /** "bank" or "dimm" spelled out at i. */
  predicate SlotNameAt(s: string, i: nat)
  {
    && i + 4 <= |s|
    && (|| (s[i] == 'b' && s[i + 1] == 'a' && s[i + 2] == 'n' && s[i + 3] == 'k')
        || (s[i] == 'd' && s[i + 1] == 'i' && s[i + 2] == 'm' && s[i + 3] == 'm'))
  }

  /**
   * The end of a match of (bank|dimm)\s*\d+ that starts at i: the name, the whole
   * whitespace run after it, then the whole digit run, which must not be empty.
   */
  function SlotWordAt(s: string, i: nat): (r: Option<nat>)
    ensures r.Some? ==> i + 5 <= r.value <= |s|
  {
    if !SlotNameAt(s, i) then None
    else
      var w := RunEnd(s, i + 4, IsSpace);
      if w < |s| && IsDigit(s[w]) then Some(RunEnd(s, w, IsDigit)) else None
  }

  /** re.search for (bank|dimm)\s*\d+ from i: the leftmost match, as (start, end). */
  function FirstSlotWord(s: string, i: nat): (r: Option<(nat, nat)>)
    requires i <= |s|
    ensures r.Some? ==> i <= r.value.0 && SlotWordAt(s, r.value.0) == Some(r.value.1)
    ensures r.Some? ==> forall j :: i <= j < r.value.0 ==> SlotWordAt(s, j).None?
    ensures r.None? ==> forall j :: i <= j < |s| ==> SlotWordAt(s, j).None?
    decreases |s| - i
  {
    if i == |s| then None
    else
      match SlotWordAt(s, i)
      case Some(e) => Some((i, e))
      case None => FirstSlotWord(s, i + 1)
  }

  /** From index 4, whitespace up to m, then digits to the end, at least one. */
  predicate SpacesThenDigits(w: string, m: int)
  {
    && 4 <= m < |w|
    && (forall k :: 4 <= k < m ==> IsSpace(w[k]))
    && (forall k :: m <= k < |w| ==> IsDigit(w[k]))
  }

  /** A whole match of (bank|dimm)\s*\d+. */
  ghost predicate IsSlotWord(w: string)
  {
    SlotNameAt(w, 0) && exists m :: SpacesThenDigits(w, m)
  }

  /** _derive_slots_from_guess */
  function DeriveSlots(raw: string): seq<string>
  {
    var norm := Normalize(raw);
    if norm == [] then []
    else if Contains(norm, "bank 3") && Contains(norm, "bank 4") then ["bank 3", "bank 4"]
    else
      match FirstSlotWord(norm, 0)
      case Some((i, j)) => [norm[i..j]]
      case None => [raw]
  }

  lemma NormalizeEmpty(raw: string)
    requires raw == []
    ensures Normalize(raw) == []
  {
    assert Lower(raw) == [];
    assert SplitWs(Lower(raw)) == [];
  }

  /** The text a match covers is a slot word. */
  lemma SlotWordText(s: string, i: nat, j: nat)
    requires SlotWordAt(s, i) == Some(j)
    ensures IsSlotWord(s[i..j])
  {
    var w := s[i..j];
    var m := RunEnd(s, i + 4, IsSpace);
    assert m < |s| && IsDigit(s[m]) && j == RunEnd(s, m, IsDigit);
    assert SlotNameAt(w, 0) by {
      assert w[0] == s[i] && w[1] == s[i + 1] && w[2] == s[i + 2] && w[3] == s[i + 3];
    }
    forall k | 4 <= k < m - i ensures IsSpace(w[k]) {
      assert w[k] == s[i + k];
    }
    forall k | m - i <= k < |w| ensures IsDigit(w[k]) {
      assert w[k] == s[i + k];
    }
    assert SpacesThenDigits(w, m - i);
  }

  /**
   * The three rules, in order: no slot for a blank guess; both banks 3 and 4 for a value
   * naming both; else the leftmost bank/dimm word; else the raw value. Every slot is
   * non-empty.
   */
  lemma DeriveSlotsRules(raw: string)
    ensures var r := DeriveSlots(raw); var norm := Normalize(raw);
      && (r == [] <==> norm == [])
      && (norm != [] && Contains(norm, "bank 3") && Contains(norm, "bank 4") ==> r == ["bank 3", "bank 4"])
      && (norm != [] && !(Contains(norm, "bank 3") && Contains(norm, "bank 4")) ==>
            match FirstSlotWord(norm, 0)
            case Some((i, j)) => r == [norm[i..j]] && IsSlotWord(r[0])
            case None => r == [raw])
      && (forall k :: 0 <= k < |r| ==> r[k] != [])
  {
    var norm := Normalize(raw);
    if raw == [] {
      NormalizeEmpty(raw);
    }
    if norm != [] && !(Contains(norm, "bank 3") && Contains(norm, "bank 4")) {
      match FirstSlotWord(norm, 0)
      case Some((i, j)) => SlotWordText(norm, i, j);
      case None =>
    }
  }

  /** Past its name a slot word holds only whitespace and digits, so no 'b'. */
  lemma SlotWordLetters(w: string)
    requires IsSlotWord(w)
    ensures w[1] != 'b' && w[2] != 'b' && w[3] != 'b'
    ensures forall k :: 4 <= k < |w| ==> w[k] != 'b'
  {
    var m :| SpacesThenDigits(w, m);
    forall k | 4 <= k < |w| ensures w[k] != 'b' {
      assert IsSpace(w[k]) || IsDigit(w[k]);
    }
  }

  /** A slot word names at most one bank: "bank " followed by c occurs only at its start. */
  lemma BankAt(w: string, c: char)
    requires IsSlotWord(w) && Contains(w, "bank " + [c])
    ensures w[5] == c
  {
    var sub := "bank " + [c];
    var p :| 0 <= p <= |w| - |sub| && OccursAt(w, sub, p);
    assert w[p] == 'b' by {
      assert w[p..p + 6][0] == w[p];
    }
    SlotWordLetters(w);
    assert p == 0;
    assert w[5] == w[p..p + 6][5];
  }

  /** A slot word never names two banks: it cannot hold both "bank 3" and "bank 4". */
  lemma SlotWordNamesOneBank(w: string)
    requires IsSlotWord(w)
    ensures !(Contains(w, "bank 3") && Contains(w, "bank 4"))
  {
    assert "bank 3" == "bank " + ['3'] && "bank 4" == "bank " + ['4'];
    if Contains(w, "bank 3") {
      BankAt(w, '3');
    }
    if Contains(w, "bank 4") {
      BankAt(w, '4');
    }
  }

  // ---------------------------------------------------------------- one line

  /** What the line loop does with a line. */
  datatype PlainLine = Blank | Header | Ignored | Field(key: string, val: string)

  function ClassifyPlain(raw: string): (r: PlainLine)
    ensures r.Field? ==> r.key != [] && r.val != [] && !IsPlainNoiseKey(r.key)
  {
    var line := RStripChar(raw, '\n');
    var stripped := Strip(line);
    if stripped == [] then Blank
    else if StartsWith(stripped, "Decoding EEPROM") then Header
    else
      match SplitOnce(line, "  ")
      case None => Ignored
      case Some((keyPart, valPart)) =>
        var key := RStripChar(Strip(keyPart), ':');
        var val := Strip(valPart);
        if key == [] || val == [] then Ignored
        else if IsPlainNoiseKey(key) then Ignored
        else Field(key, val)
  }

  /** The start of the trailing digit run of s (|s| when s does not end in a digit). */
  function TrailingDigitsStart(s: string): (k: nat)
    ensures k <= |s| && AllDigits(s[k..])
    ensures k > 0 ==> !IsDigit(s[k - 1])
  {
    if s != [] && IsDigit(s[|s| - 1]) then
      var k := TrailingDigitsStart(s[..|s| - 1]);
      assert s[k..] == s[..|s| - 1][k..] + [s[|s| - 1]];
      k
    else |s|
  }

  /** An "XMP timings" value "DDR4-3600 18-22-22" read as "3600-18-22-22". */
  function XmpTimings(val: string): (r: Option<string>)
  {
    var xmp := Strip(val);
    match SplitOnce(xmp, " ")
    case None => None
    case Some((freqPart, timingPart)) =>
      var k := TrailingDigitsStart(freqPart);
      if k == |freqPart| then None
      else Some(freqPart[k..] + "-" + ReplaceChar(Strip(timingPart), ' ', '-'))
  }

  /** What a field line does to the block: store the value under some keys, or set the slots. */
  datatype Action = SetFields(keys: seq<string>, value: string) | SetGuess(slots: seq<string>, value: string)

  /** The elif chain over the lower-cased key. */
  function FieldAction(key: string, val: string, dialect: Dialect): (r: Action)
    ensures r.SetFields? ==> forall k :: k in r.keys ==> k == key || IsPlainKey(k)
    ensures r.SetGuess? ==> r.value == val && r.slots == DeriveSlots(val)
  {
    var kl := Lower(key);
    if Contains(kl, "fundamental memory type") || Contains(kl, "memory type") then SetFields(["generation"], val)
    else if Contains(kl, "module manufacturer") || Contains(kl, "module mfg") then SetFields(["manufacturer"], val)
    else if Contains(kl, "dram manufacturer") then SetFields(["dram_mfg"], val)
    else if (Contains(kl, "size") || Contains(kl, "capacity")) && (Contains(Lower(val), "mb") || Contains(Lower(val), "gb")) then
      SetFields(["Module Capacity", "module_gb"], val)
    else if kl == "ranks" || StartsWith(kl, "ranks ") then SetFields(["Ranks", "module_ranks"], val)
    else if Contains(kl, "sdram device width") then SetFields(["SDRAM Device Width"], val)
    else if Contains(kl, "module nominal voltage") then SetFields(["JEDEC_voltage"], val)
    else if dialect == Package && Contains(kl, "minimum voltage") then SetFields(["min_voltage"], val)
    else if dialect == Package && Contains(kl, "maximum voltage") then SetFields(["max_voltage"], val)
    else if dialect == Package && Contains(kl, "configured voltage") then SetFields(["configured_voltage"], val)
    else if dialect == Package && (Contains(kl, "configured memory speed") || Contains(kl, "configured speed")) then
      SetFields(["configured_speed"], val)
    else if Contains(kl, "part number") then SetFields(["module_part_number"], val)
    else if Contains(kl, "xmp timings") then
      match XmpTimings(val)
      case Some(t) => SetFields(["timings_xmp"], t)
      case None => SetFields([], val)
    else if Contains(kl, "guessing dimm is in") then SetGuess(DeriveSlots(val), val)
    else SetFields([key], val)
  }

  // ---------------------------------------------------------------- the block state

  /** saw_header, current_block_ids, pending_fields and dimms_plain. */
  datatype PlainState = PlainState(saw: bool, ids: seq<string>, pending: Dimm, out: seq<Dimm>)

  const Start := PlainState(false, [], map[], [])

  /** The record for one slot: the pending fields, the slot, and the guess aligned to it. */
  function SlotCopy(pending: Dimm, slot: string): Dimm
  {
    var d := pending[SlotKey := slot];
    if GuessKey in d then d[GuessKey := slot] else d
  }

  function FanOut(pending: Dimm, ids: seq<string>): seq<Dimm>
  {
    seq(|ids|, i requires 0 <= i < |ids| => SlotCopy(pending, ids[i]))
  }

  /** _commit_block */
  function Commit(st: PlainState): PlainState
  {
    if st.pending == map[] then st.(ids := [])
    else if st.ids == [] then st.(pending := map[])
    else st.(out := st.out + FanOut(st.pending, st.ids), pending := map[], ids := [])
  }

  /** pending[k] = value for each k */
  function SetAll(pending: Dimm, keys: seq<string>, value: string): Dimm
    decreases |keys|
  {
    if keys == [] then pending else SetAll(pending[keys[0] := value], keys[1..], value)
  }

  function Perform(st: PlainState, action: Action): PlainState
  {
    match action
    case SetFields(keys, value) => st.(pending := SetAll(st.pending, keys, value))
    case SetGuess(slots, value) => st.(ids := slots, pending := st.pending[GuessKey := value])
  }

  /** One pass of the line loop. */
  function Step(st: PlainState, line: PlainLine, dialect: Dialect): PlainState
  {
    match line
    case Blank => st
    case Ignored => st
    case Header => Commit(st).(saw := true, ids := [], pending := map[])
    case Field(key, val) => if st.saw then Perform(st, FieldAction(key, val, dialect)) else st
  }

  function PlainRun(st: PlainState, lines: seq<string>, dialect: Dialect): PlainState
    decreases |lines|
  {
    if lines == [] then st else PlainRun(Step(st, ClassifyPlain(lines[0]), dialect), lines[1..], dialect)
  }

  /** The records plain mode produces: the line loop, then the trailing commit. */
  function PlainRecords(lines: seq<string>, dialect: Dialect): seq<Dimm>
  {
    Commit(PlainRun(Start, lines, dialect)).out
  }

  // ---------------------------------------------------------------- the loops

  /** _commit_block, with its loop over the slots. */
  method CommitBlock(st: PlainState) returns (st': PlainState)
    ensures st' == Commit(st)
  {
    if st.pending == map[] {
      return st.(ids := []);
    }
    if st.ids == [] {
      return st.(pending := map[]);
    }
    var out := st.out;
    for i := 0 to |st.ids|
      invariant |out| == |st.out| + i
      invariant out[..|st.out|] == st.out
      invariant forall k :: 0 <= k < i ==> out[|st.out| + k] == SlotCopy(st.pending, st.ids[k])
    {
      var dimm := st.pending;
      dimm := dimm[SlotKey := st.ids[i]];
      if GuessKey in dimm {
        dimm := dimm[GuessKey := st.ids[i]];
      }
      out := out + [dimm];
    }
    assert out == st.out + FanOut(st.pending, st.ids);
    st' := st.(out := out, pending := map[], ids := []);
  }

  /** The body of the line loop. */
  method ScanPlainLine(st: PlainState, raw: string, dialect: Dialect) returns (st': PlainState)
    ensures st' == Step(st, ClassifyPlain(raw), dialect)
  {
    st' := st;
    var line := ClassifyPlain(raw);
    match line {
      case Blank =>
      case Ignored =>
      case Header =>
        var committed := CommitBlock(st);
        st' := committed.(saw := true, ids := [], pending := map[]);
      case Field(key, val) =>
        if st.saw {
          match FieldAction(key, val, dialect) {
            case SetFields(keys, value) =>
              var pending := st.pending;
              var j := 0;
              while j < |keys|
                invariant 0 <= j <= |keys|
                invariant SetAll(pending, keys[j..], value) == SetAll(st.pending, keys, value)
              {
                assert keys[j..][0] == keys[j] && keys[j..][1..] == keys[j + 1..];
                pending := pending[keys[j] := value];
                j := j + 1;
              }
              st' := st.(pending := pending);
            case SetGuess(slots, value) =>
              st' := st.(ids := slots, pending := st.pending[GuessKey := value]);
          }
        }
    }
  }

  /** Plain mode: the line loop, then the trailing commit. */
  method ParsePlain(lines: seq<string>, dialect: Dialect) returns (records: seq<Dimm>)
    ensures records == PlainRecords(lines, dialect)
  {
    var st := Start;
    var i := 0;
    while i < |lines|
      invariant 0 <= i <= |lines|
      invariant PlainRun(st, lines[i..], dialect) == PlainRun(Start, lines, dialect)
    {
      assert lines[i..][0] == lines[i] && lines[i..][1..] == lines[i + 1..];
      st := ScanPlainLine(st, lines[i], dialect);
      i := i + 1;
    }
    var last := CommitBlock(st);
    records := last.out;
  }

  // ---------------------------------------------------------------- what plain mode promises

  /**
   * _commit_block emits nothing without pending fields or without slots; otherwise one
   * record per slot, in slot order, each holding the pending fields with the slot (and
   * the guess, when one was read) set to that slot. Either way the block is cleared.
   */
  lemma CommitFanOut(st: PlainState)
    ensures Commit(st).pending == map[] && Commit(st).ids == [] && Commit(st).saw == st.saw
    ensures st.pending == map[] || st.ids == [] ==> Commit(st).out == st.out
    ensures st.pending != map[] && st.ids != [] ==>
      && |Commit(st).out| == |st.out| + |st.ids|
      && Commit(st).out[..|st.out|] == st.out
      && forall i :: 0 <= i < |st.ids| ==>
        var d := Commit(st).out[|st.out| + i];
        && SlotKey in d && d[SlotKey] == st.ids[i]
        && (GuessKey in d <==> GuessKey in st.pending)
        && (GuessKey in d ==> d[GuessKey] == st.ids[i])
        && d.Keys == st.pending.Keys + {SlotKey}
        && forall k :: k in st.pending && k != SlotKey && k != GuessKey ==> d[k] == st.pending[k]
  {
    if st.pending != map[] && st.ids != [] {
      var out := Commit(st).out;
      assert out == st.out + FanOut(st.pending, st.ids);
      forall i | 0 <= i < |st.ids| ensures out[|st.out| + i] == SlotCopy(st.pending, st.ids[i]) {
      }
    }
  }

  /**
   * What holds of the block state throughout: every slot is non-empty; pending fields
   * and records hold no key plain mode drops and no blank key; every record has a
   * non-empty slot, and its guess, when present, is that slot.
   */
  predicate Clean(d: Dimm)
  {
    forall k :: k in d ==> !IsPlainNoiseKey(k) && k != []
  }

  predicate SlotRecord(d: Dimm)
  {
    && Clean(d)
    && SlotKey in d && d[SlotKey] != []
    && (GuessKey in d ==> d[GuessKey] == d[SlotKey])
  }

  predicate Inv(st: PlainState)
  {
    && (forall i :: 0 <= i < |st.ids| ==> st.ids[i] != [])
    && Clean(st.pending)
    && forall i :: 0 <= i < |st.out| ==> SlotRecord(st.out[i])
  }

  lemma SlotCopyRecord(pending: Dimm, slot: string)
    requires Clean(pending) && slot != []
    ensures SlotRecord(SlotCopy(pending, slot))
  {
    AddedKeyClean(SlotKey);
    PlainKeyClean(GuessKey);
  }

  lemma CommitInv(st: PlainState)
    requires Inv(st)
    ensures Inv(Commit(st))
  {
    if st.pending != map[] && st.ids != [] {
      var out := Commit(st).out;
      assert out == st.out + FanOut(st.pending, st.ids);
      forall i | 0 <= i < |out| ensures SlotRecord(out[i]) {
        if i >= |st.out| {
          SlotCopyRecord(st.pending, st.ids[i - |st.out|]);
        }
      }
    }
  }

  lemma {:induction false} SetAllClean(pending: Dimm, keys: seq<string>, value: string)
    requires Clean(pending)
    requires forall k :: k in keys ==> !IsPlainNoiseKey(k) && k != []
    ensures Clean(SetAll(pending, keys, value))
    ensures SetAll(pending, keys, value).Keys == pending.Keys + set k | k in keys
    decreases |keys|
  {
    if keys != [] {
      SetAllClean(pending[keys[0] := value], keys[1..], value);
    }
  }

  lemma StepInv(st: PlainState, line: PlainLine, dialect: Dialect)
    requires Inv(st)
    requires line.Field? ==> line.key != [] && !IsPlainNoiseKey(line.key)
    ensures Inv(Step(st, line, dialect))
  {
    match line
    case Blank =>
    case Ignored =>
    case Header => CommitInv(st);
    case Field(key, val) =>
      if st.saw {
        var action := FieldAction(key, val, dialect);
        match action
        case SetFields(keys, value) =>
          forall k | k in keys ensures !IsPlainNoiseKey(k) && k != [] {
            if k != key {
              PlainKeyClean(k);
            }
          }
          SetAllClean(st.pending, keys, value);
        case SetGuess(slots, value) =>
          DeriveSlotsRules(val);
          PlainKeyClean(GuessKey);
      }
  }

  lemma {:induction false} PlainRunInv(st: PlainState, lines: seq<string>, dialect: Dialect)
    requires Inv(st)
    ensures Inv(PlainRun(st, lines, dialect))
    decreases |lines|
  {
    if lines != [] {
      StepInv(st, ClassifyPlain(lines[0]), dialect);
      PlainRunInv(Step(st, ClassifyPlain(lines[0]), dialect), lines[1..], dialect);
    }
  }

  /**
   * Every plain record has a non-empty slot, its guess (when present) equals the slot,
   * and it holds none of the keys "Noise", "Debug", the garbage line, or a blank key.
   */
  lemma PlainRecordsClean(lines: seq<string>, dialect: Dialect)
    ensures forall i :: 0 <= i < |PlainRecords(lines, dialect)| ==> SlotRecord(PlainRecords(lines, dialect)[i])
  {
    PlainRunInv(Start, lines, dialect);
    CommitInv(PlainRun(Start, lines, dialect));
  }

  /** Before the first "Decoding EEPROM" line nothing is gathered. */
  lemma {:induction false} NoHeaderNoRecords(lines: seq<string>, dialect: Dialect)
    requires forall i :: 0 <= i < |lines| ==> !ClassifyPlain(lines[i]).Header?
    ensures PlainRun(Start, lines, dialect) == Start
    ensures PlainRecords(lines, dialect) == []
  {
    if lines != [] {
      assert Step(Start, ClassifyPlain(lines[0]), dialect) == Start;
      NoHeaderNoRecords(lines[1..], dialect);
    }
  }

  /** The line "#x  y" is neither blank nor a header. */
  lemma HashLineOpen()
    ensures RStripChar("#x  y", '\n') == "#x  y"
    ensures Strip("#x  y") == "#x  y" && !StartsWith("#x  y", "Decoding EEPROM")
  {
    var line := "#x  y";
    assert Strip(line) == line by {
      assert !IsSpace(line[4]);
      assert !IsSpace(line[0]);
    }
  }

  /** The line "#x  y" splits at its double space. */
  lemma HashLineSplit()
    ensures SplitOnce("#x  y", "  ") == Some(("#x", "y"))
  {
    var line := "#x  y";
    assert OccursAt(line, "  ", 2);
    assert !OccursAt(line, "  ", 0) && !OccursAt(line, "  ", 1) by {
      assert line[0..2][0] == '#';
      assert line[1..3][0] == 'x';
    }
    assert Find(line, "  ") == Some(2);
    assert line[..2] == "#x" && line[4..] == "y";
  }

  /** Neither half of "#x  y" carries padding or a trailing colon. */
  lemma HashPartsTrimmed()
    ensures RStripChar(Strip("#x"), ':') == "#x" && Strip("y") == "y"
  {
    assert Strip("#x") == "#x" by {
      assert !IsSpace("#x"[1]);
      assert !IsSpace("#x"[0]);
    }
    assert RStripChar("#x", ':') == "#x";
    assert Strip("y") == "y" by { assert !IsSpace("y"[0]); }
  }

  /** Plain mode does not skip comment-like keys: "#x  y" is the field "#x" with value "y". */
  lemma HashKeyKept()
    ensures ClassifyPlain("#x  y") == Field("#x", "y")
  {
    HashLineOpen();
    HashLineSplit();
    HashPartsTrimmed();
  }
}
