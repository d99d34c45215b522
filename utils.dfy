/**
 * The interactive sticker-code enrichment of ramsleuth_pkg/utils.py: the character filter
 * prompt_for_sticker_code applies to what the user types, and apply_lootbox_prompts, which
 * asks for brand-specific codes and writes the non-empty answers into the DIMM records.
 */
module Utils {
  import opened Outcome
  import opened Text
  import opened DimmRecords

  // ---------------------------------------------------------------- sanitising a typed code

  /** The characters of the class [<>&|;"`\x00]: shell metacharacters and NUL. */
  predicate IsUnsafe(c: char)
  {
    c == '<' || c == '>' || c == '&' || c == '|' || c == ';' || c == '"' || c == '`' || c == '\0'
  }

  predicate IsSafe(s: string)
  {
    forall k :: 0 <= k < |s| ==> !IsUnsafe(s[k])
  }

  /** re.sub(r'[<>&|;"`\x00]', '', s): every unsafe character dropped, the rest kept in order. */
  function RemoveUnsafe(s: string): (r: string)
    ensures |r| <= |s|
    ensures IsSafe(r)
    ensures forall c :: c in r <==> c in s && !IsUnsafe(c)
    ensures IsSafe(s) ==> r == s
  {
    if s == [] then []
    else if IsUnsafe(s[0]) then RemoveUnsafe(s[1..])
    else [s[0]] + RemoveUnsafe(s[1..])
  }

  /** Strip only removes characters: it keeps a slice of its input. */
  lemma StripSlice(s: string)
    ensures exists i, j :: 0 <= i <= j <= |s| && Strip(s) == s[i..j]
  {
    RStripSpec(s);
    LStripSpec(RStrip(s));
    var t := RStrip(s);
    var i := |t| - |LStrip(t)|;
    assert Strip(s) == s[i..|t|];
  }

  /** A slice of a safe string is safe. */
  lemma StripSafe(s: string)
    requires IsSafe(s)
    ensures IsSafe(Strip(s))
  {
    StripSlice(s);
    var i, j :| 0 <= i <= j <= |s| && Strip(s) == s[i..j];
    forall k | 0 <= k < |Strip(s)| ensures !IsUnsafe(Strip(s)[k]) {
      assert Strip(s)[k] == s[i + k];
    }
  }

  /** The code prompt_for_sticker_code returns for a line the user typed. */
  function SanitizeCode(typed: string): string
  {
    Strip(RemoveUnsafe(typed))
  }

  /**
   * A sanitised code holds none of < > & | ; " ` NUL, has no whitespace at either end,
   * and sanitising it again changes nothing.
   */
  lemma SanitizeSpec(typed: string)
    ensures IsSafe(SanitizeCode(typed))
    ensures SanitizeCode(typed) == [] || (!IsSpace(SanitizeCode(typed)[0]) && !IsSpace(SanitizeCode(typed)[|SanitizeCode(typed)| - 1]))
    ensures SanitizeCode(SanitizeCode(typed)) == SanitizeCode(typed)
  {
    StripSafe(RemoveUnsafe(typed));
    StripSpec(RemoveUnsafe(typed));
    StripIdempotent(RemoveUnsafe(typed));
  }

  /** Input without unsafe characters only loses its surrounding whitespace. */
  lemma SanitizeSafeInput(typed: string)
    requires IsSafe(typed)
    ensures SanitizeCode(typed) == Strip(typed)
  {
  }

  /** "Ver 4.31" passes through unchanged. */
  lemma SanitizeExample()
    ensures SanitizeCode("Ver 4.31") == "Ver 4.31"
  {
    var v := "Ver 4.31";
    assert IsSafe(v);
    StripTrimmed(v);
  }

  /**
   * What prompt_for_sticker_code returns: the sanitised line, or "" when reading it fails
   * (end of input or any other error, written None).
   */
  function StickerCode(answer: Option<string>): (r: string)
    ensures IsSafe(r)
  {
    match answer
    case None => ""
    case Some(typed) => SanitizeSpec(typed); SanitizeCode(typed)
  }

  // ---------------------------------------------------------------- the lootbox prompts

  /** The four prompts, in the order apply_lootbox_prompts asks them. */
  datatype Brand = Corsair | GSkill | CrucialLootbox | HynixIc

  const CorsairKey := "corsair_version"
  const GSkillKey := "gskill_sticker_code"
  const CrucialKey := "crucial_sticker_suffix"
  const HynixKey := "hynix_ic_part_number"

  /** The record key each prompt's answer is stored under. */
  function StickerKey(b: Brand): string
  {
    match b
    case Corsair => CorsairKey
    case GSkill => GSkillKey
    case CrucialLootbox => CrucialKey
    case HynixIc => HynixKey
  }

  predicate IsStickerKey(k: string)
  {
    k == CorsairKey || k == GSkillKey || k == CrucialKey || k == HynixKey
  }

  /** The four sticker keys are distinct (they differ in length). */
  lemma StickerKeyInjective(a: Brand, b: Brand)
    ensures StickerKey(a) == StickerKey(b) <==> a == b
    ensures IsStickerKey(StickerKey(a))
  {
    assert |CorsairKey| == 15 && |GSkillKey| == 19 && |CrucialKey| == 22 && |HynixKey| == 20;
  }

  /** Whether the prompt for brand b fires for record d; the tests read lower- or upper-cased fields. */
  predicate Prompted(d: Dimm, b: Brand)
  {
    var manufacturer := Lower(Field(d, "manufacturer"));
    match b
    case Corsair => Contains(manufacturer, "corsair")
    case GSkill => Contains(manufacturer, "g.skill") || Contains(manufacturer, "gskill")
    case CrucialLootbox => Contains(manufacturer, "crucial") && Lower(Field(d, "module_part_number")) == "bl2k16g36c16u4b"
    case HynixIc => Contains(Lower(Field(d, "dram_mfg")), "hynix") && Contains(Upper(Field(d, "generation")), "DDR5")
  }

  /** No prompt test reads a sticker key. */
  lemma PromptedFields(d: Dimm, e: Dimm, b: Brand)
    requires forall k :: !IsStickerKey(k) ==> (k in e <==> k in d)
    requires forall k :: !IsStickerKey(k) && k in d ==> e[k] == d[k]
    ensures Prompted(e, b) == Prompted(d, b)
  {
    assert |CorsairKey| == 15 && |GSkillKey| == 19 && |CrucialKey| == 22 && |HynixKey| == 20;
    assert Field(e, "manufacturer") == Field(d, "manufacturer");
    assert Field(e, "module_part_number") == Field(d, "module_part_number");
    assert Field(e, "dram_mfg") == Field(d, "dram_mfg");
    assert Field(e, "generation") == Field(d, "generation");
  }

  /**
   * The user, as an oracle: answer(idx, b) is the line typed at the prompt for brand b
   * on the DIMM at position idx, or None when reading it fails.
   */
  type Answers = (nat, Brand) -> Option<string>

  /** The code brand b contributes to record d at position idx ("" when it is not asked). */
  function CodeFor(d: Dimm, idx: nat, b: Brand, answer: Answers): (r: string)
    ensures IsSafe(r)
    ensures !Prompted(d, b) ==> r == []
    ensures answer(idx, b).None? ==> r == []
  {
    if Prompted(d, b) then StickerCode(answer(idx, b)) else ""
  }

  /** The four codes one record's prompts produce, by brand. */
  datatype Codes = Codes(corsair: string, gskill: string, crucial: string, hynix: string)
  {
    function Of(b: Brand): string
    {
      match b
      case Corsair => corsair
      case GSkill => gskill
      case CrucialLootbox => crucial
      case HynixIc => hynix
    }
  }

  function CodesOf(d: Dimm, idx: nat, answer: Answers): Codes
  {
    Codes(CodeFor(d, idx, Corsair, answer), CodeFor(d, idx, GSkill, answer),
          CodeFor(d, idx, CrucialLootbox, answer), CodeFor(d, idx, HynixIc, answer))
  }

  /** `if code: dimm[key] = code` */
  function Store(d: Dimm, key: string, code: string): Dimm
  {
    if code == [] then d else d[key := code]
  }

  /** The four stores, in prompt order. */
  function Write(d: Dimm, c: Codes): Dimm
  {
    Store(Store(Store(Store(d, CorsairKey, c.corsair), GSkillKey, c.gskill), CrucialKey, c.crucial), HynixKey, c.hynix)
  }

  /** One record after the four prompts (they read the same fields, which no prompt writes). */
  function Enrich(d: Dimm, idx: nat, answer: Answers): Dimm
  {
    Write(d, CodesOf(d, idx, answer))
  }

  /** Every record, enriched in list order. */
  function EnrichAll(dimms: seq<Dimm>, answer: Answers): (r: seq<Dimm>)
    ensures |r| == |dimms|
  {
    seq(|dimms|, i requires 0 <= i < |dimms| => Enrich(dimms[i], i, answer))
  }

  /**
   * The prompts for one record, in the order the loop body asks them; every test reads the
   * fields as they were before the first prompt, which the loop body reads once at its top.
   */
  method PromptDimm(dimm: Dimm, idx: nat, answer: Answers) returns (d: Dimm)
    ensures d == Enrich(dimm, idx, answer)
  {
    d := Ask(dimm, CorsairKey, Prompted(dimm, Corsair), answer(idx, Corsair));
    d := Ask(d, GSkillKey, Prompted(dimm, GSkill), answer(idx, GSkill));
    d := Ask(d, CrucialKey, Prompted(dimm, CrucialLootbox), answer(idx, CrucialLootbox));
    d := Ask(d, HynixKey, Prompted(dimm, HynixIc), answer(idx, HynixIc));
  }

  /** One prompt: when its test holds, ask, and store a non-empty sanitised code under the key. */
  method Ask(d: Dimm, key: string, prompted: bool, reply: Option<string>) returns (e: Dimm)
    ensures e == Store(d, key, if prompted then StickerCode(reply) else "")
  {
    e := d;
    if prompted {
      var code := StickerCode(reply);
      if code != [] {
        e := e[key := code];
      }
    }
  }

  /** apply_lootbox_prompts: nothing happens unless the session is interactive. */
  method ApplyLootboxPrompts(dimms: array<Dimm>, interactive: bool, answer: Answers)
    modifies dimms
    ensures !interactive ==> dimms[..] == old(dimms[..])
    ensures interactive ==> dimms[..] == EnrichAll(old(dimms[..]), answer)
  {
    if !interactive {
      return;
    }
    ghost var before := dimms[..];
    for idx := 0 to dimms.Length
      invariant forall i :: 0 <= i < idx ==> dimms[i] == Enrich(before[i], i, answer)
      invariant forall i :: idx <= i < dimms.Length ==> dimms[i] == before[i]
    {
      var d := PromptDimm(dimms[idx], idx, answer);
      dimms[idx] := d;
    }
    assert forall i :: 0 <= i < dimms.Length ==> dimms[..][i] == EnrichAll(before, answer)[i];
  }

  /** Writing codes changes only the four sticker keys: every other field keeps its presence and value. */
  lemma WriteFrame(d: Dimm, c: Codes)
    ensures forall k :: !IsStickerKey(k) ==> (k in Write(d, c) <==> k in d)
    ensures forall k :: !IsStickerKey(k) && k in d ==> Write(d, c)[k] == d[k]
  {
  }

  /** Brand b's key ends up holding b's code when it is not empty, and is left as it was otherwise. */
  lemma WriteStored(d: Dimm, c: Codes, b: Brand)
    ensures c.Of(b) != [] ==> StickerKey(b) in Write(d, c) && Write(d, c)[StickerKey(b)] == c.Of(b)
    ensures c.Of(b) == [] ==> (StickerKey(b) in Write(d, c) <==> StickerKey(b) in d)
    ensures c.Of(b) == [] && StickerKey(b) in d ==> Write(d, c)[StickerKey(b)] == d[StickerKey(b)]
  {
    assert |CorsairKey| == 15 && |GSkillKey| == 19 && |CrucialKey| == 22 && |HynixKey| == 20;
  }

  /** Only the four sticker keys can change: every other field keeps its presence and value. */
  lemma EnrichFrame(d: Dimm, idx: nat, answer: Answers)
    ensures forall k :: !IsStickerKey(k) ==> (k in Enrich(d, idx, answer) <==> k in d)
    ensures forall k :: !IsStickerKey(k) && k in d ==> Enrich(d, idx, answer)[k] == d[k]
  {
    WriteFrame(d, CodesOf(d, idx, answer));
  }

  /**
   * Brand b's key is written exactly when its prompt fires and the sanitised answer is not
   * empty, and then holds that answer; otherwise it is left as it was.
   */
  lemma EnrichStored(d: Dimm, idx: nat, answer: Answers, b: Brand)
    ensures CodeFor(d, idx, b, answer) != [] ==>
      StickerKey(b) in Enrich(d, idx, answer) && Enrich(d, idx, answer)[StickerKey(b)] == CodeFor(d, idx, b, answer)
    ensures CodeFor(d, idx, b, answer) == [] ==>
      (StickerKey(b) in Enrich(d, idx, answer) <==> StickerKey(b) in d)
    ensures CodeFor(d, idx, b, answer) == [] && StickerKey(b) in d ==>
      Enrich(d, idx, answer)[StickerKey(b)] == d[StickerKey(b)]
  {
    var c := CodesOf(d, idx, answer);
    assert c.Of(b) == CodeFor(d, idx, b, answer);
    WriteStored(d, c, b);
  }

  /** Writing the same codes twice is the same as writing them once. */
  lemma WriteTwice(d: Dimm, c: Codes)
    ensures Write(Write(d, c), c) == Write(d, c)
  {
  }

  /** Running the prompts again with the same answers changes nothing more. */
  lemma EnrichIdempotent(d: Dimm, idx: nat, answer: Answers)
    ensures Enrich(Enrich(d, idx, answer), idx, answer) == Enrich(d, idx, answer)
  {
    var c := CodesOf(d, idx, answer);
    var e := Write(d, c);
    WriteFrame(d, c);
    PromptedFields(d, e, Corsair);
    PromptedFields(d, e, GSkill);
    PromptedFields(d, e, CrucialLootbox);
    PromptedFields(d, e, HynixIc);
    assert CodesOf(e, idx, answer) == c;
    WriteTwice(d, c);
  }

  /** A record that names no manufacturer and no DRAM maker is never prompted for, so it is left as it was. */
  lemma AnonymousRecordUnchanged(d: Dimm, idx: nat, answer: Answers)
    requires "manufacturer" !in d && "dram_mfg" !in d
    ensures Enrich(d, idx, answer) == d
  {
    assert Lower("") == "";
    NotContainsFirstChar("", "corsair");
    NotContainsFirstChar("", "gskill");
    NotContainsFirstChar("", "g.skill");
    NotContainsFirstChar("", "crucial");
    NotContainsFirstChar("", "hynix");
    assert CodesOf(d, idx, answer) == Codes("", "", "", "");
  }
}
