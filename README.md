# RamSleuth in Dafny

RamSleuth identifies the DRAM die type of the memory modules in a Linux machine. The pipeline:

- find the SMBus adapters with `i2cdetect -l`;
- probe them for SPD EEPROMs at 0x50-0x57;
- run `decode-dimms`;
- parse its output (side-by-side "matrix" tables or plain per-DIMM blocks) into one record per DIMM, and deduplicate the records;
- normalise each record's fields (generation, manufacturer, DRAM manufacturer, capacity, ranks, chip organisation, timings, voltages);
- resolve the die type against a JSON heuristic database of rules with priorities.

Around this pipeline sit:

- the scan's inference of the memory speed and active XMP/EXPO profile;
- the interactive "lootbox" sticker-code prompts;
- a settings store persisted as JSON;
- a dependency engine that detects the distribution and builds the native install command.

This project models these parts as Dafny and proves what they promise.

| module | file | models |
|---|---|---|
| `Text` | text.dfy | Python string helpers used by the parsers: `strip`, `lower`, `split`, `find`, digit runs, string ordering |
| `Values` | values.dfy | the dynamic values of a record (`str`, `int`, `float`, `None`) and their truthiness and formatting |
| `Outcome` | outcome.dfy | `Option` and `Result` |
| `Blocks` | blocks.dfy | `_split_decode_dimms_blocks` |
| `Timings` | timings.dfy | the timing and speed regexes of the parser, and `infer_timings` |
| `Profiles` | profiles.dfy | `extract_profiles_from_spd` |
| `DimmRecords` | dimm_records.dfy | the raw record dictionaries that `parse_output` builds |
| `Matrix` | matrix.dfy | the matrix (side-by-side) mode of `parse_output` |
| `Plain` | plain.dfy | the plain-block mode of `parse_output`, including the bank fan-out |
| `ParseOutput` | parse_output.dfy | `parse_output` as a whole: merging the two modes and finalising records |
| `Dedup` | dedup.dfy | `deduplicate_dimms`, the dedup of `perform_system_scan`, and its default slot names |
| `Scanner` | scanner.dfy | `find_smbus`, `scan_bus`, and the speed and profile inference of `get_current_memory_settings` |
| `Normalizer` | normalizer.dfy | the normalisers of RamSleuth_DB.py and `normalize_dimm_data` |
| `RuleDatabase` | rule_database.dfy | `load_database`: entry validation and the stable sort by priority |
| `Resolver` | resolver.dfy | `is_match` and `find_die_type` |
| `Utils` | utils.dfy | `prompt_for_sticker_code` and `apply_lootbox_prompts` |
| `Settings` | settings.dfy | `SettingsService` and `save_config` |
| `Dependencies` | dependencies.dfy | `detect_distribution`, `SYSTEM_PACKAGE_MAP`, `construct_install_command`, the guard of `auto_install_dependencies`, and `get_missing_dependencies` |

Loops in the source become methods whose loops carry invariants. Each method is proved equal to a specification function. The properties the source promises are proved about those functions as lemmas. `SettingsService` is a class whose methods update its dictionary fields.

`ramsleuth.py` carries older copies of several of these functions. `find_smbus`, `scan_bus`, `_split_decode_dimms_blocks`, `deduplicate_dimms` and the dedup loop of `main` are the same code as the package versions, differing only in whitespace, so one member models both. The older `parse_output` differs in three ways: it has no minimum, maximum or configured voltage and no configured-speed label, and it does not infer timings. It is the `Legacy` case of the `Dialect` parameter that every parser member takes. `apply_lootbox_prompts` and `prompt_for_sticker_code` are copied there unchanged as well.

In `Utils` a record is a `map<string, string>`. At ramsleuth.py:2494 `apply_lootbox_prompts` receives records that `normalize_dimm_data` has already normalised, so they can hold non-string values, such as an integer `module_gb`. The prompts read only `manufacturer`, `module_part_number`, `dram_mfg` and `generation`, each through `str()` (ramsleuth_pkg/utils.py:163-166), and they write only string codes, so this typing changes no behaviour.

`ParseOutput.ParseOutput` is proved equal to the function `ParseOutputOf`, so `parse_output` is deterministic: two calls on the same text give equal results.

The two modes drop different labels. Matrix mode skips rows whose lower-cased label is "noise", the garbage line "random garbage line not using pipes at all" or blank, and rows whose label starts with "#" (ramsleuth_pkg/parser.py:209-232). It keeps a "Debug" row, stored under its own name (ramsleuth_pkg/parser.py:277-278; ramsleuth.py:1064); `Matrix.DebugRowKept` shows one. Plain mode drops exactly the keys "Noise", "Debug" and the garbage line (ramsleuth_pkg/parser.py:437-443) and keeps a key starting with "#" (ramsleuth_pkg/parser.py:496-497; ramsleuth.py:1267); `Plain.HashKeyKept` shows one. So the "Debug" exclusion of `Plain.PlainRecordsClean` holds for plain records only, and what `parse_output` as a whole excludes is "Noise", the garbage line and the blank key (`ParseOutput.ParseOutputKeys`).

## Model

| member | source | states |
|---|---|---|
| Blocks.SplitBlocks | ramsleuth_pkg/parser.py:5-42 | The loop returns exactly the blocks dictionary of the output's header sections, in order. |
| Blocks.SplitLine | ramsleuth_pkg/parser.py:20-36 | One loop step: a header line flushes the open section and opens `dimm_<index>`; any other line joins the open section, or is dropped before the first header. |
| Blocks.BlocksOfOutput | ramsleuth_pkg/parser.py:9-38 | There is exactly one block per "Decoding EEPROM"/"SPD data for" line, keyed `dimm_0`, `dimm_1`, …. Block i holds section i. The sections together are the output's lines from the first header on, in order. |
| Blocks.RunKeepsFromFirstHeader | ramsleuth_pkg/parser.py:28-38 | After the final flush, every line from the first header on belongs to a block, in order, and lines before it belong to none. The open section is empty exactly when no header was seen. |
| Blocks.SectionsShape | ramsleuth_pkg/parser.py:28-36 | Every section starts with a header line and holds no other header. |
| Blocks.SectionCount | ramsleuth_pkg/parser.py:30-33 | The number of sections equals the number of header lines. |
| Blocks.BlocksMapValues | ramsleuth_pkg/parser.py:22-24 | Flushing section i stores its text under `dimm_i`. |
| Blocks.BlocksMapKeys | ramsleuth_pkg/parser.py:22-24 | Every key of the blocks dictionary is `dimm_i` for some section i. |
| Blocks.BlockKeyInjective | ramsleuth_pkg/parser.py:32 | Different indices give different block keys, so no flush overwrites an earlier block. |
| Blocks.FirstHeader | ramsleuth_pkg/parser.py:34-36 | The first header position: no line before it is a header, and the line at it is. |
| Blocks.BlockTextEnds | ramsleuth_pkg/parser.py:23 | A stored block text ends in exactly one newline, after a non-whitespace character. |
| Blocks.BlocksEndOnce | ramsleuth.py:825 | Each block of the output is present and ends in exactly one newline after its last non-blank character. |
| Dedup.DeduplicateDimms | ramsleuth_pkg/parser.py:543-581 | The loop keeps exactly the first record of each non-blank (slot, part number, manufacturer) key, in input order. |
| Dedup.ScanDedup | ramsleuth_pkg/scanner.py:740-752 | The loop drops a record exactly when its (slot, part, manufacturer, generation) key is non-blank and was seen before. The part is read from `Part Number` when `module_part_number` is missing. |
| Dedup.ScanDedupStep | ramsleuth_pkg/scanner.py:748-751 | One step of the scan dedup: a seen non-blank key leaves the records and the seen set as they are, any other key appends the record and adds the key. |
| Dedup.KeptPositionsSpec | ramsleuth_pkg/parser.py:565-579 | The surviving positions are strictly increasing, and a position is among them exactly when its record survives. |
| Dedup.PickedAt | ramsleuth_pkg/parser.py:579 | Position k of the result is the input record at the k-th surviving position. |
| Dedup.PickedPositions | ramsleuth_pkg/parser.py:550 | The result is the surviving records in input order, and nothing else. |
| Dedup.DedupedPositions | ramsleuth.py:2429-2440 | The dedup of `main` (as that of the scan and `deduplicate_dimms`) returns the surviving records of the list, at strictly increasing positions, in input order. |
| Dedup.KeptPrefix | ramsleuth_pkg/parser.py:565-579 | Whether a record survives depends only on the records up to it. |
| Dedup.FirstOfKeySeen | ramsleuth_pkg/parser.py:577-578 | The `seen_keys` test matches "no earlier record has this key". |
| Dedup.PickedStep | ramsleuth_pkg/parser.py:565-579 | One loop step extends the kept prefix and the seen set by exactly the current record and its key. |
| Dedup.DedupedUnique | ramsleuth_pkg/parser.py:576-579 | No two survivors share a key, except blank-key records of the scan dedup. |
| Dedup.PartDedupNoBlank | ramsleuth.py:1332-1335 | `deduplicate_dimms` drops every record whose three key fields are all empty. |
| Dedup.ScanDedupKeepsBlank | ramsleuth_pkg/scanner.py:747-751 | The scan dedup keeps every blank-key record. |
| Dedup.FirstWithKey | ramsleuth_pkg/parser.py:576-579 | The earliest record with a given key lies at or before any record with that key. |
| Dedup.DedupedComplete | ramsleuth_pkg/parser.py:549 | Every non-blank key of the input is carried by some survivor. |
| Dedup.AssignDefaultSlots | ramsleuth_pkg/scanner.py:758-760 | Record i without a `slot` gets `DIMM_i`. Every other record is unchanged, and the list keeps its length. |
| Dedup.DefaultSlotInjective | ramsleuth_pkg/scanner.py:760 | Different positions get different default slot names. |
| Dedup.WithSlotSpec | ramsleuth_pkg/scanner.py:759-760 | After the pass every record has a slot. A record that had one is unchanged; a record that had none gains only the slot, and no two records share a default name. |
| Dependencies.ClassifyOsRelease | ramsleuth_pkg/dependency_engine.py:152-189 | A recognised os-release ID maps to a known internal ID and to pacman, apt, dnf, zypper or emerge. |
| Dependencies.ClassifyLsb | ramsleuth_pkg/dependency_engine.py:207-223 | A recognised lsb_release ID maps to a known internal ID and to pacman or apt. |
| Dependencies.InstallCommand | ramsleuth_pkg/dependency_engine.py:368-406 | A non-empty command needs packages and an install command, and starts with "sudo", the install command and a space. |
| Dependencies.StripQuotes | ramsleuth_pkg/dependency_engine.py:141-145 | The quote removal never lengthens a value. |
| Dependencies.QuoteRoundTrip | ramsleuth_pkg/dependency_engine.py:141-145 | A value wrapped in matching `"` or `'` quotes comes back unchanged. |
| Dependencies.UnquotedKept | ramsleuth_pkg/dependency_engine.py:142-146 | A value that does not both start and end with the same quote is kept as is. |
| Dependencies.LoneQuote | ramsleuth_pkg/dependency_engine.py:142-145 | A value that is a single quote character reads as empty. |
| Dependencies.ParseLine | ramsleuth_pkg/dependency_engine.py:138-146 | One os-release line: stripped, split at the first `=`, value unquoted. A line without `=` gives no entry. |
| Dependencies.ReadOsRelease | ramsleuth_pkg/dependency_engine.py:136-146 | The loop builds the os-release dictionary of the lines. |
| Dependencies.Entries | ramsleuth_pkg/dependency_engine.py:137-146 | Each line is read as its own entry, in order. |
| Dependencies.AssembleKeys | ramsleuth_pkg/dependency_engine.py:146 | A key is present exactly when some entry defines it. |
| Dependencies.AssembleLast | ramsleuth_pkg/dependency_engine.py:146 | A key's value is the one its last entry gives. |
| Dependencies.OsReleaseDataSpec | ramsleuth_pkg/dependency_engine.py:136-146 | A key is in `os_release_data` exactly when some line defines it, and its value comes from the last such line. |
| Dependencies.ClassifyOsReleaseSpec | ramsleuth_pkg/dependency_engine.py:152-189 | The table gives only known internal IDs, each with a non-empty install command. The RHEL family keeps its own ID with dnf. arch uses pacman, ubuntu uses apt, opensuse uses zypper. |
| Dependencies.TablesAgree | ramsleuth_pkg/dependency_engine.py:207-223 | The lsb_release table gives only known IDs, and it agrees with the os-release table where both know an ID. |
| Dependencies.DetectDistribution | ramsleuth_pkg/dependency_engine.py:107-227 | The method computes the detection: the os-release step, then the lsb_release fallback on Linux while the ID is "unknown". |
| Dependencies.DetectionSpec | ramsleuth_pkg/dependency_engine.py:122-227 | The detected ID is "unknown" or a known ID. It is "unknown" exactly when the install command is empty. Without os-release on a non-Linux system the result is the default dictionary. |
| Dependencies.ToolNamesNoSpace | ramsleuth_pkg/dependency_engine.py:26-73 | The native names of the i2c tools and dmidecode hold no space. |
| Dependencies.TextualNamesNoSpace | ramsleuth_pkg/dependency_engine.py:75-86 | The native names of textual hold no space. |
| Dependencies.LinkifyNamesNoSpace | ramsleuth_pkg/dependency_engine.py:88-99 | The native names of linkify_it hold no space. |
| Dependencies.NativeNameNoSpace | ramsleuth_pkg/dependency_engine.py:24-100 | No native package name in `SYSTEM_PACKAGE_MAP` contains a space. |
| Dependencies.MappedAppend | ramsleuth_pkg/dependency_engine.py:389-393 | `system_packages` of a concatenation is the concatenation of the parts' `system_packages`. |
| Dependencies.MappedSpec | ramsleuth_pkg/dependency_engine.py:389-393 | Every native name comes from a listed package, and none holds a space. Unknown distributions and unmapped packages contribute nothing. There are at most as many names as packages. |
| Dependencies.ConstructInstallCommand | ramsleuth_pkg/dependency_engine.py:368-406 | The loop builds the install command. |
| Dependencies.InstallCommandSpec | ramsleuth_pkg/dependency_engine.py:379-406 | The command is empty exactly for an empty list, an empty install prefix or no mapped name. Otherwise it is `sudo`, the prefix and the names, and splitting it on spaces gives the names back in input order. |
| Dependencies.MappedToolsInstallable | ramsleuth_pkg/dependency_engine.py:24-100 | On every distribution the os-release table detects, except oracle, each mapped tool or package gets a non-empty command. |
| Dependencies.OracleHasNoPackages | ramsleuth_pkg/dependency_engine.py:173-177 | "oracle" is detected with dnf, but `SYSTEM_PACKAGE_MAP` lists no package for it, so every install command there is empty. |
| Dependencies.AutoInstallPlanSpec | ramsleuth_pkg/dependency_engine.py:424-436 | Nothing runs for an empty list, an unknown distribution or an empty command. Otherwise the command run starts with `sudo <install_cmd> `. |
| Dependencies.Unavailable | ramsleuth_pkg/dependency_engine.py:350-359 | A name is reported exactly when it is in the list and the probe says it is unavailable. |
| Dependencies.GetMissingDependencies | ramsleuth_pkg/dependency_engine.py:331-361 | "system" lists the unavailable core tools when "core" is requested, and is empty otherwise. "python" does the same for the TUI packages under "tui". |
| Dependencies.MissingSpec | ramsleuth_pkg/dependency_engine.py:345-361 | Only the three core tools and the two TUI packages can be listed, and only when unavailable: at most 3 and at most 2 names. |
| Dependencies.UnavailableLength | ramsleuth_pkg/dependency_engine.py:350-352 | No more names are reported than are probed. |
| DimmRecords.NoNoise | ramsleuth_pkg/parser.py:437-443 | A record with no blank key and none of plain mode's noise keys is free of noise keys. |
| Matrix.HeaderTableAt | ramsleuth_pkg/parser.py:191-198 | Entry j of the header table says whether line j is a header row: a first cell starting with "field" and a later cell mentioning "dimm", in any case. |
| Matrix.HeaderFrom | ramsleuth_pkg/parser.py:191-201 | The header search returns an index within the lines, at or after its start. |
| Matrix.HeaderFromSpec | ramsleuth_pkg/parser.py:191-201 | The search returns the first header row, and nothing when no line is one. |
| Matrix.FindHeader | ramsleuth_pkg/parser.py:188-201 | The search loop stops at the first header row, or reports none (`header_index == -1`). |
| Matrix.ClassifyRow | ramsleuth_pkg/parser.py:215-232 | A row that stays is labelled, and its label is neither blank nor a noise label. |
| Matrix.Fit | ramsleuth_pkg/parser.py:234-238 | The value cells are padded with "" or cut to exactly the header's column count. |
| Matrix.CanonicalKey | ramsleuth_pkg/parser.py:240-278 | A label is stored under one of the known field names, or under itself. |
| Matrix.Classify | ramsleuth_pkg/parser.py:215-232 | Every line after the header is classified, one classification per line. |
| Matrix.NonEmpty | ramsleuth_pkg/parser.py:333 | `[d for d in dimms if d]` keeps only non-empty records, each taken from the list, and never more than the list held. |
| Matrix.SetDefaults | ramsleuth_pkg/parser.py:326-331 | The loop runs `setdefault(key, "")` on every column record. |
| Matrix.ScanRow | ramsleuth_pkg/parser.py:234-331 | The body of the row loop computes the effect of one labelled row on the column records. |
| Matrix.ParseMatrix | ramsleuth_pkg/parser.py:188-333 | Matrix mode: the non-empty column records read from the rows under the first header row, up to the first block header. |
| Matrix.MatrixRunLength | ramsleuth_pkg/parser.py:207 | The row loop keeps exactly one record per header column. |
| Matrix.MatrixRecordCount | ramsleuth_pkg/parser.py:203-333 | Without a header row there are no records. With one there are at most as many as header columns, and none is empty. |
| Matrix.ColumnsCount | ramsleuth_pkg/parser.py:205-207 | The records read under a header row never outnumber its columns. |
| Matrix.ApplyRowAt | ramsleuth_pkg/parser.py:280-331 | A labelled row changes column i through its own cell only. The two diagnostic setdefaults follow. |
| Matrix.CellEffect | ramsleuth_pkg/parser.py:280-324 | A blank cell writes nothing. A non-blank cell is stored stripped under the key, and a slot guess also becomes `slot`. No other key changes, except the two diagnostic keys, which may appear empty. |
| Matrix.ApplyRowCell | ramsleuth_pkg/parser.py:234-331 | Column i sees the i-th value, or "" past the end of the row, and values past the header's column count are never read. |
| Matrix.StopEndsTable | ramsleuth_pkg/parser.py:215-218 | A "Decoding EEPROM"/"SPD data for" line ends the table: no line after it is read. |
| Matrix.AddedKeysClean | ramsleuth_pkg/parser.py:312 | The keys the row loop adds on its own (`slot` and the two diagnostic keys) are not noise labels. |
| Matrix.ApplyRowClean | ramsleuth_pkg/parser.py:226-324 | A row whose label is not noise adds no noise key to a clean record. |
| Matrix.MatrixRunClean | ramsleuth_pkg/parser.py:215-331 | The row loop keeps every column record clean of noise keys. |
| Matrix.MatrixRecordsClean | ramsleuth_pkg/parser.py:209-232 | No matrix record holds a key whose lower case is "noise", the garbage line or blank. |
| Matrix.ColumnsClean | ramsleuth_pkg/parser.py:209-333 | The records read under any header row are clean of noise keys. |
| Matrix.DebugCells | ramsleuth_pkg/parser.py:222 | The row "Debug \| on" splits on the pipe into the stripped cells "Debug" and "on". |
| Matrix.LowerDebug | ramsleuth_pkg/parser.py:229 | The label "Debug" lower-cases to "debug", which is not in the matrix noise set. |
| Matrix.DebugKey | ramsleuth_pkg/parser.py:240-278 | No canonical mapping applies to "Debug", so it is stored under its own name in either dialect. |
| Matrix.DebugRowClassified | ramsleuth_pkg/parser.py:215-233 | The row "Debug \| on" passes every skip test and is a labelled row with the value "on". |
| Matrix.DebugRowKept | ramsleuth_pkg/parser.py:209-282 | Matrix mode keeps a "Debug" row: one column gets the key "Debug" with value "on". |
| Matrix.DebugRowWritten | ramsleuth_pkg/parser.py:277-284 | A "Debug" row keeps its own name as key and writes its stripped value "on" into the one column record. |
| Plain.SlotWordAt | ramsleuth_pkg/parser.py:366 | A match of `(bank\|dimm)\s*\d+` starting at i ends at least five characters later, within the string. |
| Plain.FirstSlotWord | ramsleuth_pkg/parser.py:366-368 | `re.search` returns the leftmost match: it matches at its start, and no earlier position matches. It returns none only when no position matches. |
| Plain.NormalizeEmpty | ramsleuth_pkg/parser.py:344-345 | `_normalize_slot_string` of an empty value is empty. |
| Plain.SlotWordText | ramsleuth_pkg/parser.py:366-368 | The text a match covers is "bank"/"dimm", then whitespace, then at least one digit. |
| Plain.DeriveSlotsRules | ramsleuth_pkg/parser.py:347-370 | The rules in order: a blank guess gives no slot; a value naming both "bank 3" and "bank 4" gives both; otherwise the leftmost bank/dimm word; otherwise the raw value. Every slot is non-empty. |
| Plain.SlotWordLetters | ramsleuth_pkg/parser.py:366 | After its name, a slot word holds only whitespace and digits. |
| Plain.BankAt | ramsleuth_pkg/parser.py:362-368 | In a slot word, "bank " followed by a character occurs only at its start. |
| Plain.SlotWordNamesOneBank | ramsleuth_pkg/parser.py:362-368 | A single slot word never holds both "bank 3" and "bank 4", so the aggregate rule cannot be reached through the single-slot rule. |
| Plain.ClassifyPlain | ramsleuth_pkg/parser.py:404-443 | A line read as a field has a non-empty key and value, and its key is not one the loop drops ("Noise", "Debug", the garbage line). |
| Plain.TrailingDigitsStart | ramsleuth_pkg/parser.py:483 | `(\d+)$`: the digit run that ends the string is maximal. |
| Plain.FieldAction | ramsleuth_pkg/parser.py:445-497 | The elif chain stores the value under a known plain field name or under the key itself. A guess line sets the slots to `_derive_slots_from_guess` of its value and stores the raw value. |
| Plain.CommitBlock | ramsleuth_pkg/parser.py:372-402 | The `_commit_block` loop computes the commit of the block state. |
| Plain.ScanPlainLine | ramsleuth_pkg/parser.py:404-497 | The body of the line loop computes one step of the block state. |
| Plain.ParsePlain | ramsleuth_pkg/parser.py:338-500 | Plain mode: the line loop, then the trailing commit. |
| Plain.CommitFanOut | ramsleuth_pkg/parser.py:381-402 | Nothing is emitted without pending fields or without slots. Otherwise there is one record per slot, in slot order, holding the pending fields with `slot` (and the guess, when read) set to that slot. Either way the block is cleared. |
| Plain.SlotCopyRecord | ramsleuth_pkg/parser.py:392-398 | A fanned-out record has its slot, and its guess, when present, equals the slot. |
| Plain.CommitInv | ramsleuth_pkg/parser.py:372-402 | A commit keeps the block invariant: slots are non-empty, no dropped or blank key is stored, and every record has a slot its guess agrees with. |
| Plain.SetAllClean | ramsleuth_pkg/parser.py:445-497 | Storing a value under clean keys keeps the pending fields clean and adds exactly those keys. |
| Plain.StepInv | ramsleuth_pkg/parser.py:404-497 | Each pass of the line loop keeps the block invariant. |
| Plain.PlainRunInv | ramsleuth_pkg/parser.py:404-497 | The whole line loop keeps the block invariant. |
| Plain.PlainRecordsClean | ramsleuth_pkg/parser.py:372-500 | Every plain record has a non-empty slot, its guess (when present) equals the slot, and it holds no "Noise", "Debug", garbage-line or blank key. |
| Plain.NoHeaderNoRecords | ramsleuth_pkg/parser.py:420-422 | Text before the first "Decoding EEPROM" line gathers nothing, so output without one gives no plain records. |
| Plain.HashKeyKept | ramsleuth_pkg/parser.py:437-497 | Plain mode keeps a key starting with "#": the line "#x  y" is the field "#x" with value "y". |
| ParseOutput.KeepSound | ramsleuth_pkg/parser.py:513-524 | The merge keeps only records of its input, each with a non-empty slot not taken before, and no slot twice. |
| ParseOutput.KeepComplete | ramsleuth_pkg/parser.py:513-524 | Every input slot that was not taken before is represented by a kept record. |
| ParseOutput.KeepAppend | ramsleuth_pkg/parser.py:509-524 | The two merge loops are one pass over the matrix records followed by the plain ones, sharing `seen_slots`. |
| ParseOutput.MergeMatrixFirst | ramsleuth_pkg/parser.py:507-524 | The merge returns the kept matrix records first, then the plain records whose slot none of them has. |
| ParseOutput.MergeSpec | ramsleuth_pkg/parser.py:507-524 | The merge keeps only input records, none without a slot and no slot twice, and every slot of either list is represented. |
| ParseOutput.MergeRecords | ramsleuth_pkg/parser.py:509-524 | The two merge loops with their seen-slot set compute the merge. |
| ParseOutput.KeepStep | ramsleuth_pkg/parser.py:514-518 | One merge step keeps a record exactly when it has a slot not yet seen, and then adds that slot to the seen set. |
| ParseOutput.DistinctFinalKeys | ramsleuth_pkg/parser.py:526-539 | The keys the final pass reads and writes are distinct, so the setdefaults and the timing do not interfere. |
| ParseOutput.FinalizeSpec | ramsleuth_pkg/parser.py:526-539 | The final pass keeps every field and adds both diagnostic keys, empty when missing. It adds `timings` exactly when the record has a configured speed with digits, a generation and no timing yet. The value is `infer_timings` of the first digit run and the generation. |
| ParseOutput.FinalizeRecords | ramsleuth_pkg/parser.py:527-539 | The final loop completes each record in place. |
| ParseOutput.ParseOutput | ramsleuth_pkg/parser.py:167-541 | `parse_output` is matrix mode, plain mode, the merge and the final pass. |
| ParseOutput.LowerNoise | ramsleuth_pkg/parser.py:209-212 | The label "Noise" lower-cases to the noise label. |
| ParseOutput.MatrixRecordNoNoise | ramsleuth_pkg/parser.py:209-232 | A clean matrix record holds neither "Noise", the garbage line "Random garbage line not using pipes at all", nor a blank key. |
| ParseOutput.LowerGarbage | ramsleuth_pkg/parser.py:209-213 | The lower-case garbage label in the matrix noise set is the lower case of the garbage line itself, so one test covers both spellings. |
| ParseOutput.FinalizeNoNoise | ramsleuth_pkg/parser.py:527-539 | The final pass adds no "Noise", garbage-line or blank key. |
| ParseOutput.ParseOutputSlots | ramsleuth.py:1279-1294 | In both copies, every record `parse_output` returns has a non-empty slot, and no slot occurs twice. |
| ParseOutput.SourcesNoNoise | ramsleuth_pkg/parser.py:231-232 | Neither the matrix records nor the plain records hold "Noise", the garbage line or a blank key. |
| ParseOutput.FinalizeEachKeys | ramsleuth_pkg/parser.py:526-529 | After the final pass every record has both diagnostic keys and still holds no "Noise", garbage-line or blank key. |
| ParseOutput.ParseOutputKeys | ramsleuth_pkg/parser.py:526-529 | Every returned record carries both diagnostic keys, and none holds the "Noise" label, the garbage line or a blank key. |
| ParseOutput.EmptyOutputNoRecords | ramsleuth.py:975-977 | Output with no lines gives no records, in both copies of `parse_output`. |
| Profiles.Get | ramsleuth_pkg/parser.py:120 | Looking up a key in the profiles dict finds an entry exactly when the key is present. |
| Profiles.Put | ramsleuth_pkg/parser.py:111-115 | Assigning under a key adds an entry only when the key is new. |
| Profiles.GetEntry | ramsleuth_pkg/parser.py:120 | In a dict with distinct keys, looking up the key of entry i gives that entry. |
| Profiles.PutEntries | ramsleuth_pkg/parser.py:111-115 | Assignment replaces an existing entry where it stands, or appends a new one last, as a Python dict keeps insertion order. |
| Profiles.PutKeys | ramsleuth_pkg/parser.py:111-115 | After an assignment the old keys stay in place, followed by the new key if it is new, and keys stay distinct. |
| Profiles.PutGet | ramsleuth_pkg/parser.py:111-115 | After `profiles[key] = p`, `profiles[key]` is p and every other key maps to what it mapped to before. |
| Profiles.ExtractProfiles | ramsleuth_pkg/parser.py:44-138 | The loop computes the profiles of the decode-dimms output. |
| Profiles.ScanLine | ramsleuth_pkg/parser.py:58-136 | The loop body computes one step for one line. |
| Profiles.FactsOfLine | ramsleuth_pkg/parser.py:70-109 | A speed is read only from an XMP/EXPO line with "MT/s", and any timings found are three or four dash-joined groups of one to three digits. |
| Profiles.PutValid | ramsleuth_pkg/parser.py:111-115 | Storing a valid profile keeps every entry valid and the keys distinct. |
| Profiles.StepValid | ramsleuth_pkg/parser.py:58-136 | Each line keeps the profiles valid. |
| Profiles.FillValid | ramsleuth_pkg/parser.py:119-136 | Filling in the current profile's timings keeps it valid. |
| Profiles.ScanValid | ramsleuth_pkg/parser.py:44-138 | Every kept profile is "XMP/EXPO", keyed by the speed its own stripped description line states, each speed at most once, with timings "Unknown" or three or four dash-joined groups. |
| Profiles.NonHeaderLineFillsTimingsOnly | ramsleuth_pkg/parser.py:119-136 | A line that announces no profile never adds or reorders profiles. It changes at most the current profile, only while its timings are "Unknown", and only its timings. |
| Profiles.ProfileThenTimingLine | ramsleuth_pkg/parser.py:66-69 | The multi-line case: a profile line without timings, followed by a line that has them, gives that profile those timings. |
| Profiles.ProfileLineWithTimings | ramsleuth_pkg/parser.py:106-116 | A profile line that carries its own timings records them at once and becomes the current profile. |
| Timings.InferTimings | ramsleuth_pkg/parser.py:140-165 | Below 1066 MT/s the timings are "Unknown" for every generation; any other answer is a "CL" timing string. |
| Timings.GroupEnd | ramsleuth_pkg/parser.py:79 | A `(\d{1,3})` group followed by `\b`: one to three digits, and no digit follows. |
| Timings.SepEnd | ramsleuth_pkg/parser.py:79 | A `[ -]+` run: at least one character, all spaces or dashes. |
| Timings.GroupThenSep | ramsleuth_pkg/parser.py:79 | A group of one to three digits and the separator run behind it. |
| Timings.DigitGroup | ramsleuth_pkg/parser.py:79 | A digit run cut out of the line is a digit string, a prefix of the rest of the line and a suffix of the line up to its end. |
| Timings.Cut3 | ramsleuth_pkg/parser.py:79 | The three cut groups are digit strings of at most three digits: the first starts the match and the third ends where the match's third group ends. |
| Timings.ThreeGroups | ramsleuth_pkg/parser.py:79 | `\b(\d{1,3})[ -]+(\d{1,3})[ -]+(\d{1,3})` gives three digit groups of at most three digits, within the line, the first at the start. |
| Timings.FourthGroup | ramsleuth_pkg/parser.py:79 | The optional `(?:[ -]+(\d{1,3}))?` gives a group of one to three digits followed by `\b`. |
| Timings.Tail | ramsleuth_pkg/parser.py:79 | After the third group: the fourth group when it can be taken, otherwise `\b` right behind the third. |
| Timings.MatchAt | ramsleuth_pkg/parser.py:79 | A match of the timing pattern at i starts at i and is well formed: three or four digit groups spanning a whole word of the line. |
| Timings.Found | ramsleuth_pkg/parser.py:81 | The table of matches has the line's length and holds, at each position, the match starting there. |
| Timings.Scan | ramsleuth_pkg/parser.py:81 | The `finditer` search over the table reports matches inside the searched range. |
| Timings.ScanSound | ramsleuth_pkg/parser.py:81 | Every match the search reports is the table entry at its start. |
| Timings.MatchesSound | ramsleuth_pkg/parser.py:81 | Every match `re.finditer` reports is a match of the pattern at its start. |
| Timings.ScanOrdered | ramsleuth_pkg/parser.py:81 | The search reports matches in order without overlap. |
| Timings.MatchesOrdered | ramsleuth_pkg/parser.py:81 | The matches come in order and do not overlap: each starts at or after the end of the previous one. |
| Timings.ScanComplete | ramsleuth_pkg/parser.py:81 | Every table position holding a match lies inside a reported match. |
| Timings.MatchesComplete | ramsleuth_pkg/parser.py:81 | No match is missed: every position where the pattern matches lies inside a reported match. |
| Timings.FirstFourSpec | ramsleuth_pkg/parser.py:97-104 | The first eligible four-group match: none exactly when no eligible four-group match exists, otherwise the earliest. |
| Timings.LastEligibleSpec | ramsleuth_pkg/parser.py:97-101 | The last match not followed by '.': none exactly when every match is followed by '.'. |
| Timings.ChosenSpec | ramsleuth_pkg/parser.py:86-104 | The selection loop picks nothing exactly when no match is eligible. If an eligible four-group match exists it picks the first one; otherwise it picks the last eligible match. |
| Timings.FirstFourKept | ramsleuth_pkg/parser.py:103-104 | Once a four-group match is found, later matches do not change the choice (the loop breaks). |
| Timings.SelectTimings | ramsleuth_pkg/parser.py:86-109 | The selection loop returns the chosen match's groups joined with '-'. |
| Timings.TimingsRoundTrip | ramsleuth_pkg/parser.py:106-109 | The timings text is digits and dashes, and splitting it on '-' gives back the match's three or four groups. |
| Timings.SpacedFirst | verify_max_xmp.py:36 | In "18 22 22 42" the first group ends at 2 and its separator at 3. |
| Timings.SpacedSecond | verify_max_xmp.py:36 | The second group ends at 5 and its separator at 6. |
| Timings.SpacedThird | verify_max_xmp.py:36 | The third group ends at 8. |
| Timings.SpacedHead | verify_max_xmp.py:36 | The first three groups of "18 22 22 42" are 18, 22, 22. |
| Timings.SpacedTail | verify_max_xmp.py:36 | The fourth group 42 is taken, ending the match at 11. |
| Timings.SpacedMatches | verify_max_xmp.py:36 | `finditer` finds exactly one four-group match over the whole line. |
| Timings.JoinSpaced | ramsleuth_pkg/parser.py:108-109 | Joining the four groups with '-' gives "18-22-22-42". |
| Timings.SpacedTimingsExample | verify_max_xmp.py:29-44 | Space-separated timings on the line after a profile are found and normalised to "18-22-22-42". |
| Timings.SpeedAt | ramsleuth_pkg/parser.py:72 | A match of `(\d+)\s*MT/s` at i begins with a non-empty digit run. |
| Timings.SpeedTable | ramsleuth_pkg/parser.py:72 | The table says, position by position, whether the speed pattern matches there. |
| Timings.FindSpeed | ramsleuth_pkg/parser.py:72-73 | `re.search` returns the first position where the speed pattern matches, and none when no position does. |
| Timings.SpeedOf | ramsleuth_pkg/parser.py:72-74 | The speed read off a profile line is a string of digits. |
| Timings.SpeedIsWholeNumber | ramsleuth_pkg/parser.py:72-74 | The speed is a whole number: no digit precedes the match. |
| Timings.SpeedAtExtends | ramsleuth_pkg/parser.py:72 | A match of the speed pattern also matches one digit earlier, so the leftmost match takes the whole digit run. |
| Timings.InferTimingsIsLookup | ramsleuth_pkg/parser.py:140-165 | `infer_timings` is a lookup in the JEDEC table of the first family (DDR4, DDR5, DDR3) that the upper-cased generation names, and "Unknown" when the lookup fails. |
| Timings.InferTimingsKnown | ramsleuth_pkg/parser.py:146-165 | The timings are known exactly for DDR4 from 2133, DDR5 from 4800 and DDR3 from 1066 MT/s, checked in that order. |
| Timings.TablesDescending | ramsleuth_pkg/parser.py:147-163 | Each JEDEC table runs from fastest to slowest with CAS latency never rising towards the slow end. |
| Timings.LookupMonotone | ramsleuth_pkg/parser.py:147-163 | In a descending table a faster speed finds a bin at least as fast, with at least the same CAS latency. |
| Timings.LookupIn | ramsleuth_pkg/parser.py:147-163 | A lookup returns a row of the table. |
| Timings.FasterNeverLowerLatency | ramsleuth_pkg/parser.py:140-165 | A faster module of the same generation is never given a lower inferred CAS latency. |
| Scanner.Insert | ramsleuth_pkg/scanner.py:82 | Inserting into a sorted list adds exactly one copy of the value and nothing else. |
| Scanner.Sorted | ramsleuth_pkg/scanner.py:82 | `sorted()` is a permutation of its input. |
| Scanner.InsertIncreasing | ramsleuth_pkg/scanner.py:82 | Inserting a new value into a strictly increasing list keeps it strictly increasing. |
| Scanner.SortedIncreasing | ramsleuth_pkg/scanner.py:82 | Sorting distinct numbers gives them in strictly increasing order. |
| Scanner.Collect | ramsleuth_pkg/scanner.py:79-80 | The candidates list holds each value found exactly once, and nothing else. |
| Scanner.CollectStep | ramsleuth_pkg/scanner.py:79-80 | One step appends a value only when it is new. |
| Scanner.SortedCollect | ramsleuth_pkg/scanner.py:79-82 | The sorted candidates are strictly increasing and are exactly the values found. |
| Scanner.BusFoundAt | ramsleuth_pkg/scanner.py:61-78 | Entry i of the per-line table is the bus number line i gives. |
| Scanner.LineBusId | ramsleuth_pkg/scanner.py:61-78 | The filters `find_smbus` applies to one line give that line's bus number. |
| Scanner.FindSmbus | ramsleuth_pkg/scanner.py:60-82 | The candidate loop and the final `sorted` compute `find_smbus`'s result for the output of `i2cdetect -l`. |
| Scanner.BusIdsSpec | ramsleuth.py:86-152 | `find_smbus` returns bus numbers in strictly increasing order: exactly the numbers the lines give, each once. |
| Scanner.BusIdOfSpec | ramsleuth_pkg/scanner.py:62-78 | A line gives a bus number only when, stripped and lower-cased, it names a chipset SMBus adapter and no graphics adapter, and its first word is "i2c-" followed by digits whose value is that number. |
| Scanner.AddressFound | ramsleuth_pkg/scanner.py:127-141 | Each token of the table is read as its own address, in order. |
| Scanner.TokensStep | ramsleuth_pkg/scanner.py:123-127 | The tokens of one more line are the tokens so far followed by that line's words. |
| Scanner.TokenStep | ramsleuth_pkg/scanner.py:127-141 | One token step appends its address only when it is new. |
| Scanner.TokenAddress | ramsleuth_pkg/scanner.py:129-141 | The filters `scan_bus` applies to one token give its address. |
| Scanner.ScanBus | ramsleuth_pkg/scanner.py:122-142 | The two loops and the final `sorted` compute `scan_bus`'s result for the output of `i2cdetect -y`. |
| Scanner.AddressesSpec | ramsleuth_pkg/scanner.py:84-142 | `scan_bus` returns strictly increasing addresses in 0x50..0x57: exactly those shown by a token of two or three hex digits that does not end in ':'. |
| Scanner.AddressTokens | ramsleuth_pkg/scanner.py:129-141 | Every address a token shows lies in 0x50..0x57. |
| Scanner.AtMostEight | ramsleuth_pkg/scanner.py:139-142 | A strictly increasing list of addresses in 0x50..0x57 has at most eight entries. |
| Scanner.Climb | ramsleuth_pkg/scanner.py:139-142 | In such a list, entry k is at least 0x50 + k. |
| Scanner.AddressesAtMostEight | ramsleuth.py:155-213 | `scan_bus` reports at most eight SPD addresses. |
| Scanner.MaxBestBound | ramsleuth_pkg/scanner.py:234-244 | The best speed is 0 exactly while no profile is picked, and no profile's speed exceeds it. |
| Scanner.MaxBestWitness | ramsleuth_pkg/scanner.py:237-244 | A picked profile is the first one that reaches the best speed. |
| Scanner.MaxBestSpec | ramsleuth_pkg/scanner.py:234-244 | The maximum loop picks a profile of strictly highest speed, the first when several share it. It picks none, at speed 0, when no profile's speed is above 0. |
| Scanner.FindSpeedCl | ramsleuth_pkg/scanner.py:281 | `re.search` of `(\d{4})[CJ](\d+)` finds the leftmost match, and none when no position matches. |
| Scanner.FindKingston | ramsleuth_pkg/scanner.py:288 | `re.search` of `(?:KF\|HX)4(\d{2})C(\d+)` finds the leftmost match, and none when no position matches. |
| Scanner.PartSpeedCl | ramsleuth_pkg/scanner.py:281-291 | The CAS latency read off a part number is a digit string. |
| Scanner.PartBestSpec | ramsleuth_pkg/scanner.py:270-301 | A part-number profile needs a given part number other than "Unknown" and a speed from 1000 to 10000. Its timings are "CL" and the digits after the speed, and its description names the speed. The patterns are tried on the upper-cased, stripped part number. |
| Scanner.GSkillExample | ramsleuth_pkg/scanner.py:277-284 | F4-3600C18 reads as 3600 MT/s at CL18. |
| Scanner.KingstonExample | ramsleuth_pkg/scanner.py:286-291 | KF432C16 reads as 3200 MT/s at CL16. |
| Scanner.GSkillMatch | ramsleuth_pkg/scanner.py:281 | In F4-3600C18 the first speed-and-latency match starts after the "F4-" prefix. |
| Scanner.KingstonMatch | ramsleuth_pkg/scanner.py:281-288 | KF432C16 has no four-digit speed, so only the Kingston pattern matches it. |
| Scanner.NatToStringExamples | ramsleuth_pkg/scanner.py:312 | Speeds print in decimal. |
| Scanner.FirstNearSpec | ramsleuth_pkg/scanner.py:325-331 | The matching loop finds a profile exactly when some listed speed is within 100 MT/s, and then it finds the first such. |
| Scanner.RatedTextSpec | ramsleuth_pkg/scanner.py:304-312 | The rated text is "<speed> MT/s (…)" with the timings after one "CL", unless the timings already begin with "CL". |
| Scanner.DoubledPrefix | ramsleuth_pkg/scanner.py:309-310 | Timings that start "CLCL" start "CL", and past their first two characters they start "CL" exactly when they start "CLCL". |
| Scanner.RatedTextExample | verify_max_xmp.py:44-54 | Bare timings get "CL" added and "CL" timings are kept: "3600 MT/s (CL18-22-22-42)" and "3200 MT/s (CL16)". |
| Scanner.RatedTextBare | verify_max_xmp.py:44 | "18-22-22-42" at 3600 shows as "3600 MT/s (CL18-22-22-42)". |
| Scanner.RatedTextPrefixed | ramsleuth_pkg/scanner.py:309-312 | "CL16" at 3200 shows as "3200 MT/s (CL16)". |
| Scanner.InferMemorySettings | ramsleuth_pkg/scanner.py:212-345 | The inference steps of `get_current_memory_settings`, with both loops over the profiles, compute the settings for the first populated device's values. |
| Scanner.InferActiveProfile | ramsleuth_pkg/scanner.py:220-345 | The inference for a configured speed with digits: the rated profile, then the verdict. |
| Scanner.ChooseBest | ramsleuth_pkg/scanner.py:234-301 | The rated profile is the maximum loop's pick, then the summary fallback, then the part-number fallback. |
| Scanner.MatchProfile | ramsleuth_pkg/scanner.py:318-331 | The matched profile is the rated one when it is near the configured speed, otherwise the first near listed one. |
| Scanner.MaxProfile | ramsleuth_pkg/scanner.py:234-244 | The maximum loop keeps the running maximum speed and its profile. |
| Scanner.FindNear | ramsleuth_pkg/scanner.py:325-331 | The matching loop stops at the first profile within 100 MT/s. |
| Scanner.MaxCapabilityShape | ramsleuth_pkg/scanner.py:234-301 | A rated speed above 0 always comes with a profile. |
| Scanner.ActiveProfileSpec | ramsleuth_pkg/scanner.py:318-345 | A profile is matched exactly when a rated profile exists and either it or a listed profile lies within 100 MT/s. The rated one wins when it is near, otherwise the first near listed one. The verdict is "XMP/EXPO (Active)" when matched, otherwise "Manual / OC" above 2666 MT/s and "JEDEC / Standard" at or below. |
| Scanner.NoSpeedNoInference | ramsleuth_pkg/scanner.py:212-218 | Without a configured speed nothing is inferred: only the voltage may be filled in. |
| Normalizer.FullTimingFrom | RamSleuth_DB.py:102 | `re.search` of `(\d{4})-(\d{2})-(\d{2})-(\d{2})` finds the leftmost match, and none when no position matches. |
| Normalizer.SpeedClFrom | RamSleuth_DB.py:108 | `re.search` of `(\d{4})C(\d{2})` finds the leftmost match, and none when no position matches. |
| Normalizer.XmpFromPartNumber | RamSleuth_DB.py:81-113 | The leftmost full timing group is preferred, kept as written. Otherwise the leftmost speed-C-latency group becomes "speed-CL". The result is None exactly when neither pattern matches anywhere. |
| Normalizer.GenerationName | RamSleuth_DB.py:121-137 | A first word names one of DDR1..DDR5. A bare "DDR" is DDR1, and a generation name names itself. |
| Normalizer.NormalizeGeneration | RamSleuth_DB.py:116-137 | A generation is returned only for a truthy value, and it is one of DDR1..DDR5. |
| Normalizer.NormalizeManufacturer | RamSleuth_DB.py:140-147 | The result is the stripped text, never empty. |
| Normalizer.NormalizeDramMfg | RamSleuth_DB.py:150-169 | Text naming Hynix becomes "SK Hynix". The result is never empty and needs a value. |
| Normalizer.ParseModuleGb | RamSleuth_DB.py:172-203 | A number is taken as it is. None, lists and dicts give None. |
| Normalizer.CapacityValue | RamSleuth_DB.py:321-323 | The capacity is stored with its value unchanged: as an int when whole, otherwise as a float. |
| Normalizer.NormalizeModuleRanks | RamSleuth_DB.py:206-229 | A rank count is digits followed by "R". |
| Normalizer.BitsFrom | RamSleuth_DB.py:242 | `re.search` of `(\d+)\s*bits?` finds the leftmost match, and none when no position matches. |
| Normalizer.NormalizeChipOrg | RamSleuth_DB.py:232-251 | A chip organisation is "x" followed by digits. |
| Normalizer.ExtractFirstStr | RamSleuth_DB.py:254-260 | The result is the non-empty stripped text of a truthy value under one of the keys. |
| Normalizer.NormalizeVoltageXmp | RamSleuth_DB.py:394-408 | An XMP voltage is emitted only for a present source, and never empty. |
| Normalizer.NormalizeVoltageJdec | RamSleuth_DB.py:410-425 | A numeric source is taken as its float, and nothing is emitted without a source. |
| Normalizer.WithStickersField | RamSleuth_DB.py:363-372 | The sticker loop sets exactly the listed keys that hold a usable value and leaves every other entry alone. |
| Normalizer.StickerLoopFields | RamSleuth_DB.py:363-372 | Over the four sticker keys, each key gets its sticker update and nothing else changes. |
| Normalizer.PutStickers | RamSleuth_DB.py:363-372 | The sticker loop copies each sticker key whose value is truthy with non-empty stripped text, and changes no other key. |
| Normalizer.PutIdentity | RamSleuth_DB.py:274-310 | The generation, manufacturer and DRAM manufacturer are set when derived, and no other key changes. |
| Normalizer.PutGeometry | RamSleuth_DB.py:312-360 | The capacity, ranks, chip organisation and part number are set when derived, and no other key changes. |
| Normalizer.PutTimings | RamSleuth_DB.py:374-425 | The timing and voltage entries are set when derived, and no other key changes. |
| Normalizer.PutTail | RamSleuth_DB.py:362-425 | The stickers, then the timings and voltages, are set, and no key outside them changes. |
| Normalizer.HeadKeysNotTail | RamSleuth_DB.py:274-360 | No key assigned before the sticker loop is assigned again after it. |
| Normalizer.TailKeysNotHead | RamSleuth_DB.py:362-425 | No key assigned from the sticker loop on was assigned before it. |
| Normalizer.PutHead | RamSleuth_DB.py:272-360 | Into an empty dict, the entries before the stickers are exactly the derived values, and nothing else is present. |
| Normalizer.BuildNormalized | RamSleuth_DB.py:272-427 | The dict holds, for every canonical field, exactly the derived value, and nothing else. |
| Normalizer.NormalizeDimmData | RamSleuth_DB.py:263-427 | `normalize_dimm_data` returns a new dict. It holds, for each canonical field, the normalised value its synonyms give, nothing for a field with no safe interpretation, and no other key. The input is not changed. |
| Normalizer.NoFullTimingInExample | RamSleuth_DB.py:87 | "F4-3600C16D-16GTZ" holds no full timing group. |
| Normalizer.SpeedClInExample | RamSleuth_DB.py:87 | In "F4-3600C16D-16GTZ" the speed-CL group starts at index 3 and nowhere before. |
| Normalizer.XmpPartNumberExample | RamSleuth_DB.py:86-87 | "F4-3600C16D-16GTZ" gives "3600-16", as the docstring says. |
| Normalizer.XmpExampleSlices | RamSleuth_DB.py:87 | The groups of the example are "3600" and "16". |
| Normalizer.GenerationOfWord | RamSleuth_DB.py:121-126 | A word with no whitespace and no dash is its own first word. |
| Normalizer.GenerationIdempotent | RamSleuth_DB.py:116-137 | A generation `_normalize_generation` emits is read back as itself. |
| Normalizer.GenerationBareDdr | RamSleuth_DB.py:127-128 | A bare "DDR" is taken as DDR1. |
| Normalizer.ManufacturerIdempotent | RamSleuth_DB.py:140-147 | `_normalize_manufacturer` accepts its own output unchanged. |
| Normalizer.HynixNameFixed | RamSleuth_DB.py:159-162 | "SK Hynix" normalises to itself. |
| Normalizer.SamsungNameFixed | RamSleuth_DB.py:163-164 | "Samsung" normalises to itself. |
| Normalizer.MicronNameFixed | RamSleuth_DB.py:165-166 | "Micron" normalises to itself. |
| Normalizer.NanyaNameFixed | RamSleuth_DB.py:167-168 | "Nanya" normalises to itself. |
| Normalizer.DramMfgIdempotent | RamSleuth_DB.py:150-169 | `_normalize_dram_mfg` accepts its own output unchanged. |
| Normalizer.RanksShortForm | RamSleuth_DB.py:213-215 | "<digit>R" is already a normal rank count. |
| Normalizer.RanksIdempotent | RamSleuth_DB.py:206-229 | `_normalize_module_ranks` accepts its own single-digit output unchanged. |
| Normalizer.NoBitsWithoutB | RamSleuth_DB.py:242 | Text without a 'b' has no "bits" match. |
| Normalizer.ChipOrgOfWidth | RamSleuth_DB.py:246-249 | "x<digits>" is already a normal chip width. |
| Normalizer.ChipOrgIdempotent | RamSleuth_DB.py:232-251 | `_normalize_chip_org` accepts its own output unchanged. |
| Normalizer.DecimalExample | RamSleuth_DB.py:185 | "16384" reads as 16384. |
| Normalizer.NumeralExample | RamSleuth_DB.py:191 | `float("16384")` is 16384.0. |
| Normalizer.UnitAmountExample | RamSleuth_DB.py:187 | "16384 MB" matches the MB pattern with amount 16384. |
| Normalizer.CapacityMbExample | RamSleuth_DB.py:185-193 | A capacity of "16384 MB" is emitted as the integer 16. |
| Normalizer.GenerationValueNamed | RamSleuth_DB.py:274-281 | The generation `normalize_dimm_data` emits is one of DDR1..DDR5. |
| Normalizer.IdentityValuesNonEmpty | RamSleuth_DB.py:283-360 | The manufacturer, DRAM manufacturer and part number entries are non-empty text. |
| Normalizer.GeometryValuesNonEmpty | RamSleuth_DB.py:312-346 | `module_gb` is an int or a float, and the ranks and chip organisation are non-empty text. |
| Normalizer.TimingValuesNonEmpty | RamSleuth_DB.py:362-408 | The sticker, timing and XMP voltage entries are non-empty text. |
| RuleDatabase.ValidEntry | RamSleuth_DB.py:60-72 | An accepted entry is an object whose priority is an int (a bool counts as one). A float priority is refused, and so is a die_type made only of whitespace. |
| RuleDatabase.SortByPriority | RamSleuth_DB.py:76-77 | The sorted list is in descending priority. |
| RuleDatabase.SortPermutes | RamSleuth_DB.py:76-77 | The sort keeps every rule, as often as it occurs. |
| RuleDatabase.SortStable | RamSleuth_DB.py:76-77 | Among rules of one priority the sort keeps their database order. |
| RuleDatabase.RuleOf | RamSleuth_DB.py:64-74 | A validated entry keeps all its fields; its die type is non-blank text and its priority is the entry's integer priority. |
| RuleDatabase.EntryError | RamSleuth_DB.py:60-72 | An entry that fails validation yields a per-entry ValueError carrying that entry's index, checked in the loader's order (object, priority present, priority int, die_type present, die_type non-blank). |
| RuleDatabase.AtPriorityAppend | RamSleuth_DB.py:76-77 | The entries of one priority in a concatenation are those of each part, in order. |
| RuleDatabase.InsertElements | RamSleuth_DB.py:77 | One insertion step of the sort adds exactly the inserted entry. |
| RuleDatabase.InsertSorted | RamSleuth_DB.py:77 | Inserting into a descending-priority list keeps it descending. |
| RuleDatabase.InsertStable | RamSleuth_DB.py:77 | Inserting an entry places it after every entry of its own priority. |
| RuleDatabase.NoneBelow | RamSleuth_DB.py:77 | A descending list that starts below a priority holds no entry of that priority. |
| RuleDatabase.SortByPriorityCorrect | RamSleuth_DB.py:76-77 | The sort yields descending priority, is a permutation of its input, and keeps the input order among entries of equal priority (stability). |
| RuleDatabase.RulesOf | RamSleuth_DB.py:59-74 | A fully valid list yields one rule per entry. |
| RuleDatabase.LoadDatabase | RamSleuth_DB.py:56-78 | A non-list document is rejected; the load succeeds exactly when every entry is valid; otherwise the error is that of the first invalid entry; on success the rules are sorted descending, a permutation of the entries, and stable within a priority. |
| Resolver.ContainsIgnoringCase | RamSleuth_DB.py:445-450 | A record whose field holds exactly the rule's string passes the case-insensitive substring test. With the field absent, it passes exactly when the rule's value renders as "". |
| Resolver.EqualsIgnoringCase | RamSleuth_DB.py:452-457 | Passing requires the field to be present and a string; a field holding exactly the rule's string passes. |
| Resolver.CapacityEquals | RamSleuth_DB.py:459-469 | Passing requires module_gb to be present. A field equal to a float-convertible rule value passes, and a record's "16" matches a rule's 16. |
| Resolver.XmpTimingsMatch | RamSleuth_DB.py:495-500 | The "equal or contains" test is exactly the containment test, and a field holding the rule's string passes. |
| Resolver.JedecTimingsEqual | RamSleuth_DB.py:502-507 | Passing requires timings_jdec to be the string `str()` of the rule's value; a field holding the rule's string passes. |
| Resolver.XmpVoltageEqual | RamSleuth_DB.py:509-516 | Passing requires voltage_xmp to be present; a field equal to a non-None rule value with a modelled `str()` passes. |
| Resolver.CorsairVersionMatches | RamSleuth_DB.py:518-528 | A passing version always starts with the rule's value, in the prefix case and the exact case alike; a field holding the rule's string passes. |
| Resolver.HynixIc | RamSleuth_DB.py:548-552 | The IC string is one of the three keys' values, the normalised key wins when truthy, and it is truthy exactly when one of the three is. |
| Resolver.HynixEighthMatches | RamSleuth_DB.py:544-559 | Passing requires a rule value of exactly one character and an IC string of at least eight characters. |
| Resolver.Holds | RamSleuth_DB.py:440-561 | A record whose field holds exactly the rule's string satisfies that constraint, for every constraint except the capacity and the 8th-character checks. |
| Resolver.IsMatch | RamSleuth_DB.py:430-561 | A record matches a rule exactly when every listed constraint the rule carries holds. |
| Resolver.Matching | RamSleuth_DB.py:591-593 | The matching rules are at most as many as the rules, and each is a rule of the database that matches. |
| Resolver.BestMatches | RamSleuth_DB.py:588-603 | There are no best matches exactly when no rule of the database matches. |
| Resolver.NotesOfEmpty | RamSleuth_DB.py:616-621 | The notes list is empty exactly when no rule has a string note with something besides whitespace. |
| Resolver.CombinedNotes | RamSleuth_DB.py:616-622 | The combined note is None or a string, and it is None exactly when no rule has a non-blank string note. |
| Resolver.Resolve | RamSleuth_DB.py:605-626 | For non-empty best matches the verdict is "Ambiguous" or the die type of one of them. |
| Resolver.AllSatisfiedSpec | RamSleuth_DB.py:440-561 | Checking the constraints one after another succeeds exactly when every listed constraint holds. |
| Resolver.IsMatchIsConjunction | RamSleuth_DB.py:434-437 | `is_match` holds exactly when every recognised constraint is satisfied (a constraint whose key the rule lacks is satisfied). |
| Resolver.ConstraintListed | RamSleuth_DB.py:440-559 | Every recognised constraint kind is among those `is_match` checks. |
| Resolver.UnknownKeyIgnored | RamSleuth_DB.py:437 | Adding or changing a key that names no constraint does not change whether a rule matches. |
| Resolver.UnconstrainedRuleMatches | RamSleuth_DB.py:561 | A rule carrying no constraint key matches every record. |
| Resolver.SingleConstraintRule | RamSleuth_DB.py:430-561 | A rule whose only key is that of one constraint matches exactly when that constraint holds. |
| Resolver.NestedListMatches | RamSleuth_DB.py:441-443 | The generation check is Python's `!=`, so a record's `[1]` satisfies a rule's `[1.0]`. |
| Resolver.NestedObjectMatches | RamSleuth_DB.py:477-479 | The chip_org check is Python's `!=` too, so a record's `{"a": 1}` satisfies a rule's `{"a": 1.0}`. |
| Resolver.HynixEighthExamples | RamSleuth_DB.py:544-559 | The Hynix check compares the IC string's 8th character ignoring case, and fails for an IC shorter than 8. |
| Resolver.CorsairVersionExamples | RamSleuth_DB.py:518-528 | A Corsair version ending in "." matches as a prefix; any other matches only exactly. |
| Resolver.MatchingMembers | RamSleuth_DB.py:591-593 | The matching rules are exactly the database rules that match the record. |
| Resolver.MatchingNone | RamSleuth_DB.py:605-606 | When no rule matches, the matching list is empty. |
| Resolver.MaxPriority | RamSleuth_DB.py:597-599 | The best priority is the priority of some match and at least that of every match. |
| Resolver.AtPriorityMembers | RamSleuth_DB.py:600-601 | The rules kept at a priority are exactly those of that priority. |
| Resolver.BestMatchesSpec | RamSleuth_DB.py:568-575 | A rule is a best match exactly when it matches and no matching rule has a higher priority. |
| Resolver.BestMatchesSamePriority | RamSleuth_DB.py:581 | All best matches share one priority. |
| Resolver.AppendNonMatching | RamSleuth_DB.py:592-593 | A rule that does not match changes neither the matches nor the best matches. |
| Resolver.AppendHigherPriority | RamSleuth_DB.py:597-599 | A match above every earlier match becomes the only best match. |
| Resolver.AppendEqualPriority | RamSleuth_DB.py:600-601 | A match at the best priority is appended after the current best matches. |
| Resolver.AppendLowerPriority | RamSleuth_DB.py:602-603 | A match below the best priority leaves the best matches unchanged. |
| Resolver.AppendBelowBest | RamSleuth_DB.py:574-575 | Any rule below a current best match leaves the best matches unchanged, matching or not. |
| Resolver.InsertUniqueSpec | RamSleuth_DB.py:613 | Inserting a die type into a strictly sorted list keeps it strictly sorted and adds exactly that type. |
| Resolver.SortedDistinctSpec | RamSleuth_DB.py:613 | `sorted({...})` is strictly sorted and holds exactly the die types of its input. |
| Resolver.SortedHeadLeast | RamSleuth_DB.py:613 | The first element of a strictly sorted list is the least. |
| Resolver.StrictlySortedUnique | RamSleuth_DB.py:613 | Two strictly sorted lists with the same elements are equal. |
| Resolver.DieTypesOf | RamSleuth_DB.py:613 | The die types list has one entry per best match and holds exactly their die types. |
| Resolver.NotesOf | RamSleuth_DB.py:616-620 | The collected notes are non-empty and already stripped. |
| Resolver.OneDistinctType | RamSleuth_DB.py:613-614 | Best matches sharing one die type give a single distinct die type. |
| Resolver.TwoDistinctTypes | RamSleuth_DB.py:613-614 | Two best matches with different die types give more than one distinct die type. |
| Resolver.NoMatchIsUnknown | RamSleuth_DB.py:605-606 | With no matching rule the verdict is "Unknown" with the no-match note. |
| Resolver.UnanimousVerdict | RamSleuth_DB.py:608-622 | Best matches that agree on a die type give that die type, and for several of them the " \| "-joined stripped notes. |
| Resolver.AmbiguousVerdict | RamSleuth_DB.py:624-626 | Best matches that disagree give "Ambiguous" with a message listing the sorted distinct die types. |
| Resolver.ScanBest | RamSleuth_DB.py:588-603 | The scanning loop leaves exactly the best matches, in database order. |
| Resolver.ScanStep | RamSleuth_DB.py:591-602 | Each branch of one scan step (no match; a higher or first priority; an equal priority; a lower priority) keeps the best priority and the best matches of the rules read so far. |
| Resolver.CollectNotes | RamSleuth_DB.py:616-621 | The notes loop yields the combined notes, or None when there are none. |
| Resolver.FindDieType | RamSleuth_DB.py:564-626 | `find_die_type` returns the verdict resolved from the best matches. |
| Settings.ValidateSetting | settings_service.py:335-364 | A key without a rule (any key outside the defaults) accepts every value; a key with a rule accepts only strings. |
| Settings.Loaded | settings_service.py:159-200 | The loaded dictionary has every default key, and each key of a readable file keeps the file's value. |
| Settings.Assign | settings_service.py:299-333 | An accepted set stores the value under its string key, a refused one changes nothing, and a dictionary whose values all pass their rules stays so. |
| Settings.DefaultKeysSpec | settings_service.py:54-58 | DEFAULT_SETTINGS has exactly the three keys theme, active_tab and default_view_tab. |
| Settings.ValidateSettingSpec | settings_service.py:61-65 | theme accepts only "dark"/"light", active_tab only "summary_tab"/"full_tab", default_view_tab only "summary"/"full"; a key without a rule accepts any value. |
| Settings.DefaultsValid | settings_service.py:54-65 | Every default value passes its own validation rule. |
| Settings.FillDefaultsSpec | settings_service.py:186-190 | The fill loop adds exactly the listed default keys that were missing, with their default values, and keeps every loaded value. |
| Settings.FillAllDefaults | settings_service.py:187 | Looping over all default keys gives the loaded dictionary completed with the defaults. |
| Settings.SettingsService.constructor | settings_service.py:67-87 | A new service holds the settings loaded from the file. |
| Settings.SettingsService.LoadSettings | settings_service.py:159-200 | A missing or corrupt file gives the defaults; otherwise the file's contents with missing defaults added; every default key is then present. |
| Settings.SettingsService.SaveSettings | settings_service.py:202-233 | The file afterwards holds exactly the current settings, which are unchanged. |
| Settings.SettingsService.GetSetting | settings_service.py:274-297 | A string key present in the settings gives its value; a missing or non-string key gives the default. |
| Settings.SettingsService.SetSetting | settings_service.py:299-333 | A non-string key or a rejected value returns False and changes nothing; an accepted value is stored, saved, and True is returned; the default keys stay present. |
| Settings.SettingsService.GetAllSettings | settings_service.py:366-380 | The result equals the current settings and, being a value, cannot alias them. |
| Settings.SettingsService.ResetToDefaults | settings_service.py:382-399 | The settings become the defaults and are saved. |
| Settings.LoadConfig | settings_service.py:405-424 | `load_config` returns the settings loaded from the file, which hold every default key. |
| Settings.SaveConfig | settings_service.py:427-452 | The file written holds the loaded settings with every valid item of the config applied in order and invalid ones skipped. |
| Settings.LoadedSpec | settings_service.py:159-200 | After loading, every default key is present, every key of the file keeps its value, nothing else appears, and a missing or corrupt file gives exactly the defaults. |
| Settings.SaveLoadRoundTrip | settings_service.py:159-233 | Saving settings that hold every default and loading them back gives the same settings. |
| Settings.SetThenGet | settings_service.py:274-333 | After an accepted `set_setting`, `get_setting` returns the value set, whatever the default. |
| Settings.AssignSpec | settings_service.py:316-331 | `set_setting` succeeds exactly for a string key whose value passes validation; on failure nothing changes; on success only that key changes and default keys stay present. |
| Settings.ApplyValidSpec | settings_service.py:445-450 | `save_config` adds exactly the keys of its valid items, each key ends with its last valid item's value, keys without a rule are always kept, and valid settings stay valid. |
| Settings.ApplyValidKeys | settings_service.py:445-450 | `save_config` adds exactly the keys of its valid items, and always the keys without a rule. |
| Settings.ApplyValidValues | settings_service.py:445-450 | Each key ends with its old value or the value of one of its valid items, so valid settings stay valid. |
| Utils.RemoveUnsafe | ramsleuth_pkg/utils.py:121 | Removing `[<>&\|;"`\x00]` leaves no unsafe character, drops nothing else, never lengthens the text, and leaves safe text unchanged. |
| Utils.StripSlice | ramsleuth_pkg/utils.py:124 | `strip()` returns a contiguous slice of its input. |
| Utils.StripSafe | ramsleuth_pkg/utils.py:121-124 | Stripping sanitised text keeps it free of unsafe characters. |
| Utils.SanitizeSpec | ramsleuth_pkg/utils.py:114-124 | A returned sticker code has no unsafe character, no surrounding whitespace, and sanitising it again changes nothing. |
| Utils.SanitizeSafeInput | ramsleuth_pkg/utils.py:121-124 | A typed line without unsafe characters only loses its surrounding whitespace. |
| Utils.SanitizeExample | ramsleuth_pkg/utils.py:121-124 | The Corsair code "Ver 4.31" passes through unchanged. |
| Utils.StickerCode | ramsleuth_pkg/utils.py:114-130 | The prompt's result is free of unsafe characters, and "" on end of input. |
| Utils.StickerKeyInjective | ramsleuth_pkg/utils.py:169-191 | The four brands store their codes under four distinct keys. |
| Utils.PromptedFields | ramsleuth_pkg/utils.py:163-167 | Whether a prompt fires depends only on fields no prompt writes. |
| Utils.CodeFor | ramsleuth_pkg/utils.py:169-191 | A brand's code is safe, and empty when its prompt does not fire or the user gives no answer. |
| Utils.EnrichAll | ramsleuth_pkg/utils.py:162 | Enrichment keeps one record per input record. |
| Utils.PromptDimm | ramsleuth_pkg/utils.py:162-191 | The loop body gives the record enriched with the four prompts' codes. |
| Utils.Ask | ramsleuth_pkg/utils.py:170-173 | A prompt stores its sanitised code only when the prompt fires and the code is non-empty. |
| Utils.ApplyLootboxPrompts | ramsleuth_pkg/utils.py:132-191 | A non-interactive call leaves the records as they were; an interactive call enriches each record in place, in list order. |
| Utils.WriteFrame | ramsleuth_pkg/utils.py:172-191 | Storing the codes changes only the four sticker keys. |
| Utils.WriteStored | ramsleuth_pkg/utils.py:172-191 | A brand's key holds its non-empty code afterwards, and is left as it was when the code is empty. |
| Utils.EnrichFrame | ramsleuth_pkg/utils.py:162-191 | Enrichment changes no field other than the four sticker keys. |
| Utils.EnrichStored | ramsleuth_pkg/utils.py:169-191 | After enrichment each brand's key holds its code when that is non-empty, and is otherwise unchanged. |
| Utils.WriteTwice | ramsleuth_pkg/utils.py:172-191 | Storing the same codes twice equals storing them once. |
| Utils.EnrichIdempotent | ramsleuth_pkg/utils.py:162-191 | Running the prompts again with the same answers changes nothing more. |
| Utils.AnonymousRecordUnchanged | ramsleuth_pkg/utils.py:163-191 | A record with no manufacturer and no DRAM maker is never prompted for and stays as it was. |
| Text.StripSpec | ramsleuth_pkg/parser.py:226 | `strip()` leaves no whitespace at either end. |
| Text.StripIdempotent | ramsleuth_pkg/parser.py:430 | Stripping twice equals stripping once. |
| Text.RStripChar | ramsleuth_pkg/parser.py:226 | `rstrip(":")` keeps a prefix that does not end in a colon. |
| Text.FirstDigitRunSpec | RamSleuth_DB.py:242 | The first digit run exists exactly when the text has a digit, and it starts at the first digit. |
| Text.SplitOnce | ramsleuth_pkg/dependency_engine.py:140 | `split("=", 1)` gives the text before the first separator and everything after it. |
| Text.SplitOnJoin | ramsleuth_pkg/dependency_engine.py:401-405 | Splitting a joined list on a separator none of its parts contains gives the parts back. |
| Text.NatToString | ramsleuth_pkg/scanner.py:304-312 | `str(n)` is a digit string without a leading zero that reads back as n. |
| Values.Truthy | RamSleuth_DB.py:256 | The falsy values are exactly None, False, 0, 0.0, "", [] and {}; every other value is truthy. |
| Values.PyStr | RamSleuth_DB.py:257 | `str()` of a string is the string itself; `str()` of an int is its decimal numeral and reads back as the same int, with a leading "-" for a negative one. Lists and dicts have no modelled rendering. |
| Values.ParseFloat | RamSleuth_DB.py:465-469 | `float()` of a string of decimal digits is its integer value; a blank string never parses. |
| Values.PyFloat | RamSleuth_DB.py:466 | `float()` of a bool, int or float is its numeric value; None, a list or a dict raises, modelled as no value. |
| Values.PyEq | RamSleuth_DB.py:441-443 | Python's `==` holds between identical values. Numbers compare by value across bool, int and float, and lists and dicts compare element by element, as `Values.PyEqNested` shows. |
| Values.PyEqSymmetric | RamSleuth_DB.py:441-443 | Python's `==` is symmetric, so `dimm.get(k) != entry[k]` does not depend on which side a value is on. |
| Values.PyEqPlain | RamSleuth_DB.py:441-443 | Unless both sides are numbers, both lists or both dicts, `==` holds exactly between identical values. |
| Values.PyEqNested | RamSleuth_DB.py:441-443 | `[1] == [1.0]` and `{"a": 1} == {"a": 1.0}`, while lists of different lengths differ. |
| Values.FirstTruthy | RamSleuth_DB.py:313-318 | An `a or b or ...` chain yields one of its operands, and a truthy one exactly when some operand is truthy. |

## Left out

- Process invocation: `run_decoder`, `load_modules`, `register_devices` and every `subprocess.run` of `i2cdetect`, `dmidecode` and the installer. `find_smbus`, `scan_bus` and `get_current_memory_settings` take the captured stdout as an input, and a failed command is not modelled.
- The `dmidecode -t memory` device loop of `get_current_memory_settings` (ramsleuth_pkg/scanner.py:144-211) is not modelled. `Scanner.InferMemorySettings` takes as inputs the configured speed, configured voltage and part number of the first populated device.
- `perform_system_scan`'s file and test-data handling, its `load_die_database` call, and its pass of `normalize_dimm_data` and `find_die_type` over the records are not modelled as a whole. Both functions are modelled on their own.
- The record count and order `parse_output` gives on the repository's `test_data.txt` fixture: that file is not part of this model.
- File, environment and ownership I/O: opening and `json.load` of `die_database.json` (`LoadDatabase` takes the parsed document), the settings path resolution, `mkdir`, sudo ownership, and the `load_config`/`save_config` of `ramsleuth.py`.
- Settings.SettingsService.SaveSettings: write failures are not modelled; the file always ends up holding the settings.
- Settings.SettingsService.LoadSettings: a file whose JSON is valid but not an object is treated like a corrupt one.
- The Textual TUI, `main`, argparse, and the `output_summary`, `output_full` and `output_json` printers.
- Interactive input: `input()` and the prompt texts. The answers are an oracle `answer(index, brand)`, `None` standing for end of input.
- `check_tool_available` and `check_python_package` are oracles. The flows of `check_dependency`, `install_dependency`, `handle_unknown_distro`, `handle_installation_failure` and `check_and_install_dependencies` print, prompt or exit and are not modelled. Only the guard of `auto_install_dependencies` is modelled, not the shell command it runs.
- Debug logging (`_debug_print`, `DEBUG`, `set_debug`, the `debug` parameters) has no effect on results and is not modelled.
- Floats are exact reals: `module_gb` and the voltages ignore IEEE rounding. `str()` of a float is modelled only for values with at most 15 decimal places; other values count as having no text.
- Values.PyStr: `str()` of a list or a dict has no modelled text, where Python writes its repr (`['x']`, `[]`, `{'a': 1}`). A dict's repr follows key insertion order, which maps do not keep. The members below that apply `str()` to arbitrary values inherit this gap.
- Values.ParseFloat: only an optional sign, digits and an optional fraction are read. Python's `float()` also accepts exponents ("1.6e1"), "inf", "nan" and underscores between digits; such strings count as not numeric here.
- Normalizer.NormalizeChipOrg: a list or dict value gives None. The source searches its `str()`, so `["8 bits"]` gives "x8" there (RamSleuth_DB.py:235-244).
- Normalizer.ExtractFirstStr: a truthy list or dict value is skipped. The source returns its stripped `str()` (RamSleuth_DB.py:256-259).
- Normalizer.NormalizeVoltageXmp: a list or dict source gives no voltage_xmp. The source emits its stripped `str()`, e.g. "[]" (RamSleuth_DB.py:403-408).
- Normalizer.PutStickers: a truthy list or dict sticker value is not copied. The source copies its stripped `str()` (RamSleuth_DB.py:369-372).
- Normalizer.StickerOf: as for PutStickers, a list or dict value gives None.
- Normalizer.TimingsXmpOf: a truthy list or dict timings_xmp gives None. The source uses its stripped `str()` (RamSleuth_DB.py:376-377).
- Normalizer.TimingsJdecOf: a truthy list or dict timings source gives None. The source uses its stripped `str()` (RamSleuth_DB.py:389-392).
- Normalizer.NormalizeDimmData: inherits the list and dict gaps above, in chip_org, manufacturer, dram_mfg, module_part_number, the sticker keys, timings_xmp, timings_jdec and voltage_xmp.
- Resolver.CapacityEquals: a capacity string in exponent, "inf", "nan" or underscore form never matches. In the source a rule's "1.6e1" matches a 16 GB module (RamSleuth_DB.py:464-467).
- Resolver.Holds: a rule value or record field that is a list or dict fails every check that applies `str()` to it (manufacturer, dram_mfg, part numbers, timings, voltage_xmp, corsair_version, the sticker codes, the Hynix 8th character). In the source its repr takes part in the comparison.
- Character classes are ASCII: `lower`, `upper`, `isdigit` and `\d` do not cover other Unicode letters and digits. Whitespace is ASCII plus Latin-1.
- Regular expressions are modelled only as hand-written scanners for the patterns the source uses; there is no general regex engine.
- Dictionaries are maps: key insertion order of records and of the settings is not modelled.
- Aliasing: records are values, so the in-place updates of `_commit_block`, the final `setdefault` pass, `dimm.update(...)` and `apply_lootbox_prompts` are modelled as replacing list elements. `Utils.ApplyLootboxPrompts` keeps an array updated in place.
- Plain.DeriveSlotsRules: that no slot names both bank 3 and bank 4 is proved for the first two rules of `_derive_slots_from_guess`. For the third rule, which returns the raw value unchanged, it is not proved.
- `check_root` and the older `get_current_memory_settings` of `ramsleuth.py` are not modelled.
