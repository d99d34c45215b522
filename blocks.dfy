/**
 * Splitting plain decode-dimms output into one raw text block per DIMM section
 * (_split_decode_dimms_blocks, in ramsleuth_pkg/parser.py and in ramsleuth.py).
 */
module Blocks {
  import opened Text

  /** A line that opens a section: after leading whitespace, "Decoding EEPROM" or "SPD data for". */
  predicate IsBlockHeader(line: string)
  {
    var t := LStrip(line);
    StartsWith(t, "Decoding EEPROM") || StartsWith(t, "SPD data for")
  }

  /** The key of the i-th block. */
  function BlockKey(i: nat): string
  {
    "dimm_" + NatToString(i)
  }

  lemma BlockKeyInjective(i: nat, j: nat)
    requires i != j
    ensures BlockKey(i) != BlockKey(j)
  {
    assert BlockKey(i)[5..] == NatToString(i);
    assert BlockKey(j)[5..] == NatToString(j);
  }

  /** The text stored for a section: its lines joined, trailing whitespace removed, one newline added. */
  function BlockText(section: seq<string>): string
  {
    RStrip(Join(section, "\n")) + "\n"
  }

  // ---------------------------------------------------------------- the line-by-line splitter

  /** The splitter's state: the finished sections and the open one ([] when no header has been seen). */
  datatype Splitter = Splitter(done: seq<seq<string>>, current: seq<string>)

  /** _flush: the finished sections, with the open one closed. */
  function Flush(st: Splitter): seq<seq<string>>
  {
    if st.current != [] then st.done + [st.current] else st.done
  }

  /** One line of the loop: a header closes the open section and opens a new one. */
  function Step(st: Splitter, line: string): Splitter
  {
    if IsBlockHeader(line) then Splitter(Flush(st), [line])
    else if st.current != [] then Splitter(st.done, st.current + [line])
    else st
  }

  function Run(lines: seq<string>): Splitter
  {
    if lines == [] then Splitter([], []) else Step(Run(lines[..|lines| - 1]), lines[|lines| - 1])
  }

  /** The sections of the whole output, in order. */
  function Sections(lines: seq<string>): seq<seq<string>>
  {
    Flush(Run(lines))
  }

  /** The blocks dictionary for a list of sections. */
  function BlocksMap(sections: seq<seq<string>>): map<string, string>
  {
    if sections == [] then map[]
    else
      var n := |sections| - 1;
      BlocksMap(sections[..n])[BlockKey(n) := BlockText(sections[n])]
  }

  lemma {:induction false} BlocksMapValues(sections: seq<seq<string>>)
    ensures forall i :: 0 <= i < |sections| ==>
      BlockKey(i) in BlocksMap(sections) && BlocksMap(sections)[BlockKey(i)] == BlockText(sections[i])
  {
    if sections != [] {
      var n := |sections| - 1;
      var pre := sections[..n];
      BlocksMapValues(pre);
      assert BlocksMap(sections) == BlocksMap(pre)[BlockKey(n) := BlockText(sections[n])];
      forall i | 0 <= i < n
        ensures BlockKey(i) in BlocksMap(sections) && BlocksMap(sections)[BlockKey(i)] == BlockText(sections[i])
      {
        BlockKeyInjective(i, n);
        assert pre[i] == sections[i];
      }
    }
  }

  lemma {:induction false} BlocksMapKeys(sections: seq<seq<string>>, k: string)
    requires k in BlocksMap(sections)
    ensures exists i :: 0 <= i < |sections| && k == BlockKey(i)
  {
    var n := |sections| - 1;
    if k != BlockKey(n) {
      BlocksMapKeys(sections[..n], k);
    }
  }

  /**
   * _split_decode_dimms_blocks: one block per header line, keyed dimm_0, dimm_1, ...
   * in order; text before the first header is dropped.
   */
  method SplitBlocks(output: string) returns (blocks: map<string, string>)
    ensures blocks == BlocksMap(Sections(SplitLines(output)))
  {
    var lines := SplitLines(output);
    blocks := map[];
    var currentKey := "";
    var currentLines: seq<string> := [];
    var dimmIndex := 0;
    ghost var st := Run([]);
    var i := 0;
    while i < |lines|
      invariant 0 <= i <= |lines|
      invariant st == Run(lines[..i])
      invariant Tracks(st, blocks, currentKey, currentLines, dimmIndex)
    {
      RunSnoc(lines, i);
      blocks, currentKey, currentLines, dimmIndex := SplitLine(lines[i], blocks, currentKey, currentLines, dimmIndex, st);
      st := Step(st, lines[i]);
      i := i + 1;
    }
    assert lines[..i] == lines;
    if currentLines != [] && currentKey != "" {
      BlocksMapSnoc(st.done, currentLines);
      blocks := blocks[currentKey := BlockText(currentLines)];
    }
  }

  /** The loop variables of the splitter hold the state st: the blocks so far and the open section. */
  ghost predicate Tracks(st: Splitter, blocks: map<string, string>, currentKey: string, currentLines: seq<string>, dimmIndex: nat)
  {
    && st.current == currentLines
    && dimmIndex == |st.done|
    && blocks == BlocksMap(st.done)
    && currentKey == if currentLines == [] then "" else BlockKey(dimmIndex)
  }

  /** One line of the splitter loop. */
  method SplitLine(line: string, blocks: map<string, string>, currentKey: string, currentLines: seq<string>,
                   dimmIndex: nat, ghost st: Splitter)
    returns (blocks': map<string, string>, currentKey': string, currentLines': seq<string>, dimmIndex': nat)
    requires Tracks(st, blocks, currentKey, currentLines, dimmIndex)
    ensures Tracks(Step(st, line), blocks', currentKey', currentLines', dimmIndex')
  {
    blocks', currentKey', currentLines', dimmIndex' := blocks, currentKey, currentLines, dimmIndex;
    if IsBlockHeader(line) {
      if currentLines' != [] && currentKey' != "" {
        BlocksMapSnoc(st.done, currentLines');
        blocks' := blocks'[currentKey' := BlockText(currentLines')];
        dimmIndex' := dimmIndex' + 1;
        currentLines' := [];
        currentKey' := "";
      }
      currentKey' := BlockKey(dimmIndex');
      currentLines' := currentLines' + [line];
    } else if currentKey' != "" {
      currentLines' := currentLines' + [line];
    }
  }

  lemma RunSnoc(lines: seq<string>, i: nat)
    requires i < |lines|
    ensures Run(lines[..i + 1]) == Step(Run(lines[..i]), lines[i])
  {
    assert lines[..i + 1][..i] == lines[..i];
  }

  lemma BlocksMapSnoc(sections: seq<seq<string>>, section: seq<string>)
    ensures BlocksMap(sections + [section]) == BlocksMap(sections)[BlockKey(|sections|) := BlockText(section)]
  {
    var all := sections + [section];
    assert all[..|sections|] == sections && all[|sections|] == section;
  }

  // ---------------------------------------------------------------- what the blocks are

  /** The number of header lines. */
  function CountHeaders(lines: seq<string>): nat
  {
    if lines == [] then 0
    else CountHeaders(lines[..|lines| - 1]) + (if IsBlockHeader(lines[|lines| - 1]) then 1 else 0)
  }

  /** The position of the first header line, or |lines| when there is none. */
  function FirstHeader(lines: seq<string>): (k: nat)
    ensures k <= |lines|
    ensures forall j :: 0 <= j < k ==> !IsBlockHeader(lines[j])
    ensures k < |lines| ==> IsBlockHeader(lines[k])
  {
    if lines == [] then 0
    else
      var n := |lines| - 1;
      var f := FirstHeader(lines[..n]);
      if f < n then f
      else if IsBlockHeader(lines[n]) then n
      else |lines|
  }

  function Flatten(sections: seq<seq<string>>): seq<string>
  {
    if sections == [] then [] else Flatten(sections[..|sections| - 1]) + sections[|sections| - 1]
  }

  lemma FlattenAppend(sections: seq<seq<string>>, s: seq<string>)
    ensures Flatten(sections + [s]) == Flatten(sections) + s
  {
    assert (sections + [s])[..|sections|] == sections;
  }

  /**
   * The splitter keeps every line from the first header on, in order, and the open
   * section is empty exactly when no header has been seen.
   */
  lemma {:induction false} RunKeepsFromFirstHeader(lines: seq<string>)
    ensures Flatten(Flush(Run(lines))) == lines[FirstHeader(lines)..]
    ensures (Run(lines).current == []) <==> FirstHeader(lines) == |lines|
    ensures Run(lines).current != [] ==> IsBlockHeader(Run(lines).current[0])
  {
    if lines != [] {
      var n := |lines| - 1;
      var init := lines[..n];
      var line := lines[n];
      RunKeepsFromFirstHeader(init);
      var st := Run(init);
      var f := FirstHeader(init);
      if IsBlockHeader(line) {
        FlattenAppend(Flush(st), [line]);
        if st.current != [] {
          FlattenAppend(st.done, st.current);
          assert lines[f..] == init[f..] + [line];
        }
      } else if st.current != [] {
        FlattenAppend(st.done, st.current);
        FlattenAppend(st.done, st.current + [line]);
        assert lines[f..] == init[f..] + [line];
      }
    }
  }

  /** A header line followed by lines that are not headers. */
  predicate IsSection(section: seq<string>)
  {
    section != [] && IsBlockHeader(section[0])
    && forall j :: 1 <= j < |section| ==> !IsBlockHeader(section[j])
  }

  /** Every section starts with a header line and holds no other. */
  lemma {:induction false} SectionsShape(lines: seq<string>)
    ensures forall k :: 0 <= k < |Sections(lines)| ==> IsSection(Sections(lines)[k])
    ensures forall k :: 0 <= k < |Run(lines).done| ==> IsSection(Run(lines).done[k])
    ensures Run(lines).current != [] ==> IsSection(Run(lines).current)
  {
    if lines != [] {
      SectionsShape(lines[..|lines| - 1]);
    }
  }

  /** There is one section per header line. */
  lemma {:induction false} SectionCount(lines: seq<string>)
    ensures |Sections(lines)| == CountHeaders(lines)
    ensures |Run(lines).done| + (if Run(lines).current != [] then 1 else 0) == CountHeaders(lines)
  {
    if lines != [] {
      SectionCount(lines[..|lines| - 1]);
    }
  }

  /** Each block ends with exactly one newline: the character before it is not whitespace. */
  lemma BlockTextEnds(section: seq<string>)
    requires section != [] && IsBlockHeader(section[0])
    ensures var t := BlockText(section); |t| >= 2 && t[|t| - 1] == '\n' && !IsSpace(t[|t| - 2])
  {
    var j := Join(section, "\n");
    var h := section[0];
    LStripSpec(h);
    var off := |h| - |LStrip(h)|;
    assert LStrip(h)[0] == h[off];
    assert StartsWith(j, h) by {
      if |section| > 1 {
        assert j == h + ("\n" + Join(section[1..], "\n"));
      }
    }
    assert j[off] == h[off];
    RStripSpec(j);
    assert !IsSpace(j[off]);
    assert |RStrip(j)| > off;
  }

  /**
   * The blocks of an output: keys dimm_0 .. dimm_{n-1} for its n header lines, block i
   * holding the i-th section (a header and the lines up to the next one) and ending in
   * exactly one newline; together the sections are the lines from the first header on.
   */
  lemma BlocksOfOutput(lines: seq<string>)
    ensures |Sections(lines)| == CountHeaders(lines)
    ensures forall k :: k in BlocksMap(Sections(lines)) <==> exists i :: 0 <= i < CountHeaders(lines) && k == BlockKey(i)
    ensures forall i :: 0 <= i < CountHeaders(lines) ==>
      && IsSection(Sections(lines)[i])
      && BlockKey(i) in BlocksMap(Sections(lines))
      && BlocksMap(Sections(lines))[BlockKey(i)] == BlockText(Sections(lines)[i])
    ensures Flatten(Sections(lines)) == lines[FirstHeader(lines)..]
  {
    var secs := Sections(lines);
    SectionCount(lines);
    SectionsShape(lines);
    BlocksMapValues(secs);
    RunKeepsFromFirstHeader(lines);
    forall k | k in BlocksMap(secs) ensures exists i :: 0 <= i < |secs| && k == BlockKey(i) {
      BlocksMapKeys(secs, k);
    }
  }

  /** Each stored block ends with a single newline after its last non-blank character. */
  lemma BlocksEndOnce(lines: seq<string>, i: nat)
    requires i < CountHeaders(lines)
    ensures BlockKey(i) in BlocksMap(Sections(lines))
    ensures var t := BlocksMap(Sections(lines))[BlockKey(i)]; |t| >= 2 && t[|t| - 1] == '\n' && !IsSpace(t[|t| - 2])
  {
    var secs := Sections(lines);
    SectionCount(lines);
    SectionsShape(lines);
    BlocksMapValues(secs);
    BlockTextEnds(secs[i]);
  }
}
