/** The two line-dropping passes: panel labels (`remove_panels`,
    program.py:343-357) and blank lines (`remove_blank_lines`,
    program.py:446-454). */
module Filters {
  import opened Seqs
  import opened Text

  /** A panel label: the lower-cased line starts with "panel". Leading
      whitespace is not trimmed first. */
  predicate IsPanel(line: string) {
    StartsWith(Lower(line), "panel")
  }

  /** A blank line: nothing is left once whitespace is stripped. */
  predicate IsBlank(line: string) {
    Strip(line) == ""
  }

  /** `remove_panels`: drops panel labels and counts them. */
  function RemovePanels(lines: seq<string>): (r: Counted)
    ensures r.lines == Reject(lines, IsPanel)
    ensures r.count == |Filter(lines, IsPanel)|
    decreases |lines|
  {
    if |lines| == 0 then Counted([], 0)
    else
      var rest := RemovePanels(lines[1..]);
      if IsPanel(lines[0]) then Counted(rest.lines, rest.count + 1)
      else Counted([lines[0]] + rest.lines, rest.count)
  }

  /** `remove_blank_lines`: drops blank lines and counts them. */
  function RemoveBlankLines(lines: seq<string>): (r: Counted)
    ensures r.lines == Reject(lines, IsBlank)
    ensures r.count == |Filter(lines, IsBlank)|
    decreases |lines|
  {
    if |lines| == 0 then Counted([], 0)
    else
      var rest := RemoveBlankLines(lines[1..]);
      if IsBlank(lines[0]) then Counted(rest.lines, rest.count + 1)
      else Counted([lines[0]] + rest.lines, rest.count)
  }

  /** Panel removal keeps exactly the non-panel lines, in order, and its count
      is the number of lines it dropped. */
  lemma RemovePanelsSpec(lines: seq<string>)
    ensures var r := RemovePanels(lines);
      && r.count == |lines| - |r.lines|
      && (forall l :: l in r.lines <==> l in lines && !IsPanel(l))
  {
    FilterRejectPartition(lines, IsPanel);
  }

  /** Blank-line removal keeps exactly the lines with a non-space character,
      in order, and its count is the number of lines it dropped. */
  lemma RemoveBlankLinesSpec(lines: seq<string>)
    ensures var r := RemoveBlankLines(lines);
      && r.count == |lines| - |r.lines|
      && (forall l :: l in r.lines <==> l in lines && exists i :: 0 <= i < |l| && !IsSpace(l[i]))
  {
    FilterRejectPartition(lines, IsBlank);
    forall l: string
      ensures IsBlank(l) <==> forall i :: 0 <= i < |l| ==> IsSpace(l[i])
    {
      StripEmptyIffAllSpace(l);
    }
  }

  /** The panel test ignores case but not leading whitespace. */
  lemma PanelExamples()
    ensures IsPanel("Panel 1") && IsPanel("PANEL") && IsPanel("panels")
    ensures !IsPanel(" Panel 1") && !IsPanel("Pane") && !IsPanel("")
  {
    assert Lower("Panel 1")[..5] == "panel";
    assert Lower("PANEL")[..5] == "panel";
    assert Lower("panels")[..5] == "panel";
    assert Lower(" Panel 1")[0] == ' ';
  }
}
