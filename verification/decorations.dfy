/** The decoration stripper (`remove_decorations`, program.py:405-421).
    The regular-expression engine is not modelled: `erase(p, line)` stands
    for `re.sub(p, "", line)`. */
module Decorations {
  import opened Seqs

  /** All configured patterns applied to one line, in list order, each to the
      result of the one before (program.py:416-417). */
  function ApplyPatterns(line: string, patterns: seq<string>, erase: (string, string) -> string): string
    decreases |patterns|
  {
    if |patterns| == 0 then line
    else ApplyPatterns(erase(patterns[0], line), patterns[1..], erase)
  }

  /** `remove_decorations`: every line rewritten by the patterns; the count is
      the number of lines that came out different. */
  function RemoveDecorations(lines: seq<string>, patterns: seq<string>, erase: (string, string) -> string): (r: Counted)
    ensures |r.lines| == |lines|
    ensures forall i :: 0 <= i < |lines| ==> r.lines[i] == ApplyPatterns(lines[i], patterns, erase)
    ensures r.count == ChangedCount(lines, r.lines)
  {
    Rewrite(lines, line => ApplyPatterns(line, patterns, erase))
  }

  /** Applying a split pattern list is applying the first part, then the
      second part to its result. */
  lemma {:induction false} ApplyPatternsAppend(line: string, p: seq<string>, q: seq<string>, erase: (string, string) -> string)
    ensures ApplyPatterns(line, p + q, erase) == ApplyPatterns(ApplyPatterns(line, p, erase), q, erase)
    decreases |p|
  {
    if |p| == 0 {
      assert p + q == q;
    } else {
      assert (p + q)[0] == p[0] && (p + q)[1..] == p[1..] + q;
      ApplyPatternsAppend(erase(p[0], line), p[1..], q, erase);
    }
  }

  /** The count is the number of lines the patterns leave different, and
      the lines they leave unchanged are exactly those not counted. */
  lemma DecorationCount(lines: seq<string>, patterns: seq<string>, erase: (string, string) -> string)
    ensures RemoveDecorations(lines, patterns, erase).count
         == |Reject(lines, line => ApplyPatterns(line, patterns, erase) == line)|
  {
    var f := line => ApplyPatterns(line, patterns, erase);
    var fixed := line => ApplyPatterns(line, patterns, erase) == line;
    assert RemoveDecorations(lines, patterns, erase) == Rewrite(lines, f);
    RewriteCount(lines, f, fixed);
  }

  /** An empty pattern list changes nothing and counts nothing. */
  lemma NoPatternsNoChange(lines: seq<string>, erase: (string, string) -> string)
    ensures RemoveDecorations(lines, [], erase) == Counted(lines, 0)
  {
    var r := RemoveDecorations(lines, [], erase);
    assert r.lines == lines;
  }
}
