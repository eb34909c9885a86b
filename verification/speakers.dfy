/** The speaker-label pass (`remove_speaker`, program.py:360-402), as the code
    is written. The interactive prompt at program.py:390 is the parameter
    `confirm`, standing for `input(...).lower() == "y"` after the line is
    shown; the chapter label is the parameter `chapter`.

    The pass scans each line for colons. At each colon it forms `curline`,
    the lower-cased prefix up to and including that colon, and splits it on
    ':'. Because `curline` always ends with the colon just found, the split
    always has at least two pieces, so the `elif` at program.py:383 is taken
    whenever the protection test fails, and the label-stripping branch at
    program.py:387-397 (with its prompt) is never reached. The lemmas below
    prove this: no speaker label is ever stripped, the returned count is always 0,
    and a line with colons is emitted once per qualifying colon. */
module Speakers {
  import opened Seqs
  import opened Text

  /** The protection test at program.py:380-381 on `curline`: stripped and
      lower-cased, its last four characters are "sfx:", or its last five are
      "note:", or its first |chapter| characters are the chapter label. */
  predicate Protected(curline: string, chapter: string) {
    || Lower(Strip(TakeLast(curline, 4))) == "sfx:"
    || Lower(Strip(TakeLast(curline, 5))) == "note:"
    || Lower(Strip(Take(curline, |chapter|))) == chapter
  }

  /** The same test without the inner lower-casing, which is redundant
      because `curline` is lower-cased already. */
  predicate Shielded(curline: string, chapter: string) {
    || Strip(TakeLast(curline, 4)) == "sfx:"
    || Strip(TakeLast(curline, 5)) == "note:"
    || Strip(Take(curline, |chapter|)) == chapter
  }

  /** The test at program.py:385 on the first piece of the split. */
  predicate HasNoteMarker(piece: string) {
    Contains(piece, "note") || Contains(piece, "/n") || Contains(piece, "\\n")
  }

  /** What the body of the inner loop (program.py:377-397) appends, and adds
      to `speakercount`, when the character at index charcount - 1 is a colon.
      The protection test is Shielded, which SecondLowerRedundant proves equal
      to the test as written on every lower-cased `curline`. */
  function AtColon(line: string, charcount: nat, chapter: string, confirm: string -> bool): Counted
    requires 0 < charcount <= |line|
  {
    var curline := Lower(line[..charcount]);
    var cursplit := SplitOn(curline, ':');
    if Shielded(curline, chapter) then Counted([line], 0)
    else if |cursplit| > 1 then
      (if HasNoteMarker(cursplit[0]) then Counted([line], 0) else Counted([], 0))
    else if Occurrences(curline, ' ') > 1 then
      (if confirm(line) then Counted([Strip(line[charcount..])], 1) else Counted([line], 0))
    else Counted([Strip(line[charcount..])], 1)
  }

  /** The inner loop (program.py:374-399) over the characters of a line from
      index i on. */
  function ScanFrom(line: string, i: nat, chapter: string, confirm: string -> bool): Counted
    requires i <= |line|
    decreases |line| - i
  {
    if i == |line| then Counted([], 0)
    else
      var rest := ScanFrom(line, i + 1, chapter, confirm);
      if line[i] == ':' then
        var here := AtColon(line, i + 1, chapter, confirm);
        Counted(here.lines + rest.lines, here.count + rest.count)
      else rest
  }

  /** One iteration of the outer loop (program.py:372-401): a line without a
      colon is passed through, a line with colons is scanned. */
  function SpeakerLine(line: string, chapter: string, confirm: string -> bool): Counted {
    if ':' in line then ScanFrom(line, 0, chapter, confirm) else Counted([line], 0)
  }

  /** `remove_speaker`: the lines appended and the final `speakercount`. */
  function RemoveSpeaker(lines: seq<string>, chapter: string, confirm: string -> bool): Counted
    decreases |lines|
  {
    if |lines| == 0 then Counted([], 0)
    else
      var here := SpeakerLine(lines[0], chapter, confirm);
      var rest := RemoveSpeaker(lines[1..], chapter, confirm);
      Counted(here.lines + rest.lines, here.count + rest.count)
  }

  // ----------------------------------------------------- reference meaning

  /** The colon at index j makes the line be emitted: the prefix up to it is
      protected, or the text before the line's first colon, lower-cased,
      holds a note marker. */
  predicate KeptAt(line: string, j: nat, chapter: string)
    requires j < |line|
  {
    line[j] == ':' && (Shielded(Lower(line[..j + 1]), chapter) || HasNoteMarker(Lower(line[..FirstIndex(line, ':')])))
  }

  /** The positions in [lo, hi) at which p holds. */
  function Positions(lo: nat, hi: nat, p: nat -> bool): set<nat> {
    set j: nat | lo <= j < hi && p(j)
  }

  /** The qualifying colon positions at or after index i. */
  function KeptFrom(line: string, chapter: string, i: nat): set<nat>
    requires i <= |line|
  {
    Positions(i, |line|, (j: nat) => j < |line| && KeptAt(line, j, chapter))
  }

  /** How many times the pass emits a line: once if it has no colon,
      otherwise once per qualifying colon. */
  function Copies(line: string, chapter: string): nat {
    if ':' in line then |KeptFrom(line, chapter, 0)| else 1
  }

  /** The reference output: each line repeated Copies times, in input order. */
  function Expected(lines: seq<string>, chapter: string): seq<string>
    decreases |lines|
  {
    if |lines| == 0 then [] else Rep(lines[0], Copies(lines[0], chapter)) + Expected(lines[1..], chapter)
  }

  // ------------------------------------------------------------ the proofs

  /** FirstIndex is pinned down by its two defining properties. */
  lemma FirstIndexUnique(s: string, c: char, i: nat)
    requires i <= |s| && c !in s[..i] && (i < |s| ==> s[i] == c)
    ensures FirstIndex(s, c) == i
  {
    PrefixHolds(s, i);
    PrefixHolds(s, FirstIndex(s, c));
  }

  /** Every character before index n is in the prefix of length n. */
  lemma PrefixHolds(s: string, n: nat)
    requires n <= |s|
    ensures forall k :: 0 <= k < n ==> s[k] in s[..n]
  {
    forall k | 0 <= k < n
      ensures s[k] in s[..n]
    {
      assert s[..n][k] == s[k];
    }
  }

  /** Lower-casing maps a character to ':' exactly when it is ':'. */
  lemma LowerCharColon(c: char)
    ensures LowerChar(c) == ':' <==> c == ':'
  {
  }

  /** Lower-casing commutes with taking a prefix. */
  lemma LowerPrefix(s: string, n: nat, m: nat)
    requires m <= n <= |s|
    ensures Lower(s[..n])[..m] == Lower(s[..m])
  {
    assert forall k :: 0 <= k < m ==> Lower(s[..n])[..m][k] == LowerChar(s[k]) == Lower(s[..m])[k];
  }

  /** Lower-casing moves no colon: the first colon of a lower-cased prefix
      that ends in a colon is the first colon of the line. */
  lemma LowerKeepsFirstColon(line: string, charcount: nat)
    requires 0 < charcount <= |line| && line[charcount - 1] == ':'
    ensures FirstIndex(line, ':') < charcount
    ensures FirstIndex(Lower(line[..charcount]), ':') == FirstIndex(line, ':')
    ensures Lower(line[..charcount])[..FirstIndex(line, ':')] == Lower(line[..FirstIndex(line, ':')])
  {
    var f := FirstIndex(line, ':');
    PrefixHolds(line, f);
    var cur := Lower(line[..charcount]);
    forall k | 0 <= k < f
      ensures cur[k] != ':'
    {
      assert line[..f][k] == line[k];
      LowerCharColon(line[k]);
    }
    assert ':' !in cur[..f];
    FirstIndexUnique(cur, ':', f);
    LowerPrefix(line, charcount, f);
  }

  /** No upper-case ASCII letter occurs in s. */
  predicate NoUpper(s: string) {
    forall i :: 0 <= i < |s| ==> !('A' <= s[i] <= 'Z')
  }

  lemma LowerHasNoUpper(s: string)
    ensures NoUpper(Lower(s))
  {
  }

  /** Lower-casing a string with no upper-case ASCII letter changes nothing. */
  lemma LowerUnchanged(s: string)
    requires NoUpper(s)
    ensures Lower(s) == s
  {
  }

  /** Every character of a slice occurs in the whole. */
  lemma SliceChars(s: string, a: nat, b: nat)
    requires a <= b <= |s|
    ensures forall c :: c in s[a..b] ==> c in s
  {
    forall c | c in s[a..b]
      ensures c in s
    {
      var k :| 0 <= k < b - a && s[a..b][k] == c;
      assert s[a + k] == c;
    }
  }

  /** Lower-casing a stripped piece of a lower-case string changes nothing. */
  lemma LowerOfStrippedPiece(curline: string, piece: string)
    requires NoUpper(curline)
    requires forall c :: c in piece ==> c in curline
    ensures Lower(Strip(piece)) == Strip(piece)
  {
    var t := Strip(piece);
    StripChars(piece);
    forall i | 0 <= i < |t|
      ensures !('A' <= t[i] <= 'Z')
    {
      assert t[i] in piece;
    }
    LowerUnchanged(t);
  }

  /** On a lower-cased prefix, the protection test as written agrees with
      the test without the inner lower-casing. */
  lemma SecondLowerRedundant(line: string, charcount: nat, chapter: string)
    requires charcount <= |line|
    ensures Protected(Lower(line[..charcount]), chapter) <==> Shielded(Lower(line[..charcount]), chapter)
  {
    var curline := Lower(line[..charcount]);
    LowerHasNoUpper(line[..charcount]);
    var n := |curline|;
    SliceChars(curline, n - |TakeLast(curline, 4)|, n);
    SliceChars(curline, n - |TakeLast(curline, 5)|, n);
    SliceChars(curline, 0, |Take(curline, |chapter|)|);
    LowerOfStrippedPiece(curline, TakeLast(curline, 4));
    LowerOfStrippedPiece(curline, TakeLast(curline, 5));
    LowerOfStrippedPiece(curline, Take(curline, |chapter|));
  }

  /** The split at program.py:379 always has at least two pieces, and its
      first piece is the lower-cased text before the line's first colon. */
  lemma ElifAlwaysTaken(line: string, charcount: nat)
    requires 0 < charcount <= |line| && line[charcount - 1] == ':'
    ensures |SplitOn(Lower(line[..charcount]), ':')| > 1
    ensures SplitOn(Lower(line[..charcount]), ':')[0] == Lower(line[..FirstIndex(line, ':')])
  {
    var cur := Lower(line[..charcount]);
    assert cur[charcount - 1] == ':';
    SplitOnHolding(cur, ':');
    SplitOnFirst(cur, ':');
    LowerKeepsFirstColon(line, charcount);
  }

  /** At a colon, the pass never strips, never consults the prompt and never
      counts: it emits the line once when the colon qualifies and nothing
      otherwise. */
  lemma AtColonNeverStrips(line: string, charcount: nat, chapter: string, confirm: string -> bool)
    requires 0 < charcount <= |line| && line[charcount - 1] == ':'
    ensures AtColon(line, charcount, chapter, confirm)
         == Counted(if KeptAt(line, charcount - 1, chapter) then [line] else [], 0)
  {
    ElifAlwaysTaken(line, charcount);
  }

  /** The positions from lo on are lo itself, if p holds there, and those
      from lo + 1 on. */
  lemma PositionsStep(lo: nat, hi: nat, p: nat -> bool)
    requires lo < hi
    ensures |Positions(lo, hi, p)| == (if p(lo) then 1 else 0) + |Positions(lo + 1, hi, p)|
  {
    var later := Positions(lo + 1, hi, p);
    if p(lo) {
      assert Positions(lo, hi, p) == {lo} + later;
    } else {
      assert Positions(lo, hi, p) == later;
    }
  }

  lemma KeptFromStep(line: string, chapter: string, i: nat)
    requires i < |line|
    ensures |KeptFrom(line, chapter, i)| == (if KeptAt(line, i, chapter) then 1 else 0) + |KeptFrom(line, chapter, i + 1)|
  {
    PositionsStep(i, |line|, (j: nat) => j < |line| && KeptAt(line, j, chapter));
  }

  lemma RepCons<T>(x: T, n: nat)
    ensures [x] + Rep(x, n) == Rep(x, n + 1)
  {
  }

  /** The scan at a colon appends what AtColon emits to the rest of the scan. */
  lemma ScanFromColon(line: string, i: nat, chapter: string, confirm: string -> bool)
    requires i < |line| && line[i] == ':'
    ensures ScanFrom(line, i, chapter, confirm).lines
         == AtColon(line, i + 1, chapter, confirm).lines + ScanFrom(line, i + 1, chapter, confirm).lines
    ensures ScanFrom(line, i, chapter, confirm).count
         == AtColon(line, i + 1, chapter, confirm).count + ScanFrom(line, i + 1, chapter, confirm).count
  {
  }

  /** One step of the scan at a colon that qualifies: one more copy. */
  lemma ScanStepKept(line: string, i: nat, chapter: string, confirm: string -> bool, n: nat)
    requires i < |line| && KeptAt(line, i, chapter)
    requires ScanFrom(line, i + 1, chapter, confirm) == Counted(Rep(line, n), 0)
    ensures ScanFrom(line, i, chapter, confirm) == Counted(Rep(line, n + 1), 0)
  {
    var at := AtColon(line, i + 1, chapter, confirm);
    assert at == Counted([line], 0) by {
      AtColonNeverStrips(line, i + 1, chapter, confirm);
    }
    var s := ScanFrom(line, i, chapter, confirm);
    assert s.lines == [line] + Rep(line, n) && s.count == 0 by {
      ScanFromColon(line, i, chapter, confirm);
    }
    RepCons(line, n);
  }

  /** One step of the scan at a colon that does not qualify: nothing added. */
  lemma ScanStepDropped(line: string, i: nat, chapter: string, confirm: string -> bool, n: nat)
    requires i < |line| && line[i] == ':' && !KeptAt(line, i, chapter)
    requires ScanFrom(line, i + 1, chapter, confirm) == Counted(Rep(line, n), 0)
    ensures ScanFrom(line, i, chapter, confirm) == Counted(Rep(line, n), 0)
  {
    var at := AtColon(line, i + 1, chapter, confirm);
    assert at == Counted([], 0) by {
      AtColonNeverStrips(line, i + 1, chapter, confirm);
    }
    var s := ScanFrom(line, i, chapter, confirm);
    assert s.lines == [] + Rep(line, n) && s.count == 0 by {
      ScanFromColon(line, i, chapter, confirm);
    }
    assert [] + Rep(line, n) == Rep(line, n);
  }

  /** One step of the scan at any other character: nothing added. */
  lemma ScanStepOther(line: string, i: nat, chapter: string, confirm: string -> bool)
    requires i < |line| && line[i] != ':'
    ensures ScanFrom(line, i, chapter, confirm) == ScanFrom(line, i + 1, chapter, confirm)
    ensures !KeptAt(line, i, chapter)
  {
  }

  /** One step of the scan: a copy more exactly when position i qualifies. */
  lemma ScanStep(line: string, i: nat, chapter: string, confirm: string -> bool, n: nat)
    requires i < |line|
    requires ScanFrom(line, i + 1, chapter, confirm) == Counted(Rep(line, n), 0)
    ensures ScanFrom(line, i, chapter, confirm) == Counted(Rep(line, (if KeptAt(line, i, chapter) then 1 else 0) + n), 0)
  {
    if line[i] != ':' {
      ScanStepOther(line, i, chapter, confirm);
    } else if KeptAt(line, i, chapter) {
      ScanStepKept(line, i, chapter, confirm, n);
    } else {
      ScanStepDropped(line, i, chapter, confirm, n);
    }
  }

  /** The scan from index i on emits the line once per qualifying colon at or
      after i, and counts nothing. */
  lemma {:induction false} ScanFromSpec(line: string, i: nat, chapter: string, confirm: string -> bool)
    requires i <= |line|
    ensures ScanFrom(line, i, chapter, confirm) == Counted(Rep(line, |KeptFrom(line, chapter, i)|), 0)
    decreases |line| - i
  {
    if i < |line| {
      ScanFromSpec(line, i + 1, chapter, confirm);
      KeptFromStep(line, chapter, i);
      ScanStep(line, i, chapter, confirm, |KeptFrom(line, chapter, i + 1)|);
    } else {
      assert KeptFrom(line, chapter, i) == {};
    }
  }

  /** `remove_speaker` as written: its count is always 0, it never consults
      the prompt, and it emits each input line Copies times, in input order. */
  lemma {:induction false} RemoveSpeakerAsWritten(lines: seq<string>, chapter: string, confirm: string -> bool)
    ensures RemoveSpeaker(lines, chapter, confirm) == Counted(Expected(lines, chapter), 0)
    decreases |lines|
  {
    if |lines| > 0 {
      RemoveSpeakerAsWritten(lines[1..], chapter, confirm);
      if ':' in lines[0] {
        ScanFromSpec(lines[0], 0, chapter, confirm);
      }
    }
  }

  /** The prompt is never consulted: any two oracles give the same result. */
  lemma PromptNeverConsulted(lines: seq<string>, chapter: string, yes: string -> bool, no: string -> bool)
    ensures RemoveSpeaker(lines, chapter, yes) == RemoveSpeaker(lines, chapter, no)
    ensures RemoveSpeaker(lines, chapter, yes).count == 0
  {
    RemoveSpeakerAsWritten(lines, chapter, yes);
    RemoveSpeakerAsWritten(lines, chapter, no);
  }

  /** A line without a colon is emitted exactly once, unchanged. */
  lemma NoColonPassesThrough(line: string, chapter: string, confirm: string -> bool)
    requires ':' !in line
    ensures RemoveSpeaker([line], chapter, confirm).lines == [line]
  {
    RemoveSpeakerAsWritten([line], chapter, confirm);
    assert Expected([line], chapter) == Rep(line, 1) + Expected([], chapter);
  }

  // ------------------------------------------- protected lines, in general

  /** Every colon of a line that opens with the chapter label, in any case,
      is kept: the third protection test of program.py:380-381 holds for
      every prefix ending at it, provided the label has no surrounding
      whitespace. */
  lemma ChapterHeadingKept(line: string, j: nat, chapter: string)
    requires |chapter| <= j + 1 && j < |line| && line[j] == ':'
    requires Lower(line[..|chapter|]) == chapter && Strip(chapter) == chapter
    ensures KeptAt(line, j, chapter)
  {
    LowerPrefix(line, j + 1, |chapter|);
    assert Take(Lower(line[..j + 1]), |chapter|) == chapter;
  }

  /** A label without colons, matched case-insensitively at the start of a
      line, covers no colon of the line. */
  lemma NoColonUnderLabel(line: string, chapter: string)
    requires |chapter| <= |line| && ':' !in chapter && Lower(line[..|chapter|]) == chapter
    ensures forall k :: 0 <= k < |chapter| ==> line[k] != ':'
  {
    forall k | 0 <= k < |chapter|
      ensures line[k] != ':'
    {
      LowerCharColon(line[k]);
      assert chapter[k] == LowerChar(line[k]) && chapter[k] in chapter;
    }
  }

  /** In a line that opens with the chapter label, the pass keeps every
      colon: the line is emitted once per colon it contains. */
  lemma HeadingColonsKept(line: string, chapter: string)
    requires |chapter| <= |line| && ':' !in chapter
    requires Lower(line[..|chapter|]) == chapter && Strip(chapter) == chapter
    ensures forall j: nat :: j in KeptFrom(line, chapter, 0) <==> j < |line| && line[j] == ':'
  {
    NoColonUnderLabel(line, chapter);
    forall j: nat | j < |line| && line[j] == ':'
      ensures j in KeptFrom(line, chapter, 0)
    {
      ChapterHeadingKept(line, j, chapter);
    }
  }

  /** Predicates that agree on [lo, hi) hold at the same positions there. */
  lemma PositionsAgree(lo: nat, hi: nat, p: nat -> bool, q: nat -> bool)
    requires forall j: nat :: lo <= j < hi ==> (p(j) <==> q(j))
    ensures Positions(lo, hi, p) == Positions(lo, hi, q)
  {
  }

  /** The colon positions at or after i number as many as the colons of the
      rest of the line. */
  lemma {:induction false} ColonPositions(line: string, i: nat)
    requires i <= |line|
    ensures |Positions(i, |line|, (j: nat) => j < |line| && line[j] == ':')| == Occurrences(line[i..], ':')
    decreases |line| - i
  {
    var colon := (j: nat) => j < |line| && line[j] == ':';
    if i == |line| {
      assert Positions(i, |line|, colon) == {};
    } else {
      PositionsStep(i, |line|, colon);
      ColonPositions(line, i + 1);
      assert line[i..][0] == line[i] && line[i..][1..] == line[i + 1..];
    }
  }

  /** A line that opens with the chapter label is emitted once per colon. */
  lemma HeadingCopies(line: string, chapter: string)
    requires |chapter| <= |line| && ':' !in chapter
    requires Lower(line[..|chapter|]) == chapter && Strip(chapter) == chapter
    ensures Copies(line, chapter) == if ':' in line then Occurrences(line, ':') else 1
  {
    var colon := (j: nat) => j < |line| && line[j] == ':';
    var kept := (j: nat) => j < |line| && KeptAt(line, j, chapter);
    HeadingColonsKept(line, chapter);
    PositionsAgree(0, |line|, kept, colon);
    ColonPositions(line, 0);
    assert line[0..] == line;
  }

  /** In such a line the colon ending "sfx:" is its only colon. */
  lemma SoundEffectColon(line: string)
    requires 4 <= |line| && Lower(line[..4]) == "sfx:" && ':' !in line[4..]
    ensures forall j :: 0 <= j < |line| ==> (line[j] == ':' <==> j == 3)
  {
    forall j | 0 <= j < |line|
      ensures line[j] == ':' <==> j == 3
    {
      if j < 4 {
        LowerCharColon(line[j]);
        assert Lower(line[..4])[j] == LowerChar(line[j]);
      } else {
        assert line[4..][j - 4] == line[j];
      }
    }
  }

  /** The colon ending "sfx:" is kept, whatever the chapter label. */
  lemma SoundEffectKept(line: string, chapter: string)
    requires 4 <= |line| && Lower(line[..4]) == "sfx:" && line[3] == ':'
    ensures KeptAt(line, 3, chapter)
  {
    SfxShieldedAny(chapter);
  }

  /** "sfx:" passes the first protection test. */
  lemma SfxShieldedAny(chapter: string)
    ensures Shielded("sfx:", chapter)
  {
    assert TakeLast("sfx:", 4) == "sfx:";
    StripUnchanged("sfx:");
  }

  /** A line that opens with "sfx:" in any case and has no later colon is
      emitted exactly once: the first protection test of program.py:380
      keeps its only colon. */
  lemma SoundEffectOnce(line: string, chapter: string)
    requires 4 <= |line| && Lower(line[..4]) == "sfx:" && ':' !in line[4..]
    ensures Copies(line, chapter) == 1
  {
    SoundEffectColon(line);
    SoundEffectKept(line, chapter);
    assert KeptFrom(line, chapter, 0) == {3};
  }

  /** The output of concatenated inputs is the concatenation of the outputs:
      copies come out in input order. */
  lemma {:induction false} ExpectedAppend(a: seq<string>, b: seq<string>, chapter: string)
    ensures Expected(a + b, chapter) == Expected(a, chapter) + Expected(b, chapter)
    decreases |a|
  {
    if |a| == 0 {
      assert a + b == b;
    } else {
      assert (a + b)[0] == a[0] && (a + b)[1..] == a[1..] + b;
      ExpectedAppend(a[1..], b, chapter);
    }
  }

  /** Every emitted line is a verbatim input line, and every input line
      without a colon is emitted. */
  lemma {:induction false} ExpectedCopiesInput(lines: seq<string>, chapter: string)
    ensures forall l :: l in Expected(lines, chapter) ==> l in lines
    ensures forall l :: l in lines && ':' !in l ==> l in Expected(lines, chapter)
    decreases |lines|
  {
    if |lines| > 0 {
      ExpectedCopiesInput(lines[1..], chapter);
      var head := Rep(lines[0], Copies(lines[0], chapter));
      assert forall l :: l in head ==> l == lines[0];
      assert ':' !in lines[0] ==> head == [lines[0]];
      assert forall l :: l in lines <==> l == lines[0] || l in lines[1..];
    }
  }
}
