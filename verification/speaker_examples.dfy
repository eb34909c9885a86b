/** Worked examples of the speaker-label pass as written, with the default
    chapter label "chapter" (program.py:123). */
module SpeakerExamples {
  import opened Seqs
  import opened Text
  import opened Speakers

  /** Taking at least as many characters as there are gives the whole string. */
  lemma TakeWhole(s: string, n: nat)
    requires |s| <= n
    ensures Take(s, n) == s && TakeLast(s, n) == s
  {
    assert s[0..] == s;
  }

  /** A string missing the first character of a pattern does not contain it. */
  lemma {:induction false} NotContainsByFirst(s: string, sub: string)
    requires |sub| > 0 && sub[0] !in s
    ensures !Contains(s, sub)
    decreases |s|
  {
    if |s| > 0 {
      assert |sub| <= |s| ==> s[..|sub|][0] == s[0];
      assert s[0] in s;
      assert forall c :: c in s[1..] ==> c in s;
      NotContainsByFirst(s[1..], sub);
    }
  }

  /** When the colons of a line sit exactly at the given positions, the
      qualifying positions are those of them where the line is kept. */
  lemma KeptFromAtColons(line: string, chapter: string, colons: set<nat>)
    requires forall j :: 0 <= j < |line| ==> (line[j] == ':' <==> j in colons)
    ensures KeptFrom(line, chapter, 0) == set j | j in colons && j < |line| && KeptAt(line, j, chapter)
  {
  }

  /** A colon whose prefix fails the protection test, on a line whose first
      piece has no note marker, is not kept. */
  lemma NotKept(line: string, j: nat, chapter: string)
    requires j < |line|
    requires !Shielded(Lower(line[..j + 1]), chapter)
    requires !HasNoteMarker(Lower(line[..FirstIndex(line, ':')]))
    ensures !KeptAt(line, j, chapter)
  {
  }

  lemma SfxPrefix()
    ensures Lower("SFX: boom"[..4]) == "sfx:"
  {
    var p := "SFX: boom"[..4];
    assert p == "SFX:";
    assert Lower(p)[0] == 's' && Lower(p)[1] == 'f' && Lower(p)[2] == 'x' && Lower(p)[3] == ':';
  }

  lemma SfxRest()
    ensures ':' !in "SFX: boom"[4..]
  {
    assert "SFX: boom"[4..] == " boom";
  }

  lemma SfxCopies()
    ensures Copies("SFX: boom", "chapter") == 1
  {
    SfxPrefix();
    SfxRest();
    SoundEffectOnce("SFX: boom", "chapter");
  }

  /** A sound-effect line is kept once, whatever the prompt would answer. */
  lemma SfxLineKept(confirm: string -> bool)
    ensures RemoveSpeaker(["SFX: boom"], "chapter", confirm) == Counted(["SFX: boom"], 0)
  {
    var line := "SFX: boom";
    RemoveSpeakerAsWritten([line], "chapter", confirm);
    SfxCopies();
    assert Expected([line], "chapter") == Rep(line, 1) + Expected([], "chapter");
  }

  lemma TomPrefix()
    ensures Lower("Tom: hi"[..4]) == "tom:"
    ensures Lower("Tom: hi"[..FirstIndex("Tom: hi", ':')]) == "tom"
  {
    var line := "Tom: hi";
    assert line[..4] == "Tom:";
    assert Lower("Tom:")[0] == 't' && Lower("Tom:")[1] == 'o' && Lower("Tom:")[2] == 'm' && Lower("Tom:")[3] == ':';
    assert ':' !in line[..3];
    FirstIndexUnique(line, ':', 3);
    LowerPrefix(line, 4, 3);
  }

  lemma TomStrips()
    ensures Strip(TakeLast("tom:", 4)) == "tom:"
    ensures Strip(TakeLast("tom:", 5)) == "tom:"
    ensures Strip(Take("tom:", 7)) == "tom:"
  {
    TakeWhole("tom:", 4);
    TakeWhole("tom:", 5);
    TakeWhole("tom:", 7);
    StripUnchanged("tom:");
  }

  lemma TomNotSfx()
    ensures Strip(TakeLast("tom:", 4)) != "sfx:"
  {
    TomStrips();
    assert "tom:"[0] != "sfx:"[0];
  }

  lemma TomNotShielded()
    ensures !Shielded("tom:", "chapter")
  {
    TomStrips();
    TomNotSfx();
    assert |"tom:"| != |"note:"| && |"tom:"| != |"chapter"|;
  }

  lemma TomNoMarker()
    ensures !HasNoteMarker("tom")
  {
    NotContainsByFirst("tom", "note");
    NotContainsByFirst("tom", "/n");
    NotContainsByFirst("tom", "\\n");
  }

  lemma TomNotKept()
    ensures !KeptAt("Tom: hi", 3, "chapter")
  {
    TomPrefix();
    TomNotShielded();
    TomNoMarker();
    NotKept("Tom: hi", 3, "chapter");
  }

  lemma TomColons()
    ensures forall j :: 0 <= j < |"Tom: hi"| ==> ("Tom: hi"[j] == ':' <==> j in {3})
  {
  }

  lemma TomKeptFrom()
    ensures KeptFrom("Tom: hi", "chapter", 0) == {}
  {
    TomColons();
    KeptFromAtColons("Tom: hi", "chapter", {3});
    TomNotKept();
  }

  /** A line with a plain speaker label is dropped entirely, not stripped. */
  lemma SpeakerLineDropped(confirm: string -> bool)
    ensures RemoveSpeaker(["Tom: hi"], "chapter", confirm) == Counted([], 0)
  {
    RemoveSpeakerAsWritten(["Tom: hi"], "chapter", confirm);
    TomKeptFrom();
  }

  lemma ChapterOpening()
    ensures Lower("Chapter 1: a: b"[..7]) == "chapter"
  {
    var p := "Chapter 1: a: b"[..7];
    assert p == "Chapter";
    assert forall k :: 0 <= k < 7 ==> Lower(p)[k] == "chapter"[k];
  }

  lemma ChapterPieces()
    ensures "Chapter 1: a: b" == "Chapter 1" + ":" + " a" + ":" + " b"
    ensures ':' !in "Chapter 1" && ':' !in " a" && ':' !in " b"
    ensures Occurrences(":", ':') == 1
  {
  }

  lemma ChapterColonCount()
    ensures ':' in "Chapter 1: a: b" && Occurrences("Chapter 1: a: b", ':') == 2
  {
    ChapterPieces();
    OccurrencesAppend("Chapter 1", ":", ':');
    OccurrencesAppend("Chapter 1" + ":", " a", ':');
    OccurrencesAppend("Chapter 1" + ":" + " a", ":", ':');
    OccurrencesAppend("Chapter 1" + ":" + " a" + ":", " b", ':');
  }

  lemma ChapterLabelNoColon()
    ensures ':' !in "chapter"
  {
  }

  lemma ChapterLabelStripped()
    ensures Strip("chapter") == "chapter"
  {
    StripUnchanged("chapter");
  }

  lemma ChapterCopies()
    ensures Copies("Chapter 1: a: b", "chapter") == 2
  {
    ChapterOpening();
    ChapterLabelNoColon();
    ChapterLabelStripped();
    HeadingCopies("Chapter 1: a: b", "chapter");
    ChapterColonCount();
  }

  /** A chapter heading with two colons is emitted twice. */
  lemma ChapterLineDoubled(confirm: string -> bool)
    ensures RemoveSpeaker(["Chapter 1: a: b"], "chapter", confirm).lines == ["Chapter 1: a: b", "Chapter 1: a: b"]
  {
    var line := "Chapter 1: a: b";
    RemoveSpeakerAsWritten([line], "chapter", confirm);
    ChapterCopies();
    assert Expected([line], "chapter") == Rep(line, 2) + Expected([], "chapter");
  }
}
