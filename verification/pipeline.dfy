/** The stage sequence of `main` (program.py:62-108): each enabled feature
    transforms the list of lines in a fixed order, and the count each stage
    reports is collected. Reading the input file, writing the output file and
    the printed headers are not part of the model. */
module Pipeline {
  import opened Seqs
  import Normalise
  import Decorations
  import Filters
  import Latin
  import Speakers
  import Truncate

  /** The FEATURES section of the configuration (program.py:127-134),
      without `inputisoutput`, which only chooses the output path. */
  datatype Features = Features(
    preprocess: bool, decorations: bool, panels: bool, nonlatin: bool,
    speakers: bool, tildes: bool, ellipses: bool, blanklines: bool)

  /** The counts `main` prints, one per stage; 0 for a stage switched off. */
  datatype Report = Report(
    decorations: nat, panels: nat, removed: nat, speakers: nat,
    tildes: nat, ellipses: nat, blanks: nat)

  datatype Outcome = Outcome(lines: seq<string>, report: Report)

  /** The default configuration written by program.py:127-134. */
  const Defaults := Features(true, true, true, true, true, true, true, true)

  const NoFeatures := Features(false, false, false, false, false, false, false, false)

  const NoCounts := Report(0, 0, 0, 0, 0, 0, 0)

  /** A stage that is switched off passes its lines on and counts nothing. */
  function Skip(lines: seq<string>): Counted {
    Counted(lines, 0)
  }

  /** `test_file` with the set-aside lines dropped, as `main` uses it. */
  function Screen(lines: seq<string>): (r: Counted)
    ensures r.lines == Latin.TestFile(lines).lines
    ensures |r.lines| + r.count == |lines|
  {
    Latin.TestFilePartition(lines);
    var t := Latin.TestFile(lines);
    Counted(t.lines, t.count)
  }

  // One function per stage: the stage's transformation when its feature is
  // on, and Skip otherwise.

  function PreprocessStage(lines: seq<string>, f: Features): seq<string> {
    if f.preprocess then Normalise.Preprocess(lines) else lines
  }

  function DecorationStage(lines: seq<string>, f: Features, patterns: seq<string>, erase: (string, string) -> string): Counted {
    if f.decorations then Decorations.RemoveDecorations(lines, patterns, erase) else Skip(lines)
  }

  function PanelStage(lines: seq<string>, f: Features): Counted {
    if f.panels then Filters.RemovePanels(lines) else Skip(lines)
  }

  function LatinStage(lines: seq<string>, f: Features): Counted {
    if f.nonlatin then Screen(lines) else Skip(lines)
  }

  function SpeakerStage(lines: seq<string>, f: Features, chapter: string, confirm: string -> bool): (r: Counted)
    ensures r.count == 0
  {
    Speakers.RemoveSpeakerAsWritten(lines, chapter, confirm);
    if f.speakers then Speakers.RemoveSpeaker(lines, chapter, confirm) else Skip(lines)
  }

  function TildeStage(lines: seq<string>, f: Features): Counted {
    if f.tildes then Truncate.TruncateTildes(lines) else Skip(lines)
  }

  function EllipsisStage(lines: seq<string>, f: Features): Counted {
    if f.ellipses then Truncate.TruncateEllipses(lines) else Skip(lines)
  }

  function BlankStage(lines: seq<string>, f: Features): (r: Counted)
    ensures f.blanklines ==> forall l :: l in r.lines ==> !Filters.IsBlank(l)
  {
    if f.blanklines then Filters.RemoveBlankLines(lines) else Skip(lines)
  }

  /** `main` from the first feature test to the last, on the lines read. */
  function Run(filelines: seq<string>, f: Features, chapter: string, patterns: seq<string>,
               erase: (string, string) -> string, confirm: string -> bool): (o: Outcome)
    ensures f.blanklines ==> forall l :: l in o.lines ==> !Filters.IsBlank(l)
    ensures o.report.speakers == 0
  {
    var pre := PreprocessStage(filelines, f);
    var dec := DecorationStage(pre, f, patterns, erase);
    var pan := PanelStage(dec.lines, f);
    var lat := LatinStage(pan.lines, f);
    var spk := SpeakerStage(lat.lines, f, chapter, confirm);
    var til := TildeStage(spk.lines, f);
    var ell := EllipsisStage(til.lines, f);
    var bla := BlankStage(ell.lines, f);
    Outcome(bla.lines, Report(dec.count, pan.count, lat.count, spk.count, til.count, ell.count, bla.count))
  }

  /** The lines handed to the speaker stage. */
  function BeforeSpeakers(filelines: seq<string>, f: Features, patterns: seq<string>, erase: (string, string) -> string): seq<string> {
    LatinStage(PanelStage(DecorationStage(PreprocessStage(filelines, f), f, patterns, erase).lines, f).lines, f).lines
  }

  /** With every feature off, the lines are written out as they were read. */
  lemma NothingEnabled(filelines: seq<string>, chapter: string, patterns: seq<string>,
                       erase: (string, string) -> string, confirm: string -> bool)
    ensures Run(filelines, NoFeatures, chapter, patterns, erase, confirm) == Outcome(filelines, NoCounts)
  {
  }

  /** The prompt of the speaker stage never influences the result. */
  lemma RunNeverPrompts(filelines: seq<string>, f: Features, chapter: string, patterns: seq<string>,
                        erase: (string, string) -> string, yes: string -> bool, no: string -> bool)
    ensures Run(filelines, f, chapter, patterns, erase, yes) == Run(filelines, f, chapter, patterns, erase, no)
  {
    Speakers.PromptNeverConsulted(BeforeSpeakers(filelines, f, patterns, erase), chapter, yes, no);
  }

  // ------------------------------------------------------ Latin-only output

  /** Every line passes the Latin-only test. */
  predicate AllLatin(lines: seq<string>) {
    forall l :: l in lines ==> Latin.IsEnglish(l)
  }

  lemma LatinStageIsLatin(lines: seq<string>, f: Features)
    requires f.nonlatin
    ensures AllLatin(LatinStage(lines, f).lines)
  {
    Latin.TestFilePartition(lines);
  }

  lemma SpeakerStageKeepsLatin(lines: seq<string>, f: Features, chapter: string, confirm: string -> bool)
    requires AllLatin(lines)
    ensures AllLatin(SpeakerStage(lines, f, chapter, confirm).lines)
  {
    Speakers.RemoveSpeakerAsWritten(lines, chapter, confirm);
    Speakers.ExpectedCopiesInput(lines, chapter);
  }

  lemma TildeStageKeepsLatin(lines: seq<string>, f: Features)
    requires AllLatin(lines)
    ensures AllLatin(TildeStage(lines, f).lines)
  {
    if f.tildes {
      var r := Truncate.TruncateTildes(lines).lines;
      forall l | l in r
        ensures Latin.IsEnglish(l)
      {
        var i :| 0 <= i < |r| && r[i] == l;
        Truncate.CollapseTildesShape(lines[i]);
        Latin.IsEnglishOfFewerChars(lines[i], l);
      }
    }
  }

  lemma EllipsisStageKeepsLatin(lines: seq<string>, f: Features)
    requires AllLatin(lines)
    ensures AllLatin(EllipsisStage(lines, f).lines)
  {
    if f.ellipses {
      var r := Truncate.TruncateEllipses(lines).lines;
      Truncate.TruncateEllipsesSpec(lines);
      forall l | l in r
        ensures Latin.IsEnglish(l)
      {
        var i :| 0 <= i < |r| && r[i] == l;
        Latin.IsEnglishOfFewerChars(lines[i], l);
      }
    }
  }

  lemma BlankStageKeepsLatin(lines: seq<string>, f: Features)
    requires AllLatin(lines)
    ensures AllLatin(BlankStage(lines, f).lines)
  {
  }

  /** With the Latin filter on, no later stage brings back a line that fails
      the Latin-only test: every line written out passes it. */
  lemma RunLatinOnly(filelines: seq<string>, f: Features, chapter: string, patterns: seq<string>,
                     erase: (string, string) -> string, confirm: string -> bool)
    requires f.nonlatin
    ensures AllLatin(Run(filelines, f, chapter, patterns, erase, confirm).lines)
  {
    var lat := BeforeSpeakers(filelines, f, patterns, erase);
    LatinStageIsLatin(PanelStage(DecorationStage(PreprocessStage(filelines, f), f, patterns, erase).lines, f).lines, f);
    var spk := SpeakerStage(lat, f, chapter, confirm);
    SpeakerStageKeepsLatin(lat, f, chapter, confirm);
    var til := TildeStage(spk.lines, f);
    TildeStageKeepsLatin(spk.lines, f);
    var ell := EllipsisStage(til.lines, f);
    EllipsisStageKeepsLatin(til.lines, f);
    BlankStageKeepsLatin(ell.lines, f);
  }

  /** Under the default configuration every line written out passes the
      Latin-only test, none is blank, and no speaker label is counted. */
  lemma DefaultRun(filelines: seq<string>, chapter: string, patterns: seq<string>,
                   erase: (string, string) -> string, confirm: string -> bool)
    ensures var o := Run(filelines, Defaults, chapter, patterns, erase, confirm);
      && AllLatin(o.lines)
      && (forall l :: l in o.lines ==> !Filters.IsBlank(l))
      && o.report.speakers == 0
  {
    RunLatinOnly(filelines, Defaults, chapter, patterns, erase, confirm);
  }
}
