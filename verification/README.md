# TypesetterHelper line pipeline, in Dafny

TypesetterHelper (`program.py`) cleans a translated comic script before it
is typeset. It reads the script as a list of lines and passes that list
through up to eight stages. Each stage is switched on or off by the FEATURES
section of the configuration, and each reports a count. In order, the stages:

1. normalise look-alike quote and ellipsis glyphs;
2. erase user-configured decoration patterns;
3. drop panel labels;
4. drop lines with non-Latin characters;
5. handle speaker labels;
6. collapse runs of tildes;
7. collapse runs of ellipses;
8. drop blank lines.

This project models those stages and their composition in `main` as pure
functions over `seq<string>`. It proves what each stage keeps, drops,
rewrites and counts.

Modules, one per stage or concern:

- `Seqs`: `Counted` (lines plus a count), order-preserving `Filter`/`Reject`, `Map`, `Rep`, and the shared rewrite-and-count pass `Rewrite`.
- `Text`: Python's `strip` (over the exact `str.isspace` set), ASCII `lower`, `split`/`join` on one character, `count`, `startswith` and `in`.
- `Normalise`: `preprocess` and its glyph table.
- `Decorations`: `remove_decorations`, with the regular-expression engine as a parameter.
- `Filters`: `remove_panels` and `remove_blank_lines`.
- `Latin`: `is_english` and `test_file`.
- `Truncate`: `truncate_tildes` and `truncate_ellipses`. Their two fixed regular expressions are written out as leftmost, greedy scans.
- `Speakers`: `remove_speaker`, exactly as the code is written.
- `SpeakerExamples`: worked examples, proving what the speaker pass makes of three concrete lines.
- `Pipeline`: the flag-gated stage order of `main`.

### What the speaker pass does

The code of `remove_speaker` behaves differently from what its comments and
docstring suggest, and the model follows the code:

- At every colon of a line, `curline` is the lower-cased prefix up to and including that colon. `curline.split(":")` therefore always has at least two pieces.
- So when the protection test ("sfx:", "note:" or the chapter label) fails, the `elif` is always taken. The branch that strips the label, increments `speakercount` and asks the user is never reached.
- As a result, no label is ever removed, the returned count is always 0 and the prompt is never shown.
- A line with colons is emitted once for every colon that qualifies: the colon's prefix is protected, or the text before the first colon holds "note", "/n" or "\n". A line with no qualifying colon is dropped.
- For example, "Tom: hi" is dropped, not shortened to "hi". "Chapter 1: a: b" is emitted twice. "SFX: boom" is emitted once.
- A line without a colon passes through unchanged.

## Model

| member | source | states |
|---|---|---|
| Normalise.Preprocess | program.py:323-340 | the output has one line per input line, in order, each being that line normalised |
| Normalise.NormaliseLineSpec | program.py:330-339 | the nested replace loops act glyph by glyph; a normalised line holds none of the 17 look-alike glyphs; a line holding none of them is left unchanged |
| Normalise.PreprocessIdempotent | program.py:323-340 | running the normaliser on its own output changes nothing |
| Normalise.NormaliseExamples | program.py:330-331 | "…" becomes "..." and "’" becomes "'" |
| Decorations.RemoveDecorations | program.py:405-421 | every line is rewritten by all patterns in list order; the count is the number of positions where output and input differ |
| Decorations.DecorationCount | program.py:419-420 | the count is exactly the number of input lines that the patterns do not leave unchanged |
| Decorations.ApplyPatternsAppend | program.py:416-417 | applying a concatenated pattern list equals applying the first part and then the second part |
| Decorations.NoPatternsNoChange | program.py:414-421 | with no patterns every line passes unchanged and the count is 0 |
| Filters.RemovePanels | program.py:343-357 | the output is the non-panel lines in input order; the count is the number of panel lines |
| Filters.RemovePanelsSpec | program.py:352-356 | a line appears in the output iff it is an input line that does not start with "panel" in any case; the count equals the number of lines dropped |
| Filters.PanelExamples | program.py:353 | "Panel 1", "PANEL" and "panels" are panel labels; " Panel 1" (with a leading space), "Pane" and "" are not |
| Filters.RemoveBlankLines | program.py:446-454 | the output is the non-blank lines in input order; the count is the number of blank lines |
| Filters.RemoveBlankLinesSpec | program.py:449-453 | a line survives iff it is an input line holding a non-whitespace character; the count equals the number of lines dropped |
| Latin.IsEnglishCharwise | program.py:179-235 | the set-difference test accepts a line iff every character is ASCII punctuation, a digit, an ASCII letter, one of the listed diacritics or extra characters, or the byte-order mark |
| Latin.IsEnglishOfFewerChars | program.py:228-235 | a line whose characters all occur in an accepted line is itself accepted |
| Latin.EmptyIsEnglish | program.py:231-232 | the empty line is accepted |
| Latin.PlainAsciiIsEnglish | program.py:179-181 | any line of ASCII letters, digits, punctuation and spaces is accepted |
| Latin.ControlAndCjkRejected | program.py:228-234 | a tab, a line feed or a CJK ideograph anywhere in a line rejects it |
| Latin.TestFile | program.py:282-301 | the kept lines are the stripped input lines that are Latin-only, in order; the set-aside lines are the rest, in order; the count is the number set aside |
| Latin.TestFilePartition | program.py:294-300 | each stripped input line lands in exactly one of the two lists (as multisets); kept lines are Latin-only and already stripped; set-aside lines are not Latin-only; kept plus count equals the input length |
| Truncate.CollapseTildesSpec | program.py:428 | collapsing tilde runs changes a line iff it holds "~~", and collapsing twice equals collapsing once |
| Truncate.CollapseTildesShape | program.py:428 | the collapsed line holds no "~~", starts with the same character, and holds only characters of the input |
| Truncate.TruncateTildes | program.py:424-432 | one output line per input line, each with its tilde runs collapsed; the count is the number of lines that changed |
| Truncate.TruncateTildesSpec | program.py:424-432 | the count equals the number of input lines holding "~~"; no output line holds "~~"; a second pass changes nothing and counts 0 |
| Truncate.TildeRun | program.py:428 | "a~~~b~" becomes "a~b~" |
| Truncate.TripleDotsOfRun | program.py:439 | the greedy match of `(\.\.\.)+` takes the largest multiple of three dots of the leading run, and at least three when the run has three |
| Truncate.CollapseEllipsesIsSqueeze | program.py:439 | the leftmost-greedy substitution equals the run-by-run reference: each maximal run of n >= 3 dots becomes 3 + n mod 3 dots, shorter runs are kept |
| Truncate.TruncateEllipses | program.py:435-443 | one output line per input line, each with its ellipses substituted; the count is the number of lines that changed |
| Truncate.TruncateEllipsesSpec | program.py:435-443 | each output line is the run-by-run reference of its input; it holds only characters of its input; a second pass changes nothing and counts 0 |
| Truncate.SqueezeDotsIdempotent | program.py:439 | the run-by-run reference is idempotent |
| Truncate.SixDots | program.py:439 | "......" becomes "..." |
| Truncate.FourDots | program.py:439 | "...." is left as it is (three dots match and the fourth is copied) |
| Truncate.TwoDots | program.py:439 | ".." does not match |
| Text.StripIdempotent | program.py:295 | stripping a stripped line changes nothing |
| Text.StripEmptyIffAllSpace | program.py:450 | a line strips to "" iff every character of it is whitespace |
| Text.SplitOnCount | program.py:379 | `split(":")` gives one piece more than the number of colons |
| Text.SplitJoinRoundTrip | program.py:379 | joining the pieces of a split with the separator gives back the original string |
| Speakers.SecondLowerRedundant | program.py:377-381 | on the lower-cased `curline`, the protection test with its inner `.lower()` calls agrees with the test without them |
| Speakers.ElifAlwaysTaken | program.py:377-384 | at a colon, `curline.split(":")` has at least two pieces, and its first piece is the lower-cased text before the line's first colon |
| Speakers.AtColonNeverStrips | program.py:376-397 | at each colon the loop body appends the unchanged line if the colon qualifies and nothing otherwise; it never strips, never prompts and never counts |
| Speakers.ScanFromSpec | program.py:374-399 | the scan from any index emits the line once per qualifying colon at or after it and counts 0 |
| Speakers.RemoveSpeakerAsWritten | program.py:360-402 | the pass returns every input line repeated as many times as it has qualifying colons (once if it has no colon), in input order, with count 0 |
| Speakers.PromptNeverConsulted | program.py:388-394 | any two answers to the prompt give the same output, and the count is 0 |
| Speakers.NoColonPassesThrough | program.py:400-401 | a line without a colon is emitted exactly once, unchanged |
| Speakers.HeadingCopies | program.py:380-382 | a line that opens with the chapter label, in any case, is emitted once per colon it holds |
| Speakers.SoundEffectOnce | program.py:380-382 | a line that opens with "sfx:", in any case, and has no later colon is emitted exactly once |
| Speakers.ExpectedAppend | program.py:371-401 | the output for concatenated inputs is the concatenation of the outputs |
| Speakers.ExpectedCopiesInput | program.py:371-401 | every emitted line is a verbatim input line, and every input line without a colon is emitted |
| SpeakerExamples.SfxLineKept | program.py:380-382 | "SFX: boom" comes out once with count 0, whatever the prompt would answer |
| SpeakerExamples.SpeakerLineDropped | program.py:383-386 | "Tom: hi" is dropped entirely with count 0, not reduced to "hi" |
| SpeakerExamples.ChapterLineDoubled | program.py:374-382 | "Chapter 1: a: b" comes out twice, once per colon, under the default label "chapter" |
| Pipeline.Run | program.py:62-108 | with blank-line removal on, no output line is blank; the reported speaker count is always 0 |
| Pipeline.NothingEnabled | program.py:62-108 | with every feature off, the lines come out exactly as read and every count is 0 |
| Pipeline.RunNeverPrompts | program.py:87-90 | the whole pipeline's result does not depend on the answer to the speaker prompt |
| Pipeline.RunLatinOnly | program.py:81-108 | with the non-Latin filter on, no later stage reintroduces a rejected line: every output line passes the Latin-only test |
| Pipeline.DefaultRun | program.py:127-134 | under the default configuration every output line is Latin-only, none is blank, and the speaker count is 0 |

## Left out

- Configuration handling (`build_config`, `parse_config`, the config file) is not modelled. The FEATURES switches, the chapter label and the decoration patterns are parameters of `Pipeline.Run`. `inputisoutput` only chooses the output path, so it is left out.
- `get_files`, reading the input file, `write_output`, `print_header` and all printing are left out: they are I/O.
- The regular-expression engine is not modelled. `remove_decorations` takes `erase(pattern, line)` as a parameter, standing for `re.sub(pattern, "", line)`. The two fixed expressions of the truncators are written out instead.
- The `input()` prompt in `remove_speaker` is the oracle parameter `confirm`. The model proves that it is never consulted.
- `except: pass` in `remove_speaker` is left out. Nothing in the body raises for a string chapter label.
- Text.Lower: lower-cases ASCII A-Z only. Python's `str.lower` also lower-cases non-ASCII letters. This matters only for non-ASCII text in panel labels, protection prefixes and note markers.
- Text.Strip: strips the 29 code points for which Python's `str.isspace` is true. These are fixed in the model rather than taken from the Unicode database.
- Speakers.AtColon: uses the protection test without the redundant inner lower-casing. Speakers.SecondLowerRedundant proves that the two tests agree on every `curline` the code can form.
- Pipeline.Run: reports 0 for a stage that is switched off. In the program, the count variable of that stage is simply never printed.
