/** The character normaliser (`preprocess`, program.py:323-340): a fixed
    table of look-alike glyphs, each replaced by an ASCII stand-in. */
module Normalise {
  import opened Seqs

  /** One entry of the table: every `from` becomes `to`. */
  datatype Rule = Rule(from: char, to: string)

  /** The table at program.py:330-333, in the order the two loops visit it:
      the ellipsis glyph, then the single-quote look-alikes, then the
      double-quote look-alikes. */
  const Table: seq<Rule> := [
    Rule('…', "..."),
    Rule('’', "'"), Rule('‘', "'"), Rule('『', "'"), Rule('』', "'"),
    Rule('﹃', "'"), Rule('﹄', "'"), Rule('〈', "'"), Rule('〉', "'"),
    Rule('“', "\""), Rule('”', "\""), Rule('「', "\""), Rule('」', "\""),
    Rule('﹁', "\""), Rule('﹂', "\""), Rule('《', "\""), Rule('》', "\"")
  ]

  /** Python's `s.replace(c, to)` for a one-character c. */
  function ReplaceChar(s: string, c: char, to: string): string
    decreases |s|
  {
    if |s| == 0 then ""
    else (if s[0] == c then to else [s[0]]) + ReplaceChar(s[1..], c, to)
  }

  /** The inner loops of `preprocess` on one line: each rule's `replace`
      applied, in table order, to the previous result. */
  function ApplyRules(s: string, rules: seq<Rule>): string
    decreases |rules|
  {
    if |rules| == 0 then s
    else ApplyRules(ReplaceChar(s, rules[0].from, rules[0].to), rules[1..])
  }

  /** c is replaced by some rule. */
  predicate IsSource(c: char, rules: seq<Rule>) {
    exists k :: 0 <= k < |rules| && rules[k].from == c
  }

  /** No replacement text contains a character that some rule replaces, so
      the order of the rules cannot matter. */
  predicate Clean(rules: seq<Rule>) {
    forall j, i :: 0 <= j < |rules| && 0 <= i < |rules[j].to| ==> !IsSource(rules[j].to[i], rules)
  }

  /** The reference meaning of a rule list on one character: the replacement
      of the first rule for c, or c itself. */
  function SubstChar(c: char, rules: seq<Rule>): string
    decreases |rules|
  {
    if |rules| == 0 then [c]
    else if rules[0].from == c then rules[0].to
    else SubstChar(c, rules[1..])
  }

  /** The reference meaning on a string: each character substituted on its own. */
  function Charwise(s: string, rules: seq<Rule>): string
    decreases |s|
  {
    if |s| == 0 then "" else SubstChar(s[0], rules) + Charwise(s[1..], rules)
  }

  /** One normalised line: `temp` after the loops at program.py:336-338. */
  function NormaliseLine(s: string): string {
    ApplyRules(s, Table)
  }

  /** `preprocess`: every line normalised, the list keeps its length and order. */
  function Preprocess(lines: seq<string>): (r: seq<string>)
    ensures |r| == |lines|
    ensures forall i :: 0 <= i < |lines| ==> r[i] == NormaliseLine(lines[i])
  {
    Map(lines, NormaliseLine)
  }

  lemma {:induction false} ReplaceCharAppend(a: string, b: string, c: char, to: string)
    ensures ReplaceChar(a + b, c, to) == ReplaceChar(a, c, to) + ReplaceChar(b, c, to)
    decreases |a|
  {
    if |a| > 0 {
      assert (a + b)[1..] == a[1..] + b;
      ReplaceCharAppend(a[1..], b, c, to);
    } else {
      assert a + b == b;
    }
  }

  lemma {:induction false} ApplyRulesAppend(a: string, b: string, rules: seq<Rule>)
    ensures ApplyRules(a + b, rules) == ApplyRules(a, rules) + ApplyRules(b, rules)
    decreases |rules|
  {
    if |rules| > 0 {
      ReplaceCharAppend(a, b, rules[0].from, rules[0].to);
      ApplyRulesAppend(ReplaceChar(a, rules[0].from, rules[0].to), ReplaceChar(b, rules[0].from, rules[0].to), rules[1..]);
    }
  }

  lemma {:induction false} ReplaceCharAbsent(s: string, c: char, to: string)
    requires c !in s
    ensures ReplaceChar(s, c, to) == s
    decreases |s|
  {
    if |s| > 0 {
      ReplaceCharAbsent(s[1..], c, to);
      assert s == [s[0]] + s[1..];
    }
  }

  /** Text holding no source character passes through the rules untouched. */
  lemma {:induction false} ApplyRulesUntouched(s: string, rules: seq<Rule>)
    requires forall i :: 0 <= i < |s| ==> !IsSource(s[i], rules)
    ensures ApplyRules(s, rules) == s
    decreases |rules|
  {
    if |rules| > 0 {
      forall i | 0 <= i < |s|
        ensures s[i] != rules[0].from && !IsSource(s[i], rules[1..])
      {
        assert rules[0].from == s[i] ==> IsSource(s[i], rules);
        IsSourceOfPart(s[i], rules[1..], rules);
      }
      ReplaceCharAbsent(s, rules[0].from, rules[0].to);
      ApplyRulesUntouched(s, rules[1..]);
    }
  }

  /** A character replaced by a sub-list of the rules is replaced by the whole list. */
  lemma IsSourceOfPart(c: char, part: seq<Rule>, all: seq<Rule>)
    requires forall k :: 0 <= k < |part| ==> part[k] in all
    ensures IsSource(c, part) ==> IsSource(c, all)
  {
    if IsSource(c, part) {
      var k :| 0 <= k < |part| && part[k].from == c;
      var m :| 0 <= m < |all| && all[m] == part[k];
    }
  }

  lemma {:induction false} ApplyRulesOneChar(c: char, rules: seq<Rule>, all: seq<Rule>)
    requires Clean(all)
    requires forall k :: 0 <= k < |rules| ==> rules[k] in all
    ensures ApplyRules([c], rules) == SubstChar(c, rules)
    decreases |rules|
  {
    if |rules| > 0 {
      var r0 := rules[0];
      assert ReplaceChar([c], r0.from, r0.to) == (if c == r0.from then r0.to else [c]) + ReplaceChar([], r0.from, r0.to);
      forall k | 0 <= k < |rules[1..]|
        ensures rules[1..][k] in all
      {
        assert rules[1..][k] == rules[k + 1];
      }
      if c == r0.from {
        assert ReplaceChar([c], r0.from, r0.to) == r0.to;
        var j :| 0 <= j < |all| && all[j] == r0;
        forall i | 0 <= i < |r0.to|
          ensures !IsSource(r0.to[i], rules[1..])
        {
          assert !IsSource(all[j].to[i], all);
          IsSourceOfPart(r0.to[i], rules[1..], all);
        }
        ApplyRulesUntouched(r0.to, rules[1..]);
      } else {
        ApplyRulesOneChar(c, rules[1..], all);
      }
    }
  }

  /** The as-written sequence of `replace` calls equals the charwise
      substitution, for any clean rule list. */
  lemma {:induction false} ApplyRulesIsCharwise(s: string, rules: seq<Rule>)
    requires Clean(rules)
    ensures ApplyRules(s, rules) == Charwise(s, rules)
    decreases |s|
  {
    if |s| > 0 {
      assert s == [s[0]] + s[1..];
      ApplyRulesAppend([s[0]], s[1..], rules);
      ApplyRulesOneChar(s[0], rules, rules);
      ApplyRulesIsCharwise(s[1..], rules);
    } else {
      assert ApplyRules([], rules) == [] by {
        ApplyRulesUntouched([], rules);
      }
    }
  }

  /** After a clean substitution no source character is left. */
  lemma {:induction false} CharwiseLeavesNoSource(s: string, rules: seq<Rule>)
    requires Clean(rules)
    ensures forall i :: 0 <= i < |Charwise(s, rules)| ==> !IsSource(Charwise(s, rules)[i], rules)
    decreases |s|
  {
    if |s| > 0 {
      SubstCharLeavesNoSource(s[0], rules, rules);
      CharwiseLeavesNoSource(s[1..], rules);
    }
  }

  lemma {:induction false} SubstCharLeavesNoSource(c: char, rules: seq<Rule>, all: seq<Rule>)
    requires Clean(all)
    requires |rules| <= |all| && all[|all| - |rules|..] == rules
    requires forall k :: 0 <= k < |all| - |rules| ==> all[k].from != c
    ensures forall i :: 0 <= i < |SubstChar(c, rules)| ==> !IsSource(SubstChar(c, rules)[i], all)
    decreases |rules|
  {
    var j := |all| - |rules|;
    if |rules| == 0 {
      assert SubstChar(c, rules) == [c];
      assert !IsSource(c, all);
    } else if rules[0].from == c {
      assert all[j] == rules[0];
      forall i | 0 <= i < |rules[0].to|
        ensures !IsSource(rules[0].to[i], all)
      {
        assert rules[0].to[i] == all[j].to[i];
      }
    } else {
      assert all[j].from != c;
      assert all[j + 1..] == rules[1..];
      SubstCharLeavesNoSource(c, rules[1..], all);
    }
  }

  /** The table is clean: sources are all non-ASCII, replacements all ASCII. */
  lemma TableIsClean()
    ensures Clean(Table)
  {
    assert forall k :: 0 <= k < |Table| ==> Table[k].from as int >= 128;
    assert forall j, i :: 0 <= j < |Table| && 0 <= i < |Table[j].to| ==> Table[j].to[i] as int < 128;
  }

  /** A normalised line holds no character from the table, and a line holding
      none is left exactly as it was. */
  lemma NormaliseLineSpec(s: string)
    ensures NormaliseLine(s) == Charwise(s, Table)
    ensures forall i :: 0 <= i < |NormaliseLine(s)| ==> !IsSource(NormaliseLine(s)[i], Table)
    ensures (forall i :: 0 <= i < |s| ==> !IsSource(s[i], Table)) ==> NormaliseLine(s) == s
  {
    TableIsClean();
    ApplyRulesIsCharwise(s, Table);
    CharwiseLeavesNoSource(s, Table);
    if forall i :: 0 <= i < |s| ==> !IsSource(s[i], Table) {
      ApplyRulesUntouched(s, Table);
    }
  }

  /** Normalising twice is the same as normalising once, line by line. */
  lemma PreprocessIdempotent(lines: seq<string>)
    ensures Preprocess(Preprocess(lines)) == Preprocess(lines)
  {
    var once := Preprocess(lines);
    forall i | 0 <= i < |lines|
      ensures NormaliseLine(once[i]) == once[i]
    {
      NormaliseLineSpec(lines[i]);
      NormaliseLineSpec(once[i]);
    }
  }

  /** The ellipsis glyph becomes three dots and the curly apostrophe a plain one. */
  lemma NormaliseExamples()
    ensures NormaliseLine("…") == "..."
    ensures NormaliseLine("’") == "'"
  {
    NormaliseLineSpec("…");
    NormaliseLineSpec("’");
    assert Table[0] == Rule('…', "...") && Table[1] == Rule('’', "'");
    assert SubstChar('’', Table) == SubstChar('’', Table[1..]);
    assert Charwise("…", Table) == SubstChar('…', Table) + Charwise("", Table);
    assert Charwise("’", Table) == SubstChar('’', Table) + Charwise("", Table);
  }
}
