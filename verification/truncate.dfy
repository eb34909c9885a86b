/** The run-length truncators: `truncate_tildes` (program.py:424-432,
    `re.sub("~+", "~", line)`) and `truncate_ellipses` (program.py:435-443,
    `re.sub("(\.\.\.)+", "...", line)`). Both regular expressions are simple
    enough to be written out as scans that, like `re.sub`, try a match at the
    leftmost position, take the greedy match and resume after it. */
module Truncate {
  import opened Seqs

  /** Number of copies of c at the front of s. */
  function LeadingRun(s: string, c: char): (n: nat)
    ensures n <= |s|
    ensures forall i :: 0 <= i < n ==> s[i] == c
    ensures n == |s| || s[n] != c
    decreases |s|
  {
    if |s| > 0 && s[0] == c then 1 + LeadingRun(s[1..], c) else 0
  }

  lemma {:induction false} LeadingRunDrop(s: string, c: char, k: nat)
    requires k <= LeadingRun(s, c)
    ensures LeadingRun(s[k..], c) == LeadingRun(s, c) - k
    decreases k
  {
    if k > 0 {
      assert s[k..] == s[1..][k - 1..];
      LeadingRunDrop(s[1..], c, k - 1);
    }
  }

  /** A run of k copies of c followed by text not starting with c. */
  lemma {:induction false} LeadingRunOfRep(c: char, k: nat, u: string)
    requires u == [] || u[0] != c
    ensures LeadingRun(Rep(c, k) + u, c) == k
    ensures (Rep(c, k) + u)[k..] == u
    decreases k
  {
    var s := Rep(c, k) + u;
    if k == 0 {
      assert s == u;
    } else {
      assert s[0] == c;
      assert s[1..] == Rep(c, k - 1) + u;
      LeadingRunOfRep(c, k - 1, u);
    }
  }

  /** Every character of t occurs in s. */
  ghost predicate CharsWithin(t: string, s: string) {
    forall ch :: ch in t ==> ch in s
  }

  // ---------------------------------------------------------------- tildes

  /** `re.sub("~+", "~", s)`: every maximal run of '~' becomes one '~'. */
  function CollapseTildes(s: string): string
    decreases |s|
  {
    if |s| == 0 then ""
    else if s[0] == '~' then "~" + CollapseTildes(s[LeadingRun(s, '~')..])
    else [s[0]] + CollapseTildes(s[1..])
  }

  /** No two adjacent '~'. */
  predicate NoDoubleTilde(s: string) {
    forall i :: 0 <= i < |s| - 1 ==> s[i] != '~' || s[i + 1] != '~'
  }

  /** Prepending one character keeps NoDoubleTilde unless it makes a "~~". */
  lemma NoDoubleTildeCons(x: char, u: string)
    requires NoDoubleTilde(u)
    requires x != '~' || u == [] || u[0] != '~'
    ensures NoDoubleTilde([x] + u)
  {
    var s := [x] + u;
    forall i | 0 <= i < |s| - 1
      ensures s[i] != '~' || s[i + 1] != '~'
    {
      if i > 0 {
        assert s[i] == u[i - 1] && s[i + 1] == u[i];
      }
    }
  }

  /** The collapsed text has no "~~", starts like its input, and holds only
      characters of its input. */
  lemma {:induction false} CollapseTildesShape(s: string)
    ensures NoDoubleTilde(CollapseTildes(s))
    ensures |s| > 0 ==> |CollapseTildes(s)| > 0 && CollapseTildes(s)[0] == s[0]
    ensures CharsWithin(CollapseTildes(s), s)
    decreases |s|
  {
    if |s| > 0 {
      if s[0] == '~' {
        var n := LeadingRun(s, '~');
        var t := s[n..];
        CollapseTildesShape(t);
        NoDoubleTildeCons('~', CollapseTildes(t));
        assert forall ch :: ch in t ==> ch in s;
      } else {
        CollapseTildesShape(s[1..]);
        NoDoubleTildeCons(s[0], CollapseTildes(s[1..]));
        assert forall ch :: ch in s[1..] ==> ch in s;
      }
    }
  }

  /** Text without "~~" is left alone. */
  lemma {:induction false} CollapseTildesFixes(s: string)
    requires NoDoubleTilde(s)
    ensures CollapseTildes(s) == s
    decreases |s|
  {
    if |s| > 0 {
      assert NoDoubleTilde(s[1..]) by {
        forall i | 0 <= i < |s[1..]| - 1
          ensures s[1..][i] != '~' || s[1..][i + 1] != '~'
        {
          assert s[1..][i] == s[i + 1] && s[1..][i + 1] == s[i + 2];
        }
      }
      CollapseTildesFixes(s[1..]);
      if s[0] == '~' {
        assert LeadingRun(s, '~') == 1 by {
          assert |s| == 1 || s[1] != '~';
          assert LeadingRun(s[1..], '~') == 0;
        }
      }
      assert s == [s[0]] + s[1..];
    }
  }

  /** A line changes under tilde truncation exactly when it holds "~~", and
      truncating twice is truncating once. */
  lemma CollapseTildesSpec(s: string)
    ensures CollapseTildes(s) == s <==> NoDoubleTilde(s)
    ensures CollapseTildes(CollapseTildes(s)) == CollapseTildes(s)
  {
    CollapseTildesShape(s);
    CollapseTildesFixes(CollapseTildes(s));
    if NoDoubleTilde(s) {
      CollapseTildesFixes(s);
    }
  }

  /** `truncate_tildes`: every line's tilde runs collapsed; the count is the
      number of lines that changed, which are exactly those holding "~~". */
  function TruncateTildes(lines: seq<string>): (r: Counted)
    ensures |r.lines| == |lines|
    ensures forall i :: 0 <= i < |lines| ==> r.lines[i] == CollapseTildes(lines[i])
    ensures r.count == ChangedCount(lines, r.lines)
  {
    Rewrite(lines, CollapseTildes)
  }

  /** The count of `truncate_tildes` is the number of lines holding "~~", no
      output line holds "~~", and a second run changes nothing. */
  lemma TruncateTildesSpec(lines: seq<string>)
    ensures TruncateTildes(lines).count == |Reject(lines, NoDoubleTilde)|
    ensures forall i :: 0 <= i < |lines| ==> NoDoubleTilde(TruncateTildes(lines).lines[i])
    ensures TruncateTildes(TruncateTildes(lines).lines) == Counted(TruncateTildes(lines).lines, 0)
  {
    forall s: string
      ensures CollapseTildes(CollapseTildes(s)) == CollapseTildes(s)
      ensures NoDoubleTilde(s) <==> CollapseTildes(s) == s
    {
      CollapseTildesSpec(s);
    }
    forall i | 0 <= i < |lines|
      ensures NoDoubleTilde(TruncateTildes(lines).lines[i])
    {
      CollapseTildesShape(lines[i]);
    }
    RewriteTwice(lines, CollapseTildes);
    RewriteCount(lines, CollapseTildes, NoDoubleTilde);
  }

  // -------------------------------------------------------------- ellipses

  /** Length of the greedy match of `(\.\.\.)+` at the front of s; 0 when it
      does not match there. */
  function TripleDots(s: string): (n: nat)
    ensures n <= |s|
    decreases |s|
  {
    if |s| >= 3 && s[..3] == "..." then 3 + TripleDots(s[3..]) else 0
  }

  /** `re.sub("(\.\.\.)+", "...", s)`. */
  function CollapseEllipses(s: string): string
    decreases |s|
  {
    if |s| == 0 then ""
    else
      var m := TripleDots(s);
      if m > 0 then "..." + CollapseEllipses(s[m..]) else [s[0]] + CollapseEllipses(s[1..])
  }

  /** How long a maximal run of n dots is after truncation: 3 + n mod 3 once
      it reaches three, unchanged below that. */
  function DotRunAfter(n: nat): nat {
    if n >= 3 then 3 + n % 3 else n
  }

  /** The reference meaning of the ellipsis truncation, run by run. */
  function SqueezeDots(s: string): string
    decreases |s|
  {
    if |s| == 0 then ""
    else if s[0] != '.' then [s[0]] + SqueezeDots(s[1..])
    else
      var n := LeadingRun(s, '.');
      Rep('.', DotRunAfter(n)) + SqueezeDots(s[n..])
  }

  /** The greedy match takes the largest multiple of three dots of the run. */
  lemma {:induction false} TripleDotsOfRun(s: string)
    ensures var n := LeadingRun(s, '.'); var t := TripleDots(s);
      && t <= n && n - t < 3 && t % 3 == 0 && (n >= 3 ==> t >= 3)
    decreases |s|
  {
    var n := LeadingRun(s, '.');
    if n >= 3 {
      assert s[..3] == "...";
      LeadingRunDrop(s, '.', 3);
      TripleDotsOfRun(s[3..]);
    } else if |s| >= 3 {
      assert s[n] != '.';
      assert s[..3] != "...";
    }
  }

  /** Every string splits into its leading dot run and the rest. */
  lemma SqueezeDotsUnfold(t: string)
    ensures var n := LeadingRun(t, '.');
      SqueezeDots(t) == Rep('.', DotRunAfter(n)) + SqueezeDots(t[n..])
  {
    if |t| > 0 && t[0] != '.' {
      assert Rep('.', 0) + SqueezeDots(t) == SqueezeDots(t);
    } else if |t| == 0 {
      assert Rep('.', 0) + SqueezeDots(t) == SqueezeDots(t);
    }
  }

  /** The regular-expression scan equals the run-by-run reference. */
  lemma {:induction false} CollapseEllipsesIsSqueeze(s: string)
    ensures CollapseEllipses(s) == SqueezeDots(s)
    decreases |s|
  {
    if |s| > 0 {
      var n := LeadingRun(s, '.');
      TripleDotsOfRun(s);
      if s[0] != '.' {
        CollapseEllipsesIsSqueeze(s[1..]);
      } else if n < 3 {
        CollapseEllipsesIsSqueeze(s[1..]);
        ShortDotRun(s);
      } else {
        CollapseEllipsesIsSqueeze(s[TripleDots(s)..]);
        LongDotRun(s);
      }
    }
  }

  /** A run of one or two dots is copied a dot at a time. */
  lemma ShortDotRun(s: string)
    requires |s| > 0 && s[0] == '.' && LeadingRun(s, '.') < 3
    requires CollapseEllipses(s[1..]) == SqueezeDots(s[1..])
    ensures CollapseEllipses(s) == SqueezeDots(s)
  {
    var n := LeadingRun(s, '.');
    var rest := SqueezeDots(s[n..]);
    ShortRunNoMatch(s);
    ShortRunTail(s);
    ShortRunSqueeze(s);
    DotsGlue(1, n - 1, rest);
  }

  lemma ShortRunNoMatch(s: string)
    requires |s| > 0 && s[0] == '.' && LeadingRun(s, '.') < 3
    ensures CollapseEllipses(s) == Rep('.', 1) + CollapseEllipses(s[1..])
  {
    TripleDotsOfRun(s);
    assert Rep('.', 1) == ".";
  }

  /** After the first dot of a short run, the rest of the run is copied. */
  lemma ShortRunTail(s: string)
    requires |s| > 0 && s[0] == '.' && LeadingRun(s, '.') < 3
    ensures SqueezeDots(s[1..]) == Rep('.', LeadingRun(s, '.') - 1) + SqueezeDots(s[LeadingRun(s, '.')..])
  {
    var n := LeadingRun(s, '.');
    LeadingRunDrop(s, '.', 1);
    SqueezeDotsUnfold(s[1..]);
    assert s[1..][n - 1..] == s[n..];
  }

  /** A short run is copied whole. */
  lemma ShortRunSqueeze(s: string)
    requires |s| > 0 && s[0] == '.' && LeadingRun(s, '.') < 3
    ensures SqueezeDots(s) == Rep('.', LeadingRun(s, '.')) + SqueezeDots(s[LeadingRun(s, '.')..])
  {
    SqueezeDotsUnfold(s);
  }

  /** A run of three dots or more loses its largest multiple of three but three. */
  lemma LongDotRun(s: string)
    requires |s| > 0 && LeadingRun(s, '.') >= 3
    requires CollapseEllipses(s[TripleDots(s)..]) == SqueezeDots(s[TripleDots(s)..])
    ensures CollapseEllipses(s) == SqueezeDots(s)
  {
    LongRunCollapse(s);
    LongRunSqueeze(s);
    DotsGlue(3, LeadingRun(s, '.') - TripleDots(s), SqueezeDots(s[LeadingRun(s, '.')..]));
  }

  lemma LongRunCollapse(s: string)
    requires |s| > 0 && LeadingRun(s, '.') >= 3
    requires CollapseEllipses(s[TripleDots(s)..]) == SqueezeDots(s[TripleDots(s)..])
    ensures TripleDots(s) <= LeadingRun(s, '.')
    ensures CollapseEllipses(s) == Rep('.', 3) + (Rep('.', LeadingRun(s, '.') - TripleDots(s)) + SqueezeDots(s[LeadingRun(s, '.')..]))
  {
    LongRunMatch(s);
    LongRunRemainder(s);
  }

  /** Two runs of dots in a row make one run. */
  lemma DotsGlue(j: nat, k: nat, rest: string)
    ensures Rep('.', j) + (Rep('.', k) + rest) == Rep('.', j + k) + rest
  {
    RepAppend('.', j, k);
  }

  lemma LongRunMatch(s: string)
    requires |s| > 0 && LeadingRun(s, '.') >= 3
    ensures TripleDots(s) <= LeadingRun(s, '.')
    ensures CollapseEllipses(s) == Rep('.', 3) + CollapseEllipses(s[TripleDots(s)..])
  {
    TripleDotsOfRun(s);
    assert Rep('.', 3) == "...";
  }

  lemma LongRunSqueeze(s: string)
    requires |s| > 0 && LeadingRun(s, '.') >= 3
    ensures TripleDots(s) <= LeadingRun(s, '.')
    ensures SqueezeDots(s) == Rep('.', 3 + (LeadingRun(s, '.') - TripleDots(s))) + SqueezeDots(s[LeadingRun(s, '.')..])
  {
    LongRunLength(s);
    SqueezeDotsUnfold(s);
  }

  /** The reference keeps of a long run three dots and what the greedy
      match leaves over. */
  lemma LongRunLength(s: string)
    requires |s| > 0 && LeadingRun(s, '.') >= 3
    ensures TripleDots(s) <= LeadingRun(s, '.')
    ensures DotRunAfter(LeadingRun(s, '.')) == 3 + (LeadingRun(s, '.') - TripleDots(s))
  {
    TripleDotsOfRun(s);
    RemainderOfRun(LeadingRun(s, '.'), TripleDots(s));
  }

  /** What the greedy match leaves of a long run is copied. */
  lemma LongRunRemainder(s: string)
    requires |s| > 0 && LeadingRun(s, '.') >= 3 && TripleDots(s) <= LeadingRun(s, '.')
    ensures SqueezeDots(s[TripleDots(s)..]) == Rep('.', LeadingRun(s, '.') - TripleDots(s)) + SqueezeDots(s[LeadingRun(s, '.')..])
  {
    var n := LeadingRun(s, '.');
    var m := TripleDots(s);
    TripleDotsOfRun(s);
    LeadingRunDrop(s, '.', m);
    RemainderSqueeze(s[m..], n - m);
    assert s[m..][n - m..] == s[n..];
  }

  /** A run of fewer than three dots is copied by the reference. */
  lemma RemainderSqueeze(t: string, k: nat)
    requires LeadingRun(t, '.') == k && k < 3
    ensures SqueezeDots(t) == Rep('.', k) + SqueezeDots(t[k..])
  {
    SqueezeDotsUnfold(t);
  }

  lemma RemainderOfRun(n: nat, m: nat)
    requires m <= n && n - m < 3 && m % 3 == 0
    ensures n % 3 == n - m
  {
  }

  lemma RepAppend(c: char, a: nat, b: nat)
    ensures Rep(c, a) + Rep(c, b) == Rep(c, a + b)
  {
  }

  /** The squeezed text of a line not starting with a dot starts like it. */
  lemma SqueezeDotsStart(s: string)
    requires |s| > 0 && s[0] != '.'
    ensures |SqueezeDots(s)| > 0 && SqueezeDots(s)[0] == s[0]
  {
  }

  /** The squeezed text holds only characters of its input. */
  lemma {:induction false} SqueezeDotsChars(s: string)
    ensures CharsWithin(SqueezeDots(s), s)
    decreases |s|
  {
    if |s| > 0 {
      if s[0] != '.' {
        SqueezeDotsChars(s[1..]);
        assert forall ch :: ch in s[1..] ==> ch in s;
      } else {
        var n := LeadingRun(s, '.');
        SqueezeDotsChars(s[n..]);
        assert forall ch :: ch in s[n..] ==> ch in s;
        assert forall ch :: ch in Rep('.', DotRunAfter(n)) ==> ch == '.';
      }
    }
  }

  /** A run length the reference produces is left as it is. */
  lemma DotRunAfterFixed(n: nat)
    ensures DotRunAfter(DotRunAfter(n)) == DotRunAfter(n)
  {
    if n >= 3 {
      assert n % 3 < 3;
    }
  }

  /** Squeezing twice is squeezing once. */
  lemma {:induction false} SqueezeDotsIdempotent(s: string)
    ensures SqueezeDots(SqueezeDots(s)) == SqueezeDots(s)
    decreases |s|
  {
    if |s| > 0 {
      if s[0] != '.' {
        var u := SqueezeDots(s[1..]);
        SqueezeDotsIdempotent(s[1..]);
        assert ([s[0]] + u)[1..] == u;
      } else {
        var n := LeadingRun(s, '.');
        var k := DotRunAfter(n);
        var t := s[n..];
        var u := SqueezeDots(t);
        SqueezeDotsIdempotent(t);
        if |t| > 0 {
          SqueezeDotsStart(t);
        }
        LeadingRunOfRep('.', k, u);
        SqueezeDotsUnfold(Rep('.', k) + u);
        DotRunAfterFixed(n);
      }
    }
  }

  /** `truncate_ellipses`: every line's dot runs truncated; the count is the
      number of lines that changed. */
  function TruncateEllipses(lines: seq<string>): (r: Counted)
    ensures |r.lines| == |lines|
    ensures forall i :: 0 <= i < |lines| ==> r.lines[i] == CollapseEllipses(lines[i])
    ensures r.count == ChangedCount(lines, r.lines)
  {
    Rewrite(lines, CollapseEllipses)
  }

  /** Each line is truncated run by run (n >= 3 dots become 3 + n mod 3),
      keeps only characters it had, and a second run changes nothing. */
  lemma TruncateEllipsesSpec(lines: seq<string>)
    ensures forall i :: 0 <= i < |lines| ==> TruncateEllipses(lines).lines[i] == SqueezeDots(lines[i])
    ensures forall i :: 0 <= i < |lines| ==> CharsWithin(TruncateEllipses(lines).lines[i], lines[i])
    ensures TruncateEllipses(TruncateEllipses(lines).lines) == Counted(TruncateEllipses(lines).lines, 0)
  {
    forall s: string
      ensures CollapseEllipses(s) == SqueezeDots(s)
      ensures CollapseEllipses(CollapseEllipses(s)) == CollapseEllipses(s)
      ensures CharsWithin(CollapseEllipses(s), s)
    {
      CollapseEllipsesIsSqueeze(s);
      CollapseEllipsesIsSqueeze(SqueezeDots(s));
      SqueezeDotsChars(s);
      SqueezeDotsIdempotent(s);
    }
    RewriteTwice(lines, CollapseEllipses);
  }

  /** Six dots become three. */
  lemma SixDots()
    ensures CollapseEllipses("......") == "..."
  {
    assert TripleDots("......") == 6;
  }

  /** Four dots are left alone: three match, the fourth is copied. */
  lemma FourDots()
    ensures CollapseEllipses("....") == "...."
  {
    assert TripleDots("....") == 3;
    assert TripleDots(".") == 0;
  }

  /** Two dots do not match. */
  lemma TwoDots()
    ensures CollapseEllipses("..") == ".."
  {
    assert TripleDots("..") == 0;
  }

  /** A run of three tildes becomes one. */
  lemma TildeRun()
    ensures CollapseTildes("a~~~b~") == "a~b~"
  {
    assert LeadingRun("~~~b~", '~') == 3;
  }
}
