/** Generic sequence combinators shared by the line passes: the reference
    definitions that the passes' contracts are stated against. */
module Seqs {

  /** What every counting pass returns: the new line list and the number of
      lines the pass affected. */
  datatype Counted = Counted(lines: seq<string>, count: nat)

  /** The elements of s that satisfy p, in their original order. */
  function Filter<T(!new)>(s: seq<T>, p: T -> bool): (r: seq<T>)
    ensures |r| <= |s|
    ensures forall x :: x in r <==> x in s && p(x)
    decreases |s|
  {
    if |s| == 0 then []
    else if p(s[0]) then [s[0]] + Filter(s[1..], p)
    else assert forall x :: x in s <==> x == s[0] || x in s[1..];
         Filter(s[1..], p)
  }

  /** The elements of s that do not satisfy p, in their original order. */
  function Reject<T(!new)>(s: seq<T>, p: T -> bool): (r: seq<T>)
    ensures |r| <= |s|
    ensures forall x :: x in r <==> x in s && !p(x)
    decreases |s|
  {
    if |s| == 0 then []
    else if p(s[0]) then
      assert forall x :: x in s <==> x == s[0] || x in s[1..];
      Reject(s[1..], p)
    else [s[0]] + Reject(s[1..], p)
  }

  /** Filter and Reject split s into two parts that together hold every element. */
  lemma {:induction false} FilterRejectPartition<T(!new)>(s: seq<T>, p: T -> bool)
    ensures |Filter(s, p)| + |Reject(s, p)| == |s|
    ensures multiset(Filter(s, p)) + multiset(Reject(s, p)) == multiset(s)
    decreases |s|
  {
    if |s| > 0 {
      FilterRejectPartition(s[1..], p);
      assert s == [s[0]] + s[1..];
    }
  }

  /** f applied to every element, positions preserved. */
  function Map<T, U>(s: seq<T>, f: T -> U): (r: seq<U>)
    ensures |r| == |s|
    ensures forall i :: 0 <= i < |s| ==> r[i] == f(s[i])
  {
    seq(|s|, i requires 0 <= i < |s| => f(s[i]))
  }

  /** n copies of x. */
  function Rep<T>(x: T, n: nat): (r: seq<T>)
    ensures |r| == n
    ensures forall i :: 0 <= i < n ==> r[i] == x
  {
    seq(n, _ => x)
  }

  /** The concatenation of the sequences in ss, in order. */
  function Flatten<T>(ss: seq<seq<T>>): seq<T>
    decreases |ss|
  {
    if |ss| == 0 then [] else ss[0] + Flatten(ss[1..])
  }

  /** Number of positions at which two equally long sequences differ. */
  function ChangedCount<T(==)>(a: seq<T>, b: seq<T>): (n: nat)
    requires |a| == |b|
    ensures n <= |a|
    ensures n == 0 <==> a == b
    decreases |a|
  {
    if |a| == 0 then 0
    else
      var rest := ChangedCount(a[1..], b[1..]);
      assert a == b <==> a[0] == b[0] && a[1..] == b[1..];
      (if a[0] != b[0] then 1 else 0) + rest
  }

  /** A pass that rewrites every line with f and counts the lines that came
      out different (the shape of program.py:412-421, 424-432 and 435-443). */
  function Rewrite(lines: seq<string>, f: string -> string): (r: Counted)
    ensures |r.lines| == |lines|
    ensures forall i :: 0 <= i < |lines| ==> r.lines[i] == f(lines[i])
    ensures r.count == ChangedCount(lines, r.lines)
    decreases |lines|
  {
    if |lines| == 0 then Counted([], 0)
    else
      var line := f(lines[0]);
      var rest := Rewrite(lines[1..], f);
      var r := Counted([line] + rest.lines, (if line != lines[0] then 1 else 0) + rest.count);
      assert r.lines[1..] == rest.lines;
      r
  }

  /** Rewriting with an idempotent f a second time changes no line and counts
      nothing. */
  lemma RewriteTwice(lines: seq<string>, f: string -> string)
    requires forall s :: f(f(s)) == f(s)
    ensures Rewrite(Rewrite(lines, f).lines, f) == Counted(Rewrite(lines, f).lines, 0)
  {
    var once := Rewrite(lines, f).lines;
    var twice := Rewrite(once, f);
    assert twice.lines == once;
  }

  /** The count of a rewrite is the number of lines f does not fix. */
  lemma {:induction false} RewriteCount(lines: seq<string>, f: string -> string, fixed: string -> bool)
    requires forall s :: fixed(s) <==> f(s) == s
    ensures Rewrite(lines, f).count == |Reject(lines, fixed)|
    decreases |lines|
  {
    if |lines| > 0 {
      RewriteCount(lines[1..], f, fixed);
    }
  }
}
