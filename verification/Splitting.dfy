// Splitting a string on a separator character, empty pieces left out; shared
// by path matching and by header parameters.
module Splitting {
  import opened Text

  /** The non-empty pieces between separators, from `start` on. */
  function SplitFrom(s: string, sep: char, start: nat): (parts: seq<string>)
    requires start <= |s|
    ensures forall i | 0 <= i < |parts| :: parts[i] != "" && sep !in parts[i]
    decreases |s| - start
  {
    if start == |s| then []
    else
      var pos := FindFrom(s, sep, start);
      var head := if pos > start then [s[start..pos]] else [];
      assert pos > start ==> forall k | start <= k < pos :: s[start..pos][k - start] == s[k];
      head + if pos == |s| then [] else SplitFrom(s, sep, pos + 1)
  }

  lemma SplitStep(s: string, sep: char, start: nat)
    requires start < |s|
    ensures var pos := FindFrom(s, sep, start);
            SplitFrom(s, sep, start) ==
            (if pos > start then [s[start..pos]] else []) + if pos == |s| then [] else SplitFrom(s, sep, pos + 1)
  {
    hide FindFrom;
  }

  lemma SplitEnd(s: string, sep: char)
    ensures SplitFrom(s, sep, |s|) == []
  {
  }

  method SplitView(s: string, sep: char) returns (out: seq<string>)
    ensures out == SplitFrom(s, sep, 0)
  {
    hide SplitFrom, FindFrom;
    out := [];
    SplitEnd(s, sep);
    var start: nat := 0;
    while start < |s|
      invariant start <= |s|
      invariant out + SplitFrom(s, sep, start) == SplitFrom(s, sep, 0)
    {
      SplitStep(s, sep, start);
      var pos := FindFrom(s, sep, start);
      if pos == |s| {
        out := out + [s[start..]];
        assert s[start..] == s[start..pos];
        return;
      }
      if pos > start {
        out := out + [s[start..pos]];
      }
      start := pos + 1;
    }
  }

  /** Splitting does not look at what lies before the start. */
  lemma {:induction false} SplitShift(a: string, b: string, sep: char, start: nat)
    requires start <= |b|
    ensures SplitFrom(a + b, sep, |a| + start) == SplitFrom(b, sep, start)
    decreases |b| - start
  {
    hide SplitFrom, FindFrom;
    var s := a + b;
    if start < |b| {
      FindShift(a, b, sep, start);
      SplitStep(s, sep, |a| + start);
      SplitStep(b, sep, start);
      var p := FindFrom(b, sep, start);
      assert s[|a| + start..|a| + p] == b[start..p];
      if p < |b| {
        SplitShift(a, b, sep, p + 1);
      }
    } else {
      SplitEnd(s, sep);
      SplitEnd(b, sep);
    }
  }

  lemma {:induction false} FindShift(a: string, b: string, c: char, start: nat)
    requires start <= |b|
    ensures FindFrom(a + b, c, |a| + start) == |a| + FindFrom(b, c, start)
    decreases |b| - start
  {
    if start < |b| && b[start] != c {
      assert (a + b)[|a| + start] == b[start];
      FindShift(a, b, c, start + 1);
    }
  }

  /** The next `c` after `a` is where `p`, which has none, ends. */
  lemma FindPast(a: string, p: string, b: string, c: char)
    requires c !in p && (b == "" || b[0] == c)
    ensures FindFrom(a + p + b, c, |a|) == |a| + |p|
  {
    hide FindFrom;
    var s := a + p + b;
    forall k | |a| <= k < |a| + |p|
      ensures s[k] != c
    {
      assert s[k] == p[k - |a|];
    }
    assert b != "" ==> s[|a| + |p|] == c;
  }

  /** A leading separator is skipped. */
  lemma SplitLead(sep: char, s: string)
    ensures SplitFrom([sep] + s, sep, 0) == SplitFrom(s, sep, 0)
  {
    hide SplitFrom, FindFrom;
    FindPast("", "", [sep] + s, sep);
    assert "" + "" + ([sep] + s) == [sep] + s;
    SplitStep([sep] + s, sep, 0);
    SplitShift([sep], s, sep, 0);
  }

  /** The first piece is split off at the separator after it. */
  lemma SplitHead(p: string, sep: char, rest: string)
    requires p != "" && sep !in p
    ensures SplitFrom(p + [sep] + rest, sep, 0) == [p] + SplitFrom(rest, sep, 0)
    ensures SplitFrom(p, sep, 0) == [p]
  {
    hide SplitFrom, FindFrom;
    var s := p + [sep] + rest;
    FindPast("", p, [sep] + rest, sep);
    assert "" + p + ([sep] + rest) == s;
    SplitStep(s, sep, 0);
    assert s[..|p|] == p;
    SplitShift(p + [sep], rest, sep, 0);
    FindPast("", p, "", sep);
    assert "" + p + "" == p;
    SplitStep(p, sep, 0);
  }
}
