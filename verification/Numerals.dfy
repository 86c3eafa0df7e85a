// What the C library's number scanners accept, as a grammar: white space, a
// sign, for base 16 a prefix, digits, and then the end of the text or a NUL.
module Numerals {
  import opened Text

  predicate Digits(s: string, base: nat)
    requires base == 10 || base == 16
  {
    s != "" && forall i | 0 <= i < |s| :: IsDigit(s[i], base)
  }

  /** The number that digits stand for. */
  function NumberOf(s: string, base: nat): nat
    requires base == 10 || base == 16
    requires forall i | 0 <= i < |s| :: IsDigit(s[i], base)
  {
    if s == "" then 0 else NumberOf(s[..|s| - 1], base) * base + DigitValue(s[|s| - 1], base)
  }

  predicate Spaces(s: string) { forall i | 0 <= i < |s| :: IsSpace(s[i]) }

  /** The parts of a numeral. */
  datatype Parts = Parts(space: string, sign: string, prefix: string, digits: string, rest: string)

  function TextOf(p: Parts): string { p.space + p.sign + p.prefix + p.digits + p.rest }

  predicate WellFormed(p: Parts, base: nat)
    requires base == 10 || base == 16
  {
    && Spaces(p.space) && p.sign in {"", "+", "-"}
    && (p.prefix == "" || (base == 16 && p.prefix in {"0x", "0X"}))
    && Digits(p.digits, base)
    && (p.rest == "" || p.rest[0] == '\0')
  }

  lemma NumberSnoc(s: string, c: char, base: nat)
    requires (base == 10 || base == 16) && IsDigit(c, base)
    requires forall i | 0 <= i < |s| :: IsDigit(s[i], base)
    ensures forall i | 0 <= i < |s + [c]| :: IsDigit((s + [c])[i], base)
    ensures NumberOf(s + [c], base) == NumberOf(s, base) * base + DigitValue(c, base)
  {
    hide IsDigit, DigitValue;
    assert (s + [c])[..|s|] == s;
  }

  lemma {:induction false} ScanDigitsFrom(s: string, k: nat, i: nat, base: nat)
    requires k <= i <= |s| && (base == 10 || base == 16)
    requires forall j | k <= j < i :: IsDigit(s[j], base)
    ensures forall j | 0 <= j < |s[k..i]| :: IsDigit(s[k..i][j], base)
    ensures var (value, end) := ScanDigits(s, i, base, NumberOf(s[k..i], base));
            value == NumberOf(s[k..end], base)
    decreases |s| - i
  {
    hide IsDigit, DigitValue, NumberOf;
    if i < |s| && IsDigit(s[i], base) {
      assert s[k..i + 1] == s[k..i] + [s[i]];
      NumberSnoc(s[k..i], s[i], base);
      ScanDigitsFrom(s, k, i + 1, base);
    }
  }

  lemma {:induction false} SkipsSpaces(s: string, i: nat, n: nat)
    requires i <= n <= |s| && forall j | i <= j < n :: IsSpace(s[j])
    requires n == |s| || !IsSpace(s[n])
    ensures SkipSpace(s, i) == n
    decreases n - i
  {
    if i < n {
      SkipsSpaces(s, i + 1, n);
    }
  }

  lemma {:induction false} SkipSpaceIs(s: string, i: nat)
    requires i <= |s|
    ensures forall j | i <= j < SkipSpace(s, i) :: IsSpace(s[j])
    ensures SkipSpace(s, i) < |s| ==> !IsSpace(s[SkipSpace(s, i)])
    decreases |s| - i
  {
    if i < |s| && IsSpace(s[i]) {
      SkipSpaceIs(s, i + 1);
    }
  }

  lemma NulIsNoDigit(base: nat)
    requires base == 10 || base == 16
    ensures !IsDigit('\0', base) && !IsDigit('-', base) && !IsDigit('+', base) && !IsDigit('x', base) && !IsDigit('X', base)
    ensures forall c: char :: IsDigit(c, base) ==> !IsSpace(c)
    ensures !IsSpace('-') && !IsSpace('+') && IsDigit('0', base)
  {
  }

  /** Digits from `k` on, followed by something else. */
  lemma DigitsScanned(s: string, k: nat, end: nat, base: nat)
    requires k < end <= |s| && (base == 10 || base == 16)
    requires forall j | k <= j < end :: IsDigit(s[j], base)
    requires end == |s| || !IsDigit(s[end], base)
    ensures forall j | 0 <= j < |s[k..end]| :: IsDigit(s[k..end][j], base)
    ensures ScanDigits(s, k, base, 0) == (NumberOf(s[k..end], base), end)
  {
    hide IsDigit, DigitValue;
    assert s[k..k] == "";
    ScanDigitsFrom(s, k, k, base);
  }

  /** Where the parts lie. */
  lemma Layout(p: Parts)
    ensures var s, a := TextOf(p), |p.space|;
            var b := a + |p.sign|;
            var c := b + |p.prefix|;
            var d := c + |p.digits|;
            && d + |p.rest| == |s|
            && s[..a] == p.space && s[a..b] == p.sign && s[b..c] == p.prefix && s[c..d] == p.digits && s[d..] == p.rest
  {
  }

  /** Where the scanner sees the sign end, and the prefix. */
  function SignEnd(s: string, i: nat): (j: nat)
    requires i <= |s|
    ensures i <= j <= |s|
  {
    if i < |s| && (s[i] == '-' || s[i] == '+') then i + 1 else i
  }

  function PrefixEnd(s: string, j: nat, base: nat): (k: nat)
    requires j <= |s| && (base == 10 || base == 16)
    ensures j <= k <= |s|
  {
    if base == 16 && j + 2 < |s| && s[j] == '0' && (s[j + 1] == 'x' || s[j + 1] == 'X') && IsDigit(s[j + 2], 16)
    then j + 2 else j
  }

  lemma ScanInSteps(s: string, base: nat)
    requires base == 10 || base == 16
    ensures var i := SkipSpace(s, 0);
            var j := SignEnd(s, i);
            var k := PrefixEnd(s, j, base);
            var (value, end) := ScanDigits(s, k, base, 0);
            Scan(s, base) == Scanned(end > k, i < |s| && s[i] == '-', value, if end > k then end else 0)
  {
    hide IsDigit, ScanDigits, SkipSpace;
  }

  lemma SpaceEnds(p: Parts, base: nat)
    requires (base == 10 || base == 16) && WellFormed(p, base)
    ensures SkipSpace(TextOf(p), 0) == |p.space|
  {
    hide IsDigit, IsSpace, SkipSpace;
    var s, a := TextOf(p), |p.space|;
    Layout(p);
    NulIsNoDigit(base);
    forall j | 0 <= j < a ensures IsSpace(s[j]) { assert s[j] == p.space[j]; }
    assert s[a] == (p.sign + p.prefix + p.digits)[0];
    SkipsSpaces(s, 0, a);
  }

  lemma SignEnds(p: Parts, base: nat)
    requires (base == 10 || base == 16) && WellFormed(p, base)
    ensures SignEnd(TextOf(p), |p.space|) == |p.space + p.sign|
    ensures var s := TextOf(p); |p.space| < |s| && (s[|p.space|] == '-' <==> p.sign == "-")
  {
    hide IsDigit, IsSpace;
    NulIsNoDigit(base);
    var s := TextOf(p);
    assert s[|p.space|] == (p.sign + p.prefix + p.digits)[0];
  }

  lemma PrefixEnds(p: Parts, base: nat)
    requires (base == 10 || base == 16) && WellFormed(p, base)
    ensures PrefixEnd(TextOf(p), |p.space + p.sign|, base) == |p.space + p.sign + p.prefix|
  {
    hide IsDigit, IsSpace;
    NulIsNoDigit(base);
    var s, b := TextOf(p), |p.space + p.sign|;
    var after := p.prefix + p.digits + p.rest;
    assert s == p.space + p.sign + after;
    assert forall j | 0 <= j < |after| :: s[b + j] == after[j];
    if p.prefix == "" && |after| > 1 {
      assert after[1] == if |p.digits| > 1 then p.digits[1] else p.rest[0];
    }
    if p.prefix != "" {
      assert after[2] == p.digits[0];
    }
  }

  lemma DigitsEnd(p: Parts, base: nat)
    requires (base == 10 || base == 16) && WellFormed(p, base)
    ensures var k := |p.space + p.sign + p.prefix|;
            ScanDigits(TextOf(p), k, base, 0) == (NumberOf(p.digits, base), k + |p.digits|)
  {
    hide IsDigit, IsSpace, ScanDigits, NumberOf;
    NulIsNoDigit(base);
    var s, k := TextOf(p), |p.space + p.sign + p.prefix|;
    var d := k + |p.digits|;
    assert s[k..d] == p.digits;
    forall j | k <= j < d ensures IsDigit(s[j], base) { assert s[j] == p.digits[j - k]; }
    assert d < |s| ==> s[d] == p.rest[0];
    DigitsScanned(s, k, d, base);
  }

  /** A well-formed numeral is scanned to its end. */
  lemma NumeralScanned(p: Parts, base: nat)
    requires (base == 10 || base == 16) && WellFormed(p, base)
    ensures var s := TextOf(p);
            var sc := Scan(s, base);
            sc == Scanned(true, p.sign == "-", NumberOf(p.digits, base), |s| - |p.rest|) && StopsAtEnd(s, sc)
  {
    var s := TextOf(p);
    ScanInSteps(s, base);
    SpaceEnds(p, base);
    SignEnds(p, base);
    PrefixEnds(p, base);
    DigitsEnd(p, base);
    assert |p.rest| > 0 ==> s[|s| - |p.rest|] == p.rest[0];
    hide Scan, ScanDigits, SkipSpace, NumberOf, IsDigit, IsSpace, SignEnd, PrefixEnd;
  }

  /** And only such a one is. */
  lemma OnlyNumerals(s: string, base: nat) returns (p: Parts)
    requires base == 10 || base == 16
    requires Scan(s, base).any && StopsAtEnd(s, Scan(s, base))
    ensures TextOf(p) == s && WellFormed(p, base)
    ensures Scan(s, base).neg == (p.sign == "-") && Scan(s, base).magnitude == NumberOf(p.digits, base)
  {
    hide Scan, IsDigit, DigitValue, IsSpace, ScanDigits, SkipSpace, NumberOf, SignEnd, PrefixEnd, TextOf;
    ScanInSteps(s, base);
    var i := SkipSpace(s, 0);
    var j := SignEnd(s, i);
    var k := PrefixEnd(s, j, base);
    var end := ScanDigits(s, k, base, 0).1;
    SkipSpaceIs(s, 0);
    DigitsScanned(s, k, end, base);
    p := PartsAt(s, i, j, k, end);
    SignShape(s, i);
    PrefixShape(s, j, base);
  }

  lemma SignShape(s: string, i: nat)
    requires i <= |s|
    ensures s[i..SignEnd(s, i)] in {"", "+", "-"}
    ensures s[i..SignEnd(s, i)] == "-" <==> i < |s| && s[i] == '-'
  {
    var sign := s[i..SignEnd(s, i)];
    if SignEnd(s, i) == i {
      assert sign == "";
    } else if s[i] == '-' {
      assert sign == "-";
    } else {
      assert sign == "+";
    }
  }

  lemma PrefixShape(s: string, j: nat, base: nat)
    requires j <= |s| && (base == 10 || base == 16)
    ensures s[j..PrefixEnd(s, j, base)] == "" || (base == 16 && s[j..PrefixEnd(s, j, base)] in {"0x", "0X"})
  {
    hide IsDigit;
    var k := PrefixEnd(s, j, base);
    if k == j {
      assert s[j..k] == "";
    } else if s[j + 1] == 'x' {
      assert s[j..k] == "0x";
    } else {
      assert s[j..k] == "0X";
    }
  }

  function PartsAt(s: string, i: nat, j: nat, k: nat, end: nat): (p: Parts)
    requires i <= j <= k <= end <= |s|
    ensures TextOf(p) == s
  {
    Parts(s[..i], s[i..j], s[j..k], s[k..end], s[end..])
  }
}
