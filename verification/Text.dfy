// Text primitives shared by the parsers: searching, trimming, ASCII case
// folding and the C library's number scanners.  A char stands for one byte.
module Text {
  const CRLF: string := "\r\n"

  /** `s.find(c, start)`; the length of `s` plays the part of npos. */
  function FindFrom(s: string, c: char, start: nat): (i: nat)
    requires start <= |s|
    ensures start <= i <= |s|
    ensures i < |s| ==> s[i] == c
    ensures forall k :: start <= k < i ==> s[k] != c
    decreases |s| - start
  {
    if start == |s| || s[start] == c then start else FindFrom(s, c, start + 1)
  }

  function Find(s: string, c: char): (i: nat)
    ensures i <= |s|
    ensures i < |s| ==> s[i] == c
    ensures forall k :: 0 <= k < i ==> s[k] != c
  {
    FindFrom(s, c, 0)
  }

  /** The first `c` of `a + [c] + b` is right after `a` when `a` has none. */
  lemma FindAfter(a: string, c: char, b: string)
    requires c !in a
    ensures Find(a + [c] + b, c) == |a|
  {
    var s := a + [c] + b;
    assert s[|a|] == c;
    assert forall k | 0 <= k < |a| :: s[k] == a[k];
  }

  predicate OccursAt(s: string, pat: string, i: nat) {
    i + |pat| <= |s| && s[i..i + |pat|] == pat
  }

  /** `s.find(pat, start)` for a non-empty pattern; the length of `s` is npos. */
  function FindSub(s: string, pat: string, start: nat): (i: nat)
    requires pat != ""
    ensures i <= |s|
    ensures i < |s| ==> start <= i && OccursAt(s, pat, i)
    ensures forall k :: start <= k < i ==> !OccursAt(s, pat, k)
    ensures i == |s| ==> forall k :: start <= k ==> !OccursAt(s, pat, k)
    decreases |s| - start
  {
    if start >= |s| then |s|
    else if OccursAt(s, pat, start) then start
    else FindSub(s, pat, start + 1)
  }

  function LowerChar(c: char): char {
    if 'A' <= c <= 'Z' then c - 'A' + 'a' else c
  }

  function Lower(s: string): (r: string) {
    seq(|s|, i requires 0 <= i < |s| => LowerChar(s[i]))
  }

  predicate IEqual(a: string, b: string) {
    Lower(a) == Lower(b)
  }

  predicate IsBlank(c: char) { c == ' ' || c == '\t' }

  function TrimLeft(s: string): (r: string)
    ensures |r| <= |s| && r == s[|s| - |r|..]
    ensures r != "" ==> !IsBlank(r[0])
  {
    if s != "" && IsBlank(s[0]) then TrimLeft(s[1..]) else s
  }

  function TrimRight(s: string): (r: string)
    ensures r <= s
    ensures r != "" ==> !IsBlank(r[|r| - 1])
  {
    if s != "" && IsBlank(s[|s| - 1]) then TrimRight(s[..|s| - 1]) else s
  }

  function Trim(s: string): string { TrimRight(TrimLeft(s)) }

  /** Neither the first nor the last character is a blank. */
  predicate Trimmed(s: string) {
    s != "" ==> !IsBlank(s[0]) && !IsBlank(s[|s| - 1])
  }

  lemma TrimLeftKeeps(s: string)
    requires s == "" || !IsBlank(s[0])
    ensures TrimLeft(s) == s && TrimLeft(" " + s) == s
  {
    assert (" " + s)[1..] == s;
  }

  lemma TrimRightKeeps(s: string)
    requires s == "" || !IsBlank(s[|s| - 1])
    ensures TrimRight(s) == s
  {
  }

  /** Trimming takes nothing from a trimmed text, nor more than one blank put before it. */
  lemma TrimKeeps(s: string)
    requires Trimmed(s)
    ensures Trim(s) == s && Trim(" " + s) == s
  {
    hide TrimLeft, TrimRight;
    TrimLeftKeeps(s);
    TrimRightKeeps(s);
  }

  // ---- strtoll / strtoull ----

  predicate IsSpace(c: char) {
    c == ' ' || '\t' <= c <= '\r'
  }

  /** Value of a digit in the given base (10 or 16), or `base` when it is none. */
  function DigitValue(c: char, base: nat): (v: nat)
    requires base == 10 || base == 16
    ensures v <= base
  {
    if '0' <= c <= '9' then (c - '0') as nat
    else if base == 16 && 'a' <= c <= 'f' then (c - 'a') as nat + 10
    else if base == 16 && 'A' <= c <= 'F' then (c - 'A') as nat + 10
    else base
  }

  predicate IsDigit(c: char, base: nat)
    requires base == 10 || base == 16
  {
    DigitValue(c, base) < base
  }

  function SkipSpace(s: string, i: nat): (j: nat)
    requires i <= |s|
    ensures i <= j <= |s|
    decreases |s| - i
  {
    if i < |s| && IsSpace(s[i]) then SkipSpace(s, i + 1) else i
  }

  /** Accumulates the digits of `s` from `i`; returns the value and where they stop. */
  function ScanDigits(s: string, i: nat, base: nat, acc: nat): (r: (nat, nat))
    requires i <= |s| && (base == 10 || base == 16)
    ensures i <= r.1 <= |s|
    ensures r.1 < |s| ==> !IsDigit(s[r.1], base)
    ensures forall k :: i <= k < r.1 ==> IsDigit(s[k], base)
    decreases |s| - i
  {
    if i < |s| && IsDigit(s[i], base)
    then ScanDigits(s, i + 1, base, acc * base + DigitValue(s[i], base))
    else (acc, i)
  }

  /** What strtoll/strtoull see: were there digits, the sign, the magnitude, the end. */
  datatype Scanned = Scanned(any: bool, neg: bool, magnitude: nat, end: nat)

  function Scan(s: string, base: nat): (r: Scanned)
    requires base == 10 || base == 16
    ensures r.end <= |s|
  {
    var i := SkipSpace(s, 0);
    var neg := i < |s| && s[i] == '-';
    var j := if i < |s| && (s[i] == '-' || s[i] == '+') then i + 1 else i;
    var k := if base == 16 && j + 2 < |s| && s[j] == '0' && (s[j + 1] == 'x' || s[j + 1] == 'X') && IsDigit(s[j + 2], 16)
             then j + 2 else j;
    var (value, end) := ScanDigits(s, k, base, 0);
    Scanned(end > k, neg, value, if end > k then end else 0)
  }

  /** `*endp == '\0'`: the scan stopped at the end of the C string. */
  predicate StopsAtEnd(s: string, sc: Scanned)
    requires sc.end <= |s|
  {
    sc.end == |s| || s[sc.end] == '\0'
  }

  // ---- printing numbers ----

  function DigitChar(v: nat): char
    requires v < 16
  {
    if v < 10 then '0' + v as char else 'a' + (v - 10) as char
  }

  /** `std::to_string` for base 10; lower-case hexadecimal without prefix for base 16. */
  function Print(n: nat, base: nat): (s: string)
    requires base == 10 || base == 16
    ensures s != ""
    ensures forall c :: c in s ==> IsDigit(c, base)
  {
    if n < base then [DigitChar(n)] else Print(n / base, base) + [DigitChar(n % base)]
  }

  /** Scanning continues across a concatenation when the first part is all digits. */
  lemma {:induction false} ScanPrefix(a: string, b: string, i: nat, base: nat, acc: nat)
    requires i <= |a| && (base == 10 || base == 16)
    requires forall k :: i <= k < |a| ==> IsDigit(a[k], base)
    ensures ScanDigits(a + b, i, base, acc) == ScanDigits(a + b, |a|, base, ScanDigits(a, i, base, acc).0)
    decreases |a| - i
  {
    hide IsDigit, DigitValue;
    if i < |a| {
      assert (a + b)[i] == a[i];
      ScanPrefix(a, b, i + 1, base, acc * base + DigitValue(a[i], base));
    }
  }

  /** One more digit at the end. */
  lemma ScanSnoc(a: string, d: nat, base: nat, value: nat)
    requires (base == 10 || base == 16) && d < base
    requires forall c :: c in a ==> IsDigit(c, base)
    requires ScanDigits(a, 0, base, 0) == (value, |a|)
    ensures ScanDigits(a + [DigitChar(d)], 0, base, 0) == (value * base + d, |a| + 1)
  {
    hide DigitChar, DigitValue, IsDigit, ScanDigits;
    var s := a + [DigitChar(d)];
    forall k | 0 <= k < |a|
      ensures IsDigit(a[k], base)
    {
      assert a[k] in a;
    }
    ScanPrefix(a, [DigitChar(d)], 0, base, 0);
    DigitBack(d, base);
    assert s[|a|] == DigitChar(d);
    ScanLast(s, d, base, value);
  }

  lemma ScanLast(s: string, d: nat, base: nat, value: nat)
    requires (base == 10 || base == 16) && d < base && s != ""
    requires DigitValue(s[|s| - 1], base) == d
    ensures ScanDigits(s, |s| - 1, base, value) == (value * base + d, |s|)
  {
    hide DigitValue;
    assert ScanDigits(s, |s|, base, value * base + d) == (value * base + d, |s|);
  }

  lemma DigitBack(d: nat, base: nat)
    requires (base == 10 || base == 16) && d < base
    ensures DigitValue(DigitChar(d), base) == d
  {
  }

  /** Reading back a printed number gives the number. */
  lemma {:induction false} ScanPrint(n: nat, base: nat)
    requires base == 10 || base == 16
    ensures ScanDigits(Print(n, base), 0, base, 0) == (n, |Print(n, base)|)
  {
    if n < base {
      ScanSnoc("", n, base, 0);
      assert "" + [DigitChar(n)] == [DigitChar(n)];
    } else {
      ScanPrint(n / base, base);
      ScanSnoc(Print(n / base, base), n % base, base, n / base);
    }
  }

  lemma ScanPrinted(n: nat, base: nat)
    requires base == 10 || base == 16
    ensures Scan(Print(n, base), base) == Scanned(true, false, n, |Print(n, base)|)
  {
    var s := Print(n, base);
    ScanPrint(n, base);
    assert s[0] in s;
    if |s| > 1 {
      assert s[1] in s;
    }
  }
}
