/**
 * The handful of Python `str` operations the application relies on, each
 * given a precise meaning: whitespace (`str.isspace`, regex `\s`),
 * `strip`, ASCII `lower`, substring `in`, `split(sep)`, `split()`,
 * `sep.join`, and decimal formatting with zero padding (`{n:02d}`).
 */
module Text {
  import opened Options
  import opened Seqs

  /** The characters for which Python's `str.isspace()` holds; the regex class `\s` matches the same set. */
  predicate IsSpace(c: char) {
    || ('\t' <= c <= '\r')
    || ('\U{1C}' <= c <= ' ')
    || c == '\U{85}' || c == '\U{A0}' || c == '\U{1680}'
    || ('\U{2000}' <= c <= '\U{200A}')
    || c == '\U{2028}' || c == '\U{2029}' || c == '\U{202F}' || c == '\U{205F}' || c == '\U{3000}'
  }

  /** `not s.strip()`: the string is empty or made of whitespace only. */
  predicate IsBlank(s: string) {
    forall i :: 0 <= i < |s| ==> IsSpace(s[i])
  }

  /** `s.lstrip()` */
  function LStrip(s: string): string {
    if s != [] && IsSpace(s[0]) then LStrip(s[1..]) else s
  }

  /** `lstrip` keeps a suffix that does not start with whitespace and removes only
      whitespace. */
  lemma {:induction false} LStripSuffix(s: string)
    ensures var r := LStrip(s);
      && |r| <= |s| && r == s[|s| - |r|..]
      && (r != [] ==> !IsSpace(r[0]))
      && IsBlank(s[..|s| - |r|])
  {
    if s != [] && IsSpace(s[0]) {
      LStripSuffix(s[1..]);
      var r := LStrip(s[1..]);
      assert s[1..][..|s| - 1 - |r|] == s[1..|s| - |r|];
    }
  }

  /** `s.rstrip()` */
  function RStrip(s: string): string {
    if s != [] && IsSpace(s[|s| - 1]) then RStrip(s[..|s| - 1]) else s
  }

  /** `rstrip` keeps a prefix that does not end with whitespace and removes only
      whitespace. */
  lemma {:induction false} RStripPrefix(s: string)
    ensures var r := RStrip(s);
      && |r| <= |s| && r == s[..|r|]
      && (r != [] ==> !IsSpace(r[|r| - 1]))
      && IsBlank(s[|r|..])
  {
    if s != [] && IsSpace(s[|s| - 1]) {
      RStripPrefix(s[..|s| - 1]);
      var r := RStrip(s[..|s| - 1]);
      assert s[..|s| - 1][|r|..] + [s[|s| - 1]] == s[|r|..];
    }
  }

  /** `s.strip()` */
  function Strip(s: string): string {
    RStrip(LStrip(s))
  }

  /** What `strip` removes and what it keeps: the result is a middle slice of `s`,
      with whitespace only around it and no whitespace at its two ends. */
  lemma StripIsTrimmedSlice(s: string)
    ensures exists a, b :: 0 <= a <= b <= |s| && Strip(s) == s[a..b]
              && IsBlank(s[..a]) && IsBlank(s[b..])
    ensures Strip(s) != [] ==> !IsSpace(Strip(s)[0]) && !IsSpace(Strip(s)[|Strip(s)| - 1])
  {
    var l := LStrip(s);
    var r := RStrip(l);
    var a := |s| - |l|;
    LStripSuffix(s);
    RStripPrefix(l);
    TrimmedSlice(s, l, r, a);
    assert Strip(s) == s[a..a + |r|] && IsBlank(s[..a]) && IsBlank(s[a + |r|..]);
  }

  lemma TrimmedSlice(s: string, l: string, r: string, a: nat)
    requires a + |l| == |s| && l == s[a..] && |r| <= |l| && r == l[..|r|]
    requires IsBlank(l[|r|..])
    ensures r == s[a..a + |r|] && IsBlank(s[a + |r|..])
    ensures r != [] ==> r[0] == l[0]
  {
    assert s[a + |r|..] == l[|r|..];
  }

  /** Stripping yields the empty string exactly for blank strings. */
  lemma StripEmptyIffBlank(s: string)
    ensures Strip(s) == [] <==> IsBlank(s)
  {
    if Strip(s) == [] {
      EmptyStripIsBlank(s);
    } else {
      NonEmptyStripNotBlank(s);
    }
  }

  lemma NonEmptyStripNotBlank(s: string)
    requires Strip(s) != []
    ensures !IsBlank(s)
  {
    StripIsTrimmedSlice(s);
    var r := Strip(s);
    var a, b :| 0 <= a <= b <= |s| && r == s[a..b] && IsBlank(s[..a]) && IsBlank(s[b..]);
    assert s[a] == r[0];
  }

  lemma EmptyStripIsBlank(s: string)
    requires Strip(s) == []
    ensures IsBlank(s)
  {
    var l := LStrip(s);
    var cut := |s| - |l|;
    LStripSuffix(s);
    RStripPrefix(l);
    assert IsBlank(l) by { assert l[0..] == l; }
    assert l == [];
    assert s[..cut] == s;
  }

  /** Python's `str.lower()` restricted to ASCII letters. */
  function LowerChar(c: char): char {
    if 'A' <= c <= 'Z' then (c as int - 'A' as int + 'a' as int) as char else c
  }

  function Lower(s: string): (r: string)
    ensures |r| == |s| && forall i :: 0 <= i < |s| ==> r[i] == LowerChar(s[i])
  {
    seq(|s|, i requires 0 <= i < |s| => LowerChar(s[i]))
  }

  /** `needle` occurs in `hay` starting at index `i`. */
  predicate OccursAt(hay: string, needle: string, i: int) {
    0 <= i && i + |needle| <= |hay| && hay[i..i + |needle|] == needle
  }

  /** Python's `needle in hay` on strings. */
  predicate Contains(hay: string, needle: string) {
    exists i | 0 <= i <= |hay| - |needle| :: OccursAt(hay, needle, i)
  }

  /** The leftmost occurrence of `sep` in `s` at or after `from`, as `str.find` gives it. */
  function IndexOfFrom(s: string, sep: string, from: nat): (r: Option<nat>)
    requires sep != []
    ensures r.Some? ==> from <= r.value && OccursAt(s, sep, r.value)
    ensures forall j :: from <= j && (r.None? || j < r.value) ==> !OccursAt(s, sep, j)
    decreases |s| - from
  {
    if from + |sep| > |s| then None
    else if s[from..from + |sep|] == sep then Some(from)
    else IndexOfFrom(s, sep, from + 1)
  }

  /** Python's `s.split(sep)` for a non-empty separator: always at least one part. */
  function Split(s: string, sep: string): (parts: seq<string>)
    requires sep != []
    ensures |parts| >= 1
    decreases |s|
  {
    match IndexOfFrom(s, sep, 0)
    case None => [s]
    case Some(i) => [s[..i]] + Split(s[i + |sep|..], sep)
  }

  /** Python's `sep.join(parts)`. */
  function Join(parts: seq<string>, sep: string): string {
    if |parts| == 0 then ""
    else if |parts| == 1 then parts[0]
    else parts[0] + sep + Join(parts[1..], sep)
  }

  /** Splitting on a separator and joining the parts with it gives the string back. */
  lemma {:induction false} JoinSplit(s: string, sep: string)
    requires sep != []
    ensures Join(Split(s, sep), sep) == s
    decreases |s|
  {
    match IndexOfFrom(s, sep, 0)
    case None =>
      assert Split(s, sep) == [s];
    case Some(i) =>
      var rest := s[i + |sep|..];
      assert Split(s, sep) == [s[..i]] + Split(rest, sep);
      JoinCons(s[..i], Split(rest, sep), sep);
      JoinSplit(rest, sep);
      AroundOccurrence(s, sep, i);
  }

  lemma PrefixBeforeFirst(s: string, sep: string, i: nat)
    requires sep != [] && IndexOfFrom(s, sep, 0) == Some(i)
    ensures i <= |s| && Split(s, sep)[0] == s[..i] && !Contains(s[..i], sep)
  {
    var p := s[..i];
    forall j | 0 <= j <= |p| - |sep| ensures !OccursAt(p, sep, j) {
      BeforeFirstOccurrence(s, sep, i, j);
      assert s[j..j + |sep|] == p[j..j + |sep|];
    }
  }

  lemma NoOccurrence(s: string, sep: string)
    requires sep != [] && IndexOfFrom(s, sep, 0) == None
    ensures Split(s, sep) == [s] && !Contains(s, sep)
  {
  }

  lemma BeforeFirstOccurrence(s: string, sep: string, i: nat, j: nat)
    requires sep != [] && IndexOfFrom(s, sep, 0) == Some(i) && j < i
    ensures !OccursAt(s, sep, j)
  {
  }

  lemma AroundOccurrence(s: string, sep: string, i: nat)
    requires OccursAt(s, sep, i)
    ensures s == s[..i] + sep + s[i + |sep|..]
  {
    assert s[..i + |sep|] == s[..i] + s[i..i + |sep|];
    assert s == s[..i + |sep|] + s[i + |sep|..];
  }

  lemma JoinCons(part: string, parts: seq<string>, sep: string)
    requires parts != []
    ensures Join([part] + parts, sep) == part + sep + Join(parts, sep)
  {
    assert ([part] + parts)[1..] == parts;
  }

  /** No part of a split contains the separator, except possibly across its end. */
  lemma {:induction false} SplitPartsAvoidSep(s: string, sep: string, k: nat)
    requires sep != [] && k < |Split(s, sep)|
    ensures !Contains(Split(s, sep)[k], sep)
    decreases |s|
  {
    match IndexOfFrom(s, sep, 0)
    case None =>
      NoOccurrence(s, sep);
    case Some(i) =>
      if k == 0 {
        PrefixBeforeFirst(s, sep, i);
      } else {
        LaterPart(s, sep, i, k);
        SplitPartsAvoidSep(s[i + |sep|..], sep, k - 1);
      }
  }

  lemma LaterPart(s: string, sep: string, i: nat, k: nat)
    requires sep != [] && IndexOfFrom(s, sep, 0) == Some(i) && 0 < k < |Split(s, sep)|
    ensures i + |sep| <= |s| && k - 1 < |Split(s[i + |sep|..], sep)|
    ensures Split(s, sep)[k] == Split(s[i + |sep|..], sep)[k - 1]
  {
    assert Split(s, sep) == [s[..i]] + Split(s[i + |sep|..], sep);
  }

  predicate HasSpace(s: string) {
    exists i :: 0 <= i < |s| && IsSpace(s[i])
  }

  /** The non-whitespace characters of `s`, in order. */
  function NonSpace(s: string): string {
    if s == [] then "" else (if IsSpace(s[0]) then "" else [s[0]]) + NonSpace(s[1..])
  }

  /** The longest prefix of `s` without whitespace. */
  function WordPrefix(s: string): (n: nat)
    ensures n <= |s| && (n < |s| ==> IsSpace(s[n]))
    ensures forall i :: 0 <= i < n ==> !IsSpace(s[i])
  {
    if s == [] || IsSpace(s[0]) then 0 else 1 + WordPrefix(s[1..])
  }

  /** Python's `s.split()`: the maximal runs of non-whitespace characters. */
  function Words(s: string): (ws: seq<string>)
    decreases |s|
  {
    if s == [] then []
    else if IsSpace(s[0]) then Words(s[1..])
    else
      var n := WordPrefix(s);
      [s[..n]] + Words(s[n..])
  }

  lemma {:induction false} NonSpaceAppend(a: string, b: string)
    ensures NonSpace(a + b) == NonSpace(a) + NonSpace(b)
  {
    if a != [] {
      NonSpaceAppend(a[1..], b);
      assert (a + b)[1..] == a[1..] + b;
    } else {
      assert a + b == b;
    }
  }

  /** The words of `s` are non-empty, free of whitespace, and together hold exactly the
      non-whitespace characters of `s`, in order. */
  lemma {:induction false} WordsPartition(s: string)
    ensures Flatten(Words(s)) == NonSpace(s)
    ensures forall k :: 0 <= k < |Words(s)| ==> Words(s)[k] != [] && !HasSpace(Words(s)[k])
    decreases |s|
  {
    if s == [] {
    } else if IsSpace(s[0]) {
      WordsPartition(s[1..]);
    } else {
      var n := WordPrefix(s);
      var w := s[..n];
      WordsPartition(s[n..]);
      assert NonSpace(w) == w by { NonSpaceOfWord(w); }
      NonSpaceAppend(w, s[n..]);
      assert s == w + s[n..];
      assert Words(s) == [w] + Words(s[n..]);
    }
  }

  lemma {:induction false} NonSpaceOfWord(w: string)
    requires forall i :: 0 <= i < |w| ==> !IsSpace(w[i])
    ensures NonSpace(w) == w
  {
    if w != [] {
      NonSpaceOfWord(w[1..]);
    }
  }

  // ---------------------------------------------------------------- decimal

  predicate IsDigit(c: char) {
    '0' <= c <= '9'
  }

  predicate AllDigits(s: string) {
    forall i :: 0 <= i < |s| ==> IsDigit(s[i])
  }

  function DigitChar(d: nat): (c: char)
    requires d < 10
    ensures IsDigit(c)
  {
    (d + '0' as int) as char
  }

  function DigitValue(c: char): (d: nat)
    requires IsDigit(c)
    ensures d < 10 && DigitChar(d) == c
  {
    c as int - '0' as int
  }

  /** The number a string of decimal digits denotes (Python's `int(s)` on such a string). */
  function DigitsValue(s: string): nat
    requires AllDigits(s)
  {
    if s == [] then 0 else DigitsValue(s[..|s| - 1]) * 10 + DigitValue(s[|s| - 1])
  }

  /** Python's `str(n)` for a natural number. */
  function NatToString(n: nat): (r: string)
    ensures |r| >= 1 && AllDigits(r)
  {
    if n < 10 then [DigitChar(n)] else NatToString(n / 10) + [DigitChar(n % 10)]
  }

  function Zeros(k: nat): (r: string)
    ensures |r| == k && AllDigits(r)
    ensures forall i :: 0 <= i < k ==> r[i] == '0'
  {
    seq(k, i => '0')
  }

  /** Python's `f"{n:0{width}d}"`: the decimal digits of `n`, padded on the left with zeros to `width`. */
  function ZeroPad(n: nat, width: nat): (r: string)
    ensures AllDigits(r)
  {
    var d := NatToString(n);
    if |d| < width then Zeros(width - |d|) + d else d
  }

  /** `str(n)` read back as a number gives `n`. */
  lemma {:induction false} DigitsValueOfNatToString(n: nat)
    ensures DigitsValue(NatToString(n)) == n
  {
    if n >= 10 {
      DigitsValueOfNatToString(n / 10);
      var s := NatToString(n);
      assert s[..|s| - 1] == NatToString(n / 10);
    }
  }

  lemma {:induction false} DigitsValueLeadingZeros(k: nat, s: string)
    requires AllDigits(s)
    ensures AllDigits(Zeros(k) + s) && DigitsValue(Zeros(k) + s) == DigitsValue(s)
    decreases |s|
  {
    var t := Zeros(k) + s;
    if s == [] {
      assert t == Zeros(k);
      ZerosValue(k);
    } else {
      DigitsValueLeadingZeros(k, s[..|s| - 1]);
      assert t[..|t| - 1] == Zeros(k) + s[..|s| - 1];
    }
  }

  lemma {:induction false} ZerosValue(k: nat)
    ensures DigitsValue(Zeros(k)) == 0
  {
    if k > 0 {
      ZerosValue(k - 1);
      assert Zeros(k)[..k - 1] == Zeros(k - 1);
    }
  }

  /** A zero-padded number reads back as that number. */
  lemma ZeroPadValue(n: nat, width: nat)
    ensures DigitsValue(ZeroPad(n, width)) == n
  {
    var d := NatToString(n);
    DigitsValueOfNatToString(n);
    if |d| < width {
      DigitsValueLeadingZeros(width - |d|, d);
    }
  }

  function Pow10(k: nat): (p: nat)
    ensures p >= 1
  {
    if k == 0 then 1 else 10 * Pow10(k - 1)
  }

  lemma {:induction false} NatToStringLength(n: nat, k: nat)
    requires n < Pow10(k)
    ensures |NatToString(n)| <= if k == 0 then 1 else k
  {
    if n >= 10 {
      assert Pow10(0) == 1 && Pow10(1) == 10;
      assert k >= 2;
      NatToStringLength(n / 10, k - 1);
    }
  }

  /** A number below `10^width` pads to exactly `width` digits. */
  lemma ZeroPadLength(n: nat, width: nat)
    requires 1 <= width && n < Pow10(width)
    ensures |ZeroPad(n, width)| == width
  {
    NatToStringLength(n, width);
  }

  /** The value of a digit string bounds its length: `k` digits denote less than `10^k`. */
  lemma {:induction false} DigitsValueBound(s: string)
    requires AllDigits(s)
    ensures DigitsValue(s) < Pow10(|s|)
  {
    if s != [] {
      DigitsValueBound(s[..|s| - 1]);
    }
  }

  /** Two digit strings of the same length with the same value are equal. */
  lemma {:induction false} DigitsValueInjective(s: string, t: string)
    requires AllDigits(s) && AllDigits(t) && |s| == |t|
    requires DigitsValue(s) == DigitsValue(t)
    ensures s == t
  {
    if s != [] {
      var n := |s|;
      var a, b := DigitsValue(s[..n - 1]), DigitsValue(t[..n - 1]);
      var x, y := DigitValue(s[n - 1]), DigitValue(t[n - 1]);
      assert a * 10 + x == b * 10 + y;
      assert x == y && a == b by {
        DivModUnique(a, x, b, y);
      }
      DigitsValueInjective(s[..n - 1], t[..n - 1]);
      assert s == s[..n - 1] + [s[n - 1]];
      assert t == t[..n - 1] + [t[n - 1]];
    }
  }

  lemma DivModUnique(a: nat, x: nat, b: nat, y: nat)
    requires x < 10 && y < 10 && a * 10 + x == b * 10 + y
    ensures a == b && x == y
  {
  }

  /** Padding a `width`-digit string's value to `width` gives the string back. */
  lemma ZeroPadOfDigits(s: string)
    requires AllDigits(s) && |s| >= 1
    ensures ZeroPad(DigitsValue(s), |s|) == s
  {
    var n := DigitsValue(s);
    DigitsValueBound(s);
    ZeroPadLength(n, |s|);
    ZeroPadValue(n, |s|);
    DigitsValueInjective(ZeroPad(n, |s|), s);
  }
}
