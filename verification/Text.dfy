/** Decimal numbers and separated words, as Go's strconv and strings packages read and write them. */
module Text {
  import opened Bytes
  import opened Options

  predicate IsDigit(c: char) {
    '0' <= c <= '9'
  }

  /** unicode.IsSpace. */
  predicate IsSpace(c: char) {
    || '\t' <= c <= '\r' || c == ' ' || c == '\U{0085}' || c == '\U{00A0}' || c == '\U{1680}'
    || '\U{2000}' <= c <= '\U{200A}' || c == '\U{2028}' || c == '\U{2029}' || c == '\U{202F}'
    || c == '\U{205F}' || c == '\U{3000}'
  }

  predicate IsHash(c: char) {
    c == '#'
  }

  // ---------- decimal numbers ----------

  function Digit(d: nat): char
    requires d < 10
  {
    '0' + d as char
  }

  function FormatUint(n: nat): (s: string)
    ensures s != "" && forall i :: 0 <= i < |s| ==> IsDigit(s[i])
  {
    if n < 10 then [Digit(n)] else FormatUint(n / 10) + [Digit(n % 10)]
  }

  predicate AllDigits(s: string) {
    forall i :: 0 <= i < |s| ==> IsDigit(s[i])
  }

  function Value(s: string): nat
    requires AllDigits(s)
  {
    if s == "" then 0 else 10 * Value(s[..|s| - 1]) + (s[|s| - 1] - '0') as nat
  }

  /** Base ten: nothing but digits, at least one, and a value that fits 64 bits. */
  function ParseUint(s: string): Option<nat> {
    if s != "" && AllDigits(s) && Value(s) < U64 then Some(Value(s)) else None
  }

  lemma {:induction false} ValueOfFormat(n: nat)
    ensures AllDigits(FormatUint(n)) && Value(FormatUint(n)) == n
  {
    if n >= 10 {
      ValueOfFormat(n / 10);
      var s := FormatUint(n);
      assert s[..|s| - 1] == FormatUint(n / 10);
    } else {
      assert FormatUint(n)[..0] == "";
    }
  }

  lemma ParseOfFormat(n: nat)
    requires n < U64
    ensures ParseUint(FormatUint(n)) == Some(n)
  {
    ValueOfFormat(n);
  }

  predicate Zeros(s: string) {
    forall i :: 0 <= i < |s| ==> s[i] == '0'
  }

  lemma {:induction false} LeadingZeros(z: string, s: string)
    requires Zeros(z) && AllDigits(s)
    ensures AllDigits(z + s) && Value(z + s) == Value(s)
    decreases |z| + |s|
  {
    if s != "" {
      var n := |s| - 1;
      LeadingZeros(z, s[..n]);
      assert (z + s)[..|z + s| - 1] == z + s[..n];
    } else if z != "" {
      LeadingZeros(z[..|z| - 1], "");
      assert z + s == z && z[..|z| - 1] + "" == z[..|z| - 1];
    }
  }

  lemma {:induction false} FormatOfValue(s: string)
    requires s != "" && AllDigits(s) && (|s| == 1 || s[0] != '0')
    ensures FormatUint(Value(s)) == s
  {
    var n := |s| - 1;
    if n == 0 {
      assert s[..0] == "" && s == [s[0]];
    } else {
      FormatOfValue(s[..n]);
      assert Value(s[..n]) != 0 by { assert s[..n][0] != '0'; }
      assert s == s[..n] + [s[n]];
    }
  }

  lemma {:induction false} StripZeros(s: string) returns (k: nat)
    requires s != "" && AllDigits(s)
    ensures k < |s| && Zeros(s[..k]) && s[k..] == FormatUint(Value(s))
  {
    if |s| == 1 || s[0] != '0' {
      FormatOfValue(s);
      k := 0;
    } else {
      var j := StripZeros(s[1..]);
      k := j + 1;
      assert s[..k] == "0" + s[1..][..j];
      LeadingZeros("0", s[1..]);
      assert s == "0" + s[1..];
    }
  }

  /** Exactly the decimal form of a number that fits 64 bits, with any number of leading zeros, is read as it. */
  lemma ParseExact(s: string, n: nat)
    ensures ParseUint(s) == Some(n)
            <==> n < U64 && exists k :: 0 <= k <= |s| && Zeros(s[..k]) && s[k..] == FormatUint(n)
  {
    hide FormatUint, Zeros, Value;
    if ParseUint(s) == Some(n) {
      var k := StripZeros(s);
      assert Zeros(s[..k]);
    }
    if k :| 0 <= k <= |s| && Zeros(s[..k]) && s[k..] == FormatUint(n) {
      ZerosThenFormat(s, k, n);
    }
  }

  lemma ZerosThenFormat(s: string, k: nat, n: nat)
    requires k <= |s| && Zeros(s[..k]) && s[k..] == FormatUint(n)
    ensures s != "" && AllDigits(s) && Value(s) == n
  {
    hide Value, FormatUint, Zeros;
    ValueOfFormat(n);
    LeadingZeros(s[..k], s[k..]);
    assert s == s[..k] + s[k..];
  }

  // ---------- words ----------

  function SkipSeps(sep: char -> bool, s: string): (t: string)
    ensures |t| <= |s| && (t != "" ==> !sep(t[0]))
  {
    if s != "" && sep(s[0]) then SkipSeps(sep, s[1..]) else s
  }

  function WordLength(sep: char -> bool, s: string): (n: nat)
    ensures n <= |s| && (s != "" && !sep(s[0]) ==> n > 0)
    ensures forall i :: 0 <= i < n ==> !sep(s[i])
  {
    if s == "" || sep(s[0]) then 0 else 1 + WordLength(sep, s[1..])
  }

  /** The maximal runs of non-separators; strings.Fields when the separators are spaces. */
  function FieldsBy(sep: char -> bool, s: string): (fs: seq<string>)
    ensures Words(sep, fs)
    decreases |s|
  {
    var t := SkipSeps(sep, s);
    if t == "" then [] else
    var n := WordLength(sep, t);
    [t[..n]] + FieldsBy(sep, t[n..])
  }

  predicate Words(sep: char -> bool, fs: seq<string>) {
    forall k :: 0 <= k < |fs| ==> Word(sep, fs[k])
  }

  predicate Word(sep: char -> bool, w: string) {
    w != "" && forall i :: 0 <= i < |w| ==> !sep(w[i])
  }

  function Fields(s: string): seq<string> {
    FieldsBy(IsSpace, s)
  }

  function Join(fs: seq<string>): string {
    if fs == [] then "" else if |fs| == 1 then fs[0] else fs[0] + (" " + Join(fs[1..]))
  }

  function TrimSpace(s: string): string {
    TrimRight(SkipSeps(IsSpace, s))
  }

  function TrimRight(s: string): string {
    if s != "" && IsSpace(s[|s| - 1]) then TrimRight(s[..|s| - 1]) else s
  }

  lemma {:induction false} WordLengthOf(sep: char -> bool, w: string, rest: string)
    requires forall i :: 0 <= i < |w| ==> !sep(w[i])
    requires rest == "" || sep(rest[0])
    ensures WordLength(sep, w + rest) == |w|
    decreases |w|
  {
    if w == "" {
      assert w + rest == rest;
    } else {
      assert (w + rest)[1..] == w[1..] + rest;
      WordLengthOf(sep, w[1..], rest);
    }
  }

  lemma FieldsWord(sep: char -> bool, w: string, rest: string)
    requires Word(sep, w) && (rest == "" || sep(rest[0]))
    ensures FieldsBy(sep, w + rest) == [w] + FieldsBy(sep, rest)
  {
    var s := w + rest;
    assert !sep(s[0]) && SkipSeps(sep, s) == s;
    WordLengthOf(sep, w, rest);
    assert s[..|w|] == w && s[|w|..] == rest;
  }

  lemma FieldsSkip(sep: char -> bool, c: char, s: string)
    requires sep(c)
    ensures FieldsBy(sep, [c] + s) == FieldsBy(sep, s)
  {
    assert ([c] + s)[1..] == s;
    assert SkipSeps(sep, [c] + s) == SkipSeps(sep, s);
  }

  /** Splitting joined words gives the words back. */
  lemma {:induction false} FieldsOfJoin(fs: seq<string>)
    requires Words(IsSpace, fs)
    ensures Fields(Join(fs)) == fs
    decreases |fs|
  {
    if |fs| == 1 {
      assert Word(IsSpace, fs[0]);
      FieldsWord(IsSpace, fs[0], "");
      assert fs[0] + "" == fs[0];
    } else if |fs| > 1 {
      assert Word(IsSpace, fs[0]);
      var rest := " " + Join(fs[1..]);
      FieldsOfJoin(fs[1..]);
      FieldsSkip(IsSpace, ' ', Join(fs[1..]));
      FieldsWord(IsSpace, fs[0], rest);
    }
  }

  lemma TrimWord(w: string)
    requires Word(IsSpace, w)
    ensures TrimSpace(w) == w
  {
    assert !IsSpace(w[0]) && !IsSpace(w[|w| - 1]);
  }

  predicate Blank(s: string) {
    forall i :: 0 <= i < |s| ==> IsSpace(s[i])
  }

  lemma {:induction false} SkipBlank(a: string, b: string)
    requires Blank(a) && (b == "" || !IsSpace(b[0]))
    ensures SkipSeps(IsSpace, a + b) == b
    decreases |a|
  {
    if a == "" {
      assert a + b == b;
    } else {
      assert IsSpace(a[0]) && (a + b)[1..] == a[1..] + b;
      SkipBlank(a[1..], b);
    }
  }

  lemma {:induction false} TrimBlank(b: string, c: string)
    requires Blank(c) && (b == "" || !IsSpace(b[|b| - 1]))
    ensures TrimRight(b + c) == b
    decreases |c|
  {
    if c == "" {
      assert b + c == b;
    } else {
      var n := |c| - 1;
      assert IsSpace(c[n]) && (b + c)[..|b + c| - 1] == b + c[..n];
      TrimBlank(b, c[..n]);
    }
  }

  /** Trimming drops blanks at both ends and nothing else. */
  lemma TrimExact(a: string, b: string, c: string)
    requires Blank(a) && Blank(c) && b != "" && !IsSpace(b[0]) && !IsSpace(b[|b| - 1])
    ensures TrimSpace(a + b + c) == b
  {
    assert a + b + c == a + (b + c) && (b + c)[0] == b[0];
    SkipBlank(a, b + c);
    TrimBlank(b, c);
  }

  lemma {:induction false} SkippedIsBlank(s: string)
    ensures |SkipSeps(IsSpace, s)| <= |s|
    ensures var i := |s| - |SkipSeps(IsSpace, s)|;
            Blank(s[..i]) && s[i..] == SkipSeps(IsSpace, s)
  {
    if s != "" && IsSpace(s[0]) {
      SkippedIsBlank(s[1..]);
      var i := |s| - |SkipSeps(IsSpace, s)|;
      assert s[..i] == [s[0]] + s[1..][..i - 1];
    }
  }

  lemma {:induction false} TrimmedIsBlank(s: string)
    ensures TrimRight(s) <= s && Blank(s[|TrimRight(s)|..])
  {
    if s != "" && IsSpace(s[|s| - 1]) {
      var n := |s| - 1;
      TrimmedIsBlank(s[..n]);
      var j := |TrimRight(s)|;
      forall i | j <= i < |s|
        ensures IsSpace(s[i])
      {
        assert i < n ==> s[..n][j..][i - j] == s[i];
      }
      assert forall i :: 0 <= i < |s[j..]| ==> s[j..][i] == s[j + i];
    }
  }

  /** Trimming on the right keeps every character that is not a space where it is. */
  lemma {:induction false} TrimRightKeeps(s: string, i: nat)
    requires i < |s| && !IsSpace(s[i])
    ensures i < |TrimRight(s)| && TrimRight(s)[i] == s[i]
  {
    if IsSpace(s[|s| - 1]) {
      TrimRightKeeps(s[..|s| - 1], i);
    }
  }

  lemma {:induction false} SkipSepsKeeps(sep: char -> bool, s: string, i: nat) returns (j: nat)
    requires i < |s| && !sep(s[i])
    ensures j < |SkipSeps(sep, s)| && SkipSeps(sep, s)[j] == s[i]
  {
    if sep(s[0]) {
      j := SkipSepsKeeps(sep, s[1..], i - 1);
    } else {
      j := i;
    }
  }
}
