/** String building blocks shared by every SQL fragment generator: ASCII
    upper-casing, the two quote-escaping schemes the backend uses, Python's
    str.join, and decimal rendering of integers. Each operation comes with its
    inverse or a characterisation that does not depend on how it is computed. */
module Text {

  /** Python's str.upper() on one character, restricted to ASCII letters. */
  function UpperChar(c: char): char {
    if 'a' <= c <= 'z' then (c as int - 32) as char else c
  }

  predicate IsLowerChar(c: char) {
    'a' <= c <= 'z'
  }

  /** Python's str.upper() (ASCII letters only). */
  function Upper(s: string): string {
    seq(|s|, i requires 0 <= i < |s| => UpperChar(s[i]))
  }

  /** No character of `s` is a lower-case ASCII letter. */
  predicate IsUpperText(s: string) {
    forall i :: 0 <= i < |s| ==> !IsLowerChar(s[i])
  }

  lemma UpperIsUpperText(s: string)
    ensures |Upper(s)| == |s|
    ensures IsUpperText(Upper(s))
  {
  }

  /** Upper-casing text that has no lower-case letters changes nothing; in
      particular Upper is idempotent. */
  lemma UpperOfUpperText(s: string)
    requires IsUpperText(s)
    ensures Upper(s) == s
  {
  }

  lemma UpperIdempotent(s: string)
    ensures Upper(Upper(s)) == Upper(s)
  {
    UpperOfUpperText(Upper(s));
  }

  lemma UpperAppend(a: string, b: string)
    ensures Upper(a + b) == Upper(a) + Upper(b)
  {
  }

  function StartsWith(s: string, prefix: string): bool {
    |prefix| <= |s| && s[..|prefix|] == prefix
  }

  function EndsWith(s: string, suffix: string): bool {
    |suffix| <= |s| && s[|s| - |suffix|..] == suffix
  }

  /** A concatenation starts with its first part and ends with its second. */
  lemma ConcatAffixes(a: string, b: string)
    ensures StartsWith(a + b, a) && EndsWith(a + b, b)
  {
    assert (a + b)[..|a|] == a;
    assert (a + b)[|a + b| - |b|..] == b;
  }

  lemma StartsWithAppend(a: string, b: string, prefix: string)
    requires StartsWith(a, prefix)
    ensures StartsWith(a + b, prefix)
  {
    assert (a + b)[..|prefix|] == a[..|prefix|];
  }

  /** The last three parts of a four-part text are a suffix of it. */
  lemma EndsWithLastThree(a: string, b: string, c: string, d: string)
    ensures EndsWith(a + b + c + d, b + c + d)
  {
    assert a + b + c + d == a + (b + c + d);
    ConcatAffixes(a, b + c + d);
  }

  lemma EndsWithAppend(a: string, b: string, suffix: string)
    requires EndsWith(b, suffix)
    ensures EndsWith(a + b, suffix)
  {
    assert (a + b)[|a + b| - |suffix|..] == b[|b| - |suffix|..];
  }

  /** str.replace('"', '""'): every double quote is doubled. */
  function DoubleQuotes(s: string): string {
    if s == [] then []
    else (if s[0] == '"' then "\"\"" else [s[0]]) + DoubleQuotes(s[1..])
  }

  /** Reads back an identifier body in which quotes were doubled. */
  function UndoubleQuotes(s: string): string {
    if |s| >= 2 && s[0] == '"' && s[1] == '"' then "\"" + UndoubleQuotes(s[2..])
    else if s == [] then []
    else [s[0]] + UndoubleQuotes(s[1..])
  }

  /** Doubling is invertible: no information in the name is lost. */
  lemma {:induction false} UndoubleDoubleQuotes(s: string)
    ensures UndoubleQuotes(DoubleQuotes(s)) == s
  {
    if s != [] {
      UndoubleDoubleQuotes(s[1..]);
      if s[0] == '"' {
        assert DoubleQuotes(s) == "\"\"" + DoubleQuotes(s[1..]);
        assert DoubleQuotes(s)[2..] == DoubleQuotes(s[1..]);
      } else {
        assert DoubleQuotes(s) == [s[0]] + DoubleQuotes(s[1..]);
        assert DoubleQuotes(s)[1..] == DoubleQuotes(s[1..]);
      }
    }
  }

  /** A name without quotes has nothing to double. */
  lemma {:induction false} DoubleQuotesWithoutQuotes(s: string)
    requires '"' !in s
    ensures DoubleQuotes(s) == s
  {
    if s != [] {
      assert s[0] != '"';
      assert '"' !in s[1..] by {
        forall i | 0 <= i < |s| - 1 ensures s[1..][i] != '"' {
          assert s[1..][i] == s[i + 1];
        }
      }
      DoubleQuotesWithoutQuotes(s[1..]);
      assert s == [s[0]] + s[1..];
    }
  }

  /** Upper-casing changes only letters, so it adds no quote. */
  lemma UpperKeepsQuoteFree(s: string)
    requires '"' !in s
    ensures '"' !in Upper(s)
  {
    forall i | 0 <= i < |s|
      ensures Upper(s)[i] != '"'
    {
      assert s[i] != '"';
    }
  }

  /** Doubling introduces only quotes, so it commutes with upper-casing. */
  lemma {:induction false} DoubleQuotesUpper(s: string)
    ensures DoubleQuotes(Upper(s)) == Upper(DoubleQuotes(s))
  {
    if s != [] {
      DoubleQuotesUpper(s[1..]);
      assert Upper(s) == [UpperChar(s[0])] + Upper(s[1..]);
      UpperAppend(if s[0] == '"' then "\"\"" else [s[0]], DoubleQuotes(s[1..]));
      assert Upper(s)[1..] == Upper(s[1..]);
    }
  }

  /** str.replace('"', '\\"'): every double quote gets a backslash before it. */
  function EscapeQuotes(s: string): string {
    if s == [] then []
    else (if s[0] == '"' then "\\\"" else [s[0]]) + EscapeQuotes(s[1..])
  }

  /** Reads back text escaped by EscapeQuotes: a backslash directly before a
      quote is dropped. */
  function UnescapeQuotes(s: string): string {
    if |s| >= 2 && s[0] == '\\' && s[1] == '"' then "\"" + UnescapeQuotes(s[2..])
    else if s == [] then []
    else [s[0]] + UnescapeQuotes(s[1..])
  }

  lemma EscapeQuotesHead(s: string)
    ensures s != [] ==> EscapeQuotes(s) != [] && EscapeQuotes(s)[0] != '"'
  {
  }

  /** Escaping is invertible, even for text that already holds backslashes. */
  lemma {:induction false} UnescapeEscapeQuotes(s: string)
    ensures UnescapeQuotes(EscapeQuotes(s)) == s
  {
    if s != [] {
      UnescapeEscapeQuotes(s[1..]);
      var e := EscapeQuotes(s);
      if s[0] == '"' {
        assert e == "\\\"" + EscapeQuotes(s[1..]);
        assert e[2..] == EscapeQuotes(s[1..]);
      } else {
        assert e == [s[0]] + EscapeQuotes(s[1..]);
        assert e[1..] == EscapeQuotes(s[1..]);
        EscapeQuotesHead(s[1..]);
        assert |e| >= 2 ==> e[1] != '"';
      }
    }
  }

  /** An escaped text has no quote that lacks a backslash in front of it. */
  lemma {:induction false} EscapedQuotesArePreceded(s: string, i: int)
    requires 0 <= i < |EscapeQuotes(s)| && EscapeQuotes(s)[i] == '"'
    ensures i > 0 && EscapeQuotes(s)[i - 1] == '\\'
  {
    var head := if s[0] == '"' then "\\\"" else [s[0]];
    assert EscapeQuotes(s) == head + EscapeQuotes(s[1..]);
    if i >= |head| {
      EscapedQuotesArePreceded(s[1..], i - |head|);
    }
  }

  /** Python's sep.join(xs). */
  function Join(xs: seq<string>, sep: string): string {
    if |xs| == 0 then ""
    else if |xs| == 1 then xs[0]
    else xs[0] + sep + Join(xs[1..], sep)
  }

  /** Where the i-th piece starts inside Join(xs, sep). */
  function PieceOffset(xs: seq<string>, sep: string, i: nat): nat
    requires i <= |xs|
  {
    if i == 0 then 0 else |xs[0]| + |sep| + PieceOffset(xs[1..], sep, i - 1)
  }

  /** The i-th piece of a join sits at its offset. */
  lemma {:induction false} JoinPiece(xs: seq<string>, sep: string, i: nat)
    requires i < |xs|
    ensures PieceOffset(xs, sep, i) + |xs[i]| <= |Join(xs, sep)|
    ensures Join(xs, sep)[PieceOffset(xs, sep, i)..PieceOffset(xs, sep, i) + |xs[i]|] == xs[i]
  {
    if |xs| == 1 {
      assert Join(xs, sep) == xs[0];
      assert xs[0][0..|xs[0]|] == xs[0];
    } else {
      var pre := xs[0] + sep;
      var rest := Join(xs[1..], sep);
      assert Join(xs, sep) == pre + rest;
      if i == 0 {
        SliceBefore(xs[0], sep + rest);
        assert pre + rest == xs[0] + (sep + rest);
      } else {
        JoinPiece(xs[1..], sep, i - 1);
        var o := PieceOffset(xs[1..], sep, i - 1);
        assert PieceOffset(xs, sep, i) == |pre| + o;
        assert xs[1..][i - 1] == xs[i];
        SliceAfter(pre, rest, o, o + |xs[i]|);
      }
    }
  }

  /** The front part of a concatenation. */
  lemma SliceBefore(a: string, b: string)
    ensures (a + b)[0..|a|] == a
  {
  }

  /** Every piece but the last is followed by exactly one separator. */
  lemma {:induction false} JoinSeparator(xs: seq<string>, sep: string, i: nat)
    requires i + 1 < |xs|
    ensures PieceOffset(xs, sep, i) + |xs[i]| + |sep| <= |Join(xs, sep)|
    ensures Join(xs, sep)[PieceOffset(xs, sep, i) + |xs[i]|..PieceOffset(xs, sep, i) + |xs[i]| + |sep|] == sep
  {
    var pre := xs[0] + sep;
    var rest := Join(xs[1..], sep);
    assert Join(xs, sep) == pre + rest;
    if i == 0 {
      assert (pre + rest)[|xs[0]|..|xs[0]| + |sep|] == sep;
    } else {
      JoinSeparator(xs[1..], sep, i - 1);
      var o := PieceOffset(xs[1..], sep, i - 1);
      assert xs[1..][i - 1] == xs[i];
      SliceAfter(pre, rest, o + |xs[i]|, o + |xs[i]| + |sep|);
    }
  }

  /** The last piece ends the join. */
  lemma {:induction false} JoinEnd(xs: seq<string>, sep: string)
    requires |xs| > 0
    ensures PieceOffset(xs, sep, |xs| - 1) + |xs[|xs| - 1]| == |Join(xs, sep)|
  {
    if |xs| > 1 {
      JoinEnd(xs[1..], sep);
      assert xs[1..][|xs| - 2] == xs[|xs| - 1];
    }
  }

  /** Join lays its pieces out one after another, each followed by exactly
      one separator except the last, and nothing else. */
  lemma JoinLayout(xs: seq<string>, sep: string, i: nat)
    requires i < |xs|
    ensures PieceOffset(xs, sep, i) + |xs[i]| <= |Join(xs, sep)|
    ensures Join(xs, sep)[PieceOffset(xs, sep, i)..PieceOffset(xs, sep, i) + |xs[i]|] == xs[i]
    ensures i + 1 < |xs| ==>
      PieceOffset(xs, sep, i) + |xs[i]| + |sep| <= |Join(xs, sep)| &&
      Join(xs, sep)[PieceOffset(xs, sep, i) + |xs[i]|..PieceOffset(xs, sep, i) + |xs[i]| + |sep|] == sep
    ensures i + 1 == |xs| ==> PieceOffset(xs, sep, i) + |xs[i]| == |Join(xs, sep)|
  {
    JoinPiece(xs, sep, i);
    if i + 1 < |xs| {
      JoinSeparator(xs, sep, i);
    } else {
      JoinEnd(xs, sep);
    }
  }

  /** A slice of the part after a prefix. */
  lemma SliceAfter(pre: string, rest: string, lo: nat, hi: nat)
    requires lo <= hi <= |rest|
    ensures (pre + rest)[|pre| + lo..|pre| + hi] == rest[lo..hi]
  {
  }

  /** 10^k */
  function Pow10(k: nat): nat {
    if k == 0 then 1 else 10 * Pow10(k - 1)
  }

  function DigitChar(d: nat): char
    requires d < 10
  {
    ('0' as int + d) as char
  }

  predicate IsDigits(s: string) {
    forall i :: 0 <= i < |s| ==> '0' <= s[i] <= '9'
  }

  /** Python's str(n) for a natural number. */
  function NatToString(n: nat): string {
    if n < 10 then [DigitChar(n)] else NatToString(n / 10) + [DigitChar(n % 10)]
  }

  /** Python's str(i): a minus sign in front of negative numbers. */
  function IntToString(i: int): string {
    if i < 0 then "-" + NatToString(-i) else NatToString(i)
  }

  /** Reads a run of decimal digits, most significant first. */
  function ParseNat(s: string): nat
    requires IsDigits(s)
  {
    if s == [] then 0 else 10 * ParseNat(s[..|s| - 1]) + (s[|s| - 1] as int - '0' as int)
  }

  /** Reads an optionally negative decimal number. */
  function ParseInt(s: string): int
    requires IsDigits(s) || (|s| > 0 && s[0] == '-' && IsDigits(s[1..]))
  {
    if |s| > 0 && s[0] == '-' then -(ParseNat(s[1..]) as int) else ParseNat(s)
  }

  /** Decimal text reads back as the number it was rendered from, and has as
      many digits as the number needs. */
  lemma {:induction false} NatToStringRoundTrip(n: nat)
    ensures IsDigits(NatToString(n))
    ensures ParseNat(NatToString(n)) == n
    ensures |NatToString(n)| >= 1 && n < Pow10(|NatToString(n)|)
    ensures |NatToString(n)| > 1 ==> Pow10(|NatToString(n)| - 1) <= n
  {
    if n >= 10 {
      NatToStringRoundTrip(n / 10);
      var s := NatToString(n);
      assert s[..|s| - 1] == NatToString(n / 10);
    }
  }

  lemma IntToStringRoundTrip(i: int)
    ensures IsDigits(IntToString(i)) || (|IntToString(i)| > 0 && IntToString(i)[0] == '-' && IsDigits(IntToString(i)[1..]))
    ensures ParseInt(IntToString(i)) == i
  {
    NatToStringRoundTrip(if i < 0 then -i else i);
    if i < 0 {
      assert IntToString(i)[1..] == NatToString(-i);
    }
  }

  /** Python's '%0<width>d' % n for a natural number. */
  function ZeroPad(n: nat, width: nat): string {
    var digits := NatToString(n);
    if |digits| >= width then digits else seq(width - |digits|, _ => '0') + digits
  }

  lemma {:induction false} LeadingZeros(k: nat, s: string)
    requires IsDigits(s)
    ensures IsDigits(seq(k, _ => '0') + s)
    ensures ParseNat(seq(k, _ => '0') + s) == ParseNat(s)
  {
    var z: string := seq(k, _ => '0');
    if s == [] {
      assert z + s == z;
      ZerosParseToZero(k);
    } else {
      LeadingZeros(k, s[..|s| - 1]);
      assert (z + s)[..|z + s| - 1] == z + s[..|s| - 1];
    }
  }

  lemma {:induction false} ZerosParseToZero(k: nat)
    ensures IsDigits(seq(k, _ => '0'))
    ensures ParseNat(seq(k, _ => '0')) == 0
  {
    if k > 0 {
      ZerosParseToZero(k - 1);
      assert seq(k, _ => '0')[..k - 1] == seq(k - 1, _ => '0');
    }
  }

  /** A number below 10^width is rendered in exactly `width` digits that read
      back as the number. */
  lemma ZeroPadRoundTrip(n: nat, width: nat)
    requires n < Pow10(width)
    ensures |ZeroPad(n, width)| == width || (width == 0 && |ZeroPad(n, width)| == 1)
    ensures IsDigits(ZeroPad(n, width))
    ensures ParseNat(ZeroPad(n, width)) == n
  {
    NatToStringRoundTrip(n);
    var d := NatToString(n);
    if |d| > width && width > 0 {
      Pow10Monotone(width, |d| - 1);
    }
    if |d| < width {
      LeadingZeros(width - |d|, d);
    }
  }

  lemma {:induction false} Pow10Monotone(a: nat, b: nat)
    requires a <= b
    ensures Pow10(a) <= Pow10(b)
  {
    if a < b {
      Pow10Monotone(a, b - 1);
    }
  }
}
