/** Character classes, line splitting and decimal numbers, as the
    preprocessor's regular expressions and `str` methods use them. */
module Text {
  import opened Wrappers

  /** `\s` in a regular expression and the set `str::trim` strips: the
      characters with the Unicode White_Space property. */
  predicate IsSpace(c: char)
  {
    ('\t' <= c <= '\r') || c == ' ' || c == '\U{85}' || c == '\U{A0}' || c == '\U{1680}'
    || ('\U{2000}' <= c <= '\U{200A}') || c == '\U{2028}' || c == '\U{2029}'
    || c == '\U{202F}' || c == '\U{205F}' || c == '\U{3000}'
  }

  /** `[0-9]` */
  predicate IsDigit(c: char)
  {
    '0' <= c <= '9'
  }

  /** `\w`, restricted to ASCII letters, digits and the underscore. */
  predicate IsWordChar(c: char)
  {
    'a' <= c <= 'z' || 'A' <= c <= 'Z' || IsDigit(c) || c == '_'
  }

  predicate AllSpace(s: string)
  {
    forall i :: 0 <= i < |s| ==> IsSpace(s[i])
  }

  predicate AllDigits(s: string)
  {
    forall i :: 0 <= i < |s| ==> IsDigit(s[i])
  }

  /** `\w+` matches the whole of s. */
  predicate IsWord(s: string)
  {
    |s| > 0 && forall i :: 0 <= i < |s| ==> IsWordChar(s[i])
  }

  /** s with its leading whitespace removed (what a greedy `\s*` consumes). */
  function TrimStart(s: string): (r: string)
    ensures |r| <= |s|
    ensures r == [] || !IsSpace(r[0])
  {
    if s != [] && IsSpace(s[0]) then TrimStart(s[1..]) else s
  }

  /** TrimStart removes a prefix made of whitespace only. */
  lemma {:induction false} TrimStartSuffix(s: string)
    ensures TrimStart(s) == s[|s| - |TrimStart(s)|..]
    ensures AllSpace(s[..|s| - |TrimStart(s)|])
  {
    if s != [] && IsSpace(s[0]) {
      TrimStartSuffix(s[1..]);
      assert s[1..][|s| - 1 - |TrimStart(s)|..] == s[|s| - |TrimStart(s)|..];
      var n := |s| - |TrimStart(s)|;
      forall i | 0 <= i < n ensures IsSpace(s[..n][i]) {
        if i > 0 { assert s[..n][i] == s[1..][..n - 1][i - 1]; }
      }
    }
  }

  /** s with its trailing whitespace removed. */
  function TrimEnd(s: string): (r: string)
    ensures |r| <= |s|
    ensures r == [] || !IsSpace(r[|r| - 1])
  {
    if s != [] && IsSpace(s[|s| - 1]) then TrimEnd(s[..|s| - 1]) else s
  }

  /** The longest prefix of s made of digits (what a greedy `[0-9]*` consumes). */
  function DigitPrefix(s: string): (r: string)
    ensures |r| <= |s| && r == s[..|r|] && AllDigits(r)
    ensures |r| == |s| || !IsDigit(s[|r|])
  {
    if s != [] && IsDigit(s[0]) then [s[0]] + DigitPrefix(s[1..]) else []
  }

  /** The longest prefix of s made of word characters (what a greedy `\w*` consumes). */
  function WordPrefix(s: string): (r: string)
    ensures |r| <= |s| && r == s[..|r|]
    ensures forall i :: 0 <= i < |r| ==> IsWordChar(r[i])
    ensures |r| == |s| || !IsWordChar(s[|r|])
  {
    if s != [] && IsWordChar(s[0]) then [s[0]] + WordPrefix(s[1..]) else []
  }

  lemma {:induction false} WordPrefixOfWord(w: string, rest: string)
    requires IsWord(w)
    requires rest == [] || !IsWordChar(rest[0])
    ensures WordPrefix(w + rest) == w
  {
    if |w| > 1 {
      assert (w + rest)[1..] == w[1..] + rest;
      WordPrefixOfWord(w[1..], rest);
    } else {
      assert (w + rest)[1..] == rest;
    }
  }

  /** Position of the first '\n' in s, or |s| when there is none. */
  function NewlineIndex(s: string): (i: nat)
    ensures i <= |s| && forall k :: 0 <= k < i ==> s[k] != '\n'
    ensures i < |s| ==> s[i] == '\n'
  {
    if s == [] || s[0] == '\n' then 0 else 1 + NewlineIndex(s[1..])
  }

  predicate NoNewline(s: string)
  {
    forall k :: 0 <= k < |s| ==> s[k] != '\n'
  }

  /** A line without the carriage return of a "\r\n" ending. */
  function StripCR(s: string): (r: string)
  {
    if s != [] && s[|s| - 1] == '\r' then s[..|s| - 1] else s
  }

  /** `str::lines`: the pieces between '\n' terminators, each without one
      trailing '\r'; a final piece needs no terminator, and a text that ends
      in '\n' has no empty last line. */
  function Lines(s: string): (ls: seq<string>)
    ensures forall k :: 0 <= k < |ls| ==> NoNewline(ls[k])
    decreases |s|
  {
    if s == [] then []
    else
      var i := NewlineIndex(s);
      [StripCR(s[..i])] + (if i < |s| then Lines(s[i + 1..]) else [])
  }

  /** Each line followed by "\n", in order. */
  function JoinLines(ls: seq<string>): (r: string)
  {
    if ls == [] then "" else ls[0] + "\n" + JoinLines(ls[1..])
  }

  predicate NoCarriageReturn(s: string)
  {
    forall k :: 0 <= k < |s| ==> s[k] != '\r'
  }

  /** Splitting a text that has no carriage returns and ends in a newline
      and joining the lines back gives the text. */
  lemma {:induction false} LinesJoin(s: string)
    requires NoCarriageReturn(s)
    requires s == [] || s[|s| - 1] == '\n'
    ensures JoinLines(Lines(s)) == s
  {
    if s == [] {
      assert Lines(s) == [];
    } else {
      var i := FirstLine(s);
      NoCarriageReturnSuffix(s, i + 1);
      LinesJoin(s[i + 1..]);
      SplitAt(s, i);
    }
  }

  /** The first line of a text that ends in a newline, without carriage returns. */
  lemma FirstLine(s: string) returns (i: nat)
    requires NoCarriageReturn(s)
    requires s != [] && s[|s| - 1] == '\n'
    ensures i < |s|
    ensures JoinLines(Lines(s)) == s[..i] + "\n" + JoinLines(Lines(s[i + 1..]))
    ensures s[i] == '\n'
    ensures s[i + 1..] == [] || s[|s| - 1] == '\n'
  {
    i := NewlineIndex(s);
    if i == |s| {
      assert false;
    }
    var head, rest := s[..i], s[i + 1..];
    assert StripCR(head) == head by {
      if i > 0 { assert head[i - 1] == s[i - 1]; }
    }
    assert Lines(s) == [head] + Lines(rest);
  }

  lemma SplitAt(s: string, i: nat)
    requires i < |s|
    ensures s == s[..i] + [s[i]] + s[i + 1..]
  {
  }

  lemma NoCarriageReturnSuffix(s: string, j: nat)
    requires NoCarriageReturn(s) && j <= |s|
    ensures NoCarriageReturn(s[j..])
  {
    forall k | 0 <= k < |s[j..]| ensures s[j..][k] != '\r' { assert s[j..][k] == s[j + k]; }
  }

  function DigitChar(d: nat): (c: char)
    requires d < 10
    ensures IsDigit(c)
  {
    (('0' as int) + d) as char
  }

  /** The decimal text of n, as Rust's `{}` formatting writes it. */
  function Decimal(n: nat): (r: string)
    ensures |r| > 0 && AllDigits(r)
    ensures |r| > 1 ==> r[0] != '0'
  {
    if n < 10 then [DigitChar(n)] else Decimal(n / 10) + [DigitChar(n % 10)]
  }

  /** The number a string of decimal digits denotes. */
  function DigitsValue(s: string): (r: nat)
    requires AllDigits(s)
  {
    if s == [] then 0 else 10 * DigitsValue(s[..|s| - 1]) + (s[|s| - 1] as int - '0' as int)
  }

  const I32_MAX: nat := 0x7FFF_FFFF
  const U32_MAX: nat := 0xFFFF_FFFF

  /** `str::parse::<i32>` / `str::parse::<u32>` on a text that cannot carry a
      sign (every text parsed here is made of `[0-9]` or `\w` characters):
      a non-empty run of digits whose value is at most max. */
  function ParseNumber(s: string, max: nat): (r: Option<nat>)
  {
    if |s| > 0 && AllDigits(s) && DigitsValue(s) <= max then Some(DigitsValue(s)) else None
  }

  /** Reading back a printed number gives the number. */
  lemma {:induction false} DecimalValue(n: nat)
    ensures DigitsValue(Decimal(n)) == n
  {
    if n >= 10 {
      var d := Decimal(n);
      assert d[..|d| - 1] == Decimal(n / 10);
      DecimalValue(n / 10);
    }
  }

  /** The parser accepts every printed number within its range and returns it. */
  lemma ParseDecimal(n: nat, max: nat)
    requires n <= max
    ensures ParseNumber(Decimal(n), max) == Some(n)
  {
    DecimalValue(n);
  }

  /** k copies of the digit zero. */
  function Zeros(k: nat): (z: string)
    ensures |z| == k && AllDigits(z)
  {
    seq(k, _ => '0')
  }

  /** Leading zeros add nothing to the value of a digit string. */
  lemma {:induction false} ZerosValue(k: nat, d: string)
    requires AllDigits(d)
    ensures AllDigits(Zeros(k) + d)
    ensures DigitsValue(Zeros(k) + d) == DigitsValue(d)
    decreases |d|, k
  {
    var s := Zeros(k) + d;
    if d == [] {
      assert s == Zeros(k);
      if k > 0 {
        assert s[..|s| - 1] == Zeros(k - 1) + [];
        ZerosValue(k - 1, []);
      }
    } else {
      assert s[..|s| - 1] == Zeros(k) + d[..|d| - 1];
      assert s[|s| - 1] == d[|d| - 1];
      ZerosValue(k, d[..|d| - 1]);
    }
  }

  /** The parser reads a number written with any run of leading zeros (as in
      `#version 0450`) as that number, as long as it is within range, and
      rejects it otherwise. */
  lemma ParseLeadingZeros(k: nat, n: nat, max: nat)
    ensures ParseNumber(Zeros(k) + Decimal(n), max) == if n <= max then Some(n) else None
  {
    DecimalValue(n);
    ZerosValue(k, Decimal(n));
  }

  /** `value as i32` for a `u32` value: two's-complement wrap-around. */
  function WrapI32(v: nat): (r: int)
    requires v <= U32_MAX
    ensures -(I32_MAX + 1) <= r <= I32_MAX
    ensures (r - v) % 0x1_0000_0000 == 0
    ensures v <= I32_MAX ==> r == v
  {
    if v > I32_MAX then v - 0x1_0000_0000 else v
  }
}
