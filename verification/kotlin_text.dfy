/**
 * The parts of the Kotlin standard library the panel relies on to read the
 * privileged shell's textual answers: `Char.isWhitespace`, `String.trim`,
 * `String.toInt`, `Int.toString`, and the line-by-line collection of a
 * process's standard output into one string.
 */
module KotlinText {
  import opened Wrappers

  /** `Char.isWhitespace()` on the JVM: `Character.isWhitespace(c) || Character.isSpaceChar(c)`. */
  predicate IsWhitespace(c: char) {
    || c == ' ' || c == '\t' || c == '\n' || c == '\U{B}' || c == '\U{C}' || c == '\r'
    || ('\U{1C}' <= c <= '\U{1F}')
    || c == '\U{A0}' || c == '\U{1680}' || ('\U{2000}' <= c <= '\U{200A}')
    || c == '\U{2028}' || c == '\U{2029}' || c == '\U{202F}' || c == '\U{205F}' || c == '\U{3000}'
  }

  predicate AllWhitespace(s: string) {
    forall i :: 0 <= i < |s| ==> IsWhitespace(s[i])
  }

  /** Neither the first nor the last character is whitespace (the empty string qualifies). */
  predicate NoEdgeWhitespace(s: string) {
    s == [] || (!IsWhitespace(s[0]) && !IsWhitespace(s[|s| - 1]))
  }

  /** Every character of `s` from index `i` up to (not including) `j` is whitespace. */
  predicate BlankBetween(s: string, i: int, j: int)
    requires 0 <= i <= j <= |s|
  {
    forall k :: i <= k < j ==> IsWhitespace(s[k])
  }

  /** The first index at or after `i` that holds no whitespace, or `|s|`. */
  function SkipLeading(s: string, i: nat): (r: nat)
    requires i <= |s|
    ensures i <= r <= |s|
    ensures BlankBetween(s, i, r)
    ensures r == |s| || !IsWhitespace(s[r])
    decreases |s| - i
  {
    if i < |s| && IsWhitespace(s[i]) then SkipLeading(s, i + 1) else i
  }

  /** The least index `r` between `lo` and `j` such that `s[r..j]` is whitespace. */
  function SkipTrailing(s: string, lo: nat, j: nat): (r: nat)
    requires lo <= j <= |s|
    ensures lo <= r <= j
    ensures BlankBetween(s, r, j)
    ensures r == lo || !IsWhitespace(s[r - 1])
    decreases j
  {
    if j > lo && IsWhitespace(s[j - 1]) then SkipTrailing(s, lo, j - 1) else j
  }

  /**
   * `String.trim()`: the infix of `s` left after removing whitespace at both
   * ends. Everything removed is whitespace and the result has none at its edges.
   */
  function Trim(s: string): (r: string)
    ensures NoEdgeWhitespace(r)
    ensures |r| <= |s|
    ensures var i := SkipLeading(s, 0);
      && i + |r| <= |s|
      && s[i..i + |r|] == r
      && BlankBetween(s, 0, i)
      && BlankBetween(s, i + |r|, |s|)
  {
    var i := SkipLeading(s, 0);
    var j := SkipTrailing(s, i, |s|);
    s[i..j]
  }

  /**
   * `Trim` is determined by what it must produce: whatever whitespace
   * surrounds a string without edge whitespace is exactly what it removes.
   */
  lemma TrimUnique(pre: string, core: string, suf: string)
    requires AllWhitespace(pre) && AllWhitespace(suf) && NoEdgeWhitespace(core)
    ensures Trim(pre + core + suf) == core
  {
    var s := pre + core + suf;
    var i := SkipLeading(s, 0);
    var j := SkipTrailing(s, i, |s|);
    if core == [] {
      assert BlankBetween(s, 0, |s|) by {
        forall k | 0 <= k < |s| ensures IsWhitespace(s[k]) {
          if k < |pre| { assert s[k] == pre[k]; } else { assert s[k] == suf[k - |pre|]; }
        }
      }
    } else {
      var e := |pre| + |core|;
      assert s[|pre|] == core[0] && s[e - 1] == core[|core| - 1];
      assert BlankBetween(s, 0, |pre|) by {
        forall k | 0 <= k < |pre| ensures IsWhitespace(s[k]) { assert s[k] == pre[k]; }
      }
      assert BlankBetween(s, e, |s|) by {
        forall k | e <= k < |s| ensures IsWhitespace(s[k]) { assert s[k] == suf[k - e]; }
      }
      assert i == |pre| && j == e;
      assert s[i..j] == core;
    }
  }

  /** Trimming twice is trimming once. */
  lemma TrimIdempotent(s: string)
    ensures Trim(Trim(s)) == Trim(s)
  {
  }

  /**
   * The trim loop of the Kotlin standard library: advance `start` past leading
   * blanks, then pull `end` back past trailing blanks; `s[start..end]` is kept.
   */
  method TrimIndices(s: string) returns (start: nat, end: nat)
    ensures start <= end <= |s|
    ensures BlankBetween(s, 0, start) && BlankBetween(s, end, |s|)
    ensures NoEdgeWhitespace(s[start..end])
    ensures s[start..end] == Trim(s)
  {
    start := 0;
    while start < |s| && IsWhitespace(s[start])
      invariant start <= |s|
      invariant BlankBetween(s, 0, start)
    {
      start := start + 1;
    }
    end := |s|;
    while end > start && IsWhitespace(s[end - 1])
      invariant start <= end <= |s|
      invariant BlankBetween(s, end, |s|)
    {
      end := end - 1;
    }
    assert s == s[..start] + s[start..end] + s[end..];
    TrimUnique(s[..start], s[start..end], s[end..]);
  }

  /**
   * The text `executeRootCommandWithOutput` accumulates from standard output:
   * every line read, each followed by a newline.
   */
  function JoinLines(lines: seq<string>): (r: string)
    ensures |lines| == 0 <==> |r| == 0
  {
    if lines == [] then [] else JoinLines(lines[..|lines| - 1]) + lines[|lines| - 1] + "\n"
  }

  /** A single line without edge whitespace comes back unchanged once the newline is trimmed off. */
  lemma TrimSingleLine(line: string)
    requires NoEdgeWhitespace(line)
    ensures Trim(JoinLines([line])) == line
  {
    assert JoinLines([line]) == [] + line + "\n";
    TrimUnique([], line, "\n");
  }

  // ----- integers -----

  const IntMin: int := -0x8000_0000
  const IntMax: int := 0x7FFF_FFFF

  predicate IsDigit(c: char) {
    '0' <= c <= '9'
  }

  predicate AllDigits(s: string) {
    forall i :: 0 <= i < |s| ==> IsDigit(s[i])
  }

  function DigitValue(c: char): nat
    requires IsDigit(c)
  {
    c as int - '0' as int
  }

  function DigitChar(d: nat): char
    requires d < 10
  {
    ('0' as int + d) as char
  }

  /** The value of a run of decimal digits read left to right; leading zeros are allowed. */
  function DigitsValue(s: string): nat
    requires AllDigits(s)
  {
    if s == [] then 0 else DigitsValue(s[..|s| - 1]) * 10 + DigitValue(s[|s| - 1])
  }

  /** The text after an optional leading `+` or `-`. */
  function UnsignedPart(s: string): (b: string)
    ensures |s| > 0 && (s[0] == '+' || s[0] == '-') ==> b == s[1..]
    ensures !(|s| > 0 && (s[0] == '+' || s[0] == '-')) ==> b == s
  {
    if |s| > 0 && (s[0] == '+' || s[0] == '-') then s[1..] else s
  }

  /** The value a signed decimal numeral denotes, before any range check. */
  function SignedValue(s: string): int
    requires AllDigits(UnsignedPart(s))
  {
    if |s| > 0 && s[0] == '-' then 0 - DigitsValue(UnsignedPart(s)) as int else DigitsValue(UnsignedPart(s))
  }

  /**
   * `String.toInt()` as the callers use it, inside a `try` that catches
   * `NumberFormatException`: `None` stands for that exception. A number is an
   * optional `+` or `-` followed by at least one decimal digit, whose value fits
   * a 32-bit `Int`. Anything else (empty text, a sign alone, a stray character,
   * overflow) throws.
   */
  function ParseInt(s: string): (r: Option<int>)
    ensures r.Some? <==>
      UnsignedPart(s) != [] && AllDigits(UnsignedPart(s)) && IntMin <= SignedValue(s) <= IntMax
    ensures r.Some? ==> AllDigits(UnsignedPart(s)) && r.value == SignedValue(s)
    ensures r.Some? ==> IntMin <= r.value <= IntMax
    ensures AllDigits(s) && |s| > 0 && DigitsValue(s) <= IntMax ==> r == Some(DigitsValue(s))
  {
    if |s| == 0 then None
    else if s[0] == '-' || s[0] == '+' then
      var body := s[1..];
      if body != [] && AllDigits(body) then
        var v: int := if s[0] == '-' then 0 - DigitsValue(body) as int else DigitsValue(body);
        if IntMin <= v <= IntMax then Some(v) else None
      else None
    else if AllDigits(s) then
      var v := DigitsValue(s);
      if v <= IntMax then Some(v) else None
    else None
  }

  /** A sign alone or a stray character is no number; `-0` and `+7` are. */
  lemma ParseIntRejects(s: string, i: nat)
    requires i < |s| && !IsDigit(s[i]) && (i > 0 || (s[0] != '+' && s[0] != '-'))
    ensures ParseInt(s).None?
    ensures ParseInt("+").None? && ParseInt("-").None?
    ensures ParseInt("-0") == Some(0) && ParseInt("+7") == Some(7)
  {
    var b := UnsignedPart(s);
    if i > 0 && (s[0] == '+' || s[0] == '-') {
      assert b[i - 1] == s[i];
    } else {
      assert b[i] == s[i];
    }
    assert UnsignedPart("-0") == "0";
    assert UnsignedPart("+7") == "7";
  }

  /** One past `Int.MAX_VALUE` is no number, while `Int.MIN_VALUE` is. */
  lemma ParseIntOverflow()
    ensures ParseInt("2147483648").None?
    ensures ParseInt("-2147483648") == Some(IntMin)
  {
    assert DigitsValue("2") == 2;
    assert DigitsValue("21") == 21 by { assert "21"[..1] == "2"; }
    assert DigitsValue("214") == 214 by { assert "214"[..2] == "21"; }
    assert DigitsValue("2147") == 2147 by { assert "2147"[..3] == "214"; }
    assert DigitsValue("21474") == 21474 by { assert "21474"[..4] == "2147"; }
    assert DigitsValue("214748") == 214748 by { assert "214748"[..5] == "21474"; }
    assert DigitsValue("2147483") == 2147483 by { assert "2147483"[..6] == "214748"; }
    assert DigitsValue("21474836") == 21474836 by { assert "21474836"[..7] == "2147483"; }
    assert DigitsValue("214748364") == 214748364 by { assert "214748364"[..8] == "21474836"; }
    assert DigitsValue("2147483648") == 2147483648 by { assert "2147483648"[..9] == "214748364"; }
    assert UnsignedPart("-2147483648") == "2147483648";
  }

  /** Decimal digits of a natural number, without leading zeros. */
  function NatToString(n: nat): (r: string)
    ensures |r| > 0
  {
    if n < 10 then [DigitChar(n)] else NatToString(n / 10) + [DigitChar(n % 10)]
  }

  /** `Int.toString()`: a minus sign for negative values, then the digits. */
  function IntToString(n: int): (r: string)
    ensures |r| > 0
  {
    if n < 0 then "-" + NatToString(-n) else NatToString(n)
  }

  lemma {:induction false} NatToStringDigits(n: nat)
    ensures AllDigits(NatToString(n))
    ensures DigitsValue(NatToString(n)) == n
    decreases n
  {
    if n >= 10 {
      var init := NatToString(n / 10);
      NatToStringDigits(n / 10);
      var s := init + [DigitChar(n % 10)];
      assert s[..|s| - 1] == init;
      assert AllDigits(s) by {
        forall i | 0 <= i < |s| ensures IsDigit(s[i]) {
          if i < |init| { assert s[i] == init[i]; }
        }
      }
    }
  }

  /** `toInt` reads back exactly what `toString` wrote, for every 32-bit value. */
  lemma IntToStringRoundTrip(n: int)
    requires IntMin <= n <= IntMax
    ensures ParseInt(IntToString(n)) == Some(n)
  {
    if n < 0 {
      NatToStringDigits(-n);
      assert IntToString(n)[1..] == NatToString(-n);
    } else {
      NatToStringDigits(n);
    }
  }

  /** What `toString` writes has no whitespace at its edges, so trimming leaves it alone. */
  lemma IntToStringTrimmed(n: int)
    ensures NoEdgeWhitespace(IntToString(n))
    ensures Trim(IntToString(n)) == IntToString(n)
  {
    var s := IntToString(n);
    if n < 0 {
      NatToStringDigits(-n);
      assert s[|s| - 1] == NatToString(-n)[|NatToString(-n)| - 1];
    } else {
      NatToStringDigits(n);
    }
    assert IsDigit(s[|s| - 1]);
    assert [] + s + [] == s;
    TrimUnique([], s, []);
  }
}
