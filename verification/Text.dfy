/** Byte strings, percent-encoding (section 2.1 of RFC 3986), and the splitting of a URL's authority (section 3.2). */
module Text {
  import opened Wrappers

  /** A Rust string or byte string: its UTF-8 bytes, one per character. */
  predicate IsBytes(s: string) {
    forall i | 0 <= i < |s| :: s[i] as int < 256
  }

  predicate IsDigit(c: char) { '0' <= c <= '9' }

  predicate IsLower(c: char) { 'a' <= c <= 'z' }

  predicate IsUpper(c: char) { 'A' <= c <= 'Z' }

  predicate IsAlphanumeric(c: char) { IsDigit(c) || IsLower(c) || IsUpper(c) }

  function ToLower(c: char): char {
    if IsUpper(c) then (c as int + 32) as char else c
  }

  /** Letters, digits and underscores only. */
  predicate IsWord(s: string) {
    forall i | 0 <= i < |s| :: IsAlphanumeric(s[i]) || s[i] == '_'
  }

  // ---------------------------------------------------------------------- UTF-8

  predicate Within(s: string, i: nat, low: int, high: int) {
    i < |s| && low <= s[i] as int <= high
  }

  /** How many bytes the well-formed sequence at the start of `s` takes; 0 if there is none (section 4 of RFC 3629). */
  function LeadLength(s: string): (n: nat)
    requires s != []
    ensures n <= |s|
  {
    if Within(s, 0, 0, 0x7F) then 1
    else if Within(s, 0, 0xC2, 0xDF) && Within(s, 1, 0x80, 0xBF) then 2
    else if (|| (Within(s, 0, 0xE0, 0xE0) && Within(s, 1, 0xA0, 0xBF))
             || (Within(s, 0, 0xE1, 0xEC) && Within(s, 1, 0x80, 0xBF))
             || (Within(s, 0, 0xED, 0xED) && Within(s, 1, 0x80, 0x9F))
             || (Within(s, 0, 0xEE, 0xEF) && Within(s, 1, 0x80, 0xBF))) && Within(s, 2, 0x80, 0xBF) then 3
    else if (|| (Within(s, 0, 0xF0, 0xF0) && Within(s, 1, 0x90, 0xBF))
             || (Within(s, 0, 0xF1, 0xF3) && Within(s, 1, 0x80, 0xBF))
             || (Within(s, 0, 0xF4, 0xF4) && Within(s, 1, 0x80, 0x8F)))
            && Within(s, 2, 0x80, 0xBF) && Within(s, 3, 0x80, 0xBF) then 4
    else 0
  }

  predicate ValidUtf8(s: string) {
    s == [] || (LeadLength(s) > 0 && ValidUtf8(s[LeadLength(s)..]))
  }

  lemma {:induction false} WordsAreUtf8(s: string)
    requires IsWord(s)
    ensures ValidUtf8(s) && IsBytes(s)
  {
    if s != [] {
      assert LeadLength(s) == 1;
      WordsAreUtf8(s[1..]);
      assert forall i | 1 <= i < |s| :: s[i] == s[1..][i - 1];
    }
  }

  // ------------------------------------------------------------ percent-encoding

  function HexDigit(n: int): char
    requires 0 <= n < 16
  {
    if n < 10 then ('0' as int + n) as char else ('A' as int + n - 10) as char
  }

  function HexValue(c: char): Option<int> {
    if IsDigit(c) then Some(c as int - '0' as int)
    else if 'A' <= c <= 'F' then Some(c as int - 'A' as int + 10)
    else if 'a' <= c <= 'f' then Some(c as int - 'a' as int + 10)
    else None
  }

  /** utf8_percent_encode with the NON_ALPHANUMERIC set. */
  function PercentEncode(s: string): string
    requires IsBytes(s)
  {
    if s == [] then [] else
      var n := s[0] as int;
      (if IsAlphanumeric(s[0]) then [s[0]] else ['%', HexDigit(n / 16), HexDigit(n % 16)]) + PercentEncode(s[1..])
  }

  /** percent_decode_str: a '%' not followed by two hex digits stands for itself. */
  function PercentDecode(s: string): string {
    if s == [] then []
    else if s[0] == '%' && |s| >= 3 && HexValue(s[1]).Some? && HexValue(s[2]).Some? then
      [(HexValue(s[1]).value * 16 + HexValue(s[2]).value) as char] + PercentDecode(s[3..])
    else [s[0]] + PercentDecode(s[1..])
  }

  lemma HexRoundTrip(n: int)
    requires 0 <= n < 16
    ensures HexValue(HexDigit(n)) == Some(n)
  {
  }

  lemma {:induction false} DecodeEncode(s: string)
    requires IsBytes(s)
    ensures PercentDecode(PercentEncode(s)) == s
  {
    if s != [] {
      var n, rest := s[0] as int, PercentEncode(s[1..]);
      DecodeEncode(s[1..]);
      if IsAlphanumeric(s[0]) {
        assert ([s[0]] + rest)[1..] == rest;
      } else {
        HexRoundTrip(n / 16);
        HexRoundTrip(n % 16);
        assert (['%', HexDigit(n / 16), HexDigit(n % 16)] + rest)[3..] == rest;
        assert (n / 16) * 16 + n % 16 == n;
      }
    }
  }

  /** Encoding goes byte by byte. */
  lemma {:induction false} EncodingSplits(a: string, b: string)
    requires IsBytes(a) && IsBytes(b)
    ensures IsBytes(a + b) && PercentEncode(a + b) == PercentEncode(a) + PercentEncode(b)
  {
    if a == "" {
      assert a + b == b;
    } else {
      assert (a + b)[1..] == a[1..] + b;
      EncodingSplits(a[1..], b);
    }
  }

  lemma HexDigitExactly(n: int)
    requires 0 <= n < 16
    ensures HexDigit(n) == "0123456789ABCDEF"[n]
  {
  }

  /** A letter or digit stands for itself, any other byte becomes '%' and two upper-case hexadecimal digits. */
  lemma EncodedByteExactly(c: char)
    requires c as int < 256
    ensures PercentEncode([c]) ==
            if 'a' <= c <= 'z' || 'A' <= c <= 'Z' || '0' <= c <= '9' then [c]
            else ['%', "0123456789ABCDEF"[c as int / 16], "0123456789ABCDEF"[c as int % 16]]
  {
    HexDigitExactly(c as int / 16);
    HexDigitExactly(c as int % 16);
    assert [c][1..] == "";
  }

  /** What is left of a string after encoding: letters, digits and percent signs. */
  predicate IsEncoded(s: string) {
    forall i | 0 <= i < |s| :: IsAlphanumeric(s[i]) || s[i] == '%'
  }

  lemma {:induction false} EncodingIsSafe(s: string)
    requires IsBytes(s)
    ensures IsEncoded(PercentEncode(s))
    ensures PercentEncode(s) == [] <==> s == []
  {
    if s != [] {
      EncodingIsSafe(s[1..]);
    }
  }

  lemma {:induction false} WordsDecodeToThemselves(s: string)
    requires IsWord(s)
    ensures PercentDecode(s) == s
  {
    if s != [] {
      WordsDecodeToThemselves(s[1..]);
    }
  }

  // -------------------------------------------------------------------- searching

  /** Position of the first character of `stops`, or the length. */
  function FirstOf(s: string, stops: set<char>): (i: nat)
    ensures i <= |s|
  {
    if s == [] || s[0] in stops then 0 else 1 + FirstOf(s[1..], stops)
  }

  /** Position of the last `c`, if any. */
  function LastOf(s: string, c: char): (i: Option<nat>)
    ensures i.Some? ==> i.value < |s|
  {
    if s == [] then None
    else if s[|s| - 1] == c then Some(|s| - 1)
    else LastOf(s[..|s| - 1], c)
  }

  lemma {:induction false} FirstOfSplit(a: string, b: string, stops: set<char>)
    requires forall i | 0 <= i < |a| :: a[i] !in stops
    requires b != [] ==> b[0] in stops
    ensures FirstOf(a + b, stops) == |a|
  {
    if a == [] {
      assert a + b == b;
    } else {
      assert (a + b)[1..] == a[1..] + b;
      FirstOfSplit(a[1..], b, stops);
    }
  }

  lemma {:induction false} LastOfSplit(a: string, c: char, b: string)
    requires forall i | 0 <= i < |b| :: b[i] != c
    ensures LastOf(a + [c] + b, c) == Some(|a|)
  {
    var s := a + [c] + b;
    if b != [] {
      assert s[|s| - 1] == b[|b| - 1];
      assert s[..|s| - 1] == a + [c] + b[..|b| - 1];
      LastOfSplit(a, c, b[..|b| - 1]);
    }
  }

  lemma {:induction false} LastOfAbsent(s: string, c: char)
    requires forall i | 0 <= i < |s| :: s[i] != c
    ensures LastOf(s, c) == None
  {
    if s != [] {
      LastOfAbsent(s[..|s| - 1], c);
    }
  }

  /** A port in decimal, at most 65535. */
  function ParsePort(s: string): Option<nat> {
    if s == [] || exists i | 0 <= i < |s| :: !IsDigit(s[i]) then None
    else if DecimalValue(s) <= 65535 then Some(DecimalValue(s)) else None
  }

  function DecimalValue(s: string): nat
    requires forall i | 0 <= i < |s| :: IsDigit(s[i])
  {
    if s == [] then 0 else
      assert IsDigit(s[|s| - 1]);
      10 * DecimalValue(s[..|s| - 1]) + (s[|s| - 1] as int - '0' as int)
  }
}
