/** The string operations the user's replies and the stored step ids go through. */
module Text {

  /** Python's whitespace. */
  predicate IsSpace(c: char) {
    var n := c as int;
    || 9 <= n <= 13 || 28 <= n <= 32 || n == 0x85 || n == 0xA0 || n == 0x1680
    || 0x2000 <= n <= 0x200A || n == 0x2028 || n == 0x2029 || n == 0x202F || n == 0x205F || n == 0x3000
  }

  predicate AllSpace(s: string) {
    forall i :: 0 <= i < |s| ==> IsSpace(s[i])
  }

  function LStrip(s: string): string {
    if s != "" && IsSpace(s[0]) then LStrip(s[1..]) else s
  }

  function RStrip(s: string): string {
    if s != "" && IsSpace(s[|s| - 1]) then RStrip(s[..|s| - 1]) else s
  }

  function Strip(s: string): string {
    RStrip(LStrip(s))
  }

  function LowerChar(c: char): char {
    if 'A' <= c <= 'Z' then c - 'A' + 'a' else c
  }

  function Lower(s: string): (r: string)
    ensures |r| == |s| && forall i :: 0 <= i < |s| ==> r[i] == LowerChar(s[i])
  {
    if s == "" then "" else [LowerChar(s[0])] + Lower(s[1..])
  }

  /** Only the capital letters change, each to the small letter at its place in the alphabet. */
  lemma LowerLetters(c: char)
    ensures 'A' <= c <= 'Z' ==> LowerChar(c) as int == c as int + 32 && 'a' <= LowerChar(c) <= 'z'
    ensures !('A' <= c <= 'Z') ==> LowerChar(c) == c
  {
  }

  /** The blanks by their code points: the ASCII ones, and those of the separator classes of Unicode. */
  lemma BlankCodes(c: char)
    ensures IsSpace(c) <==>
            || c as int in {0x9, 0xA, 0xB, 0xC, 0xD, 0x1C, 0x1D, 0x1E, 0x1F, 0x20}
            || c as int in {0x85, 0xA0, 0x1680, 0x2028, 0x2029, 0x202F, 0x205F, 0x3000}
            || c as int in {0x2000, 0x2001, 0x2002, 0x2003, 0x2004, 0x2005, 0x2006, 0x2007, 0x2008, 0x2009, 0x200A}
  {
  }

  lemma {:induction false} LStripShape(s: string) returns (k: nat)
    ensures k <= |s| && LStrip(s) == s[k..] && AllSpace(s[..k]) && (k < |s| ==> !IsSpace(s[k]))
  {
    if s != "" && IsSpace(s[0]) {
      var j := LStripShape(s[1..]);
      k := j + 1;
      assert s[..k] == [s[0]] + s[1..][..j];
    } else {
      k := 0;
    }
  }

  lemma {:induction false} RStripShape(s: string) returns (m: nat)
    ensures m <= |s| && RStrip(s) == s[..m] && AllSpace(s[m..]) && (m > 0 ==> !IsSpace(s[m - 1]))
  {
    if s != "" && IsSpace(s[|s| - 1]) {
      m := RStripShape(s[..|s| - 1]);
      assert s[m..] == s[..|s| - 1][m..] + [s[|s| - 1]];
    } else {
      m := |s|;
    }
  }

  /** Stripping cuts off the longest blank prefix and suffix. */
  lemma StripShape(s: string) returns (k: nat, m: nat)
    ensures k <= m <= |s| && Strip(s) == s[k..m] && AllSpace(s[..k]) && AllSpace(s[m..])
    ensures k < m ==> !IsSpace(s[k]) && !IsSpace(s[m - 1])
  {
    k := LStripShape(s);
    var n := RStripShape(s[k..]);
    m := k + n;
    assert s[k..][..n] == s[k..m] && s[k..][n..] == s[m..];
    assert n > 0 ==> s[k..][n - 1] == s[m - 1];
  }

  /** Whatever blanks surround a text without outer blanks, stripping gives the text. */
  lemma StripParts(before: string, text: string, after: string)
    requires AllSpace(before) && AllSpace(after)
    requires text != "" ==> !IsSpace(text[0]) && !IsSpace(text[|text| - 1])
    ensures Strip(before + text + after) == text
  {
    var s := before + text + after;
    var k, m := StripShape(s);
    var i, j := |before|, |before| + |text|;
    assert s[i..j] == text;
    if text == "" {
      assert AllSpace(s);
      StripEmpty(s);
    } else {
      assert s[i] == text[0] && s[j - 1] == text[|text| - 1];
      assert forall x :: 0 <= x < i ==> s[x] == before[x];
      assert forall x :: j <= x < |s| ==> s[x] == after[x - j];
      assert forall x :: 0 <= x < k ==> s[x] == s[..k][x];
      assert forall x :: m <= x < |s| ==> s[x] == s[m..][x - m];
      assert k == i && m == j;
    }
  }

  lemma StripEmpty(s: string)
    ensures Strip(s) == "" <==> AllSpace(s)
  {
    var k, m := StripShape(s);
    if k == m {
      assert s == s[..k] + s[m..];
    }
  }

  // ---- Decimal numerals ----

  function Digit(d: nat): char
    requires d < 10
  {
    '0' + d as char
  }

  function Decimal(n: nat): (s: string)
    ensures s != ""
  {
    if n < 10 then [Digit(n)] else Decimal(n / 10) + [Digit(n % 10)]
  }

  /** The number a numeral stands for. */
  function Value(s: string): int {
    if s == "" then 0 else 10 * Value(s[..|s| - 1]) + (s[|s| - 1] as int - '0' as int)
  }

  /** A numeral stands for its number, and has no leading zero. */
  lemma {:induction false} DecimalValue(n: nat)
    ensures Value(Decimal(n)) == n
    ensures n > 0 ==> Decimal(n)[0] != '0'
  {
    var s := Decimal(n);
    if n < 10 {
      assert s[..0] == "" && s[0] as int == '0' as int + n;
    } else {
      DecimalValue(n / 10);
      assert s[..|s| - 1] == Decimal(n / 10) && s[|s| - 1] == Digit(n % 10);
    }
  }

  /** Different numbers have different numerals. */
  lemma DecimalInjective(m: nat, n: nat)
    requires Decimal(m) == Decimal(n)
    ensures m == n
  {
    DecimalValue(m);
    DecimalValue(n);
  }
}
