/** Decimal and hexadecimal numerals. */
module Numerals {
  predicate IsDigit(c: char) { '0' <= c <= '9' }

  predicate IsHex(c: char) {
    IsDigit(c) || 'a' <= c <= 'f' || 'A' <= c <= 'F'
  }

  /** The value of a digit; 0 for any other character. */
  function HexDigit(c: char): (r: int)
    ensures 0 <= r < 16
  {
    if IsDigit(c) then c as int - '0' as int
    else if 'a' <= c <= 'f' then c as int - 'a' as int + 10
    else if 'A' <= c <= 'F' then c as int - 'A' as int + 10
    else 0
  }

  predicate AllDigits(s: string) { forall c :: c in s ==> IsDigit(c) }

  predicate AllHex(s: string) { forall c :: c in s ==> IsHex(c) }

  function DecValue(s: string): (r: int)
    ensures r >= 0
  {
    if s == "" then 0 else DecValue(s[..|s| - 1]) * 10 + HexDigit(s[|s| - 1])
  }

  function HexValue(s: string): (r: int)
    ensures r >= 0
  {
    if s == "" then 0 else HexValue(s[..|s| - 1]) * 16 + HexDigit(s[|s| - 1])
  }

  /** A number printed in decimal, as JavaScript's template literals and `String` do. */
  function Decimal(n: nat): (r: string)
    ensures r != "" && AllDigits(r) && DecValue(r) == n
    ensures (n < 10 ==> |r| == 1) && (n < 100 ==> |r| <= 2) && (n < 1000 ==> |r| <= 3)
  {
    var last := [(n % 10 + '0' as int) as char];
    if n < 10 then last
    else
      var r := Decimal(n / 10) + last;
      assert r[..|r| - 1] == Decimal(n / 10);
      r
  }

  // ---- Printers of a fixed width ----

  function Pow(base: nat, k: nat): nat {
    if k == 0 then 1 else base * Pow(base, k - 1)
  }

  function HexChar(d: int, upper: bool): (c: char)
    requires 0 <= d < 16
    ensures IsHex(c)
  {
    if d < 10 then (d + '0' as int) as char
    else if upper then (d - 10 + 'A' as int) as char
    else (d - 10 + 'a' as int) as char
  }

  /** `n` in as many hexadecimal digits as `upper` says, each in the case it says. */
  function HexPrint(n: nat, upper: seq<bool>): (r: string)
    requires n < Pow(16, |upper|)
    ensures |r| == |upper| && AllHex(r)
  {
    if upper == [] then ""
    else HexPrint(n / 16, upper[..|upper| - 1]) + [HexChar(n % 16, upper[|upper| - 1])]
  }

  /** `n` in `width` decimal digits. */
  function DecPrint(n: nat, width: nat): (r: string)
    requires n < Pow(10, width)
    ensures |r| == width && AllDigits(r)
  {
    if width == 0 then "" else DecPrint(n / 10, width - 1) + [(n % 10 + '0' as int) as char]
  }

  /** A number is read back from each of its printings: any width, any mix of cases. */
  lemma {:induction false} HexValueUndoesPrint(n: nat, upper: seq<bool>)
    requires n < Pow(16, |upper|)
    ensures HexValue(HexPrint(n, upper)) == n
  {
    hide HexChar, HexDigit;
    if upper != [] {
      var k := |upper| - 1;
      var high, c := HexPrint(n / 16, upper[..k]), HexChar(n % 16, upper[k]);
      HexValueUndoesPrint(n / 16, upper[..k]);
      DigitUndoesHexChar(n % 16, upper[k]);
      assert (high + [c])[..k] == high;
      hide Pow;
      assert HexValue(high + [c]) == HexValue(high) * 16 + HexDigit(c);
    }
  }

  lemma DigitUndoesHexChar(d: int, upper: bool)
    requires 0 <= d < 16
    ensures HexDigit(HexChar(d, upper)) == d
  {
  }

  lemma {:induction false} DecValueUndoesPrint(n: nat, width: nat)
    requires n < Pow(10, width)
    ensures DecValue(DecPrint(n, width)) == n
  {
    if width > 0 {
      DecValueUndoesPrint(n / 10, width - 1);
      assert DecPrint(n, width)[..width - 1] == DecPrint(n / 10, width - 1);
    }
  }

  /** And every numeral is one of its number's printings. */
  lemma {:induction false} DecPrintUndoesValue(s: string)
    requires AllDigits(s)
    ensures DecValue(s) < Pow(10, |s|) && DecPrint(DecValue(s), |s|) == s
  {
    if s != "" {
      var k := |s| - 1;
      assert s == s[..k] + [s[k]];
      DecPrintUndoesValue(s[..k]);
    }
  }

  lemma {:induction false} HexPrintUndoesValue(s: string) returns (upper: seq<bool>)
    requires AllHex(s)
    ensures |upper| == |s| && HexValue(s) < Pow(16, |s|) && HexPrint(HexValue(s), upper) == s
  {
    upper := [];
    if s != "" {
      hide HexPrint, HexValue, HexChar, HexDigit, Pow;
      var t, c := s[..|s| - 1], s[|s| - 1];
      assert s == t + [c];
      var before := HexPrintUndoesValue(t);
      upper := before + ['A' <= c <= 'F'];
      HexCharUndoesDigit(c);
      ValueOneMore(t, c);
      PrintOneMore(HexValue(t), before, HexDigit(c), 'A' <= c <= 'F');
    } else {
      PrintNothing();
    }
  }

  lemma PrintNothing()
    ensures HexValue("") < Pow(16, 0) && HexPrint(HexValue(""), []) == ""
  {
  }

  lemma ValueOneMore(t: string, c: char)
    ensures HexValue(t + [c]) == HexValue(t) * 16 + HexDigit(c)
  {
    hide HexDigit;
    assert (t + [c])[..|t|] == t;
  }

  lemma PrintOneMore(n: nat, before: seq<bool>, d: nat, up: bool)
    requires n < Pow(16, |before|) && d < 16
    ensures n * 16 + d < Pow(16, |before| + 1)
    ensures HexPrint(n * 16 + d, before + [up]) == HexPrint(n, before) + [HexChar(d, up)]
  {
    hide HexChar;
    assert (n * 16 + d) / 16 == n && (n * 16 + d) % 16 == d;
    assert (before + [up])[..|before|] == before;
  }

  lemma HexCharUndoesDigit(c: char)
    requires IsHex(c)
    ensures HexChar(HexDigit(c), 'A' <= c <= 'F') == c
  {
  }
}
