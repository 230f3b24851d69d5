/** Numbers as decimal texts, as binlog positions print them and their file names hold them. */
module Decimals {

  predicate IsDigit(c: char) {
    '0' <= c <= '9'
  }

  predicate AreDigits(s: string) {
    forall i | 0 <= i < |s| :: IsDigit(s[i])
  }

  function DigitValue(c: char): nat
    requires IsDigit(c)
  {
    c as int - '0' as int
  }

  function DecimalValue(digits: string): nat
    requires AreDigits(digits)
  {
    if digits == "" then 0
    else 10 * DecimalValue(digits[..|digits| - 1]) + DigitValue(digits[|digits| - 1])
  }

  function PrintDecimal(n: nat): string {
    if n < 10 then ["0123456789"[n]] else PrintDecimal(n / 10) + ["0123456789"[n % 10]]
  }

  /** `width` zeros, as in front of the number of a binlog file. */
  function Zeros(width: nat): (s: string)
    ensures |s| == width && forall i | 0 <= i < width :: s[i] == '0'
  {
    seq(width, i => '0')
  }

  lemma DigitRead(n: nat)
    requires n < 10
    ensures IsDigit("0123456789"[n]) && DigitValue("0123456789"[n]) == n
  {
  }

  /** A number can be read back from how it is printed, whatever zeros are put in front of it. */
  lemma {:induction false} PrintedIsRead(width: nat, n: nat)
    ensures var s := Zeros(width) + PrintDecimal(n);
            PrintDecimal(n) != "" && AreDigits(s) && AreDigits(PrintDecimal(n)) && DecimalValue(s) == n
    decreases n
  {
    var s := Zeros(width) + PrintDecimal(n);
    DigitRead(n % 10);
    if n < 10 {
      assert s[..|s| - 1] == Zeros(width);
      ZerosAreNothing(width);
    } else {
      assert s[..|s| - 1] == Zeros(width) + PrintDecimal(n / 10);
      PrintedIsRead(width, n / 10);
    }
  }

  lemma {:induction false} ZerosAreNothing(width: nat)
    ensures DecimalValue(Zeros(width)) == 0
  {
    if width > 0 {
      assert Zeros(width)[..width - 1] == Zeros(width - 1);
      ZerosAreNothing(width - 1);
    }
  }

  lemma PrintedApart(m: nat, n: nat)
    ensures PrintDecimal(m) == PrintDecimal(n) ==> m == n
  {
    PrintedIsRead(0, m);
    PrintedIsRead(0, n);
    assert Zeros(0) + PrintDecimal(m) == PrintDecimal(m) && Zeros(0) + PrintDecimal(n) == PrintDecimal(n);
  }

  /** The first digit counts most. */
  lemma KnownDecimals()
    ensures PrintDecimal(0) == "0" && PrintDecimal(10) == "10" && PrintDecimal(120) == "120"
  {
    assert PrintDecimal(1) == "1" && PrintDecimal(12) == "12";
  }
}
