/**
 * PostgreSQL log sequence numbers (pg_lsn, section 8.20 of the PostgreSQL 16
 * documentation): two hexadecimal halves separated by a slash.
 *
 * The source compares, parses and prints LSN texts in several places. Here they
 * are stated once and related to the 64-bit number that the text stands for.
 */
module Lsn {
  import opened Wrappers

  const TWO32: nat := 0x1_0000_0000
  const TWO64: nat := 0x1_0000_0000_0000_0000

  datatype LsnError = BadFormat | BadHigh | BadLow

  // ---------------------------------------------------------------- hexadecimal

  function DigitValue(c: char): Option<nat> {
    if '0' <= c <= '9' then Some(c as int - '0' as int)
    else if 'A' <= c <= 'F' then Some(c as int - 'A' as int + 10)
    else if 'a' <= c <= 'f' then Some(c as int - 'a' as int + 10)
    else None
  }

  function DigitChar(d: nat): char
    requires d < 16
  {
    "0123456789ABCDEF"[d]
  }

  /** The number a string of hexadecimal digits denotes, of any width. */
  function HexValue(s: string): Option<nat> {
    if s == "" then Some(0)
    else
      match (HexValue(s[..|s| - 1]), DigitValue(s[|s| - 1]))
      case (Some(v), Some(d)) => Some(16 * v + d)
      case _ => None
  }

  /** strconv.ParseUint(s, 16, bits) for the two widths in use; None is its error. */
  function ParseUint(s: string, limit: nat): Option<nat> {
    if s == "" then None
    else
      match HexValue(s)
      case Some(v) => if v < limit then Some(v) else None
      case None => None
  }

  /** The verb %X. */
  function PrintHex(n: nat): (s: string)
    ensures s != ""
  {
    if n < 16 then [DigitChar(n)] else PrintHex(n / 16) + [DigitChar(n % 16)]
  }

  lemma DigitRoundTrip(d: nat)
    requires d < 16
    ensures DigitValue(DigitChar(d)) == Some(d) && DigitChar(d) != '/'
  {
  }

  lemma HexValueSnoc(s: string, c: char)
    ensures HexValue(s + [c]) ==
            match (HexValue(s), DigitValue(c))
            case (Some(v), Some(d)) => Some(16 * v + d)
            case _ => None
  {
    assert (s + [c])[..|s|] == s;
  }

  lemma OneDigitMore(s: string, n: nat, d: nat)
    requires d < 16 && HexValue(s) == Some(n) && '/' !in s
    ensures var t := s + [DigitChar(d)]; HexValue(t) == Some(16 * n + d) && '/' !in t
  {
    hide HexValue;
    HexValueSnoc(s, DigitChar(d));
    DigitRoundTrip(d);
    hide DigitValue, DigitChar;
  }

  lemma {:induction false} PrintedHexParses(n: nat)
    ensures HexValue(PrintHex(n)) == Some(n)
    ensures '/' !in PrintHex(n)
  {
    var high, low := n / 16, n % 16;
    hide DigitValue, DigitChar;
    if n < 16 {
      OneDigitMore("", 0, n);
      assert "" + [DigitChar(n)] == PrintHex(n);
    } else {
      assert PrintHex(n) == PrintHex(high) + [DigitChar(low)];
      hide HexValue, PrintHex;
      PrintedHexParses(high);
      OneDigitMore(PrintHex(high), high, low);
    }
  }

  // ---------------------------------------------------------------- splitting

  /** strings.Split(s, "/"). */
  function Split(s: string): (parts: seq<string>)
    ensures |parts| >= 1
  {
    if s == "" then [""]
    else
      var rest := Split(s[1..]);
      if s[0] == '/' then [""] + rest else [[s[0]] + rest[0]] + rest[1..]
  }

  lemma {:induction false} SplitWithoutSlash(s: string)
    requires '/' !in s
    ensures Split(s) == [s]
  {
    if s != "" {
      SplitWithoutSlash(s[1..]);
      assert [s[0]] + s[1..] == s;
    }
  }

  lemma {:induction false} SplitAtSlash(a: string, b: string)
    requires '/' !in a && '/' !in b
    ensures Split(a + "/" + b) == [a, b]
  {
    var s := a + "/" + b;
    if a == "" {
      assert s[1..] == b;
      SplitWithoutSlash(b);
    } else {
      assert s[1..] == a[1..] + "/" + b;
      SplitAtSlash(a[1..], b);
      assert [a[0]] + a[1..] == a;
    }
  }

  // ---------------------------------------------------------------- the operations

  /** Both halves of an LSN text, each below `limit`. */
  function Halves(s: string, limit: nat): Result<(nat, nat), LsnError> {
    var parts := Split(s);
    if |parts| != 2 then Failure(BadFormat)
    else
      match ParseUint(parts[0], limit)
      case None => Failure(BadHigh)
      case Some(high) =>
        match ParseUint(parts[1], limit)
        case None => Failure(BadLow)
        case Some(low) => Success((high, low))
  }

  /** LSNToUint64, and WALParser.parseLSNToUint64 apart from its test for "". */
  function LsnToUint64(s: string): (r: Result<nat, LsnError>)
    ensures r.Success? ==> r.value < TWO64
  {
    var (high, low) :- Halves(s, TWO32);
    HalvesBelow(s, TWO32);
    Success(high * TWO32 + low)
  }

  lemma HalvesBelow(s: string, limit: nat)
    ensures Halves(s, limit).Success? ==> Halves(s, limit).value.0 < limit && Halves(s, limit).value.1 < limit
  {
  }

  /** Uint64ToLSN and formatLSN. */
  function FormatUint64(n: nat): string {
    PrintHex(n / TWO32) + "/" + PrintHex(n % TWO32)
  }

  /** FormatLSN: the canonical text of an LSN. */
  function FormatLsn(s: string): Result<string, LsnError> {
    var n :- LsnToUint64(s);
    Success(FormatUint64(n))
  }

  function Sign(a: nat, b: nat): int {
    if a < b then -1 else if a > b then 1 else 0
  }

  /** compareLSN of the checkpoint manager: 64-bit halves, and equal texts are equal unparsed. */
  function CompareLsn(a: string, b: string): Result<int, LsnError> {
    if a == b then Success(0)
    else
      var (highA, lowA) :- Halves(a, TWO64);
      var (highB, lowB) :- Halves(b, TWO64);
      if highA < highB then Success(-1)
      else if highA > highB then Success(1)
      else Success(Sign(lowA, lowB))
  }

  /** LSNManager.CompareLSN: 32-bit halves joined into one number. */
  function ManagerCompareLsn(a: string, b: string): Result<int, LsnError> {
    if |Split(a)| != 2 || |Split(b)| != 2 then Failure(BadFormat)
    else
      var valueA :- LsnToUint64(a);
      var valueB :- LsnToUint64(b);
      Success(Sign(valueA, valueB))
  }

  /** isValidLSN: what a checkpoint is accepted on. */
  predicate IsValidLsn(s: string) {
    s != "" && s != "0/0" && Halves(s, TWO64).Success?
  }

  /** LSNManager.AdvanceLSN: `bytes` is an int64 added modulo 2^64. */
  function AdvanceLsn(s: string, bytes: int): Result<string, LsnError>
    requires -0x8000_0000_0000_0000 <= bytes < 0x8000_0000_0000_0000
  {
    var n :- LsnToUint64(s);
    Success(FormatUint64((n + bytes) % TWO64))
  }

  // ---------------------------------------------------------------- texts and numbers agree

  lemma FormattedHalves(n: nat)
    requires n < TWO64
    ensures Halves(FormatUint64(n), TWO32) == Success((n / TWO32, n % TWO32))
  {
    PrintedHexParses(n / TWO32);
    PrintedHexParses(n % TWO32);
    SplitAtSlash(PrintHex(n / TWO32), PrintHex(n % TWO32));
  }

  /** Printing and parsing are inverse on every 64-bit value. */
  lemma FormatThenParse(n: nat)
    requires n < TWO64
    ensures LsnToUint64(FormatUint64(n)) == Success(n)
  {
    FormattedHalves(n);
  }

  /** Parsing then printing keeps the number, and a second pass changes nothing. */
  lemma FormatIsCanonical(s: string)
    requires LsnToUint64(s).Success?
    ensures FormatLsn(s).Success?
    ensures LsnToUint64(FormatLsn(s).value) == LsnToUint64(s)
    ensures FormatLsn(FormatLsn(s).value) == FormatLsn(s)
  {
    FormatThenParse(LsnToUint64(s).value);
  }

  /** Two readable LSNs have the same canonical text exactly when they are the same position. */
  lemma FormatIsInjective(a: string, b: string)
    requires LsnToUint64(a).Success? && LsnToUint64(b).Success?
    ensures FormatLsn(a) == FormatLsn(b) <==> LsnToUint64(a) == LsnToUint64(b)
  {
    FormatIsCanonical(a);
    FormatIsCanonical(b);
  }

  /** Halves accepted at a narrow width are accepted, with the same value, at a wide one. */
  lemma NarrowHalvesAreWide(s: string)
    ensures Halves(s, TWO32).Success? ==> Halves(s, TWO64) == Halves(s, TWO32)
  {
  }

  /** Both comparison functions are the numeric order wherever both halves fit 32 bits. */
  lemma ComparisonsAreNumeric(a: string, b: string)
    requires LsnToUint64(a).Success? && LsnToUint64(b).Success?
    ensures CompareLsn(a, b) == Success(Sign(LsnToUint64(a).value, LsnToUint64(b).value))
    ensures ManagerCompareLsn(a, b) == CompareLsn(a, b)
  {
    NarrowHalvesAreWide(a);
    NarrowHalvesAreWide(b);
    HalvesBelow(a, TWO32);
    HalvesBelow(b, TWO32);
    var (highA, lowA) := Halves(a, TWO32).value;
    var (highB, lowB) := Halves(b, TWO32).value;
    SignOfHalves(highA, lowA, highB, lowB);
  }

  /** Canonical texts compare as the texts they stand for. */
  lemma FormatKeepsOrder(a: string, b: string)
    requires LsnToUint64(a).Success? && LsnToUint64(b).Success?
    ensures FormatLsn(a).Success? && FormatLsn(b).Success?
    ensures CompareLsn(FormatLsn(a).value, FormatLsn(b).value) == CompareLsn(a, b)
  {
    FormatIsCanonical(a);
    FormatIsCanonical(b);
    ComparisonsAreNumeric(a, b);
    ComparisonsAreNumeric(FormatLsn(a).value, FormatLsn(b).value);
  }

  lemma SignOfHalves(highA: nat, lowA: nat, highB: nat, lowB: nat)
    requires lowA < TWO32 && lowB < TWO32
    ensures Sign(highA * TWO32 + lowA, highB * TWO32 + lowB)
         == if highA < highB then -1 else if highA > highB then 1 else Sign(lowA, lowB)
  {
  }

  /** The two comparison functions give the same verdict exactly when the narrow one gives one at all. */
  lemma ComparisonsAgreeExactly(a: string, b: string)
    requires CompareLsn(a, b).Success?
    ensures ManagerCompareLsn(a, b) == CompareLsn(a, b) <==> LsnToUint64(a).Success? && LsnToUint64(b).Success?
  {
    if LsnToUint64(a).Success? && LsnToUint64(b).Success? {
      ComparisonsAreNumeric(a, b);
    }
  }

  /** compareLSN is a total preorder on the texts a checkpoint may hold. */
  lemma CompareIsTotalPreorder(a: string, b: string, c: string)
    requires IsValidLsn(a) && IsValidLsn(b) && IsValidLsn(c)
    ensures CompareLsn(a, b).Success? && CompareLsn(b, a) == Success(-CompareLsn(a, b).value)
    ensures CompareLsn(b, c).Success? && CompareLsn(a, c).Success?
    ensures CompareLsn(a, b).value <= 0 && CompareLsn(b, c).value <= 0 ==> CompareLsn(a, c).value <= 0
    ensures CompareLsn(a, b).value == 0 <==> Halves(a, TWO64) == Halves(b, TWO64)
  {
  }

  /**
   * A checkpoint passes validation and can still be unreadable when CDC starts from it:
   * a valid text is readable exactly when both halves fit 32 bits.
   */
  lemma ValidIsReadableExactly(s: string)
    requires IsValidLsn(s)
    ensures LsnToUint64(s).Success? <==> Halves(s, TWO64).value.0 < TWO32 && Halves(s, TWO64).value.1 < TWO32
  {
  }

  /** Every text whose high half needs more than 32 bits is such a checkpoint: valid, never readable. */
  lemma ValidButUnreadable(high: nat, low: nat)
    requires TWO32 <= high < TWO64 && low < TWO64
    ensures var s := PrintHex(high) + "/" + PrintHex(low); IsValidLsn(s) && LsnToUint64(s) == Failure(BadHigh)
  {
    PrintedHexParses(high);
    PrintedHexParses(low);
    SplitAtSlash(PrintHex(high), PrintHex(low));
    SplitAtSlash("0", "0");
    assert "0" + "/" + "0" == "0/0";
    HexValueSnoc("", '0');
    assert "" + ['0'] == "0";
  }

  /** A readable text is accepted as a checkpoint unless it is literally 0/0. */
  lemma ReadableIsValidExactly(s: string)
    requires LsnToUint64(s).Success?
    ensures IsValidLsn(s) <==> s != "0/0"
  {
    NarrowHalvesAreWide(s);
  }

  /** The canonical text of a position is accepted as a checkpoint exactly when the position is not 0. */
  lemma FormatIsValidExactly(n: nat)
    requires n < TWO64
    ensures IsValidLsn(FormatUint64(n)) <==> n != 0
  {
    FormatThenParse(n);
    FormatThenParse(0);
    ReadableIsValidExactly(FormatUint64(n));
    assert FormatUint64(0) == "0/0";
    hide LsnToUint64, FormatUint64, IsValidLsn;
  }

  // ---------------------------------------------------------------- texts as PostgreSQL writes them

  function UpperChar(c: char): char {
    if 'a' <= c <= 'f' then (c as int - 'a' as int + 'A' as int) as char else c
  }

  function Upper(s: string): (u: string)
    ensures |u| == |s| && forall i | 0 <= i < |s| :: u[i] == UpperChar(s[i])
  {
    seq(|s|, i requires 0 <= i < |s| => UpperChar(s[i]))
  }

  lemma {:induction false} UpperValue(s: string)
    ensures HexValue(Upper(s)) == HexValue(s)
    decreases |s|
  {
    if s != "" {
      UpperValue(s[..|s| - 1]);
      assert Upper(s)[..|s| - 1] == Upper(s[..|s| - 1]);
    }
  }

  lemma UpperCons(c: char, s: string)
    ensures Upper([c] + s) == [UpperChar(c)] + Upper(s) && Upper("") == ""
  {
  }

  lemma SplitCons(c: char, s: string)
    ensures Split([c] + s) == if c == '/' then [""] + Split(s) else [[c] + Split(s)[0]] + Split(s)[1..]
  {
    assert ([c] + s)[1..] == s;
  }

  /** Both are cut at the same places. */
  predicate CutAlike(u: seq<string>, parts: seq<string>) {
    |u| == |parts| && forall i | 0 <= i < |parts| :: u[i] == Upper(parts[i])
  }

  lemma {:induction false} UpperSplit(s: string)
    ensures CutAlike(Split(Upper(s)), Split(s))
  {
    UpperCons('/', "");
    if s != "" {
      var c, rest := s[0], s[1..];
      UpperSplit(rest);
      UpperCons(c, rest);
      SplitCons(c, rest);
      SplitCons(UpperChar(c), Upper(rest));
      UpperCons(c, Split(rest)[0]);
      assert [c] + rest == s;
      hide Upper, Split;
    }
  }

  /** The case of the digits does not count. */
  lemma CaseDoesNotCount(s: string)
    ensures LsnToUint64(Upper(s)) == LsnToUint64(s)
  {
    UpperSplit(s);
    forall part | part in Split(s) ensures ParseUint(Upper(part), TWO32) == ParseUint(part, TWO32) {
      UpperValue(part);
    }
    hide ParseUint, Upper;
  }

  lemma PrintedSnoc(n: nat, d: nat, s: string)
    requires d < 16 && n > 0 && PrintHex(n) == s
    ensures PrintHex(16 * n + d) == s + ["0123456789ABCDEF"[d]]
  {
  }

  lemma KnownHex()
    ensures PrintHex(0x16) == "16" && PrintHex(0xB374_D848) == "B374D848"
  {
    assert PrintHex(0x1) == "1" && PrintHex(0xB) == "B";
    hide PrintHex;
    PrintedSnoc(0x1, 0x6, "1");
    PrintedSnoc(0xB, 0x3, "B");
    PrintedSnoc(0xB3, 0x7, "B3");
    PrintedSnoc(0xB37, 0x4, "B37");
    PrintedSnoc(0xB374, 0xD, "B374");
    PrintedSnoc(0xB_374D, 0x8, "B374D");
    PrintedSnoc(0xB3_74D8, 0x4, "B374D8");
    PrintedSnoc(0xB37_4D84, 0x8, "B374D84");
  }

  /** The first half counts most, and so does the first digit: the value of the text 16/B374D848, in either case. */
  lemma KnownLsn()
    ensures FormatUint64(0x16_B374_D848) == "16/B374D848"
    ensures LsnToUint64("16/B374D848") == LsnToUint64("16/b374d848") == Success(0x16_B374_D848)
  {
    assert FormatUint64(0x16_B374_D848) == "16/B374D848" by {
      hide PrintHex;
      KnownHex();
      assert PrintHex(0x16) + "/" + PrintHex(0xB374_D848) == "16/B374D848";
    }
    hide FormatUint64, LsnToUint64;
    assert Upper("16/b374d848") == "16/B374D848";
    hide Upper;
    FormatThenParse(0x16_B374_D848);
    CaseDoesNotCount("16/b374d848");
  }

  /** AdvanceLSN lands on the sum modulo 2^64; it is the sum exactly when nothing wraps. */
  lemma AdvanceIsAddition(s: string, bytes: int)
    requires LsnToUint64(s).Success?
    requires -0x8000_0000_0000_0000 <= bytes < 0x8000_0000_0000_0000
    ensures AdvanceLsn(s, bytes).Success?
    ensures var n := LsnToUint64(s).value; var r := LsnToUint64(AdvanceLsn(s, bytes).value);
            && r == Success((n + bytes) % TWO64)
            && (r == Success(n + bytes) <==> 0 <= n + bytes < TWO64)
  {
    hide LsnToUint64, FormatUint64;
    FormatThenParse((LsnToUint64(s).value + bytes) % TWO64);
    Fits64(s);
    Wraps(LsnToUint64(s).value, bytes);
  }

  lemma Fits64(s: string)
    ensures LsnToUint64(s).Success? ==> LsnToUint64(s).value < TWO64
  {
  }

  lemma Wraps(n: nat, bytes: int)
    requires n < TWO64 && -0x8000_0000_0000_0000 <= bytes < 0x8000_0000_0000_0000
    ensures ((n + bytes) % TWO64 == n + bytes <==> 0 <= n + bytes < TWO64)
    ensures ((n + bytes) % TWO64 - bytes) % TWO64 == n
  {
  }

  /** Advancing and then going back by the same distance returns to the same position. */
  lemma AdvanceUndone(s: string, bytes: int)
    requires LsnToUint64(s).Success?
    requires -0x8000_0000_0000_0000 < bytes < 0x8000_0000_0000_0000
    ensures AdvanceLsn(s, bytes).Success?
    ensures AdvanceLsn(AdvanceLsn(s, bytes).value, -bytes) == FormatLsn(s)
  {
    hide LsnToUint64, FormatUint64;
    AdvanceIsAddition(s, bytes);
    Fits64(s);
    Wraps(LsnToUint64(s).value, bytes);
  }
}
