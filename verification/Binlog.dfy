/**
 * MySQL binlog positions: a file name, compared by the number behind its last dot and then as
 * text, and an offset in the file.
 */
module Binlog {
  import opened Wrappers
  import opened Decimals

  datatype Position = Position(file: string, pos: nat)

  // ---------------------------------------------------------------- the number of a file

  /** The digits a text begins with. */
  function LeadingDigits(s: string): (digits: string)
    ensures AreDigits(digits)
  {
    if s == "" || !IsDigit(s[0]) then "" else [s[0]] + LeadingDigits(s[1..])
  }

  const MAX_INT64: int := 0x7fff_ffff_ffff_ffff

  /** The white space of Go's fmt. */
  predicate IsSpace(c: char) {
    var code := c as int;
    || 9 <= code <= 13 || code == 0x20 || code == 0x85 || code == 0xA0 || code == 0x1680 || 0x2000 <= code <= 0x200A
    || code == 0x2028 || code == 0x2029 || code == 0x202F || code == 0x205F || code == 0x3000
  }

  /** Leading white space is skipped; a newline in it is an error. */
  function SkipSpace(s: string): (rest: Option<string>)
    ensures rest.Some? && rest.value != "" ==> !IsSpace(rest.value[0])
  {
    if s == "" || !IsSpace(s[0]) then Some(s)
    else if s[0] == '\n' then None
    else SkipSpace(s[1..])
  }

  /** Sscanf with %d into a variable that is 0: no digits or too many leave it so. */
  function ScanInt(text: string): int {
    match SkipSpace(text)
    case None => 0
    case Some(s) => ScanNumber(s)
  }

  function ScanNumber(s: string): int {
    var signed := s != "" && (s[0] == '-' || s[0] == '+');
    var value: int := DecimalValue(LeadingDigits(if signed then s[1..] else s));
    var number: int := if signed && s[0] == '-' then -value else value;
    if -MAX_INT64 - 1 <= number <= MAX_INT64 then number else 0
  }

  /** What follows the last dot, if there is one. */
  function Extension(name: string): Option<string> {
    if name == "" then None
    else if name[|name| - 1] == '.' then Some("")
    else
      match Extension(name[..|name| - 1])
      case None => None
      case Some(rest) => Some(rest + [name[|name| - 1]])
  }

  /** extractBinlogNumber: 0 for a name without a dot or with nothing behind it. */
  function FileNumber(name: string): int {
    match Extension(name)
    case None => 0
    case Some(text) => if text == "" then 0 else ScanInt(text)
  }

  // ---------------------------------------------------------------- comparing

  /** The order of Go strings. */
  predicate TextLess(a: string, b: string) {
    if b == "" then false
    else if a == "" then true
    else if a[0] != b[0] then a[0] < b[0]
    else TextLess(a[1..], b[1..])
  }

  /** compareBinlogFiles. */
  function CompareFiles(a: string, b: string): int {
    if a == b then 0
    else if FileNumber(a) < FileNumber(b) then -1
    else if FileNumber(a) > FileNumber(b) then 1
    else if TextLess(a, b) then -1
    else 1
  }

  /** Compare, on positions that have been parsed. */
  function Compare(a: Position, b: Position): int {
    var files := CompareFiles(a.file, b.file);
    if files != 0 then files
    else if a.pos < b.pos then -1
    else if a.pos > b.pos then 1
    else 0
  }

  lemma {:induction false} TextOrder(a: string, b: string)
    ensures a == b ==> !TextLess(a, b)
    ensures a != b ==> TextLess(a, b) != TextLess(b, a)
  {
    if a != "" && b != "" {
      TextOrder(a[1..], b[1..]);
      assert a == [a[0]] + a[1..] && b == [b[0]] + b[1..];
    }
  }

  lemma {:induction false} TextTransitive(a: string, b: string, c: string)
    requires TextLess(a, b) && TextLess(b, c)
    ensures TextLess(a, c)
  {
    if a != "" && a[0] == b[0] == c[0] {
      TextTransitive(a[1..], b[1..], c[1..]);
    }
  }

  /** The order of the parts, in the order in which they count. */
  predicate Before(a: Position, b: Position) {
    || FileNumber(a.file) < FileNumber(b.file)
    || (FileNumber(a.file) == FileNumber(b.file) && TextLess(a.file, b.file))
    || (a.file == b.file && a.pos < b.pos)
  }

  /** Compare is the lexicographic order on number, name and offset. */
  lemma CompareIsLexicographic(a: Position, b: Position)
    ensures Compare(a, b) == if Before(a, b) then -1 else if a == b then 0 else 1
  {
    hide FileNumber;
    TextOrder(a.file, b.file);
  }

  /** It is a total order: equal only on equal positions, the opposite the other way round, and transitive. */
  lemma CompareIsTotalOrder(a: Position, b: Position, c: Position)
    ensures Compare(a, b) == 0 <==> a == b
    ensures Compare(b, a) == -Compare(a, b)
    ensures Compare(a, b) <= 0 && Compare(b, c) <= 0 ==> Compare(a, c) <= 0
  {
    hide FileNumber, TextLess;
    TextOrder(a.file, b.file);
    TextOrder(b.file, c.file);
    TextOrder(a.file, c.file);
    if TextLess(a.file, b.file) && TextLess(b.file, c.file) {
      TextTransitive(a.file, b.file, c.file);
    }
  }

  lemma {:induction false} ExtensionBehindDot(base: string, digits: string)
    requires '.' !in digits
    ensures Extension(base + "." + digits) == Some(digits)
    decreases |digits|
  {
    var name := base + "." + digits;
    if digits == "" {
      assert name[|name| - 1] == '.';
    } else {
      var n := |digits| - 1;
      assert name[|name| - 1] == digits[n] && name[..|name| - 1] == base + "." + digits[..n];
      ExtensionBehindDot(base, digits[..n]);
      assert digits[..n] + [digits[n]] == digits;
    }
  }

  lemma {:induction false} AllDigitsLead(digits: string)
    requires AreDigits(digits)
    ensures LeadingDigits(digits) == digits
    decreases |digits|
  {
    if digits != "" {
      AllDigitsLead(digits[1..]);
      assert [digits[0]] + digits[1..] == digits;
    }
  }

  lemma NumberBehindDot(base: string, digits: string)
    requires digits != "" && AreDigits(digits) && DecimalValue(digits) <= MAX_INT64
    ensures FileNumber(base + "." + digits) == DecimalValue(digits)
  {
    ExtensionBehindDot(base, digits);
    AllDigitsLead(digits);
    hide Extension, DecimalValue, LeadingDigits;
    assert IsDigit(digits[0]) && !IsSpace(digits[0]);
    assert SkipSpace(digits) == Some(digits);
    hide SkipSpace, IsSpace;
    assert ScanInt(digits) == ScanNumber(digits) == DecimalValue(digits);
    hide ScanInt;
  }

  lemma {:induction false} NoExtension(name: string)
    requires '.' !in name
    ensures Extension(name) == None
    decreases |name|
  {
    if name != "" {
      NoExtension(name[..|name| - 1]);
    }
  }

  /** The number that a server gave a file is read from its name, however far it is padded; other names count as 0. */
  lemma NumberIsRead(base: string, width: nat, n: nat, name: string)
    requires n <= MAX_INT64 && '.' !in name
    ensures FileNumber(base + "." + (Zeros(width) + PrintDecimal(n))) == n && FileNumber(name) == 0
  {
    PrintedIsRead(width, n);
    NumberBehindDot(base, Zeros(width) + PrintDecimal(n));
    NoExtension(name);
    hide PrintDecimal, DecimalValue, ScanInt;
  }

  /**
   * Files of one server are ordered by their sequence numbers, however many digits these are
   * printed with: binlog.999999 comes before binlog.1000000.
   */
  lemma FilesInSequence(base: string, width: nat, m: nat, other: nat, n: nat)
    requires m < n <= MAX_INT64
    ensures CompareFiles(base + "." + (Zeros(width) + PrintDecimal(m)), base + "." + (Zeros(other) + PrintDecimal(n))) == -1
  {
    NumberIsRead(base, width, m, "");
    NumberIsRead(base, other, n, "");
    hide FileNumber, PrintDecimal;
  }

  /** Text comes before text where it is a proper part from the start or has the lesser character at the first difference. */
  lemma {:induction false} TextLessExactly(a: string, b: string)
    ensures TextLess(a, b) <==> (a < b || exists i | 0 <= i < |a| && i < |b| :: a[..i] == b[..i] && a[i] < b[i])
  {
    if a != "" && b != "" {
      if a[0] == b[0] {
        var c, d := a[1..], b[1..];
        TextLessExactly(c, d);
        assert a == [a[0]] + c && b == [a[0]] + d;
        if i :| 0 <= i < |c| && i < |d| && c[..i] == d[..i] && c[i] < d[i] {
          assert a[..i + 1] == [a[0]] + c[..i] && b[..i + 1] == [a[0]] + d[..i] && a[i + 1] < b[i + 1];
        }
        if i :| 0 <= i < |a| && i < |b| && a[..i] == b[..i] && a[i] < b[i] {
          assert i > 0;
          assert c[..i - 1] == a[..i][1..] && d[..i - 1] == b[..i][1..] && c[i - 1] < d[i - 1];
        }
      } else {
        assert a[..0] == b[..0];
        if i :| 0 <= i < |a| && i < |b| && a[..i] == b[..i] && a[i] < b[i] {
          assert i == 0 || a[..i][0] == b[..i][0];
        }
      }
    }
  }
}
