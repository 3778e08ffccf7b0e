/**
 * The few JavaScript string operations the core relies on: ASCII case
 * mapping, `Array.prototype.join`, `String.prototype.split` on one
 * character, and `parseInt` without a radix.
 */
module Text {
  import opened Types

  function LowerChar(c: char): char {
    if 'A' <= c <= 'Z' then (c as int + 32) as char else c
  }

  function UpperChar(c: char): char {
    if 'a' <= c <= 'z' then (c as int - 32) as char else c
  }

  /** `toLowerCase` restricted to ASCII letters. */
  function Lower(s: string): (r: string)
    ensures |r| == |s|
    ensures forall i :: 0 <= i < |s| ==> r[i] == LowerChar(s[i])
  {
    if s == [] then [] else [LowerChar(s[0])] + Lower(s[1..])
  }

  /** `toUpperCase` restricted to ASCII letters. */
  function Upper(s: string): (r: string)
    ensures |r| == |s|
    ensures forall i :: 0 <= i < |s| ==> r[i] == UpperChar(s[i])
  {
    if s == [] then [] else [UpperChar(s[0])] + Upper(s[1..])
  }

  /** `parts.join(sep)`. */
  function Join(parts: seq<string>, sep: string): string {
    if |parts| == 0 then ""
    else if |parts| == 1 then parts[0]
    else parts[0] + sep + Join(parts[1..], sep)
  }

  /** `s.split(sep)` for a one-character separator: always at least one part. */
  function Split(s: string, sep: char): (parts: seq<string>)
    ensures |parts| >= 1
  {
    if |s| == 0 then [""]
    else if s[0] == sep then [""] + Split(s[1..], sep)
    else
      var rest := Split(s[1..], sep);
      [[s[0]] + rest[0]] + rest[1..]
  }

  lemma {:induction false} SplitFree(s: string, sep: char)
    requires sep !in s
    ensures Split(s, sep) == [s]
  {
    if |s| > 0 {
      assert sep !in s[1..];
      SplitFree(s[1..], sep);
      assert [s[0]] + s[1..] == s;
    }
  }

  lemma {:induction false} SplitAt(a: string, sep: char, b: string)
    requires sep !in a
    ensures Split(a + [sep] + b, sep) == [a] + Split(b, sep)
  {
    if |a| == 0 {
      assert a + [sep] + b == [sep] + b;
      assert ([sep] + b)[1..] == b;
    } else {
      SplitAt(a[1..], sep, b);
      assert (a + [sep] + b)[1..] == a[1..] + [sep] + b;
      assert [a[0]] + a[1..] == a;
    }
  }

  /** Splitting undoes joining when no part contains the separator. */
  lemma {:induction false} SplitJoin(parts: seq<string>, sep: char)
    requires |parts| >= 1
    requires forall i :: 0 <= i < |parts| ==> sep !in parts[i]
    ensures Split(Join(parts, [sep]), sep) == parts
  {
    if |parts| == 1 {
      SplitFree(parts[0], sep);
    } else {
      SplitJoin(parts[1..], sep);
      SplitAt(parts[0], sep, Join(parts[1..], [sep]));
      assert [parts[0]] + parts[1..] == parts;
    }
  }

  /** The characters `parseInt` skips before the number (WhiteSpace and LineTerminator). */
  predicate IsJsSpace(c: char) {
    c == ' ' || c == '\t' || c == '\n' || c == '\r' || c == '\U{000B}' || c == '\U{000C}'
    || c == '\U{00A0}' || c == '\U{FEFF}' || c == '\U{1680}' || ('\U{2000}' <= c <= '\U{200A}')
    || c == '\U{2028}' || c == '\U{2029}' || c == '\U{202F}' || c == '\U{205F}' || c == '\U{3000}'
  }

  function TrimStart(s: string): (r: string)
    ensures |r| <= |s| && r == s[|s| - |r|..]
    ensures |r| > 0 ==> !IsJsSpace(r[0])
  {
    if |s| > 0 && IsJsSpace(s[0]) then TrimStart(s[1..]) else s
  }

  /** The value of `c` as a digit in `radix` (10 or 16), or -1 when it is none. */
  function DigitValue(c: char, radix: nat): int {
    if '0' <= c <= '9' && (c as int - '0' as int) < radix then c as int - '0' as int
    else if radix == 16 && 'a' <= c <= 'f' then c as int - 'a' as int + 10
    else if radix == 16 && 'A' <= c <= 'F' then c as int - 'A' as int + 10
    else -1
  }

  predicate IsDigit(c: char, radix: nat) {
    DigitValue(c, radix) >= 0
  }

  /** Length of the longest prefix of `s` made of digits of `radix`. */
  function DigitRun(s: string, radix: nat): (n: nat)
    ensures n <= |s|
    ensures forall i :: 0 <= i < n ==> IsDigit(s[i], radix)
    ensures n < |s| ==> !IsDigit(s[n], radix)
  {
    if |s| > 0 && IsDigit(s[0], radix) then 1 + DigitRun(s[1..], radix) else 0
  }

  /** The number a run of digits denotes, most significant first. */
  function DigitsValue(ds: string, radix: nat): nat
    requires forall i :: 0 <= i < |ds| ==> IsDigit(ds[i], radix)
  {
    if |ds| == 0 then 0
    else
      assert IsDigit(ds[|ds| - 1], radix);
      DigitsValue(ds[..|ds| - 1], radix) * radix + DigitValue(ds[|ds| - 1], radix)
  }

  /** What `parseInt` reads before the digits: the sign and the base. */
  datatype Numeral = Numeral(negative: bool, radix: nat, body: string)

  function ScanNumeral(s: string): (n: Numeral)
    ensures n.radix == 10 || n.radix == 16
  {
    var t := TrimStart(s);
    var negative := |t| > 0 && t[0] == '-';
    var u := if |t| > 0 && (t[0] == '-' || t[0] == '+') then t[1..] else t;
    var hex := |u| >= 2 && u[0] == '0' && (u[1] == 'x' || u[1] == 'X');
    Numeral(negative, if hex then 16 else 10, if hex then u[2..] else u)
  }

  /**
   * `parseInt(s)` with no radix: leading white space is skipped, one sign is
   * read, a "0x"/"0X" prefix switches to base 16, and the longest run of
   * digits is read. `None` stands for NaN: there is no digit to read.
   */
  function ParseInt(s: string): (r: Option<int>)
    ensures r.None? <==> (var n := ScanNumeral(s); |n.body| == 0 || !IsDigit(n.body[0], n.radix))
  {
    var n := ScanNumeral(s);
    var len := DigitRun(n.body, n.radix);
    if len == 0 then None
    else
      var magnitude: int := DigitsValue(n.body[..len], n.radix);
      Some(if n.negative then -magnitude else magnitude)
  }

  function DecimalDigit(d: nat): char
    requires d < 10
  {
    ('0' as int + d) as char
  }

  /** The zero-padded two-digit rendering of `n`, as in "07". */
  function TwoDigits(n: nat): (r: string)
    requires n < 100
    ensures |r| == 2 && forall i :: 0 <= i < 2 ==> IsDigit(r[i], 10)
  {
    [DecimalDigit(n / 10), DecimalDigit(n % 10)]
  }

  lemma {:induction false} ParseDecimal(ds: string)
    requires |ds| > 0
    requires forall i :: 0 <= i < |ds| ==> IsDigit(ds[i], 10)
    ensures ParseInt(ds) == Some(DigitsValue(ds, 10))
  {
    assert !IsJsSpace(ds[0]);
    assert TrimStart(ds) == ds;
    assert ds[0] != '-' && ds[0] != '+';
    assert |ds| >= 2 ==> ds[1] != 'x' && ds[1] != 'X';
    assert ScanNumeral(ds) == Numeral(false, 10, ds);
    DigitRunAll(ds, 10);
    assert ds[..|ds|] == ds;
  }

  lemma {:induction false} DigitRunAll(ds: string, radix: nat)
    requires forall i :: 0 <= i < |ds| ==> IsDigit(ds[i], radix)
    ensures DigitRun(ds, radix) == |ds|
  {
    if |ds| > 0 {
      DigitRunAll(ds[1..], radix);
    }
  }

  lemma TwoDigitsValue(n: nat)
    requires n < 100
    ensures DigitsValue(TwoDigits(n), 10) == n
  {
    var ds := TwoDigits(n);
    var hi, lo := n / 10, n % 10;
    assert DigitValue(ds[0], 10) == hi;
    assert DigitValue(ds[1], 10) == lo;
    assert ds[..1] == [ds[0]];
    assert [ds[0]][..0] == [];
    assert DigitsValue(ds[..1], 10) == hi;
  }

  /** Reading back a two-digit field yields the number it was written from. */
  lemma ParseTwoDigits(n: nat)
    requires n < 100
    ensures ParseInt(TwoDigits(n)) == Some(n)
  {
    ParseDecimal(TwoDigits(n));
    TwoDigitsValue(n);
  }
}
