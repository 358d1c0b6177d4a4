/** String helpers the repository takes from its platform: splitting on a
    separator, joining, and printing and reading decimal numbers. */
module Text {

  /** `parts.join(separator)`. */
  function Join(parts: seq<string>, separator: string): string {
    if |parts| == 0 then ""
    else if |parts| == 1 then parts[0]
    else parts[0] + separator + Join(parts[1..], separator)
  }

  /** `text.split('\n')`: always at least one part. */
  function SplitLines(text: string): (parts: seq<string>)
    ensures |parts| >= 1
  {
    if text == "" then [""]
    else if text[0] == '\n' then [""] + SplitLines(text[1..])
    else
      var rest := SplitLines(text[1..]);
      [[text[0]] + rest[0]] + rest[1..]
  }

  predicate OneLine(line: string) {
    '\n' !in line
  }

  lemma {:induction false} SplitLinesAreSingle(text: string)
    ensures forall part :: part in SplitLines(text) ==> OneLine(part)
  {
    if text != "" {
      SplitLinesAreSingle(text[1..]);
      var rest := SplitLines(text[1..]);
      assert rest[0] in rest;
    }
  }

  lemma {:induction false} SplitFirstLine(line: string, rest: string)
    requires OneLine(line)
    ensures SplitLines(line + "\n" + rest) == [line] + SplitLines(rest)
  {
    var whole := line + "\n" + rest;
    if line == "" {
      assert whole[1..] == rest;
    } else {
      assert whole[1..] == line[1..] + "\n" + rest;
      SplitFirstLine(line[1..], rest);
      assert line == [line[0]] + line[1..];
    }
  }

  lemma {:induction false} SplitOneLine(line: string)
    requires OneLine(line)
    ensures SplitLines(line) == [line]
  {
    if line != "" {
      SplitOneLine(line[1..]);
      assert line == [line[0]] + line[1..];
    }
  }

  /** Splitting undoes joining, as long as no line holds a line break. */
  lemma {:induction false} SplitUndoesJoin(parts: seq<string>)
    requires parts != []
    requires forall part :: part in parts ==> OneLine(part)
    ensures SplitLines(Join(parts, "\n")) == parts
  {
    if |parts| == 1 {
      SplitOneLine(parts[0]);
    } else {
      SplitUndoesJoin(parts[1..]);
      SplitFirstLine(parts[0], Join(parts[1..], "\n"));
    }
  }

  /** And joining undoes splitting, for every text. */
  lemma {:induction false} JoinUndoesSplit(text: string)
    ensures Join(SplitLines(text), "\n") == text
  {
    if text != "" {
      JoinUndoesSplit(text[1..]);
      var rest := SplitLines(text[1..]);
      if text[0] != '\n' {
        assert Join([[text[0]] + rest[0]] + rest[1..], "\n") == [text[0]] + Join(rest, "\n");
      }
    }
  }

  lemma {:induction false} JoinSplitsLast(parts: seq<string>, last: string, separator: string)
    requires parts != []
    ensures Join(parts + [last], separator) == Join(parts, separator) + separator + last
  {
    if |parts| > 1 {
      JoinSplitsLast(parts[1..], last, separator);
      assert (parts + [last])[1..] == parts[1..] + [last];
    }
  }

  predicate EndsInBreak(text: string) {
    text != "" && text[|text| - 1] == '\n'
  }

  /** The lengths of the lines, each with `extra` more. */
  function Lengths(lines: seq<string>, extra: nat): nat {
    if lines == [] then 0 else Lengths(lines[..|lines| - 1], extra) + |lines[|lines| - 1]| + extra
  }

  lemma {:induction false} LengthsFromFront(lines: seq<string>, extra: nat)
    requires lines != []
    ensures Lengths(lines, extra) == |lines[0]| + extra + Lengths(lines[1..], extra)
  {
    if |lines| > 1 {
      var init := lines[..|lines| - 1];
      LengthsFromFront(init, extra);
      assert lines[1..][..|lines| - 2] == init[1..];
    }
  }

  lemma {:induction false} JoinLength(lines: seq<string>, separator: string)
    requires lines != []
    ensures |Join(lines, separator)| + |separator| == Lengths(lines, |separator|)
  {
    LengthsFromFront(lines, |separator|);
    if |lines| > 1 {
      JoinLength(lines[1..], separator);
    }
  }

  lemma Regrouped(a: string, b: string, c: string)
    ensures a + (b + c) == a + b + c
  {
  }

  lemma DropsPrefix(prefix: string, rest: string)
    ensures prefix <= prefix + rest && (prefix + rest)[|prefix|..] == rest
  {
  }

  lemma SameAfterPrefix(a: string, b: string, prefix: string)
    requires prefix <= a && prefix <= b && a[|prefix|..] == b[|prefix|..]
    ensures a == b
  {
    assert a == prefix + a[|prefix|..] && b == prefix + b[|prefix|..];
  }

  predicate StartsWith(text: string, prefix: string) {
    prefix <= text
  }

  // ----- decimal numbers

  const DIGITS: string := "0123456789"

  predicate IsDigit(c: char) {
    '0' <= c <= '9'
  }

  predicate AllDigits(s: string) {
    forall i :: 0 <= i < |s| ==> IsDigit(s[i])
  }

  /** How a number prints. */
  function Decimal(n: nat): (s: string)
    ensures s != "" && AllDigits(s)
    ensures if n == 0 then s == "0" else s[0] != '0'
  {
    if n < 10 then [DIGITS[n]] else Decimal(n / 10) + [DIGITS[n % 10]]
  }

  /** The number a run of digits denotes. */
  function Number(digits: string): nat
    requires AllDigits(digits)
  {
    if digits == "" then 0
    else 10 * Number(digits[..|digits| - 1]) + (digits[|digits| - 1] as int - '0' as int)
  }

  lemma {:induction false} NumberOfDecimal(n: nat)
    ensures Number(Decimal(n)) == n
  {
    if n >= 10 {
      NumberOfDecimal(n / 10);
      var s := Decimal(n);
      assert s[..|s| - 1] == Decimal(n / 10);
    }
  }

  /** How many digits `s` opens with. */
  function DigitRun(s: string): (n: nat)
    ensures n <= |s| && AllDigits(s[..n])
    ensures n < |s| ==> !IsDigit(s[n])
  {
    if s == "" || !IsDigit(s[0]) then 0
    else 1 + DigitRun(s[1..])
  }

  lemma {:induction false} DigitRunStops(digits: string, rest: string)
    requires AllDigits(digits)
    requires rest == "" || !IsDigit(rest[0])
    ensures DigitRun(digits + rest) == |digits|
  {
    if digits == "" {
      assert digits + rest == rest;
    } else {
      assert (digits + rest)[1..] == digits[1..] + rest;
      DigitRunStops(digits[1..], rest);
    }
  }
}
