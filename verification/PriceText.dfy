/** Text helpers of the price sheets: trimming, splitting into lines, and reading and writing prices. */
module PriceText {
  import opened Wrappers
  import opened Csv

  // ----- White space and lines ------------------------------------------------------------------

  predicate IsSpace(c: char) {
    || '\U{0009}' <= c <= '\U{000D}' || c == ' ' || c == '\U{00A0}' || c == '\U{1680}'
    || '\U{2000}' <= c <= '\U{200A}' || c == '\U{2028}' || c == '\U{2029}' || c == '\U{202F}'
    || c == '\U{205F}' || c == '\U{3000}' || c == '\U{FEFF}'
  }

  function TrimLeft(s: string): string {
    if s != [] && IsSpace(s[0]) then TrimLeft(s[1..]) else s
  }

  function TrimRight(s: string): string {
    if s != [] && IsSpace(s[|s| - 1]) then TrimRight(s[..|s| - 1]) else s
  }

  function Trim(s: string): string {
    TrimRight(TrimLeft(s))
  }

  // text.split(/\r?\n/), given the line read so far
  function SplitRest(rest: string, current: string): seq<string> {
    if rest == [] then [current]
    else if rest[0] == '\n' then [current] + SplitRest(rest[1..], [])
    else if rest[0] == '\r' && |rest| > 1 && rest[1] == '\n' then [current] + SplitRest(rest[2..], [])
    else SplitRest(rest[1..], current + [rest[0]])
  }

  function SplitLines(text: string): seq<string> {
    SplitRest(text, [])
  }

  function NonBlank(lines: seq<string>): seq<string> {
    if lines == [] then []
    else (if Trim(lines[0]) != [] then [lines[0]] else []) + NonBlank(lines[1..])
  }

  // A line that survives being written, followed by a line feed, and split again.
  predicate OneLine(line: string) {
    '\n' !in line && (line != [] ==> line[|line| - 1] != '\r')
  }

  lemma {:induction false} SplitOneLine(line: string, current: string, rest: string)
    requires OneLine(line) && (line == [] && current != [] ==> current[|current| - 1] != '\r')
    requires rest == [] || rest[0] == '\n'
    ensures SplitRest(line + rest, current) == SplitRest(rest, current + line)
  {
    if line == [] {
      assert line + rest == rest && current + line == current;
    } else {
      var next := current + [line[0]];
      assert (line + rest)[0] == line[0] && (line + rest)[1..] == line[1..] + rest;
      assert line[0] == '\r' ==> |line| > 1 && (line + rest)[1] == line[1] != '\n';
      assert |line| > 1 ==> line[1..][|line| - 2] == line[|line| - 1];
      SplitOneLine(line[1..], next, rest);
      assert next + line[1..] == current + line;
    }
  }

  // Lines joined by line feeds are split into the same lines again.
  lemma {:induction false} SplitJoined(lines: seq<string>)
    requires lines != [] && forall i :: 0 <= i < |lines| ==> OneLine(lines[i])
    ensures SplitLines(Join(lines, '\n')) == lines
  {
    if |lines| == 1 {
      SplitOneLine(lines[0], [], []);
      assert lines[0] + [] == lines[0] && [] + lines[0] == lines[0];
    } else {
      var rest := ['\n'] + Join(lines[1..], '\n');
      assert Join(lines, '\n') == lines[0] + rest;
      SplitOneLine(lines[0], [], rest);
      assert [] + lines[0] == lines[0];
      assert rest[1..] == Join(lines[1..], '\n');
      SplitJoined(lines[1..]);
    }
  }

  predicate NoSpace(s: string) {
    forall i :: 0 <= i < |s| ==> !IsSpace(s[i])
  }

  lemma {:induction false} TrimNothing(s: string)
    requires NoSpace(s)
    ensures Trim(s) == s
  {
  }

  predicate HasText(s: string) {
    exists i :: 0 <= i < |s| && !IsSpace(s[i])
  }

  lemma {:induction false} TrimLeftKeeps(s: string)
    requires HasText(s)
    ensures HasText(TrimLeft(s))
  {
    var i :| 0 <= i < |s| && !IsSpace(s[i]);
    if IsSpace(s[0]) {
      assert !IsSpace(s[1..][i - 1]);
      TrimLeftKeeps(s[1..]);
    }
  }

  lemma {:induction false} TrimRightKeeps(s: string)
    requires HasText(s)
    ensures TrimRight(s) != []
  {
    var i :| 0 <= i < |s| && !IsSpace(s[i]);
    if IsSpace(s[|s| - 1]) {
      assert !IsSpace(s[..|s| - 1][i]);
      TrimRightKeeps(s[..|s| - 1]);
    }
  }

  lemma {:induction false} TrimKeepsText(s: string)
    requires HasText(s)
    ensures Trim(s) != []
  {
    TrimLeftKeeps(s);
    TrimRightKeeps(TrimLeft(s));
  }

  // ----- Prices -----------------------------------------------------------------------------------

  predicate IsDigit(c: char) {
    '0' <= c <= '9'
  }

  function Digit(d: nat): char
    requires d < 10
  {
    "0123456789"[d]
  }

  function DigitValue(c: char): nat {
    if IsDigit(c) then c as int - '0' as int else 0
  }

  function Digits(n: nat): (r: string)
    ensures r != [] && forall i :: 0 <= i < |r| ==> IsDigit(r[i])
  {
    if n < 10 then [Digit(n)] else Digits(n / 10) + [Digit(n % 10)]
  }

  function NatOf(digits: string): nat {
    if digits == [] then 0 else 10 * NatOf(digits[..|digits| - 1]) + DigitValue(digits[|digits| - 1])
  }

  // A price as a number, exactly as written.
  datatype Price = Price(negative: bool, whole: nat, fraction: string)

  predicate IsZero(p: Price) {
    p.whole == 0 && forall i :: 0 <= i < |p.fraction| ==> p.fraction[i] == '0'
  }

  function FractionDigit(p: Price, i: nat): nat {
    if i < |p.fraction| then DigitValue(p.fraction[i]) else 0
  }

  // price.toFixed(2), in hundredths
  function Cents(p: Price): int {
    var cents := 100 * p.whole + 10 * FractionDigit(p, 0) + FractionDigit(p, 1)
                 + if FractionDigit(p, 2) >= 5 then 1 else 0;
    if p.negative then -cents else cents
  }

  function Amount(cents: nat): string {
    Digits(cents / 100) + ['.', Digit(cents / 10 % 10), Digit(cents % 10)]
  }

  // The stored text of a price column.
  function Money(cents: int): string {
    if cents < 0 then "-" + Amount(-cents) else Amount(cents)
  }

  function LeadingDigits(s: string): (r: nat)
    ensures r <= |s|
    ensures forall i :: 0 <= i < r ==> IsDigit(s[i])
    ensures r < |s| ==> !IsDigit(s[r])
  {
    if s == [] || !IsDigit(s[0]) then 0 else 1 + LeadingDigits(s[1..])
  }

  // Digits, optionally followed by a point and more digits.
  function ReadUnsigned(s: string, negative: bool): Price {
    var n := LeadingDigits(s);
    var whole := NatOf(s[..n]);
    if n + 1 < |s| && s[n] == '.' && IsDigit(s[n + 1])
    then Price(negative, whole, s[n + 1..][..LeadingDigits(s[n + 1..])])
    else Price(negative, whole, [])
  }

  // The first match of /-?\d+(?:\.\d+)?/
  function ReadNumber(s: string): Option<Price> {
    if s == [] then None
    else if IsDigit(s[0]) then Some(ReadUnsigned(s, false))
    else if s[0] == '-' && |s| > 1 && IsDigit(s[1]) then Some(ReadUnsigned(s[1..], true))
    else ReadNumber(s[1..])
  }

  // Without white space, and with points for commas.
  function Compact(s: string): string {
    if s == [] then []
    else (if IsSpace(s[0]) then [] else if s[0] == ',' then ['.'] else [s[0]]) + Compact(s[1..])
  }

  function ParsePrice(value: string): Option<Price> {
    if Trim(value) == [] then None else ReadNumber(Compact(Trim(value)))
  }

  lemma {:induction false} DigitsValue(n: nat)
    ensures NatOf(Digits(n)) == n
  {
    if n >= 10 {
      DigitsValue(n / 10);
      assert Digits(n)[..|Digits(n)| - 1] == Digits(n / 10);
    } else {
      assert Digits(n)[..0] == [];
    }
  }

  lemma {:induction false} CompactNothing(s: string)
    requires NoSpace(s) && ',' !in s
    ensures Compact(s) == s
  {
    if s != [] {
      assert forall i :: 0 <= i < |s| - 1 ==> s[1..][i] == s[i + 1];
      CompactNothing(s[1..]);
    }
  }

  lemma {:induction false} LeadingOf(digits: string, rest: string)
    requires forall i :: 0 <= i < |digits| ==> IsDigit(digits[i])
    requires rest == [] || !IsDigit(rest[0])
    ensures LeadingDigits(digits + rest) == |digits|
  {
    assert forall i :: 0 <= i < |digits| ==> (digits + rest)[i] == digits[i];
    assert rest != [] ==> (digits + rest)[|digits|] == rest[0];
  }

  // The price that a stored text stands for.
  function PriceOf(cents: int): Price {
    var size := if cents < 0 then -cents else cents;
    Price(cents < 0, size / 100, [Digit(size / 10 % 10), Digit(size % 10)])
  }

  lemma {:induction false} UnsignedAmount(cents: nat, negative: bool)
    ensures ReadUnsigned(Amount(cents), negative)
         == Price(negative, cents / 100, [Digit(cents / 10 % 10), Digit(cents % 10)])
    ensures IsDigit(Amount(cents)[0])
  {
    var digits, tail := Digits(cents / 100), ['.', Digit(cents / 10 % 10), Digit(cents % 10)];
    LeadingOf(digits, tail);
    DigitsValue(cents / 100);
    assert Amount(cents)[..|digits|] == digits;
    assert Amount(cents)[0] == digits[0];
    var fraction := Amount(cents)[|digits| + 1..];
    assert fraction == tail[1..];
    LeadingOf(fraction, []);
    assert fraction + [] == fraction;
  }

  predicate MoneyChar(c: char) {
    IsDigit(c) || c == '.' || c == '-'
  }

  lemma {:induction false} AmountChars(cents: nat)
    ensures Amount(cents) != [] && forall i :: 0 <= i < |Amount(cents)| ==> MoneyChar(Amount(cents)[i])
  {
  }

  lemma {:induction false} MoneyChars(cents: int)
    ensures Money(cents) != [] && forall i :: 0 <= i < |Money(cents)| ==> MoneyChar(Money(cents)[i])
  {
    AmountChars(if cents < 0 then -cents else cents);
  }

  lemma {:induction false} MoneyIsRead(cents: int)
    ensures ParsePrice(Money(cents)) == Some(PriceOf(cents))
  {
    var text, size := Money(cents), if cents < 0 then -cents else cents;
    MoneyChars(cents);
    TrimNothing(text);
    CompactNothing(text);
    UnsignedAmount(size, cents < 0);
    if cents < 0 {
      assert text[1..] == Amount(size) && text[1] == Amount(size)[0];
    }
  }

  lemma {:induction false} TwoDigits(size: nat)
    ensures size == 100 * (size / 100) + 10 * (size / 10 % 10) + size % 10
    ensures DigitValue(Digit(size / 10 % 10)) == size / 10 % 10 && DigitValue(Digit(size % 10)) == size % 10
  {
  }

  // A stored price is read back exactly; it reads as zero only when it is.
  lemma {:induction false} MoneyRoundTrip(cents: int)
    ensures ParsePrice(Money(cents)).Some?
    ensures var p := ParsePrice(Money(cents)).value;
            Cents(p) == cents && (IsZero(p) <==> cents == 0) && (p.negative <==> cents < 0)
  {
    MoneyIsRead(cents);
    var size := if cents < 0 then -cents else cents;
    TwoDigits(size);
    var p := PriceOf(cents);
    assert FractionDigit(p, 0) == size / 10 % 10 && FractionDigit(p, 1) == size % 10 && FractionDigit(p, 2) == 0;
    assert IsZero(p) <==> p.whole == 0 && p.fraction[0] == '0' && p.fraction[1] == '0';
    assert p.fraction[0] == '0' <==> size / 10 % 10 == 0;
    assert p.fraction[1] == '0' <==> size % 10 == 0;
  }
}
