/** How a price is read from a cell that somebody typed: blanks, commas, currency signs and long fractions. */
module PriceReading {
  import opened Wrappers
  import opened PriceText

  // ----- Blanks ---------------------------------------------------------------------------------------------

  ghost predicate AllSpaces(s: string) {
    forall i :: 0 <= i < |s| ==> IsSpace(s[i])
  }

  // Blanks, tabs, line ends, no-break spaces and the byte order mark are spaces; no visible ASCII character is.
  lemma {:induction false} SpacesAre(c: char)
    ensures IsSpace(' ') && IsSpace('\t') && IsSpace('\r') && IsSpace('\n')
    ensures IsSpace('\U{00A0}') && IsSpace('\U{FEFF}')
    ensures '!' <= c <= '~' ==> !IsSpace(c)
  {
  }

  lemma {:induction false} TrimLeftIs(s: string) returns (a: nat)
    ensures a <= |s| && TrimLeft(s) == s[a..] && AllSpaces(s[..a]) && (a < |s| ==> !IsSpace(s[a]))
  {
    if s != [] && IsSpace(s[0]) {
      var b := TrimLeftIs(s[1..]);
      a := b + 1;
      assert forall i :: 0 < i < a ==> s[i] == s[1..][..b][i - 1];
    } else {
      a := 0;
    }
  }

  lemma {:induction false} TrimRightIs(s: string) returns (b: nat)
    ensures b <= |s| && TrimRight(s) == s[..b] && AllSpaces(s[b..]) && (b > 0 ==> !IsSpace(s[b - 1]))
  {
    if s != [] && IsSpace(s[|s| - 1]) {
      b := TrimRightIs(s[..|s| - 1]);
      assert forall i :: b <= i < |s| - 1 ==> s[i] == s[..|s| - 1][b..][i - b];
    } else {
      b := |s|;
    }
  }

  // Trimming takes all spaces off both ends and nothing else.
  lemma {:induction false} TrimIs(s: string) returns (a: nat, b: nat)
    ensures a <= b <= |s| && Trim(s) == s[a..b] && AllSpaces(s[..a]) && AllSpaces(s[b..])
    ensures a < b ==> !IsSpace(s[a]) && !IsSpace(s[b - 1])
  {
    a := TrimLeftIs(s);
    var c := TrimRightIs(s[a..]);
    b := a + c;
    assert s[a..][..c] == s[a..b] && s[a..][c..] == s[b..];
  }

  // ----- Commas and blanks inside ------------------------------------------------------------------------------

  lemma {:induction false} CompactAppend(a: string, b: string)
    ensures Compact(a + b) == Compact(a) + Compact(b)
  {
    if a == [] {
      assert a + b == b;
    } else {
      assert (a + b)[1..] == a[1..] + b;
      CompactAppend(a[1..], b);
    }
  }

  // Blanks vanish, a comma is a point, and every other character stays.
  lemma {:induction false} CompactOne(c: char)
    ensures Compact([c]) == if IsSpace(c) then [] else if c == ',' then ['.'] else [c]
  {
    assert [c][1..] == [];
  }

  // ----- Numbers ----------------------------------------------------------------------------------------------

  ghost predicate AllDigits(s: string) {
    forall i :: 0 <= i < |s| ==> '0' <= s[i] <= '9'
  }

  ghost predicate NoDigits(s: string) {
    forall i :: 0 <= i < |s| ==> !('0' <= s[i] <= '9')
  }

  // The number is over: what follows neither goes on with it nor adds a fraction to a whole one.
  ghost predicate Ends(fraction: string, after: string) {
    && (after != [] ==> !('0' <= after[0] <= '9'))
    && (fraction == [] && |after| > 1 && after[0] == '.' ==> !('0' <= after[1] <= '9'))
  }

  function Numeral(whole: string, fraction: string): string {
    whole + if fraction == [] then [] else ['.'] + fraction
  }

  lemma {:induction false} WholeRead(whole: string, after: string, negative: bool)
    requires whole != [] && AllDigits(whole) && Ends([], after)
    ensures ReadUnsigned(whole + after, negative) == Price(negative, NatOf(whole), [])
  {
    var s := whole + after;
    LeadingOf(whole, after);
    assert s[..|whole|] == whole;
    assert |whole| < |s| ==> s[|whole|] == after[0];
    assert |whole| + 1 < |s| ==> s[|whole| + 1] == after[1];
  }

  lemma {:induction false} FractionRead(whole: string, fraction: string, after: string, negative: bool)
    requires whole != [] && AllDigits(whole) && fraction != [] && AllDigits(fraction) && Ends(fraction, after)
    ensures ReadUnsigned(whole + (['.'] + (fraction + after)), negative) == Price(negative, NatOf(whole), fraction)
  {
    var rest := ['.'] + (fraction + after);
    var s := whole + rest;
    LeadingOf(whole, rest);
    assert s[..|whole|] == whole && s[|whole|] == '.' && s[|whole| + 1] == fraction[0];
    assert s[|whole| + 1..] == fraction + after;
    LeadingOf(fraction, after);
    assert (fraction + after)[..|fraction|] == fraction;
  }

  lemma {:induction false} UnsignedRead(whole: string, fraction: string, after: string, negative: bool)
    requires whole != [] && AllDigits(whole) && AllDigits(fraction) && Ends(fraction, after)
    ensures ReadUnsigned(Numeral(whole, fraction) + after, negative) == Price(negative, NatOf(whole), fraction)
  {
    if fraction == [] {
      assert Numeral(whole, fraction) + after == whole + after;
      WholeRead(whole, after, negative);
    } else {
      assert Numeral(whole, fraction) + after == whole + (['.'] + (fraction + after));
      FractionRead(whole, fraction, after, negative);
    }
  }

  // Text before the number is passed over.
  lemma {:induction false} TextIsSkipped(before: string, s: string)
    requires NoDigits(before) && (before != [] ==> before[|before| - 1] != '-')
    ensures ReadNumber(before + s) == ReadNumber(s)
  {
    if before == [] {
      assert before + s == s;
    } else {
      assert (before + s)[1..] == before[1..] + s && (before + s)[0] == before[0];
      assert |before| > 1 ==> (before + s)[1] == before[1];
      TextIsSkipped(before[1..], s);
    }
  }

  // Whatever stands around it, the first number of a text is read exactly as written, and a minus sign directly before
  // it makes it negative.
  lemma {:induction false} NumberIsRead(before: string, minus: bool, whole: string, fraction: string, after: string)
    requires NoDigits(before) && (before != [] ==> before[|before| - 1] != '-')
    requires whole != [] && AllDigits(whole) && AllDigits(fraction) && Ends(fraction, after)
    ensures var number := Numeral(whole, fraction) + after;
            ReadNumber(before + if minus then ['-'] + number else number) == Some(Price(minus, NatOf(whole), fraction))
  {
    var number := Numeral(whole, fraction) + after;
    assert number[0] == whole[0];
    UnsignedRead(whole, fraction, after, minus);
    if minus {
      assert (['-'] + number)[1..] == number;
      TextIsSkipped(before, ['-'] + number);
    } else {
      TextIsSkipped(before, number);
    }
  }

  // A text without a digit is no price.
  lemma {:induction false} NothingToRead(s: string)
    requires NoDigits(s)
    ensures ReadNumber(s).None?
  {
    if s != [] {
      NothingToRead(s[1..]);
    }
  }

  // ----- Hundredths ---------------------------------------------------------------------------------------------

  lemma {:induction false} NatOfThree(a: char, b: char, c: char)
    requires AllDigits([a, b, c])
    ensures NatOf([a]) == DigitValue(a) && NatOf([a, b]) == 10 * DigitValue(a) + DigitValue(b)
    ensures NatOf([a, b, c]) == 100 * DigitValue(a) + 10 * DigitValue(b) + DigitValue(c)
    ensures 0 <= DigitValue(a) <= 9 && 0 <= DigitValue(b) <= 9 && 0 <= DigitValue(c) <= 9
  {
    assert [a][..0] == [] && [a, b][..1] == [a] && [a, b, c][..2] == [a, b];
    assert NatOf([a]) == DigitValue(a);
    assert NatOf([a, b]) == 10 * NatOf([a]) + DigitValue(b);
  }

  // A price is kept in hundredths: the first two digits of the fraction, missing ones being zero, rounded by the third.
  lemma {:induction false} CentsRound(p: Price)
    requires AllDigits(p.fraction)
    ensures var size := if p.negative then -Cents(p) else Cents(p);
            && (|p.fraction| == 0 ==> size == 100 * p.whole)
            && (|p.fraction| == 1 ==> size == 100 * p.whole + 10 * NatOf(p.fraction))
            && (|p.fraction| == 2 ==> size == 100 * p.whole + NatOf(p.fraction))
            && (|p.fraction| >= 3 ==> size == 100 * p.whole + (NatOf(p.fraction[..3]) + 5) / 10)
  {
    var f := p.fraction;
    if |f| == 1 {
      assert f == [f[0]];
      NatOfThree(f[0], f[0], f[0]);
    } else if |f| == 2 {
      assert f == [f[0], f[1]];
      NatOfThree(f[0], f[1], f[1]);
    } else if |f| >= 3 {
      assert f[..3] == [f[0], f[1], f[2]];
      NatOfThree(f[0], f[1], f[2]);
    }
  }

  // ----- Lines ----------------------------------------------------------------------------------------------------

  lemma {:induction false} SplitAtEnd(line: string, current: string, rest: string)
    requires '\n' !in line && (line == [] && current != [] ==> current[|current| - 1] != '\r')
    requires line != [] ==> line[|line| - 1] != '\r'
    ensures SplitRest(line + "\r\n" + rest, current) == [current + line] + SplitRest(rest, [])
  {
    var s := line + "\r\n" + rest;
    if line == [] {
      assert s == "\r\n" + rest && s[2..] == rest && current + line == current;
    } else {
      assert s[0] == line[0] && s[1..] == line[1..] + "\r\n" + rest;
      assert s[1] == if |line| > 1 then line[1] else '\r';
      assert |line| > 1 ==> line[1..][|line| - 2] == line[|line| - 1];
      SplitAtEnd(line[1..], current + [line[0]], rest);
      assert current + [line[0]] + line[1..] == current + line;
    }
  }

  // A carriage return before the line feed belongs to the line end.
  lemma {:induction false} SplitWindowsLine(line: string, rest: string)
    requires '\n' !in line && (line != [] ==> line[|line| - 1] != '\r')
    ensures SplitLines(line + "\r\n" + rest) == [line] + SplitLines(rest)
  {
    SplitAtEnd(line, [], rest);
    assert [] + line == line;
  }
}
