/** Strings as the map rotation code sees them: ASCII case-insensitive
    comparison (Q_stricmp), whitespace-separated words, and the decimal
    integers written with "%d" and read back with atoi. */
module Text {

  /** ASCII lower-casing, the folding Q_stricmp applies to each character. */
  function Lower(c: char): char
  {
    if 'A' <= c <= 'Z' then (c as int + 32) as char else c
  }

  /** Q_stricmp(a, b) == 0: equal length and equal after folding. */
  predicate IEq(a: string, b: string)
  {
    |a| == |b| && forall i :: 0 <= i < |a| ==> Lower(a[i]) == Lower(b[i])
  }

  lemma IEqSymmetric(a: string, b: string)
    ensures IEq(a, b) <==> IEq(b, a)
  {
  }

  lemma IEqTransitive(a: string, b: string, c: string)
    requires IEq(a, b) && IEq(b, c)
    ensures IEq(a, c)
  {
  }

  /** Only the empty string folds to the empty string. */
  lemma IEqEmpty(a: string)
    ensures IEq(a, "") <==> a == ""
  {
  }

  // ---------------------------------------------------------------------
  // Words: the tokens COM_Parse yields from a string of digits and blanks

  predicate IsSpace(c: char) { c <= ' ' }

  predicate NoSpace(w: string)
  {
    forall i :: 0 <= i < |w| ==> !IsSpace(w[i])
  }

  /** Length of the leading run of non-blank characters. */
  function WordEnd(s: string): (n: nat)
    ensures n <= |s|
    ensures NoSpace(s[..n])
    ensures n < |s| ==> IsSpace(s[n])
  {
    if s == [] || IsSpace(s[0]) then 0
    else
      var k := WordEnd(s[1..]);
      assert s[..k + 1] == [s[0]] + s[1..][..k];
      k + 1
  }

  /** The whitespace-separated words of s, in order. */
  function Words(s: string): (ws: seq<string>)
    ensures forall i :: 0 <= i < |ws| ==> ws[i] != [] && NoSpace(ws[i])
    decreases |s|
  {
    if s == [] then []
    else if IsSpace(s[0]) then Words(s[1..])
    else
      var n := WordEnd(s);
      [s[..n]] + Words(s[n..])
  }

  /** A string of n characters holds at most (n + 1) / 2 words. */
  lemma {:induction false} WordsCount(s: string)
    ensures 2 * |Words(s)| <= |s| + 1
    decreases |s|
  {
    if s == [] {
    } else if IsSpace(s[0]) {
      WordsCount(s[1..]);
    } else {
      var n := WordEnd(s);
      WordsCount(s[n..]);
      if n < |s| {
        assert IsSpace(s[n]);
        assert Words(s[n..]) == Words(s[n + 1..]);
        WordsCount(s[n + 1..]);
      }
    }
  }

  /** A word followed by a blank is split off as the first word. */
  lemma WordsCons(w: string, rest: string)
    requires w != [] && NoSpace(w)
    ensures Words(w + " " + rest) == [w] + Words(rest)
  {
    var s := w + (" " + rest);
    assert s == w + " " + rest;
    WordEndOf(w, " " + rest);
    assert s[0] == w[0] && !IsSpace(s[0]);
    assert s[..|w|] == w;
    assert s[|w|..] == " " + rest;
    assert Words(s) == [w] + Words(" " + rest);
    assert (" " + rest)[1..] == rest;
    assert Words(" " + rest) == Words(rest);
  }

  lemma {:induction false} WordEndOf(w: string, rest: string)
    requires NoSpace(w)
    requires rest != [] && IsSpace(rest[0])
    ensures WordEnd(w + rest) == |w|
    decreases |w|
  {
    if w == [] {
    } else {
      assert (w + rest)[1..] == w[1..] + rest;
      WordEndOf(w[1..], rest);
    }
  }

  /** Each word followed by one blank: what appending the words one by one,
      each with a trailing " ", builds. */
  function Spaced(ws: seq<string>): string
  {
    if ws == [] then "" else ws[0] + " " + Spaced(ws[1..])
  }

  lemma {:induction false} SpacedAppend(ws: seq<string>, w: string)
    ensures Spaced(ws + [w]) == Spaced(ws) + w + " "
  {
    if ws != [] {
      assert (ws + [w])[1..] == ws[1..] + [w];
      SpacedAppend(ws[1..], w);
    } else {
      assert [w][1..] == [];
    }
  }

  /** Splitting a spaced-out list of words gives the words back. */
  lemma {:induction false} WordsSpaced(ws: seq<string>, rest: string)
    requires forall i :: 0 <= i < |ws| ==> ws[i] != [] && NoSpace(ws[i])
    ensures Words(Spaced(ws) + rest) == ws + Words(rest)
  {
    if ws != [] {
      WordsSpaced(ws[1..], rest);
      assert Spaced(ws) + rest == ws[0] + " " + (Spaced(ws[1..]) + rest);
      WordsCons(ws[0], Spaced(ws[1..]) + rest);
      calc {
        Words(Spaced(ws) + rest);
        [ws[0]] + Words(Spaced(ws[1..]) + rest);
        [ws[0]] + (ws[1..] + Words(rest));
        { assert ws == [ws[0]] + ws[1..]; }
        ws + Words(rest);
      }
    } else {
      assert Spaced(ws) + rest == rest;
    }
  }

  // ---------------------------------------------------------------------
  // Decimal integers: va("%d", n) and atoi

  predicate IsDigit(c: char) { '0' <= c <= '9' }

  function DigitChar(d: nat): char
    requires d < 10
  {
    ('0' as int + d) as char
  }

  function DigitOf(c: char): nat
    requires IsDigit(c)
  {
    c as int - '0' as int
  }

  /** The decimal form of a natural number, without leading zeros. */
  function Digits(n: nat): (s: string)
    ensures s != []
    ensures forall i :: 0 <= i < |s| ==> IsDigit(s[i])
  {
    if n < 10 then [DigitChar(n)] else Digits(n / 10) + [DigitChar(n % 10)]
  }

  /** "%d": a minus sign for negative numbers, then the digits. */
  function Itoa(n: int): (s: string)
    ensures s != [] && NoSpace(s)
  {
    if n < 0 then "-" + Digits(-n) else Digits(n)
  }

  /** The longest prefix of s made of decimal digits. */
  function LeadingDigits(s: string): (d: string)
    ensures |d| <= |s| && d == s[..|d|]
    ensures forall i :: 0 <= i < |d| ==> IsDigit(d[i])
  {
    if s == [] || !IsDigit(s[0]) then []
    else
      var t := LeadingDigits(s[1..]);
      assert [s[0]] + t == s[..|t| + 1];
      [s[0]] + t
  }

  /** The value of a string of decimal digits, read left to right. */
  function DigitsValue(d: string): nat
    requires forall i :: 0 <= i < |d| ==> IsDigit(d[i])
  {
    if d == [] then 0 else DigitsValue(d[..|d| - 1]) * 10 + DigitOf(d[|d| - 1])
  }

  /** atoi on a word: an optional sign, then the leading digits; anything
      after the first non-digit is ignored. */
  function Atoi(s: string): int
  {
    if s != [] && s[0] == '-' then 0 - DigitsValue(LeadingDigits(s[1..])) as int
    else if s != [] && s[0] == '+' then DigitsValue(LeadingDigits(s[1..]))
    else DigitsValue(LeadingDigits(s))
  }

  lemma {:induction false} LeadingDigitsOfDigits(d: string)
    requires forall i :: 0 <= i < |d| ==> IsDigit(d[i])
    ensures LeadingDigits(d) == d
  {
    if d != [] {
      LeadingDigitsOfDigits(d[1..]);
      assert [d[0]] + d[1..] == d;
    }
  }

  lemma {:induction false} DigitsValueOfDigits(n: nat)
    ensures DigitsValue(Digits(n)) == n
  {
    if n >= 10 {
      var s := Digits(n);
      assert s[..|s| - 1] == Digits(n / 10);
      DigitsValueOfDigits(n / 10);
    }
  }

  /** atoi reads back exactly what "%d" wrote. */
  lemma AtoiItoa(n: int)
    ensures Atoi(Itoa(n)) == n
  {
    if n < 0 {
      var d := Digits(-n);
      var s := "-" + d;
      assert s == Itoa(n);
      assert s[0] == '-' && s[1..] == d;
      LeadingDigitsOfDigits(d);
      DigitsValueOfDigits(-n);
      assert Atoi(s) == 0 - DigitsValue(d) as int;
    } else {
      var d := Digits(n);
      assert d == Itoa(n);
      assert IsDigit(d[0]);
      LeadingDigitsOfDigits(d);
      DigitsValueOfDigits(n);
      assert Atoi(d) == DigitsValue(d);
    }
  }
}
