/** ASCII text rewriting used for the display columns: single-character
    replacement (Python's `str.replace` with one-character arguments), title
    case (Python's `str.title` restricted to ASCII letters) and the decimal
    rendering of a natural number (`str(n)`). */
module Text {

  predicate IsUpper(c: char) { 'A' <= c <= 'Z' }
  predicate IsLower(c: char) { 'a' <= c <= 'z' }
  predicate IsLetter(c: char) { IsUpper(c) || IsLower(c) }
  predicate IsDigit(c: char) { '0' <= c <= '9' }

  function ToUpper(c: char): (u: char)
    ensures IsLetter(c) ==> IsUpper(u) && ToLower(u) == ToLower(c)
    ensures !IsLetter(c) ==> u == c
  {
    if IsLower(c) then (c as int - 32) as char else c
  }

  function ToLower(c: char): (l: char)
    ensures IsLetter(c) ==> IsLower(l)
    ensures !IsLetter(c) ==> l == c
  {
    if IsUpper(c) then (c as int + 32) as char else c
  }

  /** `s.replace(from, to)`: every occurrence of `from` becomes `to`, every
      other character stays where it was. */
  function Replace(s: string, from: char, to: char): (r: string)
    ensures |r| == |s|
    ensures forall i :: 0 <= i < |s| ==> r[i] == (if s[i] == from then to else s[i])
  {
    if s == [] then [] else [if s[0] == from then to else s[0]] + Replace(s[1..], from, to)
  }

  /** After a replacement with a different character, `from` no longer occurs. */
  lemma ReplaceRemovesAll(s: string, from: char, to: char)
    requires from != to
    ensures from !in Replace(s, from, to)
    ensures forall c :: c in s && c != from ==> c in Replace(s, from, to)
  {
    var r := Replace(s, from, to);
    forall c | c in s && c != from ensures c in r {
      var i :| 0 <= i < |s| && s[i] == c;
      assert r[i] == c;
    }
  }

  /** The character `str.title` puts at position `i` of `s`: a letter is
      upper-cased when it starts a word (it is first, or the character before
      it is not a letter) and lower-cased otherwise; any other character is
      kept. This is the reference definition the recursive `Title` is proved
      against. */
  function TitleCharAt(s: string, i: nat): char
    requires i < |s|
  {
    if !IsLetter(s[i]) then s[i]
    else if i > 0 && IsLetter(s[i - 1]) then ToLower(s[i])
    else ToUpper(s[i])
  }

  /** The left-to-right scan `str.title` performs; `inWord` says whether the
      previous character was a letter. */
  function TitleFrom(s: string, inWord: bool): (r: string)
    ensures |r| == |s|
  {
    if s == [] then []
    else
      var c := if !IsLetter(s[0]) then s[0] else if inWord then ToLower(s[0]) else ToUpper(s[0]);
      [c] + TitleFrom(s[1..], IsLetter(s[0]))
  }

  /** `str.title`: the same number of characters, rewritten by the
      word-start rule (`TitleSpec`). */
  function Title(s: string): (r: string)
    ensures |r| == |s|
  {
    TitleFrom(s, false)
  }

  lemma {:induction false} TitleFromAt(s: string, inWord: bool, i: nat)
    requires i < |s|
    ensures |TitleFrom(s, inWord)| == |s|
    ensures TitleFrom(s, inWord)[i] ==
      if !IsLetter(s[i]) then s[i]
      else if (if i == 0 then inWord else IsLetter(s[i - 1])) then ToLower(s[i])
      else ToUpper(s[i])
  {
    if i == 0 {
      if |s| > 1 {
        TitleFromAt(s[1..], IsLetter(s[0]), 0);
      } else {
        assert TitleFrom(s[1..], IsLetter(s[0])) == [];
      }
    } else {
      TitleFromAt(s[1..], IsLetter(s[0]), i - 1);
      assert s[1..][i - 1] == s[i];
      assert i - 1 == 0 ==> s[i - 1] == s[0];
      assert i - 1 > 0 ==> s[1..][i - 2] == s[i - 1];
    }
  }

  /** `Title` agrees with the word-start rule at every position and keeps the length. */
  lemma TitleSpec(s: string)
    ensures |Title(s)| == |s|
    ensures forall i :: 0 <= i < |s| ==> Title(s)[i] == TitleCharAt(s, i)
  {
    if |s| == 0 {
      assert Title(s) == [];
    } else {
      TitleFromAt(s, false, 0);
    }
    forall i | 0 <= i < |s| ensures Title(s)[i] == TitleCharAt(s, i) {
      TitleFromAt(s, false, i);
    }
  }

  /** Title-casing changes letters only: every letter stays a letter,
      every other character is kept. */
  lemma TitleKeepsNonLetters(s: string)
    ensures |Title(s)| == |s|
    ensures forall i :: 0 <= i < |s| ==> IsLetter(Title(s)[i]) == IsLetter(s[i])
    ensures forall i :: 0 <= i < |s| && !IsLetter(s[i]) ==> Title(s)[i] == s[i]
  {
    TitleSpec(s);
  }

  /** Title-casing an already title-cased string changes nothing. */
  lemma TitleIdempotent(s: string)
    ensures Title(Title(s)) == Title(s)
  {
    var t := Title(s);
    TitleSpec(s);
    TitleSpec(t);
    forall i | 0 <= i < |t| ensures Title(t)[i] == t[i] {
      assert IsLetter(t[i]) == IsLetter(s[i]);
      assert i > 0 ==> IsLetter(t[i - 1]) == IsLetter(s[i - 1]);
    }
  }

  /** A replacement of `_` by a space followed by title-casing leaves no `_`. */
  lemma TitleOfReplacedHasNoUnderscore(s: string)
    ensures '_' !in Title(Replace(s, '_', ' '))
  {
    var r := Replace(s, '_', ' ');
    ReplaceRemovesAll(s, '_', ' ');
    TitleKeepsNonLetters(r);
  }

  function DigitChar(d: nat): (c: char)
    requires d < 10
    ensures IsDigit(c)
  {
    ('0' as int + d) as char
  }

  /** `str(n)` for a natural number: its decimal digits, most significant first. */
  function NatToString(n: nat): (s: string)
    ensures |s| > 0
    ensures forall i :: 0 <= i < |s| ==> IsDigit(s[i])
    ensures |s| > 1 ==> s[0] != '0'
  {
    if n < 10 then [DigitChar(n)] else NatToString(n / 10) + [DigitChar(n % 10)]
  }

  /** The value of a string of decimal digits (Python's `int(s)` on such a string). */
  function DigitsValue(s: string): nat
    requires forall i :: 0 <= i < |s| ==> IsDigit(s[i])
  {
    if s == [] then 0
    else
      assert IsDigit(s[|s| - 1]);
      DigitsValue(s[..|s| - 1]) * 10 + (s[|s| - 1] as int - '0' as int)
  }

  /** Reading back the decimal rendering gives the number: `int(str(n)) == n`. */
  lemma {:induction false} NatToStringRoundTrip(n: nat)
    ensures DigitsValue(NatToString(n)) == n
  {
    var s := NatToString(n);
    if n >= 10 {
      NatToStringRoundTrip(n / 10);
      assert s[..|s| - 1] == NatToString(n / 10);
    }
  }

  /** Different numbers have different renderings. */
  lemma NatToStringInjective(m: nat, n: nat)
    requires NatToString(m) == NatToString(n)
    ensures m == n
  {
    NatToStringRoundTrip(m);
    NatToStringRoundTrip(n);
  }
}
