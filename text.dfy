/**
 * The handful of java.lang.String / Integer operations the FMI bridge relies on,
 * stated over `string`. A Dafny char is a Unicode scalar value, whereas a Java
 * char is a UTF-16 code unit: text outside the Basic Multilingual Plane has
 * different lengths here and in Java. Case folding and digit recognition
 * cover ASCII only.
 */
module Text {
  import opened Wrappers

  // ---------------------------------------------------------------------------
  // Case folding (Character.toLowerCase / toUpperCase on ASCII letters)

  function ToLower(c: char): char
  {
    if 'A' <= c <= 'Z' then (c as int + 32) as char else c
  }

  function ToUpper(c: char): char
  {
    if 'a' <= c <= 'z' then (c as int - 32) as char else c
  }

  /** String.toLowerCase */
  function LowerString(s: string): (r: string)
    ensures |r| == |s|
  {
    seq(|s|, i requires 0 <= i < |s| => ToLower(s[i]))
  }

  /** String.equalsIgnoreCase: same length and the same letters up to case. */
  predicate EqualsIgnoreCase(a: string, b: string)
  {
    LowerString(a) == LowerString(b)
  }

  /** StringUtils.capitalize: upper-cases the first character only. */
  function Capitalize(s: string): (r: string)
    ensures |r| == |s|
    ensures |s| > 0 ==> r[0] == ToUpper(s[0]) && r[1..] == s[1..]
  {
    if s == "" then "" else [ToUpper(s[0])] + s[1..]
  }

  /** "y".equals(s.toLowerCase()) holds exactly for "y" and "Y". */
  lemma LowerIsY(s: string)
    ensures LowerString(s) == "y" <==> s == "y" || s == "Y"
  {
    if LowerString(s) == "y" {
      assert |s| == 1 && ToLower(s[0]) == LowerString(s)[0];
    }
  }

  // ---------------------------------------------------------------------------
  // Searching

  predicate StartsWith(s: string, prefix: string)
  {
    |prefix| <= |s| && s[..|prefix|] == prefix
  }

  /** String.indexOf(char): the first position of c, or -1. */
  function IndexOf(s: string, c: char): (k: int)
    ensures -1 <= k < |s|
    ensures k == -1 <==> c !in s
    ensures k >= 0 ==> s[k] == c && c !in s[..k]
  {
    if |s| == 0 then -1
    else if s[0] == c then 0
    else
      var k := IndexOf(s[1..], c);
      assert s[1..][..if k < 0 then 0 else k] == s[1..1 + if k < 0 then 0 else k];
      if k == -1 then -1 else k + 1
  }

  /** String.replace(CharSequence, CharSequence) for a one-character target. */
  function ReplaceChar(s: string, c: char, with: string): (r: string)
    ensures c !in with ==> c !in r
  {
    if s == "" then ""
    else (if s[0] == c then with else [s[0]]) + ReplaceChar(s[1..], c, with)
  }

  // ---------------------------------------------------------------------------
  // Decimal rendering (Integer.toString, "%d") and Integer.parseInt

  predicate IsDigit(c: char)
  {
    '0' <= c <= '9'
  }

  predicate AllDigits(s: string)
  {
    forall i :: 0 <= i < |s| ==> IsDigit(s[i])
  }

  function DigitChar(d: nat): (c: char)
    requires d < 10
    ensures IsDigit(c)
  {
    ('0' as int + d) as char
  }

  function DigitValue(c: char): (d: nat)
    requires IsDigit(c)
    ensures d < 10
  {
    c as int - '0' as int
  }

  function NatToString(n: nat): (s: string)
    ensures |s| >= 1 && AllDigits(s)
    decreases n
  {
    if n < 10 then [DigitChar(n)] else NatToString(n / 10) + [DigitChar(n % 10)]
  }

  function IntToString(i: int): string
  {
    if i < 0 then "-" + NatToString(-i) else NatToString(i)
  }

  /** Rendered integers consist of digits and at most a leading minus sign. */
  lemma IntToStringCharacters(i: int)
    ensures forall k :: 0 <= k < |IntToString(i)| ==> IntToString(i)[k] == '-' || IsDigit(IntToString(i)[k])
  {
    var digits := NatToString(if i < 0 then -i else i);
    if i < 0 {
      assert IntToString(i) == "-" + digits;
      assert forall k :: 1 <= k < |IntToString(i)| ==> IntToString(i)[k] == digits[k - 1];
    }
  }

  function DigitsValue(s: string): nat
    requires AllDigits(s)
  {
    if s == [] then 0 else DigitsValue(s[..|s| - 1]) * 10 + DigitValue(s[|s| - 1])
  }

  const MinInt: int := -0x8000_0000
  const MaxInt: int := 0x7fff_ffff

  /**
   * Integer.parseInt(s): an optional '+' or '-' followed by at least one digit,
   * with a value in the 32-bit range; None stands for NumberFormatException.
   */
  function ParseInt(s: string): (r: Option<int>)
    ensures r.Some? ==> MinInt <= r.value <= MaxInt
    ensures r.Some? ==> |s| > 0
    ensures r.Some? <==> |DigitPart(s)| > 0 && AllDigits(DigitPart(s)) && MinInt <= SignOf(s) * DigitsValue(DigitPart(s)) <= MaxInt
    ensures r.Some? ==> r.value == SignOf(s) * DigitsValue(DigitPart(s))
  {
    if |s| == 0 then None
    else
      var signed := s[0] == '-' || s[0] == '+';
      var body := if signed then s[1..] else s;
      if |body| == 0 || !AllDigits(body) then None
      else
        var v: int := if s[0] == '-' then -(DigitsValue(body) as int) else DigitsValue(body);
        if MinInt <= v <= MaxInt then Some(v) else None
  }

  /** The sign a leading '-' gives; '+' or no sign count as positive. */
  function SignOf(s: string): int
  {
    if |s| > 0 && s[0] == '-' then -1 else 1
  }

  /** What follows an optional leading sign. */
  function DigitPart(s: string): string
  {
    if |s| > 0 && (s[0] == '-' || s[0] == '+') then s[1..] else s
  }

  /**
   * parseInt accepts a '+' sign and leading zeros, and rejects a lone sign, an
   * empty string and any other character.
   */
  lemma ParseIntExamples()
    ensures ParseInt("+5") == Some(5)
    ensures ParseInt("007") == Some(7)
    ensures ParseInt("-0") == Some(0)
    ensures ParseInt("+").None? && ParseInt("").None? && ParseInt("1a").None?
  {
    assert DigitPart("+5") == "5" && "5"[..0] == "";
    assert DigitPart("007") == "007" && "007"[..2] == "00" && "00"[..1] == "0";
    assert DigitPart("-0") == "0";
    assert DigitPart("1a") == "1a" && !IsDigit("1a"[1]);
  }

  lemma {:induction false} DigitsValueOfNatToString(n: nat)
    ensures DigitsValue(NatToString(n)) == n
    decreases n
  {
    if n >= 10 {
      var s := NatToString(n);
      assert s == NatToString(n / 10) + [DigitChar(n % 10)];
      assert s[..|s| - 1] == NatToString(n / 10);
      DigitsValueOfNatToString(n / 10);
    }
  }

  /** Parsing what "%d" rendered gives the number back, for every 32-bit value. */
  lemma ParseIntOfIntToString(i: int)
    requires MinInt <= i <= MaxInt
    ensures ParseInt(IntToString(i)) == Some(i)
  {
    var s := IntToString(i);
    if i < 0 {
      var digits := NatToString(-i);
      assert s == "-" + digits && s[0] == '-' && s[1..] == digits;
      DigitsValueOfNatToString(-i);
    } else {
      assert s == NatToString(i) && IsDigit(s[0]);
      DigitsValueOfNatToString(i);
    }
  }

  // ---------------------------------------------------------------------------
  // Splitting on one character (String.split with a one-character regex) and joining

  /** Every piece between separators, empty pieces included. */
  function SplitAll(s: string, sep: char): (r: seq<string>)
    ensures |r| >= 1
    ensures forall k :: 0 <= k < |r| ==> sep !in r[k]
  {
    if |s| == 0 then [""]
    else
      var rest := SplitAll(s[1..], sep);
      if s[0] == sep then [""] + rest else [[s[0]] + rest[0]] + rest[1..]
  }

  function JoinWith(parts: seq<string>, sep: char): string
  {
    if |parts| == 0 then ""
    else if |parts| == 1 then parts[0]
    else parts[0] + [sep] + JoinWith(parts[1..], sep)
  }

  function DropTrailingEmpty(parts: seq<string>): (r: seq<string>)
    ensures |r| <= |parts| && r == parts[..|r|]
    ensures |r| > 0 ==> r[|r| - 1] != ""
    ensures forall k :: |r| <= k < |parts| ==> parts[k] == ""
  {
    if |parts| == 0 then []
    else if parts[|parts| - 1] == "" then DropTrailingEmpty(parts[..|parts| - 1])
    else parts
  }

  /**
   * s.split(sep) with the default limit: the whole string when the separator does
   * not occur, otherwise every piece with the trailing empty pieces removed.
   */
  function JavaSplit(s: string, sep: char): (r: seq<string>)
    ensures sep !in s ==> r == [s]
    ensures forall k :: 0 <= k < |r| ==> sep !in r[k]
    ensures sep in s ==>
              var pieces := SplitAll(s, sep);
              |r| <= |pieces| && r == pieces[..|r|]
              && (forall k :: |r| <= k < |pieces| ==> pieces[k] == "")
              && (|r| > 0 ==> r[|r| - 1] != "")
  {
    if sep !in s then [s] else DropTrailingEmpty(SplitAll(s, sep))
  }

  lemma {:induction false} SplitAllNoSeparator(s: string, sep: char)
    requires sep !in s
    ensures SplitAll(s, sep) == [s]
  {
    if |s| > 0 {
      SplitAllNoSeparator(s[1..], sep);
      assert [s[0]] + s[1..] == s;
    }
  }

  lemma {:induction false} SplitAllAround(a: string, sep: char, b: string)
    ensures SplitAll(a + [sep] + b, sep) == SplitAll(a, sep) + SplitAll(b, sep)
  {
    var s := a + [sep] + b;
    if |a| == 0 {
      assert s[0] == sep && s[1..] == b;
    } else {
      assert s[0] == a[0] && s[1..] == a[1..] + [sep] + b;
      SplitAllAround(a[1..], sep, b);
    }
  }

  /** Joining the pieces restores the string. */
  lemma {:induction false} JoinSplitAll(s: string, sep: char)
    ensures JoinWith(SplitAll(s, sep), sep) == s
  {
    if |s| > 0 {
      JoinSplitAll(s[1..], sep);
      var rest := SplitAll(s[1..], sep);
      if s[0] == sep {
        assert JoinWith([""] + rest, sep) == "" + [sep] + JoinWith(rest, sep);
      } else {
        var r := [[s[0]] + rest[0]] + rest[1..];
        if |rest| == 1 {
          assert JoinWith(r, sep) == [s[0]] + rest[0];
        } else {
          assert JoinWith(rest, sep) == rest[0] + [sep] + JoinWith(rest[1..], sep);
          assert r[1..] == rest[1..];
          assert JoinWith(r, sep) == [s[0]] + rest[0] + [sep] + JoinWith(rest[1..], sep);
        }
      }
    }
  }

  /** Splitting a join of separator-free pieces gives the pieces back. */
  lemma {:induction false} SplitAllJoin(parts: seq<string>, sep: char)
    requires |parts| >= 1
    requires forall k :: 0 <= k < |parts| ==> sep !in parts[k]
    ensures SplitAll(JoinWith(parts, sep), sep) == parts
  {
    SplitAllNoSeparator(parts[0], sep);
    if |parts| > 1 {
      SplitAllAround(parts[0], sep, JoinWith(parts[1..], sep));
      SplitAllJoin(parts[1..], sep);
    }
  }

  /** "P=S" with no further '=' and a non-empty S splits into exactly [P, S]. */
  lemma JavaSplitPair(p: string, sep: char, s: string)
    requires sep !in p && sep !in s && s != ""
    ensures JavaSplit(p + [sep] + s, sep) == [p, s]
  {
    var whole := p + [sep] + s;
    assert whole[|p|] == sep;
    SplitAllAround(p, sep, s);
    SplitAllNoSeparator(p, sep);
    SplitAllNoSeparator(s, sep);
  }
}
