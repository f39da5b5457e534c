/**
 * The handful of Python string operations the engine relies on, over
 * `seq<char>`.  Case conversion is ASCII-only.
 */
module Text {
  import opened Wrappers

  function UpperChar(c: char): char
  {
    if 'a' <= c <= 'z' then (c as int - 32) as char else c
  }

  function LowerChar(c: char): char
  {
    if 'A' <= c <= 'Z' then (c as int + 32) as char else c
  }

  /** `str.upper()` */
  function Upper(s: string): (r: string)
    ensures |r| == |s|
    ensures forall i :: 0 <= i < |s| ==> r[i] == UpperChar(s[i])
  {
    if s == [] then [] else [UpperChar(s[0])] + Upper(s[1..])
  }

  /** No lower-case ASCII letter anywhere. */
  predicate IsUpperCase(s: string) { forall i :: 0 <= i < |s| ==> !('a' <= s[i] <= 'z') }

  /** `str.lower()` */
  function Lower(s: string): (r: string)
    ensures |r| == |s|
    ensures forall i :: 0 <= i < |s| ==> r[i] == LowerChar(s[i])
  {
    if s == [] then [] else [LowerChar(s[0])] + Lower(s[1..])
  }

  /** `str.capitalize()`: first character upper case, the rest lower case. */
  function Capitalize(s: string): (r: string)
    ensures |r| == |s|
  {
    if s == [] then [] else [UpperChar(s[0])] + Lower(s[1..])
  }

  predicate IsLetter(c: char) { 'a' <= c <= 'z' || 'A' <= c <= 'Z' }

  /**
   * `str.title()` on the rest of a string whose previous character was
   * (`afterLetter`) or was not a letter: a letter that starts a word is
   * upper-cased, every other letter lower-cased.
   */
  function TitleFrom(s: string, afterLetter: bool): (r: string)
    ensures |r| == |s|
  {
    if s == [] then []
    else
      var rest := TitleFrom(s[1..], IsLetter(s[0]));
      [if afterLetter then LowerChar(s[0]) else UpperChar(s[0])] + rest
  }

  /** `str.title()` */
  function Title(s: string): string
  {
    TitleFrom(s, false)
  }

  /** Title-casing a concatenation: the second part continues from the last character of the first. */
  lemma {:induction false} TitleFromAppend(a: string, b: string, afterLetter: bool)
    ensures TitleFrom(a + b, afterLetter) ==
            TitleFrom(a, afterLetter) + TitleFrom(b, if a == [] then afterLetter else IsLetter(a[|a| - 1]))
    decreases |a|
  {
    if a == [] {
      assert a + b == b;
    } else {
      assert (a + b)[1..] == a[1..] + b;
      TitleFromAppend(a[1..], b, IsLetter(a[0]));
    }
  }

  /** `needle in hay` for strings. */
  predicate Contains(hay: string, needle: string)
    decreases |hay|
  {
    needle <= hay || (hay != [] && Contains(hay[1..], needle))
  }

  /** A text contains whatever starts at one of its positions. */
  lemma {:induction false} ContainsAt(hay: string, needle: string, i: nat)
    requires i <= |hay| && needle <= hay[i..]
    ensures Contains(hay, needle)
    decreases i
  {
    if i > 0 {
      assert hay[1..][i - 1..] == hay[i..];
      ContainsAt(hay[1..], needle, i - 1);
    }
  }

  /** SQL `ilike '%needle%'`: case-insensitive substring test. */
  predicate ILike(hay: string, needle: string)
  {
    Contains(Lower(hay), Lower(needle))
  }

  /** Index of the first occurrence of `c` in `s`. */
  function IndexOf(s: string, c: char): (i: nat)
    requires c in s
    ensures i < |s| && s[i] == c && c !in s[..i]
  {
    if s[0] == c then 0 else 1 + IndexOf(s[1..], c)
  }

  /** `str.split(c)`: every piece between two occurrences of `c`. */
  function Split(s: string, c: char): (parts: seq<string>)
    ensures |parts| >= 1
    ensures |parts| >= 2 <==> c in s
    decreases |s|
  {
    if s == [] then [[]]
    else
      var rest := Split(s[1..], c);
      if s[0] == c then [[]] + rest else [[s[0]] + rest[0]] + rest[1..]
  }

  /** A text without the separator splits into itself. */
  lemma {:induction false} SplitNoSeparator(s: string, c: char)
    requires c !in s
    ensures Split(s, c) == [s]
    decreases |s|
  {
    if s != [] {
      SplitNoSeparator(s[1..], c);
      assert [s[0]] + s[1..] == s;
    }
  }

  /** One separator splits a text into the pieces on either side of it. */
  lemma {:induction false} SplitOneSeparator(p: string, q: string, c: char)
    requires c !in p && c !in q
    ensures Split(p + [c] + q, c) == [p, q]
    decreases |p|
  {
    if p == [] {
      assert p + [c] + q == [c] + q;
      SplitNoSeparator(q, c);
    } else {
      SplitOneSeparator(p[1..], q, c);
      assert (p + [c] + q)[1..] == p[1..] + [c] + q;
      assert [p[0]] + p[1..] == p;
    }
  }

  /** The first separator ends the first piece; the rest splits on its own. */
  lemma {:induction false} SplitAtFirst(p: string, q: string, c: char)
    requires c !in p
    ensures Split(p + [c] + q, c) == [p] + Split(q, c)
    decreases |p|
  {
    if p == [] {
      assert p + [c] + q == [c] + q;
    } else {
      SplitAtFirst(p[1..], q, c);
      assert (p + [c] + q)[1..] == p[1..] + [c] + q;
      assert [p[0]] + p[1..] == p;
    }
  }

  /** `c.join(parts)`, the inverse of `Split`. */
  function Join(parts: seq<string>, c: char): string
    requires |parts| >= 1
  {
    if |parts| == 1 then parts[0] else parts[0] + [c] + Join(parts[1..], c)
  }

  /** Joining the parts of a split with the separator gives back the text. */
  lemma {:induction false} SplitJoin(s: string, c: char)
    ensures Join(Split(s, c), c) == s
    decreases |s|
  {
    if s != [] {
      SplitJoin(s[1..], c);
      var rest := Split(s[1..], c);
      if s[0] != c {
        var parts := Split(s, c);
        assert parts == [[s[0]] + rest[0]] + rest[1..];
        if |rest| > 1 {
          assert parts[1..] == rest[1..];
        }
      } else {
        var parts := Split(s, c);
        assert parts[1..] == rest;
      }
    }
  }

  /** No part of a split holds the separator. */
  lemma {:induction false} SplitPartsFree(s: string, c: char)
    ensures forall k :: 0 <= k < |Split(s, c)| ==> c !in Split(s, c)[k]
    decreases |s|
  {
    if s != [] {
      SplitPartsFree(s[1..], c);
      var rest := Split(s[1..], c);
      var parts := Split(s, c);
      if s[0] != c {
        forall k | 0 <= k < |parts| ensures c !in parts[k] {
          if k > 0 { assert parts[k] == rest[k]; }
        }
      } else {
        assert parts[1..] == rest;
      }
    }
  }

  /** Python `str.replace(pat, rep)`: every non-overlapping occurrence, left to right. */
  function ReplaceAll(s: string, pat: string, rep: string): string
    requires pat != []
    decreases |s|
  {
    if |s| < |pat| then s
    else if pat <= s then rep + ReplaceAll(s[|pat|..], pat, rep)
    else [s[0]] + ReplaceAll(s[1..], pat, rep)
  }

  lemma {:induction false} ReplaceAbsent(s: string, pat: string, rep: string)
    requires pat != [] && !Contains(s, pat)
    ensures ReplaceAll(s, pat, rep) == s
    decreases |s|
  {
    if |s| >= |pat| {
      ReplaceAbsent(s[1..], pat, rep);
    }
  }

  /** Replacing a pattern the text does not contain leaves the text as it is. */
  lemma ReplaceAbsentWhen(s: string, pat: string, rep: string)
    requires pat != []
    ensures !Contains(s, pat) ==> ReplaceAll(s, pat, rep) == s
  {
    if !Contains(s, pat) {
      ReplaceAbsent(s, pat, rep);
    }
  }

  /** Replacing skips a leading part that cannot start the pattern. */
  lemma {:induction false} ReplaceSkipsPrefix(a: string, s: string, pat: string, rep: string)
    requires pat != [] && pat[0] !in a
    ensures ReplaceAll(a + s, pat, rep) == a + ReplaceAll(s, pat, rep)
    decreases |a|
  {
    if a == [] {
      assert a + s == s;
    } else {
      var t := a + s;
      assert t[0] == a[0] && t[1..] == a[1..] + s;
      ReplaceSkipsFirst(t, pat, rep);
      ReplaceSkipsPrefix(a[1..], s, pat, rep);
      assert a == [a[0]] + a[1..];
      assert [a[0]] + (a[1..] + ReplaceAll(s, pat, rep)) == a + ReplaceAll(s, pat, rep);
    }
  }

  /** A pattern at the start of `a + b` that is at least as long as `a` holds the last character of `a`. */
  lemma LastInPrefix(a: string, b: string, pat: string)
    ensures pat <= a + b && 0 < |a| <= |pat| ==> a[|a| - 1] in pat
  {
    if pat <= a + b && 0 < |a| <= |pat| {
      assert pat[|a| - 1] == (a + b)[|a| - 1] == a[|a| - 1];
    }
  }

  /**
   * Replacing in a concatenation whose first part ends in a character the
   * pattern does not contain: no occurrence straddles the join, so each
   * part is replaced on its own.
   */
  lemma {:induction false} ReplaceAppend(a: string, b: string, pat: string, rep: string)
    requires pat != [] && a != [] && a[|a| - 1] !in pat
    ensures ReplaceAll(a + b, pat, rep) == ReplaceAll(a, pat, rep) + ReplaceAll(b, pat, rep)
    decreases |a|
  {
    var t := a + b;
    if |t| < |pat| {
      assert ReplaceAll(a, pat, rep) == a;
    } else if pat <= t {
      if |a| <= |pat| {
        LastInPrefix(a, b, pat);
        assert false;
      }
      assert pat <= a;
      assert t[|pat|..] == a[|pat|..] + b;
      ReplaceAppend(a[|pat|..], b, pat, rep);
    } else if |a| == 1 {
      assert t[1..] == b;
      assert !(pat <= a);
      assert ReplaceAll(a, pat, rep) == a;
    } else {
      assert t[1..] == a[1..] + b;
      ReplaceAppend(a[1..], b, pat, rep);
      if |a| < |pat| {
        assert ReplaceAll(a[1..], pat, rep) == a[1..];
      } else {
        assert !(pat <= a);
      }
    }
  }

  /** A first character that cannot start the pattern is kept as it is. */
  lemma ReplaceSkipsFirst(t: string, pat: string, rep: string)
    requires pat != [] && t != [] && t[0] != pat[0]
    ensures ReplaceAll(t, pat, rep) == [t[0]] + ReplaceAll(t[1..], pat, rep)
  {
    if |t| < |pat| {
      assert ReplaceAll(t[1..], pat, rep) == t[1..];
      assert t == [t[0]] + t[1..];
    } else {
      assert !(pat <= t);
    }
  }

  /** A text that is exactly the pattern is replaced whole. */
  lemma ReplaceWhole(pat: string, rep: string)
    requires pat != []
    ensures ReplaceAll(pat, pat, rep) == rep
  {
    assert pat[|pat|..] == [];
  }

  /** A text without the pattern's first character does not contain the pattern. */
  lemma {:induction false} NotContainsHead(s: string, needle: string)
    requires needle != [] && needle[0] !in s
    ensures !Contains(s, needle)
    decreases |s|
  {
    if s != [] {
      NotContainsHead(s[1..], needle);
    }
  }

  /** A text that starts with the pattern has that occurrence replaced first. */
  lemma ReplaceLeading(pat: string, s: string, rep: string)
    requires pat != []
    ensures ReplaceAll(pat + s, pat, rep) == rep + ReplaceAll(s, pat, rep)
  {
    assert (pat + s)[|pat|..] == s;
  }

  /** A pattern that occurs once, after text that cannot start it, is replaced there and nowhere else. */
  lemma ReplaceOnce(pre: string, pat: string, post: string, rep: string)
    requires pat != [] && pat[0] !in pre && pat[0] !in post
    ensures ReplaceAll(pre + pat + post, pat, rep) == pre + rep + post
  {
    assert pre + pat + post == pre + (pat + post);
    ReplaceSkipsPrefix(pre, pat + post, pat, rep);
    ReplaceLeading(pat, post, rep);
    NotContainsHead(post, pat);
    ReplaceAbsent(post, pat, rep);
  }

  // ---- decimal numbers ----

  predicate IsDigit(c: char) { '0' <= c <= '9' }

  function DigitChar(d: nat): char
    requires d < 10
  {
    ('0' as int + d) as char
  }

  /** `str(n)` for a natural number. */
  function NatToString(n: nat): (s: string)
    ensures |s| >= 1 && forall i :: 0 <= i < |s| ==> IsDigit(s[i])
  {
    if n < 10 then [DigitChar(n)] else NatToString(n / 10) + [DigitChar(n % 10)]
  }

  /** `str(n)` for an integer. */
  function IntToString(n: int): string
  {
    if n < 0 then "-" + NatToString(-n) else NatToString(n)
  }

  /** The value of a string of decimal digits (leading zeros allowed). */
  function DigitsValue(s: string): int
    requires AllDigits(s)
  {
    if s == [] then 0
    else DigitsValue(s[..|s| - 1]) * 10 + (s[|s| - 1] as int - '0' as int)
  }

  predicate AllDigits(s: string) { forall i :: 0 <= i < |s| ==> IsDigit(s[i]) }

  /** ASCII whitespace as `str.strip()` removes it: space, tab, newline, vertical tab, form feed, carriage return. */
  predicate IsSpace(c: char) { c == ' ' || '\t' <= c <= '\r' }

  /** `s.strip()` on ASCII whitespace. */
  function Strip(s: string): (r: string)
    ensures |r| <= |s|
    ensures r != [] ==> !IsSpace(r[0]) && !IsSpace(r[|r| - 1])
    ensures s != [] && !IsSpace(s[0]) && !IsSpace(s[|s| - 1]) ==> r == s
    decreases |s|
  {
    if s == [] then []
    else if IsSpace(s[0]) then Strip(s[1..])
    else if IsSpace(s[|s| - 1]) then Strip(s[..|s| - 1])
    else s
  }

  /** Digits with single underscores between them, the digit part `int()` accepts. */
  predicate Underscored(s: string)
  {
    s != [] && IsDigit(s[0]) && IsDigit(s[|s| - 1]) &&
    (forall i :: 0 <= i < |s| ==> IsDigit(s[i]) || s[i] == '_') &&
    (forall i :: 0 <= i < |s| - 1 ==> !(s[i] == '_' && s[i + 1] == '_'))
  }

  /** The digits of a text of digits and underscores, the underscores dropped. */
  function DropUnderscores(s: string): (r: string)
    requires forall i :: 0 <= i < |s| ==> IsDigit(s[i]) || s[i] == '_'
    ensures AllDigits(r) && |r| <= |s|
    ensures AllDigits(s) ==> r == s
  {
    if s == [] then [] else (if s[0] == '_' then [] else [s[0]]) + DropUnderscores(s[1..])
  }

  /**
   * Python `int(s)` on ASCII text: surrounding whitespace is ignored, then
   * an optional sign and at least one digit, with single underscores
   * allowed between digits; anything else raises.
   */
  function ParseInt(s: string): (r: Option<int>)
    ensures s != [] && AllDigits(s) ==> r == Some(DigitsValue(s))
    ensures |s| >= 2 && s[0] == '-' && AllDigits(s[1..]) ==> r == Some(0 - DigitsValue(s[1..]))
  {
    var t := Strip(s);
    if t != [] && (t[0] == '-' || t[0] == '+') && Underscored(t[1..]) then
      var v := DigitsValue(DropUnderscores(t[1..]));
      Some(if t[0] == '-' then 0 - v else v)
    else if Underscored(t) then Some(DigitsValue(DropUnderscores(t)))
    else None
  }

  /**
   * `int()` refuses the text exactly when, once stripped, it is neither
   * underscored digits nor a sign followed by underscored digits.
   */
  lemma ParseIntRefuses(s: string)
    ensures ParseInt(s).None? <==>
              !Underscored(Strip(s)) &&
              !(Strip(s) != [] && (Strip(s)[0] == '-' || Strip(s)[0] == '+') && Underscored(Strip(s)[1..]))
  {
  }

  /** `int()` ignores surrounding whitespace. */
  lemma ParseIntIgnoresSpace()
    ensures ParseInt(" 2") == Some(2)
  {
    assert Strip(" 2") == "2";
  }

  /** `int()` accepts single underscores between digits, and surrounding whitespace. */
  lemma ParseIntUnderscores()
    ensures ParseInt("1_0\n") == Some(10)
  {
    assert Strip("1_0\n") == "1_0";
    assert Underscored("1_0");
    assert DropUnderscores("1_0") == "10";
    assert DigitsValue("10") == 10 by { assert "10"[..1] == "1"; }
    UnsignedRead("1_0\n", "1_0");
  }

  /** `int()` accepts single underscores between digits after a sign. */
  lemma ParseIntSignedUnderscores()
    ensures ParseInt("-0_7") == Some(-7)
  {
    assert Strip("-0_7") == "-0_7";
    assert "-0_7"[1..] == "0_7" && Underscored("0_7");
    assert DropUnderscores("0_7") == "07";
    assert DigitsValue("07") == 7 by { assert "07"[..1] == "0"; }
    SignedRead("-0_7");
  }

  /** Stripped text of underscored digits without a sign reads as its digits. */
  lemma {:induction false} UnsignedRead(s: string, t: string)
    requires Strip(s) == t && Underscored(t)
    ensures ParseInt(s) == Some(DigitsValue(DropUnderscores(t)))
  {
    assert t[0] != '-' && t[0] != '+';
  }

  /** Stripped text of a minus and underscored digits reads as the negated digits. */
  lemma {:induction false} SignedRead(s: string)
    requires Strip(s) == s && |s| >= 2 && s[0] == '-' && Underscored(s[1..])
    ensures ParseInt(s) == Some(0 - DigitsValue(DropUnderscores(s[1..])))
  {
  }

  /** `int()` rejects a double underscore, a leading one and blank text. */
  lemma ParseIntRejects()
    ensures ParseInt("1__0").None? && ParseInt("_1").None? && ParseInt(" ").None?
  {
    assert !Underscored("1__0") by { assert "1__0"[1] == '_' && "1__0"[2] == '_'; }
    assert Strip(" ") == "";
  }

  /** Python `str.zfill(w)`: zeros inserted after an optional sign up to width `w`. */
  function ZFill(s: string, w: nat): (r: string)
    ensures |s| >= w ==> r == s
  {
    if |s| >= w then s
    else if s != [] && (s[0] == '-' || s[0] == '+') then [s[0]] + Zeros(w - |s|) + s[1..]
    else Zeros(w - |s|) + s
  }

  function Zeros(n: nat): (z: string)
    ensures |z| == n && forall i :: 0 <= i < n ==> z[i] == '0'
  {
    if n == 0 then [] else ['0'] + Zeros(n - 1)
  }

  lemma {:induction false} NatToStringValue(n: nat)
    ensures DigitsValue(NatToString(n)) == n
  {
    var s := NatToString(n);
    if n >= 10 {
      NatToStringValue(n / 10);
      assert s[..|s| - 1] == NatToString(n / 10);
    }
  }

  lemma {:induction false} LeadingZeroValue(s: string)
    requires AllDigits(s)
    ensures AllDigits(['0'] + s) && DigitsValue(['0'] + s) == DigitsValue(s)
    decreases |s|
  {
    var t := ['0'] + s;
    if s != [] {
      LeadingZeroValue(s[..|s| - 1]);
      assert t[..|t| - 1] == ['0'] + s[..|s| - 1];
    }
  }

  /** `int(str(n).zfill(2)) == n` for every integer `n`. */
  lemma ZFillTwoRoundTrip(n: int)
    ensures ParseInt(ZFill(IntToString(n), 2)) == Some(n)
  {
    if n < 0 {
      ZFillNegative(n);
    } else {
      NatToStringValue(n);
      if |NatToString(n)| < 2 {
        ZFillPadded(NatToString(n));
      } else {
        ZFillWide(NatToString(n));
      }
    }
  }

  lemma {:induction false} ZFillNegative(n: int)
    requires n < 0
    ensures ParseInt(ZFill(IntToString(n), 2)) == Some(n)
  {
    NatToStringValue(-n);
    SignedDigits(n, NatToString(-n), IntToString(n));
  }

  /** A minus sign before the digits of -n is already two wide, and reads back as n. */
  lemma {:induction false} SignedDigits(n: int, d: string, s: string)
    requires |d| >= 1 && AllDigits(d) && DigitsValue(d) == 0 - n && s == "-" + d
    ensures ParseInt(ZFill(s, 2)) == Some(n)
  {
    assert s[1..] == d;
    assert ZFill(s, 2) == s;
  }

  lemma ZFillPadded(s: string)
    requires |s| == 1 && AllDigits(s)
    ensures ParseInt(ZFill(s, 2)) == Some(DigitsValue(s))
  {
    LeadingZeroValue(s);
    var z := ['0'] + s;
    assert ZFill(s, 2) == z;
    assert |z| == 2 && z[0] == '0' && AllDigits(z);
  }

  lemma ZFillWide(s: string)
    requires |s| >= 2 && AllDigits(s)
    ensures ParseInt(ZFill(s, 2)) == Some(DigitsValue(s))
  {
    assert s[0] != '-' && s[0] != '+';
  }


}
