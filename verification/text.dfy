/** Python `str` operations used by the modelled code, over `seq<char>`.

    Only the behaviour the source relies on is modelled: ASCII case folding,
    the six ASCII whitespace characters of `str.strip()`, `str.split(sep)`
    with a non-empty separator, `str.join`, decimal rendering of integers,
    zero padding (`{:02d}`, `%04d`) and `int(str)` restricted to ASCII digits.
 */
module Text {
  import opened Wrappers

  // ---------------------------------------------------------------------------
  // Characters

  predicate IsSpace(c: char) {
    c == ' ' || c == '\t' || c == '\n' || c == '\r' || c == '\U{000B}' || c == '\U{000C}'
  }

  predicate IsDigit(c: char) {
    '0' <= c <= '9'
  }

  predicate IsAsciiLetter(c: char) {
    ('a' <= c <= 'z') || ('A' <= c <= 'Z')
  }

  /** Python's `\w` restricted to ASCII: letters, digits and underscore. */
  predicate IsWordChar(c: char) {
    IsAsciiLetter(c) || IsDigit(c) || c == '_'
  }

  function DigitValue(c: char): nat
    requires IsDigit(c)
  {
    (c as int - '0' as int) as nat
  }

  function DigitChar(d: nat): (c: char)
    requires d < 10
    ensures IsDigit(c) && DigitValue(c) == d
  {
    ('0' as int + d) as char
  }

  function LowerChar(c: char): char {
    if 'A' <= c <= 'Z' then (c as int + 32) as char else c
  }

  /** `s.lower()` on ASCII letters. */
  function Lower(s: string): (r: string)
    ensures |r| == |s|
    ensures forall i :: 0 <= i < |s| ==> r[i] == LowerChar(s[i])
  {
    if |s| == 0 then [] else [LowerChar(s[0])] + Lower(s[1..])
  }

  predicate AllDigits(s: string) {
    forall i :: 0 <= i < |s| ==> IsDigit(s[i])
  }

  predicate AllSpace(s: string) {
    forall i :: 0 <= i < |s| ==> IsSpace(s[i])
  }

  // ---------------------------------------------------------------------------
  // Prefixes, suffixes and substrings

  /** `x or None` on text: the empty string is None. */
  function NoneIfEmpty(s: string): (r: Option<string>)
    ensures r.None? <==> s == ""
    ensures r.Some? ==> r.value == s
  {
    if s == "" then None else Some(s)
  }

  predicate StartsWith(s: string, p: string) {
    |p| <= |s| && s[..|p|] == p
  }

  predicate EndsWith(s: string, p: string) {
    |p| <= |s| && s[|s| - |p|..] == p
  }

  /** `t in s` for strings. */
  predicate Contains(s: string, t: string)
    decreases |s|
  {
    StartsWith(s, t) || (|s| > 0 && Contains(s[1..], t))
  }

  /** `t` occurs in `s` at index `j`. */
  lemma {:induction false} ContainsAt(s: string, t: string, j: nat)
    requires j + |t| <= |s| && s[j..j + |t|] == t
    ensures Contains(s, t)
    decreases j
  {
    if j == 0 {
      assert s[..|t|] == t;
    } else {
      assert s[1..][j - 1..j - 1 + |t|] == s[j..j + |t|];
      ContainsAt(s[1..], t, j - 1);
    }
  }

  /** A text without the first character of `t` does not contain `t`. */
  lemma {:induction false} FirstCharAbsent(s: string, t: string)
    requires |t| > 0 && t[0] !in s
    ensures !Contains(s, t)
    decreases |s|
  {
    if |s| > 0 {
      assert !StartsWith(s, t) by {
        if |t| <= |s| {
          assert s[..|t|][0] == s[0];
        }
      }
      assert forall i | 0 <= i < |s| - 1 :: s[1..][i] == s[i + 1];
      FirstCharAbsent(s[1..], t);
    }
  }

  /** Neither half contains `t`, and `t` cannot straddle the joint because
      the last character of `a` occurs in `t` at most as its last character. */
  lemma {:induction false} NotContainsAppend(a: string, b: string, t: string)
    requires !Contains(a, t) && !Contains(b, t)
    requires |a| > 0 ==> forall k | 0 <= k < |t| - 1 :: t[k] != a[|a| - 1]
    ensures !Contains(a + b, t)
    decreases |a|
  {
    if |a| == 0 {
      assert a + b == b;
    } else {
      assert (a + b)[1..] == a[1..] + b;
      assert |a[1..]| > 0 ==> a[1..][|a[1..]| - 1] == a[|a| - 1];
      NotContainsAppend(a[1..], b, t);
      assert !StartsWith(a + b, t) by {
        if |t| <= |a| {
          assert (a + b)[..|t|] == a[..|t|];
        } else if |t| <= |a| + |b| {
          assert (a + b)[..|t|][|a| - 1] == a[|a| - 1];
        }
      }
    }
  }

  // ---------------------------------------------------------------------------
  // Runs of blanks and digits

  /** The index after the run of blanks starting at `i`. */
  function SpaceRun(s: string, i: nat): (j: nat)
    requires i <= |s|
    ensures i <= j <= |s| && AllSpace(s[i..j]) && (j == |s| || !IsSpace(s[j]))
    decreases |s| - i
  {
    if i < |s| && IsSpace(s[i]) then SpaceRun(s, i + 1) else i
  }

  /** The index after the run of digits starting at `i`. */
  function DigitRun(s: string, i: nat): (j: nat)
    requires i <= |s|
    ensures i <= j <= |s| && AllDigits(s[i..j]) && (j == |s| || !IsDigit(s[j]))
    decreases |s| - i
  {
    if i < |s| && IsDigit(s[i]) then DigitRun(s, i + 1) else i
  }

  lemma {:induction false} DigitRunOver(t: string, i: nat, k: nat)
    requires i + k <= |t| && AllDigits(t[i..i + k])
    requires i + k == |t| || !IsDigit(t[i + k])
    ensures DigitRun(t, i) == i + k
    decreases k
  {
    if k > 0 {
      assert t[i] == t[i..i + k][0];
      assert t[i + 1..i + k] == t[i..i + k][1..];
      DigitRunOver(t, i + 1, k - 1);
    }
  }

  lemma {:induction false} SpaceRunOver(t: string, i: nat, k: nat)
    requires i + k <= |t| && AllSpace(t[i..i + k])
    requires i + k == |t| || !IsSpace(t[i + k])
    ensures SpaceRun(t, i) == i + k
    decreases k
  {
    if k > 0 {
      assert t[i] == t[i..i + k][0];
      assert t[i + 1..i + k] == t[i..i + k][1..];
      SpaceRunOver(t, i + 1, k - 1);
    }
  }

  // ---------------------------------------------------------------------------
  // Stripping

  function StripLeft(s: string): (r: string)
    ensures |r| <= |s| && r == s[|s| - |r|..]
    ensures |r| == 0 || !IsSpace(r[0])
    ensures AllSpace(s[..|s| - |r|])
  {
    if |s| > 0 && IsSpace(s[0]) then StripLeft(s[1..]) else s
  }

  function StripRight(s: string): (r: string)
    ensures |r| <= |s| && r == s[..|r|]
    ensures |r| == 0 || !IsSpace(r[|r| - 1])
    ensures AllSpace(s[|r|..])
  {
    if |s| > 0 && IsSpace(s[|s| - 1]) then StripRight(s[..|s| - 1]) else s
  }

  /** `s.strip()`. */
  function Strip(s: string): string {
    StripRight(StripLeft(s))
  }

  /** A string of blanks strips to nothing. */
  lemma {:induction false} AllSpaceStrips(s: string)
    requires AllSpace(s)
    ensures StripLeft(s) == "" && Strip(s) == ""
  {
  }

  lemma {:induction false} StripNoSpace(s: string)
    requires |s| == 0 || (!IsSpace(s[0]) && !IsSpace(s[|s| - 1]))
    ensures Strip(s) == s
  {
  }

  // ---------------------------------------------------------------------------
  // split / join

  /** `s.split(sep)` for a non-empty separator: cut at every leftmost,
      non-overlapping occurrence of `sep`. */
  function Split(s: string, sep: string): (parts: seq<string>)
    requires |sep| > 0
    ensures |parts| >= 1
    decreases |s|
  {
    if |s| < |sep| then [s]
    else if s[..|sep|] == sep then [""] + Split(s[|sep|..], sep)
    else
      var rest := Split(s[1..], sep);
      [[s[0]] + rest[0]] + rest[1..]
  }

  /** `sep.join(parts)`. */
  function Join(parts: seq<string>, sep: string): string
    decreases |parts|
  {
    if |parts| == 0 then ""
    else if |parts| == 1 then parts[0]
    else parts[0] + sep + Join(parts[1..], sep)
  }

  /** A separator of one character, or of two different characters, cannot
      straddle the boundary between a part and a neighbouring separator. */
  predicate BorderFree(sep: string) {
    |sep| == 1 || (|sep| == 2 && sep[0] != sep[1])
  }

  lemma {:induction false} StartsWithPrefix(s: string, p: string, q: string)
    requires StartsWith(s, p)
    ensures StartsWith(s + q, p)
  {
    assert (s + q)[..|p|] == s[..|p|];
  }

  lemma {:induction false} SplitCons(p: string, sep: string, rest: string)
    requires BorderFree(sep)
    requires !Contains(p, sep)
    ensures Split(p + sep + rest, sep) == [p] + Split(rest, sep)
    decreases |p|
  {
    var s := p + sep + rest;
    if |p| == 0 {
      assert s == sep + rest;
      assert s[..|sep|] == sep;
      assert s[|sep|..] == rest;
    } else {
      assert !StartsWith(p, sep);
      if |sep| == 1 {
        assert s[..1] == p[..1];
      } else if |p| >= 2 {
        assert s[..2] == p[..2];
      } else {
        assert s[..2] == [p[0], sep[0]];
      }
      assert s[..|sep|] != sep;
      assert s[1..] == p[1..] + sep + rest;
      assert !Contains(p[1..], sep);
      SplitCons(p[1..], sep, rest);
      assert [p[0]] + p[1..] == p;
    }
  }

  /** Splitting a joined list recovers the list, provided no part contains
      the (border-free) separator. */
  lemma {:induction false} SplitJoin(parts: seq<string>, sep: string)
    requires |parts| >= 1
    requires BorderFree(sep)
    requires forall i :: 0 <= i < |parts| ==> !Contains(parts[i], sep)
    ensures Split(Join(parts, sep), sep) == parts
    decreases |parts|
  {
    if |parts| == 1 {
      SplitNoSep(parts[0], sep);
    } else {
      SplitJoin(parts[1..], sep);
      assert Join(parts, sep) == parts[0] + sep + Join(parts[1..], sep);
      SplitCons(parts[0], sep, Join(parts[1..], sep));
      assert [parts[0]] + parts[1..] == parts;
    }
  }

  lemma {:induction false} SplitNoSep(s: string, sep: string)
    requires |sep| > 0
    requires !Contains(s, sep)
    ensures Split(s, sep) == [s]
    decreases |s|
  {
    if |s| >= |sep| {
      assert !StartsWith(s, sep);
      SplitNoSep(s[1..], sep);
      assert [s[0]] + s[1..] == s;
    }
  }

  // ---------------------------------------------------------------------------
  // Decimal rendering and parsing

  /** `str(n)` for a natural number. */
  function NatToString(n: nat): (s: string)
    ensures |s| >= 1 && AllDigits(s)
    decreases n
  {
    if n < 10 then [DigitChar(n)] else NatToString(n / 10) + [DigitChar(n % 10)]
  }

  /** `str(i)` for any integer. */
  function IntToString(i: int): string {
    if i < 0 then "-" + NatToString(-i) else NatToString(i)
  }

  /** Value of a run of decimal digits (leading zeros allowed). */
  function DigitsValue(s: string): nat
    requires AllDigits(s)
    decreases |s|
  {
    if |s| == 0 then 0 else DigitsValue(s[..|s| - 1]) * 10 + DigitValue(s[|s| - 1])
  }

  lemma {:induction false} DigitsValueOfNatToString(n: nat)
    ensures DigitsValue(NatToString(n)) == n
    decreases n
  {
    if n >= 10 {
      var s := NatToString(n / 10);
      var t := s + [DigitChar(n % 10)];
      assert t[..|t| - 1] == s;
      DigitsValueOfNatToString(n / 10);
    }
  }

  lemma {:induction false} DigitsValueLeadingZero(s: string)
    requires AllDigits(s)
    ensures AllDigits("0" + s) && DigitsValue("0" + s) == DigitsValue(s)
    decreases |s|
  {
    if |s| > 0 {
      var t := "0" + s;
      assert t[..|t| - 1] == "0" + s[..|s| - 1];
      DigitsValueLeadingZero(s[..|s| - 1]);
    }
  }

  /** `int(s)` for a string: surrounding whitespace, an optional sign, then
      one or more ASCII digits; anything else raises ValueError (None here). */
  function ParseInt(s: string): Option<int> {
    ParseStripped(Strip(s))
  }

  /** `int(t)` once surrounding whitespace is gone. */
  function ParseStripped(t: string): Option<int> {
    if |t| >= 2 && t[0] == '-' && AllDigits(t[1..]) then Some(0 - DigitsValue(t[1..]))
    else if |t| >= 2 && t[0] == '+' && AllDigits(t[1..]) then Some(DigitsValue(t[1..]))
    else if |t| >= 1 && AllDigits(t) then Some(DigitsValue(t))
    else None
  }

  lemma {:induction false} ParseIntOfDigits(s: string)
    requires |s| >= 1 && AllDigits(s)
    ensures ParseInt(s) == Some(DigitsValue(s) as int)
  {
    assert IsDigit(s[0]) && IsDigit(s[|s| - 1]);
    StripNoSpace(s);
    assert ParseStripped(s) == Some(DigitsValue(s) as int);
  }

  lemma {:induction false} ParseIntOfNegDigits(d: string)
    requires |d| >= 1 && AllDigits(d)
    ensures ParseInt("-" + d) == Some(0 - DigitsValue(d))
  {
    var s := "-" + d;
    assert s[1..] == d;
    NoSpaceAtEnds(s);
    assert ParseStripped(s) == Some(0 - DigitsValue(d));
  }

  lemma {:induction false} NoSpaceAtEnds(s: string)
    requires |s| >= 2 && !IsSpace(s[0]) && AllDigits(s[1..])
    ensures Strip(s) == s
  {
    assert s[|s| - 1] == s[1..][|s| - 2];
    StripNoSpace(s);
  }

  /** `int(str(i)) == i`. */
  lemma {:induction false} ParseIntOfIntToString(i: int)
    ensures ParseInt(IntToString(i)) == Some(i)
  {
    var s := IntToString(i);
    if i < 0 {
      var d := NatToString(-i);
      assert s == "-" + d;
      DigitsValueOfNatToString(-i);
      ParseIntOfNegDigits(d);
    } else {
      var d := NatToString(i);
      assert s == d;
      DigitsValueOfNatToString(i);
      ParseIntOfDigits(d);
    }
  }

  /** Left-pad a digit string with zeros to `width` characters. */
  function ZeroPad(s: string, width: nat): (r: string)
    decreases width - |s|
  {
    if |s| >= width then s else ZeroPad("0" + s, width)
  }

  lemma {:induction false} ZeroPadValue(s: string, width: nat)
    requires AllDigits(s)
    ensures |ZeroPad(s, width)| == if |s| >= width then |s| else width
    ensures AllDigits(ZeroPad(s, width))
    ensures DigitsValue(ZeroPad(s, width)) == DigitsValue(s)
    decreases width - |s|
  {
    if |s| < width {
      DigitsValueLeadingZero(s);
      ZeroPadValue("0" + s, width);
    }
  }

  /** Python's `f"{n:02d}"`: zero padding to width 2 only affects 0..9; a
      negative single digit is already two characters wide. */
  function Pad2(n: int): (s: string)
    ensures ParseInt(s) == Some(n)
    ensures |s| >= 2 && IsNumeral(s)
  {
    if 0 <= n < 10 then
      var s := ['0', DigitChar(n)];
      assert AllDigits(s);
      assert s[..|s| - 1] == "0" && "0"[..0] == [];
      assert DigitsValue("0") == 0;
      assert DigitsValue(s) == n;
      ParseIntOfDigits(s);
      s
    else
      ParseIntOfIntToString(n);
      IntToStringNumeral(n);
      IntToString(n)
  }

  lemma {:induction false} IntToStringNumeral(n: int)
    ensures IsNumeral(IntToString(n))
    ensures (n < 0 || n >= 10) ==> |IntToString(n)| >= 2
  {
    if n < 0 {
      var d := NatToString(-n);
      assert IntToString(n) == "-" + d;
    } else if n >= 10 {
      assert NatToString(n) == NatToString(n / 10) + [DigitChar(n % 10)];
    }
  }

  /** Characters of a rendered integer: digits and a minus sign. */
  predicate IsNumeral(s: string) {
    forall i :: 0 <= i < |s| ==> IsDigit(s[i]) || s[i] == '-'
  }

  lemma {:induction false} NotContainsChar(s: string, c: char)
    requires forall i :: 0 <= i < |s| ==> s[i] != c
    ensures !Contains(s, [c])
    decreases |s|
  {
    if |s| > 0 {
      assert s[..1] == [s[0]];
      NotContainsChar(s[1..], c);
    }
  }

  /** The value of a fixed-width digit field `s[i..i+w]`, if all digits. */
  function FieldValue(s: string, i: nat, w: nat): Option<nat> {
    if i + w <= |s| && AllDigits(s[i..i + w]) then Some(DigitsValue(s[i..i + w])) else None
  }
}
