/**
 * The string primitives the three scripts rely on, restricted to ASCII:
 * str.strip, str.split("\t"), str.split(), the substring test `p in s`,
 * str.upper/str.lower, f"{n}" for integers, int(...) on a text field, and the
 * regular expression `:\s*(\d+)` used to pull a number out of a report line.
 */
module Text {
  import opened Wrappers

  // ---------------------------------------------------------------- characters

  predicate IsDigit(c: char) { '0' <= c <= '9' }

  /** Python's whitespace class, restricted to ASCII: \t \n \v \f \r, \x1c-\x1f and space. */
  predicate IsSpace(c: char) { 9 <= c as int <= 13 || 28 <= c as int <= 32 }

  function DigitValue(c: char): (d: nat)
    requires IsDigit(c)
    ensures d < 10
  {
    c as int - '0' as int
  }

  function DigitChar(d: nat): (c: char)
    requires d < 10
    ensures IsDigit(c) && DigitValue(c) == d
  {
    ('0' as int + d) as char
  }

  predicate AllDigits(s: string) { forall i | 0 <= i < |s| :: IsDigit(s[i]) }

  predicate NoSpace(s: string) { forall i | 0 <= i < |s| :: !IsSpace(s[i]) }

  predicate AllSpace(s: string) { forall i | 0 <= i < |s| :: IsSpace(s[i]) }

  // ---------------------------------------------------------------- numbers

  /** The value of a run of decimal digits, read left to right. */
  function DigitsValue(s: string): nat
    requires AllDigits(s)
    decreases |s|
  {
    if |s| == 0 then 0 else 10 * DigitsValue(s[..|s| - 1]) + DigitValue(s[|s| - 1])
  }

  /** Length of the longest prefix of s made of digits. */
  function DigitRun(s: string): (n: nat)
    ensures n <= |s| && AllDigits(s[..n])
    ensures n < |s| ==> !IsDigit(s[n])
    decreases |s|
  {
    if |s| > 0 && IsDigit(s[0]) then
      var m := DigitRun(s[1..]);
      assert s[..1 + m] == [s[0]] + s[1..][..m];
      1 + m
    else 0
  }

  /** f"{n}" for a natural number: decimal digits, no sign, no leading zero. */
  function NatToString(n: nat): (s: string)
    ensures |s| >= 1 && AllDigits(s)
    ensures n > 0 ==> s[0] != '0'
    decreases n
  {
    if n < 10 then [DigitChar(n)] else NatToString(n / 10) + [DigitChar(n % 10)]
  }

  /** f"{i}" for an integer: a minus sign for negative values. */
  function IntToString(i: int): (s: string)
    ensures |s| >= 1 && NoSpace(s) && '.' !in s
    ensures forall k | 0 <= k < |s| :: s[k] == '-' || IsDigit(s[k])
    ensures i >= 0 ==> s == NatToString(i)
  {
    var s := if i < 0 then "-" + NatToString(-i) else NatToString(i);
    assert forall k | 0 <= k < |s| :: s[k] == '-' || IsDigit(s[k]);
    s
  }

  lemma {:induction false} DigitsValueOfNatToString(n: nat)
    ensures DigitsValue(NatToString(n)) == n
    decreases n
  {
    if n >= 10 {
      var s := NatToString(n);
      assert s[..|s| - 1] == NatToString(n / 10);
      DigitsValueOfNatToString(n / 10);
    }
  }

  /**
   * Python's int(text): surrounding whitespace is allowed, then an optional
   * sign and one or more digits; anything else raises (here: None).
   */
  function ParseInt(s: string): Option<int>
  {
    var t := Strip(s);
    if |t| > 0 && t[0] == '-' then
      match ParseDigits(t[1..]) case Some(v) => Some(-(v as int)) case None => None
    else if |t| > 0 && t[0] == '+' then
      match ParseDigits(t[1..]) case Some(v) => Some(v as int) case None => None
    else
      match ParseDigits(t) case Some(v) => Some(v as int) case None => None
  }

  /** One or more digits and nothing else. */
  function ParseDigits(t: string): Option<nat>
  {
    if |t| > 0 && AllDigits(t) then Some(DigitsValue(t)) else None
  }

  /** Writing an integer and reading it back with int() gives the integer. */
  lemma ParseIntOfIntToString(i: int)
    ensures ParseInt(IntToString(i)) == Some(i)
  {
    if i < 0 {
      var digits := NatToString(-i);
      DigitsValueOfNatToString(-i);
      ParseIntSigned(digits);
    } else {
      var digits := NatToString(i);
      DigitsValueOfNatToString(i);
      ParseIntUnsigned(digits);
    }
  }

  lemma ParseIntSigned(digits: string)
    requires |digits| >= 1 && AllDigits(digits)
    ensures ParseInt("-" + digits) == Some(-(DigitsValue(digits) as int))
  {
    var s := "-" + digits;
    assert NoSpace(s);
    StripUnchanged(s);
    assert s[1..] == digits;
  }

  lemma ParseIntUnsigned(digits: string)
    requires |digits| >= 1 && AllDigits(digits)
    ensures ParseInt(digits) == Some(DigitsValue(digits))
  {
    assert NoSpace(digits);
    StripUnchanged(digits);
  }

  // ---------------------------------------------------------------- strip

  function TrimStart(s: string): (r: string)
    ensures |r| <= |s|
    decreases |s|
  {
    if |s| > 0 && IsSpace(s[0]) then TrimStart(s[1..]) else s
  }

  function TrimEnd(s: string): (r: string)
    ensures |r| <= |s|
    decreases |s|
  {
    if |s| > 0 && IsSpace(s[|s| - 1]) then TrimEnd(s[..|s| - 1]) else s
  }

  /** str.strip() with no argument. */
  function Strip(s: string): string { TrimEnd(TrimStart(s)) }

  /** A string that neither starts nor ends with whitespace is its own strip. */
  lemma StripUnchanged(s: string)
    requires |s| == 0 || (!IsSpace(s[0]) && !IsSpace(s[|s| - 1]))
    ensures Strip(s) == s
  {
  }

  /** Stripping only removes characters: one absent before is absent after. */
  lemma {:induction false} StripExcludes(s: string, c: char)
    requires c !in s
    ensures c !in Strip(s)
  {
    TrimStartExcludes(s, c);
    TrimEndExcludes(TrimStart(s), c);
  }

  lemma {:induction false} TrimStartExcludes(s: string, c: char)
    requires c !in s
    ensures c !in TrimStart(s)
    decreases |s|
  {
    if |s| > 0 && IsSpace(s[0]) {
      assert forall x | x in s[1..] :: x in s;
      TrimStartExcludes(s[1..], c);
    }
  }

  lemma {:induction false} TrimEndExcludes(s: string, c: char)
    requires c !in s
    ensures c !in TrimEnd(s)
    decreases |s|
  {
    if |s| > 0 && IsSpace(s[|s| - 1]) {
      assert forall x | x in s[..|s| - 1] :: x in s;
      TrimEndExcludes(s[..|s| - 1], c);
    }
  }

  // ---------------------------------------------------------------- split and join

  /** str.split(sep) for a one-character separator: always at least one field. */
  function Split(s: string, sep: char): (r: seq<string>)
    ensures |r| >= 1
    ensures forall k | 0 <= k < |r| :: sep !in r[k]
    decreases |s|
  {
    if |s| == 0 then [""]
    else
      var rest := Split(s[1..], sep);
      if s[0] == sep then [""] + rest else [[s[0]] + rest[0]] + rest[1..]
  }

  /** sep.join(xs) for a non-empty list. */
  function Join(xs: seq<string>, sep: char): string
    requires |xs| >= 1
    decreases |xs|
  {
    if |xs| == 1 then xs[0] else xs[0] + [sep] + Join(xs[1..], sep)
  }

  /** A character in no field and not the separator is not in the joined line. */
  lemma {:induction false} JoinExcludes(xs: seq<string>, sep: char, c: char)
    requires |xs| >= 1 && c != sep
    requires forall k | 0 <= k < |xs| :: c !in xs[k]
    ensures c !in Join(xs, sep)
    decreases |xs|
  {
    if |xs| > 1 {
      JoinExcludes(xs[1..], sep, c);
      assert forall k | 1 <= k < |xs| :: xs[1..][k - 1] == xs[k];
    }
  }

  lemma {:induction false} SplitPrepend(x: string, rest: string, sep: char)
    requires sep !in x
    ensures Split(x + rest, sep) == [x + Split(rest, sep)[0]] + Split(rest, sep)[1..]
    decreases |x|
  {
    if |x| > 0 {
      assert (x + rest)[1..] == x[1..] + rest;
      SplitPrepend(x[1..], rest, sep);
      assert [x[0]] + (x[1..] + Split(rest, sep)[0]) == x + Split(rest, sep)[0];
    } else {
      assert x + rest == rest;
      var r := Split(rest, sep);
      assert x + r[0] == r[0];
      assert [r[0]] + r[1..] == r;
    }
  }

  /** Splitting a joined line on its separator gives back the fields. */
  lemma {:induction false} SplitJoin(xs: seq<string>, sep: char)
    requires |xs| >= 1
    requires forall k | 0 <= k < |xs| :: sep !in xs[k]
    ensures Split(Join(xs, sep), sep) == xs
    decreases |xs|
  {
    if |xs| == 1 {
      SplitPrepend(xs[0], "", sep);
      assert xs[0] + "" == xs[0];
      assert Split(xs[0], sep) == [xs[0] + ""];
    } else {
      var tail := Join(xs[1..], sep);
      SplitJoin(xs[1..], sep);
      assert xs[0] + [sep] + tail == xs[0] + ([sep] + tail);
      SplitPrepend(xs[0], [sep] + tail, sep);
      assert ([sep] + tail)[1..] == tail;
      assert Split([sep] + tail, sep) == [""] + xs[1..];
      assert xs[0] + "" == xs[0];
    }
  }

  function WordLength(s: string): (n: nat)
    ensures n <= |s|
    ensures |s| > 0 && !IsSpace(s[0]) ==> n >= 1
    decreases |s|
  {
    if |s| > 0 && !IsSpace(s[0]) then 1 + WordLength(s[1..]) else 0
  }

  /** str.split() with no argument: the maximal runs of non-whitespace characters. */
  function Words(s: string): seq<string>
    decreases |s|
  {
    if |s| == 0 then []
    else if IsSpace(s[0]) then Words(s[1..])
    else
      var n := WordLength(s);
      [s[..n]] + Words(s[n..])
  }

  lemma {:induction false} WordLengthOfWord(x: string, rest: string)
    requires NoSpace(x)
    requires rest == [] || IsSpace(rest[0])
    ensures WordLength(x + rest) == |x|
    decreases |x|
  {
    if |x| > 0 {
      assert (x + rest)[1..] == x[1..] + rest;
      WordLengthOfWord(x[1..], rest);
    } else {
      assert x + rest == rest;
    }
  }

  /** Splitting a line of space-free, non-empty fields on whitespace gives back the fields. */
  lemma {:induction false} WordsJoin(xs: seq<string>, sep: char)
    requires |xs| >= 1 && IsSpace(sep)
    requires forall k | 0 <= k < |xs| :: |xs[k]| > 0 && NoSpace(xs[k])
    ensures Words(Join(xs, sep)) == xs
    decreases |xs|
  {
    var x := xs[0];
    if |xs| == 1 {
      WordLengthOfWord(x, "");
      assert x + "" == x;
      assert x[|x|..] == [];
    } else {
      var tail := Join(xs[1..], sep);
      var s := x + [sep] + tail;
      assert s == x + ([sep] + tail);
      WordLengthOfWord(x, [sep] + tail);
      assert s[..|x|] == x;
      assert s[|x|..] == [sep] + tail;
      assert ([sep] + tail)[1..] == tail;
      WordsJoin(xs[1..], sep);
    }
  }

  // ---------------------------------------------------------------- substrings

  predicate StartsWith(s: string, p: string) { |p| <= |s| && s[..|p|] == p }

  /** Python's `p in s` for strings. */
  predicate Contains(s: string, p: string)
    decreases |s|
  {
    StartsWith(s, p) || (|s| > 0 && Contains(s[1..], p))
  }

  lemma ContainsPrefix(p: string, rest: string)
    ensures Contains(p + rest, p)
  {
    assert (p + rest)[..|p|] == p;
  }

  /** A text lacking one of the pattern's characters cannot contain the pattern. */
  lemma {:induction false} NotContainsMissingChar(s: string, p: string, c: char)
    requires c in p && c !in s
    ensures !Contains(s, p)
    decreases |s|
  {
    if |p| <= |s| {
      var k :| 0 <= k < |p| && p[k] == c;
      assert s[..|p|][k] == s[k] != c;
      assert s[..|p|] != p;
    }
    if |s| > 0 {
      assert forall k | 0 <= k < |s[1..]| :: s[1..][k] == s[k + 1];
      NotContainsMissingChar(s[1..], p, c);
    }
  }

  lemma {:induction false} NotContainsShort(s: string, p: string)
    requires |s| < |p|
    ensures !Contains(s, p)
    decreases |s|
  {
    if |s| > 0 {
      NotContainsShort(s[1..], p);
    }
  }

  // ---------------------------------------------------------------- case

  function UpperChar(c: char): char { if 'a' <= c <= 'z' then (c as int - 32) as char else c }

  function LowerChar(c: char): char { if 'A' <= c <= 'Z' then (c as int + 32) as char else c }

  /** str.upper() on ASCII text. */
  function Upper(s: string): (r: string)
    ensures |r| == |s|
    ensures forall i | 0 <= i < |s| :: r[i] == UpperChar(s[i])
  {
    seq(|s|, i requires 0 <= i < |s| => UpperChar(s[i]))
  }

  /** Upper-cased text holds no lower-case 'g', and an 'E' only where the text had an 'e' or 'E'. */
  lemma UpperLetters(s: string)
    ensures 'g' !in Upper(s)
    ensures 'e' !in s && 'E' !in s ==> 'E' !in Upper(s)
  {
  }

  /** str.lower() on ASCII text. */
  function Lower(s: string): (r: string)
    ensures |r| == |s|
    ensures forall i | 0 <= i < |s| :: r[i] == LowerChar(s[i])
  {
    seq(|s|, i requires 0 <= i < |s| => LowerChar(s[i]))
  }

  // ---------------------------------------------------------------- `:\s*(\d+)`

  /** The number that follows a colon: optional whitespace, then one or more digits. */
  function NumberAfterColon(s: string): Option<nat>
  {
    var t := TrimStart(s);
    var n := DigitRun(t);
    if n == 0 then None else Some(DigitsValue(t[..n]))
  }

  /**
   * re.search(r":\s*(\d+)", s).group(1) as a number: the first colon that is
   * followed by optional whitespace and a digit run; None when there is none.
   */
  function ColonNumber(s: string): Option<nat>
    decreases |s|
  {
    if |s| == 0 then None
    else if s[0] == ':' && NumberAfterColon(s[1..]).Some? then NumberAfterColon(s[1..])
    else ColonNumber(s[1..])
  }

  lemma {:induction false} ColonNumberOf(pre: string, gap: string, n: nat, rest: string)
    requires ':' !in pre && AllSpace(gap)
    requires rest == [] || !IsDigit(rest[0])
    ensures ColonNumber(pre + ":" + gap + NatToString(n) + rest) == Some(n)
    decreases |pre|
  {
    var digits := NatToString(n);
    var s := pre + ":" + gap + digits + rest;
    if |pre| == 0 {
      var after := gap + digits + rest;
      assert s == [':'] + after;
      assert s[1..] == after;
      TrimStartOverSpace(gap, digits + rest);
      assert after == gap + (digits + rest);
      DigitRunOf(digits, rest);
      assert (digits + rest)[..|digits|] == digits;
      DigitsValueOfNatToString(n);
    } else {
      assert s[1..] == pre[1..] + ":" + gap + digits + rest;
      ColonNumberOf(pre[1..], gap, n, rest);
    }
  }

  lemma {:induction false} TrimStartOverSpace(gap: string, s: string)
    requires AllSpace(gap)
    requires |s| > 0 && !IsSpace(s[0])
    ensures TrimStart(gap + s) == s
    decreases |gap|
  {
    if |gap| > 0 {
      assert (gap + s)[1..] == gap[1..] + s;
      TrimStartOverSpace(gap[1..], s);
    } else {
      assert gap + s == s;
    }
  }

  lemma {:induction false} DigitRunOf(digits: string, rest: string)
    requires AllDigits(digits)
    requires rest == [] || !IsDigit(rest[0])
    ensures DigitRun(digits + rest) == |digits|
    decreases |digits|
  {
    if |digits| > 0 {
      assert (digits + rest)[1..] == digits[1..] + rest;
      DigitRunOf(digits[1..], rest);
    } else {
      assert digits + rest == rest;
    }
  }
}
