/** The JavaScript string operations the dashboard relies on, restricted to
    what it needs: substring search, case mapping and accent stripping on
    Latin-1, `trim`, `replace` with a string pattern, and decimal rendering
    of non-negative integers. */
module Text {

  // ---------------------------------------------------------------------
  // Substring search (`String.prototype.includes`)
  // ---------------------------------------------------------------------

  /** `sub` occurs somewhere in `s`. */
  predicate Contains(s: string, sub: string)
    decreases |s|
  {
    sub <= s || (|s| > 0 && Contains(s[1..], sub))
  }

  /** Position-based reading of an occurrence. */
  ghost predicate OccursAt(s: string, sub: string, i: int)
  {
    0 <= i && i + |sub| <= |s| && s[i..i + |sub|] == sub
  }

  /** An occurrence at some index is found by `Contains`. */
  lemma {:induction false} OccursAtContains(s: string, sub: string, i: int)
    requires OccursAt(s, sub, i)
    ensures Contains(s, sub)
    decreases i
  {
    if i == 0 {
      assert s[..|sub|] == sub;
    } else {
      assert s[1..][i - 1..i - 1 + |sub|] == s[i..i + |sub|];
      OccursAtContains(s[1..], sub, i - 1);
    }
  }

  /** Whatever surrounds it, a string contains itself. */
  lemma ContainsMiddle(a: string, sub: string, b: string)
    ensures Contains(a + sub + b, sub)
  {
    var s := a + sub + b;
    assert s[|a|..|a| + |sub|] == sub;
    OccursAtContains(s, sub, |a|);
  }

  /** `Contains` agrees with the existence of an occurrence at some index. */
  lemma {:induction false} ContainsIffOccurs(s: string, sub: string)
    ensures Contains(s, sub) <==> exists i :: OccursAt(s, sub, i)
    decreases |s|
  {
    if sub <= s {
      assert OccursAt(s, sub, 0);
    } else if |s| > 0 && Contains(s[1..], sub) {
      ContainsIffOccurs(s[1..], sub);
      var i :| OccursAt(s[1..], sub, i);
      assert s[i + 1..i + 1 + |sub|] == s[1..][i..i + |sub|];
      assert OccursAt(s, sub, i + 1);
    }
    forall i | OccursAt(s, sub, i) ensures Contains(s, sub) {
      OccursAtContains(s, sub, i);
    }
  }

  // ---------------------------------------------------------------------
  // Case mapping and accent stripping, exact on Latin-1 (U+0000..U+00FF)
  // ---------------------------------------------------------------------

  function LowerChar(c: char): char
  {
    if 'A' <= c <= 'Z' || ('\U{00C0}' <= c <= '\U{00DE}' && c != '\U{00D7}')
    then (c as int + 32) as char
    else c
  }

  /** `toLowerCase`, one character for one character. */
  function Lower(s: string): (r: string)
    ensures |r| == |s|
  {
    seq(|s|, i requires 0 <= i < |s| => LowerChar(s[i]))
  }

  lemma LowerAppend(a: string, b: string)
    ensures Lower(a + b) == Lower(a) + Lower(b)
  {
  }

  /** `toUpperCase` of one character; the sharp s becomes two letters. */
  function UpperChar(c: char): string
  {
    if 'a' <= c <= 'z' || ('\U{00E0}' <= c <= '\U{00FE}' && c != '\U{00F7}') then [(c as int - 32) as char]
    else if c == '\U{00FF}' then ['\U{0178}']
    else if c == '\U{00B5}' then ['\U{039C}']
    else if c == '\U{00DF}' then "SS"
    else [c]
  }

  function Upper(s: string): string
    decreases |s|
  {
    if s == [] then [] else UpperChar(s[0]) + Upper(s[1..])
  }

  /** Canonical decomposition followed by removal of the combining marks
      U+0300..U+036F, for one lower-case Latin-1 character or mark. */
  function StripAccentChar(c: char): string
  {
    if '\U{0300}' <= c <= '\U{036F}' then []
    else if '\U{00E0}' <= c <= '\U{00E5}' then "a"
    else if c == '\U{00E7}' then "c"
    else if '\U{00E8}' <= c <= '\U{00EB}' then "e"
    else if '\U{00EC}' <= c <= '\U{00EF}' then "i"
    else if c == '\U{00F1}' then "n"
    else if '\U{00F2}' <= c <= '\U{00F6}' then "o"
    else if '\U{00F9}' <= c <= '\U{00FC}' then "u"
    else if c == '\U{00FD}' || c == '\U{00FF}' then "y"
    else [c]
  }

  function StripAccents(s: string): string
    decreases |s|
  {
    if s == [] then [] else StripAccentChar(s[0]) + StripAccents(s[1..])
  }

  /** Accents are stripped piecewise. */
  lemma {:induction false} StripAccentsAppend(a: string, b: string)
    ensures StripAccents(a + b) == StripAccents(a) + StripAccents(b)
    decreases |a|
  {
    if a != [] {
      assert (a + b)[0] == a[0];
      assert (a + b)[1..] == a[1..] + b;
      StripAccentsAppend(a[1..], b);
    } else {
      assert a + b == b;
    }
  }

  /** Case folding and accent stripping work piece by piece. */
  lemma FoldAppend(a: string, b: string, c: string)
    ensures StripAccents(Lower(a + b + c)) == StripAccents(Lower(a)) + StripAccents(Lower(b)) + StripAccents(Lower(c))
  {
    LowerAppend(a + b, c);
    LowerAppend(a, b);
    StripAccentsAppend(Lower(a) + Lower(b), Lower(c));
    StripAccentsAppend(Lower(a), Lower(b));
  }

  /** Text without accented letters or combining marks is left alone. */
  lemma {:induction false} StripAccentsPlain(s: string)
    requires forall i :: 0 <= i < |s| ==> s[i] < '\U{00C0}'
    ensures StripAccents(s) == s
    decreases |s|
  {
    if s != [] {
      StripAccentsPlain(s[1..]);
    }
  }

  // ---------------------------------------------------------------------
  // `trim`
  // ---------------------------------------------------------------------

  /** ECMAScript WhiteSpace and LineTerminator code points. */
  predicate IsWhitespace(c: char)
  {
    c == ' ' || c == '\t' || c == '\n' || c == '\r' || c == '\U{000B}' || c == '\U{000C}'
    || c == '\U{00A0}' || c == '\U{FEFF}' || c == '\U{1680}' || ('\U{2000}' <= c <= '\U{200A}')
    || c == '\U{2028}' || c == '\U{2029}' || c == '\U{202F}' || c == '\U{205F}' || c == '\U{3000}'
  }

  predicate AllWhitespace(s: string)
  {
    forall i :: 0 <= i < |s| ==> IsWhitespace(s[i])
  }

  /** Drops the leading whitespace: what is left is a suffix of `s` that does
      not start with whitespace, and everything dropped was whitespace. */
  function TrimStart(s: string): (r: string)
    ensures |r| <= |s| && r == s[|s| - |r|..]
    ensures AllWhitespace(s[..|s| - |r|])
    ensures r != [] ==> !IsWhitespace(r[0])
    decreases |s|
  {
    if s != [] && IsWhitespace(s[0]) then TrimStart(s[1..]) else s
  }

  /** Drops the trailing whitespace, symmetrically. */
  function TrimEnd(s: string): (r: string)
    ensures |r| <= |s| && r == s[..|r|]
    ensures AllWhitespace(s[|r|..])
    ensures r != [] ==> !IsWhitespace(r[|r| - 1])
    decreases |s|
  {
    if s != [] && IsWhitespace(s[|s| - 1]) then
      var r := TrimEnd(s[..|s| - 1]);
      assert s[..|s| - 1][..|r|] == s[..|r|];
      assert s[|r|..] == s[..|s| - 1][|r|..] + [s[|s| - 1]];
      r
    else s
  }

  function Trim(s: string): string
  {
    TrimEnd(TrimStart(s))
  }

  /** A string trims to nothing exactly when it is all whitespace. */
  lemma TrimEmptyIffBlank(s: string)
    ensures Trim(s) == [] <==> AllWhitespace(s)
  {
    if Trim(s) == [] {
      TrimmedToNothing(s);
    }
  }

  lemma TrimmedToNothing(s: string)
    requires Trim(s) == []
    ensures AllWhitespace(s)
  {
    var t := TrimStart(s);
    var k := |s| - |t|;
    assert t[0..] == t;
    assert AllWhitespace(t);
    assert AllWhitespace(s[..k]);
    forall i | 0 <= i < |s| ensures IsWhitespace(s[i]) {
      if i < k {
        assert s[i] == s[..k][i];
      } else {
        assert s[i] == t[i - k];
      }
    }
  }

  // ---------------------------------------------------------------------
  // `replace` with a string pattern (first occurrence only), and a global
  // removal of one character
  // ---------------------------------------------------------------------

  function ReplaceFirst(s: string, pat: string, rep: string): string
    decreases |s|
  {
    if pat <= s then rep + s[|pat|..]
    else if s == [] then []
    else [s[0]] + ReplaceFirst(s[1..], pat, rep)
  }

  function RemoveAll(s: string, c: char): string
    decreases |s|
  {
    if s == [] then [] else (if s[0] == c then [] else [s[0]]) + RemoveAll(s[1..], c)
  }

  function Count(s: string, c: char): nat
    decreases |s|
  {
    if s == [] then 0 else (if s[0] == c then 1 else 0) + Count(s[1..], c)
  }

  lemma {:induction false} CountAppend(a: string, b: string, c: char)
    ensures Count(a + b, c) == Count(a, c) + Count(b, c)
    decreases |a|
  {
    if a != [] {
      assert (a + b)[0] == a[0];
      assert (a + b)[1..] == a[1..] + b;
      CountAppend(a[1..], b, c);
      assert Count(a + b, c) == (if a[0] == c then 1 else 0) + Count(a[1..] + b, c);
    } else {
      assert a + b == b;
    }
  }

  /** After removing every `c`, none is left. */
  lemma {:induction false} RemoveAllRemoves(s: string, c: char)
    ensures Count(RemoveAll(s, c), c) == 0
    decreases |s|
  {
    if s != [] {
      RemoveAllRemoves(s[1..], c);
      CountAppend(if s[0] == c then [] else [s[0]], RemoveAll(s[1..], c), c);
    }
  }

  /** Replacing the first occurrence of a one-letter pattern by another
      letter `b` adds at most one `b`. */
  lemma {:induction false} ReplaceFirstCount(s: string, a: char, b: char)
    ensures Count(ReplaceFirst(s, [a], [b]), b) <= Count(s, b) + 1
    decreases |s|
  {
    if [a] <= s {
      assert s == [s[0]] + s[1..];
      CountAppend([s[0]], s[1..], b);
      CountAppend([b], s[1..], b);
    } else if s != [] {
      ReplaceFirstCount(s[1..], a, b);
      CountAppend([s[0]], ReplaceFirst(s[1..], [a], [b]), b);
      assert s == [s[0]] + s[1..];
      CountAppend([s[0]], s[1..], b);
    }
  }

  // ---------------------------------------------------------------------
  // Decimal digits (`Number.prototype.toString` on non-negative integers)
  // ---------------------------------------------------------------------

  predicate IsDigit(c: char)
  {
    '0' <= c <= '9'
  }

  predicate AllDigits(s: string)
  {
    forall i :: 0 <= i < |s| ==> IsDigit(s[i])
  }

  function DigitChar(d: nat): (c: char)
    requires d < 10
    ensures IsDigit(c)
  {
    ('0' as int + d) as char
  }

  function DigitValue(c: char): nat
    requires IsDigit(c)
  {
    c as int - '0' as int
  }

  /** The decimal rendering of `n`: non-empty, digits only, and without a
      leading zero unless `n` is zero. */
  function NatToString(n: nat): (r: string)
    ensures |r| >= 1 && AllDigits(r)
    ensures r[0] == '0' <==> n == 0
    ensures |r| == 1 <==> n < 10
    decreases n
  {
    if n < 10 then [DigitChar(n)] else NatToString(n / 10) + [DigitChar(n % 10)]
  }

  /** Reads a run of digits back as a number. */
  function DigitsValue(ds: string): nat
    requires AllDigits(ds)
    decreases |ds|
  {
    if ds == [] then 0 else DigitsValue(ds[..|ds| - 1]) * 10 + DigitValue(ds[|ds| - 1])
  }

  /** Rendering then reading gives the number back. */
  lemma {:induction false} NatToStringRoundTrip(n: nat)
    ensures DigitsValue(NatToString(n)) == n
    decreases n
  {
    if n >= 10 {
      var r := NatToString(n);
      assert r[..|r| - 1] == NatToString(n / 10);
      NatToStringRoundTrip(n / 10);
    }
  }

  /** `padStart(2, "0")`. */
  function Pad2(s: string): (r: string)
    ensures |s| <= 2 ==> |r| == 2
    ensures |s| < 2 ==> r == seq(2 - |s|, _ => '0') + s
    ensures |s| >= 2 ==> r == s
  {
    if |s| == 0 then "00" else if |s| == 1 then "0" + s else s
  }
}
