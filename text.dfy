/** String helpers shared by the three tools: the pieces of Python's `str`
    and `int` behaviour that the tools rely on, stated over `seq<char>`. */
module Text {

  datatype Option<T> = None | Some(value: T)

  /** Python's `str.isspace()`, which is also what `str.strip()` removes and
      what `\s` matches in a `str` regular expression. */
  predicate IsSpace(c: char) {
    c == ' ' || ('\t' <= c <= '\r') || ('\U{1c}' <= c <= '\U{1f}')
    || c == '\U{85}' || c == '\U{a0}' || c == '\U{1680}'
    || ('\U{2000}' <= c <= '\U{200a}') || c == '\U{2028}' || c == '\U{2029}'
    || c == '\U{202f}' || c == '\U{205f}' || c == '\U{3000}'
  }

  predicate NoSpace(s: string) {
    forall i {:trigger IsSpace(s[i])} :: 0 <= i < |s| ==> !IsSpace(s[i])
  }

  predicate AllSpace(s: string) {
    forall i {:trigger IsSpace(s[i])} :: 0 <= i < |s| ==> IsSpace(s[i])
  }

  /** The end of the run of whitespace that starts at `i`. */
  function SpaceEnd(s: string, i: nat): (n: nat)
    requires i <= |s|
    ensures i <= n <= |s| && (n < |s| ==> !IsSpace(s[n]))
    ensures forall k {:trigger IsSpace(s[k])} :: i <= k < n ==> IsSpace(s[k])
    decreases |s| - i
  {
    if i < |s| && IsSpace(s[i]) then SpaceEnd(s, i + 1) else i
  }

  /** The start of the run of whitespace that ends just before `j`, not
      going below `lo`. */
  function SpaceStart(s: string, lo: nat, j: nat): (n: nat)
    requires lo <= j <= |s|
    ensures lo <= n <= j && (n > lo ==> !IsSpace(s[n - 1]))
    ensures forall k {:trigger IsSpace(s[k])} :: n <= k < j ==> IsSpace(s[k])
  {
    if j > lo && IsSpace(s[j - 1]) then SpaceStart(s, lo, j - 1) else j
  }

  /** `s.strip()`: leading whitespace is skipped, then trailing whitespace
      is cut off what remains. */
  function Strip(s: string): (r: string)
    ensures |r| <= |s|
    ensures r == [] || (!IsSpace(r[0]) && !IsSpace(r[|r| - 1]))
  {
    var lo := SpaceEnd(s, 0);
    s[lo..SpaceStart(s, lo, |s|)]
  }

  /** What `strip()` removes is whitespace around a slice of `s`. */
  lemma StripSlice(s: string) returns (lo: nat)
    ensures lo + |Strip(s)| <= |s| && Strip(s) == s[lo..lo + |Strip(s)|]
    ensures forall i :: 0 <= i < lo ==> IsSpace(s[i])
    ensures forall i :: lo + |Strip(s)| <= i < |s| ==> IsSpace(s[i])
  {
    lo := SpaceEnd(s, 0);
  }

  lemma StripBlankIff(s: string)
    ensures Strip(s) == [] <==> AllSpace(s)
  {
    var lo := StripSlice(s);
  }

  lemma StripNoSpace(s: string)
    requires NoSpace(s)
    ensures Strip(s) == s
  {
    StripTrimmed(s);
  }

  /** `strip()` removes exactly the whitespace padding around a string
      that has none at its own ends. */
  lemma StripPadded(w1: string, t: string, w2: string)
    requires AllSpace(w1) && AllSpace(w2)
    requires t != [] && !IsSpace(t[0]) && !IsSpace(t[|t| - 1])
    ensures Strip(w1 + t + w2) == t
  {
    var s := w1 + t + w2;
    var a, b := |w1|, |w1| + |t|;
    assert forall k :: 0 <= k < a ==> s[k] == w1[k];
    assert forall k :: b <= k < |s| ==> s[k] == w2[k - b];
    assert s[a] == t[0] && s[b - 1] == t[|t| - 1];
    assert forall k :: 0 <= k < a ==> IsSpace(s[k]);
    assert forall k :: b <= k < |s| ==> IsSpace(s[k]);
    assert !IsSpace(s[a]) && !IsSpace(s[b - 1]);
    var lo := SpaceEnd(s, 0);
    assert lo == a;
    var hi := SpaceStart(s, lo, |s|);
    assert hi == b;
    assert s[a..b] == t;
  }

  /** Whitespace in Python's sense goes beyond ASCII: the vertical tab, the
      form feed, the no-break space, the line separator and the ideographic
      space are whitespace; the zero-width space and the byte-order mark,
      like letters and `_`, are not. */
  lemma IsSpaceExamples()
    ensures IsSpace(' ') && IsSpace('\t') && IsSpace('\n') && IsSpace('\r')
    ensures IsSpace('\U{0b}') && IsSpace('\U{0c}') && IsSpace('\U{a0}') && IsSpace('\U{2028}') && IsSpace('\U{3000}')
    ensures !IsSpace('\U{200b}') && !IsSpace('\U{feff}') && !IsSpace('a') && !IsSpace('_')
  {
  }

  /** So `strip()` also removes an ideographic space in front and a
      no-break space and a newline behind. */
  lemma StripUnicodeSpace(t: string)
    requires t != [] && !IsSpace(t[0]) && !IsSpace(t[|t| - 1])
    ensures Strip("\U{3000}" + t + "\U{a0}\n") == t
  {
    StripPadded("\U{3000}", t, "\U{a0}\n");
  }

  /** A string with no whitespace at either end is its own `strip()`. */
  lemma StripTrimmed(s: string)
    requires s == [] || (!IsSpace(s[0]) && !IsSpace(s[|s| - 1]))
    ensures Strip(s) == s
  {
    assert SpaceEnd(s, 0) == 0;
    assert SpaceStart(s, 0, |s|) == |s|;
    assert s[0..|s|] == s;
  }

  /** ASCII case mapping (Python's `lower()` and `upper()` restricted to ASCII). */
  function LowerChar(c: char): (r: char)
    ensures ('A' <= c <= 'Z') ==> 'a' <= r <= 'z'
    ensures !('A' <= c <= 'Z') ==> r == c
  {
    if 'A' <= c <= 'Z' then (c as int + 32) as char else c
  }

  function UpperChar(c: char): (r: char)
    ensures ('a' <= c <= 'z') ==> 'A' <= r <= 'Z'
    ensures !('a' <= c <= 'z') ==> r == c
  {
    if 'a' <= c <= 'z' then (c as int - 32) as char else c
  }

  function Lower(s: string): (r: string)
    ensures |r| == |s| && forall i :: 0 <= i < |s| ==> r[i] == LowerChar(s[i])
  {
    if s == [] then [] else [LowerChar(s[0])] + Lower(s[1..])
  }

  function Upper(s: string): (r: string)
    ensures |r| == |s| && forall i :: 0 <= i < |s| ==> r[i] == UpperChar(s[i])
  {
    if s == [] then [] else [UpperChar(s[0])] + Upper(s[1..])
  }

  lemma LowerNoUpper(s: string)
    requires forall i :: 0 <= i < |s| ==> !('A' <= s[i] <= 'Z')
    ensures Lower(s) == s
  {
  }

  lemma {:induction false} LowerAppend(a: string, b: string)
    ensures Lower(a + b) == Lower(a) + Lower(b)
  {
    if a == [] {
      assert a + b == b;
    } else {
      assert (a + b)[0] == a[0] && (a + b)[1..] == a[1..] + b;
      LowerAppend(a[1..], b);
    }
  }

  predicate StartsWith(s: string, prefix: string) {
    |prefix| <= |s| && s[..|prefix|] == prefix
  }

  predicate OccursAt(hay: string, needle: string, i: nat) {
    i + |needle| <= |hay| && hay[i..i + |needle|] == needle
  }

  /** `needle in hay`, by scanning start positions. */
  predicate Contains(hay: string, needle: string)
    decreases |hay|
  {
    StartsWith(hay, needle) || (hay != [] && Contains(hay[1..], needle))
  }

  lemma {:induction false} ContainsIff(hay: string, needle: string)
    ensures Contains(hay, needle) <==> exists i: nat :: OccursAt(hay, needle, i)
    decreases |hay|
  {
    if StartsWith(hay, needle) {
      assert OccursAt(hay, needle, 0);
    } else if hay == [] {
    } else {
      ContainsIff(hay[1..], needle);
      if exists i: nat :: OccursAt(hay, needle, i) {
        var i: nat :| OccursAt(hay, needle, i);
        assert i != 0;
        assert hay[1..][i - 1..i - 1 + |needle|] == hay[i..i + |needle|];
        assert OccursAt(hay[1..], needle, i - 1);
      }
      if Contains(hay[1..], needle) {
        var i: nat :| OccursAt(hay[1..], needle, i);
        assert hay[1..][i..i + |needle|] == hay[i + 1..i + 1 + |needle|];
        assert OccursAt(hay, needle, i + 1);
      }
    }
  }

  lemma ContainsAt(hay: string, needle: string, i: nat)
    requires OccursAt(hay, needle, i)
    ensures Contains(hay, needle)
  {
    ContainsIff(hay, needle);
  }

  lemma ContainsMiddle(a: string, b: string, c: string)
    ensures Contains(a + b + c, b)
  {
    assert (a + b + c)[|a|..|a| + |b|] == b;
    ContainsAt(a + b + c, b, |a|);
  }

  /** Lower-casing a string keeps the lower-cased middle piece inside it. */
  lemma ContainsLowered(a: string, b: string, c: string, lb: string)
    requires Lower(b) == lb
    ensures Contains(Lower(a + b + c), lb)
  {
    LowerAppend(a, b);
    LowerAppend(a + b, c);
    ContainsMiddle(Lower(a), lb, Lower(c));
  }

  /** Some element of `needles` occurs in `hay`. */
  predicate ContainsAny(hay: string, needles: seq<string>) {
    needles != [] && (Contains(hay, needles[0]) || ContainsAny(hay, needles[1..]))
  }

  lemma {:induction false} ContainsAnyIff(hay: string, needles: seq<string>)
    ensures ContainsAny(hay, needles) <==> exists k :: 0 <= k < |needles| && Contains(hay, needles[k])
  {
    if needles != [] {
      ContainsAnyIff(hay, needles[1..]);
      if exists k :: 0 <= k < |needles| && Contains(hay, needles[k]) {
        var k :| 0 <= k < |needles| && Contains(hay, needles[k]);
        if k > 0 { assert needles[1..][k - 1] == needles[k]; }
      }
    }
  }

  /** The parts, with `sep` between each two neighbours (`str.join`). */
  function Join(sep: string, parts: seq<string>): string {
    if |parts| == 0 then ""
    else if |parts| == 1 then parts[0]
    else parts[0] + sep + Join(sep, parts[1..])
  }

  /** A joined text opens with its first part. */
  lemma JoinStartsWith(sep: string, parts: seq<string>)
    requires |parts| > 0
    ensures StartsWith(Join(sep, parts), parts[0])
  {
    if |parts| > 1 {
      assert Join(sep, parts) == parts[0] + (sep + Join(sep, parts[1..]));
    }
  }

  /** Joining lines that hold no line break with "\n" gives one line per
      part: exactly one break between each two neighbours. */
  lemma {:induction false} JoinLines(parts: seq<string>)
    requires forall i :: 0 <= i < |parts| ==> Count(parts[i], '\n') == 0
    ensures Count(Join("\n", parts), '\n') == if parts == [] then 0 else |parts| - 1
  {
    if |parts| > 1 {
      var rest := parts[1..];
      assert forall i :: 0 <= i < |rest| ==> rest[i] == parts[i + 1];
      JoinLines(rest);
      CountAppend(parts[0] + "\n", Join("\n", rest), '\n');
      CountAppend(parts[0], "\n", '\n');
      assert Count("\n", '\n') == 1;
    }
  }

  lemma StartsWithTrans(s: string, p: string, q: string)
    requires StartsWith(s, p) && StartsWith(p, q)
    ensures StartsWith(s, q)
  {
    assert s[..|q|] == p[..|q|];
  }

  lemma AppendAssoc<T>(a: seq<T>, b: seq<T>, c: seq<T>)
    ensures a + b + c == a + (b + c)
  {
  }

  /** Number of occurrences of `c` in `s` (`s.count(c)`). */
  function Count(s: string, c: char): nat {
    if s == [] then 0 else (if s[0] == c then 1 else 0) + Count(s[1..], c)
  }

  lemma {:induction false} CountAppend(a: string, b: string, c: char)
    ensures Count(a + b, c) == Count(a, c) + Count(b, c)
  {
    if a != [] {
      assert (a + b)[0] == a[0];
      assert (a + b)[1..] == a[1..] + b;
      CountAppend(a[1..], b, c);
      assert Count(a + b, c) == (if a[0] == c then 1 else 0) + Count(a[1..] + b, c);
    } else {
      assert a + b == b;
    }
  }

  lemma {:induction false} CountZero(s: string, c: char)
    ensures Count(s, c) == 0 <==> forall i :: 0 <= i < |s| ==> s[i] != c
  {
    if s != [] {
      CountZero(s[1..], c);
      assert forall i :: 1 <= i < |s| ==> s[1..][i - 1] == s[i];
    }
  }

  /** The first index of `c` in `s`, if any (`s.find(c)`). */
  function IndexOf(s: string, c: char): (r: Option<nat>)
    ensures r.Some? ==> r.value < |s| && s[r.value] == c
                        && forall j :: 0 <= j < r.value ==> s[j] != c
    ensures r.None? ==> forall j :: 0 <= j < |s| ==> s[j] != c
  {
    IndexFrom(s, c, 0)
  }

  /** The first index at or after `i` holding `c`, if any. */
  function IndexFrom(s: string, c: char, i: nat): (r: Option<nat>)
    requires i <= |s|
    ensures r.Some? ==> i <= r.value < |s| && s[r.value] == c
                        && forall j :: i <= j < r.value ==> s[j] != c
    ensures r.None? ==> forall j :: i <= j < |s| ==> s[j] != c
    decreases |s| - i
  {
    if i == |s| then None
    else if s[i] == c then Some(i)
    else IndexFrom(s, c, i + 1)
  }

  lemma IndexOfAfter(h: string, c: char, rest: string)
    requires forall j :: 0 <= j < |h| ==> h[j] != c
    ensures IndexOf(h + [c] + rest, c) == Some(|h|)
  {
    var s := h + [c] + rest;
    assert s[|h|] == c;
    assert forall j :: 0 <= j < |h| ==> s[j] == h[j];
  }

  // ----- decimal digits -----

  predicate IsDigit(c: char) { '0' <= c <= '9' }

  predicate AllDigits(s: string) {
    forall i :: 0 <= i < |s| ==> IsDigit(s[i])
  }

  function DigitChar(d: nat): (c: char)
    requires d < 10
    ensures IsDigit(c) && c as int - '0' as int == d
  {
    ('0' as int + d) as char
  }

  /** The value of a string of decimal digits, most significant first. */
  function DigitsValue(s: string): (v: nat)
    requires AllDigits(s)
  {
    if s == [] then 0
    else DigitsValue(s[..|s| - 1]) * 10 + (s[|s| - 1] as int - '0' as int)
  }

  /** `str(n)` for a natural number. */
  function NatToString(n: nat): (s: string)
    ensures s != [] && AllDigits(s)
  {
    if n < 10 then [DigitChar(n)] else NatToString(n / 10) + [DigitChar(n % 10)]
  }

  /** `str(i)` for an integer. */
  function IntToString(i: int): (s: string)
    ensures s != []
  {
    if i < 0 then "-" + NatToString(-i) else NatToString(i)
  }

  lemma {:induction false} NatToStringValue(n: nat)
    ensures DigitsValue(NatToString(n)) == n
  {
    if n >= 10 {
      NatToStringValue(n / 10);
      var s := NatToString(n);
      assert s[..|s| - 1] == NatToString(n / 10);
    }
  }

  /** A larger number never has fewer digits. */
  lemma {:induction false} NatToStringMonotone(a: nat, b: nat)
    requires a <= b
    ensures |NatToString(a)| <= |NatToString(b)|
  {
    if a >= 10 {
      NatToStringMonotone(a / 10, b / 10);
    }
  }

  /** Different integers print differently. */
  lemma IntToStringInjective(i: int, j: int)
    requires IntToString(i) == IntToString(j)
    ensures i == j
  {
    var s := IntToString(i);
    assert (s[0] == '-') == (i < 0);
    assert (s[0] == '-') == (j < 0);
    if i < 0 {
      assert NatToString(-i) == s[1..] == NatToString(-j);
      NatToStringValue(-i);
      NatToStringValue(-j);
    } else {
      NatToStringValue(i);
      NatToStringValue(j);
    }
  }

  // ----- Python's int() on a string -----

  /** `xs` with every `_` removed. */
  function DropUnderscores(s: string): (r: string)
    ensures |r| <= |s|
  {
    if s == [] then []
    else (if s[0] == '_' then [] else [s[0]]) + DropUnderscores(s[1..])
  }

  lemma {:induction false} DecimalBodyDigits(b: string)
    requires DecimalBody(b)
    ensures AllDigits(DropUnderscores(b)) && DropUnderscores(b) != []
    decreases |b|
  {
    assert b == [b[0]] + b[1..];
    if |b| == 1 {
    } else if DecimalBody(b[1..]) {
      DecimalBodyDigits(b[1..]);
    } else {
      DecimalBodyDigits(b[2..]);
      assert b[1..][1..] == b[2..];
    }
  }

  lemma {:induction false} DropUnderscoresNone(s: string)
    requires AllDigits(s)
    ensures DropUnderscores(s) == s
  {
    if s != [] { DropUnderscoresNone(s[1..]); }
  }

  /** The digit body `int()` accepts in base 10: digits, where single
      underscores may separate two digits. */
  predicate DecimalBody(b: string)
    decreases |b|
  {
    && |b| >= 1
    && IsDigit(b[0])
    && (|b| == 1 || DecimalBody(b[1..]) || (b[1] == '_' && DecimalBody(b[2..])))
  }

  function BodyValue(b: string): nat
    requires DecimalBody(b)
  {
    DecimalBodyDigits(b);
    DigitsValue(DropUnderscores(b))
  }

  /** The most digits `int()` converts from a decimal string: CPython's
      default integer string conversion length limit (3.11 on, and the
      3.10.7, 3.9.14, 3.8.14 and 3.7.14 security releases).  Leading zeros
      count; underscores do not. */
  const MaxStrDigits := 4300

  /** A decimal body `int()` accepts, as a number: longer bodies raise
      `ValueError` like malformed ones. */
  function ParseBody(b: string): Option<nat> {
    if DecimalBody(b) && |DropUnderscores(b)| <= MaxStrDigits then Some(BodyValue(b)) else None
  }

  /** The digit-body grammar stated position by position: every character
      is a digit or an underscore, the ends are digits, and every
      underscore sits between two digits. */
  predicate DigitGroups(b: string) {
    && |b| >= 1 && IsDigit(b[0]) && IsDigit(b[|b| - 1])
    && forall i :: 0 <= i < |b| ==>
         IsDigit(b[i]) || (b[i] == '_' && 0 < i < |b| - 1 && IsDigit(b[i - 1]) && IsDigit(b[i + 1]))
  }

  lemma DigitGroupsTail(b: string, k: nat)
    requires DigitGroups(b) && 1 <= k < |b| && IsDigit(b[k])
    ensures DigitGroups(b[k..])
  {
    var t := b[k..];
    assert t[0] == b[k] && t[|t| - 1] == b[|b| - 1];
    forall j | 0 <= j < |t|
      ensures IsDigit(t[j]) || (t[j] == '_' && 0 < j < |t| - 1 && IsDigit(t[j - 1]) && IsDigit(t[j + 1]))
    {
      assert t[j] == b[j + k];
      if 0 < j < |t| - 1 {
        assert t[j - 1] == b[j + k - 1] && t[j + 1] == b[j + k + 1];
      }
    }
  }

  lemma DigitGroupsCons(b: string, k: nat)
    requires 1 <= k <= 2 && k < |b| && IsDigit(b[0]) && (k == 2 ==> b[1] == '_')
    requires DigitGroups(b[k..])
    ensures DigitGroups(b)
  {
    var t := b[k..];
    assert forall j :: 0 <= j < |t| ==> t[j] == b[j + k];
    assert b[k] == t[0] && b[|b| - 1] == t[|t| - 1];
    forall i | k <= i < |b|
      ensures IsDigit(b[i]) || (b[i] == '_' && 0 < i < |b| - 1 && IsDigit(b[i - 1]) && IsDigit(b[i + 1]))
    {
      assert b[i] == t[i - k];
      if i > k && i + 1 < |b| {
        assert b[i - 1] == t[i - k - 1] && b[i + 1] == t[i - k + 1];
      }
    }
  }

  /** `DecimalBody`, which follows how a parser reads the body from the left,
      accepts exactly the strings of the position-by-position grammar. */
  lemma {:induction false} DecimalBodyGrammar(b: string)
    ensures DecimalBody(b) <==> DigitGroups(b)
    decreases |b|
  {
    if |b| > 1 {
      if DecimalBody(b) {
        if DecimalBody(b[1..]) {
          DecimalBodyGrammar(b[1..]);
          DigitGroupsCons(b, 1);
        } else {
          DecimalBodyGrammar(b[2..]);
          DigitGroupsCons(b, 2);
        }
      }
      if DigitGroups(b) {
        if IsDigit(b[1]) {
          DigitGroupsTail(b, 1);
          DecimalBodyGrammar(b[1..]);
        } else {
          assert b[1] == '_' && IsDigit(b[2]);
          DigitGroupsTail(b, 2);
          DecimalBodyGrammar(b[2..]);
        }
      }
    }
  }

  /** A body parses exactly when it follows the grammar and has at most
      `MaxStrDigits` digits; its value is that of its digits read without
      the underscores. */
  lemma ParseBodyGrammar(b: string)
    ensures ParseBody(b).Some? <==> DigitGroups(b) && |DropUnderscores(b)| <= MaxStrDigits
    ensures ParseBody(b).Some? ==>
              AllDigits(DropUnderscores(b)) && ParseBody(b).value == DigitsValue(DropUnderscores(b))
  {
    DecimalBodyGrammar(b);
    if DecimalBody(b) { DecimalBodyDigits(b); }
  }

  /** Single underscores between digits are accepted and ignored: `1_000`
      reads as 1000; a doubled or trailing underscore is refused. */
  lemma ParseBodyExamples()
    ensures ParseBody("1_000") == Some(1000)
    ensures ParseBody("1__0").None? && ParseBody("10_").None? && ParseBody("_1").None?
  {
    assert DecimalBody("1_000") by {
      assert DecimalBody("0");
      assert "00"[1..] == "0";
      assert "000"[1..] == "00";
      assert "1_000"[2..] == "000";
    }
    assert DropUnderscores("1_000") == "1000" by {
      assert "1_000"[1..] == "_000" && "_000"[1..] == "000" && "000"[1..] == "00" && "00"[1..] == "0" && "0"[1..] == "";
    }
    assert DigitsValue("1000") == 1000 by {
      assert "1000"[..3] == "100" && "100"[..2] == "10" && "10"[..1] == "1" && "1"[..0] == "";
    }
    DecimalBodyGrammar("1__0");
    assert "1__0"[1] == '_' && !IsDigit("1__0"[2]);
    DecimalBodyGrammar("10_");
    DecimalBodyGrammar("_1");
  }

  /** An optional sign followed by a decimal body. */
  function ParseSigned(t: string): Option<int> {
    var k := SignLength(t);
    match ParseBody(t[k..])
    case Some(v) => Some(if k == 1 && t[0] == '-' then -(v as int) else v as int)
    case None => None
  }

  /** A minus sign before a body that parses negates its value. */
  lemma SignedBody(t: string, v: nat)
    requires t != [] && t[0] == '-' && ParseBody(t[1..]) == Some(v)
    ensures ParseSigned(t) == Some(-(v as int))
  {
  }

  /** 1 when `t` starts with a sign character, else 0. */
  function SignLength(t: string): (k: nat)
    ensures k <= |t|
  {
    if t != [] && (t[0] == '-' || t[0] == '+') then 1 else 0
  }

  /** Python's `int(s)` on an ASCII string: surrounding whitespace is ignored,
      one optional sign, then a decimal body; anything else raises
      `ValueError`, modelled as `None`. */
  function PyInt(s: string): (r: Option<int>)
    ensures Strip(s) == [] ==> r.None?
  {
    ParseSigned(Strip(s))
  }

  lemma DigitsNoSpace(s: string)
    requires AllDigits(s)
    ensures NoSpace(s)
  {
  }

  lemma {:induction false} DigitsDecimalBody(digits: string)
    requires digits != [] && AllDigits(digits)
    ensures DecimalBody(digits)
    decreases |digits|
  {
    if |digits| > 1 { DigitsDecimalBody(digits[1..]); }
  }

  lemma PyIntNoSpace(t: string)
    requires NoSpace(t)
    ensures PyInt(t) == ParseSigned(t)
  {
    StripNoSpace(t);
  }

  lemma ParseBodyDigits(digits: string)
    requires digits != [] && AllDigits(digits) && |digits| <= MaxStrDigits
    ensures ParseBody(digits) == Some(DigitsValue(digits))
  {
    DigitsDecimalBody(digits);
    DropUnderscoresNone(digits);
  }

  lemma ParseSignedDigits(digits: string)
    requires digits != [] && AllDigits(digits) && |digits| <= MaxStrDigits
    ensures ParseSigned(digits) == Some(DigitsValue(digits) as int)
  {
    ParseBodyDigits(digits);
  }

  lemma ParseSignedNegDigits(digits: string)
    requires digits != [] && AllDigits(digits) && |digits| <= MaxStrDigits
    ensures ParseSigned("-" + digits) == Some(-(DigitsValue(digits) as int))
  {
    MinusTail(digits);
    ParseBodyDigits(digits);
    SignedBody("-" + digits, DigitsValue(digits));
  }

  lemma MinusTail(s: string)
    ensures ("-" + s)[0] == '-' && ("-" + s)[1..] == s
  {
  }

  lemma PyIntOfDigits(digits: string)
    requires digits != [] && AllDigits(digits) && |digits| <= MaxStrDigits
    ensures PyInt(digits) == Some(DigitsValue(digits) as int)
  {
    DigitsNoSpace(digits);
    PyIntNoSpace(digits);
    ParseSignedDigits(digits);
  }

  lemma PyIntOfNegDigits(digits: string)
    requires digits != [] && AllDigits(digits) && |digits| <= MaxStrDigits
    ensures PyInt("-" + digits) == Some(-(DigitsValue(digits) as int))
  {
    var t := "-" + digits;
    assert NoSpace(t) by {
      forall i | 0 <= i < |t| ensures !IsSpace(t[i]) {
        if i > 0 { assert t[i] == digits[i - 1]; }
      }
    }
    PyIntNoSpace(t);
    ParseSignedNegDigits(digits);
  }

  /** At most `MaxStrDigits` digits, not counting the sign. */
  predicate WithinDigitLimit(i: int) {
    |NatToString(if i < 0 then -i else i)| <= MaxStrDigits
  }

  /** Printing an integer within the digit limit and reading it back gives
      the integer. */
  lemma PyIntOfIntToString(i: int)
    requires WithinDigitLimit(i)
    ensures PyInt(IntToString(i)) == Some(i)
  {
    if i < 0 {
      PyIntOfNegative(i);
    } else {
      PyIntOfNonNegative(i);
    }
  }

  lemma PyIntOfNegative(i: int)
    requires i < 0 && WithinDigitLimit(i)
    ensures PyInt(IntToString(i)) == Some(i)
  {
    var digits := NatToString(-i);
    calc {
      PyInt(IntToString(i));
      { IntToStringNegative(i); }
      PyInt("-" + digits);
      { PyIntOfNegDigits(digits); }
      Some(-(DigitsValue(digits) as int));
      { NatToStringValue(-i); }
      Some(i);
    }
  }

  lemma IntToStringNegative(i: int)
    requires i < 0
    ensures IntToString(i) == "-" + NatToString(-i)
  {
  }

  lemma PyIntOfNonNegative(i: int)
    requires i >= 0 && WithinDigitLimit(i)
    ensures PyInt(IntToString(i)) == Some(i)
  {
    var digits := NatToString(i);
    assert IntToString(i) == digits;
    NatToStringValue(i);
    PyIntOfDigits(digits);
  }

  /** A digit string longer than the limit is refused. */
  lemma PyIntTooManyDigits(digits: string)
    requires AllDigits(digits) && |digits| > MaxStrDigits
    ensures PyInt(digits).None?
  {
    DigitsNoSpace(digits);
    PyIntNoSpace(digits);
    DropUnderscoresNone(digits);
    assert SignLength(digits) == 0 && digits[0..] == digits;
  }
}
