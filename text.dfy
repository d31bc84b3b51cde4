/**
 * String and number helpers shared by the models: Java `String`/`StringUtil`
 * behaviour stated over `seq<char>`.  Case folding covers ASCII letters only
 * and "white space" is every character up to U+0020, which is what
 * `String.trim` removes.
 */
module Text {

  datatype Option<T> = None | Some(value: T)

  /** The outcome of an operation that may throw: a value, or the exception's message. */
  datatype Result<T> = Ok(value: T) | Err(message: string)

  // ---------------------------------------------------------------------
  // Blank, trim, case

  predicate IsWhite(c: char) { c <= ' ' }

  /** `StringUtil.isBlank`: nothing but white space. */
  predicate IsBlank(s: string) { forall i :: 0 <= i < |s| ==> IsWhite(s[i]) }

  function TrimLeft(s: string): (r: string)
    ensures |r| <= |s| && r == s[|s| - |r|..]
    ensures |r| > 0 ==> !IsWhite(r[0])
    ensures forall i :: 0 <= i < |s| - |r| ==> IsWhite(s[i])
  {
    if |s| > 0 && IsWhite(s[0]) then TrimLeft(s[1..]) else s
  }

  function TrimRight(s: string): (r: string)
    ensures |r| <= |s| && r == s[..|r|]
    ensures |r| > 0 ==> !IsWhite(r[|r| - 1])
    ensures forall i :: |r| <= i < |s| ==> IsWhite(s[i])
  {
    if |s| > 0 && IsWhite(s[|s| - 1]) then TrimRight(s[..|s| - 1]) else s
  }

  /** `String.trim`: strips white space at both ends, keeps the middle intact. */
  function Trim(s: string): (r: string)
    ensures |r| > 0 ==> !IsWhite(r[0]) && !IsWhite(r[|r| - 1])
  {
    TrimRight(TrimLeft(s))
  }

  lemma {:induction false} TrimLeftOfBlank(s: string)
    requires IsBlank(s)
    ensures TrimLeft(s) == ""
    decreases |s|
  {
    if |s| > 0 {
      assert IsBlank(s[1..]) by {
        forall i | 0 <= i < |s| - 1
          ensures IsWhite(s[1..][i])
        {
          assert s[1..][i] == s[i + 1];
        }
      }
      TrimLeftOfBlank(s[1..]);
    }
  }

  lemma TrimBlank(s: string)
    ensures Trim(s) == "" <==> IsBlank(s)
  {
    var l := TrimLeft(s);
    var k := |s| - |l|;
    assert l == s[k..];
    if IsBlank(s) {
      TrimLeftOfBlank(s);
    } else {
      var i :| 0 <= i < |s| && !IsWhite(s[i]);
      assert k <= i;
      assert l[i - k] == s[i];
    }
  }

  /** What `Trim` keeps is one piece of the original text. */
  lemma TrimWithin(s: string) returns (k: nat)
    ensures k + |Trim(s)| <= |s| && Trim(s) == s[k..k + |Trim(s)|]
  {
    var l := TrimLeft(s);
    k := |s| - |l|;
    assert l == s[k..];
    assert Trim(s) == l[..|Trim(s)|];
  }

  /** Trimming never brings in a character the text did not have. */
  lemma TrimKeepsAbsent(s: string, c: char)
    requires forall i :: 0 <= i < |s| ==> s[i] != c
    ensures forall i :: 0 <= i < |Trim(s)| ==> Trim(s)[i] != c
  {
    var k := TrimWithin(s);
    forall i | 0 <= i < |Trim(s)|
      ensures Trim(s)[i] != c
    {
      assert Trim(s)[i] == s[k + i];
    }
  }

  /** A string whose ends are not white space is its own trim. */
  lemma TrimNoEnds(s: string)
    requires |s| > 0 ==> !IsWhite(s[0]) && !IsWhite(s[|s| - 1])
    ensures Trim(s) == s
  {
  }

  /** `StringUtil.trimToNull`. */
  function TrimToNull(s: Option<string>): (r: Option<string>)
    ensures r.Some? <==> s.Some? && !IsBlank(s.value)
    ensures r.Some? ==> r.value == Trim(s.value)
  {
    match s
    case None => None
    case Some(v) => TrimBlank(v); if Trim(v) == "" then None else Some(Trim(v))
  }

  function LowerChar(c: char): char
  {
    if 'A' <= c <= 'Z' then (c as int + 32) as char else c
  }

  /** `String.toLowerCase`, ASCII letters only. */
  function Lower(s: string): (r: string)
    ensures |r| == |s|
    ensures forall i :: 0 <= i < |s| ==> r[i] == LowerChar(s[i])
  {
    seq(|s|, i requires 0 <= i < |s| => LowerChar(s[i]))
  }

  lemma LowerIdempotent(s: string)
    ensures Lower(Lower(s)) == Lower(s)
  {
  }

  lemma LowerAppend(a: string, b: string)
    ensures Lower(a + b) == Lower(a) + Lower(b)
  {
  }

  predicate EqualsIgnoreCase(a: string, b: string) { Lower(a) == Lower(b) }

  function UpperChar(c: char): char
  {
    if 'a' <= c <= 'z' then (c as int - 32) as char else c
  }

  /** `String.toUpperCase`, ASCII letters only. */
  function Upper(s: string): (r: string)
    ensures |r| == |s|
  {
    seq(|s|, i requires 0 <= i < |s| => UpperChar(s[i]))
  }

  // ---------------------------------------------------------------------
  // Searching

  predicate StartsWith(s: string, p: string) { |p| <= |s| && s[..|p|] == p }

  lemma StartsWithConcat(a: string, b: string)
    ensures StartsWith(a + b, a)
  {
    assert (a + b)[..|a|] == a;
  }

  lemma StartsWithTrans(s: string, t: string, p: string)
    requires StartsWith(s, t) && StartsWith(t, p)
    ensures StartsWith(s, p)
  {
    assert s[..|p|] == s[..|t|][..|p|];
  }

  lemma StartsWithExtend(s: string, t: string, p: string)
    requires StartsWith(s, p)
    ensures StartsWith(s + t, p)
  {
    assert (s + t)[..|p|] == s[..|p|];
  }

  predicate EndsWith(s: string, p: string) { |p| <= |s| && s[|s| - |p|..] == p }

  lemma EndsWithConcat(a: string, b: string)
    ensures EndsWith(a + b, b)
  {
    assert (a + b)[|a + b| - |b|..] == b;
  }

  /** Two suffixes of one string: the shorter is a suffix of the longer. */
  lemma EndsWithBoth(s: string, t: string, u: string)
    requires EndsWith(s, t) && EndsWith(s, u) && |u| <= |t|
    ensures EndsWith(t, u)
  {
    assert t[|t| - |u|..] == s[|s| - |t|..][|t| - |u|..];
  }

  lemma EndsWithTrans(s: string, t: string, u: string)
    requires EndsWith(s, t) && EndsWith(t, u)
    ensures EndsWith(s, u)
  {
    assert s[|s| - |u|..] == s[|s| - |t|..][|t| - |u|..];
  }

  /** `String.contains`: `p` occurs somewhere in `s`. */
  predicate Contains(s: string, p: string)
    decreases |s|
  {
    StartsWith(s, p) || (|s| > 0 && Contains(s[1..], p))
  }

  /** A one-character text occurs exactly when that character does. */
  lemma {:induction false} ContainsChar(s: string, c: char)
    ensures Contains(s, [c]) <==> exists i :: 0 <= i < |s| && s[i] == c
    decreases |s|
  {
    if |s| > 0 {
      ContainsChar(s[1..], c);
      assert StartsWith(s, [c]) <==> s[0] == c;
      if exists i :: 0 <= i < |s| && s[i] == c {
        var i :| 0 <= i < |s| && s[i] == c;
        assert i == 0 || s[1..][i - 1] == c;
      }
      if exists i :: 0 <= i < |s[1..]| && s[1..][i] == c {
        var i :| 0 <= i < |s[1..]| && s[1..][i] == c;
        assert s[i + 1] == c;
      }
    }
  }

  lemma ContainsAt(s: string, p: string, k: nat)
    requires k + |p| <= |s| && s[k..k + |p|] == p
    ensures Contains(s, p)
    decreases k
  {
    if k > 0 {
      assert s[1..][k - 1..k - 1 + |p|] == p;
      ContainsAt(s[1..], p, k - 1);
    }
  }

  lemma ContainsWitness(s: string, p: string) returns (k: nat)
    requires Contains(s, p)
    ensures k + |p| <= |s| && s[k..k + |p|] == p
    decreases |s|
  {
    if StartsWith(s, p) {
      k := 0;
    } else {
      var k' := ContainsWitness(s[1..], p);
      k := k' + 1;
      assert s[k..k + |p|] == s[1..][k'..k' + |p|];
    }
  }

  /** An occurrence stays one when text is appended after it. */
  lemma ContainsPrefix(b: string, c: string, p: string)
    requires Contains(b, p)
    ensures Contains(b + c, p)
  {
    var k := ContainsWitness(b, p);
    assert (b + c)[k..k + |p|] == b[k..k + |p|];
    ContainsAt(b + c, p, k);
  }

  /** An occurrence stays one when text is put before it. */
  lemma ContainsSuffix(a: string, b: string, p: string)
    requires Contains(b, p)
    ensures Contains(a + b, p)
  {
    var k := ContainsWitness(b, p);
    assert (a + b)[|a| + k..|a| + k + |p|] == b[k..k + |p|];
    ContainsAt(a + b, p, |a| + k);
  }

  /** Every item of a joined list occurs in the joined text. */
  lemma {:induction false} JoinContainsItem(items: seq<string>, sep: string, i: nat)
    requires i < |items|
    ensures Contains(Join(items, sep), items[i])
    decreases |items|
  {
    var x := items[|items| - 1];
    if |items| == 1 {
      assert items[0][..|items[0]|] == items[0];
    } else if i == |items| - 1 {
      var j := Join(items[..|items| - 1], sep) + sep;
      assert (j + x)[|j|..|j| + |x|] == x;
      ContainsAt(j + x, x, |j|);
    } else {
      var init := items[..|items| - 1];
      JoinContainsItem(init, sep, i);
      assert init[i] == items[i];
      ContainsPrefix(Join(init, sep), sep + x, items[i]);
      assert Join(init, sep) + (sep + x) == Join(items, sep);
    }
  }

  /** `s.indexOf(c, from)`: first position at or after `from` holding `c`, or -1. */
  function IndexOfFrom(s: string, c: char, from: nat): (r: int)
    ensures r == -1 || from <= r < |s|
    ensures r >= 0 ==> s[r] == c
    decreases |s| - from
  {
    if from >= |s| then -1
    else if s[from] == c then from
    else IndexOfFrom(s, c, from + 1)
  }

  /** No occurrence of `c` between `from` and the position found (or the end). */
  lemma {:induction false} IndexOfFromFirst(s: string, c: char, from: nat)
    ensures var r := IndexOfFrom(s, c, from);
      forall i :: from <= i < |s| && (r == -1 || i < r) ==> s[i] != c
    decreases |s| - from
  {
    if from < |s| && s[from] != c {
      IndexOfFromFirst(s, c, from + 1);
    }
  }

  function IndexOf(s: string, c: char): (r: int)
    ensures r == -1 || 0 <= r < |s|
    ensures r >= 0 ==> s[r] == c
    ensures forall i :: 0 <= i < |s| && (r == -1 || i < r) ==> s[i] != c
  {
    IndexOfFromFirst(s, c, 0);
    IndexOfFrom(s, c, 0)
  }

  /** The first occurrence, found where it is. */
  lemma IndexOfAt(s: string, c: char, k: nat)
    requires k < |s| && s[k] == c
    requires forall i :: 0 <= i < k ==> s[i] != c
    ensures IndexOf(s, c) == k
  {
  }

  /** `s.lastIndexOf(c)`. */
  function LastIndexOf(s: string, c: char): (r: int)
    ensures r == -1 || 0 <= r < |s|
    ensures r >= 0 ==> s[r] == c
    ensures forall i :: 0 <= i < |s| && r < i ==> s[i] != c
  {
    if |s| == 0 then -1
    else if s[|s| - 1] == c then |s| - 1
    else LastIndexOf(s[..|s| - 1], c)
  }

  /**
   * `String.replace(target, replacement)`: every occurrence of `pat`, taken
   * left to right without overlap, is replaced by `rep`.
   */
  function Replace(s: string, pat: string, rep: string): string
    requires |pat| > 0
    decreases |s|
  {
    if |s| < |pat| then s
    else if s[..|pat|] == pat then rep + Replace(s[|pat|..], pat, rep)
    else [s[0]] + Replace(s[1..], pat, rep)
  }

  lemma ReplaceAbsent(s: string, pat: string, rep: string)
    requires |pat| > 0 && !Contains(s, pat)
    ensures Replace(s, pat, rep) == s
    decreases |s|
  {
    if |s| >= |pat| {
      assert !StartsWith(s, pat);
      ReplaceAbsent(s[1..], pat, rep);
    }
  }

  lemma ReplacePrefix(pre: string, s: string, pat: string, rep: string)
    requires |pat| > 0 && pre == pat
    ensures Replace(pre + s, pat, rep) == rep + Replace(s, pat, rep)
  {
    assert (pre + s)[..|pat|] == pat;
    assert (pre + s)[|pat|..] == s;
  }

  // ---------------------------------------------------------------------
  // Joining

  /** Items separated by `sep` (`String.join`, `StringUtil.listToString`). */
  function Join(items: seq<string>, sep: string): string
  {
    if |items| == 0 then ""
    else if |items| == 1 then items[0]
    else Join(items[..|items| - 1], sep) + sep + items[|items| - 1]
  }

  lemma JoinSnoc(items: seq<string>, x: string, sep: string)
    ensures Join(items + [x], sep) == if |items| == 0 then x else Join(items, sep) + sep + x
  {
    assert (items + [x])[..|items|] == items;
  }

  /** Every item preceded by `sep`: what a loop appending `sep + item` builds. */
  function PrefixEach(items: seq<string>, sep: string): (r: string)
    ensures |items| == 0 ==> r == ""
  {
    if |items| == 0 then "" else PrefixEach(items[..|items| - 1], sep) + sep + items[|items| - 1]
  }

  lemma PrefixEachSnoc(items: seq<string>, x: string, sep: string)
    ensures PrefixEach(items + [x], sep) == PrefixEach(items, sep) + sep + x
  {
    assert (items + [x])[..|items|] == items;
  }

  /** A joined list followed by separator-prefixed extras is the join of both, when the first part is non-empty. */
  lemma {:induction false} JoinThenPrefixEach(a: seq<string>, b: seq<string>, sep: string)
    requires |a| > 0
    ensures Join(a, sep) + PrefixEach(b, sep) == Join(a + b, sep)
    decreases |b|
  {
    if |b| > 0 {
      var b' := b[..|b| - 1];
      JoinThenPrefixEach(a, b', sep);
      assert b == b' + [b[|b| - 1]];
      PrefixEachSnoc(b', b[|b| - 1], sep);
      assert a + b == (a + b') + [b[|b| - 1]];
      JoinSnoc(a + b', b[|b| - 1], sep);
      calc {
        Join(a, sep) + PrefixEach(b, sep);
        Join(a, sep) + (PrefixEach(b', sep) + sep + b[|b| - 1]);
        (Join(a, sep) + PrefixEach(b', sep)) + sep + b[|b| - 1];
        Join(a + b', sep) + sep + b[|b| - 1];
      }
    } else {
      assert a + b == a;
    }
  }

  /** What a join loop appends when `started` says whether an item was already written before it. */
  function JoinOnto(items: seq<string>, sep: string, started: bool): string
  {
    if started then PrefixEach(items, sep) else Join(items, sep)
  }

  lemma JoinOntoSnoc(items: seq<string>, x: string, sep: string, started: bool)
    ensures JoinOnto(items + [x], sep, started)
         == JoinOnto(items, sep, started) + (if started || |items| > 0 then sep else "") + x
  {
    PrefixEachSnoc(items, x, sep);
    JoinSnoc(items, x, sep);
  }

  /** Joining two lists in one go, or the first and then the second continuing it. */
  lemma JoinAppend(a: seq<string>, b: seq<string>, sep: string)
    ensures Join(a + b, sep) == Join(a, sep) + JoinOnto(b, sep, |a| > 0)
  {
    if |a| > 0 {
      JoinThenPrefixEach(a, b, sep);
    } else {
      assert a + b == b;
    }
  }

  /** Plain concatenation of all items. */
  function Concat(items: seq<string>): string
  {
    if |items| == 0 then "" else Concat(items[..|items| - 1]) + items[|items| - 1]
  }

  lemma ConcatSnoc(items: seq<string>, x: string)
    ensures Concat(items + [x]) == Concat(items) + x
  {
    assert (items + [x])[..|items|] == items;
  }

  /** `StringUtil.firstNonBlank`. */
  function FirstNonBlank(candidates: seq<Option<string>>, fallback: string): (r: string)
    ensures r == fallback || exists i :: 0 <= i < |candidates| && candidates[i] == Some(r) && !IsBlank(r)
  {
    if |candidates| == 0 then fallback
    else if candidates[0].Some? && !IsBlank(candidates[0].value) then candidates[0].value
    else FirstNonBlank(candidates[1..], fallback)
  }

  // ---------------------------------------------------------------------
  // Ordering

  /** `String.compareTo`: first differing character, otherwise the length difference. */
  function Compare(a: string, b: string): int
  {
    if |a| == 0 || |b| == 0 then |a| - |b|
    else if a[0] != b[0] then a[0] as int - b[0] as int
    else Compare(a[1..], b[1..])
  }

  lemma CompareSelf(a: string)
    ensures Compare(a, a) == 0
  {
  }

  lemma {:induction false} CompareAntisym(a: string, b: string)
    ensures Compare(a, b) == -Compare(b, a)
    decreases |a|
  {
    if |a| > 0 && |b| > 0 && a[0] == b[0] {
      CompareAntisym(a[1..], b[1..]);
    }
  }

  lemma {:induction false} CompareZero(a: string, b: string)
    ensures Compare(a, b) == 0 <==> a == b
    decreases |a|
  {
    if |a| > 0 && |b| > 0 && a[0] == b[0] {
      CompareZero(a[1..], b[1..]);
      if a[1..] == b[1..] {
        assert a == [a[0]] + a[1..];
        assert b == [b[0]] + b[1..];
      }
    }
  }

  lemma {:induction false} CompareTrans(a: string, b: string, c: string)
    requires Compare(a, b) <= 0 && Compare(b, c) <= 0
    ensures Compare(a, c) <= 0
    decreases |a|
  {
    if |a| > 0 && |b| > 0 && |c| > 0 && a[0] == b[0] && b[0] == c[0] {
      CompareTrans(a[1..], b[1..], c[1..]);
    }
  }

  /** `String.compareToIgnoreCase`. */
  function CompareIgnoreCase(a: string, b: string): int
  {
    Compare(Lower(a), Lower(b))
  }

  lemma CompareIgnoreCaseZero(a: string, b: string)
    ensures CompareIgnoreCase(a, b) == 0 <==> EqualsIgnoreCase(a, b)
  {
    CompareZero(Lower(a), Lower(b));
  }

  // ---------------------------------------------------------------------
  // Java integers

  const LONG_MIN: int := -0x8000_0000_0000_0000
  const LONG_MAX: int := 0x7fff_ffff_ffff_ffff
  const INT_MIN: int := -0x8000_0000
  const INT_MAX: int := 0x7fff_ffff

  predicate IsLong(n: int) { LONG_MIN <= n <= LONG_MAX }

  /** Two's-complement wrap-around of a Java `long` result. */
  function WrapLong(x: int): (r: int)
    ensures IsLong(r)
    ensures IsLong(x) ==> r == x
  {
    (x - LONG_MIN) % 0x1_0000_0000_0000_0000 + LONG_MIN
  }

  /** Java `/` on integers: the quotient is truncated toward zero. */
  function JavaDiv(a: int, b: int): (r: int)
    requires b > 0
  {
    if a >= 0 then a / b else -((-a) / b)
  }

  predicate IsDigit(c: char) { '0' <= c <= '9' }

  predicate AllDigits(s: string) { forall i :: 0 <= i < |s| ==> IsDigit(s[i]) }

  function DigitValue(c: char): nat
    requires IsDigit(c)
  {
    c as int - '0' as int
  }

  function DigitChar(d: nat): (c: char)
    requires d < 10
    ensures IsDigit(c) && DigitValue(c) == d
  {
    ('0' as int + d) as char
  }

  function ParseDigits(s: string): nat
    requires AllDigits(s)
  {
    if |s| == 0 then 0 else ParseDigits(s[..|s| - 1]) * 10 + DigitValue(s[|s| - 1])
  }

  /** Decimal text of a natural number, no leading zeros. */
  function NatToString(n: nat): (r: string)
    ensures |r| > 0 && AllDigits(r)
  {
    if n < 10 then [DigitChar(n)] else NatToString(n / 10) + [DigitChar(n % 10)]
  }

  lemma {:induction false} NatToStringParses(n: nat)
    ensures ParseDigits(NatToString(n)) == n
  {
    if n >= 10 {
      NatToStringParses(n / 10);
      var s := NatToString(n);
      assert s[..|s| - 1] == NatToString(n / 10);
    }
  }

  /** `Long.toString` / string concatenation of a number. */
  function IntToString(n: int): (r: string)
    ensures |r| > 0
  {
    if n < 0 then "-" + NatToString(-n) else NatToString(n)
  }

  /** `Long.parseLong`: optional sign, at least one ASCII digit, value within range. */
  function ParseLong(s: string): (r: Option<int>)
    ensures r.Some? ==> IsLong(r.value)
  {
    if |s| == 0 then None
    else
      var neg := s[0] == '-';
      var body := if s[0] == '-' || s[0] == '+' then s[1..] else s;
      if |body| == 0 || !AllDigits(body) then None
      else
        var v: int := if neg then 0 - (ParseDigits(body) as int) else ParseDigits(body);
        if IsLong(v) then Some(v) else None
  }

  /** `Integer.parseInt`: like `ParseLong` but within 32 bits. */
  function ParseInt(s: string): (r: Option<int>)
    ensures r.Some? ==> INT_MIN <= r.value <= INT_MAX
  {
    var l := ParseLong(s);
    if l.Some? && INT_MIN <= l.value <= INT_MAX then l else None
  }

  lemma ParseLongOfString(n: int)
    requires IsLong(n)
    ensures ParseLong(IntToString(n)) == Some(n)
  {
    if n < 0 {
      NatToStringParses(-n);
      assert IntToString(n)[1..] == NatToString(-n);
    } else {
      NatToStringParses(n);
    }
  }

  lemma IntToStringEndsInDigit(n: int)
    ensures IsDigit(IntToString(n)[|IntToString(n)| - 1])
  {
    if n < 0 {
      assert IntToString(n)[|IntToString(n)| - 1] == NatToString(-n)[|NatToString(-n)| - 1];
    }
  }

  lemma IntToStringNoWhite(n: int)
    ensures Trim(IntToString(n)) == IntToString(n)
  {
    var s := IntToString(n);
    if n >= 0 {
      assert IsDigit(s[0]) && IsDigit(s[|s| - 1]);
    } else {
      assert s[|s| - 1] == NatToString(-n)[|NatToString(-n)| - 1];
    }
    TrimNoEnds(s);
  }
}
