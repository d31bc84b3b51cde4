/**
 * The keep-alive interval of a connection profile: the text a user types
 * ("30s", "5m", "1h" or plain milliseconds) and the text shown for a
 * number of milliseconds.
 */
module KeepAlive {
  import opened Text

  /**
   * `StringUtil.getLongValue`: the number the trimmed text spells as a Java
   * `long`, or the default when it spells none.
   */
  function LongValue(s: string, default: int): (r: int)
    ensures ParseLong(Trim(s)).Some? ==> r == ParseLong(Trim(s)).value
    ensures ParseLong(Trim(s)).None? ==> r == default
  {
    match ParseLong(Trim(s))
    case Some(v) => v
    case None => default
  }

  /** Everything of `s` but its last character. */
  function DropLast(s: string): string
    requires |s| > 0
  {
    s[..|s| - 1]
  }

  /**
   * `parseTimeInterval`: blank (or absent) text is 0; otherwise the trimmed
   * text's suffix `s`, `m` or `h` scales the number before it to
   * milliseconds, each multiplication wrapping like Java `long`
   * arithmetic; without a suffix the number is taken as milliseconds.
   * Text that spells no number counts as 0.
   */
  function ParseTimeInterval(interval: Option<string>): (r: int)
    ensures IsLong(r)
    ensures interval.None? || IsBlank(interval.value) ==> r == 0
  {
    if interval.None? || IsBlank(interval.value) then 0
    else
      var t := Trim(interval.value);
      if EndsWith(t, "s") then WrapLong(LongValue(DropLast(t), 0) * 1000)
      else if EndsWith(t, "m") then WrapLong(WrapLong(LongValue(DropLast(t), 0) * 1000) * 60)
      else if EndsWith(t, "h") then
        WrapLong(WrapLong(WrapLong(LongValue(DropLast(t), 0) * 1000) * 60) * 60)
      else LongValue(t, 0)
  }

  /**
   * `getTimeDisplay`: nothing for 0; below one minute the whole seconds
   * followed by `s`, otherwise the whole minutes followed by `m`, both
   * quotients truncated toward zero.
   */
  function TimeDisplay(millis: int): (r: string)
    ensures millis == 0 <==> r == ""
    ensures millis != 0 && millis < 60000 ==> r == IntToString(JavaDiv(millis, 1000)) + "s"
    ensures millis >= 60000 ==> r == IntToString(JavaDiv(millis, 60000)) + "m"
  {
    if millis == 0 then ""
    else if millis < 60 * 1000 then IntToString(JavaDiv(millis, 1000)) + "s"
    else IntToString(JavaDiv(millis, 60 * 1000)) + "m"
  }

  /** A number followed by a unit letter is its own trim and not blank. */
  lemma NumberWithUnit(n: int, unit: char)
    requires !IsWhite(unit)
    ensures !IsBlank(IntToString(n) + [unit])
    ensures Trim(IntToString(n) + [unit]) == IntToString(n) + [unit]
    ensures DropLast(IntToString(n) + [unit]) == IntToString(n)
  {
    var s := IntToString(n) + [unit];
    IntToStringNoWhite(n);
    assert s[0] == IntToString(n)[0];
    assert s[|s| - 1] == unit;
    TrimNoEnds(s);
  }

  /** The number a suffixed text carries is read back exactly. */
  lemma NumberBeforeUnit(n: int, unit: char)
    requires IsLong(n) && !IsWhite(unit)
    ensures LongValue(DropLast(IntToString(n) + [unit]), 0) == n
  {
    NumberWithUnit(n, unit);
    IntToStringNoWhite(n);
    ParseLongOfString(n);
  }

  /** `n` followed by `s` is read as `n` seconds. */
  lemma {:induction false} ParseSeconds(n: int)
    requires IsLong(n)
    ensures ParseTimeInterval(Some(IntToString(n) + "s")) == WrapLong(n * 1000)
  {
    NumberWithUnit(n, 's');
    NumberBeforeUnit(n, 's');
  }

  /** `n` followed by `m` is read as `n` minutes. */
  lemma {:induction false} ParseMinutes(n: int)
    requires IsLong(n)
    ensures ParseTimeInterval(Some(IntToString(n) + "m"))
      == WrapLong(WrapLong(n * 1000) * 60)
  {
    var s := IntToString(n) + "m";
    NumberWithUnit(n, 'm');
    NumberBeforeUnit(n, 'm');
    assert !EndsWith(s, "s") by { assert s[|s| - 1] == 'm'; }
  }

  /** `n` followed by `h` is read as `n` hours. */
  lemma {:induction false} ParseHours(n: int)
    requires IsLong(n)
    ensures ParseTimeInterval(Some(IntToString(n) + "h"))
      == WrapLong(WrapLong(WrapLong(n * 1000) * 60) * 60)
  {
    var s := IntToString(n) + "h";
    NumberWithUnit(n, 'h');
    NumberBeforeUnit(n, 'h');
    assert !EndsWith(s, "s") && !EndsWith(s, "m") by { assert s[|s| - 1] == 'h'; }
  }

  /** A plain number is read as milliseconds. */
  lemma ParsePlainMillis(n: int)
    requires IsLong(n)
    ensures ParseTimeInterval(Some(IntToString(n))) == n
  {
    var s := IntToString(n);
    IntToStringNoWhite(n);
    ParseLongOfString(n);
    assert !IsWhite(s[|s| - 1]);
    assert IsDigit(s[|s| - 1]) by {
      if n < 0 {
        assert s[|s| - 1] == NatToString(-n)[|NatToString(-n)| - 1];
      }
    }
    assert !EndsWith(s, "s") && !EndsWith(s, "m") && !EndsWith(s, "h");
  }

  /**
   * Reading back what is displayed gives the value cut down to whole
   * seconds (below a minute) or whole minutes (from a minute on).
   */
  lemma {:induction false} DisplayThenParse(millis: int)
    requires IsLong(millis)
    ensures ParseTimeInterval(Some(TimeDisplay(millis))) ==
      if millis == 0 then 0
      else if millis < 60000 then JavaDiv(millis, 1000) * 1000
      else JavaDiv(millis, 60000) * 60000
  {
    if millis == 0 {
    } else if millis < 60000 {
      var q := JavaDiv(millis, 1000);
      assert millis <= q * 1000 < 60000 || 0 <= q * 1000 <= millis;
      ParseSeconds(q);
    } else {
      var q := millis / 60000;
      assert 0 < q * 60000 <= millis;
      assert IsLong(q * 1000);
      ParseMinutes(q);
    }
  }

  /** Whole seconds under a minute and whole minutes survive the round trip. */
  lemma WholeUnitsRoundTrip(millis: int)
    requires IsLong(millis)
    requires (0 < millis < 60000 && millis % 1000 == 0) || (millis >= 60000 && millis % 60000 == 0)
    ensures ParseTimeInterval(Some(TimeDisplay(millis))) == millis
  {
    DisplayThenParse(millis);
  }

  /** Any other non-zero value loses its part below the displayed unit. */
  lemma PartialUnitsLost(millis: int)
    requires IsLong(millis)
    requires (0 < millis < 60000 && millis % 1000 != 0) || (millis >= 60000 && millis % 60000 != 0)
    ensures ParseTimeInterval(Some(TimeDisplay(millis))) < millis
  {
    DisplayThenParse(millis);
  }
}
