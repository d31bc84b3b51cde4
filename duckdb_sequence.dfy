/**
 * The `CREATE SEQUENCE` text DuckDB sequences are shown with: an optional
 * `DROP SEQUENCE IF EXISTS`, then the create statement with its increment,
 * minimum, maximum (unless it is the largest `long`) and cycle option. The
 * sequence's properties are inputs, each possibly missing; the catalogue
 * query that reads them is outside the model.
 */
module DuckDbSequences {
  import opened Text

  /** How a generated script drops the object first. */
  datatype DropType = NoDrop | Simple | Cascaded

  /**
   * The properties a sequence definition carries, each `None` when the
   * catalogue had no value. The start value is read but never used.
   */
  datatype SequenceDef = SequenceDef(
    name: string,
    startValue: Option<int>,
    minValue: Option<int>,
    maxValue: Option<int>,
    increment: Option<int>,
    cycle: Option<bool>,
    temporary: Option<bool>)

  /** The indentation that starts each option line. */
  const INDENT: string := "\n       "

  /** `StringBuilder.append(Long)`: the number, or `null` for none. */
  function LongText(v: Option<int>): (r: string)
    ensures v.None? ==> r == "null"
    ensures v.Some? ==> r == IntToString(v.value)
  {
    if v.None? then "null" else IntToString(v.value)
  }

  /** A missing flag counts as false. */
  function Flag(b: Option<bool>): bool
  {
    b.Some? && b.value
  }

  const DROP_PREFIX: string := "DROP SEQUENCE IF EXISTS "

  /** The optional drop statement that comes first. */
  function DropText(name: string, drop: DropType): string
  {
    if drop == NoDrop then ""
    else DROP_PREFIX + name + (if drop == Cascaded then " CASCADE" else "") + ";\n\n"
  }

  /** The create line: `TEMPORARY` only for a temporary sequence. */
  function CreateLineText(name: string, temporary: bool): string
  {
    "CREATE " + (if temporary then "TEMPORARY" else "") + " SEQUENCE " + name
  }

  /** One option on a line of its own. */
  function OptionText(caption: string, value: string): string
  {
    INDENT + caption + value
  }

  /**
   * Everything up to the minimum: the drop statement, the create line,
   * the increment and the minimum, missing numbers written as `null`.
   */
  function HeadText(d: SequenceDef, drop: DropType): string
  {
    DropText(d.name, drop) + CreateLineText(d.name, Flag(d.temporary))
      + OptionText("INCREMENT BY ", LongText(d.increment)) + OptionText("MINVALUE ", LongText(d.minValue))
  }

  /** The maximum's line, absent for the largest `long`. */
  function MaxText(max: int): string
  {
    if max != LONG_MAX then OptionText("MAXVALUE ", IntToString(max)) else ""
  }

  /** The cycle option and the statement's terminator. */
  function CycleText(cycle: bool): string
  {
    INDENT + (if cycle then "" else "NO ") + "CYCLE;\n"
  }

  /**
   * The text `getSequenceSource` produces for a definition. A missing
   * maximum makes the unboxing comparison throw; the exception is logged
   * and the text built so far is returned, ending after the minimum.
   */
  function SequenceSource(d: SequenceDef, drop: DropType): string
  {
    match d.maxValue
    case None => HeadText(d, drop)
    case Some(max) => HeadText(d, drop) + MaxText(max) + CycleText(Flag(d.cycle))
  }

  /**
   * `getSequenceSource`: nothing for no definition; otherwise the clauses
   * appended one after another.
   */
  method GetSequenceSource(def: Option<SequenceDef>, drop: DropType) returns (r: Option<string>)
    ensures def.None? <==> r.None?
    ensures def.Some? ==> r == Some(SequenceSource(def.value, drop))
  {
    if def.None? {
      return None;
    }
    var d := def.value;
    var buf := AppendDrop("", d.name, drop);
    assert buf == DropText(d.name, drop);
    buf := AppendCreateLine(buf, d.name, Flag(d.temporary));
    buf := AppendOption(buf, "INCREMENT BY ", LongText(d.increment));
    buf := AppendOption(buf, "MINVALUE ", LongText(d.minValue));
    if d.maxValue.None? {
      // the comparison with the marker throws; the exception is logged
      return Some(buf);
    }
    var max := d.maxValue.value;
    if max != LONG_MAX {
      buf := AppendOption(buf, "MAXVALUE ", IntToString(max));
    } else {
      assert buf + "" == buf;
    }
    buf := AppendCycle(buf, Flag(d.cycle));
    r := Some(buf);
  }

  /** The drop statement, when one is asked for. */
  method AppendDrop(buf0: string, name: string, drop: DropType) returns (buf: string)
    ensures buf == buf0 + DropText(name, drop)
  {
    buf := buf0;
    if drop != NoDrop {
      buf := buf + DROP_PREFIX;
      buf := buf + name;
      if drop == Cascaded {
        buf := buf + " CASCADE";
      }
      buf := buf + ";\n\n";
    }
  }

  method AppendCreateLine(buf0: string, name: string, temporary: bool) returns (buf: string)
    ensures buf == buf0 + CreateLineText(name, temporary)
  {
    buf := buf0 + "CREATE ";
    if temporary {
      buf := buf + "TEMPORARY";
    } else {
      assert buf + "" == buf;
    }
    buf := buf + " SEQUENCE ";
    buf := buf + name;
  }

  method AppendOption(buf0: string, caption: string, value: string) returns (buf: string)
    ensures buf == buf0 + OptionText(caption, value)
  {
    buf := buf0 + INDENT + caption;
    buf := buf + value;
  }

  method AppendCycle(buf0: string, cycle: bool) returns (buf: string)
    ensures buf == buf0 + CycleText(cycle)
  {
    buf := buf0 + INDENT;
    if !cycle {
      buf := buf + "NO ";
    } else {
      assert buf + "" == buf;
    }
    buf := buf + "CYCLE";
    buf := buf + ";\n";
  }

  /** Whatever follows the head, the text starts with it. */
  lemma HeadFirst(d: SequenceDef, drop: DropType, p: string)
    requires StartsWith(HeadText(d, drop), p)
    ensures StartsWith(SequenceSource(d, drop), p)
  {
    if d.maxValue.Some? {
      StartsWithExtend(HeadText(d, drop), MaxText(d.maxValue.value), p);
      StartsWithExtend(HeadText(d, drop) + MaxText(d.maxValue.value), CycleText(Flag(d.cycle)), p);
    }
  }

  /** What the drop statement reads: nothing, or the statement with `CASCADE` for a cascading drop. */
  lemma DropTextShape(name: string)
    ensures DropText(name, NoDrop) == ""
    ensures DropText(name, Simple) == "DROP SEQUENCE IF EXISTS " + name + ";\n\n"
    ensures DropText(name, Cascaded) == "DROP SEQUENCE IF EXISTS " + name + " CASCADE;\n\n"
  {
    var pre := DROP_PREFIX + name;
    assert DropText(name, Simple) == pre + "" + ";\n\n";
    assert pre + "" == pre;
    assert DropText(name, Cascaded) == pre + " CASCADE" + ";\n\n";
  }

  /**
   * A temporary sequence is created with `CREATE TEMPORARY SEQUENCE`; any
   * other with two blanks between `CREATE` and `SEQUENCE`.
   */
  lemma CreateLineShape(name: string, temporary: bool)
    ensures temporary ==> CreateLineText(name, temporary) == "CREATE TEMPORARY SEQUENCE " + name
    ensures !temporary ==> CreateLineText(name, temporary) == "CREATE  SEQUENCE " + name
  {
    if !temporary {
      assert "CREATE " + "" == "CREATE ";
    }
  }

  /**
   * The script starts with the drop statement when a drop type is chosen,
   * and the create line follows it directly.
   */
  lemma {:induction false} ScriptStart(d: SequenceDef, drop: DropType)
    ensures StartsWith(SequenceSource(d, drop), DropText(d.name, drop) + CreateLineText(d.name, Flag(d.temporary)))
    ensures drop == NoDrop ==> StartsWith(SequenceSource(d, drop), CreateLineText(d.name, Flag(d.temporary)))
  {
    var t := DropText(d.name, drop) + CreateLineText(d.name, Flag(d.temporary));
    var inc := OptionText("INCREMENT BY ", LongText(d.increment));
    StartsWithConcat(t, inc);
    StartsWithExtend(t + inc, OptionText("MINVALUE ", LongText(d.minValue)), t);
    HeadFirst(d, drop, t);
    if drop == NoDrop {
      assert t == CreateLineText(d.name, Flag(d.temporary));
    }
  }

  /** How the cycle option ends. */
  lemma CycleTextEnding(cycle: bool)
    ensures EndsWith(CycleText(cycle), "CYCLE;\n")
    ensures EndsWith(CycleText(cycle), "NO CYCLE;\n") <==> !cycle
  {
    var c := CycleText(cycle);
    if cycle {
      assert c == "\n       CYCLE;\n";
      assert c[|c| - 10] == ' ';
    } else {
      assert c == "\n       NO CYCLE;\n";
    }
  }

  /**
   * With a maximum the statement is complete: it ends with `NO CYCLE;`
   * exactly when the sequence does not cycle (or the flag is missing), and
   * with `CYCLE;` otherwise.
   */
  lemma {:induction false} CompleteEnding(d: SequenceDef, drop: DropType)
    requires d.maxValue.Some?
    ensures EndsWith(SequenceSource(d, drop), "CYCLE;\n")
    ensures EndsWith(SequenceSource(d, drop), "NO CYCLE;\n") <==> !Flag(d.cycle)
  {
    var s := SequenceSource(d, drop);
    var c := CycleText(Flag(d.cycle));
    EndsWithConcat(HeadText(d, drop) + MaxText(d.maxValue.value), c);
    CycleTextEnding(Flag(d.cycle));
    EndsWithTrans(s, c, "CYCLE;\n");
    if EndsWith(s, "NO CYCLE;\n") {
      EndsWithBoth(s, c, "NO CYCLE;\n");
    } else if !Flag(d.cycle) {
      EndsWithTrans(s, c, "NO CYCLE;\n");
    }
  }

  /**
   * The largest `long` as maximum is left out, so the minimum is followed
   * directly by the cycle option; any other maximum sits between them.
   */
  lemma {:induction false} MaxValueLine(d: SequenceDef, drop: DropType)
    requires d.maxValue.Some?
    ensures d.maxValue.value == LONG_MAX ==>
      EndsWith(SequenceSource(d, drop), OptionText("MINVALUE ", LongText(d.minValue)) + CycleText(Flag(d.cycle)))
    ensures d.maxValue.value != LONG_MAX ==>
      EndsWith(SequenceSource(d, drop), OptionText("MAXVALUE ", IntToString(d.maxValue.value)) + CycleText(Flag(d.cycle)))
  {
    var max := d.maxValue.value;
    var c := CycleText(Flag(d.cycle));
    var head := HeadText(d, drop);
    var mn := OptionText("MINVALUE ", LongText(d.minValue));
    if max == LONG_MAX {
      var pre := DropText(d.name, drop) + CreateLineText(d.name, Flag(d.temporary))
        + OptionText("INCREMENT BY ", LongText(d.increment));
      assert head == pre + mn;
      assert head + "" == head;
      assert head + c == pre + (mn + c);
      EndsWithConcat(pre, mn + c);
    } else {
      assert head + MaxText(max) + c == head + (MaxText(max) + c);
      EndsWithConcat(head, MaxText(max) + c);
    }
  }

  /**
   * Without a maximum the text stops right after the minimum: neither the
   * cycle option nor the terminating semicolon is there.
   */
  lemma {:induction false} MissingMaxTruncates(d: SequenceDef, drop: DropType)
    requires d.maxValue.None?
    ensures EndsWith(SequenceSource(d, drop), OptionText("MINVALUE ", LongText(d.minValue)))
    ensures !EndsWith(SequenceSource(d, drop), ";\n")
  {
    var s := SequenceSource(d, drop);
    var minText := LongText(d.minValue);
    var mn := OptionText("MINVALUE ", minText);
    var pre := DropText(d.name, drop) + CreateLineText(d.name, Flag(d.temporary))
      + OptionText("INCREMENT BY ", LongText(d.increment));
    assert s == pre + mn;
    EndsWithConcat(pre, mn);
    assert mn[|mn| - 1] == minText[|minText| - 1];
    assert s[|s| - 1] == mn[|mn| - 1];
    if d.minValue.Some? {
      IntToStringEndsInDigit(d.minValue.value);
    }
    assert s[|s| - 2..][1] == s[|s| - 1];
  }
}
