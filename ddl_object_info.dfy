/**
 * What a DDL statement creates, drops or alters: the object type (the
 * first token naming a known object type, in upper case) and the names of
 * the objects after it. The SQL lexer is not part of this model: a
 * statement arrives as the tokens the lexer would hand out one by one,
 * where a `Fault` stands for a token whose reading raises an error. The
 * sets of known object types and of types without a name, and the
 * removal of identifier quotes, belong to `SqlUtil` and are parameters.
 */
module DdlObjects {
  import opened Text

  /** A lexer token: its normalised contents and its text as written. */
  datatype Token = Token(contents: string, text: string)

  /** What the lexer yields at one position: a token, or an error raised while reading it. */
  datatype Lexed = Tok(token: Token) | Fault

  /** One `getNextToken` call: a token, the end of the input (null), or an error. */
  datatype Step = Got(t: Token) | End | Raised

  /** The `i`-th `getNextToken` call (counting from 0). */
  function NextAt(ts: seq<Lexed>, i: nat): (r: Step)
    ensures r.End? <==> i >= |ts|
    ensures r.Got? ==> ts[i] == Tok(r.t)
    ensures r.Raised? ==> ts[i] == Fault
  {
    if i >= |ts| then End
    else match ts[i]
      case Tok(t) => Got(t)
      case Fault => Raised
  }

  /** The first token is read before the error handling starts; an error there escapes the constructor. */
  predicate FirstReadable(ts: seq<Lexed>)
  {
    |ts| == 0 || ts[0].Tok?
  }

  /** No token raises an error. */
  predicate NoFault(ts: seq<Lexed>)
  {
    forall i :: 0 <= i < |ts| ==> ts[i].Tok?
  }

  /** The object type (none: not a statement this recognises) and the object names. */
  datatype Info = Info(objectType: Option<string>, names: seq<string>)

  /** No type and no names: what an unrecognised statement, and an error, leave behind. */
  const NO_INFO: Info := Info(None, [])

  /** Oracle's keyword for editionable objects. */
  const EDITIONABLE: string := "EDITIONABLE"

  /** A statement that may name an object: anything starting with `CREATE`, or DROP, RECREATE, ALTER, ANALYZE in any case. */
  predicate IsDdlVerb(verb: string)
  {
    || StartsWith(verb, "CREATE")
    || EqualsIgnoreCase(verb, "DROP")
    || EqualsIgnoreCase(verb, "RECREATE")
    || EqualsIgnoreCase(verb, "ALTER")
    || EqualsIgnoreCase(verb, "ANALYZE")
  }

  /** A word before the name that is not the name. */
  predicate IsSkipWord(contents: string)
  {
    contents == "IF NOT EXISTS" || contents == "IF EXISTS" || contents == EDITIONABLE
  }

  /** PostgreSQL's `CONCURRENTLY`, in any case. */
  predicate IsConcurrently(contents: string)
  {
    EqualsIgnoreCase(contents, "CONCURRENTLY")
  }

  /** A token that ends the name list of a PostgreSQL DROP. */
  predicate IsDropEnd(text: string)
  {
    EqualsIgnoreCase(text, "CASCADE") || EqualsIgnoreCase(text, "RESTRICT")
    || EqualsIgnoreCase(text, "WITH") || text == ";"
  }

  // ---------------------------------------------------------------------
  // The object type

  /** Where the search for the object type ends. */
  datatype TypeSearch = TypeAt(k: nat) | NoType | TypeRaised

  /** The first position from `i` on whose token names a known type. */
  function TypeScan(ts: seq<Lexed>, i: nat, known: set<string>): (r: TypeSearch)
    ensures r.TypeAt? ==> i <= r.k < |ts| && ts[r.k].Tok? && ts[r.k].token.contents in known
    decreases |ts| - i
  {
    match NextAt(ts, i)
    case End => NoType
    case Raised => TypeRaised
    case Got(t) => if t.contents in known then TypeAt(i) else TypeScan(ts, i + 1, known)
  }

  /**
   * Every token the search passes over is read without error and names no
   * known type; a search that fails passes over everything, and one that
   * raises meets a faulty token.
   */
  lemma {:induction false} TypeScanFirst(ts: seq<Lexed>, i: nat, known: set<string>)
    ensures TypeScan(ts, i, known).TypeAt? ==>
      forall j :: i <= j < TypeScan(ts, i, known).k ==> ts[j].Tok? && ts[j].token.contents !in known
    ensures TypeScan(ts, i, known).NoType? ==>
      forall j :: i <= j < |ts| ==> ts[j].Tok? && ts[j].token.contents !in known
    ensures TypeScan(ts, i, known).TypeRaised? ==> !NoFault(ts)
    decreases |ts| - i
  {
    if i < |ts| && ts[i].Tok? && ts[i].token.contents !in known {
      TypeScanFirst(ts, i + 1, known);
    }
  }

  // ---------------------------------------------------------------------
  // The name token

  /** Where the name is looked for: a token at a position, nothing more to read, or an error. */
  datatype Cursor = At(pos: nat, token: Token) | Done | Failed

  function CursorAt(ts: seq<Lexed>, i: nat): (r: Cursor)
    ensures r.At? ==> r.pos == i && i < |ts| && ts[i] == Tok(r.token)
  {
    match NextAt(ts, i)
    case Got(t) => At(i, t)
    case End => Done
    case Raised => Failed
  }

  /**
   * The name token after the type at `k`: `CONCURRENTLY` (PostgreSQL
   * only) and then one of IF NOT EXISTS, IF EXISTS, EDITIONABLE are passed
   * over, and nothing else is.
   */
  function NameStart(ts: seq<Lexed>, k: nat, postgres: bool): (r: Cursor)
    ensures r.At? ==> k + 1 <= r.pos <= k + 3 && r.pos < |ts| && ts[r.pos] == Tok(r.token)
    ensures r.At? && r.pos == k + 1 ==>
      !(postgres && IsConcurrently(r.token.contents)) && !IsSkipWord(r.token.contents)
    ensures r.At? && r.pos >= k + 2 ==>
      ts[k + 1].Tok? && ((postgres && IsConcurrently(ts[k + 1].token.contents)) || IsSkipWord(ts[k + 1].token.contents))
    ensures r.At? && r.pos == k + 3 ==>
      postgres && IsConcurrently(ts[k + 1].token.contents) && ts[k + 2].Tok? && IsSkipWord(ts[k + 2].token.contents)
  {
    var first := CursorAt(ts, k + 1);
    var afterConcurrently :=
      if first.At? && postgres && IsConcurrently(first.token.contents) then CursorAt(ts, k + 2) else first;
    if afterConcurrently.At? && IsSkipWord(afterConcurrently.token.contents)
    then CursorAt(ts, afterConcurrently.pos + 1)
    else afterConcurrently
  }

  /**
   * The names a statement other than a PostgreSQL DROP yields, given the
   * name token and the token after it: none for an unnamed `CREATE INDEX
   * ON`, the name joined with the next token when it ends in `.`, else the
   * name alone; identifier quotes removed.
   */
  function NameList(verb: string, ty: string, name: Token, next: Option<Token>, unquote: string -> string): (r: seq<string>)
    ensures |r| <= 1
    ensures |r| == 0 <==> EqualsIgnoreCase(verb, "CREATE") && EqualsIgnoreCase(ty, "index") && EqualsIgnoreCase(name.contents, "ON")
  {
    if EqualsIgnoreCase(verb, "CREATE") && EqualsIgnoreCase(ty, "index") && EqualsIgnoreCase(name.contents, "ON") then []
    else if next.Some? && EndsWith(name.contents, ".") then [unquote(name.contents) + unquote(next.value.contents)]
    else [unquote(name.contents)]
  }

  /**
   * The names from the name token at `p` and what follows it: after
   * `name .` the token past the dot is the name. None when reading a token
   * raises an error.
   */
  function SingleName(verb: string, ty: string, ts: seq<Lexed>, p: nat, name: Token, unquote: string -> string): Option<seq<string>>
  {
    match NextAt(ts, p + 1)
    case Raised => None
    case End => Some(NameList(verb, ty, name, None, unquote))
    case Got(next) =>
      if next.contents == "." then
        match NextAt(ts, p + 2)
        case Raised => None
        case End => Some(NameList(verb, ty, name, None, unquote))
        case Got(after) => Some(NameList(verb, ty, after, Some(after), unquote))
      else Some(NameList(verb, ty, name, Some(next), unquote))
  }

  // ---------------------------------------------------------------------
  // The names of a PostgreSQL DROP

  /** Where the name list that starts at `p` ends: the end of input or an end word; none when a token raises first. */
  function DropStop(ts: seq<Lexed>, p: nat): (r: Option<nat>)
    requires p <= |ts|
    ensures r.Some? ==> p <= r.value <= |ts|
    decreases |ts| - p
  {
    match NextAt(ts, p)
    case End => Some(p)
    case Raised => None
    case Got(t) => if IsDropEnd(t.text) then Some(p) else DropStop(ts, p + 1)
  }

  /** The list stops at the first end word, or at the end of the input. */
  lemma {:induction false} DropStopFirst(ts: seq<Lexed>, p: nat)
    requires p <= |ts|
    ensures DropStop(ts, p).Some? ==>
      forall i :: p <= i < DropStop(ts, p).value ==> ts[i].Tok? && !IsDropEnd(ts[i].token.text)
    ensures DropStop(ts, p).Some? && DropStop(ts, p).value < |ts| ==>
      ts[DropStop(ts, p).value].Tok? && IsDropEnd(ts[DropStop(ts, p).value].token.text)
    ensures DropStop(ts, p).None? ==> !NoFault(ts)
    decreases |ts| - p
  {
    if p < |ts| && ts[p].Tok? && !IsDropEnd(ts[p].token.text) {
      DropStopFirst(ts, p + 1);
    }
  }

  /** The texts of the tokens from `p` up to `j`. */
  function Texts(ts: seq<Lexed>, p: nat, j: nat): (r: seq<string>)
    requires p <= j <= |ts|
    ensures |r| == j - p
    decreases j - p
  {
    if j == p then [] else Texts(ts, p, j - 1) + [if ts[j - 1].Tok? then ts[j - 1].token.text else ""]
  }

  /** The names completed so far and the one being built. */
  datatype DropState = DropState(names: seq<string>, current: string)

  /** The drop loop over `texts`: a `,` completes the current name, any other text extends it. */
  function DropFold(texts: seq<string>): DropState
  {
    if |texts| == 0 then DropState([], "")
    else
      var s := DropFold(texts[..|texts| - 1]);
      var t := texts[|texts| - 1];
      if t == "," then DropState(s.names + [s.current], "") else s.(current := s.current + t)
  }

  lemma DropFoldSnoc(texts: seq<string>, t: string)
    ensures DropFold(texts + [t]) ==
      if t == "," then DropState(DropFold(texts).names + [DropFold(texts).current], "")
      else DropFold(texts).(current := DropFold(texts).current + t)
  {
    assert (texts + [t])[..|texts|] == texts;
  }

  /** The names of the loop, the last one only when it is not blank. */
  function DropNames(texts: seq<string>): (r: seq<string>)
  {
    var s := DropFold(texts);
    if IsBlank(s.current) then s.names else s.names + [s.current]
  }

  /** How often `x` occurs in `texts`. */
  function CountOf(texts: seq<string>, x: string): nat
  {
    if |texts| == 0 then 0
    else CountOf(texts[..|texts| - 1], x) + (if texts[|texts| - 1] == x then 1 else 0)
  }

  /**
   * The loop loses no text: the names completed so far and the current one,
   * joined with commas, give back every text read.
   */
  lemma {:induction false} DropFoldRejoins(texts: seq<string>)
    ensures Join(DropFold(texts).names + [DropFold(texts).current], ",") == Concat(texts)
    decreases |texts|
  {
    if |texts| > 0 {
      var init := texts[..|texts| - 1];
      var t := texts[|texts| - 1];
      assert texts == init + [t];
      DropFoldRejoins(init);
      DropFoldSnoc(init, t);
      ConcatSnoc(init, t);
      var s := DropFold(init);
      if t == "," {
        calc {
          Join(DropFold(texts).names + [DropFold(texts).current], ",");
          == { assert DropFold(texts).names + [DropFold(texts).current] == (s.names + [s.current]) + [""]; }
          Join((s.names + [s.current]) + [""], ",");
          == { JoinSnoc(s.names + [s.current], "", ","); }
          Join(s.names + [s.current], ",") + "," + "";
        }
      } else {
        calc {
          Join(DropFold(texts).names + [DropFold(texts).current], ",");
          Join(s.names + [s.current + t], ",");
          == { JoinSnoc(s.names, s.current + t, ","); JoinSnoc(s.names, s.current, ","); }
          Join(s.names + [s.current], ",") + t;
        }
      }
    }
  }

  /** Every comma completes one name. */
  lemma {:induction false} DropFoldCounts(texts: seq<string>)
    ensures |DropFold(texts).names| == CountOf(texts, ",")
    decreases |texts|
  {
    if |texts| > 0 {
      DropFoldCounts(texts[..|texts| - 1]);
    }
  }

  /**
   * The names of a DROP list: one more than there are commas when the last
   * is not blank (and then, joined with commas, they give back the list),
   * as many as commas when it is blank.
   */
  lemma DropNamesRejoin(texts: seq<string>)
    ensures IsBlank(DropFold(texts).current) ==> |DropNames(texts)| == CountOf(texts, ",")
    ensures !IsBlank(DropFold(texts).current) ==>
      |DropNames(texts)| == CountOf(texts, ",") + 1 && Join(DropNames(texts), ",") == Concat(texts)
  {
    DropFoldRejoins(texts);
    DropFoldCounts(texts);
  }

  // ---------------------------------------------------------------------
  // The whole statement

  /** What follows the type `ty` found at `k`: the name list of a PostgreSQL DROP, or a single name. */
  function NamesAfterType(verb: string, ty: string, ts: seq<Lexed>, k: nat, postgres: bool, unquote: string -> string): Info
  {
    match NameStart(ts, k, postgres)
    case Done => Info(Some(ty), [])
    case Failed => NO_INFO
    case At(p, name) =>
      if postgres && EqualsIgnoreCase(verb, "DROP") then
        match DropStop(ts, p)
        case None => NO_INFO
        case Some(j) => Info(Some(ty), DropNames(Texts(ts, p, j)))
      else match SingleName(verb, ty, ts, p, name, unquote)
        case None => NO_INFO
        case Some(names) => Info(Some(ty), names)
  }

  /** The type and names of the statement whose tokens are `ts`. */
  function Parse(ts: seq<Lexed>, postgres: bool, known: set<string>, nameless: set<string>, unquote: string -> string): Info
    requires FirstReadable(ts)
  {
    match NextAt(ts, 0)
    case End => NO_INFO
    case Raised => NO_INFO
    case Got(v) =>
      if !IsDdlVerb(v.contents) then NO_INFO
      else match TypeScan(ts, 1, known)
        case NoType => NO_INFO
        case TypeRaised => NO_INFO
        case TypeAt(k) =>
          var ty := Upper(ts[k].token.contents);
          if ty in nameless then Info(Some(ty), [])
          else NamesAfterType(v.contents, ty, ts, k, postgres, unquote)
  }

  /**
   * A statement has a type only when its first token is a DDL verb; the
   * type is then the upper-cased first token that names a known type,
   * and no token between the verb and it names one.
   */
  lemma TypeIsFirstKnown(ts: seq<Lexed>, postgres: bool, known: set<string>, nameless: set<string>, unquote: string -> string)
    returns (k: nat)
    requires FirstReadable(ts)
    requires Parse(ts, postgres, known, nameless, unquote).objectType.Some?
    ensures |ts| > 0 && IsDdlVerb(ts[0].token.contents)
    ensures 1 <= k < |ts| && ts[k].Tok? && ts[k].token.contents in known
    ensures Parse(ts, postgres, known, nameless, unquote).objectType == Some(Upper(ts[k].token.contents))
    ensures forall j :: 1 <= j < k ==> ts[j].Tok? && ts[j].token.contents !in known
  {
    k := TypeScan(ts, 1, known).k;
    TypeScanFirst(ts, 1, known);
  }

  /** A statement without a type has no names either. */
  lemma InvalidHasNoNames(ts: seq<Lexed>, postgres: bool, known: set<string>, nameless: set<string>, unquote: string -> string)
    requires FirstReadable(ts)
    ensures Parse(ts, postgres, known, nameless, unquote).objectType.None? ==>
      Parse(ts, postgres, known, nameless, unquote).names == []
  {
  }

  /** Only a PostgreSQL DROP names more than one object. */
  lemma OneNameUnlessPgDrop(ts: seq<Lexed>, postgres: bool, known: set<string>, nameless: set<string>, unquote: string -> string)
    requires FirstReadable(ts)
    requires !(postgres && |ts| > 0 && EqualsIgnoreCase(ts[0].token.contents, "DROP"))
    ensures |Parse(ts, postgres, known, nameless, unquote).names| <= 1
  {
  }

  /**
   * Without errors, a statement has a type exactly when its first token is
   * a DDL verb and a later token names a known type.
   */
  lemma NoFaultTypeIff(ts: seq<Lexed>, postgres: bool, known: set<string>, nameless: set<string>, unquote: string -> string)
    requires NoFault(ts)
    ensures FirstReadable(ts)
    ensures Parse(ts, postgres, known, nameless, unquote).objectType.Some? <==>
      |ts| > 0 && IsDdlVerb(ts[0].token.contents)
      && exists k :: 1 <= k < |ts| && ts[k].token.contents in known
  {
    TypeScanFirst(ts, 1, known);
    var scan := TypeScan(ts, 1, known);
    if |ts| > 0 && IsDdlVerb(ts[0].token.contents) && scan.TypeAt? {
      var k := scan.k;
      var c := NameStart(ts, k, postgres);
      if c.At? {
        if postgres && EqualsIgnoreCase(ts[0].token.contents, "DROP") {
          DropStopFirst(ts, c.pos);
        }
      }
    }
  }

  /** An error reading the token right after the type clears the type found. */
  lemma FaultAfterTypeClears(ts: seq<Lexed>, postgres: bool, known: set<string>, nameless: set<string>, unquote: string -> string, k: nat)
    requires |ts| > 0 && ts[0].Tok? && IsDdlVerb(ts[0].token.contents)
    requires TypeScan(ts, 1, known) == TypeAt(k)
    requires Upper(ts[k].token.contents) !in nameless
    requires k + 1 < |ts| && ts[k + 1] == Fault
    ensures Parse(ts, postgres, known, nameless, unquote) == NO_INFO
  {
  }

  /** `schema . name` names `name`. */
  lemma DotTakesLast(verb: string, ty: string, ts: seq<Lexed>, p: nat, name: Token, unquote: string -> string)
    requires p + 2 < |ts| && ts[p + 1].Tok? && ts[p + 1].token.contents == "." && ts[p + 2].Tok?
    requires !EndsWith(ts[p + 2].token.contents, ".")
    requires !EqualsIgnoreCase(ts[p + 2].token.contents, "ON")
    ensures SingleName(verb, ty, ts, p, name, unquote) == Some([unquote(ts[p + 2].token.contents)])
  {
  }

  /** A name ending in `.` is joined with the token after it. */
  lemma TrailingDotJoins(verb: string, ty: string, ts: seq<Lexed>, p: nat, name: Token, unquote: string -> string)
    requires p + 1 < |ts| && ts[p + 1].Tok? && ts[p + 1].token.contents != "."
    requires EndsWith(name.contents, ".") && !EqualsIgnoreCase(name.contents, "ON")
    ensures SingleName(verb, ty, ts, p, name, unquote) ==
      Some([unquote(name.contents) + unquote(ts[p + 1].token.contents)])
  {
  }

  /** The unnamed `CREATE INDEX ON t` keeps its type and names nothing. */
  lemma UnnamedIndex(ts: seq<Lexed>, p: nat, name: Token, unquote: string -> string)
    requires EqualsIgnoreCase(name.contents, "ON") && p + 1 < |ts| && ts[p + 1].Tok? && ts[p + 1].token.contents != "."
    ensures SingleName("CREATE", "INDEX", ts, p, name, unquote) == Some([])
  {
  }

  /**
   * The loop of `parsePgDropNames`: from the name token at `p` on, texts up
   * to an end word are concatenated into names that commas separate; a
   * last name that is blank is dropped. Reports whether a token raised an
   * error.
   */
  method ScanDropNames(ts: seq<Lexed>, p: nat, current: Token) returns (names: seq<string>, raised: bool)
    requires p < |ts| && ts[p] == Tok(current)
    ensures raised <==> DropStop(ts, p).None?
    ensures !raised ==> names == DropNames(Texts(ts, p, DropStop(ts, p).value))
  {
    names := [];
    var currentName := "";
    var cur := Got(current);
    var pos := p + 1;
    ghost var texts: seq<string> := [];
    while cur.Got?
      invariant p < pos <= |ts| + 1
      invariant cur == NextAt(ts, pos - 1)
      invariant DropStop(ts, pos - 1) == DropStop(ts, p)
      invariant texts == Texts(ts, p, pos - 1)
      invariant names == DropFold(texts).names
      invariant currentName == DropFold(texts).current
      decreases |ts| + 1 - pos
    {
      if IsDropEnd(cur.t.text) {
        break;
      }
      DropFoldSnoc(texts, cur.t.text);
      texts := texts + [cur.t.text];
      if cur.t.text == "," {
        names := names + [currentName];
        currentName := "";
      } else {
        currentName := currentName + cur.t.text;
      }
      cur := NextAt(ts, pos);
      pos := pos + 1;
    }
    if cur.Raised? {
      return names, true;
    }
    assert DropStop(ts, p) == Some(pos - 1);
    if !IsBlank(currentName) {
      names := names + [currentName];
    }
    raised := false;
  }

  /**
   * Reads the name token after the type at `k`: one more token when the
   * first is PostgreSQL's `CONCURRENTLY`, one more when the token then held
   * is IF NOT EXISTS, IF EXISTS or EDITIONABLE.
   */
  method ReadNameToken(ts: seq<Lexed>, k: nat, postgres: bool) returns (name: Cursor)
    ensures name == NameStart(ts, k, postgres)
  {
    var pos := k + 1;
    name := CursorAt(ts, pos);
    if !name.At? {
      return;
    }
    var content := name.token.contents;
    if postgres && IsConcurrently(content) {
      pos := pos + 1;
      name := CursorAt(ts, pos);
      if !name.At? {
        return;
      }
      content := name.token.contents;
    }
    if IsSkipWord(content) {
      pos := pos + 1;
      name := CursorAt(ts, pos);
    }
  }

  /**
   * Reads what follows the name token at `p`: a `.` and the token after it
   * replace the name; a name ending in `.` is joined with the token after
   * it; an unnamed `CREATE INDEX ON` has no name. Reports whether reading
   * raised an error.
   */
  method ReadSingleName(verb: string, ty: string, ts: seq<Lexed>, p: nat, name: Token, unquote: string -> string)
    returns (names: seq<string>, raised: bool)
    ensures raised <==> SingleName(verb, ty, ts, p, name, unquote).None?
    ensures !raised ==> names == SingleName(verb, ty, ts, p, name, unquote).value
  {
    var current := name;
    var next := NextAt(ts, p + 1);
    if next.Raised? {
      return [], true;
    }
    if next.Got? && next.t.contents == "." {
      next := NextAt(ts, p + 2);
      if next.Raised? {
        return [], true;
      }
      if next.Got? {
        current := next.t;
      }
    }
    raised := false;
    if EqualsIgnoreCase(verb, "CREATE") && EqualsIgnoreCase(ty, "index") && EqualsIgnoreCase(current.contents, "ON") {
      names := [];
    } else if next.Got? && EndsWith(current.contents, ".") {
      names := [unquote(current.contents) + unquote(next.t.contents)];
    } else {
      names := [unquote(current.contents)];
    }
  }

  // ---------------------------------------------------------------------
  // The object

  class DdlObjectInfo {
    var objectType: Option<string>
    var objectNames: seq<string>

    /** Parses the statement whose tokens are `ts`. */
    constructor(ts: seq<Lexed>, postgres: bool, known: set<string>, nameless: set<string>, unquote: string -> string)
      requires FirstReadable(ts)
      ensures objectType == Parse(ts, postgres, known, nameless, unquote).objectType
      ensures objectNames == Parse(ts, postgres, known, nameless, unquote).names
    {
      objectType := None;
      objectNames := [];
      new;
      ParseSql(ts, postgres, known, nameless, unquote);
    }

    /** The error handler: no names and no type. */
    method ClearOnError()
      modifies this
      ensures objectType == None && objectNames == []
    {
      objectNames := [];
      objectType := None;
    }

    /**
     * `parseSQL`: reads the verb, then tokens up to the first known type,
     * then the name as `NameStart` and `SingleName` describe, or the name
     * list of a PostgreSQL DROP; an error raised on the way clears
     * everything. Runs on a fresh object, whose type is still unset.
     */
    method ParseSql(ts: seq<Lexed>, postgres: bool, known: set<string>, nameless: set<string>, unquote: string -> string)
      requires FirstReadable(ts) && objectType.None?
      modifies this
      ensures objectType == Parse(ts, postgres, known, nameless, unquote).objectType
      ensures objectNames == Parse(ts, postgres, known, nameless, unquote).names
    {
      var pos := 0;
      var t := NextAt(ts, pos);
      pos := pos + 1;
      objectNames := [];
      if !t.Got? {
        return;
      }
      var verb := t.t.contents;
      if !IsDdlVerb(verb) {
        return;
      }

      var typeFound := false;
      var token := NextAt(ts, pos);
      pos := pos + 1;
      while token.Got?
        invariant 2 <= pos <= |ts| + 1
        invariant token == NextAt(ts, pos - 1)
        invariant TypeScan(ts, pos - 1, known) == TypeScan(ts, 1, known)
        invariant !typeFound && objectType.None? && objectNames == []
        decreases |ts| + 1 - pos
      {
        var c := token.t.contents;
        if c in known {
          typeFound := true;
          objectType := Some(Upper(c));
          break;
        }
        token := NextAt(ts, pos);
        pos := pos + 1;
      }
      if token.Raised? {
        ClearOnError();
        return;
      }
      if !typeFound {
        return;
      }
      var k := pos - 1;
      assert TypeScan(ts, 1, known) == TypeAt(k);

      if objectType.value !in nameless {
        ParseNames(ts, verb, k, postgres, unquote);
      }
    }

    /**
     * The rest of `parseSQL` once the type at `k` is known: passes over
     * `CONCURRENTLY` and IF [NOT] EXISTS or EDITIONABLE, then reads the
     * name list of a PostgreSQL DROP or a single, possibly qualified, name.
     */
    method ParseNames(ts: seq<Lexed>, verb: string, k: nat, postgres: bool, unquote: string -> string)
      requires objectType.Some? && objectNames == []
      modifies this
      ensures objectType == NamesAfterType(verb, old(objectType).value, ts, k, postgres, unquote).objectType
      ensures objectNames == NamesAfterType(verb, old(objectType).value, ts, k, postgres, unquote).names
    {
      var name := ReadNameToken(ts, k, postgres);
      if name.Failed? {
        ClearOnError();
        return;
      }
      if name.Done? {
        return;
      }

      if postgres && EqualsIgnoreCase(verb, "DROP") {
        var raised := ParsePgDropNames(ts, name.pos, name.token);
        if raised {
          ClearOnError();
        }
        return;
      }

      var names, raised := ReadSingleName(verb, objectType.value, ts, name.pos, name.token, unquote);
      if raised {
        ClearOnError();
        return;
      }
      objectNames := objectNames + names;
    }

    /**
     * `parsePgDropNames`: appends the names of a PostgreSQL DROP list that
     * starts with the name token at `p`. Reports whether a token raised an
     * error.
     */
    method ParsePgDropNames(ts: seq<Lexed>, p: nat, current: Token) returns (raised: bool)
      requires p < |ts| && ts[p] == Tok(current)
      modifies this
      ensures raised <==> DropStop(ts, p).None?
      ensures !raised ==> objectNames == old(objectNames) + DropNames(Texts(ts, p, DropStop(ts, p).value))
      ensures objectType == old(objectType)
    {
      var names;
      names, raised := ScanDropNames(ts, p, current);
      if !raised {
        objectNames := objectNames + names;
      }
    }

    /** `setObjectType`. */
    method SetObjectType(newType: Option<string>)
      modifies this
      ensures objectType == newType && objectNames == old(objectNames)
    {
      objectType := newType;
    }

    /** `isValid`: a type was found. */
    function IsValid(): (r: bool)
      reads this
      ensures r <==> objectType.Some?
    {
      objectType.Some?
    }

    /** `getObjectName`: none without names, the only name, or all names separated by `, `. */
    function GetObjectName(): (r: Option<string>)
      reads this
      ensures r.None? <==> |objectNames| == 0
      ensures |objectNames| == 1 ==> r == Some(objectNames[0])
      ensures r.Some? ==> r.value == Join(objectNames, ", ")
    {
      if |objectNames| == 0 then None
      else if |objectNames| == 1 then Some(objectNames[0])
      else Some(Join(objectNames, ", "))
    }
  }
}
