/**
 * The key that identifies a connection profile: a profile name and the path
 * of profile groups it belongs to, written as text in the form
 * `{Main/Sub}/Name`.  Construction parses that text and may fail, so every
 * constructor is a function returning a `Result`.  The CSV splitter that
 * breaks a group path into its items is a parameter (`split`).
 */
module ProfileKeys {
  import opened Text
  import opened Seqs

  datatype ProfileKey = ProfileKey(name: string, groups: seq<string>)

  const BLANK_NAME := "Name cannot be empty!"
  const MISSING_BRACE := "Missing closing } to define group name"
  const PATH_CONFLICT := "The profile name contained a different group path than the path parameter"

  // ---------------------------------------------------------------------
  // Group paths

  /** `StringUtil.removeLeading`: every leading `c` is dropped. */
  function RemoveLeading(s: string, c: char): (r: string)
    ensures |r| <= |s| && r == s[|s| - |r|..]
    ensures |r| > 0 ==> r[0] != c
    ensures forall i :: 0 <= i < |s| - |r| ==> s[i] == c
  {
    if |s| > 0 && s[0] == c then RemoveLeading(s[1..], c) else s
  }

  /** `StringUtil.removeTrailing`: every trailing `c` is dropped. */
  function RemoveTrailing(s: string, c: char): (r: string)
    ensures |r| <= |s| && r == s[..|r|]
    ensures |r| > 0 ==> r[|r| - 1] != c
    ensures forall i :: |r| <= i < |s| ==> s[i] == c
  {
    if |s| > 0 && s[|s| - 1] == c then RemoveTrailing(s[..|s| - 1], c) else s
  }

  /**
   * `parseGroupPath`: a blank path has no groups; otherwise the slashes at
   * both ends are dropped and the rest goes to the splitter.
   */
  function ParseGroupPath(path: string, split: string -> seq<string>): (r: seq<string>)
    ensures IsBlank(path) ==> r == []
  {
    if IsBlank(path) then [] else split(RemoveTrailing(RemoveLeading(path, '/'), '/'))
  }

  /** An extra slash in front of a path that is not blank changes nothing. */
  lemma ParseGroupPathIgnoresLeadingSlash(path: string, split: string -> seq<string>)
    requires !IsBlank(path)
    ensures ParseGroupPath("/" + path, split) == ParseGroupPath(path, split)
  {
    var p := "/" + path;
    assert !IsWhite(p[0]);
    assert p[1..] == path;
    assert RemoveLeading(p, '/') == RemoveLeading(path, '/');
  }

  /** An extra slash after a path that is not blank changes nothing. */
  lemma ParseGroupPathIgnoresTrailingSlash(path: string, split: string -> seq<string>)
    requires !IsBlank(path)
    ensures ParseGroupPath(path + "/", split) == ParseGroupPath(path, split)
  {
    var p := path + "/";
    assert !IsWhite(p[|p| - 1]);
    StripAppendSlash(path);
  }

  /** Both slash-strippings of a path and of the same path with one more `/` at the end agree. */
  lemma StripAppendSlash(s: string)
    ensures RemoveTrailing(RemoveLeading(s + "/", '/'), '/') == RemoveTrailing(RemoveLeading(s, '/'), '/')
  {
    if exists i :: 0 <= i < |s| && s[i] != '/' {
      RemoveLeadingAppendSlash(s);
      RemoveTrailingAppendSlash(RemoveLeading(s, '/'));
    } else {
      AllSlashes(s);
      AllSlashes(s + "/");
    }
  }

  /** One more `/` at the end is dropped with the others. */
  lemma RemoveTrailingAppendSlash(l: string)
    ensures RemoveTrailing(l + "/", '/') == RemoveTrailing(l, '/')
  {
    assert (l + "/")[..|l|] == l;
  }

  /** Text made of slashes only loses all of it. */
  lemma {:induction false} AllSlashes(s: string)
    requires forall i :: 0 <= i < |s| ==> s[i] == '/'
    ensures RemoveLeading(s, '/') == ""
    decreases |s|
  {
    if |s| > 0 {
      assert s[0] == '/';
      assert forall i :: 0 <= i < |s[1..]| ==> s[1..][i] == s[i + 1];
      AllSlashes(s[1..]);
    }
  }

  /** Dropping leading slashes from text that holds something else, with one more slash at the end. */
  lemma {:induction false} RemoveLeadingAppendSlash(s: string)
    requires exists i :: 0 <= i < |s| && s[i] != '/'
    ensures RemoveLeading(s + "/", '/') == RemoveLeading(s, '/') + "/"
    decreases |s|
  {
    var i :| 0 <= i < |s| && s[i] != '/';
    if s[0] == '/' {
      assert (s + "/")[1..] == s[1..] + "/";
      assert s[1..][i - 1] != '/';
      RemoveLeadingAppendSlash(s[1..]);
    } else {
      assert (s + "/")[0] != '/';
    }
  }

  /** `getGroupPathAsString`: the items joined by `/`, without escaping. */
  function GroupPathAsString(path: seq<string>): string
  {
    Join(path, "/")
  }

  /**
   * One group name as it is written in an escaped path: wrapped in double
   * quotes when it contains `/`, with every `"` turned into `\"`.
   */
  function EscapeItem(item: string): (r: string)
    ensures !Contains(item, "/") && !Contains(item, "\"") ==> r == item
    ensures Contains(item, "/") ==> |r| >= 2 && r[0] == '"' && r[|r| - 1] == '"'
    ensures item != "" ==> r != ""
  {
    var body := if Contains(item, "\"") then Replace(item, "\"", "\\\"") else item;
    if Contains(item, "/") then "\"" + body + "\"" else body
  }

  /**
   * The escaped path as its loop builds it: a separator is written before
   * an item only when something has been written already.
   */
  function EscapedPath(path: seq<string>): string
  {
    if |path| == 0 then ""
    else
      var before := EscapedPath(path[..|path| - 1]);
      (if |before| > 0 then before + "/" else before) + EscapeItem(path[|path| - 1])
  }

  /** `getGroupPathEscaped`: a missing or empty path gives the empty text. */
  method GetGroupPathEscaped(path: Option<seq<string>>) returns (r: string)
    ensures path.None? ==> r == ""
    ensures path.Some? ==> r == EscapedPath(path.value)
  {
    if path.None? || |path.value| == 0 {
      return "";
    }
    var items := path.value;
    r := "";
    var i := 0;
    while i < |items|
      invariant 0 <= i <= |items|
      invariant r == EscapedPath(items[..i])
    {
      if |r| > 0 {
        r := r + "/";
      }
      r := AppendEscaped(r, items[i]);
      assert items[..i + 1][..i] == items[..i];
      i := i + 1;
    }
    assert items[..i] == items;
  }

  /** One loop step: the item, quoted when it holds `/`, with its `"` escaped. */
  method AppendEscaped(text: string, item: string) returns (r: string)
    ensures r == text + EscapeItem(item)
  {
    r := text;
    var needsQuote := Contains(item, "/");
    if needsQuote {
      r := r + "\"";
    }
    var body := item;
    if Contains(item, "\"") {
      body := Replace(item, "\"", "\\\"");
    }
    r := r + body;
    if needsQuote {
      r := r + "\"";
    }
  }

  /** With no empty group name, the escaped path is the escaped items joined by `/`. */
  lemma {:induction false} EscapedPathJoins(path: seq<string>)
    requires forall i :: 0 <= i < |path| ==> path[i] != ""
    ensures EscapedPath(path) == Join(Map(EscapeItem, path), "/")
    decreases |path|
  {
    if |path| > 0 {
      var init, x := path[..|path| - 1], path[|path| - 1];
      EscapedPathJoins(init);
      assert path == init + [x];
      MapSnoc(EscapeItem, init, x);
      JoinSnoc(Map(EscapeItem, init), EscapeItem(x), "/");
      if |init| > 0 {
        EscapedPathNonEmpty(init);
      }
    }
  }

  /** A path whose last group name is not empty escapes to text that is not empty. */
  lemma EscapedPathNonEmpty(path: seq<string>)
    requires |path| > 0 && path[|path| - 1] != ""
    ensures EscapedPath(path) != ""
  {
    assert EscapeItem(path[|path| - 1]) != "";
  }

  /** An empty first group swallows the separator after it. */
  lemma EscapedPathSkipsEmptyFirst()
    ensures EscapedPath(["", "a"]) == "a"
    ensures Join(["", "a"], "/") == "/a"
  {
    assert ["", "a"][..1] == [""];
    assert [""][..0] == [];
    ContainsChar("a", '/');
    ContainsChar("a", '"');
  }

  // ---------------------------------------------------------------------
  // Construction

  /** Text that opens a group path with `{` but never closes it. */
  predicate MissingBrace(t: string)
  {
    |t| > 0 && t[0] == '{' && forall i :: 0 <= i < |t| ==> t[i] != '}'
  }

  /**
   * `parseNameAndGroup`: `{path}/name` takes the groups from inside the
   * braces and the name after the first `/` following `}` (or right after
   * `}` when there is none); otherwise the last `/` splits path from name;
   * otherwise the trimmed text is the name and there are no groups.
   */
  function ParseNameAndGroup(pname: string, split: string -> seq<string>): (r: Result<ProfileKey>)
    ensures r.Err? <==> MissingBrace(Trim(pname))
    ensures r.Err? ==> r.message == MISSING_BRACE
    ensures (|Trim(pname)| == 0 || Trim(pname)[0] != '{') ==>
              r.Ok? && forall i :: 0 <= i < |r.value.name| ==> r.value.name[i] != '/'
  {
    var t := Trim(pname);
    if |t| > 0 && t[0] == '{' then ParseBraced(t, split) else Ok(ParseUnbraced(t, split))
  }

  /** The braced form `{path}/name`, or `{path}name`; a missing `}` is an error. */
  function ParseBraced(t: string, split: string -> seq<string>): (r: Result<ProfileKey>)
    requires |t| > 0 && t[0] == '{'
    ensures r.Err? <==> MissingBrace(t)
    ensures r.Err? ==> r.message == MISSING_BRACE
  {
    var pos := IndexOf(t, '}');
    if pos < 0 then Err(MISSING_BRACE)
    else
      var found := IndexOfFrom(t, '/', pos + 1);
      var slashPos := if found < 0 then pos else found;
      Ok(ProfileKey(Trim(t[slashPos + 1..]), ParseGroupPath(Trim(t[1..pos]), split)))
  }

  /** Without braces the last `/` splits the path from the name, which then holds no `/`. */
  function ParseUnbraced(t: string, split: string -> seq<string>): (r: ProfileKey)
    ensures forall i :: 0 <= i < |r.name| ==> r.name[i] != '/'
    ensures (forall i :: 0 <= i < |t| ==> t[i] != '/') ==> r == ProfileKey(t, [])
  {
    if IndexOf(t, '/') > -1 then
      var slashPos := LastIndexOf(t, '/');
      TrimKeepsAbsent(t[slashPos + 1..], '/');
      ProfileKey(Trim(t[slashPos + 1..]), ParseGroupPath(Trim(t[..slashPos]), split))
    else
      ProfileKey(t, [])
  }

  /** `new ProfileKey(pname)`: a blank name is refused before anything is parsed. */
  function NewKey(pname: string, split: string -> seq<string>): (r: Result<ProfileKey>)
    ensures IsBlank(pname) ==> r == Err(BLANK_NAME)
    ensures r.Err? <==> IsBlank(pname) || MissingBrace(Trim(pname))
  {
    if IsBlank(pname) then Err(BLANK_NAME) else ParseNameAndGroup(pname, split)
  }

  /**
   * `new ProfileKey(pname, path)`: the path is used only when the name
   * carried no group, and a different group in the name is an error.
   */
  function NewKeyWithPath(pname: string, path: Option<string>, split: string -> seq<string>): (r: Result<ProfileKey>)
    ensures NewKey(pname, split).Err? ==> r == NewKey(pname, split)
    ensures NewKey(pname, split).Ok? && r.Ok? ==> r.value.name == NewKey(pname, split).value.name
    ensures path.None? || IsBlank(path.value) ==> r == NewKey(pname, split)
    ensures NewKey(pname, split).Ok? && NewKey(pname, split).value.groups != [] ==>
              (r.Err? <==> path.Some? && !IsBlank(path.value)
                           && ParseGroupPath(path.value, split) != NewKey(pname, split).value.groups)
    ensures NewKey(pname, split).Ok? && NewKey(pname, split).value.groups != [] && r.Ok? ==>
              r == NewKey(pname, split)
    ensures NewKey(pname, split).Ok? && NewKey(pname, split).value.groups == []
            && path.Some? && !IsBlank(path.value) ==>
              r.Ok? && r.value.groups == ParseGroupPath(path.value, split)
  {
    if IsBlank(pname) then Err(BLANK_NAME)
    else match ParseNameAndGroup(pname, split)
      case Err(e) => Err(e)
      case Ok(k) =>
        if path.None? || IsBlank(path.value) then Ok(k)
        else
          var newPath := ParseGroupPath(path.value, split);
          if k.groups == [] then Ok(k.(groups := newPath))
          else if newPath != k.groups then Err(PATH_CONFLICT)
          else Ok(k)
  }

  /** `new ProfileKey(pname, groupPath)`: the trimmed name as it is, with the given groups. */
  function NewKeyWithGroups(pname: string, groups: Option<seq<string>>): (r: Result<ProfileKey>)
    ensures r.Err? <==> IsBlank(pname)
    ensures r.Ok? ==> r.value.name == Trim(pname) && !IsBlank(r.value.name)
    ensures r.Ok? && groups.None? ==> r.value.groups == []
  {
    if IsBlank(pname) then Err(BLANK_NAME)
    else
      TrimBlank(pname);
      TrimBlank(Trim(pname));
      TrimNoEnds(Trim(pname));
      Ok(ProfileKey(Trim(pname), if groups.Some? then groups.value else []))
  }

  /** Only the text is checked for blankness: a group with nothing after it gives an empty name. */
  lemma GroupOnlyGivesEmptyName(split: string -> seq<string>)
    ensures NewKey("{g}", split).Ok?
    ensures NewKey("{g}", split).value.name == ""
  {
    var t := "{g}";
    assert !IsWhite(t[0]) && !IsBlank(t);
    TrimNoEnds(t);
    IndexOfAt(t, '}', 2);
    assert IndexOfFrom(t, '/', 3) == -1;
    assert t[3..] == "";
    var r := ParseNameAndGroup(t, split);
    assert r.value.name == Trim("");
  }

  // ---------------------------------------------------------------------
  // Printing and comparing

  /** `toString`: the bare name, or `{groups}/name`. */
  function KeyText(k: ProfileKey): (r: string)
    ensures k.groups == [] ==> r == k.name
    ensures k.groups != [] ==> |r| > 0 && r[0] == '{'
  {
    if |k.groups| == 0 then k.name else "{" + GroupPathAsString(k.groups) + "}/" + k.name
  }

  /** A name with no white space at either end. */
  predicate Trimmed(s: string)
  {
    |s| > 0 ==> !IsWhite(s[0]) && !IsWhite(s[|s| - 1])
  }

  /**
   * Groups whose printed path reads back as the same list: the joined text
   * is not blank, has no `}`, no white space or `/` at either end, and the
   * splitter gives the list back.
   */
  predicate ReparsableGroups(groups: seq<string>, split: string -> seq<string>)
  {
    var j := GroupPathAsString(groups);
    |j| > 0 && Trimmed(j) && j[0] != '/' && j[|j| - 1] != '/'
    && (forall i :: 0 <= i < |j| ==> j[i] != '}')
    && split(j) == groups
  }

  /** A key without groups reads back from its text when the name is a plain word. */
  lemma PlainKeyRoundTrip(k: ProfileKey, split: string -> seq<string>)
    requires k.groups == [] && |k.name| > 0 && Trimmed(k.name)
    requires k.name[0] != '{' && forall i :: 0 <= i < |k.name| ==> k.name[i] != '/'
    ensures NewKey(KeyText(k), split) == Ok(k)
  {
    var t := KeyText(k);
    TrimNoEnds(t);
    assert !IsWhite(t[0]);
  }

  /** Where each part of `{j}/name` sits. */
  lemma GroupedTextAt(j: string, name: string)
    ensures var t := "{" + j + "}/" + name;
      |t| == |j| + 3 + |name| && t[0] == '{' && t[|j| + 1] == '}' && t[|j| + 2] == '/'
      && t[1..|j| + 1] == j && t[|j| + 3..] == name
  {
  }

  /** The braces around the group path and the `/` after them. */
  lemma GroupedTextParts(j: string, name: string)
    requires |j| > 0 && forall i :: 0 <= i < |j| ==> j[i] != '}'
    ensures var t := "{" + j + "}/" + name;
      IndexOf(t, '}') == |j| + 1 && IndexOfFrom(t, '/', |j| + 2) == |j| + 2
  {
    var t := "{" + j + "}/" + name;
    GroupedTextAt(j, name);
    NoCloseBefore(t, j);
    IndexOfAt(t, '}', |j| + 1);
  }

  /** Nothing before the `}` that follows `{j` closes the braces. */
  lemma NoCloseBefore(t: string, j: string)
    requires |t| > |j| + 1 && t[0] == '{' && t[1..|j| + 1] == j
    requires forall i :: 0 <= i < |j| ==> j[i] != '}'
    ensures forall i :: 0 <= i < |j| + 1 ==> t[i] != '}'
  {
    forall i | 0 <= i < |j| + 1
      ensures t[i] != '}'
    {
      if i > 0 {
        assert t[1..|j| + 1][i - 1] == t[i];
      }
    }
  }

  /** How `{j}/name` parses when `j` has no `}` and the name is trimmed. */
  lemma BracedParse(j: string, name: string, split: string -> seq<string>)
    requires |j| > 0 && (forall i :: 0 <= i < |j| ==> j[i] != '}') && Trimmed(name)
    ensures ParseNameAndGroup("{" + j + "}/" + name, split)
         == Ok(ProfileKey(name, ParseGroupPath(Trim(j), split)))
  {
    var t := "{" + j + "}/" + name;
    GroupedTextAt(j, name);
    assert t[|t| - 1] == if |name| > 0 then name[|name| - 1] else '/';
    TrimNoEnds(t);
    GroupedTextParts(j, name);
    TrimNoEnds(name);
  }

  /** A path with no slash or white space at its ends goes to the splitter as it is. */
  lemma PlainPathParse(j: string, split: string -> seq<string>)
    requires |j| > 0 && Trimmed(j) && j[0] != '/' && j[|j| - 1] != '/'
    ensures ParseGroupPath(Trim(j), split) == split(j)
  {
    TrimNoEnds(j);
    assert !IsWhite(j[0]);
    assert RemoveLeading(j, '/') == j;
    assert RemoveTrailing(j, '/') == j;
  }

  /** A key with groups reads back from its text when its groups print and parse back. */
  lemma GroupedKeyRoundTrip(k: ProfileKey, split: string -> seq<string>)
    requires k.groups != [] && Trimmed(k.name)
    requires ReparsableGroups(k.groups, split)
    ensures NewKey(KeyText(k), split) == Ok(k)
  {
    var j := GroupPathAsString(k.groups);
    var t := KeyText(k);
    assert t == "{" + j + "}/" + k.name;
    assert !IsWhite(t[0]);
    BracedParse(j, k.name, split);
    PlainPathParse(j, split);
  }

  /** `equals`: the same name, and the same groups unless either key has none. */
  predicate KeyEquals(a: ProfileKey, b: ProfileKey)
  {
    a.name == b.name && (|a.groups| == 0 || |b.groups| == 0 || a.groups == b.groups)
  }

  lemma KeyEqualsReflexiveSymmetric(a: ProfileKey, b: ProfileKey)
    ensures KeyEquals(a, a)
    ensures KeyEquals(a, b) <==> KeyEquals(b, a)
  {
  }

  /** A key without groups equals keys in two different groups that differ from each other. */
  lemma KeyEqualsNotTransitive() returns (x: ProfileKey, y: ProfileKey, z: ProfileKey)
    ensures KeyEquals(x, y) && KeyEquals(y, z) && !KeyEquals(x, z)
  {
    x, y, z := ProfileKey("n", ["a"]), ProfileKey("n", []), ProfileKey("n", ["b"]);
    assert x.groups != z.groups by {
      assert x.groups[0] != z.groups[0];
    }
  }

  /** `String.hashCode`: h = 31 * h + c over the characters, kept to 32 bits (unsigned bit pattern). */
  function JavaHash(s: string): (r: nat)
    ensures r < 0x1_0000_0000
  {
    if |s| == 0 then 0 else (31 * JavaHash(s[..|s| - 1]) + s[|s| - 1] as int) % 0x1_0000_0000
  }

  /** `hashCode` as written: the hash of the printed key. */
  function KeyHashAsWritten(k: ProfileKey): nat
  {
    JavaHash(KeyText(k))
  }

  /** Two keys that are equal yet hash differently under the printed-text hash. */
  lemma EqualKeysHashApart() returns (x: ProfileKey, y: ProfileKey)
    ensures KeyEquals(x, y) && KeyHashAsWritten(x) != KeyHashAsWritten(y)
  {
    x, y := ProfileKey("n", ["a"]), ProfileKey("n", []);
    assert KeyText(y) == "n";
    assert JavaHash("n") == 110 by {
      assert "n"[..0] == "";
    }
    var t := KeyText(x);
    assert t == "{a}/n";
    assert t[..4] == "{a}/" && "{a}/"[..3] == "{a}" && "{a}"[..2] == "{a" && "{a"[..1] == "{" && "{"[..0] == "";
    assert JavaHash("{") == 123;
    assert JavaHash("{a") == 3910;
    assert JavaHash("{a}") == 121335;
    assert JavaHash("{a}/") == 3761432;
    assert JavaHash(t) == 116604502;
  }

  /** The hash equal keys share: the name's hash, since the groups may be absent on one side. */
  function KeyHash(k: ProfileKey): nat
  {
    JavaHash(k.name)
  }

  /** Equal keys have equal hashes. */
  lemma KeyHashAgreesWithEquals(a: ProfileKey, b: ProfileKey)
    requires KeyEquals(a, b)
    ensures KeyHash(a) == KeyHash(b)
  {
  }
}
