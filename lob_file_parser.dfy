/**
 * The `{$blobfile=...}` and `{$clobfile=...}` markers of a SQL statement:
 * each marker (matched with ASCII letters in any case) becomes one
 * parameter, whose file name, encoding and binary flag come from the
 * tokens of the marker's body. The tokenizer that splits a body at blanks
 * while keeping quoted text together is not part of this model and is a
 * parameter.
 */
module LobFileParameters {
  import opened Text

  /** A file parameter: the file to read, its encoding, and whether it is read as bytes. */
  datatype LobFileParameter = LobFileParameter(filename: Option<string>, encoding: Option<string>, binary: bool)

  /** A fresh parameter: no file, no encoding, not binary. */
  const EMPTY_PARAMETER: LobFileParameter := LobFileParameter(None, None, false)

  /** Where a marker starts (its `{`) and where it ends (its `}`). */
  datatype Span = Span(start: nat, end: nat)

  // The marker: the pattern \{\$[cb]lobfile=[^\}]*\}, case-insensitive

  /** The fixed beginning of a marker at `i`: `{$`, `c` or `b`, then `lobfile=`, letters in any case. */
  predicate MarkerStartAt(sql: string, i: nat)
  {
    i + 3 <= |sql| && sql[i] == '{' && sql[i + 1] == '$'
    && (LowerChar(sql[i + 2]) == 'c' || LowerChar(sql[i + 2]) == 'b')
    && WordAt(sql, i + 3, "lobfile=")
  }

  /** `w` appears at `i` of `s`, ASCII letters of `s` in any case. */
  predicate WordAt(s: string, i: nat, w: string)
    decreases |w|
  {
    if |w| == 0 then i <= |s|
    else i < |s| && LowerChar(s[i]) == w[0] && WordAt(s, i + 1, w[1..])
  }

  /**
   * A word found at `i` fits in `s`, and a character that case folding
   * leaves alone and that the word does not hold is not in its place.
   */
  lemma {:induction false} WordAtAvoids(s: string, i: nat, w: string, c: char)
    requires WordAt(s, i, w) && c !in w && LowerChar(c) == c
    ensures i + |w| <= |s|
    ensures forall j :: i <= j < i + |w| ==> s[j] != c
    decreases |w|
  {
    if |w| > 0 {
      assert w == [w[0]] + w[1..];
      WordAtAvoids(s, i + 1, w[1..], c);
    }
  }

  /** The fixed beginning of a marker fits in the statement and holds no `}`. */
  lemma MarkerStartShape(sql: string, i: nat)
    requires MarkerStartAt(sql, i)
    ensures i + 11 <= |sql|
    ensures forall j :: i <= j < i + 11 ==> sql[j] != '}'
  {
    WordAtAvoids(sql, i + 3, "lobfile=", '}');
  }

  /** A marker matches at `i`: its beginning, then a closing brace somewhere after it. */
  predicate MarkerAt(sql: string, i: nat)
  {
    MarkerStartAt(sql, i) && IndexOfFrom(sql, '}', i + 11) >= 0
  }

  /**
   * `Matcher.find` from `from` on: the first position where a marker
   * matches, or -1.
   */
  function Find(sql: string, from: nat): (r: int)
    ensures r == -1 || (from <= r < |sql| && MarkerAt(sql, r))
    decreases |sql| - from
  {
    if from >= |sql| then -1
    else if MarkerAt(sql, from) then from
    else Find(sql, from + 1)
  }

  /** No marker matches between `from` and what `Find` reports (or the end). */
  lemma {:induction false} FindFirst(sql: string, from: nat)
    ensures var r := Find(sql, from);
      forall i :: from <= i < |sql| && (r == -1 || i < r) ==> !MarkerAt(sql, i)
    decreases |sql| - from
  {
    if from < |sql| && !MarkerAt(sql, from) {
      FindFirst(sql, from + 1);
    }
  }

  /** `Matcher.end` after a match at `start`: just past the first `}` after the fixed beginning. */
  function MatchEnd(sql: string, start: nat): (r: nat)
    requires MarkerAt(sql, start)
    ensures start + 11 < r <= |sql|
  {
    IndexOfFrom(sql, '}', start + 11) + 1
  }

  /**
   * The markers successive `find` calls report from `from` on: each
   * search resumes where the previous match ended.
   */
  function Markers(sql: string, from: nat): seq<Span>
    decreases |sql| - from
  {
    var n := Find(sql, from);
    if n < 0 then []
    else [Span(n, MatchEnd(sql, n) - 1)] + Markers(sql, MatchEnd(sql, n))
  }

  /** The text `init` hands to the tokenizer: from after `{$` up to the closing brace. */
  function Body(sql: string, sp: Span): string
  {
    if sp.start + 2 <= sp.end <= |sql| then sql[sp.start + 2..sp.end] else ""
  }

  // One token of a marker body

  /** The text before the first `=`, none without one. */
  function TokenArg(t: string): (r: Option<string>)
    ensures IndexOf(t, '=') == -1 <==> r.None?
    ensures r.Some? ==> '=' !in r.value
  {
    var pos := IndexOf(t, '=');
    if pos > -1 then Some(t[..pos]) else None
  }

  /** The text after the first `=`, none without one. */
  function TokenValue(t: string): (r: Option<string>)
    ensures IndexOf(t, '=') == -1 <==> r.None?
  {
    var pos := IndexOf(t, '=');
    if pos > -1 then Some(t[pos + 1..]) else None
  }

  /** A token with `=` is its argument, `=`, and its value. */
  lemma TokenSplit(t: string)
    requires IndexOf(t, '=') > -1
    ensures t == TokenArg(t).value + "=" + TokenValue(t).value
  {
    var pos := IndexOf(t, '=');
    assert t == t[..pos] + [t[pos]] + t[pos + 1..];
  }

  predicate IsEncodingToken(t: string)
  {
    TokenArg(t) == Some("encoding")
  }

  /**
   * One token: `encoding=x` sets the encoding; any other token sets the
   * file name to what follows its `=` (none without one) and makes the
   * parameter binary exactly when what precedes it is `blobfile`.
   */
  function ApplyToken(p: LobFileParameter, t: string): (r: LobFileParameter)
    ensures IsEncodingToken(t) ==> r == p.(encoding := TokenValue(t))
    ensures !IsEncodingToken(t) ==> r == p.(filename := TokenValue(t), binary := TokenArg(t) == Some("blobfile"))
  {
    if IsEncodingToken(t) then p.(encoding := TokenValue(t))
    else p.(filename := TokenValue(t), binary := TokenArg(t) == Some("blobfile"))
  }

  /** The tokens applied in order. */
  function ApplyTokens(p: LobFileParameter, toks: seq<string>): LobFileParameter
  {
    if |toks| == 0 then p else ApplyToken(ApplyTokens(p, toks[..|toks| - 1]), toks[|toks| - 1])
  }

  /** The last token that is (or is not) an encoding token. */
  function LastToken(toks: seq<string>, encoding: bool): (r: Option<string>)
    ensures r.Some? ==> r.value in toks && IsEncodingToken(r.value) == encoding
    ensures r.None? ==> forall t :: t in toks ==> IsEncodingToken(t) != encoding
  {
    if |toks| == 0 then None
    else if IsEncodingToken(toks[|toks| - 1]) == encoding then Some(toks[|toks| - 1])
    else LastToken(toks[..|toks| - 1], encoding)
  }

  /**
   * Later tokens override earlier ones: the encoding is the last encoding
   * token's, the file name and the binary flag the last other token's,
   * and what no token sets keeps its value.
   */
  lemma {:induction false} LastTokensDecide(p: LobFileParameter, toks: seq<string>)
    ensures var r := ApplyTokens(p, toks);
      && (LastToken(toks, true).Some? ==> r.encoding == TokenValue(LastToken(toks, true).value))
      && (LastToken(toks, true).None? ==> r.encoding == p.encoding)
      && (LastToken(toks, false).Some? ==>
            r.filename == TokenValue(LastToken(toks, false).value)
            && r.binary == (TokenArg(LastToken(toks, false).value) == Some("blobfile")))
      && (LastToken(toks, false).None? ==> r.filename == p.filename && r.binary == p.binary)
  {
    if |toks| > 0 {
      LastTokensDecide(p, toks[..|toks| - 1]);
    }
  }

  /** A last file token without `=` leaves neither a file name nor the binary flag. */
  lemma TokenWithoutEquals(p: LobFileParameter, toks: seq<string>, t: string)
    requires IndexOf(t, '=') == -1
    ensures ApplyTokens(p, toks + [t]).filename.None?
    ensures !ApplyTokens(p, toks + [t]).binary
  {
    assert (toks + [t])[..|toks|] == toks;
  }

  /**
   * The binary flag compares the argument with `blobfile` exactly, while
   * the marker itself matches in any case: `BLOBFILE=x` names a file that
   * is not read as binary.
   */
  lemma UpperCaseBlobfileNotBinary(p: LobFileParameter)
    ensures ApplyToken(p, "BLOBFILE=x") == p.(filename := Some("x"), binary := false)
  {
    var t := "BLOBFILE=x";
    IndexOfAt(t, '=', 8);
    assert t[..8] == "BLOBFILE" && t[9..] == "x";
  }

  /** The parameter a marker body yields. */
  function ParameterOf(body: string, tokenize: string -> seq<string>): LobFileParameter
  {
    ApplyTokens(EMPTY_PARAMETER, tokenize(body))
  }

  /** Every reported marker matches where it starts and ends at the first brace after its beginning. */
  lemma {:induction false} MarkersMatch(sql: string, from: nat)
    ensures forall sp :: sp in Markers(sql, from) ==>
      MarkerAt(sql, sp.start) && sp.end == IndexOfFrom(sql, '}', sp.start + 11)
    decreases |sql| - from
  {
    var n := Find(sql, from);
    if n >= 0 {
      MarkersMatch(sql, MatchEnd(sql, n));
    }
  }

  /** A marker's body starts with `clobfile=` or `blobfile=` (in any case) and holds no `}`. */
  lemma MarkerBody(sql: string, sp: Span)
    requires MarkerAt(sql, sp.start) && sp.end == IndexOfFrom(sql, '}', sp.start + 11)
    ensures sp.start + 11 <= sp.end <= |sql|
    ensures |Body(sql, sp)| >= 9
    ensures LowerChar(Body(sql, sp)[0]) == 'c' || LowerChar(Body(sql, sp)[0]) == 'b'
    ensures WordAt(Body(sql, sp), 1, "lobfile=")
    ensures '}' !in Body(sql, sp)
  {
    var b := Body(sql, sp);
    MarkerStartShape(sql, sp.start);
    assert b == sql[sp.start + 2..sp.end];
    assert b[0] == sql[sp.start + 2];
    WordAtSlice(sql, sp.start + 2, sp.end, 1, "lobfile=");
    NoBraceInBody(sql, sp.start, sp.end);
  }

  /** A word found in `s` is found at the same place in a slice that holds it. */
  lemma {:induction false} WordAtSlice(s: string, a: nat, b: nat, i: nat, w: string)
    requires a <= b <= |s| && a + i + |w| <= b && WordAt(s, a + i, w)
    ensures WordAt(s[a..b], i, w)
    decreases |w|
  {
    if |w| > 0 {
      assert s[a..b][i] == s[a + i];
      WordAtSlice(s, a, b, i + 1, w[1..]);
    }
  }

  /** Nothing between a marker's `$` and its closing brace is a `}`. */
  lemma NoBraceInBody(sql: string, start: nat, end: nat)
    requires MarkerAt(sql, start) && end == IndexOfFrom(sql, '}', start + 11)
    ensures '}' !in sql[start + 2..end]
  {
    MarkerStartShape(sql, start);
    IndexOfFromFirst(sql, '}', start + 11);
    forall i | start + 2 <= i < end
      ensures sql[i] != '}'
    {
      if i < start + 11 {
        assert sql[i] != '}';
      }
    }
  }

  /** The body of every marker found starts with `clobfile=` or `blobfile=` and holds no `}`. */
  lemma MarkerBodies(sql: string)
    ensures forall sp :: sp in Markers(sql, 0) ==>
      var b := Body(sql, sp);
      && |b| >= 9 && (LowerChar(b[0]) == 'c' || LowerChar(b[0]) == 'b')
      && WordAt(b, 1, "lobfile=") && '}' !in b
  {
    MarkersMatch(sql, 0);
    forall sp | sp in Markers(sql, 0)
      ensures var b := Body(sql, sp);
        && |b| >= 9 && (LowerChar(b[0]) == 'c' || LowerChar(b[0]) == 'b')
        && WordAt(b, 1, "lobfile=") && '}' !in b
    {
      MarkerBody(sql, sp);
    }
  }

  /**
   * The closing brace `init` looks for from the character after `{` is
   * the marker's own: the marker's fixed beginning holds none.
   */
  lemma MarkerEnd(sql: string, start: nat)
    requires MarkerAt(sql, start)
    ensures IndexOfFrom(sql, '}', start + 1) == IndexOfFrom(sql, '}', start + 11)
  {
    MarkerStartShape(sql, start);
    SkipNoBrace(sql, start + 1, start + 11);
  }

  /** Searching from `a` or from `b` finds the same brace when there is none in between. */
  lemma {:induction false} SkipNoBrace(sql: string, a: nat, b: nat)
    requires a <= b <= |sql|
    requires forall i :: a <= i < b ==> sql[i] != '}'
    ensures IndexOfFrom(sql, '}', a) == IndexOfFrom(sql, '}', b)
    decreases b - a
  {
    if a < b {
      SkipNoBrace(sql, a + 1, b);
    }
  }

  /** The tokenizer loop of the constructor: one parameter, its tokens applied in order. */
  method ParseParameter(body: string, tokenize: string -> seq<string>) returns (param: LobFileParameter)
    ensures param == ParameterOf(body, tokenize)
  {
    var toks := tokenize(body);
    param := EMPTY_PARAMETER;
    var j := 0;
    while j < |toks|
      invariant 0 <= j <= |toks|
      invariant param == ApplyTokens(EMPTY_PARAMETER, toks[..j])
    {
      var s := toks[j];
      var arg: Option<string> := None;
      var value: Option<string> := None;
      var pos := IndexOf(s, '=');
      if pos > -1 {
        arg := Some(s[..pos]);
        value := Some(s[pos + 1..]);
      }
      if arg == Some("encoding") {
        param := param.(encoding := value);
      } else {
        param := param.(filename := value, binary := arg == Some("blobfile"));
      }
      assert toks[..j + 1][..j] == toks[..j];
      j := j + 1;
    }
    assert toks[..j] == toks;
  }

  /**
   * A match whose body is what lies between its `$` and the first `}`
   * after its `{`, the brace `init` searches for.
   */
  predicate BraceCloses(sql: string, sp: Span)
  {
    var end := IndexOfFrom(sql, '}', sp.start + 1);
    sp.start + 11 <= end < |sql| && Body(sql, sp) == sql[sp.start + 2..end]
  }

  /** Every match `find` reports is closed by the brace `init` searches for. */
  lemma MatchesClosed(sql: string)
    ensures forall sp :: sp in Markers(sql, 0) ==> BraceCloses(sql, sp)
  {
    MarkersMatch(sql, 0);
    forall sp | sp in Markers(sql, 0)
      ensures BraceCloses(sql, sp)
    {
      MarkerCloses(sql, sp);
    }
  }

  /** A match ends at the brace `init` searches for from the character after its `{`. */
  lemma MarkerCloses(sql: string, sp: Span)
    requires MarkerAt(sql, sp.start) && sp.end == IndexOfFrom(sql, '}', sp.start + 11)
    ensures BraceCloses(sql, sp)
  {
    MarkerEnd(sql, sp.start);
  }

  /**
   * The matcher loop of the constructor: for each match `find` reports,
   * in order, the text from after `{$` to the first `}` after the `{` is
   * parsed into one parameter.
   */
  method ParseMarkers(sql: string, tokenize: string -> seq<string>) returns (ps: seq<LobFileParameter>)
    ensures |ps| == |Markers(sql, 0)|
    ensures forall k :: 0 <= k < |ps| ==> ps[k] == ParameterOf(Body(sql, Markers(sql, 0)[k]), tokenize)
  {
    MatchesClosed(sql);
    ps := ParseMatches(sql, Markers(sql, 0), tokenize);
  }

  /** The body of the loop, for the matches given in order. */
  method ParseMatches(sql: string, matches: seq<Span>, tokenize: string -> seq<string>) returns (ps: seq<LobFileParameter>)
    requires forall sp :: sp in matches ==> BraceCloses(sql, sp)
    ensures |ps| == |matches|
    ensures forall k :: 0 <= k < |ps| ==> ps[k] == ParameterOf(Body(sql, matches[k]), tokenize)
  {
    ps := [];
    for k := 0 to |matches|
      invariant |ps| == k
      invariant forall j :: 0 <= j < k ==> ps[j] == ParameterOf(Body(sql, matches[j]), tokenize)
    {
      var start := matches[k].start;
      var end := IndexOfFrom(sql, '}', start + 1);
      assert BraceCloses(sql, matches[k]);
      if end > -1 {
        var parm := sql[start + 2..end];
        var param := ParseParameter(parm, tokenize);
        ps := ps + [param];
      }
    }
  }

  class LobFileParameterParser {
    var parameters: seq<LobFileParameter>

    /** Parses every marker of `sql`. */
    constructor(sql: string, tokenize: string -> seq<string>)
      ensures |parameters| == |Markers(sql, 0)|
      ensures forall k :: 0 <= k < |parameters| ==>
        parameters[k] == ParameterOf(Body(sql, Markers(sql, 0)[k]), tokenize)
    {
      var ps := ParseMarkers(sql, tokenize);
      parameters := ps;
    }

    function GetParameters(): (r: seq<LobFileParameter>)
      reads this
      ensures r == parameters
    {
      parameters
    }

    /** `getParameterCount`: as many as `getParameters` lists. */
    function GetParameterCount(): (r: int)
      reads this
      ensures r == |GetParameters()|
    {
      |parameters|
    }
  }

  /** A statement without `{` has no markers. */
  lemma NoBraceNoMarkers(sql: string, from: nat)
    requires forall i :: 0 <= i < |sql| ==> sql[i] != '{'
    ensures Markers(sql, from) == []
  {
    NoBraceFindsNothing(sql, from);
  }

  /** Without `{` no search finds a marker. */
  lemma {:induction false} NoBraceFindsNothing(sql: string, from: nat)
    requires forall i :: 0 <= i < |sql| ==> sql[i] != '{'
    ensures Find(sql, from) == -1
    decreases |sql| - from
  {
    if from < |sql| {
      NoBraceFindsNothing(sql, from + 1);
    }
  }
}
