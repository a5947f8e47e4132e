/** `get_version` of setup.py (lines 12-18) over the text of the file it reads,
    with Python's `str.splitlines()` written out. */
module Setup {
  import opened Wrappers
  import opened Strings

  // ---------------------------------------------------------------------------
  // str.splitlines()

  /** The line boundaries of `str.splitlines()`: \n, \r (and \r\n), \v, \f,
      \x1c, \x1d, \x1e, \x85,   and  . */
  predicate IsLineBreak(c: char)
  {
    c == '\n' || c == '\r' || c == '\U{0B}' || c == '\U{0C}' || c == '\U{1C}' || c == '\U{1D}'
    || c == '\U{1E}' || c == '\U{85}' || c == '\U{2028}' || c == '\U{2029}'
  }

  predicate NoBreak(s: string)
  {
    forall i :: 0 <= i < |s| ==> !IsLineBreak(s[i])
  }

  /** Length of the boundary at the start of `s`: "\r\n" counts as one. */
  function BreakWidth(s: string): nat
    requires |s| > 0
  {
    if s[0] == '\r' && |s| > 1 && s[1] == '\n' then 2 else 1
  }

  /** `s.splitlines()`: the lines without their boundaries; a final boundary
      opens no empty line, and "\r\n" is one boundary. */
  function SplitLines(s: string): seq<string>
  {
    if |s| == 0 then []
    else if IsLineBreak(s[0]) then [""] + SplitLines(s[BreakWidth(s)..])
    else
      var rest := SplitLines(s[1..]);
      if |rest| == 0 then [[s[0]]] else [[s[0]] + rest[0]] + rest[1..]
  }

  /** No line holds a boundary. */
  lemma {:induction false} SplitLinesNoBreak(s: string)
    ensures forall k :: 0 <= k < |SplitLines(s)| ==> NoBreak(SplitLines(s)[k])
  {
    if |s| > 0 {
      if IsLineBreak(s[0]) {
        SplitLinesNoBreak(s[BreakWidth(s)..]);
      } else {
        SplitLinesNoBreak(s[1..]);
      }
    }
  }

  /** A line ended by "\n" is the first line; the rest is split as before. */
  lemma {:induction false} SplitLinesCons(a: string, b: string)
    requires NoBreak(a)
    ensures SplitLines(a + "\n" + b) == [a] + SplitLines(b)
  {
    var s := a + "\n" + b;
    if |a| == 0 {
      assert s == "\n" + b;
      assert s[1..] == b;
    } else {
      assert s[0] == a[0];
      assert s[1..] == a[1..] + "\n" + b;
      SplitLinesCons(a[1..], b);
      assert [a[0]] + a[1..] == a;
    }
  }

  lemma NoBreakConcat(a: string, b: string)
    requires NoBreak(a) && NoBreak(b)
    ensures NoBreak(a + b)
  {
    assert forall i :: |a| <= i < |a + b| ==> (a + b)[i] == b[i - |a|];
  }

  /** Lines each ended by "\n", as a text file holds them. */
  function JoinLines(lines: seq<string>): string
  {
    if |lines| == 0 then "" else lines[0] + "\n" + JoinLines(lines[1..])
  }

  /** Splitting newline-terminated lines gives the lines back. */
  lemma {:induction false} SplitJoinLines(lines: seq<string>)
    requires forall k :: 0 <= k < |lines| ==> NoBreak(lines[k])
    ensures SplitLines(JoinLines(lines)) == lines
  {
    if |lines| > 0 {
      SplitJoinLines(lines[1..]);
      SplitLinesCons(lines[0], JoinLines(lines[1..]));
      assert [lines[0]] + lines[1..] == lines;
    }
  }

  // ---------------------------------------------------------------------------
  // get_version

  datatype VersionError =
    | RuntimeError  // "Unable to find version string.": no line starts with __version__
    | IndexError    // `line.split(delim)[1]` on a line without the delimiter

  predicate IsVersionLine(line: string)
  {
    StartsWith(line, "__version__")
  }

  /** `'"' if '"' in line else "'"`. */
  function Delimiter(line: string): char
  {
    if '"' in line then '"' else '\''
  }

  /** `line.split(delim)[1]`. */
  function ParseVersionLine(line: string): (r: Result<string, VersionError>)
    ensures r.Err? <==> '"' !in line && '\'' !in line
    ensures r.Err? ==> r.error == IndexError
    ensures r.Ok? ==>
      var d := Delimiter(line);
      && d !in r.value
      && exists i :: 0 <= i < |line| && line[i] == d && d !in line[..i]
                     && StartsWith(line[i + 1..], r.value)
                     && (i + 1 + |r.value| == |line| || line[i + 1 + |r.value|] == d)
  {
    var d := Delimiter(line);
    var parts := Split(line, d);
    if |parts| < 2 then
      assert d !in line by {
        if d in line { SplitHasField(line, d); }
      }
      Err(IndexError)
    else
      SecondField(line, d);
      Ok(parts[1])
  }

  /** A string that holds the separator splits into at least two fields. */
  lemma SplitHasField(s: string, sep: char)
    requires sep in s
    ensures |Split(s, sep)| >= 2
  {
    JoinSplit(s, sep);
  }

  /** Where the second field sits: right after the first separator, up to the
      next separator or the end. */
  lemma SecondField(s: string, sep: char)
    requires |Split(s, sep)| >= 2
    ensures var parts := Split(s, sep);
      var i := |parts[0]|;
      && i < |s| && s[i] == sep && sep !in s[..i]
      && StartsWith(s[i + 1..], parts[1])
      && (i + 1 + |parts[1]| == |s| || s[i + 1 + |parts[1]|] == sep)
  {
    var parts := Split(s, sep);
    JoinSplit(s, sep);
    var tail := Join(parts[1..], sep);
    assert s == parts[0] + [sep] + tail;
    assert s[..|parts[0]|] == parts[0];
    assert s[|parts[0]| + 1..] == tail;
    if |parts| == 2 {
      assert tail == parts[1];
    } else {
      assert parts[1..][1..] == parts[2..];
      assert tail == parts[1] + [sep] + Join(parts[2..], sep);
      assert tail[|parts[1]|] == sep;
    }
  }

  /** Index of the first line that starts with __version__. */
  function FirstVersionLine(lines: seq<string>): (k: Option<nat>)
    ensures k.None? <==> forall i :: 0 <= i < |lines| ==> !IsVersionLine(lines[i])
    ensures k.Some? ==> k.value < |lines| && IsVersionLine(lines[k.value])
                        && forall i :: 0 <= i < k.value ==> !IsVersionLine(lines[i])
  {
    if |lines| == 0 then None
    else if IsVersionLine(lines[0]) then Some(0)
    else
      match FirstVersionLine(lines[1..])
      case None => None
      case Some(k) => Some(k + 1)
  }

  /** What `get_version` returns or raises for the given file text: the parse
      of the first line starting with __version__, or `RuntimeError`. */
  function VersionOf(text: string): (r: Result<string, VersionError>)
    ensures var lines := SplitLines(text);
      && (r == Err(RuntimeError) <==> forall i :: 0 <= i < |lines| ==> !IsVersionLine(lines[i]))
      && forall k :: 0 <= k < |lines| && IsVersionLine(lines[k])
                     && (forall i :: 0 <= i < k ==> !IsVersionLine(lines[i]))
                     ==> r == ParseVersionLine(lines[k])
  {
    var lines := SplitLines(text);
    match FirstVersionLine(lines)
    case None => Err(RuntimeError)
    case Some(k) => ParseVersionLine(lines[k])
  }

  /** `get_version`: the loop over the lines with its early return and the
      for-else `RuntimeError`. */
  method GetVersion(text: string) returns (r: Result<string, VersionError>)
    ensures r == VersionOf(text)
  {
    var lines := SplitLines(text);
    for i := 0 to |lines|
      invariant forall j :: 0 <= j < i ==> !IsVersionLine(lines[j])
    {
      var line := lines[i];
      if StartsWith(line, "__version__") {
        assert FirstVersionLine(lines) == Some(i);
        var delim := if '"' in line then '"' else '\'';
        var parts := Split(line, delim);
        if |parts| < 2 {
          return Err(IndexError);
        }
        return Ok(parts[1]);
      }
    }
    assert FirstVersionLine(lines) == None;
    return Err(RuntimeError);
  }

  /** The line that `__init__.py` would hold for version `v`. */
  function VersionLine(v: string): string
  {
    "__version__ = \"" + v + "\""
  }

  /** Reading back a written version line gives the version. */
  lemma ParseVersionLineRoundTrip(v: string)
    requires '"' !in v
    ensures IsVersionLine(VersionLine(v))
    ensures ParseVersionLine(VersionLine(v)) == Ok(v)
  {
    var line := VersionLine(v);
    assert line[14] == '"';
    assert Delimiter(line) == '"';
    assert line == "__version__ = " + ['"'] + (v + ['"'] + "");
    SplitCons("__version__ = ", '"', v + ['"'] + "");
    SplitCons(v, '"', "");
  }

  /** Lines after the first version line are never read. */
  lemma VersionIgnoresLaterLines(before: seq<string>, line: string, after: string)
    requires forall k :: 0 <= k < |before| ==> NoBreak(before[k]) && !IsVersionLine(before[k])
    requires NoBreak(line) && IsVersionLine(line)
    ensures VersionOf(JoinLines(before) + line + "\n" + after) == ParseVersionLine(line)
  {
    var text := JoinLines(before) + line + "\n" + after;
    SplitAroundLine(before, line, after);
    VersionAfterSplit(text, before, line, SplitLines(after));
  }

  /** Splitting text made of whole lines, one more line and a remainder. */
  lemma SplitAroundLine(before: seq<string>, line: string, after: string)
    requires forall k :: 0 <= k < |before| ==> NoBreak(before[k])
    requires NoBreak(line)
    ensures SplitLines(JoinLines(before) + line + "\n" + after) == before + [line] + SplitLines(after)
  {
    var text := JoinLines(before) + line + "\n" + after;
    var tail := line + "\n" + after;
    var rest := SplitLines(after);
    assert text == JoinLines(before) + tail;
    LinesAfterPrefix(before, tail);
    SplitLinesCons(line, after);
    assert SplitLines(text) == before + ([line] + rest);
    assert before + ([line] + rest) == before + [line] + rest;
  }

  lemma VersionAfterSplit(text: string, before: seq<string>, line: string, rest: seq<string>)
    requires forall k :: 0 <= k < |before| ==> !IsVersionLine(before[k])
    requires IsVersionLine(line)
    requires SplitLines(text) == before + [line] + rest
    ensures VersionOf(text) == ParseVersionLine(line)
  {
    FirstVersionAfter(before, line, rest);
    VersionOfLines(text, before + [line] + rest, |before|);
  }

  /** `VersionOf` read off a known split. */
  lemma VersionOfLines(text: string, lines: seq<string>, k: nat)
    requires SplitLines(text) == lines
    requires FirstVersionLine(lines) == Some(k)
    ensures VersionOf(text) == ParseVersionLine(lines[k])
  {
  }

  lemma {:induction false} LinesAfterPrefix(before: seq<string>, rest: string)
    requires forall k :: 0 <= k < |before| ==> NoBreak(before[k])
    ensures SplitLines(JoinLines(before) + rest) == before + SplitLines(rest)
  {
    if |before| > 0 {
      var s, t := JoinLines(before) + rest, JoinLines(before[1..]) + rest;
      LinesAfterPrefix(before[1..], rest);
      assert SplitLines(t) == before[1..] + SplitLines(rest);
      JoinLinesCons(before, rest);
      assert s == before[0] + "\n" + t;
      SplitLinesCons(before[0], t);
      assert SplitLines(s) == [before[0]] + SplitLines(t);
      assert [before[0]] + (before[1..] + SplitLines(rest)) == before + SplitLines(rest);
    } else {
      assert JoinLines(before) + rest == rest;
    }
  }

  lemma JoinLinesCons(lines: seq<string>, rest: string)
    requires |lines| > 0
    ensures JoinLines(lines) + rest == lines[0] + "\n" + (JoinLines(lines[1..]) + rest)
  {
  }

  lemma FirstVersionAfter(before: seq<string>, line: string, after: seq<string>)
    requires forall k :: 0 <= k < |before| ==> !IsVersionLine(before[k])
    requires IsVersionLine(line)
    ensures FirstVersionLine(before + [line] + after) == Some(|before|)
  {
    var lines := before + [line] + after;
    assert lines[|before|] == line;
    assert forall i :: 0 <= i < |before| ==> lines[i] == before[i];
  }

  /** The first five lines of ZTF2MMT/__init__.py. */
  const InitHead: seq<string> := [
    "\"\"\"",
    // the docstring line, in pieces short enough for the verifier to read character by character
    "ZTF2MMT: Easily" + " submit ZTF sou" + "rces to the MMT" + "/Binospec queue",
    "\"\"\"",
    ""]

  /** None of the first four lines is broken or starts with __version__. */
  lemma InitHeadLines()
    ensures forall k :: 0 <= k < |InitHead| ==> NoBreak(InitHead[k]) && !IsVersionLine(InitHead[k])
  {
    NoBreakConcat("ZTF2MMT: Easily", " submit ZTF sou");
    NoBreakConcat("ZTF2MMT: Easily" + " submit ZTF sou", "rces to the MMT");
    NoBreakConcat("ZTF2MMT: Easily" + " submit ZTF sou" + "rces to the MMT", "/Binospec queue");
    assert InitHead[1][..11][0] == 'Z';
  }

  /** Line 5 of ZTF2MMT/__init__.py. */
  lemma InitVersionLine()
    ensures NoBreak(VersionLine("0.0.1")) && IsVersionLine(VersionLine("0.0.1"))
    ensures ParseVersionLine(VersionLine("0.0.1")) == Ok("0.0.1")
  {
    VersionLineNoBreak("0.0.1");
    ParseVersionLineRoundTrip("0.0.1");
  }

  lemma VersionLineNoBreak(v: string)
    requires NoBreak(v)
    ensures NoBreak(VersionLine(v))
  {
    NoBreakConcat("__version__ = \"", v);
    NoBreakConcat("__version__ = \"" + v, "\"");
  }

  /** `get_version("ZTF2MMT/__init__.py")` is "0.0.1", whatever follows line 5. */
  lemma InitFileVersion(after: string)
    ensures VersionOf(JoinLines(InitHead) + VersionLine("0.0.1") + "\n" + after) == Ok("0.0.1")
  {
    InitHeadLines();
    InitVersionLine();
    VersionIgnoresLaterLines(InitHead, VersionLine("0.0.1"), after);
  }
}
