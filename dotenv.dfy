/** The text handling inside `Config._load_dotenv` (src/config/config.py):
    the decrypted secrets file is cut into lines with `str.splitlines`, blank
    and comment lines are skipped, and every other line is split on its first
    "=" into a stripped name and a stripped value. */
module Dotenv {
  import opened Wrappers
  import opened ConfigTree

  /** The characters `str.splitlines` breaks on. */
  predicate IsLineBreak(c: char)
  {
    c == '\n' || c == '\r' || c == '\U{B}' || c == '\U{C}' || c == '\U{1C}' || c == '\U{1D}'
    || c == '\U{1E}' || c == '\U{85}' || c == '\U{2028}' || c == '\U{2029}'
  }

  /** The characters `str.strip` removes (Python's `str.isspace`). */
  predicate IsSpace(c: char)
  {
    c == ' ' || c == '\t' || c == '\n' || c == '\U{B}' || c == '\U{C}' || c == '\r'
    || c == '\U{1C}' || c == '\U{1D}' || c == '\U{1E}' || c == '\U{1F}' || c == '\U{85}'
    || c == '\U{A0}' || c == '\U{1680}' || ('\U{2000}' <= c <= '\U{200A}') || c == '\U{2028}'
    || c == '\U{2029}' || c == '\U{202F}' || c == '\U{205F}' || c == '\U{3000}'
  }

  /** The first line break at or after `i`, or `|s|` when there is none. */
  function BreakIndex(s: string, i: nat): (j: nat)
    requires i <= |s|
    ensures i <= j <= |s|
    ensures forall k :: i <= k < j ==> !IsLineBreak(s[k])
    ensures j < |s| ==> IsLineBreak(s[j])
    decreases |s| - i
  {
    if i == |s| || IsLineBreak(s[i]) then i else BreakIndex(s, i + 1)
  }

  /** `str.splitlines()`: "\r\n" counts as one break, and a break at the
      very end does not start another line. */
  function SplitLines(s: string): (lines: seq<string>)
    ensures forall k, m :: 0 <= k < |lines| && 0 <= m < |lines[k]| ==> !IsLineBreak(lines[k][m])
    decreases |s|
  {
    if s == [] then []
    else
      var j := BreakIndex(s, 0);
      if j == |s| then [s]
      else
        var width := if s[j] == '\r' && j + 1 < |s| && s[j + 1] == '\n' then 2 else 1;
        [s[..j]] + SplitLines(s[j + width..])
  }

  /** Lines written one after another, each ended by "\n". */
  function JoinLines(lines: seq<string>): string
  {
    if lines == [] then "" else lines[0] + "\n" + JoinLines(lines[1..])
  }

  /** A line without breaks followed by "\n" is cut off as the first line. */
  lemma SplitLinesStep(l: string, rest: string)
    requires forall m :: 0 <= m < |l| ==> !IsLineBreak(l[m])
    ensures SplitLines(l + "\n" + rest) == [l] + SplitLines(rest)
  {
    var s := l + "\n" + rest;
    assert s == l + ("\n" + rest);
    BreakAt(l, "\n" + rest);
    assert s[|l| + 1..] == rest;
    assert s[..|l|] == l;
  }

  /** Cutting text written line by line gives the lines back. */
  lemma {:induction false} SplitJoinLines(lines: seq<string>)
    requires forall k, m :: 0 <= k < |lines| && 0 <= m < |lines[k]| ==> !IsLineBreak(lines[k][m])
    ensures SplitLines(JoinLines(lines)) == lines
    decreases |lines|
  {
    if lines != [] {
      SplitLinesStep(lines[0], JoinLines(lines[1..]));
      SplitJoinLines(lines[1..]);
      assert [lines[0]] + lines[1..] == lines;
    }
  }

  lemma BreakAt(l: string, t: string)
    requires forall m :: 0 <= m < |l| ==> !IsLineBreak(l[m])
    requires t != [] && IsLineBreak(t[0])
    ensures BreakIndex(l + t, 0) == |l|
  {
    assert (l + t)[|l|] == t[0];
    assert forall m :: 0 <= m < |l| ==> (l + t)[m] == l[m];
  }

  /** `str.lstrip()`. */
  function LStrip(s: string): (r: string)
    ensures exists i :: 0 <= i <= |s| && r == s[i..] && forall k :: 0 <= k < i ==> IsSpace(s[k])
    ensures r == [] || !IsSpace(r[0])
    decreases |s|
  {
    if s != [] && IsSpace(s[0]) then
      var r := LStrip(s[1..]);
      var i :| 0 <= i <= |s[1..]| && r == s[1..][i..] && forall k :: 0 <= k < i ==> IsSpace(s[1..][k]);
      assert r == s[i + 1..];
      r
    else
      assert s == s[0..];
      s
  }

  /** `str.rstrip()`. */
  function RStrip(s: string): (r: string)
    ensures exists j :: 0 <= j <= |s| && r == s[..j] && forall k :: j <= k < |s| ==> IsSpace(s[k])
    ensures r == [] || !IsSpace(r[|r| - 1])
    decreases |s|
  {
    if s != [] && IsSpace(s[|s| - 1]) then
      var r := RStrip(s[..|s| - 1]);
      var j :| 0 <= j <= |s| - 1 && r == s[..|s| - 1][..j] && forall k :: j <= k < |s| - 1 ==> IsSpace(s[k]);
      assert r == s[..j];
      r
    else
      assert s == s[..|s|];
      s
  }

  /** `str.strip()`: the text without its leading and trailing whitespace. */
  function Strip(s: string): (r: string)
    ensures r == [] || (!IsSpace(r[0]) && !IsSpace(r[|r| - 1]))
    ensures r == [] <==> forall k :: 0 <= k < |s| ==> IsSpace(s[k])
  {
    StripEnds(s);
    RStrip(LStrip(s))
  }

  /** Where `lstrip` cuts the text. */
  lemma LStripCut(s: string) returns (i: nat)
    ensures i <= |s| && LStrip(s) == s[i..] && forall k :: 0 <= k < i ==> IsSpace(s[k])
  {
    i :| 0 <= i <= |s| && LStrip(s) == s[i..] && forall k :: 0 <= k < i ==> IsSpace(s[k]);
  }

  /** Where `rstrip` cuts the text. */
  lemma RStripCut(s: string) returns (j: nat)
    ensures j <= |s| && RStrip(s) == s[..j] && forall k :: j <= k < |s| ==> IsSpace(s[k])
  {
    j :| 0 <= j <= |s| && RStrip(s) == s[..j] && forall k :: j <= k < |s| ==> IsSpace(s[k]);
  }

  /** `strip()` removes only leading and trailing whitespace: what it keeps
      is a slice of the text with nothing but whitespace before and after it. */
  lemma StripSlice(s: string)
    ensures exists i, j :: 0 <= i <= j <= |s| && Strip(s) == s[i..j]
                           && (forall k :: 0 <= k < i ==> IsSpace(s[k]))
                           && (forall k :: j <= k < |s| ==> IsSpace(s[k]))
  {
    var i := LStripCut(s);
    var n := RStripCut(s[i..]);
    SpacesAfterSlice(s, i, n);
    assert RStrip(LStrip(s)) == s[i..i + n];
  }

  /** Trailing whitespace of a suffix is trailing whitespace of the text. */
  lemma SpacesAfterSlice(s: string, i: nat, n: nat)
    requires i + n <= |s|
    requires forall k :: n <= k < |s[i..]| ==> IsSpace(s[i..][k])
    ensures s[i..][..n] == s[i..i + n]
    ensures forall k :: i + n <= k < |s| ==> IsSpace(s[k])
  {
    forall k | i + n <= k < |s|
      ensures IsSpace(s[k])
    {
      assert s[k] == s[i..][k - i];
    }
  }

  lemma StripEnds(s: string)
    ensures var r := RStrip(LStrip(s));
      && (r == [] || (!IsSpace(r[0]) && !IsSpace(r[|r| - 1])))
      && (r == [] <==> forall k :: 0 <= k < |s| ==> IsSpace(s[k]))
  {
    var l := LStrip(s);
    var r := RStrip(l);
    if r != [] {
      var j :| 0 <= j <= |l| && r == l[..j] && forall k :: j <= k < |l| ==> IsSpace(l[k]);
      assert r[0] == l[0];
      StripKeepsFirst(s);
    } else {
      AllSpaceStripsEmpty(s);
    }
  }

  lemma StripKeepsFirst(s: string)
    requires LStrip(s) != []
    ensures exists k :: 0 <= k < |s| && s[k] == LStrip(s)[0]
  {
    var l := LStrip(s);
    var i :| 0 <= i <= |s| && l == s[i..] && forall k :: 0 <= k < i ==> IsSpace(s[k]);
    assert s[i] == l[0];
  }

  lemma AllSpaceStripsEmpty(s: string)
    requires RStrip(LStrip(s)) == []
    ensures forall k :: 0 <= k < |s| ==> IsSpace(s[k])
  {
    var l := LStrip(s);
    var i :| 0 <= i <= |s| && l == s[i..] && forall k :: 0 <= k < i ==> IsSpace(s[k]);
    assert l == [];
  }

  /** Text with no whitespace at either end strips to itself. */
  lemma StripClean(s: string)
    requires s == [] || (!IsSpace(s[0]) && !IsSpace(s[|s| - 1]))
    ensures Strip(s) == s
  {
  }

  /** The first position of `c` in `s`, if any. */
  function Find(s: string, c: char): (r: Option<nat>)
    ensures r.None? <==> c !in s
    ensures r.Some? ==> r.value < |s| && s[r.value] == c && c !in s[..r.value]
  {
    if s == [] then None
    else if s[0] == c then Some(0)
    else match Find(s[1..], c)
      case None => None
      case Some(i) => assert s[..i + 1] == [s[0]] + s[1..][..i]; Some(i + 1)
  }

  /** What one line of the secrets file does. */
  datatype Line = Skip | Define(name: string, value: string) | Bad(error: ConfigError)

  /** The body of the `_load_dotenv` loop for one line: a blank line, or one
      whose first character (before any stripping) is "#", is skipped; a
      line without "=" cannot be unpacked into two names; otherwise the name
      and value on either side of the first "=" are stripped. `os.environ`
      refuses a name or value holding a NUL character, and an empty name. */
  function ParseLine(line: string): (r: Line)
    ensures r.Skip? <==> Strip(line) == [] || (line != [] && line[0] == '#')
    ensures r == Bad(ValueError(UnpackMessage)) <==> !r.Skip? && '=' !in Strip(line)
    ensures r.Define? ==> r.name != [] && '=' !in r.name && '\0' !in r.name && '\0' !in r.value
    // Otherwise the stripped line is cut at its first "=".
    ensures !r.Skip? && Find(Strip(line), '=').Some? ==> r == CutAt(Strip(line), Find(Strip(line), '=').value)
  {
    var t := Strip(line);
    if t == [] || (line != [] && line[0] == '#') then Skip
    else match Find(t, '=')
      case None => Bad(ValueError(UnpackMessage))
      case Some(i) => CutAt(t, i)
  }

  /** A kept line cut at its first "=", at `i`: the stripped sides are the
      name and the value. Converting them for `putenv` refuses a NUL
      character in either; then `setenv(3)` refuses an empty name (EINVAL). */
  function CutAt(t: string, i: nat): (r: Line)
    requires i < |t| && '=' !in t[..i]
    ensures r.Define? || r == Bad(ValueError(NullByteMessage)) || r == Bad(OSError(InvalidArgumentMessage))
    ensures r == Bad(ValueError(NullByteMessage)) <==> '\0' in Strip(t[..i]) || '\0' in Strip(t[i + 1..])
    ensures r == Bad(OSError(InvalidArgumentMessage)) <==> Strip(t[..i]) == [] && '\0' !in Strip(t[i + 1..])
    ensures r.Define? <==> Strip(t[..i]) != [] && '\0' !in Strip(t[..i]) && '\0' !in Strip(t[i + 1..])
    ensures r.Define? ==> r == Define(Strip(t[..i]), Strip(t[i + 1..])) && r.name != [] && '=' !in r.name
  {
    var name := Strip(t[..i]);
    var value := Strip(t[i + 1..]);
    if '\0' in name || '\0' in value then Bad(ValueError(NullByteMessage))
    else if name == [] then Bad(OSError(InvalidArgumentMessage))
    else
      NoCharAfterStrip(t[..i], '=');
      Define(name, value)
  }

  /** Any kept line with an "=" is cut at its first "=" after stripping:
      the name and the value are the stripped sides; a NUL character in
      either raises ValueError, and otherwise an empty name raises OSError.
      Padding around the line, the name or the value is dropped. */
  lemma ParseCut(line: string, i: nat)
    requires Strip(line) != [] && !(line != [] && line[0] == '#')
    requires Find(Strip(line), '=') == Some(i)
    ensures var t := Strip(line);
      var name := Strip(t[..i]);
      var value := Strip(t[i + 1..]);
      && ('\0' in name || '\0' in value ==> ParseLine(line) == Bad(ValueError(NullByteMessage)))
      && ('\0' !in value && name == [] ==> ParseLine(line) == Bad(OSError(InvalidArgumentMessage)))
      && ('\0' !in name && '\0' !in value && name != [] ==> ParseLine(line) == Define(name, value))
  {
    assert !ParseLine(line).Skip?;
  }

  const UnpackMessage := "not enough values to unpack (expected 2, got 1)"
  const NullByteMessage := "embedded null byte"
  const InvalidArgumentMessage := "[Errno 22] Invalid argument"

  lemma NoCharAfterLStrip(s: string, c: char)
    requires c !in s
    ensures c !in LStrip(s)
  {
    var i :| 0 <= i <= |s| && LStrip(s) == s[i..] && forall k :: 0 <= k < i ==> IsSpace(s[k]);
  }

  lemma NoCharAfterRStrip(s: string, c: char)
    requires c !in s
    ensures c !in RStrip(s)
  {
    var j :| 0 <= j <= |s| && RStrip(s) == s[..j] && forall k :: j <= k < |s| ==> IsSpace(s[k]);
  }

  lemma NoCharAfterStrip(s: string, c: char)
    requires c !in s
    ensures c !in Strip(s)
  {
    NoCharAfterLStrip(s, c);
    NoCharAfterRStrip(LStrip(s), c);
  }

  /** A name that writes and reads back unchanged. */
  predicate CleanName(name: string)
  {
    name != [] && '=' !in name && '\0' !in name && name[0] != '#' && !IsSpace(name[0]) && !IsSpace(name[|name| - 1])
    && forall m :: 0 <= m < |name| ==> !IsLineBreak(name[m])
  }

  /** A value that writes and reads back unchanged. */
  predicate CleanValue(value: string)
  {
    (value == [] || (!IsSpace(value[0]) && !IsSpace(value[|value| - 1]))) && '\0' !in value
    && forall m :: 0 <= m < |value| ==> !IsLineBreak(value[m])
  }

  /** A clean `NAME=value` line has no whitespace at either end and does
      not start with "#". */
  lemma CleanLine(name: string, value: string)
    requires CleanName(name) && CleanValue(value)
    ensures var line := name + "=" + value;
      Strip(line) == line && line != [] && line[0] != '#'
  {
    var line := name + "=" + value;
    assert line[0] == name[0];
    assert line[|line| - 1] == if value == [] then '=' else value[|value| - 1];
    StripClean(line);
  }

  /** The first "=" of a clean `NAME=value` line is the one after the name. */
  lemma FindSeparator(name: string, value: string)
    requires CleanName(name)
    ensures var line := name + "=" + value;
      Find(line, '=') == Some(|name|) && line[..|name|] == name && line[|name| + 1..] == value
  {
    var line := name + "=" + value;
    assert line[|name|] == '=' && line[..|name|] == name;
    assert line[|name| + 1..] == value;
  }

  /** A clean `NAME=value` line parses back into its name and value. */
  lemma {:induction false} ParseDefinition(name: string, value: string)
    requires CleanName(name) && CleanValue(value)
    ensures ParseLine(name + "=" + value) == Define(name, value)
  {
    var line := name + "=" + value;
    CleanLine(name, value);
    FindSeparator(name, value);
    StripClean(name);
    StripClean(value);
    ParseCut(line, |name|);
  }

  /** Every line parsed. */
  function ParseAll(lines: seq<string>): (r: seq<Line>)
    ensures |r| == |lines| && forall i :: 0 <= i < |lines| ==> r[i] == ParseLine(lines[i])
  {
    seq(|lines|, i requires 0 <= i < |lines| => ParseLine(lines[i]))
  }

  /** The effect of the parsed secrets file on the environment: lines are
      applied in order, and the first bad line stops the load with its error
      after the lines before it have been applied. */
  function Load(environ: map<string, string>, parsed: seq<Line>): (r: (map<string, string>, Option<ConfigError>))
    decreases |parsed|
  {
    if parsed == [] then (environ, None)
    else match parsed[0]
      case Skip => Load(environ, parsed[1..])
      case Define(name, value) => Load(environ[name := value], parsed[1..])
      case Bad(e) => (environ, Some(e))
  }

  predicate Defines(l: Line, name: string)
  {
    l.Define? && l.name == name
  }

  /** Line `i` is the last one defining `name`. */
  ghost predicate LastDefinition(parsed: seq<Line>, i: nat, name: string)
  {
    i < |parsed| && Defines(parsed[i], name) && forall j :: i < j < |parsed| ==> !Defines(parsed[j], name)
  }

  /** After a load without errors every name takes the value of its last
      definition in the file; a name the file does not define keeps its old
      value, or stays undefined. */
  lemma {:induction false} LastDefinitionWins(environ: map<string, string>, parsed: seq<Line>)
    requires Load(environ, parsed).1.None?
    ensures forall i: nat, name :: LastDefinition(parsed, i, name) ==>
              name in Load(environ, parsed).0 && Load(environ, parsed).0[name] == parsed[i].value
    ensures forall name :: (forall i :: 0 <= i < |parsed| ==> !Defines(parsed[i], name)) ==>
              (name in Load(environ, parsed).0 <==> name in environ)
              && (name in environ ==> Load(environ, parsed).0[name] == environ[name])
    decreases |parsed|
  {
    if parsed != [] {
      var next := if parsed[0].Define? then environ[parsed[0].name := parsed[0].value] else environ;
      LastDefinitionWins(next, parsed[1..]);
      var result := Load(environ, parsed).0;
      assert result == Load(next, parsed[1..]).0;
      forall i: nat, name | LastDefinition(parsed, i, name)
        ensures name in result && result[name] == parsed[i].value
      {
        if i > 0 {
          assert LastDefinition(parsed[1..], i - 1, name);
        }
      }
      forall name | forall i :: 0 <= i < |parsed| ==> !Defines(parsed[i], name)
        ensures (name in result <==> name in environ) && (name in environ ==> result[name] == environ[name])
      {
        assert !Defines(parsed[0], name);
        assert forall i :: 0 <= i < |parsed[1..]| ==> parsed[1..][i] == parsed[i + 1];
      }
    }
  }

  /** A load fails exactly when some line is bad, and then with the error of
      the first bad line. */
  lemma {:induction false} FirstBadLineFails(environ: map<string, string>, parsed: seq<Line>)
    ensures Load(environ, parsed).1.Some? <==> exists i :: 0 <= i < |parsed| && parsed[i].Bad?
    ensures forall i :: (0 <= i < |parsed| && parsed[i].Bad? && forall j :: 0 <= j < i ==> !parsed[j].Bad?) ==>
              Load(environ, parsed).1 == Some(parsed[i].error)
    decreases |parsed|
  {
    if parsed != [] {
      var next := if parsed[0].Define? then environ[parsed[0].name := parsed[0].value] else environ;
      FirstBadLineFails(next, parsed[1..]);
      if !parsed[0].Bad? {
        assert Load(environ, parsed) == Load(next, parsed[1..]);
        assert forall i :: 0 <= i < |parsed[1..]| ==> parsed[1..][i] == parsed[i + 1];
        forall i | 1 <= i < |parsed| && parsed[i].Bad? && forall j :: 0 <= j < i ==> !parsed[j].Bad?
          ensures Load(environ, parsed).1 == Some(parsed[i].error)
        {
          assert forall j :: 0 <= j < i - 1 ==> !parsed[1..][j].Bad?;
        }
      }
    }
  }

  /** A secrets file as written by a tool: one `NAME=value` line per pair. */
  function Render(pairs: seq<(string, string)>): (lines: seq<string>)
    ensures |lines| == |pairs|
    ensures forall i :: 0 <= i < |pairs| ==> lines[i] == pairs[i].0 + "=" + pairs[i].1
  {
    seq(|pairs|, i requires 0 <= i < |pairs| => pairs[i].0 + "=" + pairs[i].1)
  }

  /** The pairs applied in order. */
  function Apply(environ: map<string, string>, pairs: seq<(string, string)>): map<string, string>
    decreases |pairs|
  {
    if pairs == [] then environ else Apply(environ[pairs[0].0 := pairs[0].1], pairs[1..])
  }

  /** Writing clean pairs and loading the text back defines exactly those
      pairs, in order, with no error. */
  lemma {:induction false} LoadRendered(environ: map<string, string>, pairs: seq<(string, string)>)
    requires forall i :: 0 <= i < |pairs| ==> CleanName(pairs[i].0) && CleanValue(pairs[i].1)
    ensures Load(environ, ParseAll(SplitLines(JoinLines(Render(pairs))))) == (Apply(environ, pairs), None)
  {
    var lines := Render(pairs);
    forall k, m | 0 <= k < |lines| && 0 <= m < |lines[k]|
      ensures !IsLineBreak(lines[k][m])
    {
      var name := pairs[k].0;
      if m < |name| {
        assert lines[k][m] == name[m];
      } else if m > |name| {
        assert lines[k][m] == pairs[k].1[m - |name| - 1];
      }
    }
    SplitJoinLines(lines);
    forall i | 0 <= i < |pairs|
      ensures ParseAll(lines)[i] == Define(pairs[i].0, pairs[i].1)
    {
      ParseDefinition(pairs[i].0, pairs[i].1);
    }
    LoadDefinitions(environ, pairs, ParseAll(lines));
  }

  lemma {:induction false} LoadDefinitions(environ: map<string, string>, pairs: seq<(string, string)>, parsed: seq<Line>)
    requires |parsed| == |pairs| && forall i :: 0 <= i < |pairs| ==> parsed[i] == Define(pairs[i].0, pairs[i].1)
    ensures Load(environ, parsed) == (Apply(environ, pairs), None)
    decreases |pairs|
  {
    if pairs != [] {
      LoadDefinitions(environ[pairs[0].0 := pairs[0].1], pairs[1..], parsed[1..]);
    }
  }
}
