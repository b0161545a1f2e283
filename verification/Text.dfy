/** The string operations of Rust's standard library that the modelled code calls. */
module Text {

  /** `char::is_whitespace`: the Unicode White_Space property. */
  predicate IsWhitespace(c: char) {
    || '\U{9}' <= c <= '\U{D}'
    || c in {' ', '\U{85}', '\U{A0}', '\U{1680}', '\U{2028}', '\U{2029}', '\U{202F}', '\U{205F}', '\U{3000}'}
    || '\U{2000}' <= c <= '\U{200A}'
  }

  predicate IsAsciiDigit(c: char) {
    '0' <= c <= '9'
  }

  function IndexOf(s: string, c: char): (r: nat)
    ensures r <= |s| && c !in s[..r] && (r < |s| ==> s[r] == c)
  {
    if s == [] || s[0] == c then 0 else
      var r := IndexOf(s[1..], c) + 1;
      assert s[..r] == [s[0]] + s[1..][..r - 1];
      r
  }

  function TrimStart(s: string): string {
    if s != [] && IsWhitespace(s[0]) then TrimStart(s[1..]) else s
  }

  function TrimEnd(s: string): string {
    if s != [] && IsWhitespace(s[|s| - 1]) then TrimEnd(s[..|s| - 1]) else s
  }

  function Trim(s: string): string {
    TrimEnd(TrimStart(s))
  }

  function TrimStartMatches(s: string, c: char): string {
    if s != [] && s[0] == c then TrimStartMatches(s[1..], c) else s
  }

  function TrimEndMatches(s: string, c: char): string {
    if s != [] && s[|s| - 1] == c then TrimEndMatches(s[..|s| - 1], c) else s
  }

  /** `str::lines`: split after each newline, dropping `\n` or `\r\n`; no final empty line. */
  function Lines(s: string): seq<string> {
    if s == [] then [] else
      var i := IndexOf(s, '\n');
      if i == |s| then [s]
      else [if i > 0 && s[i - 1] == '\r' then s[..i - 1] else s[..i]] + Lines(s[i + 1..])
  }

  /** `str::split(c)`: always at least one piece. */
  function SplitOn(s: string, c: char): (r: seq<string>)
    ensures r != [] && forall k :: 0 <= k < |r| ==> c !in r[k]
  {
    var i := IndexOf(s, c);
    if i == |s| then [s] else [s[..i]] + SplitOn(s[i + 1..], c)
  }

  function Join(parts: seq<string>, separator: string): string {
    if parts == [] then ""
    else if |parts| == 1 then parts[0]
    else parts[0] + separator + Join(parts[1..], separator)
  }

  lemma {:induction false} JoinSplit(s: string, c: char)
    ensures Join(SplitOn(s, c), [c]) == s
  {
    hide IndexOf;
    var i := IndexOf(s, c);
    if i < |s| {
      var rest := SplitOn(s[i + 1..], c);
      JoinSplit(s[i + 1..], c);
      assert SplitOn(s, c) == [s[..i]] + rest;
      hide SplitOn;
      JoinCons(s[..i], rest, [c]);
      assert s == s[..i] + [c] + s[i + 1..];
    }
  }

  lemma JoinCons(first: string, rest: seq<string>, separator: string)
    requires rest != []
    ensures Join([first] + rest, separator) == first + separator + Join(rest, separator)
  {
    assert ([first] + rest)[1..] == rest;
  }

  lemma IndexOfNewline(line: string, rest: string)
    requires '\n' !in line
    ensures IndexOf(line + ("\n" + rest), '\n') == |line|
  {
    var s := line + ("\n" + rest);
    var j := IndexOf(s, '\n');
    assert s[|line|] == '\n' && s[..|line|] == line;
    assert forall k :: 0 <= k < j ==> s[..j][k] == s[k];
    assert forall k :: 0 <= k < |line| ==> s[k] == line[k];
  }

  lemma LinesAt(s: string, i: nat)
    requires i < |s| && IndexOf(s, '\n') == i && (i > 0 ==> s[i - 1] != '\r')
    ensures Lines(s) == [s[..i]] + Lines(s[i + 1..])
  {
    hide IndexOf;
  }

  /** A line and what follows it. */
  lemma LineThen(line: string, rest: string)
    requires '\n' !in line && (line != "" ==> line[|line| - 1] != '\r')
    ensures Lines(line + ("\n" + rest)) == [line] + Lines(rest)
  {
    hide IndexOf, Lines;
    var s := line + ("\n" + rest);
    IndexOfNewline(line, rest);
    assert s[..|line|] == line && s[|line| + 1..] == rest;
    assert line != "" ==> s[|line| - 1] == line[|line| - 1];
    LinesAt(s, |line|);
  }
}
