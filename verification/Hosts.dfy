/** The one line of `/etc/hosts` the system renderer maintains, and the rest of the file,
    which it leaves alone. */
module Hosts {
  import opened Wrappers
  import opened Text

  const MARKER := "# nightshade hostname"

  predicate EndsIn(s: string, suffix: string) {
    |suffix| <= |s| && s[|s| - |suffix|..] == suffix
  }

  /** The line is ours, whatever whitespace is after it. */
  predicate Ours(line: string) {
    EndsIn(TrimEnd(line), MARKER)
  }

  function Others(lines: seq<string>): seq<string> {
    if lines == [] then [] else (if Ours(lines[0]) then [] else [lines[0]]) + Others(lines[1..])
  }

  /** The fully qualified name first, where there is a domain. */
  function OurLine(name: string, domain: Option<string>): string {
    "127.0.1.1\t" + (if domain.Some? then name + "." + domain.value + "\t" + name else name) + "\t" + MARKER
  }

  function Updated(text: string, name: string, domain: Option<string>): string {
    Join(Others(Lines(text)) + [OurLine(name, domain)], "\n") + "\n"
  }

  /** `update_hosts`, on the contents. */
  method Update(text: string, name: string, domain: Option<string>) returns (out: string)
    ensures out == Updated(text, name, domain)
  {
    hide Ours, Lines, Join, OurLine;
    var all := Lines(text);
    var lines: seq<string>, i := [], 0;
    while i < |all|
      invariant 0 <= i <= |all|
      invariant lines + Others(all[i..]) == Others(all)
    {
      assert all[i..][0] == all[i] && all[i..][1..] == all[i + 1..];
      if !Ours(all[i]) { lines := lines + [all[i]]; }
      i := i + 1;
    }
    assert all[i..] == [] && lines == Others(all);
    out := Join(lines + [OurLine(name, domain)], "\n") + "\n";
  }

  // ----- what is left ----------------------------------------------------

  /** A line as any program reads it back: no newline in it, no carriage return at its end. */
  predicate Keeps(line: string) {
    '\n' !in line && (line != "" ==> line[|line| - 1] != '\r')
  }

  lemma {:induction false} JoinedLines(lines: seq<string>)
    requires lines != [] && forall i :: 0 <= i < |lines| ==> Keeps(lines[i])
    ensures Lines(Join(lines, "\n") + "\n") == lines
  {
    hide Lines;
    if |lines| == 1 {
      assert Join(lines, "\n") + "\n" == lines[0] + ("\n" + "");
      LineThen(lines[0], "");
      assert Lines("") == [] by { NoLines(); }
      assert [lines[0]] + [] == lines;
    } else {
      var rest := Join(lines[1..], "\n") + "\n";
      assert Join(lines, "\n") + "\n" == lines[0] + ("\n" + rest);
      LineThen(lines[0], rest);
      JoinedLines(lines[1..]);
    }
  }

  lemma NoLines()
    ensures Lines("") == []
  {
  }

  lemma {:induction false} OthersAre(lines: seq<string>)
    ensures forall l :: l in Others(lines) <==> l in lines && !Ours(l)
  {
    hide Ours;
    if lines != [] { OthersAre(lines[1..]); }
  }

  lemma {:induction false} NoneOurs(lines: seq<string>)
    requires forall i :: 0 <= i < |lines| ==> !Ours(lines[i])
    ensures Others(lines) == lines
  {
    hide Ours;
    if lines != [] { NoneOurs(lines[1..]); }
  }

  lemma {:induction false} OthersConcat(a: seq<string>, b: seq<string>)
    ensures Others(a + b) == Others(a) + Others(b)
  {
    hide Ours;
    if a == [] {
      assert a + b == b;
    } else {
      assert (a + b)[1..] == a[1..] + b;
      OthersConcat(a[1..], b);
    }
  }

  lemma MarkerLast(s: string)
    ensures Ours(s + MARKER)
  {
    var l := s + MARKER;
    assert l[|l| - 1] == MARKER[|MARKER| - 1] == 'e';
    assert TrimEnd(l) == l;
  }

  lemma OurLineKeeps(name: string, domain: Option<string>)
    requires '\n' !in name && (domain.Some? ==> '\n' !in domain.value)
    ensures Keeps(OurLine(name, domain)) && Ours(OurLine(name, domain))
  {
    var l := OurLine(name, domain);
    MarkerLast("127.0.1.1\t" + (if domain.Some? then name + "." + domain.value + "\t" + name else name) + "\t");
    assert l[|l| - 1] == MARKER[|MARKER| - 1] == 'e';
  }

  /** Afterwards the file has the lines of others, as they were and in their order, and
      then exactly one line of ours. */
  lemma OneLineOfOurs(text: string, name: string, domain: Option<string>)
    requires forall l :: l in Lines(text) ==> Keeps(l)
    requires '\n' !in name && (domain.Some? ==> '\n' !in domain.value)
    ensures var after := Lines(Updated(text, name, domain));
            && after == Others(Lines(text)) + [OurLine(name, domain)]
            && Others(after) == Others(Lines(text))
            && (forall i :: 0 <= i < |after| ==> (Ours(after[i]) <==> i == |after| - 1))
            && (forall l :: l in Others(after) <==> l in Lines(text) && !Ours(l))
  {
    hide Lines, Ours, Keeps, OurLine, Join;
    var kept, ours := Others(Lines(text)), OurLine(name, domain);
    OthersAre(Lines(text));
    OurLineKeeps(name, domain);
    JoinedLines(kept + [ours]);
    NoneOurs(kept);
    OthersConcat(kept, [ours]);
    assert Others([ours]) == [] by { assert [ours][1..] == []; }
    assert kept + [] == kept;
  }

  /** Writing the same name again changes nothing; another name replaces the first. */
  lemma LastNameWins(text: string, name: string, domain: Option<string>, other: string, elsewhere: Option<string>)
    requires forall l :: l in Lines(text) ==> Keeps(l)
    requires '\n' !in name && (domain.Some? ==> '\n' !in domain.value)
    ensures Updated(Updated(text, name, domain), other, elsewhere) == Updated(text, other, elsewhere)
  {
    hide Lines, Ours, Keeps, OurLine, Join;
    OneLineOfOurs(text, name, domain);
  }

  /** The lines of others are kept, their endings are not: a carriage return goes. */
  lemma EndingsChange(name: string)
    requires '\n' !in name
    ensures Updated("x\r\n", name, None) == "x" + "\n" + OurLine(name, None) + "\n"
  {
    hide OurLine, EndsIn;
    var text := "x\r\n";
    assert IndexOf(text, '\n') == 2;
    assert text[..1] == "x" && text[3..] == "" && Lines(text) == ["x"];
    assert !Ours("x") by { NotOurs(); }
    assert ["x"][1..] == [] && Others(["x"]) == ["x"];
    JoinTwo("x", OurLine(name, None));
  }

  lemma JoinTwo(a: string, b: string)
    ensures Join([a] + [b], "\n") + "\n" == a + "\n" + b + "\n"
  {
    assert ([a] + [b])[1..] == [b];
  }

  lemma NotOurs()
    ensures !Ours("x")
  {
    assert TrimEnd("x") == "x" && |MARKER| > 1;
  }
}
