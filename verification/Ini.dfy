/** Writing systemd unit files, and the small reader that compares what was written. */
module Ini {
  import opened Wrappers
  import opened Text

  /** What the writer has put down: section heads and settings, in order. */
  datatype Item = Head(name: string) | Pair(key: string, value: string)

  const HEADER :=
    " Managed by Nightshade. Do not edit.\n\n"
    + " This file is generated from /etc/nightshade/config.boot and is rewritten on\n"
    + " every commit. Changes made here are lost, and are not part of the config the\n"
    + " next boot will apply."

  function Commented(pieces: seq<string>): seq<string> {
    if pieces == [] then [] else ["#" + TrimEnd(pieces[0])] + Commented(pieces[1..])
  }

  /** The comment every written file starts with, a line at a time. */
  function HeaderLines(): seq<string> {
    Commented(SplitOn(HEADER, '\n'))
  }

  function Unlines(lines: seq<string>): string {
    if lines == [] then "" else lines[0] + "\n" + Unlines(lines[1..])
  }

  function ItemLines(item: Item): seq<string> {
    match item
    case Head(name) => ["", "[" + name + "]"]
    case Pair(key, value) => [key + "=" + value]
  }

  function AllLines(items: seq<Item>): seq<string> {
    if items == [] then [] else ItemLines(items[0]) + AllLines(items[1..])
  }

  /** The file the writer finishes with. */
  function FileText(items: seq<Item>): string {
    Unlines(HeaderLines() + AllLines(items))
  }

  lemma {:induction false} UnlinesConcat(a: seq<string>, b: seq<string>)
    ensures Unlines(a + b) == Unlines(a) + Unlines(b)
  {
    if a == [] {
      assert a + b == b;
    } else {
      assert (a + b)[1..] == a[1..] + b;
      UnlinesConcat(a[1..], b);
    }
  }

  lemma {:induction false} AllLinesConcat(a: seq<Item>, b: seq<Item>)
    ensures AllLines(a + b) == AllLines(a) + AllLines(b)
  {
    if a == [] {
      assert a + b == b;
    } else {
      assert (a + b)[1..] == a[1..] + b;
      AllLinesConcat(a[1..], b);
    }
  }

  lemma FileTextMore(items: seq<Item>, item: Item)
    ensures FileText(items + [item]) == FileText(items) + Unlines(ItemLines(item))
  {
    hide HeaderLines, ItemLines;
    AllLinesConcat(items, [item]);
    assert AllLines([item]) == ItemLines(item) by { assert [item][1..] == []; }
    assert HeaderLines() + AllLines(items + [item]) == (HeaderLines() + AllLines(items)) + ItemLines(item);
    UnlinesConcat(HeaderLines() + AllLines(items), ItemLines(item));
  }

  // ----- the writer ------------------------------------------------------

  /** A section begun but with nothing in it yet writes nothing. */
  class Writer {
    var out: string
    var pending: Option<string>
    ghost var items: seq<Item>

    ghost predicate Valid()
      reads this
    {
      out == FileText(items)
    }

    constructor ()
      ensures Valid() && items == [] && pending.None?
    {
      out, pending, items := FileText([]), None, [];
    }

    method Section(name: string)
      requires Valid()
      modifies this
      ensures Valid() && items == old(items) && pending == Some(name)
    {
      pending := Some(name);
    }

    method Key(key: string, value: string)
      requires Valid()
      modifies this
      ensures Valid() && pending.None?
      ensures items == old(items) + Begun(old(pending), [Pair(key, value)])
    {
      hide FileText;
      if pending.Some? {
        FileTextMore(items, Head(pending.value));
        HeadText(pending.value);
        out := out + "\n" + "[" + pending.value + "]\n";
        items := items + [Head(pending.value)];
        pending := None;
      }
      FileTextMore(items, Pair(key, value));
      PairText(key, value);
      out := out + key + "=" + value + "\n";
      items := items + [Pair(key, value)];
    }

    method Maybe(key: string, value: Option<string>)
      requires Valid()
      modifies this
      ensures Valid()
      ensures value.None? ==> items == old(items) && pending == old(pending)
      ensures value.Some? ==> pending.None?
      ensures items == old(items) + Begun(old(pending), if value.Some? then [Pair(key, value.value)] else [])
    {
      if value.Some? {
        Key(key, value.value);
      }
    }

    /** `each`: the key once per value, which is how systemd writes lists. */
    method Each(key: string, values: seq<string>)
      requires Valid()
      modifies this
      ensures Valid()
      ensures items == old(items) + Begun(old(pending), Pairs(key, values))
      ensures pending == if values == [] then old(pending) else None
    {
      hide FileText;
      for i := 0 to |values|
        invariant Valid()
        invariant items == old(items) + Begun(old(pending), Pairs(key, values[..i]))
        invariant pending == if i == 0 then old(pending) else None
      {
        Key(key, values[i]);
        assert values[..i + 1] == values[..i] + [values[i]];
        PairsMore(key, values[..i], values[i]);
      }
      assert values[..|values|] == values;
    }
  }

  /** Pairs under a section head that is only there if they are. */
  function Begun(pending: Option<string>, pairs: seq<Item>): seq<Item> {
    if pairs == [] || pending.None? then pairs else [Head(pending.value)] + pairs
  }

  function Pairs(key: string, values: seq<string>): (r: seq<Item>)
    ensures |r| == |values|
  {
    if values == [] then [] else [Pair(key, values[0])] + Pairs(key, values[1..])
  }

  lemma {:induction false} PairsMore(key: string, values: seq<string>, value: string)
    ensures Pairs(key, values + [value]) == Pairs(key, values) + [Pair(key, value)]
  {
    if values == [] {
      assert [value][1..] == [];
    } else {
      assert (values + [value])[1..] == values[1..] + [value];
      PairsMore(key, values[1..], value);
    }
  }

  lemma HeadText(name: string)
    ensures Unlines(ItemLines(Head(name))) == "\n" + "[" + name + "]\n"
  {
    var l := "[" + name + "]";
    assert ["", l][1..] == [l] && [l][1..] == [];
    assert Unlines([l]) == l + "\n";
  }

  lemma PairText(key: string, value: string)
    ensures Unlines(ItemLines(Pair(key, value))) == key + "=" + value + "\n"
  {
    assert [key + "=" + value][1..] == [];
  }

  // ----- the reader ------------------------------------------------------

  type Settings = map<(string, string), seq<string>>

  function Added(acc: Settings, at: (string, string), value: string): Settings {
    acc[at := (if at in acc then acc[at] else []) + [value]]
  }

  predicate IsHead(line: string) {
    |line| >= 2 && line[0] == '[' && line[|line| - 1] == ']'
  }

  /** One pass over the lines, remembering the section. */
  function Scan(lines: seq<string>, section: string, acc: Settings): Settings {
    if lines == [] then acc else
      var line := Trim(lines[0]);
      if line == "" || line[0] == '#' then Scan(lines[1..], section, acc)
      else if IsHead(line) then Scan(lines[1..], line[1..|line| - 1], acc)
      else
        var i := IndexOf(line, '=');
        if i == |line| then Scan(lines[1..], section, acc)
        else Scan(lines[1..], section, Added(acc, (section, Trim(line[..i])), Trim(line[i + 1..])))
  }

  function SettingsOf(text: string): Settings {
    Scan(Lines(text), "", map[])
  }

  /** What the items say, with no text in between. */
  function Meaning(items: seq<Item>, section: string, acc: Settings): Settings {
    if items == [] then acc else
      match items[0]
      case Head(name) => Meaning(items[1..], name, acc)
      case Pair(key, value) => Meaning(items[1..], section, Added(acc, (section, key), value))
  }

  /** Text that survives a line of its own: no newline, no outer whitespace. */
  predicate Clean(s: string) {
    '\n' !in s && (s != [] ==> !IsWhitespace(s[0]) && !IsWhitespace(s[|s| - 1]))
  }

  predicate PlainKey(s: string) {
    Clean(s) && s != [] && '=' !in s && s[0] != '#' && s[0] != '['
  }

  predicate CleanItem(item: Item) {
    match item
    case Head(name) => Clean("[" + name + "]")
    case Pair(key, value) => PlainKey(key) && Clean(value)
  }

  lemma TrimClean(s: string)
    requires Clean(s)
    ensures Trim(s) == s
  {
  }

  lemma IndexOfIs(s: string, c: char, i: nat)
    requires i < |s| && s[i] == c && c !in s[..i]
    ensures IndexOf(s, c) == i
  {
    var j := IndexOf(s, c);
    assert forall k :: 0 <= k < i ==> s[..i][k] == s[k];
    assert forall k :: 0 <= k < j ==> s[..j][k] == s[k];
  }

  lemma LinesCons(line: string, rest: string)
    requires Clean(line)
    ensures Lines(line + "\n" + rest) == [line] + Lines(rest)
  {
    var s := line + "\n" + rest;
    assert s[..|line|] == line && s[|line| + 1..] == rest;
    IndexOfIs(s, '\n', |line|);
  }

  lemma {:induction false} LinesUnlines(lines: seq<string>)
    requires forall i :: 0 <= i < |lines| ==> Clean(lines[i])
    ensures Lines(Unlines(lines)) == lines
  {
    hide Clean, Lines;
    if lines != [] {
      LinesCons(lines[0], Unlines(lines[1..]));
      LinesUnlines(lines[1..]);
    } else {
      assert Lines("") == [] by { NoLines(); }
    }
  }

  lemma NoLines()
    ensures Lines("") == []
  {
  }

  lemma ScanHead(name: string, rest: seq<string>, section: string, acc: Settings)
    requires Clean("[" + name + "]")
    ensures Scan(["", "[" + name + "]"] + rest, section, acc) == Scan(rest, name, acc)
  {
    var line := "[" + name + "]";
    TrimClean(line);
    assert (["", line] + rest)[1..] == [line] + rest && ([line] + rest)[1..] == rest;
    assert line[1..|line| - 1] == name;
    assert Trim("") == "";
    assert Scan([line] + rest, section, acc) == Scan(rest, name, acc);
  }

  lemma ScanPair(key: string, value: string, rest: seq<string>, section: string, acc: Settings)
    requires PlainKey(key) && Clean(value)
    ensures Scan([key + "=" + value] + rest, section, acc) == Scan(rest, section, Added(acc, (section, key), value))
  {
    var line := key + "=" + value;
    assert Clean(line);
    TrimClean(line);
    TrimClean(key);
    TrimClean(value);
    assert ([line] + rest)[1..] == rest;
    assert line[..|key|] == key && line[|key| + 1..] == value;
    IndexOfIs(line, '=', |key|);
  }

  lemma {:induction false} ScanItems(items: seq<Item>, section: string, acc: Settings)
    requires forall i :: 0 <= i < |items| ==> CleanItem(items[i])
    ensures Scan(AllLines(items), section, acc) == Meaning(items, section, acc)
  {
    hide Clean, PlainKey, Scan;
    if items != [] {
      assert CleanItem(items[0]);
      match items[0] {
        case Head(name) =>
          ScanHead(name, AllLines(items[1..]), section, acc);
          ScanItems(items[1..], name, acc);
        case Pair(key, value) =>
          ScanPair(key, value, AllLines(items[1..]), section, acc);
          ScanItems(items[1..], section, Added(acc, (section, key), value));
      }
    } else {
      ScanNone(section, acc);
    }
  }

  lemma ScanNone(section: string, acc: Settings)
    ensures Scan([], section, acc) == acc
  {
  }

  lemma {:induction false} ScanComments(comments: seq<string>, rest: seq<string>, section: string, acc: Settings)
    requires forall i :: 0 <= i < |comments| ==> Clean(comments[i]) && comments[i] != "" && comments[i][0] == '#'
    ensures Scan(comments + rest, section, acc) == Scan(rest, section, acc)
  {
    hide Clean;
    if comments == [] {
      assert comments + rest == rest;
    } else {
      TrimClean(comments[0]);
      assert (comments + rest)[1..] == comments[1..] + rest;
      ScanComments(comments[1..], rest, section, acc);
    }
  }

  lemma {:induction false} TrimEndTrims(s: string)
    ensures var t := TrimEnd(s); t <= s && (t != [] ==> !IsWhitespace(t[|t| - 1]))
  {
    if s != [] && IsWhitespace(s[|s| - 1]) {
      TrimEndTrims(s[..|s| - 1]);
    }
  }

  lemma {:induction false} CommentedClean(pieces: seq<string>)
    requires forall k :: 0 <= k < |pieces| ==> '\n' !in pieces[k]
    ensures forall i :: 0 <= i < |Commented(pieces)| ==>
              var l := Commented(pieces)[i]; Clean(l) && l != "" && l[0] == '#'
  {
    if pieces != [] {
      TrimEndTrims(pieces[0]);
      CommentedClean(pieces[1..]);
    }
  }

  lemma HeaderIsComments()
    ensures forall i :: 0 <= i < |HeaderLines()| ==>
              var l := HeaderLines()[i]; Clean(l) && l != "" && l[0] == '#'
  {
    hide Commented, Clean;
    CommentedClean(SplitOn(HEADER, '\n'));
  }

  lemma {:induction false} AllLinesClean(items: seq<Item>)
    requires forall i :: 0 <= i < |items| ==> CleanItem(items[i])
    ensures forall i :: 0 <= i < |AllLines(items)| ==> Clean(AllLines(items)[i])
  {
    if items != [] {
      assert CleanItem(items[0]);
      AllLinesClean(items[1..]);
      ItemLinesClean(items[0]);
    }
  }

  lemma ItemLinesClean(item: Item)
    requires CleanItem(item)
    ensures forall i :: 0 <= i < |ItemLines(item)| ==> Clean(ItemLines(item)[i])
  {
    if item.Pair? {
      var line := item.key + "=" + item.value;
      assert Clean(line);
    }
  }

  /** The reader gives back exactly what the writer was asked to write. */
  lemma ReadsBack(items: seq<Item>)
    requires forall i :: 0 <= i < |items| ==> CleanItem(items[i])
    ensures SettingsOf(FileText(items)) == Meaning(items, "", map[])
  {
    hide HeaderLines, AllLines, Clean, CleanItem, Scan, Lines, Unlines, Meaning;
    HeaderIsComments();
    AllLinesClean(items);
    LinesUnlines(HeaderLines() + AllLines(items));
    ScanComments(HeaderLines(), AllLines(items), "", map[]);
    ScanItems(items, "", map[]);
  }
}
