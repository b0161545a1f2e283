/** The whole plan of the networkd renderer, and why the pipeline may apply it: it stays
    in its own directories, and it describes exactly the virtual interfaces. */
module NetworkdPlan {
  import opened Wrappers
  import opened Order
  import opened Config
  import opened Ini
  import opened Networkd
  import opened NetworkdDevices
  import opened NetworkdCheck
  import opened NetworkdTheorem
  import opened NetworkdObject
  import opened ArtifactSets
  import opened HostObject
  import opened Transaction
  import opened CommitPipeline

  // ----- `.link` files ---------------------------------------------------

  function Unless(value: Option<string>, default: string): Option<string> {
    if value == Some(default) then None else value
  }

  /** What udev applies to a port; nothing when there would be nothing to say. */
  function LinkItems(name: string, node: Node): seq<Item> {
    var hw, mac := LeafOf(node, "hw-id"), LeafOf(node, "mac");
    var speed, duplex := Unless(LeafOf(node, "speed"), "auto"), Unless(LeafOf(node, "duplex"), "auto");
    if hw.None? && mac.None? && speed.None? && duplex.None? then []
    else
      [Head("Match"), if hw.Some? then Pair("PermanentMACAddress", hw.value) else Pair("OriginalName", name)]
      + Begun(Some("Link"), LinkPairs(name, hw, mac, speed, duplex))
  }

  function LinkPairs(name: string, hw: Option<string>, mac: Option<string>, speed: Option<string>, duplex: Option<string>)
    : seq<Item>
  {
    (if hw.Some? then [Pair("Name", name)] else []) + Opt("MACAddress", mac)
    + Opt("BitsPerSecond", if speed.Some? then Some(speed.value + "M") else None) + Opt("Duplex", duplex)
  }

  function WithLinks(files: Files, nodes: map<string, Node>, names: seq<string>): Files
    requires forall i :: 0 <= i < |names| ==> names[i] in nodes
    decreases |names|
  {
    if names == [] then files else
      var items := LinkItems(names[0], nodes[names[0]]);
      WithLinks(if items == [] then files else files[PhysicalFile(names[0], "link") := FileText(items)], nodes, names[1..])
  }

  function LinksOf(files: Files, config: Node, kind: string): Files {
    var nodes := Instances(config, kind);
    WithLinks(files, nodes, Sorted(nodes.Keys))
  }

  /** The files for the persistent directory udev reads. */
  function Links(config: Node): Files {
    LinksOf(LinksOf(map[], config, "ethernet"), config, "loopback")
  }

  method LinkFile(name: string, node: Node) returns (text: Option<string>)
    ensures text == if LinkItems(name, node) == [] then None else Some(FileText(LinkItems(name, node)))
  {
    hide FileText, LeafOf, Opt;
    var hw, mac := LeafOf(node, "hw-id"), LeafOf(node, "mac");
    var speed, duplex := Unless(LeafOf(node, "speed"), "auto"), Unless(LeafOf(node, "duplex"), "auto");
    if hw.None? && mac.None? && speed.None? && duplex.None? { return None; }
    var ini := StartFile("Match");
    if hw.Some? {
      PutKey(ini, [], "Match", [], "PermanentMACAddress", hw.value);
    } else {
      PutKey(ini, [], "Match", [], "OriginalName", name);
    }
    ghost var start := ini.items;
    assert start == [Head("Match"), if hw.Some? then Pair("PermanentMACAddress", hw.value) else Pair("OriginalName", name)];
    Begin(ini, "Link");
    ghost var p: seq<Item> := [];
    if hw.Some? {
      PutKey(ini, start, "Link", p, "Name", name);
      p := [Pair("Name", name)];
    }
    PutMaybe(ini, start, "Link", p, "MACAddress", mac);
    p := p + Opt("MACAddress", mac);
    PutMaybe(ini, start, "Link", p, "BitsPerSecond", if speed.Some? then Some(speed.value + "M") else None);
    p := p + Opt("BitsPerSecond", if speed.Some? then Some(speed.value + "M") else None);
    PutMaybe(ini, start, "Link", p, "Duplex", duplex);
    p := p + Opt("Duplex", duplex);
    assert p == LinkPairs(name, hw, mac, speed, duplex);
    assert ini.items == LinkItems(name, node);
    text := Some(ini.out);
  }

  method RenderLinks(start: Files, config: Node, kind: string) returns (files: Files)
    ensures files == LinksOf(start, config, kind)
  {
    hide Sorted, Instances, LinkItems, FileText, PhysicalFile;
    var nodes := Instances(config, kind);
    var names := Sorted(nodes.Keys);
    files := start;
    var i := 0;
    while i < |names|
      invariant 0 <= i <= |names|
      invariant WithLinks(files, nodes, names[i..]) == WithLinks(start, nodes, names)
    {
      assert names[i..][0] == names[i] && names[i..][1..] == names[i + 1..];
      var link := LinkFile(names[i], nodes[names[i]]);
      if link.Some? { files := files[PhysicalFile(names[i], "link") := link.value]; }
      i := i + 1;
    }
  }

  /** A port has a `.link` file exactly when some physical interface of its name says
      anything to udev. */
  lemma LinkedIff(config: Node, name: string)
    ensures PhysicalFile(name, "link") in Links(config) <==>
            || (name in Instances(config, "ethernet") && LinkItems(name, Instances(config, "ethernet")[name]) != [])
            || (name in Instances(config, "loopback") && LinkItems(name, Instances(config, "loopback")[name]) != [])
  {
    hide Sorted, Instances, LinkItems, WithLinks;
    var ethernet, loopback := Instances(config, "ethernet"), Instances(config, "loopback");
    WithLinksIff(map[], ethernet, Sorted(ethernet.Keys), name);
    WithLinksIff(LinksOf(map[], config, "ethernet"), loopback, Sorted(loopback.Keys), name);
  }

  lemma {:induction false} WithLinksIff(files: Files, nodes: map<string, Node>, names: seq<string>, name: string)
    requires forall i :: 0 <= i < |names| ==> names[i] in nodes
    ensures PhysicalFile(name, "link") in WithLinks(files, nodes, names) <==>
            PhysicalFile(name, "link") in files || (name in names && name in nodes && LinkItems(name, nodes[name]) != [])
    decreases |names|
  {
    hide LinkItems, FileText, PhysicalFile;
    if names != [] {
      var items := LinkItems(names[0], nodes[names[0]]);
      SamePort(name, names[0]);
      WithLinksIff(if items == [] then files else files[PhysicalFile(names[0], "link") := FileText(items)], nodes, names[1..], name);
    }
  }

  lemma SamePort(a: string, b: string)
    ensures PhysicalFile(a, "link") == PhysicalFile(b, "link") <==> a == b
  {
    var head := "10" + MARKER;
    if PhysicalFile(a, "link") == PhysicalFile(b, "link") {
      assert PhysicalFile(a, "link") == head + a + ".link" && PhysicalFile(b, "link") == head + b + ".link";
      assert a == PhysicalFile(a, "link")[|head|..|head| + |a|];
      assert b == PhysicalFile(b, "link")[|head|..|head| + |b|];
    }
  }

  // ----- the plan --------------------------------------------------------

  /** `render` of the networkd renderer. */
  function Plan(config: Node, dir: string, linkDir: string): Artifacts {
    Artifacts([Managed(dir, MARKER, RenderFiles(config)), Managed(linkDir, MARKER, Links(config))], map[], [ReloadNetworkd])
  }

  method RenderPlan(config: Node, dir: string, linkDir: string) returns (a: Artifacts)
    ensures a == Plan(config, dir, linkDir)
  {
    hide RenderFiles, LinksOf;
    var files := Render(config);
    var links := RenderLinks(map[], config, "ethernet");
    links := RenderLinks(links, config, "loopback");
    a := Artifacts([Managed(dir, MARKER, files), Managed(linkDir, MARKER, links)], map[], [ReloadNetworkd]);
  }

  /** The renderer as the pipeline sees it: the `check` of the files it renders. */
  function NetworkdRenderer(dir: string, linkDir: string): Renderer {
    Renderer("networkd", Territory([(dir, MARKER), (linkDir, MARKER)], {}), true,
             config => Some(Plan(config, dir, linkDir)),
             (a: Artifacts) => Check(Described(Some(a))).None?)
  }

  ghost predicate AllMarked(files: Files) {
    forall name :: name in files ==> Marked(name, MARKER)
  }

  lemma MarkedAt(prefix: string, rest: string)
    requires |prefix| == 2 && prefix[0] != '-' && prefix[1] != '-'
    ensures Marked(prefix + MARKER + rest, MARKER)
  {
    var s := prefix + MARKER + rest;
    assert s[0] == prefix[0] && s[1..][0] == prefix[1];
    assert s[1..][1..] == MARKER + rest;
    assert AfterFirst(MARKER + rest, MARKER).Some?;
    assert AfterFirst(s[1..], MARKER) == AfterFirst(s[1..][1..], MARKER);
    assert AfterFirst(s, MARKER) == AfterFirst(s[1..], MARKER);
  }

  lemma FilesMarked(name: string, extension: string)
    ensures Marked(PhysicalFile(name, extension), MARKER) && Marked(VirtualFile(name, extension), MARKER)
  {
    hide Marked;
    var rest := name + "." + extension;
    MarkedAt("10", rest);
    MarkedAt("20", rest);
    assert PhysicalFile(name, extension) == "10" + MARKER + rest;
    assert VirtualFile(name, extension) == "20" + MARKER + rest;
  }

  lemma {:induction false} LinksMarked(files: Files, nodes: map<string, Node>, names: seq<string>)
    requires AllMarked(files) && forall i :: 0 <= i < |names| ==> names[i] in nodes
    ensures AllMarked(WithLinks(files, nodes, names))
    decreases |names|
  {
    hide Marked, PhysicalFile, FileText, LinkItems;
    if names != [] {
      var items := LinkItems(names[0], nodes[names[0]]);
      FilesMarked(names[0], "link");
      LinksMarked(if items == [] then files else files[PhysicalFile(names[0], "link") := FileText(items)], nodes, names[1..]);
    }
  }

  lemma RenderedMarked(config: Node)
    ensures AllMarked(RenderFiles(config))
  {
    hide RenderFiles, AttachmentsOf, From, FileText, Marked, PhysicalFile, VirtualFile, Origin.Items;
    var files, a := RenderFiles(config), AttachmentsOf(config);
    RenderedFiles(config);
    forall file | file in files ensures Marked(file, MARKER) {
      assert Traced(files, file, config, a);
      var o: Origin :| From(o, config) && file == o.File() && files[file] == FileText(o.Items(a));
      FilesMarked(o.name, if o.Netdev? then "netdev" else "network");
    }
  }

  /** The networkd renderer keeps to what the pipeline asks of every renderer, whatever
      the config. */
  lemma PlanLawful(config: Node, dir: string, linkDir: string)
    requires dir != linkDir
    ensures var r := NetworkdRenderer(dir, linkDir);
            && r.render(config) == Some(Plan(config, dir, linkDir))
            && Lawful(r, Plan(config, dir, linkDir), dir)
  {
    RenderedMarked(config);
    var ethernet, loopback := Instances(config, "ethernet"), Instances(config, "loopback");
    hide Marked, RenderFiles, Instances, Sorted, WithLinks;
    LinksMarked(map[], ethernet, Sorted(ethernet.Keys));
    LinksMarked(LinksOf(map[], config, "ethernet"), loopback, Sorted(loopback.Keys));
  }

  /** The pipeline's `check` of a rendered clean config fails exactly when one name is
      both physical and virtual. */
  lemma PlanChecks(config: Node, dir: string, linkDir: string)
    requires CleanConfig(config)
    ensures NetworkdRenderer(dir, linkDir).check(Plan(config, dir, linkDir)) <==> PhysicalNames(config) * VirtualNames(config) == {}
  {
    hide RenderFiles, CleanConfig, Check, PhysicalNames, VirtualNames;
    CheckRenderedIff(config);
  }

  /** Committing `next` where the devices were as `last` described them: afterwards the
      virtual devices are exactly the virtual interfaces of `next`. */
  lemma CommitConverges(live: Live, now: Live, renderers: seq<Renderer>, plan: seq<Artifacts>,
                        seen: seq<Option<Artifacts>>, i: nat,
                        last: Node, next: Node, dir: string, linkDir: string)
    requires |renderers| == |plan| == |seen| && i < |renderers| && renderers[i].networkd
    requires plan[i] == Plan(next, dir, linkDir) && seen[i] == Some(Plan(last, dir, linkDir))
    requires Converged(live, now, renderers, plan, seen) && Settled(live, RenderFiles(last))
    ensures Settled(now, RenderFiles(next)) && now.Keys == VirtualNames(next)
  {
    hide RenderFiles, Settled, Shaped, VirtualNames, Links;
    RenderedDevices(last);
    RenderedDevices(next);
    assert Described(seen[i]) == RenderFiles(last) && Described(Some(plan[i])) == RenderFiles(next);
    SettledDevices(now, next);
  }

  lemma SettledDevices(now: Live, next: Node)
    requires Settled(now, RenderFiles(next))
    ensures now.Keys == Devices(RenderFiles(next))
  {
    hide RenderFiles;
  }
}
