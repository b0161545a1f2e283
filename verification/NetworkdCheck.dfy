/** What `check` accepts of what `render` produces. */
module NetworkdCheck {
  import opened Wrappers
  import opened Text
  import opened Order
  import opened Config
  import opened Ini
  import opened Networkd
  import opened NetworkdDevices

  // ----- where a rendered file comes from --------------------------------

  datatype Origin =
    | PhysicalNetwork(name: string, node: Node)
    | VirtualNetwork(name: string, node: Node)
    | Netdev(kind: string, name: string, node: Node)
  {
    function File(): string {
      match this
      case PhysicalNetwork(name, _) => PhysicalFile(name, "network")
      case VirtualNetwork(name, _) => VirtualFile(name, "network")
      case Netdev(_, name, _) => VirtualFile(name, "netdev")
    }

    function Items(a: Attachments): seq<Item> {
      match this
      case PhysicalNetwork(name, node) => NetworkItems(name, node, a)
      case VirtualNetwork(name, node) => NetworkItems(name, node, a)
      case Netdev(kind, name, node) => NetdevItems(kind, name, node)
    }
  }

  const PHYSICAL := {"ethernet", "loopback"}
  const VIRTUAL := {"vlan", "bonding", "bridge", "vxlan"}
  const NETDEVS := {"vlan", "bond", "bridge", "vxlan"}

  predicate Instance(config: Node, kind: string, name: string, node: Node) {
    name in Instances(config, kind) && Instances(config, kind)[name] == node
  }

  ghost predicate From(o: Origin, config: Node) {
    match o
    case PhysicalNetwork(name, node) => exists kind :: kind in PHYSICAL && Instance(config, kind, name, node)
    case VirtualNetwork(name, node) => exists kind :: kind in VIRTUAL && Instance(config, kind, name, node)
    case Netdev(kind, name, node) => kind in NETDEVS && exists kind' :: kind' in VIRTUAL && Instance(config, kind', name, node)
  }

  ghost predicate Traced(files: Files, file: string, config: Node, a: Attachments)
    requires file in files
  {
    exists o: Origin :: From(o, config) && file == o.File() && files[file] == FileText(o.Items(a))
  }

  ghost predicate AllTraced(files: Files, config: Node, a: Attachments) {
    forall file :: file in files ==> Traced(files, file, config, a)
  }

  lemma TracedMore(files: Files, o: Origin, config: Node, a: Attachments)
    requires AllTraced(files, config, a) && From(o, config)
    ensures AllTraced(files[o.File() := FileText(o.Items(a))], config, a)
  {
    hide From, Origin.File, Origin.Items, FileText;
    var more := files[o.File() := FileText(o.Items(a))];
    forall file | file in more ensures Traced(more, file, config, a) {
      if file != o.File() { assert Traced(files, file, config, a); }
    }
  }

  lemma {:induction false} PhysicalTraced(files: Files, config: Node, kind: string, names: seq<string>, a: Attachments)
    requires kind in PHYSICAL && AllTraced(files, config, a)
    requires forall i :: 0 <= i < |names| ==> names[i] in Instances(config, kind)
    ensures var r := WithPhysical(files, Instances(config, kind), names, a);
            && AllTraced(r, config, a) && files.Keys <= r.Keys
            && forall i :: 0 <= i < |names| ==> PhysicalFile(names[i], "network") in r
    decreases |names|
  {
    hide FileText, NetworkItems, PhysicalFile, AllTraced, Instances;
    if names != [] {
      var node := Instances(config, kind)[names[0]];
      var o := PhysicalNetwork(names[0], node);
      assert Instance(config, kind, names[0], node);
      TracedMore(files, o, config, a);
      PhysicalTraced(files[o.File() := FileText(o.Items(a))], config, kind, names[1..], a);
      assert names == [names[0]] + names[1..];
    }
  }

  lemma {:induction false} VirtualTraced(files: Files, config: Node, kind: string, netdev: string,
                              names: seq<string>, a: Attachments)
    requires kind in VIRTUAL && netdev in NETDEVS && AllTraced(files, config, a)
    requires forall i :: 0 <= i < |names| ==> names[i] in Instances(config, kind)
    ensures var r := WithVirtual(files, netdev, Instances(config, kind), names, a);
            && AllTraced(r, config, a) && files.Keys <= r.Keys
            && (forall i :: 0 <= i < |names| ==> VirtualFile(names[i], "network") in r)
            && (forall i :: 0 <= i < |names| ==> VirtualFile(names[i], "netdev") in r)
    decreases |names|
  {
    hide FileText, NetworkItems, NetdevItems, VirtualFile, AllTraced, Instances;
    if names != [] {
      var node := Instances(config, kind)[names[0]];
      var dev, net := Netdev(netdev, names[0], node), VirtualNetwork(names[0], node);
      assert Instance(config, kind, names[0], node);
      TracedMore(files, dev, config, a);
      var more := files[dev.File() := FileText(dev.Items(a))];
      TracedMore(more, net, config, a);
      VirtualTraced(more[net.File() := FileText(net.Items(a))], config, kind, netdev, names[1..], a);
      assert names == [names[0]] + names[1..];
    }
  }

  lemma PhysicalStage(files: Files, config: Node, kind: string, a: Attachments)
    requires kind in PHYSICAL && AllTraced(files, config, a)
    ensures var r := Physical(files, config, kind, a);
            && AllTraced(r, config, a) && files.Keys <= r.Keys
            && forall name :: name in Instances(config, kind) ==> PhysicalFile(name, "network") in r
  {
    hide AllTraced, WithPhysical, PhysicalFile, Instances, Sorted;
    var names := Sorted(Instances(config, kind).Keys);
    PhysicalTraced(files, config, kind, names, a);
    forall name | name in Instances(config, kind) ensures PhysicalFile(name, "network") in Physical(files, config, kind, a) {
      assert name in names;
    }
  }

  lemma VirtualStage(files: Files, config: Node, kind: string, netdev: string, a: Attachments)
    requires kind in VIRTUAL && netdev in NETDEVS && AllTraced(files, config, a)
    ensures var r := Virtual(files, config, kind, netdev, a);
            && AllTraced(r, config, a) && files.Keys <= r.Keys
            && forall name :: name in Instances(config, kind) ==>
                 VirtualFile(name, "network") in r && VirtualFile(name, "netdev") in r
  {
    hide AllTraced, WithVirtual, VirtualFile, Instances, Sorted;
    var names := Sorted(Instances(config, kind).Keys);
    VirtualTraced(files, config, kind, netdev, names, a);
    forall name | name in Instances(config, kind)
      ensures VirtualFile(name, "network") in Virtual(files, config, kind, netdev, a)
           && VirtualFile(name, "netdev") in Virtual(files, config, kind, netdev, a)
    {
      assert name in names;
    }
  }

  /** Rendering makes exactly the files its instances call for. */
  lemma RenderedFiles(config: Node)
    ensures AllTraced(RenderFiles(config), config, AttachmentsOf(config))
    ensures forall name :: name in PhysicalNames(config) ==> PhysicalFile(name, "network") in RenderFiles(config)
    ensures forall name :: name in VirtualNames(config) ==>
              VirtualFile(name, "network") in RenderFiles(config) && VirtualFile(name, "netdev") in RenderFiles(config)
  {
    hide AttachmentsOf, Physical, Virtual, PhysicalFile, VirtualFile, Instances;
    var a := AttachmentsOf(config);
    assert AllTraced(map[], config, a);
    hide AllTraced;
    var f1 := Physical(map[], config, "ethernet", a);
    PhysicalStage(map[], config, "ethernet", a);
    var f2 := Physical(f1, config, "loopback", a);
    PhysicalStage(f1, config, "loopback", a);
    var f3 := Virtual(f2, config, "vlan", "vlan", a);
    VirtualStage(f2, config, "vlan", "vlan", a);
    var f4 := Virtual(f3, config, "bonding", "bond", a);
    VirtualStage(f3, config, "bonding", "bond", a);
    var f5 := Virtual(f4, config, "bridge", "bridge", a);
    VirtualStage(f4, config, "bridge", "bridge", a);
    VirtualStage(f5, config, "vxlan", "vxlan", a);
  }

  // ----- names -----------------------------------------------------------

  lemma FileNames(name: string, extension: string)
    ensures PhysicalFile(name, extension)[0] == '1' && VirtualFile(name, extension)[0] == '2'
    ensures |PhysicalFile(name, extension)| == |VirtualFile(name, extension)| == 7 + |name| + |extension|
    ensures PhysicalFile(name, extension)[6..6 + |name|] == name == VirtualFile(name, extension)[6..6 + |name|]
  {
    assert |MARKER| == 4;
  }

  lemma NetworkName(o: Origin)
    ensures EndsWith(o.File(), ".network") <==> !o.Netdev?
    ensures DeviceOf(o.File()) == if o.Netdev? then Some(o.name) else None
  {
    match o
    case PhysicalNetwork(name, _) =>
      assert o.File() == ("10" + MARKER + name) + ".network";
      NetworkIsNoDevice("10" + MARKER + name);
    case VirtualNetwork(name, _) =>
      assert o.File() == ("20" + MARKER + name) + ".network";
      NetworkIsNoDevice("20" + MARKER + name);
    case Netdev(_, name, _) =>
      DeviceOfNetdev(name);
      var file := o.File();
      assert file == ("20" + MARKER + name) + ".netdev";
      assert file[|file| - |".netdev"|..] == ".netdev";
      assert file[|file| - |".network"|..][|".network"| - 1] == 'v';
  }

  lemma SameFileSameName(o: Origin, p: Origin)
    requires o.File() == p.File()
    ensures o.name == p.name && (o.PhysicalNetwork? <==> p.PhysicalNetwork?) && (o.Netdev? <==> p.Netdev?)
  {
    hide DeviceOf, EndsWith;
    NetworkName(o);
    NetworkName(p);
    FileNames(o.name, "network");
    FileNames(p.name, "network");
    FileNames(o.name, "netdev");
    FileNames(p.name, "netdev");
  }

  // ----- what the reader finds in a rendered file ------------------------

  function Collected(items: seq<Item>, section: string, at: (string, string)): seq<string> {
    if items == [] then [] else
      match items[0]
      case Head(name) => Collected(items[1..], name, at)
      case Pair(key, value) => (if (section, key) == at then [value] else []) + Collected(items[1..], section, at)
  }

  lemma {:induction false} MeaningCollects(items: seq<Item>, section: string, acc: Settings, at: (string, string))
    ensures ValuesOf(Meaning(items, section, acc), at.0, at.1) == ValuesOf(acc, at.0, at.1) + Collected(items, section, at)
  {
    if items != [] {
      match items[0]
      case Head(name) => MeaningCollects(items[1..], name, acc, at);
      case Pair(key, value) =>
        MeaningCollects(items[1..], section, Added(acc, (section, key), value), at);
    }
  }

  lemma {:induction false} CollectedFrom(items: seq<Item>, section: string, at: (string, string))
    ensures forall v :: v in Collected(items, section, at) ==> Pair(at.1, v) in items
  {
    if items != [] {
      CollectedFrom(items[1..], if items[0].Head? then items[0].name else section, at);
      assert forall x :: x in items[1..] ==> x in items;
    }
  }

  // ----- attachments -----------------------------------------------------

  ghost predicate MastersIn(m: map<string, (string, string)>, devices: set<string>) {
    forall member :: member in m ==> m[member].0 in {"Bond", "Bridge"} && m[member].1 in devices
  }

  ghost predicate RidersIn(m: map<string, seq<string>>, devices: set<string>) {
    forall under :: under in m ==> forall i :: 0 <= i < |m[under]| ==> m[under][i] in devices
  }

  lemma {:induction false} EnslaveIn(members: seq<string>, key: string, name: string,
                              acc: map<string, (string, string)>, devices: set<string>)
    requires key in {"Bond", "Bridge"} && name in devices && MastersIn(acc, devices)
    ensures MastersIn(Enslave(members, key, name, acc), devices)
    decreases |members|
  {
    if members != [] { EnslaveIn(members[1..], key, name, acc[members[0] := (key, name)], devices); }
  }

  lemma {:induction false} MastersAreIn(nodes: map<string, Node>, names: seq<string>, key: string,
                              acc: map<string, (string, string)>, devices: set<string>)
    requires key in {"Bond", "Bridge"} && MastersIn(acc, devices)
    requires forall i :: 0 <= i < |names| ==> names[i] in nodes && names[i] in devices
    ensures MastersIn(Masters(nodes, names, key, acc), devices)
    decreases |names|
  {
    hide MastersIn, ListOf, Enslave;
    if names != [] {
      EnslaveIn(ListOf(nodes[names[0]], "member"), key, names[0], acc, devices);
      MastersAreIn(nodes, names[1..], key, Enslave(ListOf(nodes[names[0]], "member"), key, names[0], acc), devices);
    }
  }

  lemma {:induction false} RidersAreIn(nodes: map<string, Node>, names: seq<string>, leaf: string,
                              acc: map<string, seq<string>>, devices: set<string>)
    requires RidersIn(acc, devices)
    requires forall i :: 0 <= i < |names| ==> names[i] in nodes && names[i] in devices
    ensures RidersIn(Riders(nodes, names, leaf, acc), devices)
    decreases |names|
  {
    hide ListOf, LeafOf;
    if names != [] {
      match LeafOf(nodes[names[0]], leaf)
      case None => RidersAreIn(nodes, names[1..], leaf, acc, devices);
      case Some(under) =>
        var more := acc[under := (if under in acc then acc[under] else []) + [names[0]]];
        assert RidersIn(more, devices);
        RidersAreIn(nodes, names[1..], leaf, more, devices);
    }
  }

  lemma AttachmentsIn(config: Node)
    ensures var a := AttachmentsOf(config);
            && MastersIn(a.master, VirtualNames(config))
            && RidersIn(a.vlans, VirtualNames(config)) && RidersIn(a.vxlans, VirtualNames(config))
  {
    hide Masters, Riders, Instances, Sorted;
    var bonds, bridges := Instances(config, "bonding"), Instances(config, "bridge");
    var vlans, vxlans := Instances(config, "vlan"), Instances(config, "vxlan");
    var devices := VirtualNames(config);
    assert MastersIn(map[], devices) && RidersIn(map[], devices);
    hide MastersIn, RidersIn;
    MastersAreIn(bonds, Sorted(bonds.Keys), "Bond", map[], devices);
    MastersAreIn(bridges, Sorted(bridges.Keys), "Bridge", Masters(bonds, Sorted(bonds.Keys), "Bond", map[]), devices);
    RidersAreIn(vlans, Sorted(vlans.Keys), "parent", map[], devices);
    RidersAreIn(vxlans, Sorted(vxlans.Keys), "source-interface", map[], devices);
  }
}
