/** The networkd renderer as it is written: loops that fill maps and text, each tied to
    the function of `Networkd` it computes. */
module NetworkdObject {
  import opened Wrappers
  import opened Text
  import opened Order
  import opened Config
  import opened Ini
  import opened Networkd
  import opened NetworkdCheck

  // ----- reading settings back -------------------------------------------

  method ReadSettings(text: string) returns (s: Settings)
    ensures s == SettingsOf(text)
  {
    hide Lines, Trim, IsHead, IndexOf, Added;
    s := map[];
    var lines, section, i := Lines(text), "", 0;
    while i < |lines|
      invariant 0 <= i <= |lines|
      invariant Scan(lines[i..], section, s) == SettingsOf(text)
    {
      var line := Trim(lines[i]);
      assert lines[i..][0] == lines[i] && lines[i..][1..] == lines[i + 1..];
      if line == "" || line[0] == '#' {
      } else if IsHead(line) {
        assert |line| >= 2 by { HeadIsBracketed(line); }
        section := line[1..|line| - 1];
      } else {
        var at := IndexOf(line, '=');
        if at < |line| {
          s := Added(s, (section, Trim(line[..at])), Trim(line[at + 1..]));
        }
      }
      i := i + 1;
    }
  }

  lemma HeadIsBracketed(line: string)
    requires IsHead(line)
    ensures |line| >= 2
  {
  }

  // ----- attachments -----------------------------------------------------

  method CollectMasters(config: Node, kind: string, key: string, start: map<string, (string, string)>)
    returns (acc: map<string, (string, string)>)
    ensures var nodes := Instances(config, kind); acc == Masters(nodes, Sorted(nodes.Keys), key, start)
  {
    hide Sorted, Instances, ListOf;
    var nodes := Instances(config, kind);
    var names := Sorted(nodes.Keys);
    acc := start;
    var i := 0;
    while i < |names|
      invariant 0 <= i <= |names|
      invariant Masters(nodes, names[i..], key, acc) == Masters(nodes, names, key, start)
    {
      assert names[i..][0] == names[i] && names[i..][1..] == names[i + 1..];
      var members, j := ListOf(nodes[names[i]], "member"), 0;
      ghost var whole := Enslave(members, key, names[i], acc);
      while j < |members|
        invariant 0 <= j <= |members|
        invariant Enslave(members[j..], key, names[i], acc) == whole
      {
        assert members[j..][0] == members[j] && members[j..][1..] == members[j + 1..];
        acc := acc[members[j] := (key, names[i])];
        j := j + 1;
      }
      i := i + 1;
    }
  }

  method CollectRiders(config: Node, kind: string, leaf: string) returns (acc: map<string, seq<string>>)
    ensures var nodes := Instances(config, kind); acc == Riders(nodes, Sorted(nodes.Keys), leaf, map[])
  {
    hide Sorted, Instances, LeafOf;
    var nodes := Instances(config, kind);
    var names := Sorted(nodes.Keys);
    acc := map[];
    var i := 0;
    while i < |names|
      invariant 0 <= i <= |names|
      invariant Riders(nodes, names[i..], leaf, acc) == Riders(nodes, names, leaf, map[])
    {
      assert names[i..][0] == names[i] && names[i..][1..] == names[i + 1..];
      match LeafOf(nodes[names[i]], leaf) {
        case None =>
        case Some(under) => acc := acc[under := (if under in acc then acc[under] else []) + [names[i]]];
      }
      i := i + 1;
    }
  }

  method Attach(config: Node) returns (a: Attachments)
    ensures a == AttachmentsOf(config)
  {
    hide Masters, Riders, Instances, Sorted;
    var bonds := CollectMasters(config, "bonding", "Bond", map[]);
    var masters := CollectMasters(config, "bridge", "Bridge", bonds);
    var vlans := CollectRiders(config, "vlan", "parent");
    var vxlans := CollectRiders(config, "vxlan", "source-interface");
    a := Attachments(masters, vlans, vxlans);
  }

  // ----- emitting --------------------------------------------------------

  /** The writer is in section `head`, with `p` written in it since `start`. */
  ghost predicate Under(ini: Writer, start: seq<Item>, head: string, p: seq<Item>)
    reads ini
  {
    && ini.Valid() && ini.items == start + Begun(Some(head), p)
    && ini.pending == if p == [] then Some(head) else None
  }

  lemma BegunOnce(head: Option<string>, a: seq<Item>, b: seq<Item>)
    requires head.Some?
    ensures Begun(head, a) + Begun(if a == [] then head else None, b) == Begun(head, a + b)
  {
    if a == [] { assert a + b == b; }
  }

  method Begin(ini: Writer, head: string)
    requires ini.Valid()
    modifies ini
    ensures Under(ini, old(ini.items), head, [])
  {
    hide FileText;
    ini.Section(head);
  }

  method PutKey(ini: Writer, ghost start: seq<Item>, head: string, ghost p: seq<Item>, key: string, value: string)
    requires Under(ini, start, head, p)
    modifies ini
    ensures Under(ini, start, head, p + [Pair(key, value)])
  {
    hide FileText;
    BegunOnce(Some(head), p, [Pair(key, value)]);
    ini.Key(key, value);
  }

  method PutMaybe(ini: Writer, ghost start: seq<Item>, head: string, ghost p: seq<Item>, key: string,
                  value: Option<string>)
    requires Under(ini, start, head, p)
    modifies ini
    ensures Under(ini, start, head, p + Opt(key, value))
  {
    hide FileText;
    BegunOnce(Some(head), p, Opt(key, value));
    ini.Maybe(key, value);
    if value.None? { assert p + [] == p; }
  }

  method PutEach(ini: Writer, ghost start: seq<Item>, head: string, ghost p: seq<Item>, key: string,
                 values: seq<string>)
    requires Under(ini, start, head, p)
    modifies ini
    ensures Under(ini, start, head, p + Pairs(key, values))
  {
    hide FileText;
    BegunOnce(Some(head), p, Pairs(key, values));
    ini.Each(key, values);
    if values == [] { assert p + [] == p; }
  }

  method StartFile(section: string) returns (ini: Writer)
    ensures fresh(ini) && Under(ini, [], section, [])
  {
    hide FileText;
    ini := new Writer();
    ini.Section(section);
  }

  /** Addresses that are not `dhcp`, in order. */
  method Addresses(addresses: seq<string>) returns (rest: seq<string>)
    ensures rest == NotDhcp(addresses)
  {
    assert NotDhcp([]) == [];
    hide NotDhcp;
    rest := [];
    var i := 0;
    assert addresses[0..] == addresses;
    while i < |addresses|
      invariant 0 <= i <= |addresses|
      invariant rest + NotDhcp(addresses[i..]) == NotDhcp(addresses)
    {
      NotDhcpFrom(addresses, i);
      if addresses[i] != "dhcp" { rest := rest + [addresses[i]]; }
      i := i + 1;
    }
    assert addresses[i..] == [];
  }

  lemma NotDhcpFrom(addresses: seq<string>, i: nat)
    requires i < |addresses|
    ensures NotDhcp(addresses[i..]) == (if addresses[i] == "dhcp" then [] else [addresses[i]]) + NotDhcp(addresses[i + 1..])
  {
    assert addresses[i..][0] == addresses[i] && addresses[i..][1..] == addresses[i + 1..];
  }

  method OwnSettings(ini: Writer, ghost start: seq<Item>, node: Node)
    requires Under(ini, start, "Network", [])
    modifies ini
    ensures Under(ini, start, "Network", NetworkPairs(node))
  {
    hide ListOf, LeafOf, Pairs, NotDhcp, Opt, Under;
    PutMaybe(ini, start, "Network", [], "Description", LeafOf(node, "description"));
    ghost var p := Opt("Description", LeafOf(node, "description"));
    assert [] + p == p;
    var addresses := ListOf(node, "address");
    var others := Addresses(addresses);
    if "dhcp" in addresses {
      PutKey(ini, start, "Network", p, "DHCP", "yes");
      p := p + [Pair("DHCP", "yes")];
    }
    PutEach(ini, start, "Network", p, "Address", others);
    assert p + Pairs("Address", others) == NetworkPairs(node);
  }

  /** Enslavement, and what rides on top. */
  method NetworkSection(ini: Writer, ghost start: seq<Item>, name: string, node: Node, a: Attachments)
    requires Under(ini, start, "Network", [])
    modifies ini
    ensures Under(ini, start, "Network", NetworkPairs(node) + AttachmentPairs(name, a))
  {
    hide Pairs, NetworkPairs, Under, At;
    OwnSettings(ini, start, node);
    ghost var p := NetworkPairs(node);
    if name in a.master {
      PutKey(ini, start, "Network", p, a.master[name].0, a.master[name].1);
      p := p + [Pair(a.master[name].0, a.master[name].1)];
    }
    PutEach(ini, start, "Network", p, "VLAN", At(a.vlans, name));
    PutEach(ini, start, "Network", p + Pairs("VLAN", At(a.vlans, name)), "VXLAN", At(a.vxlans, name));
    assert p + Pairs("VLAN", At(a.vlans, name)) + Pairs("VXLAN", At(a.vxlans, name)) == NetworkPairs(node) + AttachmentPairs(name, a);
  }

  method NetworkFile(name: string, node: Node, a: Attachments) returns (text: string)
    ensures text == FileText(NetworkItems(name, node, a))
  {
    hide FileText, ListOf, LeafOf, FlagOf, NetworkPairs, AttachmentPairs, Opt;
    var ini := StartFile("Match");
    PutKey(ini, [], "Match", [], "Name", name);
    ghost var start := ini.items;
    assert start == [Head("Match"), Pair("Name", name)];
    Begin(ini, "Link");
    PutMaybe(ini, start, "Link", [], "MTUBytes", LeafOf(node, "mtu"));
    ghost var p := [] + Opt("MTUBytes", LeafOf(node, "mtu"));
    if FlagOf(node, "disable") {
      PutKey(ini, start, "Link", p, "ActivationPolicy", "always-down");
      p := p + [Pair("ActivationPolicy", "always-down")];
    }
    assert p == LinkPairs(node);
    ghost var linked := ini.items;
    Begin(ini, "Network");
    NetworkSection(ini, linked, name, node, a);
    text := ini.out;
  }

  method DeviceSection(ini: Writer, ghost start: seq<Item>, kind: string, node: Node)
    requires ini.Valid() && ini.items == start && ini.pending.None?
    requires kind in NETDEVS
    modifies ini
    ensures ini.Valid() && ini.items == start + Begun(Some(KindPairs(kind, node).0), KindPairs(kind, node).1)
  {
    hide FileText, LeafOf, FlagOf, Opt;
    if kind == "vlan" {
      Begin(ini, "VLAN");
      PutMaybe(ini, start, "VLAN", [], "Id", LeafOf(node, "id"));
      assert KindPairs(kind, node).1 == [] + Opt("Id", LeafOf(node, "id"));
    } else if kind == "bond" {
      Begin(ini, "Bond");
      BondSettings(ini, start, node);
    } else if kind == "bridge" {
      Begin(ini, "Bridge");
      PutKey(ini, start, "Bridge", [], "STP", if FlagOf(node, "stp") then "yes" else "no");
      ghost var p := [Pair("STP", if FlagOf(node, "stp") then "yes" else "no")];
      assert [] + p == p;
      PutMaybe(ini, start, "Bridge", p, "Priority", LeafOf(node, "priority"));
      PutMaybe(ini, start, "Bridge", p + Opt("Priority", LeafOf(node, "priority")), "AgeingTimeSec", LeafOf(node, "aging-time"));
    } else {
      Begin(ini, "VXLAN");
      TunnelSettings(ini, start, node);
    }
  }

  method BondSettings(ini: Writer, ghost start: seq<Item>, node: Node)
    requires Under(ini, start, "Bond", [])
    modifies ini
    ensures Under(ini, start, "Bond", KindPairs("bond", node).1)
  {
    hide LeafOf, Opt, Under;
    ghost var p: seq<Item> := [];
    PutMaybe(ini, start, "Bond", p, "Mode", LeafOf(node, "mode"));
    p := p + Opt("Mode", LeafOf(node, "mode"));
    PutMaybe(ini, start, "Bond", p, "TransmitHashPolicy", LeafOf(node, "hash-policy"));
    p := p + Opt("TransmitHashPolicy", LeafOf(node, "hash-policy"));
    PutMaybe(ini, start, "Bond", p, "LACPTransmitRate", LeafOf(node, "lacp-rate"));
    p := p + Opt("LACPTransmitRate", LeafOf(node, "lacp-rate"));
    PutMaybe(ini, start, "Bond", p, "MinLinks", LeafOf(node, "min-links"));
    p := p + Opt("MinLinks", LeafOf(node, "min-links"));
    PutMaybe(ini, start, "Bond", p, "PrimarySlave", LeafOf(node, "primary"));
    p := p + Opt("PrimarySlave", LeafOf(node, "primary"));
    assert p == KindPairs("bond", node).1;
  }

  method TunnelSettings(ini: Writer, ghost start: seq<Item>, node: Node)
    requires Under(ini, start, "VXLAN", [])
    modifies ini
    ensures Under(ini, start, "VXLAN", KindPairs("vxlan", node).1)
  {
    hide LeafOf, Opt, Under;
    ghost var p: seq<Item> := [];
    PutMaybe(ini, start, "VXLAN", p, "VNI", LeafOf(node, "vni"));
    p := p + Opt("VNI", LeafOf(node, "vni"));
    PutMaybe(ini, start, "VXLAN", p, "Remote", LeafOf(node, "remote"));
    p := p + Opt("Remote", LeafOf(node, "remote"));
    PutMaybe(ini, start, "VXLAN", p, "Group", LeafOf(node, "group"));
    p := p + Opt("Group", LeafOf(node, "group"));
    PutMaybe(ini, start, "VXLAN", p, "Local", LeafOf(node, "source-address"));
    p := p + Opt("Local", LeafOf(node, "source-address"));
    PutMaybe(ini, start, "VXLAN", p, "DestinationPort", LeafOf(node, "port"));
    p := p + Opt("DestinationPort", LeafOf(node, "port"));
    PutMaybe(ini, start, "VXLAN", p, "TTL", LeafOf(node, "ttl"));
    p := p + Opt("TTL", LeafOf(node, "ttl"));
    if LeafOf(node, "source-interface").None? {
      PutKey(ini, start, "VXLAN", p, "Independent", "true");
      p := p + [Pair("Independent", "true")];
    }
    assert p == KindPairs("vxlan", node).1;
  }

  method NetdevHead(kind: string, name: string, node: Node) returns (ini: Writer)
    ensures fresh(ini) && Under(ini, [], "NetDev", NetdevPairs(kind, name, node))
  {
    hide Under, LeafOf, Opt;
    ini := StartFile("NetDev");
    ghost var p: seq<Item> := [Pair("Name", name), Pair("Kind", kind)];
    PutKey(ini, [], "NetDev", [], "Name", name);
    PutKey(ini, [], "NetDev", [] + [Pair("Name", name)], "Kind", kind);
    assert [] + [Pair("Name", name)] + [Pair("Kind", kind)] == p;
    PutMaybe(ini, [], "NetDev", p, "Description", LeafOf(node, "description"));
    p := p + Opt("Description", LeafOf(node, "description"));
    PutMaybe(ini, [], "NetDev", p, "MTUBytes", LeafOf(node, "mtu"));
    p := p + Opt("MTUBytes", LeafOf(node, "mtu"));
    PutMaybe(ini, [], "NetDev", p, "MACAddress", LeafOf(node, "mac"));
  }

  ghost function NetdevPairs(kind: string, name: string, node: Node): seq<Item> {
    [Pair("Name", name), Pair("Kind", kind)] + Opt("Description", LeafOf(node, "description"))
    + Opt("MTUBytes", LeafOf(node, "mtu")) + Opt("MACAddress", LeafOf(node, "mac"))
  }

  lemma NetdevItemsAre(kind: string, name: string, node: Node)
    ensures var p := NetdevPairs(kind, name, node);
            && p != []
            && [Head("NetDev")] + p + Begun(Some(KindPairs(kind, node).0), KindPairs(kind, node).1) == NetdevItems(kind, name, node)
  {
    hide LeafOf, Opt, KindPairs;
    var p := NetdevPairs(kind, name, node);
    assert p[0] == Pair("Name", name);
    assert [Head("NetDev")] + p == [Head("NetDev"), Pair("Name", name), Pair("Kind", kind)]
      + Opt("Description", LeafOf(node, "description")) + Opt("MTUBytes", LeafOf(node, "mtu")) + Opt("MACAddress", LeafOf(node, "mac"));
  }

  method NetdevFile(kind: string, name: string, node: Node) returns (text: string)
    requires kind in NETDEVS
    ensures text == FileText(NetdevItems(kind, name, node))
  {
    hide FileText, LeafOf, Opt, KindPairs, NetdevPairs, NetdevItems;
    var ini := NetdevHead(kind, name, node);
    NetdevItemsAre(kind, name, node);
    ghost var start := ini.items;
    assert start == [Head("NetDev")] + NetdevPairs(kind, name, node);
    DeviceSection(ini, start, kind, node);
    text := ini.out;
  }

  // ----- rendering -------------------------------------------------------

  method RenderPhysical(start: Files, config: Node, kind: string, a: Attachments) returns (files: Files)
    ensures files == Physical(start, config, kind, a)
  {
    hide Sorted, Instances, NetworkItems, FileText, PhysicalFile;
    var nodes := Instances(config, kind);
    var names := Sorted(nodes.Keys);
    files := start;
    var i := 0;
    while i < |names|
      invariant 0 <= i <= |names|
      invariant WithPhysical(files, nodes, names[i..], a) == WithPhysical(start, nodes, names, a)
    {
      assert names[i..][0] == names[i] && names[i..][1..] == names[i + 1..];
      var text := NetworkFile(names[i], nodes[names[i]], a);
      files := files[PhysicalFile(names[i], "network") := text];
      i := i + 1;
    }
  }

  method RenderVirtual(start: Files, config: Node, kind: string, netdev: string, a: Attachments) returns (files: Files)
    requires netdev in NETDEVS
    ensures files == Virtual(start, config, kind, netdev, a)
  {
    hide Sorted, Instances, NetworkItems, NetdevItems, FileText, VirtualFile;
    var nodes := Instances(config, kind);
    var names := Sorted(nodes.Keys);
    files := start;
    var i := 0;
    while i < |names|
      invariant 0 <= i <= |names|
      invariant WithVirtual(files, netdev, nodes, names[i..], a) == WithVirtual(start, netdev, nodes, names, a)
    {
      assert names[i..][0] == names[i] && names[i..][1..] == names[i + 1..];
      var device := NetdevFile(netdev, names[i], nodes[names[i]]);
      files := files[VirtualFile(names[i], "netdev") := device];
      var network := NetworkFile(names[i], nodes[names[i]], a);
      files := files[VirtualFile(names[i], "network") := network];
      i := i + 1;
    }
  }

  /** `render`: attachments first, then a pass over each type of interface. */
  method Render(config: Node) returns (files: Files)
    ensures files == RenderFiles(config)
  {
    hide AttachmentsOf, Physical, Virtual;
    var a := Attach(config);
    files := RenderPhysical(map[], config, "ethernet", a);
    files := RenderPhysical(files, config, "loopback", a);
    files := RenderVirtual(files, config, "vlan", "vlan", a);
    files := RenderVirtual(files, config, "bonding", "bond", a);
    files := RenderVirtual(files, config, "bridge", "bridge", a);
    files := RenderVirtual(files, config, "vxlan", "vxlan", a);
  }

  // ----- checking --------------------------------------------------------

  method CheckReferences(file: string, s: Settings, devices: set<string>) returns (e: Option<CheckError>)
    ensures e == FirstDangling(file, s, REFERENCES, devices)
  {
    hide ValuesOf;
    var k := 0;
    while k < |REFERENCES|
      invariant 0 <= k <= |REFERENCES|
      invariant FirstDangling(file, s, REFERENCES[k..], devices) == FirstDangling(file, s, REFERENCES, devices)
    {
      assert REFERENCES[k..][0] == REFERENCES[k] && REFERENCES[k..][1..] == REFERENCES[k + 1..];
      var refs, j := ValuesOf(s, "Network", REFERENCES[k]), 0;
      while j < |refs|
        invariant 0 <= j <= |refs|
        invariant FirstMissing(refs[j..], devices) == FirstMissing(refs, devices)
      {
        assert refs[j..][0] == refs[j] && refs[j..][1..] == refs[j + 1..];
        if refs[j] !in devices { return Some(Dangling(file, refs[j], REFERENCES[k])); }
        j := j + 1;
      }
      assert refs[j..] == [];
      k := k + 1;
    }
    assert REFERENCES[k..] == [];
    e := None;
  }

  method CheckFiles(files: Files) returns (e: Option<CheckError>)
    ensures e == Check(files)
  {
    hide Sorted, Devices, SettingsOf, FirstDangling, EndsWith, VirtualFile, ValuesOf;
    var devices, names := Devices(files), Sorted(files.Keys);
    var claimed: map<string, string> := map[];
    var i := 0;
    while i < |names|
      invariant 0 <= i <= |names|
      invariant CheckNetworks(names[i..], files, devices, claimed) == CheckNetworks(names, files, devices, map[])
    {
      assert names[i..][0] == names[i] && names[i..][1..] == names[i + 1..];
      if EndsWith(names[i], ".network") {
        var s := ReadSettings(files[names[i]]);
        var matched := ValuesOf(s, "Match", "Name");
        if matched != [] && matched[0] in claimed {
          return Some(BothConfigure(names[i], claimed[matched[0]], matched[0]));
        }
        if matched != [] { claimed := claimed[matched[0] := names[i]]; }
        var dangling := CheckReferences(names[i], s, devices);
        if dangling.Some? { return dangling; }
      }
      i := i + 1;
    }
    assert names[i..] == [];
    var sorted, j := Sorted(devices), 0;
    while j < |sorted|
      invariant 0 <= j <= |sorted|
      invariant FirstBare(sorted[j..], files) == FirstBare(sorted, files)
    {
      assert sorted[j..][0] == sorted[j] && sorted[j..][1..] == sorted[j + 1..];
      if VirtualFile(sorted[j], "network") !in files { return Some(NoNetwork(sorted[j])); }
      j := j + 1;
    }
    assert sorted[j..] == [];
    e := None;
  }

  // ----- recreation ------------------------------------------------------

  method FindRecreations(before: Files, after: Files) returns (devices: set<string>)
    ensures devices == Recreations(before, after)
  {
    hide DeviceOf, NeedsRecreating;
    devices := {};
    var todo := before.Keys;
    while todo != {}
      invariant todo <= before.Keys
      invariant devices == set file | file in before.Keys - todo && DeviceOf(file).Some?
                               && (file !in after || NeedsRecreating(before[file], after[file])) :: DeviceOf(file).value
      decreases |todo|
    {
      var file :| file in todo;
      if DeviceOf(file).Some? && (file !in after || NeedsRecreating(before[file], after[file])) {
        devices := devices + {DeviceOf(file).value};
      }
      todo := todo - {file};
    }
  }
}
