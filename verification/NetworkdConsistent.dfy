/** What the check of a file set comes to, for any files: it passes exactly the consistent
    ones, and what it complains of is really there. And which interface each rendered file
    is written for. */
module NetworkdConsistent {
  import opened Wrappers
  import opened Order
  import opened Config
  import opened Ini
  import opened Networkd
  import opened NetworkdCheck
  import opened NetworkdTheorem
  import opened NetworkdRebuild
  import opened NetworkdAttach

  predicate IsNetwork(file: string) {
    EndsWith(file, ".network")
  }

  /** No two files configure one interface, every reference is to a device that is made,
      and every device that is made is configured. */
  ghost predicate Consistent(files: Files) {
    && (forall f, g :: f in files && g in files && f != g && IsNetwork(f) && IsNetwork(g) && Claims(files[f]).Some? ==>
          Claims(files[f]) != Claims(files[g]))
    && (forall f :: f in files && IsNetwork(f) ==> RefersWithin(files[f], Devices(files)))
    && (forall device :: device in Devices(files) ==> VirtualFile(device, "network") in files)
  }

  /** What a complaint says is so. */
  ghost predicate IsReal(e: CheckError, files: Files) {
    match e
    case BothConfigure(file, other, name) =>
      && file in files && other in files && file != other && IsNetwork(file) && IsNetwork(other)
      && Claims(files[file]) == Some(name) == Claims(files[other])
    case Dangling(file, device, key) =>
      && file in files && IsNetwork(file) && key in REFERENCES
      && device in ValuesOf(SettingsOf(files[file]), "Network", key) && device !in Devices(files)
    case NoNetwork(device) => device in Devices(files) && VirtualFile(device, "network") !in files
  }

  lemma {:induction false} MissingIs(refs: seq<string>, devices: set<string>)
    ensures match FirstMissing(refs, devices)
            case Some(device) => device in refs && device !in devices
            case None => forall v :: v in refs ==> v in devices
  {
    if refs != [] { MissingIs(refs[1..], devices); }
  }

  lemma {:induction false} DanglingIs(file: string, s: Settings, keys: seq<string>, devices: set<string>)
    ensures match FirstDangling(file, s, keys, devices)
            case Some(e) => e.Dangling? && e.file == file && e.key in keys && e.device in ValuesOf(s, "Network", e.key) && e.device !in devices
            case None => forall key, v :: key in keys && v in ValuesOf(s, "Network", key) ==> v in devices
  {
    hide ValuesOf;
    if keys != [] {
      MissingIs(ValuesOf(s, "Network", keys[0]), devices);
      DanglingIs(file, s, keys[1..], devices);
      assert forall key :: key in keys <==> key == keys[0] || key in keys[1..];
    }
  }

  lemma {:induction false} BareIs(devices: seq<string>, files: Files)
    ensures match FirstBare(devices, files)
            case Some(e) => e.NoNetwork? && e.device in devices && VirtualFile(e.device, "network") !in files
            case None => forall device :: device in devices ==> VirtualFile(device, "network") in files
  {
    hide VirtualFile;
    if devices != [] { BareIs(devices[1..], files); }
  }

  /** The files scanned so far and the interfaces they claim. */
  ghost predicate ClaimedBy(claimed: map<string, string>, names: seq<string>, files: Files) {
    forall name :: name in claimed ==>
      && claimed[name] in files && claimed[name] !in names && IsNetwork(claimed[name]) && Claims(files[claimed[name]]) == Some(name)
  }

  /** What a scan that finds nothing has established. */
  ghost predicate Passed(names: seq<string>, files: Files, claimed: map<string, string>)
    requires forall i :: 0 <= i < |names| ==> names[i] in files
  {
    forall f :: f in names && IsNetwork(f) ==>
      && RefersWithin(files[f], Devices(files))
      && (Claims(files[f]).Some? ==> Claims(files[f]).value !in claimed)
      && (forall g :: g in names && g != f && IsNetwork(g) && Claims(files[f]).Some? ==> Claims(files[f]) != Claims(files[g]))
  }

  lemma {:induction false} ScanSays(names: seq<string>, files: Files, claimed: map<string, string>)
    requires Distinct(names) && forall i :: 0 <= i < |names| ==> names[i] in files
    requires ClaimedBy(claimed, names, files)
    ensures match CheckNetworks(names, files, Devices(files), claimed)
            case Some(e) => IsReal(e, files)
            case None => Passed(names, files, claimed)
    decreases |names|
  {
    hide EndsWith, SettingsOf, FirstDangling, Devices, ValuesOf;
    if names != [] {
      var file, rest := names[0], names[1..];
      var s := SettingsOf(files[file]);
      assert names == [file] + rest;
      assert Distinct(rest) && file !in rest;
      if !IsNetwork(file) {
        ScanSays(rest, files, claimed);
      } else if Claims(files[file]).Some? && Claims(files[file]).value in claimed {
      } else {
        DanglingIs(file, s, REFERENCES, Devices(files));
        if FirstDangling(file, s, REFERENCES, Devices(files)).None? {
          var more := if Claims(files[file]).None? then claimed else claimed[Claims(files[file]).value := file];
          ScanSays(rest, files, more);
        }
      }
    }
  }

  /** For any files: the check passes exactly the consistent sets, and a complaint is true. */
  lemma CheckIff(files: Files)
    ensures Check(files).None? <==> Consistent(files)
    ensures Check(files).Some? ==> IsReal(Check(files).value, files)
  {
    hide Claims, EndsWith, Devices, SettingsOf, ValuesOf, VirtualFile, CheckNetworks, FirstBare, RefersWithin;
    var names := Sorted(files.Keys);
    SortedIsSorted(files.Keys);
    hide Sorted, Leq;
    ScanSays(names, files, map[]);
    BareIs(Sorted(Devices(files)), files);
    if Check(files).Some? { RealIsInconsistent(Check(files).value, files); }
  }

  lemma RealIsInconsistent(e: CheckError, files: Files)
    requires IsReal(e, files)
    ensures !Consistent(files)
  {
    hide EndsWith, Devices, SettingsOf, ValuesOf, VirtualFile;
  }

  // ----- which interface a file is for -----------------------------------

  /** The type that decides a physical interface: the last of those rendered. */
  function PortIn(config: Node, name: string): Option<Node> {
    if name in Instances(config, "loopback") then Some(Instances(config, "loopback")[name])
    else if name in Instances(config, "ethernet") then Some(Instances(config, "ethernet")[name])
    else None
  }

  function NetworkText(name: string, node: Node, a: Attachments): string {
    FileText(NetworkItems(name, node, a))
  }

  lemma NetworkFilesDiffer(one: string, other: string)
    ensures VirtualFile(one, "network") == VirtualFile(other, "network") <==> one == other
    ensures PhysicalFile(one, "network") == PhysicalFile(other, "network") <==> one == other
    ensures PhysicalFile(one, "network") != VirtualFile(other, "network")
    ensures VirtualFile(one, "netdev") != VirtualFile(other, "network") && VirtualFile(one, "netdev") != PhysicalFile(other, "network")
  {
    var v, p := VirtualNetwork(other, EMPTY_INTERIOR), PhysicalNetwork(other, EMPTY_INTERIOR);
    if VirtualFile(one, "network") == VirtualFile(other, "network") { SameFileSameName(VirtualNetwork(one, EMPTY_INTERIOR), v); }
    if PhysicalFile(one, "network") == PhysicalFile(other, "network") { SameFileSameName(PhysicalNetwork(one, EMPTY_INTERIOR), p); }
    if VirtualFile(one, "netdev") == VirtualFile(other, "network") { SameFileSameName(Netdev("", one, EMPTY_INTERIOR), v); }
    FileNames(one, "network");
    FileNames(other, "network");
    FileNames(one, "netdev");
  }

  lemma {:induction false} VirtualsAt(files: Files, kind: string, nodes: map<string, Node>, names: seq<string>, a: Attachments, name: string)
    requires forall i :: 0 <= i < |names| ==> names[i] in nodes
    ensures var after := WithVirtual(files, kind, nodes, names, a);
            && TextAt(after, VirtualFile(name, "network")) ==
               (if name in names then Some(NetworkText(name, nodes[name], a)) else TextAt(files, VirtualFile(name, "network")))
            && TextAt(after, PhysicalFile(name, "network")) == TextAt(files, PhysicalFile(name, "network"))
    decreases |names|
  {
    hide NetworkItems, NetdevItems, FileText, VirtualFile, PhysicalFile;
    if names != [] {
      assert names == [names[0]] + names[1..];
      NetworkFilesDiffer(names[0], name);
      NetworkFilesDiffer(name, names[0]);
      VirtualsAt(files[VirtualFile(names[0], "netdev") := FileText(NetdevItems(kind, names[0], nodes[names[0]]))]
                      [VirtualFile(names[0], "network") := FileText(NetworkItems(names[0], nodes[names[0]], a))],
                 kind, nodes, names[1..], a, name);
    }
  }

  lemma {:induction false} PortsAt(files: Files, nodes: map<string, Node>, names: seq<string>, a: Attachments, name: string)
    requires forall i :: 0 <= i < |names| ==> names[i] in nodes
    ensures var after := WithPhysical(files, nodes, names, a);
            && TextAt(after, PhysicalFile(name, "network")) ==
               (if name in names then Some(NetworkText(name, nodes[name], a)) else TextAt(files, PhysicalFile(name, "network")))
            && TextAt(after, VirtualFile(name, "network")) == TextAt(files, VirtualFile(name, "network"))
    decreases |names|
  {
    hide NetworkItems, FileText, VirtualFile, PhysicalFile;
    if names != [] {
      assert names == [names[0]] + names[1..];
      NetworkFilesDiffer(names[0], name);
      NetworkFilesDiffer(name, names[0]);
      PortsAt(files[PhysicalFile(names[0], "network") := FileText(NetworkItems(names[0], nodes[names[0]], a))], nodes, names[1..], a, name);
    }
  }

  lemma VirtualStage(files: Files, config: Node, kind: string, netdev: string, a: Attachments, name: string)
    ensures var after := Virtual(files, config, kind, netdev, a);
            && TextAt(after, VirtualFile(name, "network")) ==
               (if name in Instances(config, kind) then Some(NetworkText(name, Instances(config, kind)[name], a))
                else TextAt(files, VirtualFile(name, "network")))
            && TextAt(after, PhysicalFile(name, "network")) == TextAt(files, PhysicalFile(name, "network"))
  {
    hide Sorted, WithVirtual, Instances, VirtualFile, PhysicalFile, NetworkText;
    var nodes := Instances(config, kind);
    VirtualsAt(files, netdev, nodes, Sorted(nodes.Keys), a, name);
    assert name in Sorted(nodes.Keys) <==> name in nodes;
  }

  lemma PhysicalStage(files: Files, config: Node, kind: string, a: Attachments, name: string)
    ensures var after := Physical(files, config, kind, a);
            && TextAt(after, PhysicalFile(name, "network")) ==
               (if name in Instances(config, kind) then Some(NetworkText(name, Instances(config, kind)[name], a))
                else TextAt(files, PhysicalFile(name, "network")))
            && TextAt(after, VirtualFile(name, "network")) == TextAt(files, VirtualFile(name, "network"))
  {
    hide Sorted, WithPhysical, Instances, VirtualFile, PhysicalFile, NetworkText;
    var nodes := Instances(config, kind);
    PortsAt(files, nodes, Sorted(nodes.Keys), a, name);
    assert name in Sorted(nodes.Keys) <==> name in nodes;
  }

  /** The `.network` of a name is that of the interface which the config has by it: of a
      virtual one the last of the types that do, and of a port likewise. */
  lemma NetworkAt(config: Node, name: string)
    ensures var files, a := RenderFiles(config), AttachmentsOf(config);
            && TextAt(files, VirtualFile(name, "network")) ==
               (if DeviceIn(config, name).None? then None else Some(NetworkText(name, DeviceIn(config, name).value.1, a)))
            && TextAt(files, PhysicalFile(name, "network")) ==
               (if PortIn(config, name).None? then None else Some(NetworkText(name, PortIn(config, name).value, a)))
  {
    hide AttachmentsOf, Physical, Virtual, VirtualFile, PhysicalFile, Instances, NetworkText;
    var a := AttachmentsOf(config);
    var f1 := Physical(map[], config, "ethernet", a);
    PhysicalStage(map[], config, "ethernet", a, name);
    var f2 := Physical(f1, config, "loopback", a);
    PhysicalStage(f1, config, "loopback", a, name);
    var f3 := Virtual(f2, config, "vlan", "vlan", a);
    VirtualStage(f2, config, "vlan", "vlan", a, name);
    var f4 := Virtual(f3, config, "bonding", "bond", a);
    VirtualStage(f3, config, "bonding", "bond", a, name);
    var f5 := Virtual(f4, config, "bridge", "bridge", a);
    VirtualStage(f4, config, "bridge", "bridge", a, name);
    VirtualStage(f5, config, "vxlan", "vxlan", a, name);
  }

  // ----- order and ties --------------------------------------------------

  ghost predicate Rising(names: seq<string>) {
    forall i, j :: 0 <= i < j < |names| ==> Leq(names[i], names[j]) && names[i] != names[j]
  }

  ghost predicate AllBefore(names: seq<string>, later: seq<string>) {
    forall x, y :: x in names && y in later ==> Leq(x, y) && x != y
  }

  lemma RisesOn(had: seq<string>, names: seq<string>)
    requires Rising(names) && names != [] && Rising(had) && AllBefore(had, names)
    ensures Rising(names[1..]) && AllBefore(had, names[1..])
    ensures Rising(had + [names[0]]) && AllBefore(had + [names[0]], names[1..])
  {
    hide Leq;
    var rest, more := names[1..], had + [names[0]];
    assert forall i, j :: 0 <= i < j < |rest| ==> rest[i] == names[i + 1] && rest[j] == names[j + 1];
    assert names[0] in names && forall y :: y in rest ==> y in names;
    forall x, y | x in more && y in rest ensures Leq(x, y) && x != y {
      if x !in had {
        var k :| 0 <= k < |rest| && rest[k] == y;
        assert names[k + 1] == y && x == names[0];
      }
    }
    forall i, j | 0 <= i < j < |more| ensures Leq(more[i], more[j]) && more[i] != more[j] {
      assert more[i] in had;
    }
  }

  /** What rides on an interface is listed in the order of its names. */
  lemma {:induction false} RidersRise(nodes: map<string, Node>, names: seq<string>, leaf: string, acc: map<string, seq<string>>, under: string)
    requires Rising(names) && forall i :: 0 <= i < |names| ==> names[i] in nodes
    requires Rising(At(acc, under)) && AllBefore(At(acc, under), names)
    ensures Rising(At(Riders(nodes, names, leaf, acc), under))
    decreases |names|
  {
    hide LeafOf, Leq, Rising, AllBefore;
    if names != [] {
      RisesOn(At(acc, under), names);
      match LeafOf(nodes[names[0]], leaf)
      case None => RidersRise(nodes, names[1..], leaf, acc, under);
      case Some(below) => RidersRise(nodes, names[1..], leaf, acc[below := (if below in acc then acc[below] else []) + [names[0]]], under);
    }
  }

  lemma RidersInOrder(config: Node, under: string)
    ensures var a := AttachmentsOf(config); Rising(At(a.vlans, under)) && Rising(At(a.vxlans, under))
  {
    var vlans, vxlans := Instances(config, "vlan"), Instances(config, "vxlan");
    SortedIsSorted(vlans.Keys);
    SortedIsSorted(vxlans.Keys);
    hide Masters, Riders, Instances, Sorted, Leq;
    RidersRise(vlans, Sorted(vlans.Keys), "parent", map[], under);
    RidersRise(vxlans, Sorted(vxlans.Keys), "source-interface", map[], under);
  }

  lemma MastersCons(nodes: map<string, Node>, names: seq<string>, key: string, acc: map<string, (string, string)>)
    requires names != [] && forall i :: 0 <= i < |names| ==> names[i] in nodes
    ensures Masters(nodes, names, key, acc) == Masters(nodes, names[1..], key, Enslave(ListOf(nodes[names[0]], "member"), key, names[0], acc))
  {
  }

  lemma RisingRest(names: seq<string>, x: string)
    requires Rising(names) && names != [] && x in names[1..]
    ensures Rising(names[1..]) && Leq(names[0], x)
  {
    hide Leq;
    var rest := names[1..];
    var k :| 0 <= k < |rest| && rest[k] == x;
    assert names[k + 1] == x;
    assert forall i, j :: 0 <= i < j < |rest| ==> rest[i] == names[i + 1] && rest[j] == names[j + 1];
  }

  /** Of several that list a member, the last by name has it. */
  lemma {:induction false} LastMaster(nodes: map<string, Node>, names: seq<string>, key: string, acc: map<string, (string, string)>, member: string,
                                      m: string)
    requires Rising(names) && forall i :: 0 <= i < |names| ==> names[i] in nodes
    requires m in names && Enslaves(nodes, m, member)
    ensures var r := Masters(nodes, names, key, acc);
            member in r && r[member].0 == key && r[member].1 in names && Leq(m, r[member].1)
    decreases |names|
  {
    hide Leq, Masters, Enslave, Rising;
    var rest, members := names[1..], ListOf(nodes[names[0]], "member");
    assert names == [names[0]] + rest;
    MastersCons(nodes, names, key, acc);
    EnslaveIs(members, key, names[0], acc, member);
    var next := Enslave(members, key, names[0], acc);
    if m in rest {
      RisingRest(names, m);
      LastMaster(nodes, rest, key, next, member, m);
    } else if other :| other in rest && Enslaves(nodes, other, member) {
      RisingRest(names, other);
      LastMaster(nodes, rest, key, next, member, other);
      RisingRest(names, Masters(nodes, rest, key, next)[member].1);
    } else {
      MastersAre(nodes, rest, key, next, member);
      LeqTotal(m, m);
    }
  }

  lemma MasterIsLast(config: Node, member: string, m: string)
    ensures var a, bonds, bridges := AttachmentsOf(config), Instances(config, "bonding"), Instances(config, "bridge");
            && (Enslaves(bridges, m, member) ==> member in a.master && a.master[member].0 == "Bridge" && Leq(m, a.master[member].1))
            && (Enslaves(bonds, m, member) && (forall b :: !Enslaves(bridges, b, member)) ==>
                  member in a.master && a.master[member].0 == "Bond" && Leq(m, a.master[member].1))
  {
    var bonds, bridges := Instances(config, "bonding"), Instances(config, "bridge");
    SortedIsSorted(bonds.Keys);
    SortedIsSorted(bridges.Keys);
    hide Masters, Riders, Instances, Sorted, ListOf, Leq;
    var first := Masters(bonds, Sorted(bonds.Keys), "Bond", map[]);
    if Enslaves(bridges, m, member) {
      LastMaster(bridges, Sorted(bridges.Keys), "Bridge", first, member, m);
    } else if Enslaves(bonds, m, member) && forall b :: !Enslaves(bridges, b, member) {
      LastMaster(bonds, Sorted(bonds.Keys), "Bond", map[], member, m);
      MastersAre(bridges, Sorted(bridges.Keys), "Bridge", first, member);
    }
  }
}
