/** `check` accepts a rendered configuration exactly when no interface name is both
    physical and virtual; and the devices it describes are its virtual interfaces. */
module NetworkdTheorem {
  import opened Wrappers
  import opened Text
  import opened Order
  import opened Config
  import opened Ini
  import opened Networkd
  import opened NetworkdDevices
  import opened NetworkdCheck

  // ----- clean configurations --------------------------------------------

  ghost predicate CleanNode(node: Node) {
    forall name, v :: v in ListOf(node, name) ==> Clean(v)
  }

  /** Interface names and their values hold no newline and no outer whitespace. */
  ghost predicate CleanConfig(config: Node) {
    forall kind, name, node :: kind in PHYSICAL + VIRTUAL && Instance(config, kind, name, node) ==> Clean(name) && CleanNode(node)
  }

  predicate AllClean(items: seq<Item>) {
    forall i :: 0 <= i < |items| ==> CleanItem(items[i])
  }

  lemma OptClean(key: string, node: Node, leaf: string)
    requires PlainKey(key) && CleanNode(node)
    ensures AllClean(Opt(key, LeafOf(node, leaf)))
  {
    hide PlainKey, ListOf, Clean;
    var values := ListOf(node, leaf);
    if |values| == 1 { assert values[0] in values; }
  }

  lemma {:induction false} PairsClean(key: string, values: seq<string>)
    requires PlainKey(key) && forall i :: 0 <= i < |values| ==> Clean(values[i])
    ensures AllClean(Pairs(key, values))
  {
    if values != [] { PairsClean(key, values[1..]); }
  }

  lemma {:induction false} NotDhcpClean(addresses: seq<string>)
    requires forall i :: 0 <= i < |addresses| ==> Clean(addresses[i])
    ensures forall i :: 0 <= i < |NotDhcp(addresses)| ==> Clean(NotDhcp(addresses)[i])
  {
    if addresses != [] { NotDhcpClean(addresses[1..]); }
  }

  lemma ConcatClean(a: seq<Item>, b: seq<Item>)
    requires AllClean(a) && AllClean(b)
    ensures AllClean(a + b)
  {
  }

  lemma BegunClean(section: string, pairs: seq<Item>)
    requires CleanItem(Head(section)) && AllClean(pairs)
    ensures AllClean(Begun(Some(section), pairs))
  {
    hide CleanItem;
  }

  lemma PlainPair(key: string, value: string)
    requires PlainKey(key) && Clean(value)
    ensures AllClean([Pair(key, value)])
  {
  }

  lemma LinkClean(node: Node)
    requires CleanNode(node)
    ensures AllClean(LinkPairs(node))
  {
    assert PlainKey("MTUBytes") && PlainKey("ActivationPolicy") && Clean("always-down");
    hide PlainKey, Clean, AllClean, Opt, CleanNode;
    OptClean("MTUBytes", node, "mtu");
    PlainPair("ActivationPolicy", "always-down");
    NothingClean();
    ConcatClean(Opt("MTUBytes", LeafOf(node, "mtu")), if FlagOf(node, "disable") then [Pair("ActivationPolicy", "always-down")] else []);
  }

  lemma NothingClean()
    ensures AllClean([])
  {
  }

  lemma AddressesClean(node: Node)
    requires CleanNode(node)
    ensures AllClean(Pairs("Address", NotDhcp(ListOf(node, "address"))))
  {
    assert PlainKey("Address");
    hide Clean, ListOf, NotDhcp, Pairs, PlainKey, AllClean;
    var addresses := ListOf(node, "address");
    assert forall i :: 0 <= i < |addresses| ==> addresses[i] in addresses;
    NotDhcpClean(addresses);
    PairsClean("Address", NotDhcp(addresses));
  }

  lemma NetworkPairsClean(node: Node)
    requires CleanNode(node)
    ensures AllClean(NetworkPairs(node))
  {
    assert PlainKey("Description") && PlainKey("DHCP") && Clean("yes");
    hide PlainKey, Clean, AllClean, Opt, CleanNode, Pairs, NotDhcp;
    OptClean("Description", node, "description");
    PlainPair("DHCP", "yes");
    NothingClean();
    AddressesClean(node);
    var addresses := ListOf(node, "address");
    var dhcp := if "dhcp" in addresses then [Pair("DHCP", "yes")] else [];
    ConcatClean(Opt("Description", LeafOf(node, "description")), dhcp);
    ConcatClean(Opt("Description", LeafOf(node, "description")) + dhcp, Pairs("Address", NotDhcp(addresses)));
  }

  lemma VirtualNamesClean(config: Node, name: string)
    requires CleanConfig(config) && name in VirtualNames(config)
    ensures Clean(name)
  {
    hide Clean, CleanNode, Instances;
    var kind :| kind in VIRTUAL && name in Instances(config, kind);
    assert Instance(config, kind, name, Instances(config, kind)[name]);
  }

  lemma MasterClean(m: map<string, (string, string)>, name: string, devices: set<string>)
    requires MastersIn(m, devices) && forall v :: v in devices ==> Clean(v)
    ensures AllClean(if name in m then [Pair(m[name].0, m[name].1)] else [])
  {
    assert PlainKey("Bond") && PlainKey("Bridge");
    hide Clean, PlainKey;
  }

  lemma RidersClean(key: string, m: map<string, seq<string>>, name: string, devices: set<string>)
    requires PlainKey(key) && RidersIn(m, devices) && forall v :: v in devices ==> Clean(v)
    ensures AllClean(Pairs(key, At(m, name)))
  {
    hide Clean, PlainKey, AllClean, Pairs;
    PairsClean(key, At(m, name));
  }

  lemma AttachmentsClean(config: Node, name: string)
    requires CleanConfig(config)
    ensures AllClean(AttachmentPairs(name, AttachmentsOf(config)))
  {
    assert PlainKey("VLAN") && PlainKey("VXLAN");
    hide Clean, PlainKey, AllClean, Pairs, At, AttachmentsOf, CleanConfig, VirtualNames, MastersIn, RidersIn;
    var a := AttachmentsOf(config);
    AttachmentsIn(config);
    forall v | v in VirtualNames(config) ensures Clean(v) { VirtualNamesClean(config, v); }
    MasterClean(a.master, name, VirtualNames(config));
    RidersClean("VLAN", a.vlans, name, VirtualNames(config));
    RidersClean("VXLAN", a.vxlans, name, VirtualNames(config));
    var master := if name in a.master then [Pair(a.master[name].0, a.master[name].1)] else [];
    ConcatClean(master, Pairs("VLAN", At(a.vlans, name)));
    ConcatClean(master + Pairs("VLAN", At(a.vlans, name)), Pairs("VXLAN", At(a.vxlans, name)));
  }

  lemma NetworkClean(config: Node, name: string, node: Node)
    requires CleanConfig(config) && Clean(name) && CleanNode(node)
    ensures AllClean(NetworkItems(name, node, AttachmentsOf(config)))
  {
    assert CleanItem(Head("Match")) && CleanItem(Head("Link")) && CleanItem(Head("Network")) && PlainKey("Name");
    assert AllClean([Head("Match"), Pair("Name", name)]);
    hide CleanItem, AllClean, AttachmentsOf, CleanNode, CleanConfig, Clean, PlainKey, LinkPairs, NetworkPairs,
         AttachmentPairs, Begun;
    var a := AttachmentsOf(config);
    LinkClean(node);
    NetworkPairsClean(node);
    AttachmentsClean(config, name);
    ConcatClean(NetworkPairs(node), AttachmentPairs(name, a));
    BegunClean("Link", LinkPairs(node));
    BegunClean("Network", NetworkPairs(node) + AttachmentPairs(name, a));
    ConcatClean([Head("Match"), Pair("Name", name)], Begun(Some("Link"), LinkPairs(node)));
    ConcatClean([Head("Match"), Pair("Name", name)] + Begun(Some("Link"), LinkPairs(node)),
                Begun(Some("Network"), NetworkPairs(node) + AttachmentPairs(name, a)));
  }

  // ----- what `check` reads ----------------------------------------------

  lemma PairKeys(key: string, values: seq<string>)
    ensures forall item :: item in Pairs(key, values) ==> item.Pair? && item.key == key && item.value in values
  {
  }

  lemma OwnPairsReferToNothing(node: Node, item: Item)
    requires item.Pair? && item.key in REFERENCES
    ensures item !in LinkPairs(node) && item !in NetworkPairs(node)
  {
    hide NotDhcp, ListOf, LeafOf;
    PairKeys("Address", NotDhcp(ListOf(node, "address")));
    hide Pairs;
  }

  lemma AttachmentRefers(name: string, a: Attachments, item: Item, devices: set<string>)
    requires MastersIn(a.master, devices) && RidersIn(a.vlans, devices) && RidersIn(a.vxlans, devices)
    requires item in AttachmentPairs(name, a)
    ensures item.Pair? && item.value in devices
  {
    PairKeys("VLAN", At(a.vlans, name));
    PairKeys("VXLAN", At(a.vxlans, name));
    hide Pairs;
  }

  /** Everything a rendered `.network` refers to is a virtual interface. */
  lemma ReferencesExist(config: Node, name: string, node: Node, key: string, value: string)
    requires key in REFERENCES && Pair(key, value) in NetworkItems(name, node, AttachmentsOf(config))
    ensures value in VirtualNames(config)
  {
    hide AttachmentsOf, VirtualNames, LinkPairs, NetworkPairs, MastersIn, RidersIn;
    var a := AttachmentsOf(config);
    AttachmentsIn(config);
    OwnPairsReferToNothing(node, Pair(key, value));
    assert Pair(key, value) in AttachmentPairs(name, a);
    AttachmentRefers(name, a, Pair(key, value), VirtualNames(config));
  }

  /** Reading a rendered `.network` back: the interface it matches comes first, and
      its references are virtual interfaces. */
  lemma NetworkReads(config: Node, name: string, node: Node)
    requires CleanConfig(config) && Clean(name) && CleanNode(node)
    ensures var s := SettingsOf(FileText(NetworkItems(name, node, AttachmentsOf(config))));
            && ValuesOf(s, "Match", "Name") != [] && ValuesOf(s, "Match", "Name")[0] == name
            && forall key, v :: key in REFERENCES && v in ValuesOf(s, "Network", key) ==> v in VirtualNames(config)
  {
    hide Clean, CleanItem, CleanNode, CleanConfig, AttachmentsOf, FileText, SettingsOf, LinkPairs, NetworkPairs,
         AttachmentPairs, Begun, VirtualNames;
    var items := NetworkItems(name, node, AttachmentsOf(config));
    NetworkClean(config, name, node);
    ReadsBack(items);
    MeaningCollects(items, "", map[], ("Match", "Name"));
    MatchFirst(name, items);
    forall key, v | key in REFERENCES && v in ValuesOf(SettingsOf(FileText(items)), "Network", key) ensures v in VirtualNames(config) {
      MeaningCollects(items, "", map[], ("Network", key));
      CollectedFrom(items, "", ("Network", key));
      ReferencesExist(config, name, node, key, v);
    }
  }

  lemma MatchFirst(name: string, items: seq<Item>)
    requires |items| >= 2 && items[0] == Head("Match") && items[1] == Pair("Name", name)
    ensures var c := Collected(items, "", ("Match", "Name")); c != [] && c[0] == name
  {
    assert items[1..][0] == items[1];
  }

  // ----- the scan --------------------------------------------------------

  /** The interface a `.network` file claims. */
  function Claims(text: string): Option<string> {
    var matched := ValuesOf(SettingsOf(text), "Match", "Name");
    if matched == [] then None else Some(matched[0])
  }

  ghost predicate RefersWithin(text: string, devices: set<string>) {
    forall key, v :: key in REFERENCES && v in ValuesOf(SettingsOf(text), "Network", key) ==> v in devices
  }

  lemma {:induction false} NoneMissing(refs: seq<string>, devices: set<string>)
    requires forall v :: v in refs ==> v in devices
    ensures FirstMissing(refs, devices).None?
  {
    if refs != [] {
      assert refs[0] in refs;
      NoneMissing(refs[1..], devices);
    }
  }

  lemma {:induction false} NoneDangling(file: string, s: Settings, keys: seq<string>, devices: set<string>)
    requires forall key, v :: key in keys && v in ValuesOf(s, "Network", key) ==> v in devices
    ensures FirstDangling(file, s, keys, devices).None?
  {
    if keys != [] {
      assert keys[0] in keys;
      NoneMissing(ValuesOf(s, "Network", keys[0]), devices);
      NoneDangling(file, s, keys[1..], devices);
    }
  }

  /** Whether two of the files still to be scanned, or one of them and one already
      scanned, claim the same interface. */
  ghost predicate Clash(names: seq<string>, files: Files, claimed: set<string>)
    requires forall i :: 0 <= i < |names| ==> names[i] in files
  {
    || (exists i :: 0 <= i < |names| && EndsWith(names[i], ".network") && Claims(files[names[i]]).Some?
                    && Claims(files[names[i]]).value in claimed)
    || (exists i, j :: 0 <= i < j < |names| && EndsWith(names[i], ".network") && EndsWith(names[j], ".network")
                    && Claims(files[names[i]]).Some? && Claims(files[names[i]]) == Claims(files[names[j]]))
  }

  lemma ClashCons(names: seq<string>, files: Files, claimed: set<string>)
    requires names != [] && forall i :: 0 <= i < |names| ==> names[i] in files
    ensures var claim := Claims(files[names[0]]);
            Clash(names, files, claimed) <==>
              if !EndsWith(names[0], ".network") || claim.None? then Clash(names[1..], files, claimed)
              else claim.value in claimed || Clash(names[1..], files, claimed + {claim.value})
  {
    hide Claims, EndsWith;
    var rest := names[1..];
    assert forall i :: 0 <= i < |rest| ==> rest[i] == names[i + 1];
    assert forall i :: 0 < i < |names| ==> names[i] == rest[i - 1];
  }

  /** The scan complains exactly about clashes, when every reference is good. */
  lemma {:induction false} ScanIff(names: seq<string>, files: Files, devices: set<string>, claimed: map<string, string>)
    requires forall i :: 0 <= i < |names| ==> names[i] in files
    requires forall i :: 0 <= i < |names| ==> EndsWith(names[i], ".network") ==> RefersWithin(files[names[i]], devices)
    ensures CheckNetworks(names, files, devices, claimed).Some? <==> Clash(names, files, claimed.Keys)
    decreases |names|
  {
    hide Clash, EndsWith, SettingsOf, FirstDangling;
    if names != [] {
      ClashCons(names, files, claimed.Keys);
      var claim := Claims(files[names[0]]);
      if EndsWith(names[0], ".network") {
        NoneDangling(names[0], SettingsOf(files[names[0]]), REFERENCES, devices);
      }
      if !EndsWith(names[0], ".network") || claim.None? {
        ScanIff(names[1..], files, devices, claimed);
      } else if claim.value !in claimed {
        assert claimed[claim.value := names[0]].Keys == claimed.Keys + {claim.value};
        ScanIff(names[1..], files, devices, claimed[claim.value := names[0]]);
      }
    } else {
      NoClash(files, claimed.Keys);
    }
  }

  lemma NoClash(files: Files, claimed: set<string>)
    ensures !Clash([], files, claimed)
  {
  }

  // ----- the theorem -----------------------------------------------------

  /** A rendered `.network` claims its own interface and refers to virtual ones. */
  lemma TracedReads(config: Node, o: Origin)
    requires CleanConfig(config) && From(o, config) && !o.Netdev?
    ensures var text := FileText(o.Items(AttachmentsOf(config)));
            Claims(text) == Some(o.name) && RefersWithin(text, VirtualNames(config))
    ensures if o.PhysicalNetwork? then o.name in PhysicalNames(config) else o.name in VirtualNames(config)
  {
    hide Clean, CleanNode, AttachmentsOf, FileText, SettingsOf, Instances, NetworkItems, ValuesOf;
    var kind :| kind in (if o.PhysicalNetwork? then PHYSICAL else VIRTUAL) && Instance(config, kind, o.name, o.node);
    NetworkReads(config, o.name, o.node);
  }

  /** The devices a rendered configuration describes are its virtual interfaces. */
  lemma RenderedDevices(config: Node)
    ensures Devices(RenderFiles(config)) == VirtualNames(config)
    ensures Shaped(RenderFiles(config))
  {
    hide AttachmentsOf, RenderFiles, FileText, VirtualFile, DeviceOf;
    var files, a := RenderFiles(config), AttachmentsOf(config);
    RenderedFiles(config);
    forall file | file in files && DeviceOf(file).Some?
      ensures DeviceOf(file).value in VirtualNames(config) && file == VirtualFile(DeviceOf(file).value, "netdev")
    {
      assert Traced(files, file, config, a);
      var o: Origin :| From(o, config) && file == o.File() && files[file] == FileText(o.Items(a));
      NetworkName(o);
      NetdevIsVirtual(config, o);
    }
    forall name | name in VirtualNames(config) ensures name in Devices(files) {
      DeviceOfNetdev(name);
      assert VirtualFile(name, "netdev") in files;
    }
  }

  lemma NetdevIsVirtual(config: Node, o: Origin)
    requires From(o, config) && o.Netdev?
    ensures o.name in VirtualNames(config)
  {
    hide Instances;
    var kind :| kind in VIRTUAL && Instance(config, kind, o.name, o.node);
  }

  lemma FileTraced(config: Node, file: string) returns (o: Origin)
    requires CleanConfig(config) && file in RenderFiles(config) && EndsWith(file, ".network")
    ensures From(o, config) && !o.Netdev? && file == o.File()
    ensures Claims(RenderFiles(config)[file]) == Some(o.name)
    ensures RefersWithin(RenderFiles(config)[file], VirtualNames(config))
    ensures if o.PhysicalNetwork? then o.name in PhysicalNames(config) else o.name in VirtualNames(config)
  {
    hide AttachmentsOf, RenderFiles, FileText, Claims, RefersWithin, CleanConfig, From, Origin.File, Origin.Items,
         EndsWith;
    var a := AttachmentsOf(config);
    RenderedFiles(config);
    assert Traced(RenderFiles(config), file, config, a);
    o :| From(o, config) && file == o.File() && RenderFiles(config)[file] == FileText(o.Items(a));
    NetworkName(o);
    TracedReads(config, o);
  }

  lemma ClashMeansShared(config: Node)
    requires CleanConfig(config) && Clash(Sorted(RenderFiles(config).Keys), RenderFiles(config), {})
    ensures PhysicalNames(config) * VirtualNames(config) != {}
  {
    hide RenderFiles, Claims, CleanConfig, EndsWith, From, PhysicalNames, VirtualNames, Origin.File, RefersWithin;
    var files := RenderFiles(config);
    var names := Sorted(files.Keys);
    SortedIsSorted(files.Keys);
    hide Sorted;
    var i, j :| 0 <= i < j < |names| && EndsWith(names[i], ".network") && EndsWith(names[j], ".network")
                && Claims(files[names[i]]).Some? && Claims(files[names[i]]) == Claims(files[names[j]]);
    assert names[i] != names[j] && names[i] in names && names[j] in names;
    hide Clash;
    var o := FileTraced(config, names[i]);
    var p := FileTraced(config, names[j]);
    SameNameSameKind(o, p);
    assert o.name in PhysicalNames(config) * VirtualNames(config);
  }

  lemma SharedClaims(config: Node, name: string)
    requires CleanConfig(config) && name in PhysicalNames(config) && name in VirtualNames(config)
    ensures var files, f, g := RenderFiles(config), PhysicalFile(name, "network"), VirtualFile(name, "network");
            && f in files && g in files && f != g && EndsWith(f, ".network") && EndsWith(g, ".network")
            && Claims(files[f]) == Claims(files[g]) == Some(name)
  {
    hide RenderFiles, Claims, CleanConfig, EndsWith, From, PhysicalNames, VirtualNames, Origin.File, RefersWithin,
         PhysicalFile, VirtualFile;
    RenderedFiles(config);
    FileNames(name, "network");
    NetworkFilesEnd(name);
    var o := FileTraced(config, PhysicalFile(name, "network"));
    var p := FileTraced(config, VirtualFile(name, "network"));
    PhysicalOrigin(o, name, PhysicalFile(name, "network"));
    VirtualOrigin(p, name, VirtualFile(name, "network"));
  }

  lemma SharedMeansClash(config: Node, name: string)
    requires CleanConfig(config) && name in PhysicalNames(config) && name in VirtualNames(config)
    ensures Clash(Sorted(RenderFiles(config).Keys), RenderFiles(config), {})
  {
    hide RenderFiles, Claims, CleanConfig, EndsWith, PhysicalNames, VirtualNames, PhysicalFile, VirtualFile, Sorted;
    SharedClaims(config, name);
    var files := RenderFiles(config);
    var names := Sorted(files.Keys);
    var i :| 0 <= i < |names| && names[i] == PhysicalFile(name, "network");
    var j :| 0 <= j < |names| && names[j] == VirtualFile(name, "network");
    assert names[i] != names[j];
  }

  lemma ClashIff(config: Node)
    requires CleanConfig(config)
    ensures Clash(Sorted(RenderFiles(config).Keys), RenderFiles(config), {}) <==> PhysicalNames(config) * VirtualNames(config) != {}
  {
    hide RenderFiles, CleanConfig, Clash, Sorted, PhysicalNames, VirtualNames;
    if Clash(Sorted(RenderFiles(config).Keys), RenderFiles(config), {}) { ClashMeansShared(config); }
    if name :| name in PhysicalNames(config) * VirtualNames(config) { SharedMeansClash(config, name); }
  }

  lemma NetworkFilesEnd(name: string)
    ensures EndsWith(PhysicalFile(name, "network"), ".network") && EndsWith(VirtualFile(name, "network"), ".network")
  {
    NetworkName(PhysicalNetwork(name, EMPTY_INTERIOR));
    NetworkName(VirtualNetwork(name, EMPTY_INTERIOR));
  }

  lemma SameNameSameKind(o: Origin, p: Origin)
    requires !o.Netdev? && !p.Netdev? && o.name == p.name && o.File() != p.File()
    ensures o.PhysicalNetwork? != p.PhysicalNetwork?
  {
  }

  lemma PhysicalOrigin(o: Origin, name: string, file: string)
    requires file == o.File() == PhysicalFile(name, "network")
    ensures o.name == name
  {
    SameFileSameName(o, PhysicalNetwork(name, EMPTY_INTERIOR));
  }

  lemma VirtualOrigin(o: Origin, name: string, file: string)
    requires file == o.File() == VirtualFile(name, "network")
    ensures o.name == name
  {
    SameFileSameName(o, VirtualNetwork(name, EMPTY_INTERIOR));
  }

  lemma {:induction false} NoneBare(devices: seq<string>, files: Files)
    requires forall d :: d in devices ==> VirtualFile(d, "network") in files
    ensures FirstBare(devices, files).None?
  {
    if devices != [] {
      assert devices[0] in devices;
      NoneBare(devices[1..], files);
    }
  }

  lemma NetworksRefer(config: Node, names: seq<string>)
    requires CleanConfig(config) && forall i :: 0 <= i < |names| ==> names[i] in RenderFiles(config)
    ensures forall i :: 0 <= i < |names| ==>
              EndsWith(names[i], ".network") ==> RefersWithin(RenderFiles(config)[names[i]], VirtualNames(config))
  {
    hide RenderFiles, CleanConfig, EndsWith, RefersWithin, Claims, VirtualNames, From, Origin.File;
    forall i | 0 <= i < |names| && EndsWith(names[i], ".network")
      ensures RefersWithin(RenderFiles(config)[names[i]], VirtualNames(config))
    {
      var o := FileTraced(config, names[i]);
    }
  }

  lemma EveryDeviceNetworked(config: Node)
    ensures FirstBare(Sorted(Devices(RenderFiles(config))), RenderFiles(config)).None?
  {
    hide RenderFiles, Sorted, VirtualFile, Devices, VirtualNames, PhysicalNames, AllTraced, Shaped;
    RenderedFiles(config);
    RenderedDevices(config);
    NoneBare(Sorted(Devices(RenderFiles(config))), RenderFiles(config));
  }

  /** For every configuration whose interface names and values survive a line of
      their own: what is rendered passes the check exactly when no name is used
      for both a physical and a virtual interface. Names shared among physical
      types, or among virtual ones, pass: their files overwrite each other. */
  lemma CheckRenderedIff(config: Node)
    requires CleanConfig(config)
    ensures Check(RenderFiles(config)).None? <==> PhysicalNames(config) * VirtualNames(config) == {}
  {
    hide RenderFiles, CleanConfig, Clash, CheckNetworks, FirstBare, EndsWith, RefersWithin, Claims, Sorted,
         VirtualFile, Devices, PhysicalNames, VirtualNames, Shaped;
    var files := RenderFiles(config);
    RenderedDevices(config);
    EveryDeviceNetworked(config);
    NetworksRefer(config, Sorted(files.Keys));
    var none: map<string, string> := map[];
    assert none.Keys == {};
    ScanIff(Sorted(files.Keys), files, Devices(files), none);
    ClashIff(config);
  }

  /** After a successful commit of `next` over `last`, the live virtual devices are
      exactly the virtual interfaces of `next`. */
  lemma CommittedDevices(live: Live, last: Node, next: Node)
    requires Settled(live, RenderFiles(last))
    ensures var after := Applied(live, RenderFiles(last), RenderFiles(next));
            Settled(after, RenderFiles(next)) && after.Keys == VirtualNames(next)
  {
    hide RenderFiles, Applied;
    RenderedDevices(last);
    RenderedDevices(next);
    ApplySettles(live, RenderFiles(last), RenderFiles(next));
  }
}
