/** What the rendered files say about who is enslaved to what and what rides on what,
    followed from the config through the text and back. */
module NetworkdAttach {
  import opened Wrappers
  import opened Order
  import opened Config
  import opened Ini
  import opened Networkd
  import opened NetworkdCheck
  import opened NetworkdTheorem
  import opened NetworkdRebuild

  // ----- the attachments of a config -------------------------------------

  lemma {:induction false} RidersAre(nodes: map<string, Node>, names: seq<string>, leaf: string, acc: map<string, seq<string>>,
                                     under: string, rider: string)
    requires forall i :: 0 <= i < |names| ==> names[i] in nodes
    ensures rider in At(Riders(nodes, names, leaf, acc), under) <==>
            rider in At(acc, under) || (rider in names && LeafOf(nodes[rider], leaf) == Some(under))
    decreases |names|
  {
    hide LeafOf;
    if names != [] {
      assert names == [names[0]] + names[1..];
      match LeafOf(nodes[names[0]], leaf)
      case None => RidersAre(nodes, names[1..], leaf, acc, under, rider);
      case Some(below) =>
        RidersAre(nodes, names[1..], leaf, acc[below := (if below in acc then acc[below] else []) + [names[0]]], under, rider);
    }
  }

  lemma {:induction false} EnslaveIs(members: seq<string>, key: string, name: string, acc: map<string, (string, string)>, member: string)
    ensures var r := Enslave(members, key, name, acc);
            && (member in r <==> member in acc || member in members)
            && (member in members ==> r[member] == (key, name))
            && (member in acc && member !in members ==> r[member] == acc[member])
    decreases |members|
  {
    if members != [] {
      assert members == [members[0]] + members[1..];
      EnslaveIs(members[1..], key, name, acc[members[0] := (key, name)], member);
    }
  }

  predicate Enslaves(nodes: map<string, Node>, master: string, member: string) {
    master in nodes && member in ListOf(nodes[master], "member")
  }

  /** Enslaved by one of these, or as it was before them. */
  lemma {:induction false} MastersAre(nodes: map<string, Node>, names: seq<string>, key: string, acc: map<string, (string, string)>, member: string)
    requires forall i :: 0 <= i < |names| ==> names[i] in nodes
    ensures var r := Masters(nodes, names, key, acc);
            && (member in r <==> member in acc || exists m :: m in names && Enslaves(nodes, m, member))
            && (if exists m :: m in names && Enslaves(nodes, m, member) then
                  member in r && r[member].0 == key && r[member].1 in names && Enslaves(nodes, r[member].1, member)
                else
                  member in acc ==> r[member] == acc[member])
    decreases |names|
  {
    hide ListOf;
    if names != [] {
      assert names == [names[0]] + names[1..];
      var members := ListOf(nodes[names[0]], "member");
      EnslaveIs(members, key, names[0], acc, member);
      assert forall m :: m in names <==> m == names[0] || m in names[1..];
      assert member in members <==> Enslaves(nodes, names[0], member);
      MastersAre(nodes, names[1..], key, Enslave(members, key, names[0], acc), member);
    }
  }

  /** A member's master is a bridge that lists it, or if none does a bond that does. */
  lemma MasterIs(config: Node, member: string)
    ensures var a, bonds, bridges := AttachmentsOf(config), Instances(config, "bonding"), Instances(config, "bridge");
            if exists m :: Enslaves(bridges, m, member) then
              member in a.master && a.master[member].0 == "Bridge" && Enslaves(bridges, a.master[member].1, member)
            else if exists m :: Enslaves(bonds, m, member) then
              member in a.master && a.master[member].0 == "Bond" && Enslaves(bonds, a.master[member].1, member)
            else member !in a.master
  {
    hide Masters, Riders, Instances, Sorted, ListOf;
    var bonds, bridges := Instances(config, "bonding"), Instances(config, "bridge");
    assert forall m :: m in Sorted(bonds.Keys) <==> m in bonds;
    assert forall m :: m in Sorted(bridges.Keys) <==> m in bridges;
    MastersAre(bonds, Sorted(bonds.Keys), "Bond", map[], member);
    MastersAre(bridges, Sorted(bridges.Keys), "Bridge", Masters(bonds, Sorted(bonds.Keys), "Bond", map[]), member);
  }

  /** What rides on an interface: the vlans whose parent it is, the vxlans whose source. */
  lemma RidersOf(config: Node, under: string, rider: string)
    ensures var a, vlans, vxlans := AttachmentsOf(config), Instances(config, "vlan"), Instances(config, "vxlan");
            && (rider in At(a.vlans, under) <==> rider in vlans && LeafOf(vlans[rider], "parent") == Some(under))
            && (rider in At(a.vxlans, under) <==> rider in vxlans && LeafOf(vxlans[rider], "source-interface") == Some(under))
  {
    hide Masters, Riders, Instances, Sorted, LeafOf;
    var vlans, vxlans := Instances(config, "vlan"), Instances(config, "vxlan");
    RidersAre(vlans, Sorted(vlans.Keys), "parent", map[], under, rider);
    RidersAre(vxlans, Sorted(vxlans.Keys), "source-interface", map[], under, rider);
  }

  // ----- what is read back -----------------------------------------------

  lemma {:induction false} ForPairs(key: string, values: seq<string>, other: string)
    ensures For(Pairs(key, values), other) == if key == other then values else []
    ensures NoHeads(Pairs(key, values))
  {
    if values != [] { ForPairs(key, values[1..], other); }
  }

  function MasterPair(name: string, a: Attachments): seq<Item> {
    if name in a.master then [Pair(a.master[name].0, a.master[name].1)] else []
  }

  lemma AttachmentFor(name: string, a: Attachments, key: string)
    ensures NoHeads(AttachmentPairs(name, a))
    ensures For(AttachmentPairs(name, a), key) ==
            For(MasterPair(name, a), key) + (if key == "VLAN" then At(a.vlans, name) else [])
            + (if key == "VXLAN" then At(a.vxlans, name) else [])
  {
    ForPairs("VLAN", At(a.vlans, name), key);
    ForPairs("VXLAN", At(a.vxlans, name), key);
    hide For, Pairs;
    ForConcat(MasterPair(name, a), Pairs("VLAN", At(a.vlans, name)), key);
    ForConcat(MasterPair(name, a) + Pairs("VLAN", At(a.vlans, name)), Pairs("VXLAN", At(a.vxlans, name)), key);
  }

  /** None of an interface's own settings is a reference. */
  lemma OwnFor(node: Node, key: string)
    requires key in REFERENCES
    ensures NoHeads(NetworkPairs(node)) && For(NetworkPairs(node), key) == []
    ensures NoHeads(LinkPairs(node))
  {
    hide LeafOf, ListOf, FlagOf, NotDhcp, Pairs, Opt, For;
    var addresses := ListOf(node, "address");
    var description := Opt("Description", LeafOf(node, "description"));
    var dhcp := Opt("DHCP", if "dhcp" in addresses then Some("yes") else None);
    assert dhcp == (if "dhcp" in addresses then [Pair("DHCP", "yes")] else []) by { OptIs("DHCP", "yes", "dhcp" in addresses); }
    ForOpt("Description", LeafOf(node, "description"), key);
    ForOpt("DHCP", if "dhcp" in addresses then Some("yes") else None, key);
    ForPairs("Address", NotDhcp(addresses), key);
    ForConcat(description, dhcp, key);
    ForConcat(description + dhcp, Pairs("Address", NotDhcp(addresses)), key);
    ForOpt("MTUBytes", LeafOf(node, "mtu"), key);
  }

  lemma OptIs(key: string, value: string, there: bool)
    ensures Opt(key, if there then Some(value) else None) == if there then [Pair(key, value)] else []
  {
  }

  lemma Sectioned(head: string, pairs: seq<Item>, rest: seq<Item>, section: string, at: (string, string))
    requires NoHeads(pairs) && section != at.0 && (rest == [] || rest[0].Head?)
    ensures Collected(Begun(Some(head), pairs) + rest, section, at) == (if head == at.0 then For(pairs, at.1) else []) + Collected(rest, section, at)
  {
    var items := Begun(Some(head), pairs) + rest;
    if pairs == [] {
      assert items == rest && For(pairs, at.1) == [];
    } else {
      assert items[0] == Head(head) && items[1..] == pairs + rest;
      CollectedConcat(pairs, rest, head, at);
      CollectedPairs(pairs, head, at);
      HeadResets(rest, head, section, at);
    }
  }

  lemma HeadResets(rest: seq<Item>, one: string, other: string, at: (string, string))
    requires rest == [] || rest[0].Head?
    ensures Collected(rest, one, at) == Collected(rest, other, at)
  {
  }

  lemma AfterMatch(name: string, rest: seq<Item>, at: (string, string))
    requires at.0 != "Match"
    ensures Collected([Head("Match"), Pair("Name", name)] + rest, "", at) == Collected(rest, "Match", at)
  {
    var items := [Head("Match"), Pair("Name", name)] + rest;
    assert items[0] == Head("Match") && items[1..] == [Pair("Name", name)] + rest && items[1..][1..] == rest;
  }

  lemma LinkThenNetwork(link: seq<Item>, network: seq<Item>, key: string)
    requires NoHeads(link) && NoHeads(network)
    ensures Collected(Begun(Some("Link"), link) + Begun(Some("Network"), network), "Match", ("Network", key)) == For(network, key)
  {
    hide For, NoHeads, Begun;
    var last := Begun(Some("Network"), network);
    BegunHead("Network", network);
    Sectioned("Link", link, last, "Match", ("Network", key));
    Sectioned("Network", network, [], "Match", ("Network", key));
    assert last + [] == last;
  }

  lemma ItemsAre(name: string, node: Node, a: Attachments)
    ensures NetworkItems(name, node, a) ==
            [Head("Match"), Pair("Name", name)]
            + (Begun(Some("Link"), LinkPairs(node)) + Begun(Some("Network"), NetworkPairs(node) + AttachmentPairs(name, a)))
  {
    hide LinkPairs, NetworkPairs, AttachmentPairs, Begun;
  }

  /** The references in the network section are those of the attachments. */
  lemma NetworkCollected(name: string, node: Node, a: Attachments, key: string)
    requires key in REFERENCES
    ensures Collected(NetworkItems(name, node, a), "", ("Network", key)) == For(AttachmentPairs(name, a), key)
  {
    OwnFor(node, key);
    AttachmentFor(name, a, key);
    hide LinkPairs, NetworkPairs, AttachmentPairs, For, Begun, Collected, NoHeads;
    var link, network := LinkPairs(node), NetworkPairs(node) + AttachmentPairs(name, a);
    ForConcat(NetworkPairs(node), AttachmentPairs(name, a), key);
    HeadlessConcat(NetworkPairs(node), AttachmentPairs(name, a));
    var rest := Begun(Some("Link"), link) + Begun(Some("Network"), network);
    ItemsAre(name, node, a);
    hide NetworkItems;
    AfterMatch(name, rest, ("Network", key));
    LinkThenNetwork(link, network, key);
    assert [] + For(AttachmentPairs(name, a), key) == For(AttachmentPairs(name, a), key);
  }

  lemma BegunHead(head: string, pairs: seq<Item>)
    ensures Begun(Some(head), pairs) == [] || Begun(Some(head), pairs)[0].Head?
  {
  }

  /** For every clean config: the `.network` of an interface names as its master exactly
      the bridge or bond that lists it, and as its vlans and vxlans exactly those that
      ride on it. */
  lemma NetworkSays(config: Node, name: string, node: Node, key: string, value: string)
    requires CleanConfig(config) && Clean(name) && CleanNode(node) && key in REFERENCES
    ensures var bonds, bridges := Instances(config, "bonding"), Instances(config, "bridge");
            var vlans, vxlans := Instances(config, "vlan"), Instances(config, "vxlan");
            var said := ValuesOf(SettingsOf(FileText(NetworkItems(name, node, AttachmentsOf(config)))), "Network", key);
            && (key == "VLAN" ==> (value in said <==> value in vlans && LeafOf(vlans[value], "parent") == Some(name)))
            && (key == "VXLAN" ==> (value in said <==> value in vxlans && LeafOf(vxlans[value], "source-interface") == Some(name)))
            && (key == "Bridge" ==> (said != [] <==> exists m :: Enslaves(bridges, m, name)))
            && (key == "Bridge" && value in said ==> Enslaves(bridges, value, name))
            && (key == "Bond" ==> (said != [] <==> (exists m :: Enslaves(bonds, m, name)) && !exists m :: Enslaves(bridges, m, name)))
            && (key == "Bond" && value in said ==> Enslaves(bonds, value, name))
  {
    var a := AttachmentsOf(config);
    NetworkClean(config, name, node);
    RidersOf(config, name, value);
    MasterIs(config, name);
    hide AttachmentsOf, FileText, SettingsOf, NetworkItems, AllClean, CleanConfig, Instances, LeafOf, ListOf, CleanItem;
    var items := NetworkItems(name, node, a);
    CleanEach(items);
    ReadsBack(items);
    MeaningCollects(items, "", map[], ("Network", key));
    NetworkCollected(name, node, a, key);
    AttachmentFor(name, a, key);
    MasterFor(name, a, key);
  }

  lemma MasterFor(name: string, a: Attachments, key: string)
    ensures For(MasterPair(name, a), key) == if name in a.master && a.master[name].0 == key then [a.master[name].1] else []
  {
    var pairs := MasterPair(name, a);
    if pairs != [] { assert pairs[1..] == []; }
  }
}
