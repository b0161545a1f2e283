/** Which change to the config destroys a device: the creation-time leaves of its type,
    followed from the config through the rendered text and back through the reader. */
module NetworkdRebuild {
  import opened Wrappers
  import opened Text
  import opened Order
  import opened Config
  import opened Ini
  import opened Networkd
  import opened NetworkdDevices
  import opened NetworkdCheck
  import opened NetworkdTheorem

  // ----- reading a rendered `.netdev` ------------------------------------

  /** The values a list of settings gives a key. */
  function For(pairs: seq<Item>, key: string): seq<string> {
    if pairs == [] then []
    else (if pairs[0].Pair? && pairs[0].key == key then [pairs[0].value] else []) + For(pairs[1..], key)
  }

  predicate NoHeads(pairs: seq<Item>) {
    forall i :: 0 <= i < |pairs| ==> pairs[i].Pair?
  }

  function One(value: Option<string>): seq<string> {
    if value.Some? then [value.value] else []
  }

  lemma {:induction false} ForConcat(a: seq<Item>, b: seq<Item>, key: string)
    ensures For(a + b, key) == For(a, key) + For(b, key)
  {
    if a == [] {
      assert a + b == b;
    } else {
      assert (a + b)[1..] == a[1..] + b;
      ForConcat(a[1..], b, key);
    }
  }

  lemma ForOpt(key: string, value: Option<string>, other: string)
    ensures For(Opt(key, value), other) == if key == other then One(value) else []
    ensures NoHeads(Opt(key, value))
  {
    if value.Some? { assert [Pair(key, value.value)][1..] == []; }
  }

  lemma {:induction false} CollectedPairs(pairs: seq<Item>, section: string, at: (string, string))
    requires NoHeads(pairs)
    ensures Collected(pairs, section, at) == if section == at.0 then For(pairs, at.1) else []
  {
    if pairs != [] { CollectedPairs(pairs[1..], section, at); }
  }

  lemma {:induction false} CollectedConcat(pairs: seq<Item>, rest: seq<Item>, section: string, at: (string, string))
    requires NoHeads(pairs)
    ensures Collected(pairs + rest, section, at) == Collected(pairs, section, at) + Collected(rest, section, at)
  {
    if pairs == [] {
      assert pairs + rest == rest;
    } else {
      assert (pairs + rest)[1..] == pairs[1..] + rest;
      CollectedConcat(pairs[1..], rest, section, at);
    }
  }

  lemma {:induction false} MeaningHas(items: seq<Item>, section: string, acc: Settings, at: (string, string))
    ensures at in Meaning(items, section, acc) <==> at in acc || Collected(items, section, at) != []
  {
    if items != [] {
      match items[0]
      case Head(name) => MeaningHas(items[1..], name, acc, at);
      case Pair(key, value) => MeaningHas(items[1..], section, Added(acc, (section, key), value), at);
    }
  }

  /** The settings every `.netdev` starts with. */
  function Common(kind: string, name: string, node: Node): seq<Item> {
    [Pair("Name", name), Pair("Kind", kind)] + Opt("Description", LeafOf(node, "description"))
    + Opt("MTUBytes", LeafOf(node, "mtu")) + Opt("MACAddress", LeafOf(node, "mac"))
  }

  const COMMON := {"Name", "Kind", "Description", "MTUBytes", "MACAddress"}

  lemma CommonFor(kind: string, name: string, node: Node, key: string)
    ensures NoHeads(Common(kind, name, node))
    ensures key !in COMMON ==> For(Common(kind, name, node), key) == []
    ensures For(Common(kind, name, node), "Kind") == [kind]
  {
    hide Opt, LeafOf, For, NoHeads;
    var first := [Pair("Name", name), Pair("Kind", kind)];
    var a, b, c := Opt("Description", LeafOf(node, "description")), Opt("MTUBytes", LeafOf(node, "mtu")), Opt("MACAddress", LeafOf(node, "mac"));
    FirstTwo(kind, name, key);
    FirstTwo(kind, name, "Kind");
    forall k | k in {key, "Kind"} ensures For(Common(kind, name, node), k) == For(first, k) + For(a, k) + For(b, k) + For(c, k) {
      ForConcat(first, a, k);
      ForConcat(first + a, b, k);
      ForConcat(first + a + b, c, k);
    }
    ForOpt("Description", LeafOf(node, "description"), key);
    ForOpt("MTUBytes", LeafOf(node, "mtu"), key);
    ForOpt("MACAddress", LeafOf(node, "mac"), key);
    ForOpt("Description", LeafOf(node, "description"), "Kind");
    ForOpt("MTUBytes", LeafOf(node, "mtu"), "Kind");
    ForOpt("MACAddress", LeafOf(node, "mac"), "Kind");
    HeadlessConcat(first, a);
    HeadlessConcat(first + a, b);
    HeadlessConcat(first + a + b, c);
  }

  lemma ForOne(key: string, value: string, other: string)
    ensures For([Pair(key, value)], other) == if key == other then [value] else []
  {
    assert [Pair(key, value)][1..] == [];
  }

  lemma ForTwo(a: (string, string), b: (string, string), key: string)
    ensures For([Pair(a.0, a.1), Pair(b.0, b.1)], key) == (if a.0 == key then [a.1] else []) + (if b.0 == key then [b.1] else [])
  {
    assert [Pair(a.0, a.1), Pair(b.0, b.1)] == [Pair(a.0, a.1)] + [Pair(b.0, b.1)];
    hide For;
    ForConcat([Pair(a.0, a.1)], [Pair(b.0, b.1)], key);
    ForOne(a.0, a.1, key);
    ForOne(b.0, b.1, key);
  }

  lemma NotCommon(key: string)
    requires key !in COMMON
    ensures key != "Name" && key != "Kind"
  {
  }

  lemma FirstTwo(kind: string, name: string, key: string)
    ensures var first := [Pair("Name", name), Pair("Kind", kind)];
            && NoHeads(first) && (key !in COMMON ==> For(first, key) == []) && For(first, "Kind") == [kind]
  {
    hide For;
    ForTwo(("Name", name), ("Kind", kind), key);
    ForTwo(("Name", name), ("Kind", kind), "Kind");
    if key !in COMMON { NotCommon(key); }
  }

  lemma HeadlessConcat(a: seq<Item>, b: seq<Item>)
    requires NoHeads(a) && NoHeads(b)
    ensures NoHeads(a + b)
  {
  }

  // ----- the settings of each kind ---------------------------------------

  /** The config leaf behind a creation-time setting. */
  function LeafBehind(kind: string, key: string): string {
    if kind == "bond" then
      (if key == "Mode" then "mode" else if key == "TransmitHashPolicy" then "hash-policy" else "lacp-rate")
    else if kind == "vlan" then "id"
    else
      (if key == "VNI" then "vni" else if key == "Remote" then "remote" else if key == "Group" then "group"
       else if key == "Local" then "source-address" else if key == "DestinationPort" then "port" else "ttl")
  }

  /** What a node says about a creation-time setting. */
  function Said(kind: string, key: string, node: Node): seq<string> {
    if key == "Independent" then (if LeafOf(node, "source-interface").None? then ["true"] else [])
    else One(LeafOf(node, LeafBehind(kind, key)))
  }

  predicate Watched(kind: string, key: string) {
    kind in NETDEVS && key in Recreate(kind).value
  }

  lemma VlanFor(node: Node)
    ensures var pairs := KindPairs("vlan", node).1; NoHeads(pairs) && For(pairs, "Id") == Said("vlan", "Id", node)
  {
    hide Opt, LeafOf, For;
    ForOpt("Id", LeafOf(node, "id"), "Id");
  }

  /** A run of optional settings. */
  function Opts(all: seq<(string, Option<string>)>): seq<Item> {
    if all == [] then [] else Opts(all[..|all| - 1]) + Opt(all[|all| - 1].0, all[|all| - 1].1)
  }

  predicate DifferentKeys(all: seq<(string, Option<string>)>) {
    forall i, j :: 0 <= i < j < |all| ==> all[i].0 != all[j].0
  }

  lemma OptsCons(all: seq<(string, Option<string>)>, key: string)
    requires all != []
    ensures For(Opts(all), key) == For(Opts(all[..|all| - 1]), key) + if all[|all| - 1].0 == key then One(all[|all| - 1].1) else []
    ensures NoHeads(Opts(all[..|all| - 1])) ==> NoHeads(Opts(all))
  {
    hide For, Opt, NoHeads;
    var front, last := all[..|all| - 1], all[|all| - 1];
    ForOpt(last.0, last.1, key);
    ForConcat(Opts(front), Opt(last.0, last.1), key);
    if NoHeads(Opts(front)) { HeadlessConcat(Opts(front), Opt(last.0, last.1)); }
  }

  lemma {:induction false} OptsMissing(all: seq<(string, Option<string>)>, key: string)
    requires forall i :: 0 <= i < |all| ==> all[i].0 != key
    ensures For(Opts(all), key) == []
    decreases |all|
  {
    hide For, Opts;
    if all == [] {
      NoOpts(key);
    } else {
      OptsCons(all, key);
      OptsMissing(all[..|all| - 1], key);
    }
  }

  lemma NoOpts(key: string)
    ensures For(Opts([]), key) == [] && NoHeads(Opts([]))
  {
  }

  lemma {:induction false} OptsHeadless(all: seq<(string, Option<string>)>)
    ensures NoHeads(Opts(all))
    decreases |all|
  {
    hide For, Opts, NoHeads;
    if all == [] {
      NoOpts("");
    } else {
      OptsCons(all, "");
      OptsHeadless(all[..|all| - 1]);
    }
  }

  lemma {:induction false} OptsAt(all: seq<(string, Option<string>)>, i: nat)
    requires DifferentKeys(all) && i < |all|
    ensures For(Opts(all), all[i].0) == One(all[i].1)
    decreases |all|
  {
    hide For, Opts, One;
    var front := all[..|all| - 1];
    OptsCons(all, all[i].0);
    if i == |all| - 1 { OptsMissing(front, all[i].0); } else { OptsAt(front, i); }
  }

  lemma OptsFor(all: seq<(string, Option<string>)>, key: string)
    ensures NoHeads(Opts(all))
    ensures (forall i :: 0 <= i < |all| ==> all[i].0 != key) ==> For(Opts(all), key) == []
    ensures DifferentKeys(all) ==> forall i :: 0 <= i < |all| && all[i].0 == key ==> For(Opts(all), key) == One(all[i].1)
  {
    hide For, Opts, One, NoHeads, DifferentKeys;
    OptsHeadless(all);
    if forall i :: 0 <= i < |all| ==> all[i].0 != key { OptsMissing(all, key); }
    if DifferentKeys(all) {
      forall i | 0 <= i < |all| && all[i].0 == key ensures For(Opts(all), key) == One(all[i].1) { OptsAt(all, i); }
    }
  }

  lemma Nothing(key: string)
    ensures For([], key) == [] && NoHeads([])
  {
  }

  function BondOpts(node: Node): seq<(string, Option<string>)> {
    [("Mode", LeafOf(node, "mode")), ("TransmitHashPolicy", LeafOf(node, "hash-policy")),
     ("LACPTransmitRate", LeafOf(node, "lacp-rate")), ("MinLinks", LeafOf(node, "min-links")),
     ("PrimarySlave", LeafOf(node, "primary"))]
  }

  function TunnelOpts(node: Node): seq<(string, Option<string>)> {
    [("VNI", LeafOf(node, "vni")), ("Remote", LeafOf(node, "remote")), ("Group", LeafOf(node, "group")),
     ("Local", LeafOf(node, "source-address")), ("DestinationPort", LeafOf(node, "port")), ("TTL", LeafOf(node, "ttl"))]
  }

  lemma BondIsOpts(node: Node)
    ensures KindPairs("bond", node).1 == Opts(BondOpts(node))
  {
    hide Opt, LeafOf;
    var all := BondOpts(node);
    assert all[..4][..3] == all[..3] && all[..3][..2] == all[..2] && all[..2][..1] == all[..1] && all[..1][..0] == [];
    assert Opts(all[..1]) == Opt("Mode", LeafOf(node, "mode"));
    assert Opts(all[..2]) == Opts(all[..1]) + Opt("TransmitHashPolicy", LeafOf(node, "hash-policy"));
    assert Opts(all[..3]) == Opts(all[..2]) + Opt("LACPTransmitRate", LeafOf(node, "lacp-rate"));
    assert Opts(all[..4]) == Opts(all[..3]) + Opt("MinLinks", LeafOf(node, "min-links"));
  }

  lemma TunnelIsOpts(node: Node)
    ensures KindPairs("vxlan", node).1 ==
            Opts(TunnelOpts(node)) + if LeafOf(node, "source-interface").None? then [Pair("Independent", "true")] else []
  {
    hide Opt, LeafOf;
    var all := TunnelOpts(node);
    assert all[..5][..4] == all[..4] && all[..4][..3] == all[..3] && all[..3][..2] == all[..2] && all[..2][..1] == all[..1] && all[..1][..0] == [];
    assert Opts(all[..1]) == Opt("VNI", LeafOf(node, "vni"));
    assert Opts(all[..2]) == Opts(all[..1]) + Opt("Remote", LeafOf(node, "remote"));
    assert Opts(all[..3]) == Opts(all[..2]) + Opt("Group", LeafOf(node, "group"));
    assert Opts(all[..4]) == Opts(all[..3]) + Opt("Local", LeafOf(node, "source-address"));
    assert Opts(all[..5]) == Opts(all[..4]) + Opt("DestinationPort", LeafOf(node, "port"));
  }

  lemma BondFor(node: Node, key: string)
    requires key in ["Mode", "TransmitHashPolicy", "LACPTransmitRate"]
    ensures var pairs := KindPairs("bond", node).1; NoHeads(pairs) && For(pairs, key) == Said("bond", key, node)
  {
    hide Opts, LeafOf, For, NoHeads;
    var all := BondOpts(node);
    BondIsOpts(node);
    OptsFor(all, key);
    assert all[0].0 == "Mode" && all[1].0 == "TransmitHashPolicy" && all[2].0 == "LACPTransmitRate";
  }

  lemma TunnelKeys(node: Node)
    ensures DifferentKeys(TunnelOpts(node))
    ensures forall i :: 0 <= i < |TunnelOpts(node)| ==> TunnelOpts(node)[i].0 != "Independent"
  {
    hide LeafOf;
  }

  lemma TunnelLeaf(node: Node, key: string) returns (i: nat)
    requires key in Recreate("vxlan").value && key != "Independent"
    ensures i < |TunnelOpts(node)| && TunnelOpts(node)[i] == (key, LeafOf(node, LeafBehind("vxlan", key)))
  {
    hide LeafOf;
    i := if key == "VNI" then 0 else if key == "Remote" then 1 else if key == "Group" then 2
         else if key == "Local" then 3 else if key == "DestinationPort" then 4 else 5;
  }

  lemma TunnelOptsFor(node: Node, key: string)
    requires key in Recreate("vxlan").value
    ensures For(Opts(TunnelOpts(node)), key) == if key == "Independent" then [] else Said("vxlan", key, node)
    ensures NoHeads(Opts(TunnelOpts(node)))
  {
    TunnelKeys(node);
    OptsFor(TunnelOpts(node), key);
    if key != "Independent" {
      var i := TunnelLeaf(node, key);
      hide TunnelOpts, Opts, LeafOf, For, NoHeads, LeafBehind;
      assert For(Opts(TunnelOpts(node)), key) == One(TunnelOpts(node)[i].1);
    }
  }

  lemma TunnelFor(node: Node, key: string)
    requires key in Recreate("vxlan").value
    ensures var pairs := KindPairs("vxlan", node).1; NoHeads(pairs) && For(pairs, key) == Said("vxlan", key, node)
  {
    TunnelOptsFor(node, key);
    TunnelIsOpts(node);
    hide Opts, TunnelOpts, LeafOf, For, NoHeads, KindPairs, LeafBehind, Recreate;
    var alone := if LeafOf(node, "source-interface").None? then Some("true") else None;
    ForOpt("Independent", alone, key);
    ForConcat(Opts(TunnelOpts(node)), Opt("Independent", alone), key);
    HeadlessConcat(Opts(TunnelOpts(node)), Opt("Independent", alone));
  }

  lemma BridgeHeadless(node: Node)
    ensures NoHeads(KindPairs("bridge", node).1)
  {
    hide LeafOf;
  }

  lemma KindFor(kind: string, node: Node, key: string)
    requires kind in NETDEVS
    ensures NoHeads(KindPairs(kind, node).1) && KindPairs(kind, node).0 != "NetDev"
    ensures Watched(kind, key) ==> For(KindPairs(kind, node).1, key) == Said(kind, key, node) && key !in COMMON
  {
    hide LeafOf, For, NoHeads, Said, Opt, FlagOf;
    if kind == "bond" {
      BondFor(node, "Mode");
      if Watched(kind, key) { BondFor(node, key); }
    } else if kind == "vlan" {
      VlanFor(node);
    } else if kind == "bridge" {
      BridgeHeadless(node);
    } else {
      TunnelFor(node, "VNI");
      if Watched(kind, key) { TunnelFor(node, key); }
    }
  }

  lemma BegunCollected(head: string, pairs: seq<Item>, at: (string, string))
    requires NoHeads(pairs) && head != "NetDev"
    ensures Collected(Begun(Some(head), pairs), "NetDev", at) == if at.0 == head then For(pairs, at.1) else []
  {
    if pairs != [] {
      var items := Begun(Some(head), pairs);
      assert items[1..] == pairs;
      CollectedPairs(pairs, head, at);
    } else {
      assert For(pairs, at.1) == [];
    }
  }

  lemma NetdevCollected(kind: string, name: string, node: Node, at: (string, string))
    requires kind in NETDEVS
    ensures var pairs := KindPairs(kind, node);
            Collected(NetdevItems(kind, name, node), "", at) ==
            (if at.0 == "NetDev" then For(Common(kind, name, node), at.1) else [])
            + (if at.0 == pairs.0 then For(pairs.1, at.1) else [])
  {
    var pairs, common := KindPairs(kind, node), Common(kind, name, node);
    var items := NetdevItems(kind, name, node);
    NetdevIs(kind, name, node);
    hide NetdevItems, Common, KindPairs, For, NoHeads, LeafOf;
    assert items[0] == Head("NetDev") && items[1..] == common + Begun(Some(pairs.0), pairs.1);
    KindFor(kind, node, "");
    CommonFor(kind, name, node, "");
    CollectedConcat(common, Begun(Some(pairs.0), pairs.1), "NetDev", at);
    CollectedPairs(common, "NetDev", at);
    BegunCollected(pairs.0, pairs.1, at);
  }

  // ----- rendered settings are clean -------------------------------------

  lemma {:induction false} OptsClean(all: seq<(string, Option<string>)>)
    requires forall i :: 0 <= i < |all| ==> PlainKey(all[i].0) && (all[i].1.Some? ==> Clean(all[i].1.value))
    ensures AllClean(Opts(all))
    decreases |all|
  {
    hide PlainKey, Clean;
    if all != [] {
      var last := all[|all| - 1];
      OptsClean(all[..|all| - 1]);
      ConcatClean(Opts(all[..|all| - 1]), Opt(last.0, last.1));
    }
  }

  lemma LeafClean(node: Node, name: string)
    requires CleanNode(node)
    ensures LeafOf(node, name).Some? ==> Clean(LeafOf(node, name).value)
  {
    hide Clean, ListOf;
    var values := ListOf(node, name);
    if |values| == 1 { assert values[0] in values; }
  }

  predicate Letters(s: string) {
    s != [] && forall i :: 0 <= i < |s| ==> 'A' <= s[i] <= 'Z' || 'a' <= s[i] <= 'z'
  }

  lemma WordIsPlain(s: string)
    requires Letters(s)
    ensures PlainKey(s) && Clean(s)
  {
  }

  lemma BondPlain()
    ensures PlainKey("Mode") && PlainKey("TransmitHashPolicy") && PlainKey("LACPTransmitRate")
    ensures PlainKey("MinLinks") && PlainKey("PrimarySlave")
  {
    hide PlainKey, Clean;
    WordIsPlain("Mode");
    WordIsPlain("TransmitHashPolicy");
    WordIsPlain("LACPTransmitRate");
    WordIsPlain("MinLinks");
    WordIsPlain("PrimarySlave");
  }

  lemma TunnelPlain()
    ensures PlainKey("VNI") && PlainKey("Remote") && PlainKey("Group")
    ensures PlainKey("Local") && PlainKey("DestinationPort") && PlainKey("TTL")
  {
    hide PlainKey, Clean;
    WordIsPlain("VNI");
    WordIsPlain("Remote");
    WordIsPlain("Group");
    WordIsPlain("Local");
    WordIsPlain("DestinationPort");
    WordIsPlain("TTL");
  }

  lemma BridgePlain()
    ensures PlainKey("STP") && PlainKey("Priority") && PlainKey("AgeingTimeSec")
    ensures Clean("yes") && Clean("no")
  {
    hide PlainKey, Clean;
    WordIsPlain("STP");
    WordIsPlain("Priority");
    WordIsPlain("AgeingTimeSec");
    WordIsPlain("yes");
    WordIsPlain("no");
  }

  lemma CommonPlain(kind: string)
    requires kind in NETDEVS
    ensures PlainKey("Name") && PlainKey("Kind") && PlainKey("Description")
    ensures PlainKey("MTUBytes") && PlainKey("MACAddress")
    ensures Clean(kind)
  {
    hide PlainKey, Clean;
    WordIsPlain("Name");
    WordIsPlain("Kind");
    WordIsPlain("Description");
    WordIsPlain("MTUBytes");
    WordIsPlain("MACAddress");
    WordIsPlain(kind);
  }

  /** A `.netdev`, section by section. */
  lemma NetdevIs(kind: string, name: string, node: Node)
    ensures NetdevItems(kind, name, node) ==
            [Head("NetDev")] + Common(kind, name, node) + Begun(Some(KindPairs(kind, node).0), KindPairs(kind, node).1)
  {
    hide LeafOf, Opt, KindPairs, Begun;
    assert [Head("NetDev")] + [Pair("Name", name), Pair("Kind", kind)] == [Head("NetDev"), Pair("Name", name), Pair("Kind", kind)];
  }

  lemma BondClean(node: Node)
    requires CleanNode(node)
    ensures AllClean(KindPairs("bond", node).1)
  {
    hide PlainKey, Clean, CleanNode, LeafOf;
    BondIsOpts(node);
    LeafClean(node, "mode");
    LeafClean(node, "hash-policy");
    LeafClean(node, "lacp-rate");
    LeafClean(node, "min-links");
    LeafClean(node, "primary");
    BondPlain();
    hide Opts, AllClean, KindPairs;
    OptsClean(BondOpts(node));
  }

  lemma TunnelOptsClean(node: Node)
    requires CleanNode(node)
    ensures AllClean(Opts(TunnelOpts(node)))
  {
    hide PlainKey, Clean, CleanNode, LeafOf;
    LeafClean(node, "vni");
    LeafClean(node, "remote");
    LeafClean(node, "group");
    LeafClean(node, "source-address");
    LeafClean(node, "port");
    LeafClean(node, "ttl");
    TunnelPlain();
    hide Opts, AllClean;
    OptsClean(TunnelOpts(node));
  }

  lemma TunnelClean(node: Node)
    requires CleanNode(node)
    ensures AllClean(KindPairs("vxlan", node).1)
  {
    assert PlainKey("Independent") && Clean("true");
    TunnelIsOpts(node);
    TunnelOptsClean(node);
    PlainPair("Independent", "true");
    NothingClean();
    hide PlainKey, Clean, LeafOf, Opts, AllClean, KindPairs, CleanNode, TunnelOpts;
    ConcatClean(Opts(TunnelOpts(node)), if LeafOf(node, "source-interface").None? then [Pair("Independent", "true")] else []);
  }

  lemma BridgeClean(node: Node)
    requires CleanNode(node)
    ensures AllClean(KindPairs("bridge", node).1)
  {
    BridgePlain();
    hide PlainKey, Clean, AllClean, Opt, CleanNode, FlagOf;
    PlainPair("STP", if FlagOf(node, "stp") then "yes" else "no");
    OptClean("Priority", node, "priority");
    OptClean("AgeingTimeSec", node, "aging-time");
    var stp := [Pair("STP", if FlagOf(node, "stp") then "yes" else "no")];
    ConcatClean(stp, Opt("Priority", LeafOf(node, "priority")));
    ConcatClean(stp + Opt("Priority", LeafOf(node, "priority")), Opt("AgeingTimeSec", LeafOf(node, "aging-time")));
  }

  lemma VlanClean(node: Node)
    requires CleanNode(node)
    ensures AllClean(KindPairs("vlan", node).1)
  {
    assert PlainKey("Id");
    hide PlainKey, Clean, AllClean, Opt, CleanNode;
    OptClean("Id", node, "id");
  }

  lemma KindClean(kind: string, node: Node)
    requires CleanNode(node) && kind in NETDEVS
    ensures AllClean(KindPairs(kind, node).1) && CleanItem(Head(KindPairs(kind, node).0))
  {
    assert CleanItem(Head("Bond")) && CleanItem(Head("VLAN")) && CleanItem(Head("VXLAN")) && CleanItem(Head("Bridge"));
    hide CleanItem, AllClean, CleanNode, LeafOf, Opt, FlagOf;
    if kind == "bond" { BondClean(node); }
    else if kind == "vlan" { VlanClean(node); }
    else if kind == "bridge" { BridgeClean(node); }
    else { TunnelClean(node); }
  }

  lemma CommonClean(kind: string, name: string, node: Node)
    requires CleanNode(node) && Clean(name) && kind in NETDEVS
    ensures AllClean(Common(kind, name, node))
  {
    CommonPlain(kind);
    hide PlainKey, Clean, Opt, CleanNode, LeafOf;
    var first := [Pair("Name", name), Pair("Kind", kind)];
    assert AllClean(first);
    hide AllClean;
    var a, b, c := Opt("Description", LeafOf(node, "description")), Opt("MTUBytes", LeafOf(node, "mtu")), Opt("MACAddress", LeafOf(node, "mac"));
    OptClean("Description", node, "description");
    OptClean("MTUBytes", node, "mtu");
    OptClean("MACAddress", node, "mac");
    ConcatClean(first, a);
    ConcatClean(first + a, b);
    ConcatClean(first + a + b, c);
  }

  lemma NetdevClean(kind: string, name: string, node: Node)
    requires CleanNode(node) && Clean(name) && kind in NETDEVS
    ensures AllClean(NetdevItems(kind, name, node))
  {
    hide NetdevItems, Common, KindPairs, CleanNode, Begun, Clean;
    NetdevIs(kind, name, node);
    CommonClean(kind, name, node);
    KindClean(kind, node);
    assert CleanItem(Head("NetDev")) by { HeadClean(); }
    hide CleanItem;
    var pairs, common := KindPairs(kind, node), Common(kind, name, node);
    assert AllClean([Head("NetDev")]);
    hide AllClean;
    BegunClean(pairs.0, pairs.1);
    ConcatClean([Head("NetDev")], common);
    ConcatClean([Head("NetDev")] + common, Begun(Some(pairs.0), pairs.1));
  }

  lemma HeadClean()
    ensures CleanItem(Head("NetDev"))
  {
  }

  // ----- when a device is rebuilt ----------------------------------------

  function NetdevText(kind: string, name: string, node: Node): string {
    FileText(NetdevItems(kind, name, node))
  }

  lemma NetdevReads(kind: string, name: string, node: Node, at: (string, string))
    requires CleanNode(node) && Clean(name) && kind in NETDEVS
    ensures var s, c := SettingsOf(NetdevText(kind, name, node)), Collected(NetdevItems(kind, name, node), "", at);
            (at in s <==> c != []) && ValuesOf(s, at.0, at.1) == c
  {
    hide NetdevItems, FileText, SettingsOf, AllClean, CleanNode, Clean;
    var items := NetdevItems(kind, name, node);
    NetdevClean(kind, name, node);
    assert forall i :: 0 <= i < |items| ==> CleanItem(items[i]) by { CleanEach(items); }
    ReadsBack(items);
    MeaningHas(items, "", map[], at);
    MeaningCollects(items, "", map[], at);
  }

  lemma CleanEach(items: seq<Item>)
    requires AllClean(items)
    ensures forall i :: 0 <= i < |items| ==> CleanItem(items[i])
  {
    hide CleanItem;
  }

  lemma KindReads(kind: string, name: string, node: Node)
    requires CleanNode(node) && Clean(name) && kind in NETDEVS
    ensures KindOf(NetdevText(kind, name, node)) == Some(kind)
  {
    hide NetdevItems, FileText, SettingsOf, CleanNode, Clean, KindPairs, Common, For, ValuesOf;
    NetdevReads(kind, name, node, ("NetDev", "Kind"));
    NetdevCollected(kind, name, node, ("NetDev", "Kind"));
    CommonFor(kind, name, node, "Kind");
    KindFor(kind, node, "");
  }

  /** A watched setting reads back as what the config says, in one section only. */
  lemma WatchedReads(kind: string, name: string, node: Node, key: string)
    requires CleanNode(node) && Clean(name) && Watched(kind, key)
    ensures Anywhere(SettingsOf(NetdevText(kind, name, node)), key) ==
            if Said(kind, key, node) == [] then None else Some(Said(kind, key, node))
  {
    assert kind in NETDEVS;
    var s, section := SettingsOf(NetdevText(kind, name, node)), KindPairs(kind, node).0;
    hide NetdevItems, FileText, SettingsOf, CleanNode, Clean, KindPairs, Common, For, Said, NetdevText, Watched;
    forall at: (string, string) | at.1 == key
      ensures at in s <==> at.0 == section && Said(kind, key, node) != []
      ensures at in s ==> s[at] == Said(kind, key, node)
    {
      NetdevReads(kind, name, node, at);
      NetdevCollected(kind, name, node, at);
      CommonFor(kind, name, node, key);
      KindFor(kind, node, key);
    }
    OneSection(s, section, key, Said(kind, key, node));
  }

  lemma OneSection(s: Settings, section: string, key: string, said: seq<string>)
    requires forall at: (string, string) :: at.1 == key ==> (at in s <==> at.0 == section && said != []) && (at in s ==> s[at] == said)
    ensures Anywhere(s, key) == if said == [] then None else Some(said)
  {
    hide Least;
    var sections := set at | at in s && at.1 == key :: at.0;
    if said != [] {
      assert (section, key) in s;
      assert sections == {section};
      assert Least(sections) in sections;
    } else {
      assert sections == {};
    }
  }

  /** Some creation-time setting of this kind is said differently. */
  ghost predicate CreationDiffers(kind: string, a: Node, b: Node) {
    exists key :: Watched(kind, key) && Said(kind, key, a) != Said(kind, key, b)
  }

  /** Two nodes give a leaf the same value, or neither gives it one. */
  predicate SameLeaf(a: Node, b: Node, leaf: string) {
    LeafOf(a, leaf) == LeafOf(b, leaf)
  }

  /** Which leaves those are: of a vlan its id; of a bond its mode, hash policy and LACP
      rate; of a vxlan everything about the tunnel, and whether it has a source interface,
      but not which; of a bridge none. */
  lemma CreationLeavesAre(a: Node, b: Node)
    ensures CreationDiffers("vlan", a, b) <==> !SameLeaf(a, b, "id")
    ensures CreationDiffers("bond", a, b) <==> !(SameLeaf(a, b, "mode") && SameLeaf(a, b, "hash-policy") && SameLeaf(a, b, "lacp-rate"))
    ensures CreationDiffers("vxlan", a, b) <==>
              !(&& SameLeaf(a, b, "vni") && SameLeaf(a, b, "remote") && SameLeaf(a, b, "group") && SameLeaf(a, b, "source-address")
                && SameLeaf(a, b, "port") && SameLeaf(a, b, "ttl")
                && (LeafOf(a, "source-interface").None? <==> LeafOf(b, "source-interface").None?))
    ensures !CreationDiffers("bridge", a, b)
  {
    hide LeafOf, CreationDiffers;
    forall leaf ensures One(LeafOf(a, leaf)) == One(LeafOf(b, leaf)) <==> SameLeaf(a, b, leaf) { OneTells(LeafOf(a, leaf), LeafOf(b, leaf)); }
    VlanLeaves(a, b);
    BondLeaves(a, b);
    TunnelLeaves(a, b);
    BridgeLeaves(a, b);
  }

  lemma OneTells(a: Option<string>, b: Option<string>)
    ensures One(a) == One(b) <==> a == b
  {
    if a.Some? && b.Some? { assert One(a)[0] == a.value && One(b)[0] == b.value; }
  }

  lemma VlanLeaves(a: Node, b: Node)
    ensures CreationDiffers("vlan", a, b) <==> One(LeafOf(a, "id")) != One(LeafOf(b, "id"))
  {
    hide LeafOf, One;
    assert Watched("vlan", "Id") && forall key :: Watched("vlan", key) ==> key == "Id";
  }

  lemma BondLeaves(a: Node, b: Node)
    ensures CreationDiffers("bond", a, b) <==>
              || One(LeafOf(a, "mode")) != One(LeafOf(b, "mode")) || One(LeafOf(a, "hash-policy")) != One(LeafOf(b, "hash-policy"))
              || One(LeafOf(a, "lacp-rate")) != One(LeafOf(b, "lacp-rate"))
  {
    hide LeafOf, One;
    assert Recreate("bond") == Some(["Mode", "TransmitHashPolicy", "LACPTransmitRate"]);
    assert Watched("bond", "Mode") && Watched("bond", "TransmitHashPolicy") && Watched("bond", "LACPTransmitRate");
    assert forall key :: Watched("bond", key) ==> key in {"Mode", "TransmitHashPolicy", "LACPTransmitRate"};
  }

  lemma TunnelLeaves(a: Node, b: Node)
    ensures CreationDiffers("vxlan", a, b) <==>
              || One(LeafOf(a, "vni")) != One(LeafOf(b, "vni")) || One(LeafOf(a, "remote")) != One(LeafOf(b, "remote"))
              || One(LeafOf(a, "group")) != One(LeafOf(b, "group")) || One(LeafOf(a, "source-address")) != One(LeafOf(b, "source-address"))
              || One(LeafOf(a, "port")) != One(LeafOf(b, "port")) || One(LeafOf(a, "ttl")) != One(LeafOf(b, "ttl"))
              || LeafOf(a, "source-interface").None? != LeafOf(b, "source-interface").None?
  {
    hide LeafOf, One, Said, Watched;
    TunnelWatched();
    TunnelSaid(a);
    TunnelSaid(b);
    if CreationDiffers("vxlan", a, b) {
      var key :| Watched("vxlan", key) && Said("vxlan", key, a) != Said("vxlan", key, b);
      assert key in {"VNI", "Remote", "Group", "Local", "DestinationPort", "TTL", "Independent"};
    }
  }

  lemma TunnelWatched()
    ensures forall key :: Watched("vxlan", key) <==> key in {"VNI", "Remote", "Group", "Local", "DestinationPort", "TTL", "Independent"}
  {
    var keys := Recreate("vxlan").value;
    assert forall key :: key in keys <==>
             key == keys[0] || key == keys[1] || key == keys[2] || key == keys[3] || key == keys[4] || key == keys[5] || key == keys[6];
  }

  lemma TunnelSaid(node: Node)
    ensures Said("vxlan", "VNI", node) == One(LeafOf(node, "vni")) && Said("vxlan", "Remote", node) == One(LeafOf(node, "remote"))
    ensures Said("vxlan", "Group", node) == One(LeafOf(node, "group")) && Said("vxlan", "Local", node) == One(LeafOf(node, "source-address"))
    ensures Said("vxlan", "DestinationPort", node) == One(LeafOf(node, "port")) && Said("vxlan", "TTL", node) == One(LeafOf(node, "ttl"))
    ensures Said("vxlan", "Independent", node) == if LeafOf(node, "source-interface").None? then ["true"] else []
  {
    hide LeafOf, One;
  }

  lemma BridgeLeaves(a: Node, b: Node)
    ensures !CreationDiffers("bridge", a, b)
  {
    assert Recreate("bridge") == Some([]);
  }

  /** Two rendered definitions of a device need it rebuilt exactly when its kind changed
      or a creation-time leaf of the config did. */
  lemma RebuiltIff(name: string, before: string, a: Node, after: string, b: Node)
    requires CleanNode(a) && CleanNode(b) && Clean(name) && before in NETDEVS && after in NETDEVS
    ensures NeedsRecreating(NetdevText(before, name, a), NetdevText(after, name, b)) <==>
            before != after || CreationDiffers(before, a, b)
  {
    hide NetdevText, SettingsOf, CleanNode, Clean, Said, KindOf, Anywhere;
    KindReads(before, name, a);
    KindReads(after, name, b);
    if before == after {
      assert Recreate(before).Some?;
      forall key | Watched(before, key)
        ensures Anywhere(SettingsOf(NetdevText(before, name, a)), key) != Anywhere(SettingsOf(NetdevText(after, name, b)), key)
                <==> Said(before, key, a) != Said(before, key, b)
      {
        WatchedReads(before, name, a, key);
        WatchedReads(before, name, b, key);
      }
      assert forall key :: Watched(before, key) <==> key in Recreate(before).value;
    }
  }

  // ----- and which device of a config that is ----------------------------

  /** The type that decides a virtual interface: the last of those rendered. */
  function DeviceIn(config: Node, name: string): Option<(string, Node)> {
    if name in Instances(config, "vxlan") then Some(("vxlan", Instances(config, "vxlan")[name]))
    else if name in Instances(config, "bridge") then Some(("bridge", Instances(config, "bridge")[name]))
    else if name in Instances(config, "bonding") then Some(("bond", Instances(config, "bonding")[name]))
    else if name in Instances(config, "vlan") then Some(("vlan", Instances(config, "vlan")[name]))
    else None
  }

  function TextAt(files: Files, file: string): Option<string> {
    if file in files then Some(files[file]) else None
  }

  lemma {:induction false} VirtualAt(files: Files, kind: string, nodes: map<string, Node>, names: seq<string>, a: Attachments, name: string)
    requires forall i :: 0 <= i < |names| ==> names[i] in nodes
    ensures var file := VirtualFile(name, "netdev");
            TextAt(WithVirtual(files, kind, nodes, names, a), file) ==
            if name in names then Some(NetdevText(kind, name, nodes[name])) else TextAt(files, file)
    decreases |names|
  {
    hide NetworkItems, NetdevItems, FileText, VirtualFile;
    if names != [] {
      assert names == [names[0]] + names[1..];
      DifferentFiles(names[0], name);
      VirtualAt(files[VirtualFile(names[0], "netdev") := FileText(NetdevItems(kind, names[0], nodes[names[0]]))]
                     [VirtualFile(names[0], "network") := FileText(NetworkItems(names[0], nodes[names[0]], a))],
                kind, nodes, names[1..], a, name);
    }
  }

  lemma DifferentFiles(one: string, other: string)
    ensures VirtualFile(one, "netdev") == VirtualFile(other, "netdev") <==> one == other
    ensures VirtualFile(one, "network") != VirtualFile(other, "netdev")
    ensures PhysicalFile(one, "network") != VirtualFile(other, "netdev")
  {
    var device := Netdev("", other, EMPTY_INTERIOR);
    if VirtualFile(one, "netdev") == VirtualFile(other, "netdev") { SameFileSameName(Netdev("", one, EMPTY_INTERIOR), device); }
    if VirtualFile(one, "network") == VirtualFile(other, "netdev") { SameFileSameName(VirtualNetwork(one, EMPTY_INTERIOR), device); }
    FileNames(one, "network");
    FileNames(other, "netdev");
  }

  lemma {:induction false} PhysicalAt(files: Files, nodes: map<string, Node>, names: seq<string>, a: Attachments, name: string)
    requires forall i :: 0 <= i < |names| ==> names[i] in nodes
    ensures TextAt(WithPhysical(files, nodes, names, a), VirtualFile(name, "netdev")) == TextAt(files, VirtualFile(name, "netdev"))
    decreases |names|
  {
    hide NetworkItems, FileText, VirtualFile, PhysicalFile;
    if names != [] {
      DifferentFiles(names[0], name);
      PhysicalAt(files[PhysicalFile(names[0], "network") := FileText(NetworkItems(names[0], nodes[names[0]], a))], nodes, names[1..], a, name);
    }
  }

  lemma StageAt(files: Files, config: Node, kind: string, netdev: string, a: Attachments, name: string)
    ensures TextAt(Virtual(files, config, kind, netdev, a), VirtualFile(name, "netdev")) ==
            if name in Instances(config, kind) then Some(NetdevText(netdev, name, Instances(config, kind)[name]))
            else TextAt(files, VirtualFile(name, "netdev"))
  {
    hide Sorted, WithVirtual, Instances, VirtualFile, NetdevText;
    var nodes := Instances(config, kind);
    VirtualAt(files, netdev, nodes, Sorted(nodes.Keys), a, name);
    assert name in Sorted(nodes.Keys) <==> name in nodes;
  }

  lemma PhysicalStageAt(files: Files, config: Node, kind: string, a: Attachments, name: string)
    ensures TextAt(Physical(files, config, kind, a), VirtualFile(name, "netdev")) == TextAt(files, VirtualFile(name, "netdev"))
  {
    hide Sorted, WithPhysical, Instances, VirtualFile;
    var nodes := Instances(config, kind);
    PhysicalAt(files, nodes, Sorted(nodes.Keys), a, name);
  }

  /** The definition a config renders for a device. */
  lemma RenderedAt(config: Node, name: string)
    ensures TextAt(RenderFiles(config), VirtualFile(name, "netdev")) ==
            match DeviceIn(config, name)
            case None => None
            case Some((kind, node)) => Some(NetdevText(kind, name, node))
  {
    hide AttachmentsOf, Physical, Virtual, VirtualFile, Instances, NetdevText;
    var a := AttachmentsOf(config);
    var f1 := Physical(map[], config, "ethernet", a);
    PhysicalStageAt(map[], config, "ethernet", a, name);
    var f2 := Physical(f1, config, "loopback", a);
    PhysicalStageAt(f1, config, "loopback", a, name);
    var f3 := Virtual(f2, config, "vlan", "vlan", a);
    StageAt(f2, config, "vlan", "vlan", a, name);
    var f4 := Virtual(f3, config, "bonding", "bond", a);
    StageAt(f3, config, "bonding", "bond", a, name);
    var f5 := Virtual(f4, config, "bridge", "bridge", a);
    StageAt(f4, config, "bridge", "bridge", a, name);
    StageAt(f5, config, "vxlan", "vxlan", a, name);
  }

  lemma DeviceClean(config: Node, name: string)
    requires CleanConfig(config) && DeviceIn(config, name).Some?
    ensures var (kind, node) := DeviceIn(config, name).value; kind in NETDEVS && Clean(name) && CleanNode(node)
  {
    hide Clean, CleanNode, Instances;
    var kind := if name in Instances(config, "vxlan") then "vxlan" else if name in Instances(config, "bridge") then "bridge"
                else if name in Instances(config, "bonding") then "bonding" else "vlan";
    assert Instance(config, kind, name, Instances(config, kind)[name]) && kind in VIRTUAL;
  }

  /** Going from one config to another destroys a device exactly when the new one has no
      such interface, has it as another kind, or says one of its creation-time settings
      differently; whatever else changed, the device stays. */
  lemma DestroyedIff(before: Node, after: Node, name: string)
    requires CleanConfig(before) && CleanConfig(after)
    ensures name in Recreations(RenderFiles(before), RenderFiles(after)) <==>
            && DeviceIn(before, name).Some?
            && match DeviceIn(after, name)
               case None => true
               case Some((kind, node)) =>
                 kind != DeviceIn(before, name).value.0 || CreationDiffers(kind, DeviceIn(before, name).value.1, node)
  {
    RenderedDevices(before);
    hide RenderFiles, CleanConfig, DeviceIn, NetdevText, Recreations, NeedsRecreating, Shaped, CleanNode, Clean, CreationDiffers, VirtualFile, Devices, VirtualNames;
    RecreatedIff(RenderFiles(before), RenderFiles(after), name);
    RenderedAt(before, name);
    RenderedAt(after, name);
    if DeviceIn(before, name).Some? && DeviceIn(after, name).Some? {
      DeviceClean(before, name);
      DeviceClean(after, name);
      RebuiltIff(name, DeviceIn(before, name).value.0, DeviceIn(before, name).value.1,
                 DeviceIn(after, name).value.0, DeviceIn(after, name).value.1);
    }
  }
}
