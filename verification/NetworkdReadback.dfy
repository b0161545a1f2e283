/** What the rendered files say, setting by setting, once they are read back. */
module NetworkdReadback {
  import opened Wrappers
  import opened Text
  import opened Order
  import opened Config
  import opened Ini
  import opened Networkd
  import opened NetworkdCheck
  import opened NetworkdTheorem
  import opened NetworkdRebuild
  import opened NetworkdAttach
  import opened NetworkdPlan

  // ----- tables of settings ----------------------------------------------

  /** A key and its values, none, one or more. */
  type Row = (string, seq<string>)

  /** Sections of rows. */
  type Table = seq<(string, seq<Row>)>

  function RowItems(rows: seq<Row>): seq<Item> {
    if rows == [] then [] else Pairs(rows[0].0, rows[0].1) + RowItems(rows[1..])
  }

  function TableItems(t: Table): seq<Item> {
    if t == [] then [] else Begun(Some(t[0].0), RowItems(t[0].1)) + TableItems(t[1..])
  }

  function RowsSay(rows: seq<Row>, key: string): seq<string> {
    if rows == [] then [] else (if rows[0].0 == key then rows[0].1 else []) + RowsSay(rows[1..], key)
  }

  /** The values a table gives a key of a section. */
  function TableSays(t: Table, at: (string, string)): seq<string> {
    if t == [] then [] else (if t[0].0 == at.0 then RowsSay(t[0].1, at.1) else []) + TableSays(t[1..], at)
  }

  lemma {:induction false} RowsFor(rows: seq<Row>, key: string)
    ensures NoHeads(RowItems(rows)) && For(RowItems(rows), key) == RowsSay(rows, key)
  {
    hide For, Pairs, NoHeads;
    if rows == [] {
      Nothing(key);
    } else {
      RowsFor(rows[1..], key);
      ForPairs(rows[0].0, rows[0].1, key);
      ForConcat(Pairs(rows[0].0, rows[0].1), RowItems(rows[1..]), key);
      HeadlessConcat(Pairs(rows[0].0, rows[0].1), RowItems(rows[1..]));
    }
  }

  lemma {:induction false} TableStarts(t: Table)
    ensures TableItems(t) == [] || TableItems(t)[0].Head?
  {
    hide RowItems;
    if t != [] { TableStarts(t[1..]); }
  }

  lemma {:induction false} TableCollected(t: Table, section: string, at: (string, string))
    ensures Collected(TableItems(t), section, at) == TableSays(t, at)
  {
    hide RowItems, For, RowsSay;
    if t != [] {
      var pairs, rest := RowItems(t[0].1), TableItems(t[1..]);
      RowsFor(t[0].1, at.1);
      TableStarts(t[1..]);
      TableCollected(t[1..], section, at);
      SectionCollected(t[0].0, pairs, rest, section, at);
    }
  }

  lemma SectionCollected(head: string, pairs: seq<Item>, rest: seq<Item>, section: string, at: (string, string))
    requires NoHeads(pairs) && (rest == [] || rest[0].Head?)
    ensures Collected(Begun(Some(head), pairs) + rest, section, at) == (if head == at.0 then For(pairs, at.1) else []) + Collected(rest, section, at)
  {
    var items := Begun(Some(head), pairs) + rest;
    if pairs == [] {
      assert items == rest && For(pairs, at.1) == [];
    } else {
      assert items[0] == Head(head) && items[1..] == pairs + rest;
      CollectedConcat(pairs, rest, head, at);
      CollectedPairs(pairs, head, at);
      HeadResets(rest, head, section, at);
    }
  }

  /** A file of such settings, read back, says exactly what the table does. */
  lemma TableReads(t: Table, at: (string, string))
    requires AllClean(TableItems(t))
    ensures ValuesOf(SettingsOf(FileText(TableItems(t))), at.0, at.1) == TableSays(t, at)
  {
    hide TableItems, FileText, SettingsOf, AllClean, TableSays, Collected;
    var items := TableItems(t);
    assert forall i :: 0 <= i < |items| ==> CleanItem(items[i]) by { CleanEach(items); }
    ReadsBack(items);
    MeaningCollects(items, "", map[], at);
    TableCollected(t, "", at);
    assert ValuesOf(map[], at.0, at.1) == [];
  }

  // ----- what a node holds -----------------------------------------------

  /** The values under a name of a node. */
  predicate Holds(node: Node, name: string, values: set<string>) {
    node.body.Interior? && name in node.body.children && node.body.children[name].body == Values(values)
  }

  ghost predicate Ascending(s: seq<string>) {
    forall i, j :: 0 <= i < j < |s| ==> Leq(s[i], s[j]) && s[i] != s[j]
  }

  /** The readers of a node: a list is its values in order, a leaf its only value, and a
      flag is there with none. */
  lemma ReadersAre(node: Node, name: string, values: set<string>)
    requires Holds(node, name, values)
    ensures Ascending(ListOf(node, name)) && forall v :: v in ListOf(node, name) <==> v in values
    ensures forall v :: LeafOf(node, name) == Some(v) <==> values == {v}
    ensures FlagOf(node, name) <==> values == {}
  {
    assert [name][1..] == [];
    assert Get(node, [name]) == Some(node.body.children[name]);
    SortedIsSorted(values);
    hide Leq;
    var sorted := Sorted(values);
    if |sorted| == 1 {
      assert values == {sorted[0]};
    }
    forall v | values == {v} ensures LeafOf(node, name) == Some(v) {
      assert |values| == 1 && sorted[0] in values;
    }
  }

  /** A name that holds no values is no list, leaf or flag. */
  lemma ReadersNone(node: Node, name: string)
    requires forall values :: !Holds(node, name, values)
    ensures ListOf(node, name) == [] && LeafOf(node, name).None? && !FlagOf(node, name)
  {
    assert [name][1..] == [];
    if Get(node, [name]).Some? && Get(node, [name]).value.body.Values? {
      assert Holds(node, name, Get(node, [name]).value.body.values);
    }
  }

  // ----- `.network` ------------------------------------------------------

  lemma OptIsPairs(key: string, value: Option<string>)
    ensures Opt(key, value) == Pairs(key, One(value))
  {
    if value.Some? { assert [value.value][1..] == []; }
  }

  function There(there: bool, value: string): seq<string> {
    if there then [value] else []
  }

  lemma ThereIsPairs(key: string, there: bool, value: string)
    ensures (if there then [Pair(key, value)] else []) == Pairs(key, There(there, value))
  {
    if there { assert [value][1..] == []; }
  }

  lemma RowsCons(row: Row, rows: seq<Row>)
    ensures RowItems([row] + rows) == Pairs(row.0, row.1) + RowItems(rows)
    ensures forall key :: RowsSay([row] + rows, key) == (if row.0 == key then row.1 else []) + RowsSay(rows, key)
  {
    assert ([row] + rows)[1..] == rows;
  }

  lemma RowsTwo(a: Row, b: Row)
    ensures RowItems([a, b]) == Pairs(a.0, a.1) + Pairs(b.0, b.1)
  {
    hide Pairs;
    assert [a, b] == [a] + ([b] + []);
    RowsCons(a, [b] + []);
    RowsCons(b, []);
  }

  lemma RowsThree(a: Row, b: Row, c: Row)
    ensures RowItems([a, b, c]) == Pairs(a.0, a.1) + Pairs(b.0, b.1) + Pairs(c.0, c.1)
  {
    hide Pairs, RowItems;
    assert [a, b, c] == [a] + [b, c];
    RowsCons(a, [b, c]);
    RowsTwo(b, c);
  }

  ghost predicate DistinctKeys(rows: seq<Row>) {
    forall i, j :: 0 <= i < j < |rows| ==> rows[i].0 != rows[j].0
  }

  lemma {:induction false} RowsMissing(rows: seq<Row>, key: string)
    requires forall i :: 0 <= i < |rows| ==> rows[i].0 != key
    ensures RowsSay(rows, key) == []
  {
    if rows != [] { RowsMissing(rows[1..], key); }
  }

  /** Where no key is used twice, each row says what it says. */
  lemma {:induction false} RowsAt(rows: seq<Row>, i: nat)
    requires DistinctKeys(rows) && i < |rows|
    ensures RowsSay(rows, rows[i].0) == rows[i].1
  {
    if i == 0 { RowsMissing(rows[1..], rows[0].0); } else { RowsAt(rows[1..], i - 1); }
  }

  lemma RowsConcat(a: seq<Row>, b: seq<Row>)
    ensures RowItems(a + b) == RowItems(a) + RowItems(b)
    ensures forall key :: RowsSay(a + b, key) == RowsSay(a, key) + RowsSay(b, key)
  {
    hide Pairs;
    if a == [] {
      assert a + b == b;
    } else {
      assert (a + b)[1..] == a[1..] + b;
      RowsConcat(a[1..], b);
    }
  }

  /** The sections of a `.network`: the interface, its link settings, and its network
      settings with what it is attached to. */
  function LinkRows(node: Node): seq<Row> {
    [("MTUBytes", One(LeafOf(node, "mtu"))), ("ActivationPolicy", There(FlagOf(node, "disable"), "always-down"))]
  }

  function OwnRows(node: Node): seq<Row> {
    [("Description", One(LeafOf(node, "description"))), ("DHCP", There("dhcp" in ListOf(node, "address"), "yes")),
     ("Address", NotDhcp(ListOf(node, "address")))]
  }

  function MasterKey(name: string, a: Attachments): Row {
    if name in a.master then (a.master[name].0, [a.master[name].1]) else ("Bond", [])
  }

  function RiderRows(name: string, a: Attachments): seq<Row> {
    [MasterKey(name, a), ("VLAN", At(a.vlans, name)), ("VXLAN", At(a.vxlans, name))]
  }

  function NetworkTable(name: string, node: Node, a: Attachments): Table {
    [("Match", [("Name", [name])]), ("Link", LinkRows(node)), ("Network", OwnRows(node) + RiderRows(name, a))]
  }

  lemma LinkRowsAre(node: Node)
    ensures RowItems(LinkRows(node)) == Networkd.LinkPairs(node) && DistinctKeys(LinkRows(node))
  {
    hide Pairs, Opt, LeafOf, FlagOf, One, There, RowItems;
    RowsTwo(LinkRows(node)[0], LinkRows(node)[1]);
    OptIsPairs("MTUBytes", LeafOf(node, "mtu"));
    ThereIsPairs("ActivationPolicy", FlagOf(node, "disable"), "always-down");
  }

  lemma OwnRowsAre(node: Node)
    ensures RowItems(OwnRows(node)) == NetworkPairs(node) && DistinctKeys(OwnRows(node))
  {
    hide Pairs, Opt, LeafOf, ListOf, One, There, RowItems, NotDhcp;
    RowsThree(OwnRows(node)[0], OwnRows(node)[1], OwnRows(node)[2]);
    OptIsPairs("Description", LeafOf(node, "description"));
    ThereIsPairs("DHCP", "dhcp" in ListOf(node, "address"), "yes");
  }

  lemma RiderRowsAre(name: string, a: Attachments)
    ensures RowItems(RiderRows(name, a)) == AttachmentPairs(name, a)
  {
    hide Pairs, RowItems, At;
    RowsThree(MasterKey(name, a), ("VLAN", At(a.vlans, name)), ("VXLAN", At(a.vxlans, name)));
    MasterIsPairs(name, a);
  }

  lemma MasterIsPairs(name: string, a: Attachments)
    ensures Pairs(MasterKey(name, a).0, MasterKey(name, a).1) == MasterPair(name, a)
  {
    var row := MasterKey(name, a);
    if name in a.master { assert row.1[1..] == []; }
  }

  lemma TableThree(a: (string, seq<Row>), b: (string, seq<Row>), c: (string, seq<Row>), at: (string, string))
    ensures TableItems([a, b, c]) == Begun(Some(a.0), RowItems(a.1)) + Begun(Some(b.0), RowItems(b.1)) + Begun(Some(c.0), RowItems(c.1))
    ensures TableSays([a, b, c], at) ==
              (if a.0 == at.0 then RowsSay(a.1, at.1) else []) + (if b.0 == at.0 then RowsSay(b.1, at.1) else [])
              + (if c.0 == at.0 then RowsSay(c.1, at.1) else [])
  {
    hide RowItems, RowsSay, Begun;
    assert [a, b, c][1..] == [b, c] && [b, c][1..] == [c] && [c][1..] == [];
    assert TableItems([c]) == Begun(Some(c.0), RowItems(c.1));
    assert TableItems([b, c]) == Begun(Some(b.0), RowItems(b.1)) + TableItems([c]);
    assert TableSays([c], at) == if c.0 == at.0 then RowsSay(c.1, at.1) else [];
    assert TableSays([b, c], at) == (if b.0 == at.0 then RowsSay(b.1, at.1) else []) + TableSays([c], at);
  }

  lemma NetworkIsTable(name: string, node: Node, a: Attachments)
    ensures NetworkItems(name, node, a) == TableItems(NetworkTable(name, node, a))
  {
    hide Pairs, RowItems, LinkRows, OwnRows, RiderRows, NetworkPairs, AttachmentPairs, Networkd.LinkPairs, TableItems, TableSays,
         RowsSay, Begun;
    LinkRowsAre(node);
    OwnRowsAre(node);
    RiderRowsAre(name, a);
    RowsConcat(OwnRows(node), RiderRows(name, a));
    OneRow("Name", name);
    BegunOne("Match", Pair("Name", name));
    TableThree(("Match", [("Name", [name])]), ("Link", LinkRows(node)), ("Network", OwnRows(node) + RiderRows(name, a)), ("", ""));
  }

  lemma BegunOne(head: string, pair: Item)
    ensures Begun(Some(head), [pair]) == [Head(head), pair]
  {
  }

  lemma OneRow(key: string, value: string)
    ensures RowItems([(key, [value])]) == [Pair(key, value)]
    ensures RowsSay([(key, [value])], key) == [value]
  {
    assert [(key, [value])] == [(key, [value])] + [];
    RowsCons((key, [value]), []);
    assert [value][1..] == [];
  }

  /** What a `.network` says about the interface itself: every setting of the config, and
      nothing that the config does not say. */
  ghost predicate NetworkTold(s: Settings, name: string, node: Node) {
    && ValuesOf(s, "Match", "Name") == [name]
    && ValuesOf(s, "Link", "MTUBytes") == One(LeafOf(node, "mtu"))
    && ValuesOf(s, "Link", "ActivationPolicy") == (if FlagOf(node, "disable") then ["always-down"] else [])
    && ValuesOf(s, "Network", "Description") == One(LeafOf(node, "description"))
    && ValuesOf(s, "Network", "DHCP") == (if "dhcp" in ListOf(node, "address") then ["yes"] else [])
    && Ascending(ValuesOf(s, "Network", "Address"))
    && (forall v :: v in ValuesOf(s, "Network", "Address") <==> v in ListOf(node, "address") && v != "dhcp")
  }

  lemma {:induction false} NotDhcpIs(addresses: seq<string>)
    ensures forall v :: v in NotDhcp(addresses) <==> v in addresses && v != "dhcp"
    ensures Ascending(addresses) ==> Ascending(NotDhcp(addresses))
  {
    hide Leq;
    if addresses != [] {
      var rest := addresses[1..];
      NotDhcpIs(rest);
      assert forall v :: v in addresses <==> v == addresses[0] || v in rest;
      if Ascending(addresses) {
        assert forall i, j :: 0 <= i < j < |rest| ==> rest[i] == addresses[i + 1] && rest[j] == addresses[j + 1];
        var others := NotDhcp(rest);
        forall i | 0 <= i < |others| ensures Leq(addresses[0], others[i]) && addresses[0] != others[i] {
          assert others[i] in rest;
          var k :| 0 <= k < |rest| && rest[k] == others[i];
          assert addresses[k + 1] == others[i];
        }
      }
    }
  }

  lemma ListAscends(node: Node, name: string)
    ensures Ascending(ListOf(node, name))
  {
    hide Sorted, Leq, Get;
    match Get(node, [name])
    case Some(Node(_, Values(values))) => SortedIsSorted(values);
    case _ =>
  }

  lemma SectionSays(name: string, node: Node, a: Attachments, key: string)
    ensures var t := NetworkTable(name, node, a);
            && TableSays(t, ("Match", key)) == RowsSay([("Name", [name])], key)
            && TableSays(t, ("Link", key)) == RowsSay(LinkRows(node), key)
            && TableSays(t, ("Network", key)) == RowsSay(OwnRows(node), key) + RowsSay(RiderRows(name, a), key)
  {
    hide LinkRows, OwnRows, RiderRows, RowsSay, TableSays, TableItems, RowItems, Begun;
    RowsConcat(OwnRows(node), RiderRows(name, a));
    var match_, link, network := ("Match", [("Name", [name])]), ("Link", LinkRows(node)), ("Network", OwnRows(node) + RiderRows(name, a));
    TableThree(match_, link, network, ("Match", key));
    TableThree(match_, link, network, ("Link", key));
    TableThree(match_, link, network, ("Network", key));
  }

  lemma OwnSays(name: string, node: Node, a: Attachments, key: string)
    requires key in {"Description", "DHCP", "Address"} && (name in a.master ==> a.master[name].0 in {"Bond", "Bridge"})
    ensures TableSays(NetworkTable(name, node, a), ("Network", key)) == RowsSay(OwnRows(node), key)
  {
    hide NetworkTable, OwnRows, RiderRows, RowsSay, TableSays, At;
    SectionSays(name, node, a, key);
    assert forall i :: 0 <= i < |RiderRows(name, a)| ==> RiderRows(name, a)[i].0 != key by { RiderKeys(name, a, key); }
    RowsMissing(RiderRows(name, a), key);
  }

  lemma RiderKeys(name: string, a: Attachments, key: string)
    requires key in {"Description", "DHCP", "Address"} && (name in a.master ==> a.master[name].0 in {"Bond", "Bridge"})
    ensures forall i :: 0 <= i < |RiderRows(name, a)| ==> RiderRows(name, a)[i].0 != key
  {
  }

  lemma NetworkReads(config: Node, name: string, node: Node, at: (string, string))
    requires CleanConfig(config) && Clean(name) && CleanNode(node)
    ensures ValuesOf(SettingsOf(FileText(NetworkItems(name, node, AttachmentsOf(config)))), at.0, at.1)
         == TableSays(NetworkTable(name, node, AttachmentsOf(config)), at)
  {
    hide FileText, SettingsOf, NetworkItems, NetworkTable, TableItems, TableSays, AllClean, CleanConfig, CleanNode, AttachmentsOf, Clean;
    var a := AttachmentsOf(config);
    NetworkClean(config, name, node);
    NetworkIsTable(name, node, a);
    TableReads(NetworkTable(name, node, a), at);
  }

  lemma LinkSays(node: Node)
    ensures RowsSay(LinkRows(node), "MTUBytes") == One(LeafOf(node, "mtu"))
    ensures RowsSay(LinkRows(node), "ActivationPolicy") == There(FlagOf(node, "disable"), "always-down")
  {
    LinkRowsAre(node);
    hide LeafOf, FlagOf, One, There, RowsSay, DistinctKeys;
    RowsAt(LinkRows(node), 0);
    RowsAt(LinkRows(node), 1);
  }

  lemma OwnRowsSay(node: Node)
    ensures RowsSay(OwnRows(node), "Description") == One(LeafOf(node, "description"))
    ensures RowsSay(OwnRows(node), "DHCP") == There("dhcp" in ListOf(node, "address"), "yes")
    ensures RowsSay(OwnRows(node), "Address") == NotDhcp(ListOf(node, "address"))
  {
    OwnRowsAre(node);
    hide LeafOf, ListOf, One, There, NotDhcp, RowsSay, DistinctKeys;
    RowsAt(OwnRows(node), 0);
    RowsAt(OwnRows(node), 1);
    RowsAt(OwnRows(node), 2);
  }

  /** For every clean config: read back, the file of an interface says exactly what the
      config says of it. */
  lemma NetworkTells(config: Node, name: string, node: Node)
    requires CleanConfig(config) && Clean(name) && CleanNode(node)
    ensures NetworkTold(SettingsOf(FileText(NetworkItems(name, node, AttachmentsOf(config)))), name, node)
  {
    hide FileText, SettingsOf, NetworkItems, NetworkTable, TableSays, RowsSay, CleanConfig, CleanNode,
         AttachmentsOf, LeafOf, ListOf, FlagOf, NotDhcp, Clean, Ascending, ValuesOf, LinkRows, OwnRows, One;
    var a := AttachmentsOf(config);
    MasterKinds(config, name);
    NetworkReads(config, name, node, ("Match", "Name"));
    SectionSays(name, node, a, "Name");
    OneRow("Name", name);
    NetworkReads(config, name, node, ("Link", "MTUBytes"));
    SectionSays(name, node, a, "MTUBytes");
    NetworkReads(config, name, node, ("Link", "ActivationPolicy"));
    SectionSays(name, node, a, "ActivationPolicy");
    LinkSays(node);
    NetworkReads(config, name, node, ("Network", "Description"));
    OwnSays(name, node, a, "Description");
    NetworkReads(config, name, node, ("Network", "DHCP"));
    OwnSays(name, node, a, "DHCP");
    NetworkReads(config, name, node, ("Network", "Address"));
    OwnSays(name, node, a, "Address");
    OwnRowsSay(node);
    NotDhcpIs(ListOf(node, "address"));
    ListAscends(node, "address");
  }

  lemma MasterKinds(config: Node, name: string)
    ensures var a := AttachmentsOf(config); name in a.master ==> a.master[name].0 in {"Bond", "Bridge"}
  {
    hide AttachmentsOf, Enslaves;
    MasterIs(config, name);
  }

  // ----- `.netdev` -------------------------------------------------------

  lemma RowsFive(a: seq<Row>, b: seq<Row>)
    requires |a| == 3 && |b| == 2
    ensures RowItems(a + b) == Pairs(a[0].0, a[0].1) + Pairs(a[1].0, a[1].1) + Pairs(a[2].0, a[2].1) + Pairs(b[0].0, b[0].1) + Pairs(b[1].0, b[1].1)
  {
    hide Pairs, RowItems;
    assert a == [a[0], a[1], a[2]] && b == [b[0], b[1]];
    RowsThree(a[0], a[1], a[2]);
    RowsTwo(b[0], b[1]);
    RowsConcat(a, b);
  }

  function CommonRows(kind: string, name: string, node: Node): seq<Row> {
    [("Name", [name]), ("Kind", [kind]), ("Description", One(LeafOf(node, "description")))]
    + [("MTUBytes", One(LeafOf(node, "mtu"))), ("MACAddress", One(LeafOf(node, "mac")))]
  }

  lemma CommonRowsAre(kind: string, name: string, node: Node)
    ensures RowItems(CommonRows(kind, name, node)) == Common(kind, name, node) && DistinctKeys(CommonRows(kind, name, node))
  {
    hide Pairs, Opt, LeafOf, One, RowItems, RowsSay;
    var a: seq<Row> := [("Name", [name]), ("Kind", [kind]), ("Description", One(LeafOf(node, "description")))];
    var b: seq<Row> := [("MTUBytes", One(LeafOf(node, "mtu"))), ("MACAddress", One(LeafOf(node, "mac")))];
    RowsFive(a, b);
    RowsThree(a[0], a[1], a[2]);
    RowsTwo(b[0], b[1]);
    OnePair("Name", name);
    OnePair("Kind", kind);
    OptIsPairs("Description", LeafOf(node, "description"));
    OptIsPairs("MTUBytes", LeafOf(node, "mtu"));
    OptIsPairs("MACAddress", LeafOf(node, "mac"));
  }

  lemma OnePair(key: string, value: string)
    ensures Pairs(key, [value]) == [Pair(key, value)]
  {
    assert [value][1..] == [];
  }

  function BondRows(node: Node): seq<Row> {
    [("Mode", One(LeafOf(node, "mode"))), ("TransmitHashPolicy", One(LeafOf(node, "hash-policy"))),
     ("LACPTransmitRate", One(LeafOf(node, "lacp-rate")))]
    + [("MinLinks", One(LeafOf(node, "min-links"))), ("PrimarySlave", One(LeafOf(node, "primary")))]
  }

  lemma BondRowsAre(node: Node)
    ensures RowItems(BondRows(node)) == KindPairs("bond", node).1 && DistinctKeys(BondRows(node))
  {
    hide Pairs, Opt, LeafOf, One, RowItems, RowsSay;
    var a: seq<Row> := [("Mode", One(LeafOf(node, "mode"))), ("TransmitHashPolicy", One(LeafOf(node, "hash-policy"))),
                        ("LACPTransmitRate", One(LeafOf(node, "lacp-rate")))];
    var b: seq<Row> := [("MinLinks", One(LeafOf(node, "min-links"))), ("PrimarySlave", One(LeafOf(node, "primary")))];
    RowsFive(a, b);
    RowsThree(a[0], a[1], a[2]);
    RowsTwo(b[0], b[1]);
    OptIsPairs("Mode", LeafOf(node, "mode"));
    OptIsPairs("TransmitHashPolicy", LeafOf(node, "hash-policy"));
    OptIsPairs("LACPTransmitRate", LeafOf(node, "lacp-rate"));
    OptIsPairs("MinLinks", LeafOf(node, "min-links"));
    OptIsPairs("PrimarySlave", LeafOf(node, "primary"));
  }

  function BridgeRows(node: Node): seq<Row> {
    [("STP", [if FlagOf(node, "stp") then "yes" else "no"]), ("Priority", One(LeafOf(node, "priority"))),
     ("AgeingTimeSec", One(LeafOf(node, "aging-time")))]
  }

  lemma BridgeRowsAre(node: Node)
    ensures RowItems(BridgeRows(node)) == KindPairs("bridge", node).1 && DistinctKeys(BridgeRows(node))
  {
    hide Pairs, Opt, LeafOf, FlagOf, One, RowItems, RowsSay;
    RowsThree(BridgeRows(node)[0], BridgeRows(node)[1], BridgeRows(node)[2]);
    OnePair("STP", if FlagOf(node, "stp") then "yes" else "no");
    OptIsPairs("Priority", LeafOf(node, "priority"));
    OptIsPairs("AgeingTimeSec", LeafOf(node, "aging-time"));
  }

  function TunnelRows(node: Node): seq<Row> {
    [("VNI", One(LeafOf(node, "vni"))), ("Remote", One(LeafOf(node, "remote"))), ("Group", One(LeafOf(node, "group")))]
    + [("Local", One(LeafOf(node, "source-address"))), ("DestinationPort", One(LeafOf(node, "port")))]
    + [("TTL", One(LeafOf(node, "ttl"))), ("Independent", There(LeafOf(node, "source-interface").None?, "true"))]
  }

  lemma TunnelRowsAre(node: Node)
    ensures RowItems(TunnelRows(node)) == KindPairs("vxlan", node).1 && DistinctKeys(TunnelRows(node))
  {
    hide Pairs, Opt, LeafOf, One, There, RowItems, RowsSay;
    var a: seq<Row> := [("VNI", One(LeafOf(node, "vni"))), ("Remote", One(LeafOf(node, "remote"))), ("Group", One(LeafOf(node, "group")))];
    var b: seq<Row> := [("Local", One(LeafOf(node, "source-address"))), ("DestinationPort", One(LeafOf(node, "port")))];
    var c: seq<Row> := [("TTL", One(LeafOf(node, "ttl"))), ("Independent", There(LeafOf(node, "source-interface").None?, "true"))];
    RowsFive(a, b);
    RowsThree(a[0], a[1], a[2]);
    RowsTwo(b[0], b[1]);
    RowsTwo(c[0], c[1]);
    RowsConcat(a + b, c);
    OptIsPairs("VNI", LeafOf(node, "vni"));
    OptIsPairs("Remote", LeafOf(node, "remote"));
    OptIsPairs("Group", LeafOf(node, "group"));
    OptIsPairs("Local", LeafOf(node, "source-address"));
    OptIsPairs("DestinationPort", LeafOf(node, "port"));
    OptIsPairs("TTL", LeafOf(node, "ttl"));
    ThereIsPairs("Independent", LeafOf(node, "source-interface").None?, "true");
  }

  function VlanRows(node: Node): seq<Row> {
    [("Id", One(LeafOf(node, "id")))]
  }

  lemma VlanRowsAre(node: Node)
    ensures RowItems(VlanRows(node)) == KindPairs("vlan", node).1 && DistinctKeys(VlanRows(node))
  {
    hide Pairs, Opt, LeafOf, One;
    assert VlanRows(node) == [("Id", One(LeafOf(node, "id")))] + [];
    RowsCons(("Id", One(LeafOf(node, "id"))), []);
    OptIsPairs("Id", LeafOf(node, "id"));
  }

  /** What a `.netdev` says in the section of its kind. */
  ghost predicate KindTold(s: Settings, kind: string, node: Node) {
    match kind
    case "vlan" => ValuesOf(s, "VLAN", "Id") == One(LeafOf(node, "id"))
    case "bond" =>
      && ValuesOf(s, "Bond", "Mode") == One(LeafOf(node, "mode"))
      && ValuesOf(s, "Bond", "TransmitHashPolicy") == One(LeafOf(node, "hash-policy"))
      && ValuesOf(s, "Bond", "LACPTransmitRate") == One(LeafOf(node, "lacp-rate"))
      && ValuesOf(s, "Bond", "MinLinks") == One(LeafOf(node, "min-links"))
      && ValuesOf(s, "Bond", "PrimarySlave") == One(LeafOf(node, "primary"))
    case "bridge" =>
      && ValuesOf(s, "Bridge", "STP") == [if FlagOf(node, "stp") then "yes" else "no"]
      && ValuesOf(s, "Bridge", "Priority") == One(LeafOf(node, "priority"))
      && ValuesOf(s, "Bridge", "AgeingTimeSec") == One(LeafOf(node, "aging-time"))
    case _ =>
      && ValuesOf(s, "VXLAN", "VNI") == One(LeafOf(node, "vni"))
      && ValuesOf(s, "VXLAN", "Remote") == One(LeafOf(node, "remote"))
      && ValuesOf(s, "VXLAN", "Group") == One(LeafOf(node, "group"))
      && ValuesOf(s, "VXLAN", "Local") == One(LeafOf(node, "source-address"))
      && ValuesOf(s, "VXLAN", "DestinationPort") == One(LeafOf(node, "port"))
      && ValuesOf(s, "VXLAN", "TTL") == One(LeafOf(node, "ttl"))
      && ValuesOf(s, "VXLAN", "Independent") == (if LeafOf(node, "source-interface").None? then ["true"] else [])
  }

  ghost predicate NetdevTold(s: Settings, kind: string, name: string, node: Node) {
    && ValuesOf(s, "NetDev", "Name") == [name] && ValuesOf(s, "NetDev", "Kind") == [kind]
    && ValuesOf(s, "NetDev", "Description") == One(LeafOf(node, "description"))
    && ValuesOf(s, "NetDev", "MTUBytes") == One(LeafOf(node, "mtu"))
    && ValuesOf(s, "NetDev", "MACAddress") == One(LeafOf(node, "mac"))
    && KindTold(s, kind, node)
  }

  function KindRows(kind: string, node: Node): seq<Row> {
    if kind == "vlan" then VlanRows(node) else if kind == "bond" then BondRows(node)
    else if kind == "bridge" then BridgeRows(node) else TunnelRows(node)
  }

  lemma NetdevReadsRows(kind: string, name: string, node: Node, key: string)
    requires CleanNode(node) && Clean(name) && kind in NETDEVS
    ensures var s := SettingsOf(NetdevText(kind, name, node));
            && ValuesOf(s, "NetDev", key) == RowsSay(CommonRows(kind, name, node), key)
            && ValuesOf(s, KindPairs(kind, node).0, key) == RowsSay(KindRows(kind, node), key)
  {
    KindRowsAre(kind, node);
    var section := KindPairs(kind, node).0;
    hide NetdevItems, SettingsOf, CleanNode, Clean, KindPairs, Common, CommonRows, KindRows, For, ValuesOf, NetdevText, RowsSay, RowItems, NoHeads;
    KindFor(kind, node, key);
    CommonRowsAre(kind, name, node);
    RowsFor(CommonRows(kind, name, node), key);
    RowsFor(KindRows(kind, node), key);
    NetdevReads(kind, name, node, ("NetDev", key));
    NetdevCollected(kind, name, node, ("NetDev", key));
    NetdevReads(kind, name, node, (section, key));
    NetdevCollected(kind, name, node, (section, key));
  }

  lemma KindRowsAre(kind: string, node: Node)
    requires kind in NETDEVS
    ensures RowItems(KindRows(kind, node)) == KindPairs(kind, node).1 && DistinctKeys(KindRows(kind, node))
  {
    hide RowItems, RowsSay, KindPairs, VlanRows, BondRows, BridgeRows, TunnelRows;
    if kind == "vlan" { VlanRowsAre(node); }
    else if kind == "bond" { BondRowsAre(node); }
    else if kind == "bridge" { BridgeRowsAre(node); }
    else { TunnelRowsAre(node); }
  }

  lemma RowTold(kind: string, name: string, node: Node, i: nat)
    requires CleanNode(node) && Clean(name) && kind in NETDEVS && i < |KindRows(kind, node)|
    ensures ValuesOf(SettingsOf(NetdevText(kind, name, node)), KindPairs(kind, node).0, KindRows(kind, node)[i].0) == KindRows(kind, node)[i].1
  {
    hide NetdevText, SettingsOf, CleanNode, Clean, ValuesOf, RowsSay, KindRows, KindPairs, DistinctKeys;
    KindRowsAre(kind, node);
    NetdevReadsRows(kind, name, node, KindRows(kind, node)[i].0);
    RowsAt(KindRows(kind, node), i);
  }

  lemma CommonTold(kind: string, name: string, node: Node, i: nat)
    requires CleanNode(node) && Clean(name) && kind in NETDEVS && i < |CommonRows(kind, name, node)|
    ensures ValuesOf(SettingsOf(NetdevText(kind, name, node)), "NetDev", CommonRows(kind, name, node)[i].0) == CommonRows(kind, name, node)[i].1
  {
    hide NetdevText, SettingsOf, CleanNode, Clean, ValuesOf, RowsSay, CommonRows, DistinctKeys;
    CommonRowsAre(kind, name, node);
    NetdevReadsRows(kind, name, node, CommonRows(kind, name, node)[i].0);
    RowsAt(CommonRows(kind, name, node), i);
  }

  /** For every clean node and kind of device: read back, the `.netdev` says exactly what
      the config says of it. */
  lemma NetdevTells(kind: string, name: string, node: Node)
    requires CleanNode(node) && Clean(name) && kind in NETDEVS
    ensures NetdevTold(SettingsOf(NetdevText(kind, name, node)), kind, name, node)
  {
    hide NetdevText, SettingsOf, CleanNode, LeafOf, FlagOf, Clean, ValuesOf, One, KindTold;
    CommonTold(kind, name, node, 0);
    CommonTold(kind, name, node, 1);
    CommonTold(kind, name, node, 2);
    CommonTold(kind, name, node, 3);
    CommonTold(kind, name, node, 4);
    KindTells(kind, name, node);
  }

  lemma KindTells(kind: string, name: string, node: Node)
    requires CleanNode(node) && Clean(name) && kind in NETDEVS
    ensures KindTold(SettingsOf(NetdevText(kind, name, node)), kind, node)
  {
    hide NetdevText, SettingsOf, CleanNode, LeafOf, FlagOf, Clean, ValuesOf, One, Opt;
    forall i | 0 <= i < |KindRows(kind, node)|
      ensures ValuesOf(SettingsOf(NetdevText(kind, name, node)), KindPairs(kind, node).0, KindRows(kind, node)[i].0) == KindRows(kind, node)[i].1
    {
      RowTold(kind, name, node, i);
    }
    var rows := KindRows(kind, node);
    if kind == "vlan" {
      assert rows[0].0 == "Id";
    } else if kind == "bond" {
      assert rows[0].0 == "Mode" && rows[1].0 == "TransmitHashPolicy" && rows[2].0 == "LACPTransmitRate";
      assert rows[3].0 == "MinLinks" && rows[4].0 == "PrimarySlave";
    } else if kind == "bridge" {
      assert rows[0].0 == "STP" && rows[1].0 == "Priority" && rows[2].0 == "AgeingTimeSec";
    } else {
      assert rows[0].0 == "VNI" && rows[1].0 == "Remote" && rows[2].0 == "Group" && rows[3].0 == "Local";
      assert rows[4].0 == "DestinationPort" && rows[5].0 == "TTL" && rows[6].0 == "Independent";
    }
  }

  // ----- `.link` ---------------------------------------------------------

  function MatchRows(name: string, node: Node): seq<Row> {
    [("PermanentMACAddress", One(LeafOf(node, "hw-id"))), ("OriginalName", There(LeafOf(node, "hw-id").None?, name))]
  }

  function Megabits(speed: Option<string>): Option<string> {
    if speed.Some? then Some(speed.value + "M") else None
  }

  function UdevRows(name: string, node: Node): seq<Row> {
    [("Name", There(LeafOf(node, "hw-id").Some?, name)), ("MACAddress", One(LeafOf(node, "mac"))),
     ("BitsPerSecond", One(Megabits(Unless(LeafOf(node, "speed"), "auto"))))]
    + [("Duplex", One(Unless(LeafOf(node, "duplex"), "auto")))]
  }

  function LinkTable(name: string, node: Node): Table {
    [("Match", MatchRows(name, node)), ("Link", UdevRows(name, node))]
  }

  lemma MatchRowsAre(name: string, node: Node)
    ensures RowItems(MatchRows(name, node)) ==
            [if LeafOf(node, "hw-id").Some? then Pair("PermanentMACAddress", LeafOf(node, "hw-id").value) else Pair("OriginalName", name)]
    ensures DistinctKeys(MatchRows(name, node))
  {
    hide LeafOf, RowItems;
    RowsTwo(MatchRows(name, node)[0], MatchRows(name, node)[1]);
    OptIsPairs("PermanentMACAddress", LeafOf(node, "hw-id"));
    ThereIsPairs("OriginalName", LeafOf(node, "hw-id").None?, name);
  }

  lemma UdevRowsAre(name: string, node: Node)
    ensures RowItems(UdevRows(name, node)) ==
            NetworkdPlan.LinkPairs(name, LeafOf(node, "hw-id"), LeafOf(node, "mac"), Unless(LeafOf(node, "speed"), "auto"), Unless(LeafOf(node, "duplex"), "auto"))
    ensures DistinctKeys(UdevRows(name, node))
  {
    hide LeafOf, RowItems, Pairs, Opt, One, There, Unless;
    var a: seq<Row> := [("Name", There(LeafOf(node, "hw-id").Some?, name)), ("MACAddress", One(LeafOf(node, "mac"))),
                        ("BitsPerSecond", One(Megabits(Unless(LeafOf(node, "speed"), "auto"))))];
    var b: Row := ("Duplex", One(Unless(LeafOf(node, "duplex"), "auto")));
    RowsThree(a[0], a[1], a[2]);
    RowsConcat(a, [b]);
    RowsCons(b, []);
    assert [b] + [] == [b];
    assert RowItems([]) == [] by { NoRows(); }
    ThereIsPairs("Name", LeafOf(node, "hw-id").Some?, name);
    OptIsPairs("MACAddress", LeafOf(node, "mac"));
    OptIsPairs("BitsPerSecond", Megabits(Unless(LeafOf(node, "speed"), "auto")));
    OptIsPairs("Duplex", Unless(LeafOf(node, "duplex"), "auto"));
  }

  lemma NoRows()
    ensures RowItems([]) == []
  {
  }

  lemma TableTwo(a: (string, seq<Row>), b: (string, seq<Row>), at: (string, string))
    ensures TableItems([a, b]) == Begun(Some(a.0), RowItems(a.1)) + Begun(Some(b.0), RowItems(b.1))
    ensures TableSays([a, b], at) == (if a.0 == at.0 then RowsSay(a.1, at.1) else []) + (if b.0 == at.0 then RowsSay(b.1, at.1) else [])
  {
    hide RowItems, RowsSay, Begun;
    assert [a, b][1..] == [b] && [b][1..] == [];
    assert TableItems([b]) == Begun(Some(b.0), RowItems(b.1));
    assert TableSays([b], at) == if b.0 == at.0 then RowsSay(b.1, at.1) else [];
  }

  lemma LinkIsTable(name: string, node: Node)
    requires LinkItems(name, node) != []
    ensures LinkItems(name, node) == TableItems(LinkTable(name, node))
  {
    hide LeafOf, RowItems, RowsSay, TableItems, TableSays, MatchRows, UdevRows, NetworkdPlan.LinkPairs, Begun, Unless, Megabits;
    MatchRowsAre(name, node);
    UdevRowsAre(name, node);
    BegunOne("Match", RowItems(MatchRows(name, node))[0]);
    TableTwo(("Match", MatchRows(name, node)), ("Link", UdevRows(name, node)), ("", ""));
  }

  predicate CleanRows(rows: seq<Row>) {
    forall i :: 0 <= i < |rows| ==> PlainKey(rows[i].0) && forall j :: 0 <= j < |rows[i].1| ==> Clean(rows[i].1[j])
  }

  lemma {:induction false} RowsClean(rows: seq<Row>)
    requires CleanRows(rows)
    ensures AllClean(RowItems(rows))
  {
    hide Clean, PlainKey, AllClean, Pairs;
    if rows == [] {
      NoneClean();
    } else {
      RowsClean(rows[1..]);
      PairsClean(rows[0].0, rows[0].1);
      ConcatClean(Pairs(rows[0].0, rows[0].1), RowItems(rows[1..]));
    }
  }

  lemma NoneClean()
    ensures AllClean([])
  {
  }

  lemma LeafClean(node: Node, leaf: string)
    requires CleanNode(node)
    ensures LeafOf(node, leaf).Some? ==> Clean(LeafOf(node, leaf).value)
  {
    hide Clean, ListOf;
    var values := ListOf(node, leaf);
    if |values| == 1 { assert values[0] in values; }
  }

  lemma MegabitsClean(speed: string)
    requires Clean(speed)
    ensures Clean(speed + "M")
  {
  }

  lemma MatchKeysPlain()
    ensures PlainKey("PermanentMACAddress") && PlainKey("OriginalName")
  {
  }

  lemma UdevKeysPlain()
    ensures PlainKey("Name") && PlainKey("MACAddress") && PlainKey("BitsPerSecond") && PlainKey("Duplex")
  {
  }

  lemma UdevHeadsClean()
    ensures CleanItem(Head("Match")) && CleanItem(Head("Link"))
  {
  }

  lemma LinkFileClean(name: string, node: Node)
    requires CleanNode(node) && Clean(name)
    ensures AllClean(TableItems(LinkTable(name, node)))
  {
    hide Clean, PlainKey, LeafOf, CleanItem, AllClean, RowItems, TableItems, RowsSay, TableSays, Begun, CleanNode;
    LeafClean(node, "hw-id");
    LeafClean(node, "mac");
    LeafClean(node, "speed");
    LeafClean(node, "duplex");
    MatchKeysPlain();
    UdevKeysPlain();
    UdevHeadsClean();
    if LeafOf(node, "speed").Some? { MegabitsClean(LeafOf(node, "speed").value); }
    RowsClean(MatchRows(name, node));
    RowsClean(UdevRows(name, node));
    hide MatchRows, UdevRows;
    BegunClean("Match", RowItems(MatchRows(name, node)));
    BegunClean("Link", RowItems(UdevRows(name, node)));
    ConcatClean(Begun(Some("Match"), RowItems(MatchRows(name, node))), Begun(Some("Link"), RowItems(UdevRows(name, node))));
    TableTwo(("Match", MatchRows(name, node)), ("Link", UdevRows(name, node)), ("", ""));
  }

  /** What a `.link` file says: the port is matched by its hardware address if the config
      has one, and is then named; speed and duplex unless they are automatic. */
  ghost predicate LinkTold(s: Settings, name: string, node: Node) {
    var hw, speed, duplex := LeafOf(node, "hw-id"), LeafOf(node, "speed"), LeafOf(node, "duplex");
    && ValuesOf(s, "Match", "PermanentMACAddress") == One(hw)
    && ValuesOf(s, "Match", "OriginalName") == (if hw.None? then [name] else [])
    && ValuesOf(s, "Link", "Name") == (if hw.Some? then [name] else [])
    && ValuesOf(s, "Link", "MACAddress") == One(LeafOf(node, "mac"))
    && ValuesOf(s, "Link", "BitsPerSecond") == (if speed.Some? && speed.value != "auto" then [speed.value + "M"] else [])
    && ValuesOf(s, "Link", "Duplex") == (if duplex.Some? && duplex.value != "auto" then [duplex.value] else [])
  }

  lemma LinkRowTold(name: string, node: Node, i: nat)
    requires CleanNode(node) && Clean(name) && LinkItems(name, node) != []
    ensures var s := SettingsOf(FileText(LinkItems(name, node)));
            && (i < |MatchRows(name, node)| ==> ValuesOf(s, "Match", MatchRows(name, node)[i].0) == MatchRows(name, node)[i].1)
            && (i < |UdevRows(name, node)| ==> ValuesOf(s, "Link", UdevRows(name, node)[i].0) == UdevRows(name, node)[i].1)
  {
    hide FileText, SettingsOf, CleanNode, Clean, ValuesOf, RowsSay, MatchRows, UdevRows, DistinctKeys, TableItems, TableSays,
         LinkItems, RowItems, Begun, AllClean;
    var match_, udev := MatchRows(name, node), UdevRows(name, node);
    LinkIsTable(name, node);
    LinkFileClean(name, node);
    MatchRowsAre(name, node);
    UdevRowsAre(name, node);
    if i < |match_| {
      TableReads(LinkTable(name, node), ("Match", match_[i].0));
      TableTwo(("Match", match_), ("Link", udev), ("Match", match_[i].0));
      RowsAt(match_, i);
    }
    if i < |udev| {
      TableReads(LinkTable(name, node), ("Link", udev[i].0));
      TableTwo(("Match", match_), ("Link", udev), ("Link", udev[i].0));
      RowsAt(udev, i);
    }
  }

  /** For every clean port with a `.link` file: read back, it says exactly what the config
      says to udev. And it has one exactly if that is anything. */
  lemma LinkTells(name: string, node: Node)
    requires CleanNode(node) && Clean(name)
    ensures LinkItems(name, node) != [] ==> LinkTold(SettingsOf(FileText(LinkItems(name, node))), name, node)
    ensures LinkItems(name, node) == [] <==>
            && LeafOf(node, "hw-id").None? && LeafOf(node, "mac").None?
            && LeafOf(node, "speed") in {None, Some("auto")} && LeafOf(node, "duplex") in {None, Some("auto")}
  {
    hide FileText, SettingsOf, CleanNode, LeafOf, Clean, ValuesOf, NetworkdPlan.LinkPairs, Begun;
    if LinkItems(name, node) != [] {
      hide LinkItems;
      LinkRowTold(name, node, 0);
      LinkRowTold(name, node, 1);
      LinkRowTold(name, node, 2);
      LinkRowTold(name, node, 3);
    }
  }
}
