/** Interfaces as systemd-networkd sees them: what is rendered, what is checked, and
    which devices have to be destroyed for a change to take effect. */
module Networkd {
  import opened Wrappers
  import opened Text
  import opened Order
  import opened Config
  import opened Ini

  const MARKER := "-ns-"

  type Files = map<string, string>

  // ----- reading the config ----------------------------------------------

  function Instances(config: Node, kind: string): map<string, Node> {
    match Get(config, ["interfaces", kind])
    case Some(Node(_, Interior(children))) => children
    case _ => map[]
  }

  function ListOf(node: Node, name: string): seq<string> {
    match Get(node, [name])
    case Some(Node(_, Values(values))) => Sorted(values)
    case _ => []
  }

  function LeafOf(node: Node, name: string): Option<string> {
    var values := ListOf(node, name);
    if |values| == 1 then Some(values[0]) else None
  }

  predicate FlagOf(node: Node, name: string) {
    var at := Get(node, [name]);
    at.Some? && at.value.body == Values({})
  }

  /** Which interface is enslaved to what, and what rides on each interface. */
  datatype Attachments = Attachments(
    master: map<string, (string, string)>,
    vlans: map<string, seq<string>>,
    vxlans: map<string, seq<string>>)

  function Enslave(members: seq<string>, key: string, name: string, acc: map<string, (string, string)>)
    : map<string, (string, string)>
  {
    if members == [] then acc else Enslave(members[1..], key, name, acc[members[0] := (key, name)])
  }

  function Masters(nodes: map<string, Node>, names: seq<string>, key: string, acc: map<string, (string, string)>)
    : map<string, (string, string)>
    requires forall i :: 0 <= i < |names| ==> names[i] in nodes
  {
    if names == [] then acc
    else Masters(nodes, names[1..], key, Enslave(ListOf(nodes[names[0]], "member"), key, names[0], acc))
  }

  function Riders(nodes: map<string, Node>, names: seq<string>, leaf: string, acc: map<string, seq<string>>)
    : map<string, seq<string>>
    requires forall i :: 0 <= i < |names| ==> names[i] in nodes
  {
    if names == [] then acc else
      match LeafOf(nodes[names[0]], leaf)
      case None => Riders(nodes, names[1..], leaf, acc)
      case Some(under) =>
        Riders(nodes, names[1..], leaf, acc[under := (if under in acc then acc[under] else []) + [names[0]]])
  }

  function AttachmentsOf(config: Node): Attachments {
    var bonds, bridges := Instances(config, "bonding"), Instances(config, "bridge");
    var vlans, vxlans := Instances(config, "vlan"), Instances(config, "vxlan");
    Attachments(
      Masters(bridges, Sorted(bridges.Keys), "Bridge", Masters(bonds, Sorted(bonds.Keys), "Bond", map[])),
      Riders(vlans, Sorted(vlans.Keys), "parent", map[]),
      Riders(vxlans, Sorted(vxlans.Keys), "source-interface", map[]))
  }

  // ----- emitting --------------------------------------------------------

  function PhysicalFile(name: string, extension: string): string {
    "10" + MARKER + name + "." + extension
  }

  function VirtualFile(name: string, extension: string): string {
    "20" + MARKER + name + "." + extension
  }

  function Opt(key: string, value: Option<string>): seq<Item> {
    if value.Some? then [Pair(key, value.value)] else []
  }

  function NotDhcp(addresses: seq<string>): seq<string> {
    if addresses == [] then []
    else (if addresses[0] == "dhcp" then [] else [addresses[0]]) + NotDhcp(addresses[1..])
  }

  function At(m: map<string, seq<string>>, name: string): seq<string> {
    if name in m then m[name] else []
  }

  function AttachmentPairs(name: string, a: Attachments): seq<Item> {
    (if name in a.master then [Pair(a.master[name].0, a.master[name].1)] else [])
    + Pairs("VLAN", At(a.vlans, name)) + Pairs("VXLAN", At(a.vxlans, name))
  }

  function NetworkPairs(node: Node): seq<Item> {
    var addresses := ListOf(node, "address");
    Opt("Description", LeafOf(node, "description"))
    + (if "dhcp" in addresses then [Pair("DHCP", "yes")] else [])
    + Pairs("Address", NotDhcp(addresses))
  }

  function LinkPairs(node: Node): seq<Item> {
    Opt("MTUBytes", LeafOf(node, "mtu"))
    + (if FlagOf(node, "disable") then [Pair("ActivationPolicy", "always-down")] else [])
  }

  /** The `.network` every interface gets. */
  function NetworkItems(name: string, node: Node, a: Attachments): seq<Item> {
    [Head("Match"), Pair("Name", name)]
    + Begun(Some("Link"), LinkPairs(node))
    + Begun(Some("Network"), NetworkPairs(node) + AttachmentPairs(name, a))
  }

  /** The settings of one kind of device, and the section they go in. */
  function KindPairs(kind: string, node: Node): (string, seq<Item>) {
    if kind == "vlan" then ("VLAN", Opt("Id", LeafOf(node, "id")))
    else if kind == "bond" then
      ("Bond", Opt("Mode", LeafOf(node, "mode")) + Opt("TransmitHashPolicy", LeafOf(node, "hash-policy"))
               + Opt("LACPTransmitRate", LeafOf(node, "lacp-rate")) + Opt("MinLinks", LeafOf(node, "min-links"))
               + Opt("PrimarySlave", LeafOf(node, "primary")))
    else if kind == "bridge" then
      ("Bridge", [Pair("STP", if FlagOf(node, "stp") then "yes" else "no")]
                 + Opt("Priority", LeafOf(node, "priority")) + Opt("AgeingTimeSec", LeafOf(node, "aging-time")))
    else if kind == "vxlan" then
      ("VXLAN", Opt("VNI", LeafOf(node, "vni")) + Opt("Remote", LeafOf(node, "remote")) + Opt("Group", LeafOf(node, "group"))
                + Opt("Local", LeafOf(node, "source-address")) + Opt("DestinationPort", LeafOf(node, "port"))
                + Opt("TTL", LeafOf(node, "ttl"))
                + (if LeafOf(node, "source-interface").None? then [Pair("Independent", "true")] else []))
    else ("", [])
  }

  /** The `.netdev` that creates a virtual device. */
  function NetdevItems(kind: string, name: string, node: Node): seq<Item> {
    [Head("NetDev"), Pair("Name", name), Pair("Kind", kind)]
    + Opt("Description", LeafOf(node, "description")) + Opt("MTUBytes", LeafOf(node, "mtu"))
    + Opt("MACAddress", LeafOf(node, "mac"))
    + Begun(Some(KindPairs(kind, node).0), KindPairs(kind, node).1)
  }

  // ----- rendering -------------------------------------------------------

  function WithPhysical(files: Files, nodes: map<string, Node>, names: seq<string>, a: Attachments): Files
    requires forall i :: 0 <= i < |names| ==> names[i] in nodes
    decreases |names|
  {
    if names == [] then files else
      var name := names[0];
      WithPhysical(files[PhysicalFile(name, "network") := FileText(NetworkItems(name, nodes[name], a))], nodes, names[1..], a)
  }

  function WithVirtual(files: Files, kind: string, nodes: map<string, Node>, names: seq<string>, a: Attachments): Files
    requires forall i :: 0 <= i < |names| ==> names[i] in nodes
    decreases |names|
  {
    if names == [] then files else
      var name := names[0];
      WithVirtual(files[VirtualFile(name, "netdev") := FileText(NetdevItems(kind, name, nodes[name]))]
                       [VirtualFile(name, "network") := FileText(NetworkItems(name, nodes[name], a))],
                  kind, nodes, names[1..], a)
  }

  function Physical(files: Files, config: Node, kind: string, a: Attachments): Files {
    var nodes := Instances(config, kind);
    WithPhysical(files, nodes, Sorted(nodes.Keys), a)
  }

  function Virtual(files: Files, config: Node, kind: string, netdev: string, a: Attachments): Files {
    var nodes := Instances(config, kind);
    WithVirtual(files, netdev, nodes, Sorted(nodes.Keys), a)
  }

  /** The files for networkd's directory. */
  function RenderFiles(config: Node): Files {
    var a := AttachmentsOf(config);
    var physical := Physical(Physical(map[], config, "ethernet", a), config, "loopback", a);
    var bonds := Virtual(Virtual(physical, config, "vlan", "vlan", a), config, "bonding", "bond", a);
    Virtual(Virtual(bonds, config, "bridge", "bridge", a), config, "vxlan", "vxlan", a)
  }

  function PhysicalNames(config: Node): set<string> {
    Instances(config, "ethernet").Keys + Instances(config, "loopback").Keys
  }

  function VirtualNames(config: Node): set<string> {
    Instances(config, "vlan").Keys + Instances(config, "bonding").Keys
    + Instances(config, "bridge").Keys + Instances(config, "vxlan").Keys
  }

  // ----- checking --------------------------------------------------------

  predicate EndsWith(s: string, suffix: string) {
    |suffix| <= |s| && s[|s| - |suffix|..] == suffix
  }

  /** What follows the first occurrence of `marker`. */
  function AfterFirst(s: string, marker: string): Option<string> {
    if marker <= s then Some(s[|marker|..])
    else if s == [] then None
    else AfterFirst(s[1..], marker)
  }

  /** The device a `.netdev` file creates, from its name. */
  function DeviceOf(file: string): Option<string> {
    if EndsWith(file, ".netdev") then AfterFirst(file[..|file| - |".netdev"|], MARKER) else None
  }

  function Devices(files: Files): set<string> {
    set file | file in files && DeviceOf(file).Some? :: DeviceOf(file).value
  }

  datatype CheckError =
    | BothConfigure(file: string, other: string, name: string)
    | Dangling(file: string, device: string, key: string)
    | NoNetwork(device: string)

  function ValuesOf(s: Settings, section: string, key: string): seq<string> {
    if (section, key) in s then s[(section, key)] else []
  }

  function FirstMissing(refs: seq<string>, devices: set<string>): Option<string> {
    if refs == [] then None
    else if refs[0] !in devices then Some(refs[0])
    else FirstMissing(refs[1..], devices)
  }

  const REFERENCES := ["Bond", "Bridge", "VLAN", "VXLAN"]

  function FirstDangling(file: string, s: Settings, keys: seq<string>, devices: set<string>): Option<CheckError> {
    if keys == [] then None else
      match FirstMissing(ValuesOf(s, "Network", keys[0]), devices)
      case Some(device) => Some(Dangling(file, device, keys[0]))
      case None => FirstDangling(file, s, keys[1..], devices)
  }

  function CheckNetworks(names: seq<string>, files: Files, devices: set<string>, claimed: map<string, string>)
    : Option<CheckError>
    requires forall i :: 0 <= i < |names| ==> names[i] in files
  {
    if names == [] then None
    else if !EndsWith(names[0], ".network") then CheckNetworks(names[1..], files, devices, claimed)
    else
      var s := SettingsOf(files[names[0]]);
      var matched := ValuesOf(s, "Match", "Name");
      if matched != [] && matched[0] in claimed then
        Some(BothConfigure(names[0], claimed[matched[0]], matched[0]))
      else
        match FirstDangling(names[0], s, REFERENCES, devices)
        case Some(e) => Some(e)
        case None =>
          CheckNetworks(names[1..], files, devices, if matched == [] then claimed else claimed[matched[0] := names[0]])
  }

  function FirstBare(devices: seq<string>, files: Files): Option<CheckError> {
    if devices == [] then None
    else if VirtualFile(devices[0], "network") !in files then Some(NoNetwork(devices[0]))
    else FirstBare(devices[1..], files)
  }

  /** Everything that can be said about a file set without touching the machine. */
  function Check(files: Files): Option<CheckError> {
    match CheckNetworks(Sorted(files.Keys), files, Devices(files), map[])
    case Some(e) => Some(e)
    case None => FirstBare(Sorted(Devices(files)), files)
  }

  // ----- recreation ------------------------------------------------------

  function KindOf(netdev: string): Option<string> {
    var kinds := ValuesOf(SettingsOf(netdev), "NetDev", "Kind");
    if kinds == [] then None else Some(kinds[0])
  }

  /** The settings of a kind that the kernel fixes when the device is created. */
  function Recreate(kind: string): Option<seq<string>> {
    if kind == "bond" then Some(["Mode", "TransmitHashPolicy", "LACPTransmitRate"])
    else if kind == "vlan" then Some(["Id"])
    else if kind == "vxlan" then Some(["VNI", "Remote", "Group", "Local", "DestinationPort", "TTL", "Independent"])
    else if kind == "bridge" then Some([])
    else None
  }

  /** The values of a key in the first section that has it. */
  function Anywhere(s: Settings, key: string): Option<seq<string>> {
    var sections := set at | at in s && at.1 == key :: at.0;
    if sections == {} then None else Some(s[(Least(sections), key)])
  }

  predicate NeedsRecreating(before: string, after: string) {
    var was, now := KindOf(before), KindOf(after);
    || was.None? || now.None? || was != now
    || Recreate(was.value).None?
    || exists key | key in Recreate(was.value).value :: Anywhere(SettingsOf(before), key) != Anywhere(SettingsOf(after), key)
  }

  /** Devices to destroy before new files take effect. */
  function Recreations(before: Files, after: Files): set<string> {
    set file | file in before && DeviceOf(file).Some? && (file !in after || NeedsRecreating(before[file], after[file]))
             :: DeviceOf(file).value
  }
}
