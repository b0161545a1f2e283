/** The three renderers the daemon runs, and what the pipeline then promises of a commit:
    every rendered plan and record keeps to what the pipeline asks, no plan names a file
    its record does not, and so the files of a restored commit come back. */
module Shipped {
  import opened Wrappers
  import opened Text
  import opened Order
  import opened Config
  import opened Networkd
  import opened NetworkdDevices
  import opened NetworkdCheck
  import opened NetworkdTheorem
  import opened NetworkdRebuild
  import opened ArtifactSets
  import opened HostObject
  import opened Transaction
  import opened CommitPipeline
  import opened NetworkdPlan

  /** Where the renderers write. */
  datatype Places = Places(resolv: File, networkd: string, links: string)

  predicate Sound(places: Places) {
    places.networkd != places.links && places.resolv.dir != places.networkd && places.resolv.dir != places.links
  }

  function ValuesAt(config: Node, path: Path): seq<string> {
    match Get(config, path)
    case Some(Node(_, Values(values))) => Sorted(values)
    case _ => []
  }

  function ValueAt(config: Node, path: Path): Option<string> {
    var values := ValuesAt(config, path);
    if |values| == 1 then Some(values[0]) else None
  }

  // ----- host name, resolvers, time zone ---------------------------------

  function HeaderLines(): seq<string> {
    ["# Managed by Nightshade. " + "Do not edit.",
     "#",
     "# Generated from " + "`set system name-server`" + " in /etc/nightshade" + "/config.boot.",
     "# Changes made here " + "are lost on " + "the next commit."]
  }

  function Headed(lines: seq<string>): string {
    if lines == [] then "" else lines[0] + "\n" + Headed(lines[1..])
  }

  function ResolvHeader(): string {
    Headed(HeaderLines())
  }

  function ServerLines(servers: seq<string>): string {
    if servers == [] then "" else "nameserver " + servers[0] + "\n" + ServerLines(servers[1..])
  }

  function Resolv(domain: Option<string>, servers: seq<string>): string {
    ResolvHeader() + (if domain.Some? then "search " + domain.value + "\n" else "") + ServerLines(servers)
  }

  function SystemPlan(config: Node, resolv: File): Artifacts {
    var name, domain := ValueAt(config, ["system", "host-name"]), ValueAt(config, ["system", "domain-name"]);
    var zone := ValueAt(config, ["system", "time-zone"]);
    Artifacts([], map[resolv := Resolv(domain, ValuesAt(config, ["system", "name-server"]))],
              (if name.Some? then [SetHostName(name.value, domain)] else [])
              + (if zone.Some? then [SetTimeZone(zone.value)] else []))
  }

  method WriteResolv(domain: Option<string>, servers: seq<string>) returns (text: string)
    ensures text == Resolv(domain, servers)
  {
    hide HeaderLines, Headed;
    text := ResolvHeader();
    if domain.Some? { text := text + ("search " + domain.value + "\n"); }
    ghost var head := text;
    assert head == ResolvHeader() + (if domain.Some? then "search " + domain.value + "\n" else "");
    var i := 0;
    while i < |servers|
      invariant 0 <= i <= |servers|
      invariant text + ServerLines(servers[i..]) == head + ServerLines(servers)
    {
      assert servers[i..][0] == servers[i] && servers[i..][1..] == servers[i + 1..];
      text := text + "nameserver " + servers[i] + "\n";
      i := i + 1;
    }
    assert servers[i..] == [] && text == head + ServerLines(servers);
  }

  /** `render` of the system renderer. */
  method RenderSystem(config: Node, resolv: File) returns (a: Artifacts)
    ensures a == SystemPlan(config, resolv)
  {
    hide ValuesAt, ValueAt, Resolv;
    var name, domain := ValueAt(config, ["system", "host-name"]), ValueAt(config, ["system", "domain-name"]);
    var text := WriteResolv(domain, ValuesAt(config, ["system", "name-server"]));
    var actions: seq<Action> := [];
    if name.Some? { actions := actions + [SetHostName(name.value, domain)]; }
    var zone := ValueAt(config, ["system", "time-zone"]);
    if zone.Some? { actions := actions + [SetTimeZone(zone.value)]; }
    a := Artifacts([], map[resolv := text], actions);
  }

  /** The values a resolver takes from the lines of a directive. */
  function Directive(lines: seq<string>, key: string): seq<string> {
    if lines == [] then []
    else (if key + " " <= lines[0] then [lines[0][|key| + 1..]] else []) + Directive(lines[1..], key)
  }

  /** Text that keeps to its line. */
  predicate InLine(s: string) {
    '\n' !in s && '\r' !in s
  }

  lemma {:induction false} DirectiveConcat(a: seq<string>, b: seq<string>, key: string)
    ensures Directive(a + b, key) == Directive(a, key) + Directive(b, key)
  {
    if a == [] {
      assert a + b == b;
    } else {
      assert (a + b)[1..] == a[1..] + b;
      DirectiveConcat(a[1..], b, key);
    }
  }

  lemma ServerReads(server: string, rest: string)
    requires InLine(server)
    ensures Directive(Lines(("nameserver " + server) + ("\n" + rest)), "nameserver") == [server] + Directive(Lines(rest), "nameserver")
    ensures Directive(Lines(("nameserver " + server) + ("\n" + rest)), "search") == Directive(Lines(rest), "search")
  {
    hide Lines;
    var line := "nameserver " + server;
    LineThen(line, rest);
    DirectiveCons(line, Lines(rest), "nameserver");
    DirectiveCons(line, Lines(rest), "search");
    assert "nameserver" + " " == "nameserver ";
    assert "nameserver " <= line && line[|"nameserver"| + 1..] == server;
    assert !("search" + " " <= line) by { assert ("search" + " ")[0] == 's' && line[0] == 'n'; }
  }

  lemma DirectiveCons(line: string, rest: seq<string>, key: string)
    ensures Directive([line] + rest, key) == (if key + " " <= line then [line[|key| + 1..]] else []) + Directive(rest, key)
  {
    assert ([line] + rest)[1..] == rest;
  }

  lemma {:induction false} ServersRead(servers: seq<string>)
    requires forall i :: 0 <= i < |servers| ==> InLine(servers[i])
    ensures Directive(Lines(ServerLines(servers)), "nameserver") == servers
    ensures Directive(Lines(ServerLines(servers)), "search") == []
  {
    hide Lines, Directive, InLine;
    if servers == [] {
      NoLinesThere();
    } else {
      var rest := ServerLines(servers[1..]);
      assert ServerLines(servers) == ("nameserver " + servers[0]) + ("\n" + rest);
      hide ServerLines;
      ServerReads(servers[0], rest);
      ServersRead(servers[1..]);
    }
  }

  lemma NoLinesThere()
    ensures Lines("") == [] && forall key :: Directive([], key) == []
  {
  }

  predicate CommentLine(line: string) {
    line != "" && line[0] == '#' && InLine(line)
  }

  lemma {:induction false} CommentsSayNothing(lines: seq<string>, rest: string, key: string)
    requires forall i :: 0 <= i < |lines| ==> CommentLine(lines[i])
    requires key != "" && key[0] != '#'
    ensures Directive(Lines(Headed(lines) + rest), key) == Directive(Lines(rest), key)
  {
    hide Lines;
    if lines == [] {
      assert Headed(lines) + rest == rest;
    } else {
      var more := Headed(lines[1..]) + rest;
      assert Headed(lines) + rest == lines[0] + ("\n" + more);
      LineThen(lines[0], more);
      CommentsSayNothing(lines[1..], rest, key);
      assert ([lines[0]] + Lines(more))[1..] == Lines(more);
      assert !(key + " " <= lines[0]) by { assert (key + " ")[0] == key[0]; }
    }
  }

  lemma InLineConcat(a: string, b: string)
    requires InLine(a) && InLine(b)
    ensures InLine(a + b)
  {
  }

  lemma FirstLine()
    ensures CommentLine("# Managed by Nightshade. " + "Do not edit.") && CommentLine("#")
  {
    InLineConcat("# Managed by Nightshade. ", "Do not edit.");
  }

  lemma ThirdBegins()
    ensures InLine("# Generated from ") && InLine("`set system name-server`")
  {
  }

  lemma ThirdEnds()
    ensures InLine(" in /etc/nightshade") && InLine("/config.boot.")
  {
  }

  lemma ThirdLine()
    ensures CommentLine("# Generated from " + "`set system name-server`" + " in /etc/nightshade" + "/config.boot.")
  {
    hide InLine, CommentLine;
    var a, b, c, d := "# Generated from ", "`set system name-server`", " in /etc/nightshade", "/config.boot.";
    ThirdBegins();
    ThirdEnds();
    assert a[0] == '#';
    InLineConcat(a, b);
    InLineConcat(a + b, c);
    assert (a + b + c)[0] == a[0];
    Joined(a + b + c, d);
  }

  lemma Joined(a: string, b: string)
    requires a != "" && a[0] == '#' && InLine(a) && InLine(b)
    ensures CommentLine(a + b)
  {
  }

  lemma FourthLine()
    ensures CommentLine("# Changes made here " + "are lost on " + "the next commit.")
  {
    InLineConcat("# Changes made here ", "are lost on ");
    InLineConcat("# Changes made here " + "are lost on ", "the next commit.");
  }

  /** Each header line is a comment. */
  lemma HeaderIsComments()
    ensures forall i :: 0 <= i < |HeaderLines()| ==> CommentLine(HeaderLines()[i])
  {
    hide CommentLine;
    FirstLine();
    ThirdLine();
    FourthLine();
  }

  /** A resolver reads from the file exactly the servers of the config, in order, and the
      domain to search, if there is one. */
  lemma ResolvReads(domain: Option<string>, servers: seq<string>)
    requires domain.Some? ==> InLine(domain.value)
    requires forall i :: 0 <= i < |servers| ==> InLine(servers[i])
    ensures Directive(Lines(Resolv(domain, servers)), "nameserver") == servers
    ensures Directive(Lines(Resolv(domain, servers)), "search") == if domain.Some? then [domain.value] else []
  {
    hide Lines, CommentLine, Headed, Directive, HeaderLines;
    var body := ServerLines(servers);
    ServersRead(servers);
    var rest := if domain.Some? then ("search " + domain.value) + ("\n" + body) else body;
    assert Resolv(domain, servers) == ResolvHeader() + rest;
    assert ResolvHeader() == Headed(HeaderLines());
    hide Resolv, ServerLines, ResolvHeader, InLine;
    HeaderIsComments();
    CommentsSayNothing(HeaderLines(), rest, "nameserver");
    CommentsSayNothing(HeaderLines(), rest, "search");
    if domain.Some? { SearchReads(domain.value, body); }
  }

  lemma SearchReads(domain: string, body: string)
    requires InLine(domain)
    ensures Directive(Lines(("search " + domain) + ("\n" + body)), "search") == [domain] + Directive(Lines(body), "search")
    ensures Directive(Lines(("search " + domain) + ("\n" + body)), "nameserver") == Directive(Lines(body), "nameserver")
  {
    hide Lines;
    var line := "search " + domain;
    LineThen(line, body);
    DirectiveCons(line, Lines(body), "search");
    DirectiveCons(line, Lines(body), "nameserver");
    assert "search" + " " == "search ";
    assert "search " <= line && line[|"search"| + 1..] == domain;
    assert !("nameserver" + " " <= line) by { assert ("nameserver" + " ")[0] == 'n' && line[0] == 's'; }
  }

  /** The plan of the system renderer: one file, which reads as the config says, and a
      command for each of the host name and the time zone the config sets. */
  lemma SystemSays(config: Node, resolv: File, name: string, domain: Option<string>, zone: string)
    ensures var plan := SystemPlan(config, resolv);
            && plan.files.Keys == {resolv} && plan.managed == []
            && plan.files[resolv] == Resolv(ValueAt(config, ["system", "domain-name"]), ValuesAt(config, ["system", "name-server"]))
            && (SetHostName(name, domain) in plan.actions <==>
                  ValueAt(config, ["system", "host-name"]) == Some(name) && domain == ValueAt(config, ["system", "domain-name"]))
            && (SetTimeZone(zone) in plan.actions <==> ValueAt(config, ["system", "time-zone"]) == Some(zone))
  {
    hide ValueAt, ValuesAt, Resolv;
  }

  /** Neither the host name nor the time zone is set twice. */
  predicate OnceEach(actions: seq<Action>) {
    forall i, j :: 0 <= i < j < |actions| ==>
      !(actions[i].SetHostName? && actions[j].SetHostName?) && !(actions[i].SetTimeZone? && actions[j].SetTimeZone?)
  }

  /** `check` of the system renderer. */
  method CheckSystem(actions: seq<Action>) returns (ok: bool)
    ensures ok == OnceEach(actions)
  {
    var named, zoned, i := false, false, 0;
    while i < |actions|
      invariant 0 <= i <= |actions|
      invariant named <==> exists j :: 0 <= j < i && actions[j].SetHostName?
      invariant zoned <==> exists j :: 0 <= j < i && actions[j].SetTimeZone?
      invariant OnceEach(actions[..i])
    {
      if actions[i].SetHostName? {
        if named { return false; }
        named := true;
      } else if actions[i].SetTimeZone? {
        if zoned { return false; }
        zoned := true;
      }
      i := i + 1;
    }
    assert actions[..i] == actions;
    ok := true;
  }

  // ----- accounts --------------------------------------------------------

  const NEVER_MANAGED: set<string> :=
    {"root", "daemon", "bin", "sys", "sync", "games", "man", "lp", "mail", "news", "uucp", "proxy", "backup", "list",
     "irc", "nobody", "systemd-network", "systemd-resolve", "messagebus", "sshd"}

  function Users(config: Node): map<string, Node> {
    match Get(config, ["system", "login", "user"])
    case Some(Node(_, Interior(children))) => children
    case _ => map[]
  }

  function HashOf(user: Node): Option<string> {
    ValueAt(user, ["authentication", "encrypted-password"])
  }

  function AccountOf(name: string, user: Node): seq<Action> {
    [EnsureAccount(name, ValueAt(user, ["full-name"]))]
    + (if HashOf(user).Some? then [SetPassword(name, HashOf(user).value)] else [])
  }

  function Accounts(users: map<string, Node>, names: seq<string>): seq<Action>
    requires forall i :: 0 <= i < |names| ==> names[i] in users
  {
    if names == [] then [] else AccountOf(names[0], users[names[0]]) + Accounts(users, names[1..])
  }

  function LoginPlan(config: Node): Artifacts {
    Artifacts([], map[], Accounts(Users(config), Sorted(Users(config).Keys)))
  }

  lemma AccountsFrom(users: map<string, Node>, names: seq<string>, i: nat)
    requires i < |names| && forall i :: 0 <= i < |names| ==> names[i] in users
    ensures Accounts(users, names[i..]) == AccountOf(names[i], users[names[i]]) + Accounts(users, names[i + 1..])
  {
    hide AccountOf;
    assert names[i..][0] == names[i] && names[i..][1..] == names[i + 1..];
  }

  /** `render` of the login renderer. */
  method RenderLogin(config: Node) returns (a: Artifacts)
    ensures a == LoginPlan(config)
  {
    hide ValueAt, HashOf, Sorted, Users, Accounts;
    var users := Users(config);
    var names := Sorted(users.Keys);
    var actions: seq<Action>, i := [], 0;
    while i < |names|
      invariant 0 <= i <= |names|
      invariant actions + Accounts(users, names[i..]) == Accounts(users, names)
    {
      AccountsFrom(users, names, i);
      ghost var before := actions;
      var user := users[names[i]];
      actions := actions + [EnsureAccount(names[i], ValueAt(user, ["full-name"]))];
      if HashOf(user).Some? { actions := actions + [SetPassword(names[i], HashOf(user).value)]; }
      assert actions == before + AccountOf(names[i], user);
      i := i + 1;
    }
    assert Accounts(users, names[i..]) == [] by { NoAccounts(users); }
    a := Artifacts([], map[], actions);
  }

  lemma NoAccounts(users: map<string, Node>)
    ensures Accounts(users, []) == []
  {
  }

  /** The accounts that should exist. */
  function Named(actions: seq<Action>): set<string> {
    set a | a in actions && a.EnsureAccount? :: a.name
  }

  /** The accounts somebody could log in to with a password. */
  function Usable(actions: seq<Action>): set<string> {
    set a | a in actions && a.SetPassword? && a.hash != "!" && a.hash != "*" :: a.name
  }

  /** `check` of the login renderer: no system account, and not everybody locked out. */
  predicate CheckLogin(a: Artifacts) {
    Named(a.actions) !! NEVER_MANAGED && (Named(a.actions) == {} || Usable(a.actions) != {})
  }

  predicate CanLogIn(user: Node) {
    HashOf(user).Some? && HashOf(user).value != "!" && HashOf(user).value != "*"
  }

  /** The accounts to remove once the others are made: those the last apply made that this
      one does not. With no record of one, none. */
  function Removals(previous: Option<Artifacts>, next: Artifacts): set<string> {
    (if previous.Some? then Named(previous.value.actions) else {}) - Named(next.actions)
  }

  /** What the check comes to for a config: it names no system account, and if it names
      any account, then one that can log in. */
  predicate LoginSafe(config: Node) {
    Users(config).Keys !! NEVER_MANAGED && (Users(config) == map[] || exists name | name in Users(config) :: CanLogIn(Users(config)[name]))
  }

  lemma {:induction false} AccountsSay(users: map<string, Node>, names: seq<string>, name: string)
    requires forall i :: 0 <= i < |names| ==> names[i] in users
    ensures name in Named(Accounts(users, names)) <==> name in names
    ensures name in Usable(Accounts(users, names)) <==> name in names && name in users && CanLogIn(users[name])
  {
    hide HashOf;
    if names != [] {
      var first, rest := AccountOf(names[0], users[names[0]]), Accounts(users, names[1..]);
      AccountsSay(users, names[1..], name);
      assert Named(first + rest) == Named(first) + Named(rest);
      assert Usable(first + rest) == Usable(first) + Usable(rest);
      assert first[0] == EnsureAccount(names[0], ValueAt(users[names[0]], ["full-name"]));
      if HashOf(users[names[0]]).Some? { assert first[1] == SetPassword(names[0], HashOf(users[names[0]]).value); }
    }
  }

  /** The accounts and passwords of the plan are exactly those of the config, and each
      account comes before its password. */
  lemma {:induction false} AccountsExactly(users: map<string, Node>, names: seq<string>, name: string, full: Option<string>, hash: string)
    requires forall i :: 0 <= i < |names| ==> names[i] in users
    ensures EnsureAccount(name, full) in Accounts(users, names) <==> name in names && full == ValueAt(users[name], ["full-name"])
    ensures SetPassword(name, hash) in Accounts(users, names) <==> name in names && HashOf(users[name]) == Some(hash)
    ensures forall j :: 0 <= j < |Accounts(users, names)| && Accounts(users, names)[j] == SetPassword(name, hash) ==>
              j > 0 && Accounts(users, names)[j - 1] == EnsureAccount(name, ValueAt(users[name], ["full-name"]))
  {
    hide HashOf, ValueAt;
    if names != [] {
      var first, rest := AccountOf(names[0], users[names[0]]), Accounts(users, names[1..]);
      AccountsExactly(users, names[1..], name, full, hash);
      var all := Accounts(users, names);
      assert all == first + rest;
      assert forall a :: a in all <==> a in first || a in rest;
      assert first[0] == EnsureAccount(names[0], ValueAt(users[names[0]], ["full-name"]));
      if HashOf(users[names[0]]).Some? { assert first[1] == SetPassword(names[0], HashOf(users[names[0]]).value); }
      forall j | 0 <= j < |all| && all[j] == SetPassword(name, hash)
        ensures j > 0 && all[j - 1] == EnsureAccount(name, ValueAt(users[name], ["full-name"]))
      {
        if j >= |first| { assert rest[j - |first|] == all[j]; }
      }
    }
  }

  /** From one config to another exactly the accounts that are gone from it are removed,
      and none that it has. */
  lemma RemovalsAre(last: Node, next: Node)
    ensures Removals(Some(LoginPlan(last)), LoginPlan(next)) == Users(last).Keys - Users(next).Keys
    ensures Removals(None, LoginPlan(next)) == {}
  {
    hide Users, Sorted, CanLogIn, Accounts, Named, Usable;
    forall config, name | config in {last, next} ensures name in Named(LoginPlan(config).actions) <==> name in Users(config) {
      AccountsSay(Users(config), Sorted(Users(config).Keys), name);
    }
    assert Named(LoginPlan(last).actions) == Users(last).Keys;
    assert Named(LoginPlan(next).actions) == Users(next).Keys;
  }

  lemma LoginChecksIff(config: Node)
    ensures CheckLogin(LoginPlan(config)) <==> LoginSafe(config)
  {
    hide Users, Sorted, CanLogIn, Accounts, Named, Usable;
    var users := Users(config);
    var names := Sorted(users.Keys);
    forall name ensures name in Named(Accounts(users, names)) <==> name in users
                ensures name in Usable(Accounts(users, names)) <==> name in users && CanLogIn(users[name])
    {
      AccountsSay(users, names, name);
    }
    assert Named(Accounts(users, names)) == users.Keys;
  }

  // ----- the pipeline with these -----------------------------------------

  /** In the order of the schema's priorities. */
  function All(places: Places): (all: seq<Renderer>)
    ensures |all| == 3
  {
    [Renderer("system", Territory([], {places.resolv}), false,
              (config: Node) => Some(SystemPlan(config, places.resolv)), (a: Artifacts) => OnceEach(a.actions)),
     Renderer("login", Territory([], {}), false,
              (config: Node) => Some(LoginPlan(config)), (a: Artifacts) => CheckLogin(a)),
     NetworkdRenderer(places.networkd, places.links)]
  }

  function PlanOf(config: Node, places: Places): (plan: seq<Artifacts>)
    ensures |plan| == 3
  {
    [SystemPlan(config, places.resolv), LoginPlan(config), Plan(config, places.networkd, places.links)]
  }

  lemma RendersPlan(config: Node, places: Places, i: nat)
    requires i < 3
    ensures All(places)[i].render(config) == Some(PlanOf(config, places)[i])
  {
    hide SystemPlan, LoginPlan, Plan;
  }

  lemma AllApart(places: Places)
    requires Sound(places)
    ensures Apart(All(places))
  {
    hide Marked;
    var all := All(places);
    assert all[0].name == "system" && all[1].name == "login" && all[2].name == "networkd";
    forall f ensures !(Owns(all[0].territory, f) && Owns(all[1].territory, f))
             ensures !(Owns(all[0].territory, f) && Owns(all[2].territory, f))
             ensures !(Owns(all[1].territory, f) && Owns(all[2].territory, f))
    {
      assert !Owns(all[1].territory, f);
      assert Owns(all[0].territory, f) <==> f == places.resolv;
    }
  }

  lemma {:induction false} AccountsQuiet(users: map<string, Node>, names: seq<string>)
    requires forall i :: 0 <= i < |names| ==> names[i] in users
    ensures forall a :: a in Accounts(users, names) ==> !a.ReloadNetworkd? && !a.RecreateNetdev?
  {
    hide ValueAt;
    if names != [] { AccountsQuiet(users, names[1..]); }
  }

  /** Each renderer keeps to what the pipeline asks, whatever the config, and names the
      same files outside the managed directories every time. */
  lemma AllLawful(config: Node, places: Places, i: nat)
    requires Sound(places) && i < 3
    ensures Lawful(All(places)[i], PlanOf(config, places)[i], places.networkd)
    ensures PlanOf(config, places)[i].files.Keys == All(places)[i].territory.paths
  {
    hide Users, Sorted, Accounts, ValueAt, ValuesAt, Plan, Resolv;
    if i == 0 {
    } else if i == 1 {
      AccountsQuiet(Users(config), Sorted(Users(config).Keys));
    } else {
      PlanLawful(config, places.networkd, places.links);
      PlanHasNoFiles(config, places);
    }
  }

  lemma PlanHasNoFiles(config: Node, places: Places)
    ensures Plan(config, places.networkd, places.links).files == map[]
  {
    hide RenderFiles, Links;
  }

  /** What `a` was rendered from. */
  ghost predicate IsPlan(a: Artifacts, i: nat, places: Places) {
    i < 3 && exists config :: a == PlanOf(config, places)[i]
  }

  /** Every record is a plan some earlier config was rendered to. */
  ghost predicate Recorded(recorded: map<string, Artifacts>, places: Places) {
    forall i :: 0 <= i < 3 && All(places)[i].name in recorded ==> IsPlan(recorded[All(places)[i].name], i, places)
  }

  lemma RecordedLawful(recorded: map<string, Artifacts>, places: Places)
    requires Sound(places) && Recorded(recorded, places)
    ensures LawfulRecords(All(places), recorded, places.networkd)
    ensures forall i :: 0 <= i < 3 && All(places)[i].name in recorded ==>
              recorded[All(places)[i].name].files.Keys == All(places)[i].territory.paths
  {
    hide Lawful, All, PlanOf;
    forall i | 0 <= i < |All(places)| && All(places)[i].name in recorded
      ensures Lawful(All(places)[i], recorded[All(places)[i].name], places.networkd)
      ensures recorded[All(places)[i].name].files.Keys == All(places)[i].territory.paths
    {
      var config :| recorded[All(places)[i].name] == PlanOf(config, places)[i];
      AllLawful(config, places, i);
    }
  }

  // ----- a restored commit -----------------------------------------------

  /** Every owned file that was as its renderer had recorded is as it was, and so is every
      file of a renderer that had not been reached. */
  ghost predicate FilesBack(before: Tree, after: Tree, places: Places, run: Run) {
    && |run.back| == 3
    && forall i, f :: 0 <= i < 3 && Owns(All(places)[i].territory, f)
                      && (i > run.done || (run.back[i].Some? && Held(before, f) == Wanted(run.back[i].value, f)))
                      ==> Held(after, f) == Held(before, f)
  }

  /** No shipped renderer adds a file outside its directories that its record does not
      name, so for these the restore promises the files outright. */
  lemma FilesComeBack(before: Tree, after: Tree, places: Places, run: Run, recorded: map<string, Artifacts>, candidate: Node)
    requires Sound(places) && Recorded(recorded, places) && TrueRecords(All(places), recorded, run.back)
    requires run.plan == PlanOf(candidate, places) && Undone(before, after, All(places), run)
    ensures FilesBack(before, after, places, run)
  {
    hide Lawful, All, PlanOf, Owns, Wanted, Sound, Recorded, UndoneAt;
    RecordedLawful(recorded, places);
    forall i | 0 <= i < 3
      ensures Lawful(All(places)[i], run.plan[i], places.networkd) && run.plan[i].files.Keys == All(places)[i].territory.paths
    {
      AllLawful(candidate, places, i);
    }
    assert LawfulAll(All(places), run.plan, places.networkd);
    BackLawful(All(places), recorded, places.networkd, run.back);
    forall i, f | 0 <= i < 3 && Owns(All(places)[i].territory, f)
      && (i > run.done || (run.back[i].Some? && Held(before, f) == Wanted(run.back[i].value, f)))
      ensures Held(after, f) == Held(before, f)
    {
      if i > run.done {
        NotReached(before, after, All(places), run, i, f);
      } else {
        BackIff(before, after, All(places), run, places.networkd, i, f);
      }
    }
  }

  lemma NotReached(before: Tree, after: Tree, renderers: seq<Renderer>, run: Run, i: nat, f: File)
    requires Undone(before, after, renderers, run) && run.done < i < |renderers| && Owns(renderers[i].territory, f)
    ensures Held(after, f) == Held(before, f)
  {
    hide Owns, Reaches, Wanted;
    assert UndoneAt(before, after, run, i, f);
  }

  /** A failing case that is real: the record of the system renderer cannot be read and a
      later renderer fails. Reported as restored, the resolvers are the failed commit's. */
  lemma UnreadResolvStays(before: Tree, after: Tree, places: Places, run: Run, candidate: Node)
    requires run.plan == PlanOf(candidate, places) && Undone(before, after, All(places), run)
    requires 0 < run.done && run.back[0].None?
    ensures Held(after, places.resolv) == Some(PlanOf(candidate, places)[0].files[places.resolv])
    ensures Held(after, places.resolv) == Held(before, places.resolv) <==>
            Held(before, places.resolv) == Some(PlanOf(candidate, places)[0].files[places.resolv])
  {
    hide ValueAt, ValuesAt, Resolv, LoginPlan, Plan;
    assert Owns(All(places)[0].territory, places.resolv);
    assert Reaches(run.plan[0], places.resolv);
    LeftIff(before, after, All(places), run, 0, places.resolv);
  }

  /** A rendered device needs no rebuilding for the same definition. */
  lemma RenderedDecided(config: Node)
    requires CleanConfig(config)
    ensures Decided(RenderFiles(config))
  {
    hide RenderFiles, CleanConfig, NeedsRecreating, Recreations, VirtualFile, DeviceOf, Devices, VirtualNames;
    var files := RenderFiles(config);
    RenderedDevices(config);
    forall file | file in files && DeviceOf(file).Some? ensures !NeedsRecreating(files[file], files[file]) {
      var device := DeviceOf(file).value;
      RecreatedIff(files, files, device);
      DestroyedIff(config, config, device);
    }
  }

  /** After a restore of networkd from `last`: its devices are live again exactly when the
      failed apply of `next` did not reload, or added no interface and destroyed none that
      `next` has. */
  lemma DevicesComeBackIff(live: Live, now: Live, places: Places, recorded: map<string, Artifacts>, run: Run,
                           last: Node, next: Node)
    requires WentBack(live, now, All(places), run)
    requires TrueRecords(All(places), recorded, run.seen) && TrueRecords(All(places), recorded, run.back)
    requires run.plan == PlanOf(next, places) && run.done == 2
    requires run.back[2] == Some(Plan(last, places.networkd, places.links)) && run.redone.reloaded
    requires CleanConfig(last) && Settled(live, RenderFiles(last))
    ensures Settled(now, RenderFiles(last)) <==>
            !run.devices.reloaded || (VirtualNames(next) <= VirtualNames(last) && run.devices.gone !! VirtualNames(next))
  {
    PlanDescribes(last, places);
    PlanDescribes(next, places);
    RenderedDevices(last);
    RenderedDevices(next);
    RenderedDecided(last);
    hide RenderFiles, Links, Settled, Shaped, Decided, VirtualNames, SystemPlan, LoginPlan, Midway, Recreations,
         Described, Devices, CleanConfig, Plan;
    var back, planned := RenderFiles(last), RenderFiles(next);
    assert All(places)[2].networkd;
    NothingToRedo(back);
    if run.seen[2].None? { NoneRead(planned); }
    assert run.redone == Progress({}, true);
    assert run.devices.gone <= Recreations(back, planned);
    DecidedRestoreIff(live, back, planned, run.devices);
  }

  lemma PlanDescribes(config: Node, places: Places)
    ensures Described(Some(Plan(config, places.networkd, places.links))) == RenderFiles(config)
  {
    hide RenderFiles, Links;
  }

  /** One commit of the daemon, whatever fails, over records that earlier commits left. It
      is refused exactly for a config that locks everybody out or names one interface both
      physical and virtual; it never destroys a device the new config does not change;
      what it leaves of records is fit for the next commit. Done, the live devices are the
      new config's; restored, every file a readable record covers is back, and the devices
      as `DevicesComeBackIff` says. */
  method CommitShipped(m: Machine, places: Places, candidate: Node)
    returns (o: Outcome, notes: seq<Note>, ghost run: Run)
    requires Sound(places) && m.networkd == places.networkd && Recorded(m.recorded, places)
    modifies m`files, m`live, m`recorded, m`script
    ensures Recorded(m.recorded, places)
    ensures !o.RenderFailed? && run.plan == PlanOf(candidate, places)
    ensures CleanConfig(candidate) ==> (o.CheckFailed? <==> Refused(candidate))
    ensures o.CheckFailed? ==> unchanged(m)
    ensures OldPlannedOrRecorded(old(m.files), m.files, All(places), run.plan, old(m.recorded))
    ensures DevicesKept(old(m.live), m.live, All(places), run.plan, old(m.recorded))
    ensures o.Done? ==> forall i :: 0 <= i < 3 ==> InPlace(m.files, run.plan[i])
    ensures o.Done? ==> |run.seen| == 3 && NewDevices(old(m.live), m.live, places, run, candidate)
    ensures o.RolledBack? || o.Unrecovered? ==> WentBack(old(m.live), m.live, All(places), run)
    ensures o.RolledBack? ==> Undone(old(m.files), m.files, All(places), run) && FilesBack(old(m.files), m.files, places, run)
    ensures o.RolledBack? && run.done == 2 ==> OldDevices(old(m.live), m.live, places, run, candidate)
    ensures TrueRecords(All(places), old(m.recorded), run.seen) && TrueRecords(All(places), old(m.recorded), run.back)
    ensures Faults(old(m.script)) == 0 ==> o.CheckFailed? || o == Done([])
    ensures Faults(old(m.script)) == 1 ==> !o.Unrecovered?
    ensures Faults(old(m.script)) == 1 && o.RolledBack? ==> PutAllBack(All(places), m.recorded, run.back, 0, run.done + 1)
  {
    hide All, PlanOf, Lawful, Recorded, Sound, Owns, InPlace, Apart, LawfulRecords, TrueRecords, WentBack, Undone,
         DevicesKept, OldPlannedOrRecorded, DevicesAfter, FilesBack, RecordedTo, Foreign, NewDevices, OldDevices, Converged;
    AllApart(places);
    NetworkdLast(places);
    RecordedLawful(m.recorded, places);
    forall i | 0 <= i < 3
      ensures All(places)[i].render(candidate) == Some(PlanOf(candidate, places)[i])
      ensures Lawful(All(places)[i], PlanOf(candidate, places)[i], places.networkd)
    {
      RendersPlan(candidate, places, i);
      AllLawful(candidate, places, i);
    }
    o, notes, run := Commit(m, All(places), candidate);
    assert run.plan == PlanOf(candidate, places);
    if CleanConfig(candidate) { RefusedIff(candidate, places); }
    if o.Done? {
      RecordedAfter(old(m.recorded), m.recorded, places, candidate, o.unrecorded);
      DevicesAreNew(old(m.live), m.live, places, run, candidate);
    }
    if o.RolledBack? {
      FilesComeBack(old(m.files), m.files, places, run, old(m.recorded), candidate);
      if run.done == 2 { DevicesAreOld(old(m.live), m.live, places, old(m.recorded), run, candidate); }
    }
  }

  lemma NetworkdLast(places: Places)
    ensures All(places)[2].networkd
  {
  }

  ghost predicate Refused(candidate: Node) {
    !LoginSafe(candidate) || PhysicalNames(candidate) * VirtualNames(candidate) != {}
  }

  lemma RefusedIff(candidate: Node, places: Places)
    requires CleanConfig(candidate)
    ensures (exists i :: 0 <= i < 3 && !All(places)[i].check(PlanOf(candidate, places)[i])) <==> Refused(candidate)
  {
    hide CleanConfig, LoginSafe, PhysicalNames, VirtualNames, Plan, LoginPlan, CheckLogin, ValueAt, Resolv, Check;
    LoginChecksIff(candidate);
    PlanChecks(candidate, places.networkd, places.links);
    var all, plan := All(places), PlanOf(candidate, places);
    assert all[0].check(plan[0]);
    assert all[1].check(plan[1]) <==> LoginSafe(candidate);
    assert all[2].check(plan[2]) <==> PhysicalNames(candidate) * VirtualNames(candidate) == {};
  }

  lemma RecordedAfter(before: map<string, Artifacts>, after: map<string, Artifacts>, places: Places, candidate: Node,
                      unrecorded: seq<string>)
    requires Sound(places) && Recorded(before, places)
    requires RecordedTo(before, after, All(places), PlanOf(candidate, places), unrecorded, 3)
    ensures Recorded(after, places)
  {
    hide All, PlanOf, RecordedTo;
    var plan := PlanOf(candidate, places);
    forall i | 0 <= i < 3 && All(places)[i].name in after ensures IsPlan(after[All(places)[i].name], i, places) {
      RecordOf(before, after, All(places), plan, unrecorded, i);
      assert IsPlan(plan[i], i, places);
    }
  }

  /** Where the devices were the last config's, they are again, exactly when they can be. */
  ghost predicate OldDevices(live: Live, now: Live, places: Places, run: Run, candidate: Node)
    requires |run.back| == 3
  {
    forall last :: run.back[2] == Some(Plan(last, places.networkd, places.links)) && CleanConfig(last) && Settled(live, RenderFiles(last)) ==>
      (Settled(now, RenderFiles(last)) <==>
       !run.devices.reloaded || (VirtualNames(candidate) <= VirtualNames(last) && run.devices.gone !! VirtualNames(candidate)))
  }

  lemma DevicesAreOld(live: Live, now: Live, places: Places, recorded: map<string, Artifacts>, run: Run, candidate: Node)
    requires WentBack(live, now, All(places), run)
    requires TrueRecords(All(places), recorded, run.seen) && TrueRecords(All(places), recorded, run.back)
    requires run.plan == PlanOf(candidate, places) && run.done == 2 && (run.back[2].Some? ==> run.redone.reloaded)
    ensures OldDevices(live, now, places, run, candidate)
  {
    assert |run.back| == 3;
    hide Settled, RenderFiles, VirtualNames, Plan, CleanConfig, WentBack, TrueRecords, All, PlanOf;
    forall last | run.back[2] == Some(Plan(last, places.networkd, places.links)) && CleanConfig(last) && Settled(live, RenderFiles(last))
      ensures Settled(now, RenderFiles(last)) <==>
              !run.devices.reloaded || (VirtualNames(candidate) <= VirtualNames(last) && run.devices.gone !! VirtualNames(candidate))
    {
      DevicesComeBackIff(live, now, places, recorded, run, last, candidate);
    }
  }

  /** Where the devices were the last config's, they are the candidate's. */
  ghost predicate NewDevices(live: Live, now: Live, places: Places, run: Run, candidate: Node)
    requires |run.seen| == 3
  {
    forall last :: run.seen[2] == Some(Plan(last, places.networkd, places.links)) && Settled(live, RenderFiles(last)) ==>
      Settled(now, RenderFiles(candidate)) && now.Keys == VirtualNames(candidate)
  }

  lemma DevicesAreNew(live: Live, now: Live, places: Places, run: Run, candidate: Node)
    requires |run.seen| == 3 && run.plan == PlanOf(candidate, places) && Converged(live, now, All(places), run.plan, run.seen)
    ensures NewDevices(live, now, places, run, candidate)
  {
    hide Settled, RenderFiles, VirtualNames, Links, SystemPlan, LoginPlan, Plan, Converged;
    assert All(places)[2].networkd && run.plan[2] == Plan(candidate, places.networkd, places.links);
    forall last | run.seen[2] == Some(Plan(last, places.networkd, places.links)) && Settled(live, RenderFiles(last))
      ensures Settled(now, RenderFiles(candidate)) && now.Keys == VirtualNames(candidate)
    {
      CommitConverges(live, now, All(places), run.plan, run.seen, 2, last, candidate, places.networkd, places.links);
    }
  }
}
