/** The configuration document: which screens share input, how this machine takes part, and
    the artefacts the Core process is started from. */
module Configuration {
  import Order

  datatype Option<+T> = None | Some(value: T)

  datatype Result<+T, +E> = Success(value: T) | Failure(error: E)

  datatype NodeRole = Server | Client

  datatype Side = Left | Right | Up | Down
  {
    function Opposite(): (r: Side)
      ensures r != this
    {
      match this
      case Left => Right
      case Right => Left
      case Up => Down
      case Down => Up
    }

    function Text(): string
    {
      match this
      case Left => "left"
      case Right => "right"
      case Up => "up"
      case Down => "down"
    }
  }

  datatype GridPosition = GridPosition(x: int, y: int, w: nat, h: nat)

  datatype MonitorInfo = MonitorInfo(x: int, y: int, w: nat, h: nat, primary: bool)

  datatype Screen = Screen(name: string, aliases: seq<string>, position: GridPosition, monitors: seq<MonitorInfo>)

  datatype Link = Link(from: string, side: Side, to: string)

  datatype PeerAudioRouting = PeerAudioRouting(enabled: bool, sendToPeer: bool, receiveFromPeer: bool)

  datatype AudioConfig = AudioConfig(
    enabled: bool, inputDevice: Option<string>, outputDevice: Option<string>,
    inputGain: real, outputGain: real, perPeer: map<string, PeerAudioRouting>, signalPort: nat)

  const DEFAULT_AUDIO := AudioConfig(false, None, None, 1.0, 1.0, map[], 24852)

  /** `options` holds the entries of an ordered map, in key order. */
  datatype Config = Config(
    role: NodeRole, serverName: string, serverAddress: Option<string>, port: nat,
    servicePort: nat, syncPort: nat, screens: seq<Screen>, links: seq<Link>,
    options: seq<(string, string)>, clipboardSharing: bool, autostart: bool,
    binaries: Option<string>, audio: AudioConfig)

  /** A server with one screen, as a default installation has it. */
  function OneScreen(name: string, port: nat): Config
  {
    Config.Config(Server, name, None, port, 24850, 24851, [Screen(name, [], GridPosition(0, 0, 160, 120), [])], [], [],
                  true, true, None, DEFAULT_AUDIO)
  }

  // ---------- validation ----------

  datatype ConfigError = ServerNameNotAScreen | LinkFromNotAScreen | LinkToNotAScreen | LinkSelfLoop | ClientWithoutServer

  predicate IsScreen(c: Config, name: string)
  {
    exists i :: 0 <= i < |c.screens| && c.screens[i].name == name
  }

  predicate GoodLink(c: Config, l: Link)
  {
    IsScreen(c, l.from) && IsScreen(c, l.to) && l.from != l.to
  }

  predicate Valid(c: Config)
  {
    && IsScreen(c, c.serverName)
    && (forall i :: 0 <= i < |c.links| ==> GoodLink(c, c.links[i]))
    && (c.role == Client ==> c.serverAddress.Some?)
  }

  /** Link `i` is the first bad one. */
  predicate FirstBad(c: Config, i: nat)
  {
    i < |c.links| && !GoodLink(c, c.links[i]) && forall k :: 0 <= k < i ==> GoodLink(c, c.links[k])
  }

  /** The checks in order; no error is reported exactly for the valid documents, and a link error
      is about the first bad link of a document whose server name is fine. */
  method Validate(c: Config) returns (r: Option<ConfigError>)
    ensures r.None? <==> Valid(c)
    ensures r.None? <==>
            && (exists i :: 0 <= i < |c.screens| && c.screens[i].name == c.serverName)
            && (forall k :: 0 <= k < |c.links| ==>
                  IsScreen(c, c.links[k].from) && IsScreen(c, c.links[k].to) && c.links[k].from != c.links[k].to)
            && (c.role == Client ==> c.serverAddress.Some?)
    ensures r == Some(ServerNameNotAScreen) <==> !IsScreen(c, c.serverName)
    ensures r == Some(ClientWithoutServer) <==>
            && IsScreen(c, c.serverName) && c.role == Client && c.serverAddress.None?
            && forall i :: 0 <= i < |c.links| ==> GoodLink(c, c.links[i])
    ensures r == Some(LinkFromNotAScreen) ==>
              IsScreen(c, c.serverName) && exists i: nat :: FirstBad(c, i) && !IsScreen(c, c.links[i].from)
    ensures r == Some(LinkToNotAScreen) ==>
              && IsScreen(c, c.serverName)
              && exists i: nat :: FirstBad(c, i) && IsScreen(c, c.links[i].from) && !IsScreen(c, c.links[i].to)
    ensures r == Some(LinkSelfLoop) ==>
              && IsScreen(c, c.serverName)
              && exists i: nat :: FirstBad(c, i) && IsScreen(c, c.links[i].from) && c.links[i].from == c.links[i].to
  {
    if !IsScreen(c, c.serverName) {
      return Some(ServerNameNotAScreen);
    }
    var i := 0;
    while i < |c.links|
      invariant 0 <= i <= |c.links|
      invariant forall k :: 0 <= k < i ==> GoodLink(c, c.links[k])
    {
      var l := c.links[i];
      if !GoodLink(c, l) { assert FirstBad(c, i); }
      if !IsScreen(c, l.from) { return Some(LinkFromNotAScreen); }
      if !IsScreen(c, l.to) { return Some(LinkToNotAScreen); }
      if l.from == l.to { return Some(LinkSelfLoop); }
      i := i + 1;
    }
    if c.role == Client && c.serverAddress.None? {
      return Some(ClientWithoutServer);
    }
    return None;
  }

  // ---------- what reaches the Core ----------

  function CoreView(c: Config): Config
  {
    c.(servicePort := 0, syncPort := 0, audio := DEFAULT_AUDIO, autostart := true)
  }

  predicate CoreInputsDiffer(c: Config, d: Config)
  {
    CoreView(c) != CoreView(d)
  }

  /** Edits of the two daemon ports, the audio section and the autostart switch stay away from the
      Core; an edit of any other field reaches it. */
  lemma CoreInputsDifferIff(c: Config, d: Config)
    ensures CoreInputsDiffer(c, d) <==>
            || c.role != d.role || c.serverName != d.serverName || c.serverAddress != d.serverAddress
            || c.port != d.port || c.screens != d.screens || c.links != d.links || c.options != d.options
            || c.clipboardSharing != d.clipboardSharing || c.binaries != d.binaries
  {
    var v, w := CoreView(c), CoreView(d);
    assert v == w <==>
           && v.role == w.role && v.serverName == w.serverName && v.serverAddress == w.serverAddress
           && v.port == w.port && v.screens == w.screens && v.links == w.links && v.options == w.options
           && v.clipboardSharing == w.clipboardSharing && v.binaries == w.binaries;
  }

  /** What the generators take from their surroundings: the two fixed file paths and the
      platform's test for an IP literal. */
  datatype Platform = Platform(confPath: string, settingsPath: string, isIp: string -> bool)

  function Decimal(n: nat): string
  {
    if n < 10 then [('0' as int + n) as char] else Decimal(n / 10) + Decimal(n % 10)
  }

  function HostPort(host: string, port: nat): string
  {
    if ':' in host && host[0] != '[' then "[" + host + "]:" + Decimal(port) else host + ":" + Decimal(port)
  }

  function RemoteAddress(c: Config, p: Platform): Option<string>
  {
    match c.serverAddress
    case None => None
    case Some(address) =>
      if p.isIp(address) || ':' !in address
         || (address != "" && address[0] == '[' && address[|address| - 1] == ']')
      then Some(HostPort(address, c.port))
      else Some(address)
  }

  /** The four kinds of server address: a name gets the port, an IPv6 literal brackets and the port,
      something in brackets the port, and an address that already names a port is left alone. */
  lemma RemoteAddressByKind(c: Config, p: Platform, a: string)
    requires c.serverAddress == Some(a)
    ensures ':' !in a ==> RemoteAddress(c, p) == Some(a + ":" + Decimal(c.port))
    ensures ':' in a && a[0] != '[' && p.isIp(a) ==> RemoteAddress(c, p) == Some("[" + a + "]:" + Decimal(c.port))
    ensures ':' in a && a[0] == '[' && a[|a| - 1] == ']' ==> RemoteAddress(c, p) == Some(a + ":" + Decimal(c.port))
    ensures ':' in a && !p.isIp(a) && !(a[0] == '[' && a[|a| - 1] == ']') ==> RemoteAddress(c, p) == Some(a)
  {
  }

  // One outgoing edge of a screen, and all of them grouped under it.
  datatype Edge = Edge(side: Side, to: string)
  datatype Group = Group(from: string, edges: seq<Edge>)

  /** `entry(key).or_default().push(e)` on an ordered map held as its groups in key order. */
  function Push(groups: seq<Group>, key: string, e: Edge): seq<Group>
  {
    if groups == [] then [Group(key, [e])]
    else if groups[0].from == key then [Group(key, groups[0].edges + [e])] + groups[1..]
    else if Order.Less(key, groups[0].from) then [Group(key, [e])] + groups
    else [groups[0]] + Push(groups[1..], key, e)
  }

  /** The edges each link contributes: its own and the reverse the Core also needs. */
  function PushLink(groups: seq<Group>, l: Link): seq<Group>
  {
    Push(Push(groups, l.from, Edge(l.side, l.to)), l.to, Edge(l.side.Opposite(), l.from))
  }

  function Grouped(links: seq<Link>): seq<Group>
  {
    if links == [] then [] else PushLink(Grouped(links[..|links| - 1]), links[|links| - 1])
  }

  /** The edges listed under `from`; none when it has no group. */
  function EdgesOf(groups: seq<Group>, from: string): seq<Edge>
  {
    if groups == [] then [] else if groups[0].from == from then groups[0].edges else EdgesOf(groups[1..], from)
  }

  lemma {:induction false} PushAppends(groups: seq<Group>, key: string, e: Edge, from: string)
    requires forall i, j :: 0 <= i < j < |groups| ==> Order.Less(groups[i].from, groups[j].from)
    ensures EdgesOf(Push(groups, key, e), from) == EdgesOf(groups, from) + (if from == key then [e] else [])
    ensures forall i, j :: 0 <= i < j < |Push(groups, key, e)| ==>
              Order.Less(Push(groups, key, e)[i].from, Push(groups, key, e)[j].from)
    ensures forall i :: 0 <= i < |Push(groups, key, e)| ==>
              || Push(groups, key, e)[i].from == key
              || exists j :: 0 <= j < |groups| && groups[j].from == Push(groups, key, e)[i].from
  {
    if groups != [] && groups[0].from != key {
      if Order.Less(key, groups[0].from) {
        NoSmallerGroup(groups, key);
        forall j | 0 <= j < |groups| ensures Order.Less(key, groups[j].from) {
          if j > 0 { Order.LessTransitive(key, groups[0].from, groups[j].from); }
        }
      } else {
        Order.LessTrichotomous(key, groups[0].from);
        PushAppends(groups[1..], key, e, from);
        var tail := Push(groups[1..], key, e);
        forall j | 0 <= j < |tail| ensures Order.Less(groups[0].from, tail[j].from) {
          if tail[j].from != key {
            var k :| 0 <= k < |groups[1..]| && groups[1..][k].from == tail[j].from;
            assert groups[1..][k] == groups[k + 1];
          }
        }
      }
    }
  }

  lemma {:induction false} NoSmallerGroup(groups: seq<Group>, key: string)
    requires groups != [] && Order.Less(key, groups[0].from)
    requires forall i, j :: 0 <= i < j < |groups| ==> Order.Less(groups[i].from, groups[j].from)
    ensures EdgesOf(groups, key) == []
  {
    Order.LessTrichotomous(key, groups[0].from);
    if |groups| > 1 {
      Order.LessTransitive(key, groups[0].from, groups[1].from);
      NoSmallerGroup(groups[1..], key);
    }
  }

  lemma {:induction false} GroupedSorted(links: seq<Link>)
    ensures forall i, j :: 0 <= i < j < |Grouped(links)| ==> Order.Less(Grouped(links)[i].from, Grouped(links)[j].from)
  {
    if links != [] {
      var init, l := Grouped(links[..|links| - 1]), links[|links| - 1];
      GroupedSorted(links[..|links| - 1]);
      PushAppends(init, l.from, Edge(l.side, l.to), l.from);
      PushAppends(Push(init, l.from, Edge(l.side, l.to)), l.to, Edge(l.side.Opposite(), l.from), l.to);
    }
  }

  lemma PushLinkAppends(front: seq<Link>, l: Link, a: string)
    ensures EdgesOf(PushLink(Grouped(front), l), a) == EdgesOf(Grouped(front), a)
            + (if a == l.from then [Edge(l.side, l.to)] else [])
            + (if a == l.to then [Edge(l.side.Opposite(), l.from)] else [])
  {
    GroupedSorted(front);
    PushAppends(Grouped(front), l.from, Edge(l.side, l.to), a);
    PushAppends(Push(Grouped(front), l.from, Edge(l.side, l.to)), l.to, Edge(l.side.Opposite(), l.from), a);
  }

  /** The generated adjacency is exactly the symmetric closure of the links: screen `a` lists an
      edge to `b` on `side` just when some link says so or says the reverse. */
  lemma {:induction false} AdjacencyIsSymmetricClosure(links: seq<Link>, a: string, side: Side, b: string)
    ensures Edge(side, b) in EdgesOf(Grouped(links), a) <==>
            Link(a, side, b) in links || Link(b, side.Opposite(), a) in links
  {
    if links != [] {
      var front, l := links[..|links| - 1], links[|links| - 1];
      AdjacencyIsSymmetricClosure(front, a, side, b);
      PushLinkAppends(front, l, a);
      assert links == front + [l];
    }
  }

  /** The same side by side: what is left of `a` has `a` on its right, what is above it has it below. */
  lemma AdjacencySideBySide(links: seq<Link>, a: string, b: string)
    ensures Edge(Left, b) in EdgesOf(Grouped(links), a) <==> Link(a, Left, b) in links || Link(b, Right, a) in links
    ensures Edge(Right, b) in EdgesOf(Grouped(links), a) <==> Link(a, Right, b) in links || Link(b, Left, a) in links
    ensures Edge(Up, b) in EdgesOf(Grouped(links), a) <==> Link(a, Up, b) in links || Link(b, Down, a) in links
    ensures Edge(Down, b) in EdgesOf(Grouped(links), a) <==> Link(a, Down, b) in links || Link(b, Up, a) in links
  {
    AdjacencyIsSymmetricClosure(links, a, Left, b);
    AdjacencyIsSymmetricClosure(links, a, Right, b);
    AdjacencyIsSymmetricClosure(links, a, Up, b);
    AdjacencyIsSymmetricClosure(links, a, Down, b);
  }

  // ---------- the generated text ----------

  function ScreenLines(screens: seq<Screen>): string
  {
    if screens == [] then "" else ScreenLines(screens[..|screens| - 1]) + ("\t" + screens[|screens| - 1].name + ":\n")
  }

  function IndentedLines(lines: seq<string>): string
  {
    if lines == [] then "" else IndentedLines(lines[..|lines| - 1]) + ("\t\t" + lines[|lines| - 1] + "\n")
  }

  function AliasBlock(s: Screen): string
  {
    if s.aliases == [] then "" else "\t" + s.name + ":\n" + IndentedLines(s.aliases)
  }

  function AliasLines(screens: seq<Screen>): string
  {
    if screens == [] then "" else AliasLines(screens[..|screens| - 1]) + AliasBlock(screens[|screens| - 1])
  }

  function EdgeLine(e: Edge): string
  {
    "\t\t" + e.side.Text() + "(0,100) = " + e.to + "(0,100)\n"
  }

  function EdgeLines(edges: seq<Edge>): string
  {
    if edges == [] then "" else EdgeLines(edges[..|edges| - 1]) + EdgeLine(edges[|edges| - 1])
  }

  function GroupBlock(g: Group): string
  {
    "\t" + g.from + ":\n" + EdgeLines(g.edges)
  }

  function GroupLines(groups: seq<Group>): string
  {
    if groups == [] then "" else GroupLines(groups[..|groups| - 1]) + GroupBlock(groups[|groups| - 1])
  }

  function OptionLines(options: seq<(string, string)>): string
  {
    if options == [] then ""
    else
      var (key, value) := options[|options| - 1];
      OptionLines(options[..|options| - 1]) + "\t" + key + " = " + value + "\n"
  }

  function AliasSection(screens: seq<Screen>): string
  {
    if exists i :: 0 <= i < |screens| && screens[i].aliases != []
    then "section: aliases\n" + AliasLines(screens) + "end\n\n" else ""
  }

  function LinkSection(links: seq<Link>): string
  {
    if links == [] then "" else "section: links\n" + GroupLines(Grouped(links)) + "end\n\n"
  }

  function OptionSection(options: seq<(string, string)>, clipboardSharing: bool): string
  {
    if options == [] && clipboardSharing then ""
    else "section: options\n" + (if clipboardSharing then "" else "\tclipboardSharing = false\n")
         + OptionLines(options) + "end\n"
  }

  const BANNER := "# Generated by Synbad. DO NOT EDIT \U{2014} regenerated from config.toml.\n\nsection: screens\n"

  function Layout(screens: seq<Screen>, links: seq<Link>, options: seq<(string, string)>,
      clipboardSharing: bool): string
  {
    (BANNER + ScreenLines(screens) + "end\n\n")
    + (AliasSection(screens) + (LinkSection(links) + OptionSection(options, clipboardSharing)))
  }

  /** The screen-layout `.conf`. */
  function SynergyConf(c: Config): string
  {
    Layout(c.screens, c.links, c.options, c.clipboardSharing)
  }

  const INI_BANNER := "; Generated by Synbad. DO NOT EDIT \U{2014} regenerated from config.toml.\n\n[core]\n"

  function ModeText(role: NodeRole): string
  {
    if role == Client then "1" else "2"
  }

  function RoleSection(role: NodeRole, remote: Option<string>, confPath: string): string
  {
    match role
    case Client => "[client]\n" + (match remote case Some(a) => "remoteHost=" + a + "\n" case None => "")
    case Server => "[server]\nexternalConfig=true\nexternalConfigFile=" + confPath + "\n"
  }

  function Settings(role: NodeRole, name: string, port: nat, remote: Option<string>, confPath: string): string
  {
    INI_BANNER
    + ("coreMode=" + ModeText(role) + "\n"
       + ("computerName=" + name + "\n"
          + ("port=" + Decimal(port) + "\n"
             + ("processMode=1\n\n" + RoleSection(role, remote, confPath)))))
  }

  /** The settings INI the unified Core reads. */
  function DeskflowSettings(c: Config, p: Platform): string
  {
    Settings(c.role, c.serverName, c.port, RemoteAddress(c, p), p.confPath)
  }

  datatype CoreLayout = Unified(path: string) | SplitLegacy(server: string, client: string)

  datatype Command = Command(program: string, args: seq<string>)

  /** Program and argument vector; fails only for a split-layout client with no server address. */
  function BuildCommand(layout: CoreLayout, c: Config, p: Platform): (r: Result<Command, ConfigError>)
    ensures r.Failure? <==> layout.SplitLegacy? && c.role == Client && c.serverAddress.None?
    ensures Valid(c) ==> r.Success?
    ensures r.Success? ==> r.value.program == match layout
                                              case Unified(path) => path
                                              case SplitLegacy(server, client) => if c.role == Server then server
                                                  else client
  {
    match (layout, c.role)
    case (Unified(path), role) =>
      Success(Command(path, [if role == Server then "server" else "client", "-s", p.settingsPath]))
    case (SplitLegacy(server, _), Server) =>
      Success(Command(server, ["-f", "-1", "-n", c.serverName, "-a", ":" + Decimal(c.port), "-c", p.confPath]))
    case (SplitLegacy(_, client), Client) =>
      match RemoteAddress(c, p)
      case Some(address) => Success(Command(client, ["-f", "-1", "-n", c.serverName, address]))
      case None => Failure(ClientWithoutServer)
  }

  /** Everything a Core child is started from, for a resolved layout. */
  datatype Artefacts = Artefacts(role: NodeRole, conf: string, settings: string, command: Result<Command, ConfigError>)

  function ArtefactsOf(layout: CoreLayout, c: Config, p: Platform): Artefacts
  {
    Artefacts(c.role, SynergyConf(c), DeskflowSettings(c, p), BuildCommand(layout, c, p))
  }

  /** Edits the daemon applies without a restart cannot have changed anything the Core reads. */
  lemma SameCoreInputsSameArtefacts(layout: CoreLayout, c: Config, d: Config, p: Platform)
    requires !CoreInputsDiffer(c, d)
    ensures ArtefactsOf(layout, c, p) == ArtefactsOf(layout, d, p)
  {
    SameCoreInputsSameFields(c, d);
    SameFieldsSameCommand(layout, c, d, p);
  }

  lemma SameFieldsSameCommand(layout: CoreLayout, c: Config, d: Config, p: Platform)
    requires c.role == d.role && c.serverName == d.serverName && c.serverAddress == d.serverAddress && c.port == d.port
    ensures BuildCommand(layout, c, p) == BuildCommand(layout, d, p) && DeskflowSettings(c, p) == DeskflowSettings(d, p)
  {
    assert RemoteAddress(c, p) == RemoteAddress(d, p);
  }

  lemma SameCoreInputsSameFields(c: Config, d: Config)
    requires !CoreInputsDiffer(c, d)
    ensures c.role == d.role && c.serverName == d.serverName && c.serverAddress == d.serverAddress && c.port == d.port
    ensures c.screens == d.screens && c.links == d.links && c.options == d.options
    ensures c.clipboardSharing == d.clipboardSharing
  {
    var v, w := CoreView(c), CoreView(d);
    assert v.role == w.role && v.serverName == w.serverName && v.serverAddress == w.serverAddress && v.port == w.port;
    assert v.screens == w.screens && v.links == w.links && v.options == w.options
        && v.clipboardSharing == w.clipboardSharing;
  }
}
