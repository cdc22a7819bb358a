/** What the GUI shows of the daemon: snapshots fetched after subscribing, then the event stream,
    against the daemon's own fields. */
module Replay {
  import opened Configuration
  import Supervision

  type DaemonState = Supervision.DaemonState

  /** The part of a peer's announcement whose change is broadcast. */
  datatype Advert = Advert(fingerprint: string, configHead: string, audioPort: nat, host: string,
                           addresses: seq<string>, servicePort: nat, syncPort: nat, corePort: nat,
                           displayName: string)

  datatype Peer = Peer(machineId: string, advert: Advert, protocolVersion: nat)

  datatype Event =
    | State(state: DaemonState)
    | PeerConnected(name: string)
    | PeerDisconnected(name: string)
    | ActiveScreen(name: string)
    | PeerDiscovered(peer: Peer)
    | PeerLost(machineId: string)
    | Other

  /** The daemon's state, its Core's clients, the active screen, and the peers in sight. */
  datatype View = View(state: DaemonState, connected: set<string>, screen: Option<string>, peers: map<string, Advert>)

  function Adverts(peers: map<string, Peer>): map<string, Advert>
  {
    map id | id in peers :: peers[id].advert
  }

  /** An event that can be recognised in a line of Core output. */
  predicate FromLog(e: Event)
  {
    e.PeerConnected? || e.PeerDisconnected? || e.ActiveScreen?
  }

  // ---------- events as overwrites ----------

  /** What one event says about the view. */
  function Effect(v: View, e: Event): View
  {
    match e
    case State(s) =>
      if s.IsRunning() then v.(state := s) else v.(state := s, connected := {}, screen := None)
    case PeerConnected(name) => v.(connected := v.connected + {name})
    case PeerDisconnected(name) => v.(connected := v.connected - {name})
    case ActiveScreen(name) => v.(screen := Some(name))
    case PeerDiscovered(peer) => v.(peers := v.peers[peer.machineId := peer.advert])
    case PeerLost(id) => v.(peers := v.peers - {id})
    case Other => v
  }

  function Folded(v: View, events: seq<Event>): View
  {
    if events == [] then v else Effect(Folded(v, events[..|events| - 1]), events[|events| - 1])
  }

  lemma {:induction false} FoldedInParts(v: View, a: seq<Event>, b: seq<Event>)
    ensures Folded(v, a + b) == Folded(Folded(v, a), b)
  {
    if b == [] {
      assert a + b == a;
    } else {
      FoldedInParts(v, a, b[..|b| - 1]);
      assert (a + b)[..|a + b| - 1] == a + b[..|b| - 1];
    }
  }

  // ---------- cells ----------

  /** A view taken apart: an event overwrites a cell or leaves it. */
  datatype Cell = StateCell | ScreenCell | ClientCell(name: string) | PeerCell(id: string)

  datatype Content =
    | StateIs(state: DaemonState)
    | ScreenIs(screen: Option<string>)
    | ClientIs(connected: bool)
    | PeerIs(advert: Option<Advert>)

  function At(v: View, cell: Cell): Content
  {
    match cell
    case StateCell => StateIs(v.state)
    case ScreenCell => ScreenIs(v.screen)
    case ClientCell(name) => ClientIs(name in v.connected)
    case PeerCell(id) => PeerIs(if id in v.peers then Some(v.peers[id]) else None)
  }

  /** What an event writes into a cell, if it writes there. */
  function Writes(e: Event, cell: Cell): Option<Content>
  {
    match (e, cell)
    case (State(s), StateCell) => Some(StateIs(s))
    case (State(s), ScreenCell) => if s.IsRunning() then None else Some(ScreenIs(None))
    case (State(s), ClientCell(_)) => if s.IsRunning() then None else Some(ClientIs(false))
    case (PeerConnected(n), ClientCell(name)) => if n == name then Some(ClientIs(true)) else None
    case (PeerDisconnected(n), ClientCell(name)) => if n == name then Some(ClientIs(false)) else None
    case (ActiveScreen(n), ScreenCell) => Some(ScreenIs(Some(n)))
    case (PeerDiscovered(peer), PeerCell(id)) => if peer.machineId == id then Some(PeerIs(Some(peer.advert))) else None
    case (PeerLost(lost), PeerCell(id)) => if lost == id then Some(PeerIs(None)) else None
    case _ => None
  }

  lemma EffectAt(v: View, e: Event, cell: Cell)
    ensures At(Effect(v, e), cell) == if Writes(e, cell).Some? then Writes(e, cell).value else At(v, cell)
  {
  }

  lemma SameCellsSameView(u: View, v: View)
    requires forall cell :: At(u, cell) == At(v, cell)
    ensures u == v
  {
    SameCellsSamePart(StatusPart, u, v);
    SameCellsSamePart(PeersPart, u, v);
  }

  /** Views that one event makes equal stay so whatever event comes in between. */
  lemma EffectsOverwrite(u: View, v: View, e: Event, between: Event)
    requires Effect(u, e) == Effect(v, e)
    ensures Effect(Effect(u, between), e) == Effect(Effect(v, between), e)
  {
    forall cell ensures At(Effect(Effect(u, between), e), cell) == At(Effect(Effect(v, between), e), cell) {
      EffectAt(u, e, cell);
      EffectAt(v, e, cell);
      EffectAt(u, between, cell);
      EffectAt(v, between, cell);
      EffectAt(Effect(u, between), e, cell);
      EffectAt(Effect(v, between), e, cell);
    }
    SameCellsSameView(Effect(Effect(u, between), e), Effect(Effect(v, between), e));
  }

  /** An event's first occurrence is redundant when it occurs again after any others. */
  lemma {:induction false} FirstOccurrenceRedundant(u: View, v: View, e: Event, others: seq<Event>)
    requires Effect(u, e) == Effect(v, e)
    ensures Effect(Folded(u, others), e) == Effect(Folded(v, others), e)
  {
    if others != [] {
      var front := others[..|others| - 1];
      FirstOccurrenceRedundant(u, v, e, front);
      EffectsOverwrite(Folded(u, front), Folded(v, front), e, others[|others| - 1]);
    }
  }

  lemma EffectTwice(v: View, e: Event)
    ensures Effect(Effect(v, e), e) == Effect(v, e)
  {
  }

  /** Replaying the same events over their own result changes nothing. */
  lemma {:induction false} ReplayIsIdempotent(v: View, events: seq<Event>)
    ensures Folded(Folded(v, events), events) == Folded(v, events)
  {
    if events != [] {
      var front, e := events[..|events| - 1], events[|events| - 1];
      var w := Folded(v, front);
      ReplayIsIdempotent(v, front);
      EffectTwice(w, e);
      FirstOccurrenceRedundant(Effect(w, e), w, e, front);
    }
  }

  // ---------- the two halves of a view ----------

  datatype Part = StatusPart | PeersPart

  predicate Same(part: Part, u: View, v: View)
  {
    match part
    case StatusPart => u.state == v.state && u.connected == v.connected && u.screen == v.screen
    case PeersPart => u.peers == v.peers
  }

  function PartOf(cell: Cell): Part
  {
    if cell.PeerCell? then PeersPart else StatusPart
  }

  /** Views have a part in common exactly when they agree on its cells. */
  lemma SameCellsSamePart(part: Part, u: View, v: View)
    ensures Same(part, u, v) <==> forall cell :: PartOf(cell) == part ==> At(u, cell) == At(v, cell)
  {
    if forall cell :: PartOf(cell) == part ==> At(u, cell) == At(v, cell) {
      if part == StatusPart {
        assert At(u, StateCell) == At(v, StateCell) && At(u, ScreenCell) == At(v, ScreenCell);
        forall name ensures name in u.connected <==> name in v.connected {
          assert At(u, ClientCell(name)) == At(v, ClientCell(name));
        }
      } else {
        forall id ensures (id in u.peers <==> id in v.peers) && (id in u.peers ==> u.peers[id] == v.peers[id]) {
          assert At(u, PeerCell(id)) == At(v, PeerCell(id));
        }
        assert u.peers == v.peers;
      }
    }
  }

  /** Some of these events writes into the cell. */
  predicate WrittenIn(events: seq<Event>, cell: Cell)
  {
    exists i :: 0 <= i < |events| && Writes(events[i], cell).Some?
  }

  /** After any events, two views agree on a cell exactly when one of the events wrote there or
      they agreed before. */
  lemma {:induction false} FoldedAgreeAt(u: View, v: View, events: seq<Event>, cell: Cell)
    ensures At(Folded(u, events), cell) == At(Folded(v, events), cell) <==> WrittenIn(events, cell) || At(u, cell) == At(v, cell)
  {
    if events != [] {
      var front, e := events[..|events| - 1], events[|events| - 1];
      FoldedAgreeAt(u, v, front, cell);
      EffectAt(Folded(u, front), e, cell);
      EffectAt(Folded(v, front), e, cell);
      assert events == front + [e];
      if WrittenIn(front, cell) {
        var i :| 0 <= i < |front| && Writes(front[i], cell).Some?;
        assert Writes(events[i], cell).Some?;
      }
    }
  }

  lemma {:induction false} UnwrittenStays(v: View, events: seq<Event>, cell: Cell)
    ensures WrittenIn(events, cell) || At(Folded(v, events), cell) == At(v, cell)
  {
    if events != [] {
      var front, e := events[..|events| - 1], events[|events| - 1];
      UnwrittenStays(v, front, cell);
      EffectAt(Folded(v, front), e, cell);
      if WrittenIn(front, cell) {
        var i :| 0 <= i < |front| && Writes(front[i], cell).Some?;
        assert Writes(events[i], cell).Some?;
      } else if Writes(e, cell).Some? {
        assert Writes(events[|events| - 1], cell).Some?;
      }
    }
  }

  lemma {:induction false} FoldKeepsSame(part: Part, u: View, v: View, events: seq<Event>)
    requires Same(part, u, v)
    ensures Same(part, Folded(u, events), Folded(v, events))
  {
    if events != [] {
      FoldKeepsSame(part, u, v, events[..|events| - 1]);
    }
  }

  // ---------- the daemon ----------

  /** What makes the daemon change a visible field: a lifecycle transition, a line of Core output
      with what was recognised in it, and peers coming and going. */
  datatype Activity = Becomes(newState: DaemonState) | Logs(structured: Option<Event>) | Finds(peer: Peer) | Loses(id: string)

  /** The supervisor's fields a client can see, and every event it has broadcast. */
  class Daemon {
    var state: DaemonState
    var connectedPeers: set<string>
    var activeScreen: Option<string>
    var peers: map<string, Peer>
    var bus: seq<Event>

    ghost function Visible(): View
      reads this
    {
      View(state, connectedPeers, activeScreen, Adverts(peers))
    }

    constructor ()
      ensures Visible() == Started() && bus == []
      ensures state == Supervision.Stopped && connectedPeers == {} && activeScreen.None? && peers == map[]
    {
      state, connectedPeers, activeScreen, peers, bus := Supervision.Stopped, {}, None, map[], [];
    }

    /** The broadcasts so far account for everything a client can see. */
    ghost predicate Accounted()
      reads this
    {
      Visible() == Folded(Started(), bus)
    }

    /** Whatever the daemon does next, its broadcasts still account for what can be seen of it. */
    method Turn(op: Activity)
      requires Accounted()
      modifies this
      ensures Accounted() && old(bus) <= bus
      ensures op.Becomes? ==> state == op.newState
      ensures op.Finds? ==> peers == old(peers)[op.peer.machineId := op.peer]
      ensures op.Loses? ==> peers == old(peers) - {op.id}
      ensures op.Logs? && op.structured.Some? && FromLog(op.structured.value) ==>
                bus == old(bus) + [op.structured.value] + [Other]
    {
      ghost var before := bus;
      match op {
        case Becomes(newState) => SetState(newState);
        case Logs(structured) =>
          if structured.Some? && !FromLog(structured.value) {
            RecordLog(None);
          } else {
            RecordLog(structured);
          }
        case Finds(peer) => Found(peer);
        case Loses(id) => Lost(id);
      }
      FoldedInParts(Started(), before, bus[|before|..]);
      assert before + bus[|before|..] == bus;
    }

    /** Each of these methods broadcasts events that account for exactly what it changed. */
    method SetState(newState: DaemonState)
      modifies this
      ensures old(bus) <= bus && Visible() == Folded(old(Visible()), bus[|old(bus)|..])
      ensures state == newState && peers == old(peers)
      ensures bus == if newState == old(state) then old(bus) else old(bus) + [State(newState)]
      ensures if newState == old(state) || newState.Running? || newState.Starting?
              then connectedPeers == old(connectedPeers) && activeScreen == old(activeScreen)
              else connectedPeers == {} && activeScreen.None?
    {
      if state != newState {
        if !newState.IsRunning() {
          connectedPeers, activeScreen := {}, None;
        }
        state := newState;
        Broadcast(State(newState));
      }
    }

    method RecordLog(structured: Option<Event>)
      requires structured.Some? ==> FromLog(structured.value)
      modifies this
      ensures old(bus) <= bus && Visible() == Folded(old(Visible()), bus[|old(bus)|..])
      ensures state == old(state) && peers == old(peers)
      ensures bus == old(bus) + (if structured.Some? then [structured.value] else []) + [Other]
      ensures connectedPeers == match structured
                                case Some(PeerConnected(name)) => old(connectedPeers) + {name}
                                case Some(PeerDisconnected(name)) => old(connectedPeers) - {name}
                                case _ => old(connectedPeers)
      ensures activeScreen == match structured
                              case Some(ActiveScreen(name)) => Some(name)
                              case _ => old(activeScreen)
    {
      ghost var v, sent := Visible(), bus;
      if structured.Some? {
        match structured.value {
          case PeerConnected(name) => connectedPeers := connectedPeers + {name};
          case PeerDisconnected(name) => connectedPeers := connectedPeers - {name};
          case ActiveScreen(name) => activeScreen := Some(name);
        }
        Broadcast(structured.value);
        Broadcast(Other);
        assert bus[|sent|..] == [structured.value] + [Other];
        FoldedInParts(v, [structured.value], [Other]);
      } else {
        Broadcast(Other);
        assert bus[|sent|..] == [Other];
      }
    }

    method Found(peer: Peer)
      modifies this
      ensures old(bus) <= bus && Visible() == Folded(old(Visible()), bus[|old(bus)|..])
      ensures peers == old(peers)[peer.machineId := peer] && state == old(state)
      ensures bus == if peer.machineId in old(peers) && old(peers)[peer.machineId].advert == peer.advert then old(bus)
                     else old(bus) + [PeerDiscovered(peer)]
    {
      var wasPresent := peer.machineId in peers;
      var sameAdvert := wasPresent && peers[peer.machineId].advert == peer.advert;
      ghost var was := peers;
      peers := peers[peer.machineId := peer];
      assert Adverts(peers) == Adverts(was)[peer.machineId := peer.advert];
      if !sameAdvert || !wasPresent {
        Broadcast(PeerDiscovered(peer));
      } else {
        assert Adverts(peers) == Adverts(was);
      }
    }

    method Lost(id: string)
      modifies this
      ensures old(bus) <= bus && Visible() == Folded(old(Visible()), bus[|old(bus)|..])
      ensures peers == old(peers) - {id} && state == old(state)
      ensures bus == if id in old(peers) then old(bus) + [PeerLost(id)] else old(bus)
    {
      ghost var was := peers;
      if id in peers {
        peers := peers - {id};
        assert Adverts(peers) == Adverts(was) - {id};
        Broadcast(PeerLost(id));
      } else {
        assert peers - {id} == peers;
      }
    }

    method Broadcast(e: Event)
      modifies `bus
      ensures bus == old(bus) + [e] && bus[|old(bus)|..] == [e]
      ensures forall v :: Folded(v, [e]) == Effect(v, e)
    {
      bus := bus + [e];
      forall v ensures Folded(v, [e]) == Effect(v, e) { FoldedOne(v, e); }
    }
  }

  function Started(): View
  {
    View(Supervision.Stopped, {}, None, map[])
  }

  lemma FoldedOne(v: View, e: Event)
    ensures Folded(v, [e]) == Effect(v, e)
  {
    assert [e][..0] == [];
    assert Folded(v, [e][..0]) == v;
  }

  // ---------- the GUI ----------

  datatype Update =
    | Status(state: DaemonState, connected: set<string>, screen: Option<string>)
    | PeerSnapshot(peers: seq<Peer>)
    | Change(event: Event)
    | Connected
    | Disconnected

  /** What one update makes of the view the window shows. */
  function Applied(v: View, u: Update): View
  {
    match u
    case Status(state, connected, screen) => v.(state := state, connected := connected, screen := screen)
    case PeerSnapshot(peers) => v.(peers := Adverts(ById(peers)))
    case Change(event) => Effect(v, event)
    case Connected => v
    case Disconnected => v.(connected := {}, screen := None, peers := map[])
  }

  /** A window that has lost its daemon shows no clients, no screen and no peers, and keeps the last
      state it knew. */
  lemma DisconnectedShowsNothing(v: View, updates: seq<Update>)
    ensures var w := AppliedAll(v, updates + [Disconnected]);
            && w.connected == {} && w.screen.None? && w.peers == map[]
            && w.state == AppliedAll(v, updates).state
  {
    assert (updates + [Disconnected])[..|updates|] == updates;
  }

  /** Whether the last word on the connection was that it stands. */
  function ConnectedAfter(before: bool, updates: seq<Update>): bool
  {
    if updates == [] then before
    else
      var last := updates[|updates| - 1];
      if last == Connected then true
      else if last == Disconnected then false
      else ConnectedAfter(before, updates[..|updates| - 1])
  }

  function AppliedAll(v: View, updates: seq<Update>): View
  {
    if updates == [] then v else Applied(AppliedAll(v, updates[..|updates| - 1]), updates[|updates| - 1])
  }

  function ById(peers: seq<Peer>): map<string, Peer>
  {
    if peers == [] then map[]
    else var p := peers[|peers| - 1]; ById(peers[..|peers| - 1])[p.machineId := p]
  }

  class Gui {
    var state: DaemonState
    var connectedPeers: set<string>
    var activeScreen: Option<string>
    var discoveredPeers: map<string, Peer>
    var isConnected: bool

    ghost function Shown(): View
      reads this
    {
      View(state, connectedPeers, activeScreen, Adverts(discoveredPeers))
    }

    constructor ()
      ensures Shown() == Started() && !isConnected
    {
      state, connectedPeers, activeScreen, discoveredPeers, isConnected := Supervision.Stopped, {}, None, map[], false;
    }

    /** Handle every update waiting in the channel, in order. */
    method DrainIpc(updates: seq<Update>)
      modifies this
      ensures Shown() == AppliedAll(old(Shown()), updates) && isConnected == ConnectedAfter(old(isConnected), updates)
    {
      for i := 0 to |updates|
        invariant isConnected == ConnectedAfter(old(isConnected), updates[..i])
        invariant Shown() == AppliedAll(old(Shown()), updates[..i])
      {
        assert updates[..i + 1][..i] == updates[..i];
        match updates[i] {
          case Connected => isConnected := true;
          case Disconnected =>
            isConnected, connectedPeers, activeScreen, discoveredPeers := false, {}, None, map[];
          case Status(s, connected, screen) =>
            state, connectedPeers, activeScreen := s, connected, screen;
          case PeerSnapshot(peers) => ReplacePeers(peers);
          case Change(event) => HandleEvent(event);
        }
      }
      assert updates[..|updates|] == updates;
    }

    method ReplacePeers(peers: seq<Peer>)
      modifies `discoveredPeers
      ensures discoveredPeers == ById(peers)
    {
      discoveredPeers := map[];
      for i := 0 to |peers|
        invariant discoveredPeers == ById(peers[..i])
      {
        discoveredPeers := discoveredPeers[peers[i].machineId := peers[i]];
        assert peers[..i + 1][..i] == peers[..i];
      }
      assert peers[..|peers|] == peers;
    }

    method HandleEvent(event: Event)
      modifies this
      ensures Shown() == Effect(old(Shown()), event) && isConnected == old(isConnected)
      ensures event.PeerDiscovered? ==> discoveredPeers == old(discoveredPeers)[event.peer.machineId := event.peer]
      ensures event.PeerLost? ==> discoveredPeers == old(discoveredPeers) - {event.machineId}
    {
      match event
      case State(s) =>
        if !s.IsRunning() {
          connectedPeers, activeScreen := {}, None;
        }
        state := s;
      case PeerConnected(name) => connectedPeers := connectedPeers + {name};
      case PeerDisconnected(name) => connectedPeers := connectedPeers - {name};
      case ActiveScreen(name) => activeScreen := Some(name);
      case PeerDiscovered(peer) =>
        ghost var was := discoveredPeers;
        discoveredPeers := discoveredPeers[peer.machineId := peer];
        assert Adverts(discoveredPeers) == Adverts(was)[peer.machineId := peer.advert];
      case PeerLost(id) =>
        ghost var was := discoveredPeers;
        discoveredPeers := discoveredPeers - {id};
        assert Adverts(discoveredPeers) == Adverts(was) - {id};
      case Other =>
    }
  }
}
