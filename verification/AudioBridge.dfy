/** The audio bridge: one session per peer, kept in line with the configuration command by command. */
module AudioBridge {
  import opened Configuration

  /** Which directions a session carries and the device each was opened on; `None` inside is the
      operating system's default. The `live` flags tell whether opening succeeded. */
  datatype Session = Session(capture: Option<Option<string>>, playback: Option<Option<string>>,
                             captureLive: bool, playbackLive: bool)

  datatype AudioEvent = PeerStatus(peer: string) | Error(peer: string) | SessionClosed(peer: string)

  /** What opening the devices and the media socket comes to. */
  datatype Opening = Opening(capture: bool, playback: bool, socket: bool)

  datatype Command =
    | IncomingSignal(peer: string, trusted: set<string>, opening: Opening)
    | Reconfigure(config: AudioConfig)
    | ClosePeer(peer: string)
    | Reap(trusted: set<string>, finished: set<string>)
    | Query

  // ---------- routing ----------

  predicate WantsSend(cfg: AudioConfig, peer: string)
  {
    peer in cfg.perPeer ==> cfg.perPeer[peer].enabled && cfg.perPeer[peer].sendToPeer
  }

  predicate WantsReceive(cfg: AudioConfig, peer: string)
  {
    peer in cfg.perPeer ==> cfg.perPeer[peer].enabled && cfg.perPeer[peer].receiveFromPeer
  }

  predicate Active(cfg: AudioConfig, peer: string)
  {
    cfg.enabled &&
    if peer in cfg.perPeer then
      cfg.perPeer[peer].enabled && (cfg.perPeer[peer].sendToPeer || cfg.perPeer[peer].receiveFromPeer)
    else true
  }

  /** A peer deserves a session exactly when one in some direction would be started. */
  lemma ActiveIffSomeDirection(cfg: AudioConfig, peer: string)
    ensures Active(cfg, peer) <==> cfg.enabled && (WantsSend(cfg, peer) || WantsReceive(cfg, peer))
  {
  }

  /** The session is what starting it now would ask for. */
  predicate AsFresh(cfg: AudioConfig, peer: string, s: Session)
  {
    && s.capture == (if WantsSend(cfg, peer) then Some(cfg.inputDevice) else None)
    && s.playback == (if WantsReceive(cfg, peer) then Some(cfg.outputDevice) else None)
  }

  /** Capture feeds the peer and follows its send switch, playback follows its receive switch; without
      an override both are on. */
  predicate RoutedAsConfigured(cfg: AudioConfig, peer: string, s: Session)
  {
    if peer in cfg.perPeer then
      && s.capture == (if cfg.perPeer[peer].enabled && cfg.perPeer[peer].sendToPeer then Some(cfg.inputDevice) else None)
      && s.playback == (if cfg.perPeer[peer].enabled && cfg.perPeer[peer].receiveFromPeer then Some(cfg.outputDevice) else None)
    else s.capture == Some(cfg.inputDevice) && s.playback == Some(cfg.outputDevice)
  }

  /** The session this opening gives: each wanted direction is live exactly if its device opened. */
  predicate Opens(cfg: AudioConfig, peer: string, opening: Opening, s: Session)
  {
    && RoutedAsConfigured(cfg, peer, s)
    && s.captureLive == (s.capture.Some? && opening.capture)
    && s.playbackLive == (s.playback.Some? && opening.playback)
  }

  /** What is reported of the devices: one error for each wanted direction that did not open. */
  function DeviceErrors(cfg: AudioConfig, peer: string, opening: Opening): seq<AudioEvent>
  {
    (if WantsSend(cfg, peer) && !opening.capture then [Error(peer)] else [])
    + (if WantsReceive(cfg, peer) && !opening.playback then [Error(peer)] else [])
  }

  /** What is reported of a whole attempt: the devices, then the outcome. */
  function Attempt(cfg: AudioConfig, peer: string, opening: Opening): seq<AudioEvent>
  {
    DeviceErrors(cfg, peer, opening) + [if opening.socket then PeerStatus(peer) else Error(peer)]
  }

  lemma ReportedInTurn(events: seq<AudioEvent>, capture: seq<AudioEvent>, playback: seq<AudioEvent>)
    ensures (events + capture) + playback == events + (capture + playback)
  {
  }

  lemma OutcomeReportedLast(events: seq<AudioEvent>, cfg: AudioConfig, peer: string, opening: Opening)
    ensures (events + DeviceErrors(cfg, peer, opening)) + [if opening.socket then PeerStatus(peer) else Error(peer)]
            == events + Attempt(cfg, peer, opening)
  {
  }

  /** Every session held is routed by its own switches, never by the other direction's. */
  lemma CurrentMeansRouted(cfg: AudioConfig, sessions: map<string, Session>, peer: string)
    requires Current(cfg, sessions) && peer in sessions
    ensures cfg.enabled && RoutedAsConfigured(cfg, peer, sessions[peer])
    ensures sessions[peer].capture.Some? || sessions[peer].playback.Some?
  {
    ActiveIffSomeDirection(cfg, peer);
  }

  /** Edits of the gains, of the port and of other peers' overrides leave a session alone; a change of
      device, of the master switch or of one of its own directions does not. */
  lemma UnaffectedIff(before: AudioConfig, after: AudioConfig, peer: string)
    ensures before.enabled == after.enabled && before.inputDevice == after.inputDevice
            && before.outputDevice == after.outputDevice
            && (peer in before.perPeer <==> peer in after.perPeer)
            && (peer in before.perPeer ==> before.perPeer[peer] == after.perPeer[peer])
            ==> Unaffected(before, after, peer)
    ensures before.enabled != after.enabled ==> !Unaffected(before, after, peer)
    ensures before.inputDevice != after.inputDevice ==> !Unaffected(before, after, peer)
    ensures before.outputDevice != after.outputDevice ==> !Unaffected(before, after, peer)
    ensures peer in before.perPeer && peer in after.perPeer && before.perPeer[peer].enabled && after.perPeer[peer].enabled
            && (before.perPeer[peer].sendToPeer != after.perPeer[peer].sendToPeer
                || before.perPeer[peer].receiveFromPeer != after.perPeer[peer].receiveFromPeer)
            ==> !Unaffected(before, after, peer)
  {
  }

  /** A change of configuration that leaves a peer's session alone. */
  predicate Unaffected(before: AudioConfig, after: AudioConfig, peer: string)
  {
    && before.inputDevice == after.inputDevice && before.outputDevice == after.outputDevice
    && before.enabled == after.enabled
    && WantsSend(before, peer) == WantsSend(after, peer)
    && WantsReceive(before, peer) == WantsReceive(after, peer)
  }

  /** Every session is wanted and is as it would be started now. */
  ghost predicate Current(cfg: AudioConfig, sessions: map<string, Session>)
  {
    forall peer :: peer in sessions ==> Active(cfg, peer) && AsFresh(cfg, peer, sessions[peer])
  }

  lemma UnaffectedStaysCurrent(before: AudioConfig, after: AudioConfig, sessions: map<string, Session>)
    requires Current(before, sessions) && forall peer :: peer in sessions ==> Unaffected(before, after, peer)
    ensures Current(after, sessions)
  {
    forall peer | peer in sessions ensures Active(after, peer) && AsFresh(after, peer, sessions[peer]) {
      assert Unaffected(before, after, peer);
      ActiveIffSomeDirection(before, peer);
      ActiveIffSomeDirection(after, peer);
    }
  }

  lemma InsertCurrent(cfg: AudioConfig, sessions: map<string, Session>, peer: string, s: Session)
    requires Current(cfg, sessions) && Active(cfg, peer) && AsFresh(cfg, peer, s) && peer !in sessions
    ensures Current(cfg, sessions[peer := s]) && sessions[peer := s] - {peer} == sessions
  {
  }

  // ---------- conservation ----------

  /** The peers reported closed, with multiplicity. */
  ghost function ClosedIn(events: seq<AudioEvent>): multiset<string>
  {
    if events == [] then multiset{}
    else
      var last := events[|events| - 1];
      ClosedIn(events[..|events| - 1]) + if last.SessionClosed? then multiset{last.peer} else multiset{}
  }

  lemma ClosedInAppend(events: seq<AudioEvent>, e: AudioEvent)
    ensures ClosedIn(events + [e]) == ClosedIn(events) + if e.SessionClosed? then multiset{e.peer} else multiset{}
  {
    assert (events + [e])[..|events|] == events;
  }

  /** Every session ever started is still held or was reported closed, exactly once. */
  ghost predicate Balanced(starts: multiset<string>, events: seq<AudioEvent>, sessions: map<string, Session>)
  {
    starts == ClosedIn(events) + multiset(sessions.Keys)
  }

  /** Nothing but closings was reported. */
  ghost predicate OnlyClosings(before: seq<AudioEvent>, after: seq<AudioEvent>)
  {
    before <= after && forall i :: |before| <= i < |after| ==> after[i].SessionClosed?
  }

  lemma OneMoreClosing(before: seq<AudioEvent>, after: seq<AudioEvent>, peer: string)
    requires OnlyClosings(before, after)
    ensures OnlyClosings(before, after + [SessionClosed(peer)])
  {
  }

  lemma CloseBalances(starts: multiset<string>, events: seq<AudioEvent>, sessions: map<string, Session>, peer: string)
    requires Balanced(starts, events, sessions) && peer in sessions
    ensures Balanced(starts, events + [SessionClosed(peer)], sessions - {peer})
  {
    ClosedInAppend(events, SessionClosed(peer));
    assert (sessions - {peer}).Keys == sessions.Keys - {peer};
    assert multiset(sessions.Keys) == multiset(sessions.Keys - {peer}) + multiset{peer};
  }

  lemma StartBalances(starts: multiset<string>, events: seq<AudioEvent>, sessions: map<string, Session>, peer: string,
      s: Session)
    requires Balanced(starts, events, sessions) && peer !in sessions
    ensures Balanced(starts + multiset{peer}, events + [PeerStatus(peer)], sessions[peer := s])
  {
    ClosedInAppend(events, PeerStatus(peer));
    assert sessions[peer := s].Keys == sessions.Keys + {peer};
    assert multiset(sessions.Keys + {peer}) == multiset(sessions.Keys) + multiset{peer};
  }

  lemma ErrorBalances(starts: multiset<string>, events: seq<AudioEvent>, sessions: map<string, Session>, peer: string)
    requires Balanced(starts, events, sessions)
    ensures Balanced(starts, events + [Error(peer)], sessions)
  {
    ClosedInAppend(events, Error(peer));
  }

  lemma WithoutAbsent(m: map<string, Session>, peer: string)
    requires peer !in m
    ensures m - {peer} == m
  {
  }

  lemma RemoveMore(m: map<string, Session>, gone: set<string>, left: set<string>, peer: string)
    requires left <= (m - gone).Keys && peer in left
    ensures (m - gone) - {peer} == m - (gone + {peer})
    ensures (gone + {peer}) + (left - {peer}) == gone + left
    ensures left - {peer} <= (m - (gone + {peer})).Keys
  {
  }

  /** Whether the peer has a session after the command: an accepted connection decides for its own peer,
      every other command only takes sessions away. */
  predicate Keeps(cfg: AudioConfig, sessions: map<string, Session>, command: Command, peer: string)
  {
    match command
    case IncomingSignal(_, _, opening) =>
      if Accepts(cfg, command, peer) then opening.socket else peer in sessions
    case Reconfigure(after) => peer in sessions && Unaffected(cfg, after, peer)
    case ClosePeer(from) => peer in sessions && peer != from
    case Reap(trusted, finished) => peer in sessions && peer in trusted && peer !in finished
    case Query => peer in sessions
  }

  /** The sessions a command leaves: those it keeps, as they were, and the one it opened. */
  ghost predicate Outcome(cfg: AudioConfig, before: map<string, Session>, command: Command, after: map<string, Session>)
  {
    && (forall peer :: peer in after <==> Keeps(cfg, before, command, peer))
    && (forall peer :: peer in after ==>
          if Accepts(cfg, command, peer) then Opens(cfg, peer, command.opening, after[peer])
          else peer in before && after[peer] == before[peer])
  }

  /** The command is a connection from the peer that is accepted. */
  predicate Accepts(cfg: AudioConfig, command: Command, peer: string)
  {
    command.IncomingSignal? && peer == command.peer && peer in command.trusted && Active(cfg, peer)
  }

  lemma AcceptedOutcome(cfg: AudioConfig, before: map<string, Session>, command: Command, after: map<string, Session>)
    requires command.IncomingSignal? && Accepts(cfg, command, command.peer)
    requires (command.peer in after <==> command.opening.socket) && after - {command.peer} == before - {command.peer}
    requires command.peer in after ==> Opens(cfg, command.peer, command.opening, after[command.peer])
    ensures Outcome(cfg, before, command, after)
  {
    forall peer | peer != command.peer
      ensures peer in after <==> peer in before
      ensures peer in after ==> after[peer] == before[peer]
    {
      assert peer in after <==> peer in after - {command.peer};
      assert peer in before <==> peer in before - {command.peer};
    }
  }

  // ---------- the bridge ----------

  class Bridge {
    var config: AudioConfig
    var sessions: map<string, Session>
    var inputGain: real
    var outputGain: real
    var events: seq<AudioEvent>
    ghost var starts: multiset<string>

    ghost predicate Valid()
      reads this
    {
      && Current(config, sessions) && Balanced(starts, events, sessions)
      && inputGain == config.inputGain && outputGain == config.outputGain
    }

    constructor (config: AudioConfig)
      ensures Valid() && this.config == config && sessions == map[] && events == []
    {
      this.config, inputGain, outputGain := config, config.inputGain, config.outputGain;
      sessions, events, starts := map[], [], multiset{};
    }

    /** Drop these sessions, reporting each one. */
    method CloseAll(peers: set<string>)
      requires Balanced(starts, events, sessions) && peers <= sessions.Keys
      modifies `sessions, `events
      ensures Balanced(starts, events, sessions)
      ensures sessions == old(sessions) - peers && OnlyClosings(old(events), events)
    {
      var left := peers;
      ghost var gone: set<string> := {};
      assert sessions - gone == sessions;
      while left != {}
        invariant gone + left == peers && left <= sessions.Keys
        invariant Balanced(starts, events, sessions)
        invariant sessions == old(sessions) - gone && OnlyClosings(old(events), events)
        decreases |left|
      {
        var peer :| peer in left;
        RemoveMore(old(sessions), gone, left, peer);
        OneMoreClosing(old(events), events, peer);
        CloseOne(peer);
        gone, left := gone + {peer}, left - {peer};
      }
      assert gone == peers;
    }

    method CloseOne(peer: string)
      requires Balanced(starts, events, sessions) && peer in sessions
      modifies `sessions, `events
      ensures Balanced(starts, events, sessions)
      ensures sessions == old(sessions) - {peer} && events == old(events) + [SessionClosed(peer)]
    {
      CloseBalances(starts, events, sessions, peer);
      sessions := sessions - {peer};
      events := events + [SessionClosed(peer)];
    }

    /** Open the wanted directions; a device that will not open is reported and left silent, a
        media socket that will not bind ends the attempt. */
    method StartSession(peer: string, opening: Opening) returns (r: Option<Session>)
      requires Balanced(starts, events, sessions)
      modifies `events
      ensures Balanced(starts, events, sessions) && old(events) <= events
      ensures r.Some? <==> opening.socket
      ensures r.Some? ==> AsFresh(config, peer, r.value) && Opens(config, peer, opening, r.value)
      ensures events == old(events) + DeviceErrors(config, peer, opening)
    {
      var capture: Option<Option<string>>, playback: Option<Option<string>> := None, None;
      if WantsSend(config, peer) {
        capture := Some(config.inputDevice);
      }
      if WantsReceive(config, peer) {
        playback := Some(config.outputDevice);
      }
      ghost var silent, mute := capture.Some? && !opening.capture, playback.Some? && !opening.playback;
      ReportedInTurn(events, if silent then [Error(peer)] else [], if mute then [Error(peer)] else []);
      ReportIf(capture.Some? && !opening.capture, peer);
      ReportIf(playback.Some? && !opening.playback, peer);
      if !opening.socket {
        return None;
      }
      return Some(Session(capture, playback, capture.Some? && opening.capture, playback.Some? && opening.playback));
    }

    method ReportIf(failed: bool, peer: string)
      requires Balanced(starts, events, sessions)
      modifies `events
      ensures Balanced(starts, events, sessions) && events == old(events) + if failed then [Error(peer)] else []
    {
      if failed { Report(peer); }
    }

    method Report(peer: string)
      requires Balanced(starts, events, sessions)
      modifies `events
      ensures Balanced(starts, events, sessions) && events == old(events) + [Error(peer)]
    {
      ErrorBalances(starts, events, sessions, peer);
      events := events + [Error(peer)];
    }

    method Keep(peer: string, session: Session)
      requires Valid() && Active(config, peer) && AsFresh(config, peer, session) && peer !in sessions
      modifies `sessions, `events, `starts
      ensures Valid() && sessions == old(sessions)[peer := session] && events == old(events) + [PeerStatus(peer)]
      ensures peer in sessions && sessions - {peer} == old(sessions)
    {
      StartBalances(starts, events, sessions, peer, session);
      InsertCurrent(config, sessions, peer, session);
      sessions := sessions[peer := session];
      starts := starts + multiset{peer};
      events := events + [PeerStatus(peer)];
    }

    /** A connection from a peer. The newer connection replaces an existing session. */
    method OnIncoming(peer: string, trusted: set<string>, opening: Opening)
      requires Valid()
      modifies this
      ensures Valid() && config == old(config) && old(events) <= events
      ensures peer !in trusted || !Active(config, peer) ==> sessions == old(sessions) && events == old(events)
      ensures peer in trusted && Active(config, peer) ==>
                && (peer in sessions <==> opening.socket) && sessions - {peer} == old(sessions) - {peer}
                && (opening.socket ==> Opens(config, peer, opening, sessions[peer]))
                && events == old(events) + (if peer in old(sessions) then [SessionClosed(peer)] else [])
                             + Attempt(config, peer, opening)
    {
      if peer !in trusted || !Active(config, peer) {
        return;
      }
      Replace(peer, opening);
    }

    /** The newer connection wins. */
    method Replace(peer: string, opening: Opening)
      requires Valid() && Active(config, peer)
      modifies this
      ensures Valid() && config == old(config) && old(events) <= events
      ensures (peer in sessions <==> opening.socket) && sessions - {peer} == old(sessions) - {peer}
      ensures opening.socket ==> Opens(config, peer, opening, sessions[peer])
      ensures events == old(events) + (if peer in old(sessions) then [SessionClosed(peer)] else [])
                        + Attempt(config, peer, opening)
    {
      if peer in sessions {
        CloseOne(peer);
      }
      assert sessions == old(sessions) - {peer};
      Begin(peer, opening);
    }

    method Begin(peer: string, opening: Opening)
      requires Valid() && Active(config, peer) && peer !in sessions
      modifies this
      ensures Valid() && config == old(config) && old(events) <= events
      ensures (peer in sessions <==> opening.socket) && sessions - {peer} == old(sessions)
      ensures opening.socket ==> Opens(config, peer, opening, sessions[peer])
      ensures events == old(events) + Attempt(config, peer, opening)
    {
      OutcomeReportedLast(events, config, peer, opening);
      WithoutAbsent(sessions, peer);
      var session := StartSession(peer, opening);
      if session.Some? {
        Keep(peer, session.value);
      } else {
        Report(peer);
      }
    }

    /** Exactly the sessions the change affects are closed; the others go on untouched, with the
        new gains, and are as if started under the new configuration. */
    method OnReconfigure(newConfig: AudioConfig)
      requires Valid()
      modifies this
      ensures Valid() && config == newConfig && OnlyClosings(old(events), events)
      ensures forall peer :: peer in sessions <==> peer in old(sessions) && Unaffected(old(config), newConfig, peer)
      ensures forall peer :: peer in sessions ==> sessions[peer] == old(sessions)[peer]
    {
      var before := config;
      config := newConfig;
      if before.inputGain != config.inputGain {
        inputGain := config.inputGain;
      }
      if before.outputGain != config.outputGain {
        outputGain := config.outputGain;
      }
      var closing := set peer | peer in sessions && !Unaffected(before, newConfig, peer);
      CloseAll(closing);
      UnaffectedStaysCurrent(before, newConfig, sessions);
    }

    method OnClosePeer(peer: string)
      requires Valid()
      modifies this
      ensures Valid() && config == old(config) && sessions == old(sessions) - {peer}
      ensures events == old(events) + if peer in old(sessions) then [SessionClosed(peer)] else []
    {
      if peer in sessions {
        CloseOne(peer);
      } else {
        assert sessions == sessions - {peer};
      }
    }

    /** Drop the sessions that ended on their own or whose peer is no longer trusted. */
    method OnReap(trusted: set<string>, finished: set<string>)
      requires Valid()
      modifies this
      ensures Valid() && config == old(config) && OnlyClosings(old(events), events)
      ensures forall peer :: peer in sessions <==> peer in old(sessions) && peer in trusted && peer !in finished
      ensures forall peer :: peer in sessions ==> sessions[peer] == old(sessions)[peer]
    {
      var ended := set peer | peer in sessions && (peer in finished || peer !in trusted);
      CloseAll(ended);
    }

    method Handle(command: Command)
      requires Valid()
      modifies this
      ensures Valid() && old(events) <= events
      ensures config == if command.Reconfigure? then command.config else old(config)
      ensures Outcome(old(config), old(sessions), command, sessions)
      ensures command.Query? ==> events == old(events)
    {
      match command
      case IncomingSignal(peer, trusted, opening) =>
        OnIncoming(peer, trusted, opening);
        if Accepts(config, command, peer) {
          AcceptedOutcome(config, old(sessions), command, sessions);
        }
      case Reconfigure(newConfig) => OnReconfigure(newConfig);
      case ClosePeer(peer) => OnClosePeer(peer);
      case Reap(trusted, finished) => OnReap(trusted, finished);
      case Query =>
    }

    /** The whole run: after any commands every session is current, and after the final drain the
        closings reported match the starts one for one. */
    method Run(commands: seq<Command>)
      requires Valid()
      modifies this
      ensures Valid() && sessions == map[] && starts == ClosedIn(events)
    {
      for i := 0 to |commands|
        invariant Valid()
      {
        Handle(commands[i]);
      }
      CloseAll(sessions.Keys);
      assert sessions == map[];
      assert multiset(sessions.Keys) == multiset{};
    }
  }
}
