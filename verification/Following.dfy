/** The GUI's connection to the daemon as a state machine: subscribe, fetch snapshots, stream. */
module Following {
  import opened Execution
  import opened Replay

  /** How many events a subscriber may fall behind before the server gives up on it. */
  const CAPACITY := 1024

  /** How far the event thread has come on its connection. */
  datatype Phase = Idle | Subscribed | HasStatus | Live

  /** A snapshot the command thread fetched when `point` events had been broadcast. */
  datatype Answer = Answer(part: Part, point: nat, update: Update)

  /** `sent` events have been taken off the bus and written to the socket, and `seen` of them read by
      the event thread; `socket` holds those in between; `queue` is the channel to the window;
      `pending` are answers the command thread still holds. */
  datatype Sys = Sys(bus: seq<Event>, phase: Phase, open: bool, sent: nat, socket: seq<Event>, seen: nat,
                     shown: View, queue: seq<Update>, pending: seq<Answer>)

  datatype Step =
    | Publish(event: Event)
    | Subscribe
    | FetchStatus
    | FetchPeers(listing: seq<Peer>)
    | Forward
    | Read
    | Break
    | Drain
    | Ask(part: Part, listing: seq<Peer>)
    | Reply(which: nat)

  /** The daemon's own view. */
  function Actual(s: Sys): View
  {
    Folded(Started(), s.bus)
  }

  /** What the window will show once it has handled its channel. */
  function Effective(s: Sys): View
  {
    AppliedAll(s.shown, s.queue)
  }

  /** A `ListPeers` reply lists the daemon's peers in any order. */
  predicate Lists(listing: seq<Peer>, v: View)
  {
    Adverts(ById(listing)) == v.peers
  }

  function StatusOf(v: View): Update
  {
    Status(v.state, v.connected, v.screen)
  }

  function Enqueued(s: Sys, u: Update): Sys
  {
    s.(queue := s.queue + [u])
  }

  predicate Enabled(s: Sys, step: Step)
  {
    match step
    case Publish(_) => true
    case Subscribe => s.phase == Idle
    case FetchStatus => s.phase == Subscribed
    case FetchPeers(listing) => s.phase == HasStatus && Lists(listing, Actual(s))
    case Forward => s.open && s.sent < |s.bus|
    case Read => s.phase == Live && s.socket != []
    case Break => s.phase != Idle
    case Drain => s.queue != []
    case Ask(part, listing) => part == PeersPart ==> Lists(listing, Actual(s))
    case Reply(which) => which < |s.pending|
  }

  function Next(s: Sys, step: Step): Sys
    requires Enabled(s, step)
  {
    match step
    case Publish(event) => s.(bus := s.bus + [event])
    case Subscribe => s.(phase := Subscribed, open := true, sent := |s.bus|, socket := [], seen := |s.bus|)
    case FetchStatus => Enqueued(s, StatusOf(Actual(s))).(phase := HasStatus)
    case FetchPeers(listing) => Enqueued(s, PeerSnapshot(listing)).(phase := Live)
    case Forward =>
      // A subscriber that has fallen too far behind has lost events: the connection is closed.
      if |s.bus| - s.sent > CAPACITY then s.(open := false)
      else s.(sent := s.sent + 1, socket := s.socket + [s.bus[s.sent]])
    case Read => Enqueued(s, Change(s.socket[0])).(seen := s.seen + 1, socket := s.socket[1..])
    case Break => Enqueued(s, Disconnected).(phase := Idle, open := false)
    case Drain => s.(shown := Applied(s.shown, s.queue[0]), queue := s.queue[1..])
    case Ask(part, listing) =>
      var update := if part == StatusPart then StatusOf(Actual(s)) else PeerSnapshot(listing);
      s.(pending := s.pending + [Answer(part, |s.bus|, update)])
    case Reply(which) =>
      Enqueued(s, s.pending[which].update).(pending := s.pending[..which] + s.pending[which + 1..])
  }

  /** The part's snapshot has been fetched on this connection. */
  predicate Fetched(phase: Phase, part: Part)
  {
    phase == Live || (phase == HasStatus && part == StatusPart)
  }

  /** An answer is the daemon's own part as of its point. */
  predicate Tells(a: Answer, bus: seq<Event>)
  {
    a.point <= |bus| &&
    var shot := Folded(Started(), bus[..a.point]);
    if a.part == StatusPart then a.update == StatusOf(shot) else a.update.PeerSnapshot? && Lists(a.update.peers, shot)
  }

  /** Between connections: the window may show anything, the daemon may have run for any time, and
      the command thread may hold any answers it was given. */
  predicate Init(s: Sys)
  {
    && s.phase == Idle && !s.open && s.seen <= s.sent <= |s.bus|
    && forall i :: 0 <= i < |s.pending| ==> Tells(s.pending[i], s.bus)
  }

  /** An answer does no harm when, cell by cell, some event still to be streamed will overwrite it
      or nothing had changed between its fetch and the last event streamed. */
  ghost predicate Harmless(s: Sys, a: Answer)
    requires s.seen <= |s.bus| && a.point <= |s.bus|
  {
    forall cell :: PartOf(cell) == a.part ==>
      WrittenIn(s.bus[s.seen..], cell)
      || At(Folded(Started(), s.bus[..a.point]), cell) == At(Folded(Started(), s.bus[..s.seen]), cell)
  }

  /** The step is an answer that does harm to a part already fetched. */
  ghost predicate Misleads(s: Sys, step: Step)
  {
    && step.Reply? && step.which < |s.pending| && Fetched(s.phase, s.pending[step.which].part)
    && s.seen <= |s.bus| && s.pending[step.which].point <= |s.bus| && !Harmless(s, s.pending[step.which])
  }

  /** Once the events not yet streamed are replayed, the part shown is the daemon's. */
  predicate InStep(s: Sys, part: Part)
    requires s.seen <= |s.bus|
  {
    Same(part, Folded(Effective(s), s.bus[s.seen..]), Actual(s))
  }

  predicate Inv(s: Sys)
  {
    && s.seen <= s.sent <= |s.bus| && (s.phase != Idle ==> s.socket == s.bus[s.seen..s.sent])
    && (forall part :: Fetched(s.phase, part) ==> InStep(s, part))
    && (forall i :: 0 <= i < |s.pending| ==> Tells(s.pending[i], s.bus))
  }

  // ---------- one step ----------

  lemma EnqueueApplies(s: Sys, u: Update)
    ensures Effective(Enqueued(s, u)) == Applied(Effective(s), u)
  {
    assert (s.queue + [u])[..|s.queue|] == s.queue;
  }

  lemma {:induction false} DrainKeepsEffective(v: View, queue: seq<Update>)
    requires queue != []
    ensures AppliedAll(Applied(v, queue[0]), queue[1..]) == AppliedAll(v, queue)
  {
    if |queue| == 1 {
      assert queue[..0] == [] && AppliedAll(v, queue[..0]) == v;
    } else {
      DrainKeepsEffective(v, queue[..|queue| - 1]);
      assert queue[1..][..|queue| - 2] == queue[..|queue| - 1][1..];
    }
  }

  /** A broken connection ends the session and clears the window. */
  lemma BreakClearsTheWindow(s: Sys)
    requires Enabled(s, Break)
    ensures var t := Next(s, Break);
            && t.phase == Idle && !t.open
            && Effective(t).connected == {} && Effective(t).screen.None? && Effective(t).peers == map[]
            && Effective(t).state == Effective(s).state
  {
    DisconnectedShowsNothing(s.shown, s.queue);
  }

  /** A snapshot taken anywhere after the subscription, with everything since the subscription
      replayed over it, is the present. */
  lemma SnapshotThenReplay(bus: seq<Event>, seen: nat, point: nat, v: View, part: Part)
    requires seen <= point <= |bus| && Same(part, v, Folded(Started(), bus[..point]))
    ensures Same(part, Folded(v, bus[seen..]), Folded(Started(), bus))
  {
    var w, stale, later := Folded(Started(), bus[..seen]), bus[seen..point], bus[point..];
    assert bus[..point] == bus[..seen] + stale && bus[seen..] == stale + later && bus == bus[..point] + later;
    FoldedInParts(Started(), bus[..seen], stale);
    FoldedInParts(Started(), bus[..point], later);
    FoldedInParts(v, stale, later);
    ReplayIsIdempotent(w, stale);
    FoldKeepsSame(part, v, Folded(w, stale), stale);
    FoldKeepsSame(part, Folded(v, stale), Folded(w, stale), later);
  }

  lemma PublishKeepsInv(s: Sys, e: Event)
    requires Inv(s)
    ensures Inv(s.(bus := s.bus + [e]))
  {
    var t := s.(bus := s.bus + [e]);
    assert t.bus[s.seen..] == s.bus[s.seen..] + [e] && t.bus[s.seen..s.sent] == s.bus[s.seen..s.sent];
    FoldedInParts(Effective(s), s.bus[s.seen..], [e]);
    FoldedInParts(Started(), s.bus, [e]);
    forall part | Fetched(t.phase, part) ensures InStep(t, part) {
      assert InStep(s, part);
      FoldKeepsSame(part, Folded(Effective(s), s.bus[s.seen..]), Actual(s), [e]);
    }
    forall i | 0 <= i < |t.pending| ensures Tells(t.pending[i], t.bus) {
      assert Tells(s.pending[i], s.bus) && t.bus[..t.pending[i].point] == s.bus[..s.pending[i].point];
    }
  }

  lemma ReadKeepsInv(s: Sys)
    requires Inv(s) && Enabled(s, Read)
    ensures Inv(Next(s, Read))
  {
    var t, e := Next(s, Read), s.bus[s.seen];
    assert s.socket[0] == e && s.socket[1..] == s.bus[t.seen..s.sent];
    EnqueueApplies(s, Change(e));
    assert s.bus[s.seen..] == [e] + t.bus[t.seen..];
    FoldedInParts(Effective(s), [e], t.bus[t.seen..]);
    FoldedOne(Effective(s), e);
    forall part | Fetched(t.phase, part) ensures InStep(t, part) {
      assert InStep(s, part);
    }
  }

  /** An answer puts its part in step exactly when it is harmless, and leaves the other part as it
      was. */
  lemma AnswerIsRightIffHarmless(s: Sys, a: Answer)
    requires s.seen <= |s.bus| && Tells(a, s.bus)
    ensures InStep(Enqueued(s, a.update), a.part) <==> Harmless(s, a)
    ensures forall part :: part != a.part && InStep(s, part) ==> InStep(Enqueued(s, a.update), part)
  {
    var t, later := Enqueued(s, a.update), s.bus[s.seen..];
    var shot, last := Folded(Started(), s.bus[..a.point]), Folded(Started(), s.bus[..s.seen]);
    EnqueueApplies(s, a.update);
    assert s.bus == s.bus[..s.seen] + later;
    FoldedInParts(Started(), s.bus[..s.seen], later);
    SameCellsSamePart(a.part, Effective(t), shot);
    SameCellsSamePart(a.part, Folded(Effective(t), later), Actual(s));
    forall cell | PartOf(cell) == a.part
      ensures At(Folded(Effective(t), later), cell) == At(Actual(s), cell) <==>
              WrittenIn(later, cell) || At(shot, cell) == At(last, cell)
    {
      FoldedAgreeAt(Effective(t), last, later, cell);
    }
    forall part | part != a.part && InStep(s, part) ensures InStep(t, part) {
      FoldKeepsSame(part, Effective(t), Effective(s), later);
    }
  }

  /** An answer no older than what has been streamed is harmless: only an overtaken one can mislead. */
  lemma OnlyOvertakenAnswersMislead(s: Sys, a: Answer)
    requires s.seen <= a.point <= |s.bus|
    ensures Harmless(s, a)
  {
    var shot, last := Folded(Started(), s.bus[..a.point]), Folded(Started(), s.bus[..s.seen]);
    forall cell | PartOf(cell) == a.part
      ensures WrittenIn(s.bus[s.seen..], cell) || At(shot, cell) == At(last, cell)
    {
      NewerSnapshotAgrees(s.bus, s.seen, a.point, cell);
    }
  }

  lemma NewerSnapshotAgrees(bus: seq<Event>, seen: nat, point: nat, cell: Cell)
    requires seen <= point <= |bus|
    ensures WrittenIn(bus[seen..], cell) || At(Folded(Started(), bus[..point]), cell) == At(Folded(Started(), bus[..seen]), cell)
  {
    var last, later := Folded(Started(), bus[..seen]), bus[seen..point];
    assert bus[..point] == bus[..seen] + later;
    FoldedInParts(Started(), bus[..seen], later);
    UnwrittenStays(last, later, cell);
    if WrittenIn(later, cell) {
      var i :| 0 <= i < |later| && Writes(later[i], cell).Some?;
      assert Writes(bus[seen..][i], cell).Some?;
    }
  }

  lemma FetchKeepsInv(s: Sys, step: Step)
    requires Inv(s) && Enabled(s, step) && (step.FetchStatus? || step.FetchPeers?)
    ensures Inv(Next(s, step))
  {
    var now := |s.bus|;
    assert s.bus[..now] == s.bus;
    var a := if step.FetchStatus? then Answer(StatusPart, now, StatusOf(Actual(s)))
             else Answer(PeersPart, now, PeerSnapshot(step.listing));
    OnlyOvertakenAnswersMislead(s, a);
    AnswerIsRightIffHarmless(s, a);
    var t, u := Next(s, step), Enqueued(s, a.update);
    forall part | Fetched(t.phase, part) ensures InStep(t, part) {
      assert part != a.part ==> Fetched(s.phase, part);
      assert InStep(u, part);
    }
  }

  lemma ReplyKeepsInv(s: Sys, which: nat)
    requires Inv(s) && Enabled(s, Reply(which)) && !Misleads(s, Reply(which))
    ensures Inv(Next(s, Reply(which)))
  {
    var a := s.pending[which];
    AnswerIsRightIffHarmless(s, a);
    var t, u := Next(s, Reply(which)), Enqueued(s, a.update);
    forall part | Fetched(t.phase, part) ensures InStep(t, part) {
      assert Fetched(s.phase, part) && InStep(s, part);
      assert InStep(u, part);
    }
  }

  lemma AskKeepsInv(s: Sys, step: Step)
    requires Inv(s) && Enabled(s, step) && step.Ask?
    ensures Inv(Next(s, step))
  {
    var t := Next(s, step);
    assert s.bus[..|s.bus|] == s.bus;
    forall part | Fetched(t.phase, part) ensures InStep(t, part) {
      assert InStep(s, part);
    }
  }

  lemma StepKeepsInv(s: Sys, step: Step)
    requires Inv(s) && Enabled(s, step) && !Misleads(s, step)
    ensures Inv(Next(s, step))
  {
    match step
    case Publish(e) => PublishKeepsInv(s, e);
    case Read => ReadKeepsInv(s);
    case FetchStatus => FetchKeepsInv(s, step);
    case FetchPeers(_) => FetchKeepsInv(s, step);
    case Reply(which) => ReplyKeepsInv(s, which);
    case Ask(_, _) => AskKeepsInv(s, step);
    case Drain =>
      DrainKeepsEffective(s.shown, s.queue);
      forall part | Fetched(s.phase, part) ensures InStep(Next(s, step), part) { assert InStep(s, part); }
    case Forward =>
      assert s.phase != Idle && |s.bus| - s.sent <= CAPACITY ==>
             s.bus[s.seen..s.sent] + [s.bus[s.sent]] == s.bus[s.seen..s.sent + 1];
      forall part | Fetched(s.phase, part) ensures InStep(Next(s, step), part) { assert InStep(s, part); }
    case Subscribe =>
    case Break =>
  }

  /** The condition is exact: of all enabled steps, precisely the misleading answers put a fetched
      part out of step. */
  lemma StepKeepsInvIffNotMisleading(s: Sys, step: Step)
    requires Inv(s) && Enabled(s, step)
    ensures Inv(Next(s, step)) <==> !Misleads(s, step)
  {
    if Misleads(s, step) {
      var a, t := s.pending[step.which], Next(s, step);
      AnswerIsRightIffHarmless(s, a);
      assert !InStep(Enqueued(s, a.update), a.part);
      assert Fetched(t.phase, a.part) && !InStep(t, a.part);
    } else {
      StepKeepsInv(s, step);
    }
  }

  // ---------- whole runs ----------

  ghost function Steps(): Machine<Sys, Step>
  {
    Machine(Enabled, (s, step) => if Enabled(s, step) then Next(s, step) else s)
  }

  /** The same without answers that do harm. */
  ghost function HarmlessSteps(): Machine<Sys, Step>
  {
    Steps().(enabled := (s, step) => Enabled(s, step) && !Misleads(s, step))
  }

  /** The window has handled everything the daemon has broadcast. */
  predicate CaughtUp(s: Sys)
  {
    s.phase == Live && s.seen == |s.bus| && s.queue == []
  }

  /** In every run, whatever the window showed at first and however events, snapshots, refreshes
      and disconnections interleave: once caught up the window shows the daemon's own view,
      provided no refresh answer did harm. */
  lemma CaughtUpWindowIsRight(s: Sys, steps: seq<Step>)
    requires Init(s) && Runs(HarmlessSteps(), s, steps) && CaughtUp(After(HarmlessSteps(), s, steps))
    ensures After(HarmlessSteps(), s, steps).shown == Actual(After(HarmlessSteps(), s, steps))
  {
    forall u: Sys, step: Step | Inv(u) && HarmlessSteps().enabled(u, step) ensures Inv(HarmlessSteps().next(u, step)) {
      StepKeepsInv(u, step);
    }
    RunKeeps(HarmlessSteps(), Inv, s, steps);
    var t := After(HarmlessSteps(), s, steps);
    assert t.bus[t.seen..] == [];
    assert InStep(t, StatusPart) && InStep(t, PeersPart);
  }

  /** A subscriber within the buffer can always catch up. */
  lemma CanCatchUp(s: Sys) returns (steps: seq<Step>)
    requires s.phase == Live && s.open && s.seen <= s.sent <= |s.bus| <= s.sent + CAPACITY
    requires s.socket == s.bus[s.seen..s.sent]
    ensures Runs(Steps(), s, steps) && CaughtUp(After(Steps(), s, steps)) && After(Steps(), s, steps).bus == s.bus
    ensures forall i :: 0 <= i < |steps| ==> !steps[i].Reply?
    ensures s.seen == |s.bus| ==> After(Steps(), s, steps).shown == Effective(s)
    decreases |s.bus| - s.sent, |s.bus| - s.seen, |s.queue|
  {
    if CaughtUp(s) {
      steps := [];
    } else {
      var step := if s.sent < |s.bus| then Forward else if s.seen < s.sent then Read else Drain;
      if step.Drain? {
        DrainKeepsEffective(s.shown, s.queue);
      }
      if step.Forward? {
        assert s.socket + [s.bus[s.sent]] == s.bus[s.seen..s.sent + 1];
      } else if step.Read? {
        assert s.socket[1..] == s.bus[s.seen + 1..s.sent];
      }
      var rest := CanCatchUp(Next(s, step));
      steps := [step] + rest;
      Prepend(Steps(), s, step, rest);
    }
  }

  // ---------- overtaken answers ----------

  /** Connected, with nothing broadcast yet and a status answer on its way. */
  predicate Asked(s: Sys)
  {
    && s.phase == Live && s.open && s.sent == s.seen == 0 && s.bus == [] && s.socket == []
    && s.pending == [Answer(StatusPart, 0, StatusOf(Started()))]
  }

  lemma AskedIsReachable(s: Sys) returns (steps: seq<Step>)
    requires Init(s) && s.bus == [] && s.pending == []
    ensures Runs(Steps(), s, steps) && Asked(After(Steps(), s, steps))
  {
    var s1 := Next(s, Subscribe);
    var s2 := Next(s1, FetchStatus);
    assert Lists([], Actual(s2));
    var s3 := Next(s2, FetchPeers([]));
    steps := [Ask(StatusPart, [])];
    Prepend(Steps(), s3, Ask(StatusPart, []), []);
    assert [Ask(StatusPart, [])] + [] == steps;
    Prepend(Steps(), s2, FetchPeers([]), steps);
    steps := [FetchPeers([])] + steps;
    Prepend(Steps(), s1, FetchStatus, steps);
    steps := [FetchStatus] + steps;
    Prepend(Steps(), s, Subscribe, steps);
    steps := [Subscribe] + steps;
  }

  lemma OvertakenAnswerMisleads(s: Sys, name: string) returns (steps: seq<Step>)
    requires Asked(s)
    ensures Runs(Steps(), s, steps) && CaughtUp(After(Steps(), s, steps))
    ensures After(Steps(), s, steps).bus == [PeerConnected(name)] && name !in After(Steps(), s, steps).shown.connected
  {
    var event := PeerConnected(name);
    var s1 := Next(s, Publish(event));
    var s2 := Next(s1, Forward);
    var s3 := Next(s2, Read);
    var s4 := Next(s3, Reply(0));
    EnqueueApplies(s3, s3.pending[0].update);
    steps := CanCatchUp(s4);
    Prepend(Steps(), s3, Reply(0), steps);
    steps := [Reply(0)] + steps;
    Prepend(Steps(), s2, Read, steps);
    steps := [Read] + steps;
    Prepend(Steps(), s1, Forward, steps);
    steps := [Forward] + steps;
    Prepend(Steps(), s, Publish(event), steps);
    steps := [Publish(event)] + steps;
  }

  /** So it can go wrong: the user presses Refresh, the daemon answers, a peer connects and its
      event is streamed first. */
  lemma RefreshCanLeaveTheWindowWrong(s: Sys, name: string) returns (steps: seq<Step>)
    requires Init(s) && s.bus == [] && s.pending == []
    ensures Runs(Steps(), s, steps) && CaughtUp(After(Steps(), s, steps))
    ensures name in Actual(After(Steps(), s, steps)).connected && name !in After(Steps(), s, steps).shown.connected
  {
    var ask := AskedIsReachable(s);
    var mislead := OvertakenAnswerMisleads(After(Steps(), s, ask), name);
    RunsInParts(Steps(), s, ask, mislead);
    steps := ask + mislead;
    FoldedOne(Started(), PeerConnected(name));
  }
}
