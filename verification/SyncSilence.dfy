/** Silence without convergence: a refused state still lets the session succeed, so its head is
    confirmed without having arrived. */
module SyncSilence {
  import Order
  import Execution
  import opened Configuration
  import opened Versioning
  import opened SyncNetwork
  import opened SyncRejection
  import opened SyncGossip

  /** All moves, refused merges included. */
  ghost function Moves(rollback: Rollback): Execution.Machine<World, Move>
  {
    Execution.Machine.Machine(MoveEnabled, (w, m) => if MoveEnabled(w, m) then AfterMove(w, m, rollback) else w)
  }

  /** The five moves of a session. */
  function WholeSession(at: MachineId, peer: MachineId): seq<Move>
  {
    [Dial(at, peer), Ship(at, peer), Answer(at, peer), Absorb(at, peer), Succeed(at, peer)]
  }

  /** What a session run without interruption leaves behind. */
  function AfterSession(w: World, at: MachineId, peer: MachineId, rollback: Rollback): World
    requires at in w.net.machines && peer in w.net.machines && at in w.dialers
  {
    var mine, theirs := w.net.machines[at], w.net.machines[peer];
    var answered := Received(theirs, mine.mem, rollback);
    var absorbed := Received(mine, answered.mem, rollback);
    World(Net(w.net.machines[peer := answered][at := absorbed],
        w.net.wire + {mine.mem} + {answered.mem} + {absorbed.mem}, w.net.writes),
          Confirmed(w.dialers, at, peer, HeadOf(mine.mem.v)))
  }

  function InFlight(dialers: map<MachineId, Dialer>, at: MachineId, peer: MachineId, task: Task): map<MachineId, Dialer>
    requires at in dialers
  {
    dialers[at := dialers[at].(tasks := dialers[at].tasks[peer := task])]
  }

  lemma InFlightOverwrites(dialers: map<MachineId, Dialer>, at: MachineId, peer: MachineId, t: Task, u: Task)
    requires at in dialers
    ensures InFlight(InFlight(dialers, at, peer, t), at, peer, u) == InFlight(dialers, at, peer, u)
  {
    assert dialers[at].tasks[peer := t][peer := u] == dialers[at].tasks[peer := u];
  }

  lemma One(w: World, m: Move, rollback: Rollback)
    requires MoveEnabled(w, m)
    ensures Execution.Runs(Moves(rollback), w, [m])
    ensures Execution.After(Moves(rollback), w, [m]) == AfterMove(w, m, rollback)
  {
    Execution.Prepend(Moves(rollback), w, m, []);
    assert [m] + [] == [m];
  }

  lemma Two(w: World, m: Move, m': Move, rollback: Rollback)
    requires MoveEnabled(w, m) && MoveEnabled(AfterMove(w, m, rollback), m')
    ensures Execution.Runs(Moves(rollback), w, [m, m'])
    ensures Execution.After(Moves(rollback), w, [m, m']) == AfterMove(AfterMove(w, m, rollback), m', rollback)
  {
    One(AfterMove(w, m, rollback), m', rollback);
    Execution.Prepend(Moves(rollback), w, m, [m']);
    assert [m] + [m'] == [m, m'];
  }

  predicate CanDial(w: World, at: MachineId, peer: MachineId)
  {
    at in w.net.machines && peer in w.net.machines && at in w.dialers && at != peer && WantsDial(w, at, peer)
  }

  /** The dialer has connected and shipped its state. */
  function AfterShipping(w: World, at: MachineId, peer: MachineId): World
    requires CanDial(w, at, peer)
  {
    var mine := w.net.machines[at].mem;
    World(w.net.(wire := w.net.wire + {mine}), InFlight(w.dialers, at, peer, Task(HeadOf(mine.v), Shipped(mine))))
  }

  lemma DialAndShip(w: World, at: MachineId, peer: MachineId, rollback: Rollback)
    requires CanDial(w, at, peer)
    ensures Execution.Runs(Moves(rollback), w, [Dial(at, peer), Ship(at, peer)])
    ensures Execution.After(Moves(rollback), w, [Dial(at, peer), Ship(at, peer)]) == AfterShipping(w, at, peer)
  {
    var w1 := AfterMove(w, Dial(at, peer), rollback);
    var w2 := AfterMove(w1, Ship(at, peer), rollback);
    var mine := w.net.machines[at].mem;
    InFlightOverwrites(w.dialers, at, peer, Task(HeadOf(mine.v), Dialing), Task(HeadOf(mine.v), Shipped(mine)));
    assert w2.dialers == InFlight(w.dialers, at, peer, Task(HeadOf(mine.v), Shipped(mine)));
    Two(w, Dial(at, peer), Ship(at, peer), rollback);
  }

  predicate CanAnswer(w: World, at: MachineId, peer: MachineId)
  {
    && at in w.net.machines && peer in w.net.machines && at in w.dialers && at != peer
    && peer in w.dialers[at].tasks && w.dialers[at].tasks[peer].stage.Shipped?
    && w.dialers[at].tasks[peer].stage.sent in w.net.wire
  }

  /** The peer has merged what was shipped and replied, and the dialer has merged the reply. */
  function AfterAbsorbing(w: World, at: MachineId, peer: MachineId, rollback: Rollback): World
    requires CanAnswer(w, at, peer)
  {
    var task := w.dialers[at].tasks[peer];
    var answered := Received(w.net.machines[peer], task.stage.sent, rollback);
    var absorbed := Received(w.net.machines[at], answered.mem, rollback);
    World(Net(w.net.machines[peer := answered][at := absorbed], w.net.wire + {answered.mem} + {absorbed.mem},
        w.net.writes),
          InFlight(w.dialers, at, peer, Task(task.head, Finished)))
  }

  lemma AnswerAndAbsorb(w: World, at: MachineId, peer: MachineId, rollback: Rollback)
    requires CanAnswer(w, at, peer)
    ensures Execution.Runs(Moves(rollback), w, [Answer(at, peer), Absorb(at, peer)])
    ensures Execution.After(Moves(rollback), w, [Answer(at, peer), Absorb(at, peer)]) ==
            AfterAbsorbing(w, at, peer, rollback)
  {
    var w1 := AfterMove(w, Answer(at, peer), rollback);
    var task := w.dialers[at].tasks[peer];
    var answered := Received(w.net.machines[peer], task.stage.sent, rollback);
    assert w1.net == Net(w.net.machines[peer := answered], w.net.wire + {answered.mem}, w.net.writes);
    assert w1.dialers == InFlight(w.dialers, at, peer, Task(task.head, Answered(answered.mem)));
    var w2 := AfterMove(w1, Absorb(at, peer), rollback);
    InFlightOverwrites(w.dialers, at, peer, Task(task.head, Answered(answered.mem)), Task(task.head, Finished));
    assert w2.dialers == InFlight(w.dialers, at, peer, Task(task.head, Finished));
    Two(w, Answer(at, peer), Absorb(at, peer), rollback);
  }

  lemma SessionRuns(w: World, at: MachineId, peer: MachineId, rollback: Rollback)
    requires CanDial(w, at, peer)
    ensures Execution.Runs(Moves(rollback), w, WholeSession(at, peer))
    ensures Execution.After(Moves(rollback), w, WholeSession(at, peer)) == AfterSession(w, at, peer, rollback)
  {
    DialAndShip(w, at, peer, rollback);
    ShippedCanAnswer(w, at, peer);
    AnswerAndAbsorb(AfterShipping(w, at, peer), at, peer, rollback);
    LastMoveRuns(w, at, peer, rollback);
    ThreeTurns(w, AfterShipping(w, at, peer), AfterAbsorbing(AfterShipping(w, at, peer), at, peer, rollback),
               AfterSession(w, at, peer, rollback), at, peer, rollback);
  }

  lemma LastMoveRuns(w: World, at: MachineId, peer: MachineId, rollback: Rollback)
    requires CanDial(w, at, peer) && CanAnswer(AfterShipping(w, at, peer), at, peer)
    ensures var w4 := AfterAbsorbing(AfterShipping(w, at, peer), at, peer, rollback);
            && Execution.Runs(Moves(rollback), w4, [Succeed(at, peer)])
            && Execution.After(Moves(rollback), w4, [Succeed(at, peer)]) == AfterSession(w, at, peer, rollback)
  {
    var net, head := AfterSession(w, at, peer, rollback).net, HeadAt(w, at);
    AbsorbedIsFinished(w, at, peer, rollback);
    FinishedCanSucceed(net, w.dialers, at, peer, head, rollback);
    One(World(net, InFlight(w.dialers, at, peer, Task(head, Finished))), Succeed(at, peer), rollback);
  }

  lemma SessionInTurns(at: MachineId, peer: MachineId)
    ensures [Dial(at, peer), Ship(at, peer)] + ([Answer(at, peer), Absorb(at, peer)] + [Succeed(at, peer)]) ==
            WholeSession(at, peer)
  {
  }

  lemma ThreeTurns(w: World, w2: World, w4: World, w5: World, at: MachineId, peer: MachineId, rollback: Rollback)
    requires Execution.Runs(Moves(rollback), w, [Dial(at, peer), Ship(at, peer)])
    requires Execution.After(Moves(rollback), w, [Dial(at, peer), Ship(at, peer)]) == w2
    requires Execution.Runs(Moves(rollback), w2, [Answer(at, peer), Absorb(at, peer)])
    requires Execution.After(Moves(rollback), w2, [Answer(at, peer), Absorb(at, peer)]) == w4
    requires Execution.Runs(Moves(rollback), w4, [Succeed(at, peer)])
    requires Execution.After(Moves(rollback), w4, [Succeed(at, peer)]) == w5
    ensures Execution.Runs(Moves(rollback), w, WholeSession(at, peer))
    ensures Execution.After(Moves(rollback), w, WholeSession(at, peer)) == w5
  {
    Execution.RunsInThree(Moves(rollback), w, [Dial(at, peer), Ship(at, peer)], [Answer(at, peer), Absorb(at, peer)],
        [Succeed(at, peer)]);
    SessionInTurns(at, peer);
  }

  lemma ShippedCanAnswer(w: World, at: MachineId, peer: MachineId)
    requires CanDial(w, at, peer)
    ensures CanAnswer(AfterShipping(w, at, peer), at, peer)
    ensures AfterShipping(w, at, peer).dialers[at].tasks[peer] == Task(HeadAt(w, at), Shipped(w.net.machines[at].mem))
  {
  }

  function Confirmed(dialers: map<MachineId, Dialer>, at: MachineId, peer: MachineId, head: Head): map<MachineId,
      Dialer>
    requires at in dialers
  {
    dialers[at := dialers[at].(confirmed := dialers[at].confirmed[peer := head])]
  }

  /** A finished session becomes a confirmed head, whatever it has made of the network. */
  lemma FinishedCanSucceed(net: Net, dialers: map<MachineId, Dialer>, at: MachineId, peer: MachineId, head: Head,
      rollback: Rollback)
    requires at in net.machines && at in dialers && peer !in dialers[at].tasks
    ensures var w := World(net, InFlight(dialers, at, peer, Task(head, Finished)));
            && MoveEnabled(w, Succeed(at, peer))
            && AfterMove(w, Succeed(at, peer), rollback) == World(net, Confirmed(dialers, at, peer, head))
  {
    assert dialers[at].tasks[peer := Task(head, Finished)] - {peer} == dialers[at].tasks;
  }

  lemma AbsorbedIsFinished(w: World, at: MachineId, peer: MachineId, rollback: Rollback)
    requires CanDial(w, at, peer) && CanAnswer(AfterShipping(w, at, peer), at, peer)
    ensures AfterAbsorbing(AfterShipping(w, at, peer), at, peer, rollback) ==
            World(AfterSession(w, at, peer, rollback).net, InFlight(w.dialers, at, peer, Task(HeadAt(w, at), Finished)))
  {
    var mine := w.net.machines[at].mem;
    InFlightOverwrites(w.dialers, at, peer, Task(HeadOf(mine.v), Shipped(mine)), Task(HeadOf(mine.v), Finished));
  }

  /** Two states with the same document and stamps, whatever their clocks. */
  predicate Alike(v: Versioned, w: Versioned)
  {
    v.config == w.config && v.stamps == w.stamps
  }

  lemma NoNewsKeepsState(m: Machine, copy: Copy, rollback: Rollback)
    requires !Updates(m.mem.v, copy.v)
    ensures Alike(Received(m, copy, rollback).mem.v, m.mem.v) && Received(m, copy, rollback).disk == m.disk
  {
    MergeWithoutNews(m.mem.v, copy.v);
  }

  /** A state that could be news at `a` only by being refused there. */
  ghost predicate Stuck(ma: Machine, mb: Machine, rollback: Rollback)
  {
    && !Updates(mb.mem.v, ma.mem.v)
    && (Updates(ma.mem.v, mb.mem.v) ==> rollback == ConfigAndStamps && Rejected(ma, mb.mem))
  }

  lemma StuckIsAlike(ma: Machine, mb: Machine, na: Machine, nb: Machine, rollback: Rollback)
    requires Stuck(ma, mb, rollback) && Alike(na.mem.v, ma.mem.v) && Alike(nb.mem.v, mb.mem.v)
    ensures Stuck(na, nb, rollback)
  {
    forall f: Field
      ensures na.mem.v.Stamp(f) == ma.mem.v.Stamp(f) && nb.mem.v.Stamp(f) == mb.mem.v.Stamp(f)
    {}
    assert forall f: Field :: Wins(nb.mem.v, na.mem.v, f) <==> Wins(mb.mem.v, ma.mem.v, f);
    assert forall f: Field :: Wins(na.mem.v, nb.mem.v, f) <==> Wins(ma.mem.v, mb.mem.v, f);
    assert MergedConfig(na.mem.v, nb.mem.v) == MergedConfig(ma.mem.v, mb.mem.v);
  }

  /** Between stuck machines a session changes neither document nor stamps. */
  lemma StuckSession(ma: Machine, mb: Machine, rollback: Rollback)
    requires Stuck(ma, mb, rollback)
    ensures
      var nb := Received(mb, ma.mem, rollback);
      var na := Received(ma, nb.mem, rollback);
      Alike(na.mem.v, ma.mem.v) && Alike(nb.mem.v, mb.mem.v)
  {
    NoNewsKeepsState(mb, ma.mem, rollback);
    var nb := Received(mb, ma.mem, rollback);
    StuckIsAlike(ma, mb, ma, nb, rollback);
    if !Updates(ma.mem.v, nb.mem.v) {
      NoNewsKeepsState(ma, nb.mem, rollback);
    }
  }

  /** After refusing the bootstrap state of `b`, machine `a` and machine `b` are stuck. */
  lemma RefusalSticks(a: MachineId, b: MachineId, x: string, y: string, rollback: Rollback)
    requires Order.Less(a, b) && x != y
    ensures
      var ma, mb := Bootstrapped(Named(x), a), Bootstrapped(Named(y), b);
      var ra := Received(ma, mb.mem, rollback);
      Stuck(ra, mb, rollback) && ra.mem.v.config == Named(x)
  {
    var ma, mb := Bootstrapped(Named(x), a), Bootstrapped(Named(y), b);
    var ra := Received(ma, mb.mem, rollback);
    Order.LessTrichotomous(a, b);
    NamedMachinesReject(a, b, x, y);
    EarlierTrichotomous(LamportTime(1, b), LamportTime(1, b));
    forall f: Field ensures !Wins(mb.mem.v, ra.mem.v, f) && (rollback == ConfigOnly ==> !Wins(ra.mem.v, mb.mem.v, f)) {
      assert ma.mem.v.Stamp(f) == LamportTime(1, a) && mb.mem.v.Stamp(f) == LamportTime(1, b);
      EarlierTrichotomous(LamportTime(1, a), LamportTime(1, b));
    }
    if rollback == ConfigAndStamps {
      assert Alike(ra.mem.v, ma.mem.v);
      assert MergedConfig(ra.mem.v, mb.mem.v) == MergedConfig(ma.mem.v, mb.mem.v);
    }
  }

  /** Two named installations that have just launched. */
  function NamedWorld(a: MachineId, x: string, b: MachineId, y: string): World
  {
    World(NamedNet(a, x, b, y), map[a := Dialer(map[], map[]), b := Dialer(map[], map[])])
  }

  lemma NamedWorldLaunches(a: MachineId, b: MachineId, x: string, y: string)
    requires a != b
    ensures Launch(NamedWorld(a, x, b, y))
  {
    NamedNetStarts(a, b, x, y);
    assert NamedWorld(a, x, b, y).dialers.Keys == {a, b};
  }

  lemma FirstSessionSticks(a: MachineId, b: MachineId, x: string, y: string, rollback: Rollback)
    requires Order.Less(a, b) && x != y
    ensures
      var ma, mb := Bootstrapped(Named(x), a), Bootstrapped(Named(y), b);
      var ra := Received(ma, mb.mem, rollback);
      var rb := Received(mb, ra.mem, rollback);
      && Stuck(ra, rb, rollback) && ra.mem.v.config == Named(x)
      && rb.mem.v.config == Named(y) && HeadOf(rb.mem.v) == HeadOf(mb.mem.v)
  {
    var ma, mb := Bootstrapped(Named(x), a), Bootstrapped(Named(y), b);
    RefusalSticks(a, b, x, y, rollback);
    var ra := Received(ma, mb.mem, rollback);
    var rb := Received(mb, ra.mem, rollback);
    NoNewsKeepsState(mb, ra.mem, rollback);
    StuckIsAlike(ra, mb, ra, rb, rollback);
  }

  lemma PairOverwritten<T>(a: MachineId, b: MachineId, x: T, y: T, x': T, y': T)
    requires a != b
    ensures map[a := x, b := y][a := x'][b := y'] == map[a := x', b := y']
    ensures map[a := x, b := y][b := y'] == map[a := x, b := y']
  {
  }

  /** A first session between two machines that have nothing in flight or confirmed. */
  lemma FirstSessionMachines(w: World, a: MachineId, ma: Machine, b: MachineId, mb: Machine, rollback: Rollback)
    requires a != b && w.net.machines == map[a := ma, b := mb]
    requires w.dialers == map[a := Dialer(map[], map[]), b := Dialer(map[], map[])]
    ensures CanDial(w, b, a)
    ensures
      var w', ra := AfterSession(w, b, a, rollback), Received(ma, mb.mem, rollback);
      && w'.net.machines == map[a := ra, b := Received(mb, ra.mem, rollback)]
      && w'.dialers == map[a := Dialer(map[], map[]), b := Dialer(map[], map[a := HeadOf(mb.mem.v)])]
  {
    var ra := Received(ma, mb.mem, rollback);
    PairOverwritten(a, b, ma, mb, ra, Received(mb, ra.mem, rollback));
    var d, e := Dialer(map[], map[]), Dialer(map[], map[a := HeadOf(mb.mem.v)]);
    PairOverwritten(a, b, d, d, d, e);
  }

  /** The first session, from `b` to `a`, leaves the two stuck with the head of `b` confirmed. */
  lemma FirstSession(a: MachineId, b: MachineId, x: string, y: string, rollback: Rollback) returns (w: World)
    requires Order.Less(a, b) && x != y && a != b
    ensures Execution.Runs(Moves(rollback), NamedWorld(a, x, b, y), WholeSession(b, a))
    ensures w == Execution.After(Moves(rollback), NamedWorld(a, x, b, y), WholeSession(b, a))
    ensures w.net.machines.Keys == {a, b}
    ensures w.dialers == map[a := Dialer(map[], map[]), b := Dialer(map[], map[a := HeadAt(w, b)])]
    ensures Stuck(w.net.machines[a], w.net.machines[b], rollback)
    ensures w.net.machines[a].mem.v.config == Named(x) && w.net.machines[b].mem.v.config == Named(y)
  {
    var start := NamedWorld(a, x, b, y);
    FirstSessionMachines(start, a, Bootstrapped(Named(x), a), b, Bootstrapped(Named(y), b), rollback);
    SessionRuns(start, b, a, rollback);
    FirstSessionSticks(a, b, x, y, rollback);
    w := AfterSession(start, b, a, rollback);
    assert w.net.machines.Keys == {a, b};
  }

  /** The second, from `a` to `b`, confirms the head of `a` and changes nothing else. */
  lemma SecondSession(w: World, a: MachineId, b: MachineId, rollback: Rollback)
    requires a != b && w.net.machines.Keys == {a, b}
    requires w.dialers == map[a := Dialer(map[], map[]), b := Dialer(map[], map[a := HeadAt(w, b)])]
    requires Stuck(w.net.machines[a], w.net.machines[b], rollback)
    ensures Execution.Runs(Moves(rollback), w, WholeSession(a, b))
    ensures
      var w' := Execution.After(Moves(rollback), w, WholeSession(a, b));
      && Settled(w', a, b) && Settled(w', b, a)
      && HeadAt(w', a) == HeadAt(w, a) && HeadAt(w', b) == HeadAt(w, b)
  {
    SessionRuns(w, a, b, rollback);
    StuckSession(w.net.machines[a], w.net.machines[b], rollback);
  }

  /** Either way a refusal is rolled back, silence can come without convergence: one session from
      `b` to `a`, which `a` answers with a refusal, and one from `a` to `b`. Both succeed, both heads
      are confirmed, nobody wants to dial, and the heads differ. */
  lemma SilentButApart(a: MachineId, b: MachineId, x: string, y: string, rollback: Rollback)
    requires Order.Less(a, b) && x != y
    ensures
      var start, moves := NamedWorld(a, x, b, y), WholeSession(b, a) + WholeSession(a, b);
      && Launch(start) && Execution.Runs(Moves(rollback), start, moves)
      && var w := Execution.After(Moves(rollback), start, moves);
         Settled(w, a, b) && Settled(w, b, a) && HeadAt(w, a) != HeadAt(w, b)
  {
    Order.LessTrichotomous(a, b);
    NamedWorldLaunches(a, b, x, y);
    var w1 := FirstSession(a, b, x, y, rollback);
    SecondSession(w1, a, b, rollback);
    Execution.RunsInParts(Moves(rollback), NamedWorld(a, x, b, y), WholeSession(b, a), WholeSession(a, b));
    assert HeadAt(w1, a).screens[0].name == x && HeadAt(w1, b).screens[0].name == y;
  }
}
