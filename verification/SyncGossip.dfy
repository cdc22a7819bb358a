/** Who dials whom, why the dialing stops, and what silence means. Each machine dials a visible
    trusted peer unless a session with it is in flight or its current head is already confirmed
    there. */
module SyncGossip {
  import opened Configuration
  import opened Versioning
  import opened SyncNetwork
  import opened SyncProgress

  /** How far a session has come: connected, own state shipped, the peer's post-merge reply on its
      way, reply merged. */
  datatype Stage = Dialing | Shipped(sent: Copy) | Answered(reply: Copy) | Finished

  /** A session in flight, tagged with the dialer's head at dial time. */
  datatype Task = Task(head: Head, stage: Stage)

  /** Sessions in flight and heads confirmed, per peer. A restart forgets both. */
  datatype Dialer = Dialer(tasks: map<MachineId, Task>, confirmed: map<MachineId, Head>)

  datatype World = World(net: Net, dialers: map<MachineId, Dialer>)

  /** Retry backoff and visibility only decide when a dial happens, so dials may happen at any
      point their guard allows. `Ship`, `Answer` and `Absorb` are the three turns of a session,
      `Succeed` and `Fail` the dialer's bookkeeping. `Found` and `Lost` are the discovery events
      that forget what was confirmed: the peer came back with a changed record, or vanished. */
  datatype Move =
    | Sync(step: Step)
    | Dial(at: MachineId, peer: MachineId)
    | Ship(at: MachineId, peer: MachineId)
    | Answer(at: MachineId, peer: MachineId)
    | Absorb(at: MachineId, peer: MachineId)
    | Succeed(at: MachineId, peer: MachineId)
    | Fail(at: MachineId, peer: MachineId)
    | Found(at: MachineId, peer: MachineId)
    | Lost(at: MachineId, peer: MachineId)

  function HeadAt(w: World, id: MachineId): Head
    requires id in w.net.machines
  {
    HeadOf(w.net.machines[id].mem.v)
  }

  /** The dial guard. */
  predicate WantsDial(w: World, at: MachineId, peer: MachineId)
    requires at in w.net.machines && at in w.dialers
  {
    && peer !in w.dialers[at].tasks
    && (peer in w.dialers[at].confirmed ==> w.dialers[at].confirmed[peer] != HeadAt(w, at))
  }

  function Dials(w: World, at: MachineId): Dialer
  {
    if at in w.dialers then w.dialers[at] else Dialer(map[], map[])
  }

  predicate HasTask(w: World, at: MachineId, peer: MachineId)
  {
    peer in Dials(w, at).tasks
  }

  /** The dialer's side of a move is possible. */
  predicate Guard(w: World, m: Move)
  {
    match m
    case Sync(step) => step.at in w.dialers
    case Dial(at, peer) => at in w.net.machines && peer in w.net.machines && at in w.dialers && WantsDial(w, at, peer)
    case Ship(at, peer) => at in w.net.machines && HasTask(w, at, peer) && Dials(w, at).tasks[peer].stage.Dialing?
    case Answer(at, peer) => at in w.net.machines && HasTask(w, at, peer) && Dials(w, at).tasks[peer].stage.Shipped?
    case Absorb(at, peer) => at in w.net.machines && HasTask(w, at, peer) && Dials(w, at).tasks[peer].stage.Answered?
    case Succeed(at, peer) => at in w.net.machines && HasTask(w, at, peer) && Dials(w, at).tasks[peer].stage.Finished?
    case Fail(at, peer) => at in w.net.machines && HasTask(w, at, peer)
    case Found(at, peer) => at in w.net.machines && at in w.dialers
    case Lost(at, peer) => at in w.net.machines && at in w.dialers
  }

  /** The network step a move makes, if it makes one. */
  function StepOf(w: World, m: Move): Option<Step>
    requires Guard(w, m)
  {
    match m
    case Sync(step) => Some(step)
    case Ship(at, _) => Some(Snapshot(at))
    case Answer(at, peer) => Some(Deliver(peer, w.dialers[at].tasks[peer].stage.sent))
    case Absorb(at, peer) => Some(Deliver(at, w.dialers[at].tasks[peer].stage.reply))
    case _ => None
  }

  predicate MoveEnabled(w: World, m: Move)
  {
    Guard(w, m) && (StepOf(w, m).Some? ==> Enabled(w.net, StepOf(w, m).value))
  }

  function NetAfter(w: World, m: Move, rollback: Rollback): Net
    requires MoveEnabled(w, m)
  {
    if StepOf(w, m).Some? then Next(w.net, StepOf(w, m).value, rollback) else w.net
  }

  function WithStage(d: Dialer, peer: MachineId, stage: Stage): Dialer
    requires peer in d.tasks
  {
    d.(tasks := d.tasks[peer := Task(d.tasks[peer].head, stage)])
  }

  /** What a move does to the bookkeeping of the machine it belongs to. */
  function DialerAfter(w: World, m: Move, rollback: Rollback): (MachineId, Dialer)
    requires MoveEnabled(w, m)
  {
    match m
    case Sync(step) =>
      var d := w.dialers[step.at];
      (step.at,
       if step.Restart? then Dialer(map[], map[])
       else if step.Edit? && w.net.machines[step.at].mem.v.config != step.config then d.(confirmed := map[])
       else d)
    case Dial(at, peer) => (at, w.dialers[at].(tasks := w.dialers[at].tasks[peer := Task(HeadAt(w, at), Dialing)]))
    case Ship(at, peer) => (at, WithStage(w.dialers[at], peer, Shipped(w.net.machines[at].mem)))
    case Answer(at, peer) => (at, WithStage(w.dialers[at], peer, Answered(NetAfter(w, m, rollback).machines[peer].mem)))
    case Absorb(at, peer) => (at, WithStage(w.dialers[at], peer, Finished))
    case Succeed(at, peer) =>
      var d := w.dialers[at];
      (at, Dialer(d.tasks - {peer}, d.confirmed[peer := d.tasks[peer].head]))
    case Fail(at, peer) => (at, w.dialers[at].(tasks := w.dialers[at].tasks - {peer}))
    case Found(at, peer) => (at, w.dialers[at].(confirmed := w.dialers[at].confirmed - {peer}))
    case Lost(at, peer) => (at, Dialer(w.dialers[at].tasks - {peer}, w.dialers[at].confirmed - {peer}))
  }

  function AfterMove(w: World, m: Move, rollback: Rollback): World
    requires MoveEnabled(w, m)
  {
    var (at, d) := DialerAfter(w, m, rollback);
    World(NetAfter(w, m, rollback), w.dialers[at := d])
  }

  /** Before any contact: bootstrapped machines with nothing in flight or confirmed. */
  ghost predicate Launch(w: World)
  {
    Init(w.net) && w.dialers.Keys == w.net.machines.Keys
    && forall id :: id in w.dialers ==> w.dialers[id] == Dialer(map[], map[])
  }

  ghost predicate FollowsAt(worlds: seq<World>, moves: seq<Move>, rollback: Rollback, i: nat)
    requires i < |moves| < |worlds|
  {
    MoveEnabled(worlds[i], moves[i]) && worlds[i + 1] == AfterMove(worlds[i], moves[i], rollback)
  }

  /** A history of any moves that are possible, those with a refused merge included. */
  ghost predicate IsHistory(worlds: seq<World>, moves: seq<Move>, rollback: Rollback)
  {
    && |worlds| == |moves| + 1 && Launch(worlds[0])
    && forall i {:trigger FollowsAt(worlds, moves, rollback, i)} :: 0 <= i < |moves| ==> FollowsAt(worlds, moves, rollback, i)
  }

  ghost predicate WorldTidy(w: World)
  {
    NetTidy(w.net) && w.dialers.Keys == w.net.machines.Keys
  }

  lemma MoveKeepsTidy(w: World, m: Move, rollback: Rollback)
    requires WorldTidy(w) && MoveEnabled(w, m)
    ensures WorldTidy(AfterMove(w, m, rollback)) && AfterMove(w, m, rollback).net.machines.Keys == w.net.machines.Keys
  {
    if StepOf(w, m).Some? {
      StepKeepsTidy(w.net, StepOf(w, m).value, rollback);
    }
  }

  lemma {:induction false} HistoryKeepsTidy(worlds: seq<World>, moves: seq<Move>, rollback: Rollback, i: nat)
    requires IsHistory(worlds, moves, rollback) && i <= |moves|
    ensures WorldTidy(worlds[i])
  {
    if i == 0 {
      InitTidy(worlds[0].net);
    } else {
      HistoryKeepsTidy(worlds, moves, rollback, i - 1);
      assert FollowsAt(worlds, moves, rollback, i - 1);
      MoveKeepsTidy(worlds[i - 1], moves[i - 1], rollback);
    }
  }

  // ---------- the potential ----------

  /** Bounds the successful dials still to come from `at` to `peer`: one for a session in flight,
      one if the newest head shown to the peer is out of date, and one per write `at` is behind. */
  ghost function Potential(w: World, at: MachineId, peer: MachineId): nat
    requires at in w.net.machines && at in w.dialers
  {
    (if HasTask(w, at, peer) then 1 else 0) + (if UpToDate(w, at, peer) then 0 else 1) + |Ahead(w.net, at)|
  }

  ghost predicate UpToDate(w: World, at: MachineId, peer: MachineId)
    requires at in w.net.machines && at in w.dialers
  {
    var d := w.dialers[at];
    if peer in d.tasks then d.tasks[peer].head == HeadAt(w, at)
    else peer in d.confirmed && d.confirmed[peer] == HeadAt(w, at)
  }

  /** The move takes in no edit, and does not make `at` forget about `peer`. */
  predicate QuietMove(m: Move, at: MachineId, peer: MachineId)
  {
    !(m.Sync? && m.step.Edit?) && m != Sync(Restart(at)) && m != Found(at, peer) && m != Lost(at, peer)
  }

  /** A network step lowers the bound by the news it brings. */
  lemma MoveLowersAhead(w: World, m: Move, rollback: Rollback, at: MachineId)
    requires WorldTidy(w) && MoveEnabled(w, m) && at in w.net.machines
    requires !(m.Sync? && m.step.Edit?) && m != Sync(Restart(at))
    ensures var w' := AfterMove(w, m, rollback);
            && at in w'.net.machines && |Ahead(w'.net, at)| <= |Ahead(w.net, at)|
            && (HeadAt(w', at) == HeadAt(w, at) || |Ahead(w'.net, at)| < |Ahead(w.net, at)|)
  {
    if StepOf(w, m).Some? {
      var s := StepOf(w, m).value;
      StepShrinksAhead(w.net, s, rollback, at);
      ProperSubsetSmaller(Ahead(Next(w.net, s, rollback), at), Ahead(w.net, at));
      if !UpdatesAt(w.net, s, rollback, at) {
        QuietStepKeepsHead(w.net, s, rollback, at);
      }
    }
  }

  lemma MoveLowersPotential(w: World, m: Move, rollback: Rollback, at: MachineId, peer: MachineId)
    requires WorldTidy(w) && MoveEnabled(w, m) && at in w.net.machines && QuietMove(m, at, peer)
    ensures var w' := AfterMove(w, m, rollback);
            && at in w'.net.machines && at in w'.dialers
            && Potential(w', at, peer) + (if m == Succeed(at, peer) then 1 else 0) <= Potential(w, at, peer)
  {
    MoveKeepsTidy(w, m, rollback);
    MoveLowersAhead(w, m, rollback, at);
  }

  ghost function Successes(moves: seq<Move>, from: nat, i: nat, at: MachineId, peer: MachineId): nat
    requires from <= i <= |moves|
  {
    if i == from then 0
    else Successes(moves, from, i - 1, at, peer) + if moves[i - 1] == Succeed(at, peer) then 1 else 0
  }

  /** A stretch of a history without edits, without a restart of the dialer and without discovery
      events for the pair. */
  ghost predicate Quiet(moves: seq<Move>, from: nat, i: nat, at: MachineId, peer: MachineId)
    requires i <= |moves|
  {
    forall k :: from <= k < i ==> QuietMove(moves[k], at, peer)
  }

  lemma {:induction false} SuccessesSpendPotential(
    worlds: seq<World>, moves: seq<Move>, rollback: Rollback, from: nat, i: nat, at: MachineId, peer: MachineId)
    requires IsHistory(worlds, moves, rollback) && from <= i <= |moves|
    requires at in worlds[from].net.machines && at in worlds[from].dialers && Quiet(moves, from, i, at, peer)
    ensures at in worlds[i].net.machines && at in worlds[i].dialers
    ensures Successes(moves, from, i, at, peer) + Potential(worlds[i], at, peer) <= Potential(worlds[from], at, peer)
    decreases i
  {
    if i > from {
      SuccessesSpendPotential(worlds, moves, rollback, from, i - 1, at, peer);
      HistoryKeepsTidy(worlds, moves, rollback, i - 1);
      assert FollowsAt(worlds, moves, rollback, i - 1);
      MoveLowersPotential(worlds[i - 1], moves[i - 1], rollback, at, peer);
    }
  }

  /** Gossip quiesces: in any quiet stretch of any history the successful sessions from `at` to
      `peer` number at most two more than the writes `at` was behind on at its start. Merges,
      refusals, failures, retries, other machines' restarts and the dialing of every other pair may
      interleave. */
  lemma SuccessfulDialsAreBounded(
    worlds: seq<World>, moves: seq<Move>, rollback: Rollback, from: nat, i: nat, at: MachineId, peer: MachineId)
    requires IsHistory(worlds, moves, rollback) && from <= i <= |moves|
    requires at in worlds[from].net.machines && Quiet(moves, from, i, at, peer)
    ensures Successes(moves, from, i, at, peer) <= 2 + |Ahead(worlds[from].net, at)|
  {
    HistoryKeepsTidy(worlds, moves, rollback, from);
    SuccessesSpendPotential(worlds, moves, rollback, from, i, at, peer);
  }

  // ---------- a success confirms, or was overtaken ----------

  lemma MoveProgress(w: World, m: Move, rollback: Rollback, id: MachineId)
    requires WorldTidy(w) && MoveEnabled(w, m) && id in w.net.machines && !MoveForgets(w, m, id)
    ensures id in AfterMove(w, m, rollback).net.machines
    ensures
      var v, v' := w.net.machines[id].mem.v, AfterMove(w, m, rollback).net.machines[id].mem.v;
      Dominates(v', v) && (HeadOf(v') == HeadOf(v) || exists f: Field :: Earlier(v.Stamp(f), v'.Stamp(f)))
  {
    if StepOf(w, m).Some? {
      StepProgress(w.net, StepOf(w, m).value, rollback, id);
    } else {
      DominatesItself(w.net.machines[id].mem.v);
    }
  }

  predicate MoveForgets(w: World, m: Move, id: MachineId)
  {
    m.Sync? && Forgets(w.net, m.step, id)
  }

  /** In any history, a machine's stamps never move backwards, and a head that changed was overtaken
      by a strictly later stamp, as long as the machine is not restarted into forgetting. */
  lemma {:induction false} ChangedHeadWasOvertaken(
    worlds: seq<World>, moves: seq<Move>, rollback: Rollback, i: nat, j: nat, id: MachineId)
    requires IsHistory(worlds, moves, rollback) && i <= j <= |moves| && id in worlds[i].net.machines
    requires forall k :: i <= k < j ==> !MoveForgets(worlds[k], moves[k], id)
    ensures id in worlds[j].net.machines
    ensures
      var v, w := worlds[i].net.machines[id].mem.v, worlds[j].net.machines[id].mem.v;
      Dominates(w, v) && (HeadOf(w) == HeadOf(v) || exists f: Field :: Earlier(v.Stamp(f), w.Stamp(f)))
    decreases j
  {
    if i == j {
      DominatesItself(worlds[i].net.machines[id].mem.v);
    } else {
      ChangedHeadWasOvertaken(worlds, moves, rollback, i, j - 1, id);
      HistoryKeepsTidy(worlds, moves, rollback, j - 1);
      assert FollowsAt(worlds, moves, rollback, j - 1);
      MoveProgress(worlds[j - 1], moves[j - 1], rollback, id);
      ProgressAddsUp(worlds[i].net.machines[id].mem.v, worlds[j - 1].net.machines[id].mem.v,
          worlds[j].net.machines[id].mem.v);
    }
  }

  /** What makes a peer wanted again, or for the first time: it was rediscovered, lost or failed
      without its head confirmed, or the dialer restarted or made an edit. */
  lemma ForgottenPeerIsWanted(w: World, m: Move, rollback: Rollback, at: MachineId, peer: MachineId)
    requires WorldTidy(w) && MoveEnabled(w, m) && at in w.net.machines
    ensures at in AfterMove(w, m, rollback).net.machines && at in AfterMove(w, m, rollback).dialers
    ensures m == Found(at, peer) && !HasTask(w, at, peer) ==> WantsDial(AfterMove(w, m, rollback), at, peer)
    ensures m == Lost(at, peer) || m == Sync(Restart(at)) ==> WantsDial(AfterMove(w, m, rollback), at, peer)
    ensures (m.Sync? && m.step.Edit? && m.step.at == at && w.net.machines[at].mem.v.config != m.step.config
             && !HasTask(w, at, peer)) ==> WantsDial(AfterMove(w, m, rollback), at, peer)
    ensures m == Fail(at, peer) && peer !in Dials(w, at).confirmed ==> WantsDial(AfterMove(w, m, rollback), at, peer)
  {
    MoveKeepsTidy(w, m, rollback);
  }

  /** The move begins, ends or forgets a session from `at` to `peer`. */
  predicate TaskEvent(m: Move, at: MachineId, peer: MachineId)
  {
    m == Dial(at, peer) || m == Succeed(at, peer) || m == Fail(at, peer) || m == Lost(at, peer) || m == Sync(Restart(at))
  }

  /** A session in flight keeps the head it was dialed with. */
  lemma {:induction false} DialedHeadKept(worlds: seq<World>, moves: seq<Move>, rollback: Rollback, i: nat, j: nat,
      at: MachineId, peer: MachineId)
    requires IsHistory(worlds, moves, rollback) && i < j <= |moves| && moves[i] == Dial(at, peer)
    requires forall k :: i < k < j ==> !TaskEvent(moves[k], at, peer)
    ensures at in worlds[i].net.machines && HasTask(worlds[j], at, peer)
    ensures Dials(worlds[j], at).tasks[peer].head == HeadAt(worlds[i], at)
    decreases j
  {
    assert FollowsAt(worlds, moves, rollback, j - 1);
    if j - 1 > i {
      DialedHeadKept(worlds, moves, rollback, i, j - 1, at, peer);
      assert !TaskEvent(moves[j - 1], at, peer);
    }
  }

  /** Nothing happens that could change the head of `at` or make it forget what `peer` confirmed. */
  ghost predicate Idle(w: World, m: Move, rollback: Rollback, at: MachineId, peer: MachineId)
  {
    && m != Sync(Restart(at)) && m != Found(at, peer) && m != Lost(at, peer)
    && !(m.Sync? && m.step.Edit? && m.step.at == at)
    && (MoveEnabled(w, m) && StepOf(w, m).Some? ==> !UpdatesAt(w.net, StepOf(w, m).value, rollback, at))
  }

  /** The current head is confirmed and no session is in flight. */
  predicate Settled(w: World, at: MachineId, peer: MachineId)
  {
    && at in w.net.machines && at in w.dialers && !HasTask(w, at, peer)
    && peer in w.dialers[at].confirmed && w.dialers[at].confirmed[peer] == HeadAt(w, at)
  }

  /** A settled pair stays silent until something happens to it. */
  lemma {:induction false} SettledStaysSilent(worlds: seq<World>, moves: seq<Move>, rollback: Rollback, j: nat, k: nat,
      at: MachineId, peer: MachineId)
    requires IsHistory(worlds, moves, rollback) && j <= k <= |moves| && Settled(worlds[j], at, peer)
    requires forall l :: j <= l < k ==> Idle(worlds[l], moves[l], rollback, at, peer)
    ensures Settled(worlds[k], at, peer) && !WantsDial(worlds[k], at, peer)
    decreases k
  {
    if j < k {
      SettledStaysSilent(worlds, moves, rollback, j, k - 1, at, peer);
      HistoryKeepsTidy(worlds, moves, rollback, k - 1);
      assert FollowsAt(worlds, moves, rollback, k - 1);
      SettledStep(worlds[k - 1], moves[k - 1], rollback, at, peer);
    }
  }

  lemma SettledStep(w: World, m: Move, rollback: Rollback, at: MachineId, peer: MachineId)
    requires WorldTidy(w) && MoveEnabled(w, m) && Settled(w, at, peer) && Idle(w, m, rollback, at, peer)
    ensures Settled(AfterMove(w, m, rollback), at, peer)
  {
    MoveKeepsTidy(w, m, rollback);
    if StepOf(w, m).Some? {
      QuietStepKeepsHead(w.net, StepOf(w, m).value, rollback, at);
    }
  }

  /** The fate of a successful dial in any history: either the dialed head is still current, and then
      the pair is settled and silent for as long as it stays idle; or it was overtaken meanwhile by a
      strictly later stamp. */
  lemma SuccessSettlesUnlessOvertaken(
    worlds: seq<World>, moves: seq<Move>, rollback: Rollback, i: nat, j: nat, k: nat, at: MachineId, peer: MachineId)
    requires IsHistory(worlds, moves, rollback) && i < j < k <= |moves|
    requires moves[i] == Dial(at, peer) && moves[j] == Succeed(at, peer)
    requires forall l :: i < l < j ==> !TaskEvent(moves[l], at, peer)
    requires forall l :: j < l < k ==> Idle(worlds[l], moves[l], rollback, at, peer)
    ensures at in worlds[i].net.machines && at in worlds[j].net.machines
    ensures if HeadAt(worlds[j], at) == HeadAt(worlds[i], at)
            then Settled(worlds[k], at, peer) && !WantsDial(worlds[k], at, peer)
            else exists f: Field :: Earlier(worlds[i].net.machines[at].mem.v.Stamp(f), worlds[j].net.machines[at].mem.v.Stamp(f))
  {
    DialedHeadKept(worlds, moves, rollback, i, j, at, peer);
    forall k | i <= k < j ensures !MoveForgets(worlds[k], moves[k], at) {
      assert k > i ==> !TaskEvent(moves[k], at, peer);
    }
    ChangedHeadWasOvertaken(worlds, moves, rollback, i, j, at);
    if HeadAt(worlds[j], at) == HeadAt(worlds[i], at) {
      assert FollowsAt(worlds, moves, rollback, j);
      SettledStaysSilent(worlds, moves, rollback, j + 1, k, at, peer);
    }
  }

  // ---------- silence means convergence ----------

  /** The move makes a step that the results on agreement cover. */
  ghost predicate Follows(w: World, m: Move, w': World, rollback: Rollback)
  {
    && MoveEnabled(w, m) && w' == AfterMove(w, m, rollback)
    && (StepOf(w, m).Some? ==> Covered(w.net, StepOf(w, m).value, rollback))
  }

  ghost predicate AllCovered(worlds: seq<World>, moves: seq<Move>, rollback: Rollback)
    requires |moves| < |worlds|
  {
    forall i {:trigger FollowsAt(worlds, moves, rollback, i)} :: 0 <= i < |moves| ==>
      Follows(worlds[i], moves[i], worlds[i + 1], rollback)
  }

  ghost predicate WorldInv(w: World)
  {
    Inv(w.net) && WorldTidy(w)
  }

  lemma MoveKeepsInv(w: World, m: Move, w': World, rollback: Rollback)
    requires WorldInv(w) && Follows(w, m, w', rollback)
    ensures WorldInv(w') && w'.net.machines.Keys == w.net.machines.Keys
  {
    MoveKeepsTidy(w, m, rollback);
    if StepOf(w, m).Some? {
      StepKeepsInv(w.net, StepOf(w, m).value, rollback);
    }
  }

  lemma {:induction false} HistoryKeepsInv(worlds: seq<World>, moves: seq<Move>, rollback: Rollback, i: nat)
    requires IsHistory(worlds, moves, rollback) && AllCovered(worlds, moves, rollback) && i <= |moves|
    ensures WorldInv(worlds[i])
  {
    HistoryKeepsTidy(worlds, moves, rollback, i);
    if i == 0 {
      InitInv(worlds[0].net);
    } else {
      HistoryKeepsInv(worlds, moves, rollback, i - 1);
      assert FollowsAt(worlds, moves, rollback, i - 1);
      MoveKeepsInv(worlds[i - 1], moves[i - 1], worlds[i], rollback);
    }
  }

  function StampIn(h: Head, f: Field): LamportTime
  {
    match f
    case Port => h.portStamp
    case Screens => h.screensStamp
    case Links => h.linksStamp
    case Options => h.optionsStamp
    case ClipboardSharing => h.clipboardStamp
  }

  /** The state has everything the head stands for. */
  ghost predicate Reaches(v: Versioned, h: Head)
  {
    forall f: Field :: !Earlier(v.Stamp(f), StampIn(h, f))
  }

  lemma ReachesMore(v: Versioned, w: Versioned, h: Head)
    requires Dominates(v, w) && Reaches(w, h)
    ensures Reaches(v, h)
  {
    forall f: Field ensures !Earlier(v.Stamp(f), StampIn(h, f)) {
      EarlierTrichotomous(v.Stamp(f), w.Stamp(f));
      EarlierTrichotomous(w.Stamp(f), StampIn(h, f));
      if Earlier(v.Stamp(f), StampIn(h, f)) && Earlier(w.Stamp(f), v.Stamp(f)) {
        EarlierTransitive(w.Stamp(f), v.Stamp(f), StampIn(h, f));
      }
    }
  }

  /** Where the dialed head has got to at each stage of a session. */
  ghost predicate Carried(net: Net, at: MachineId, peer: MachineId, task: Task)
    requires at in net.machines
  {
    match task.stage
    case Dialing => Reaches(net.machines[at].mem.v, task.head)
    case Shipped(sent) => Reaches(sent.v, task.head)
    case _ => peer in net.machines && Reaches(net.machines[peer].mem.v, task.head)
  }

  ghost predicate Delivered(net: Net, peer: MachineId, h: Head)
  {
    peer in net.machines && Reaches(net.machines[peer].mem.v, h)
  }

  /** Confirmed means delivered: the peer has everything the confirmed head stands for. */
  ghost predicate Honest(w: World, at: MachineId, peer: MachineId)
    requires at in w.net.machines
  {
    && (HasTask(w, at, peer) ==> Carried(w.net, at, peer, Dials(w, at).tasks[peer]))
    && (peer in Dials(w, at).confirmed ==> Delivered(w.net, peer, Dials(w, at).confirmed[peer]))
  }

  /** The network part: whatever step is taken, what has got somewhere stays there. */
  lemma StepKeepsHonest(w: World, m: Move, w': World, rollback: Rollback, at: MachineId, peer: MachineId)
    requires WorldInv(w) && Follows(w, m, w', rollback) && at in w.net.machines && Honest(w, at, peer)
    ensures at in w'.net.machines && Honest(World(w'.net, w.dialers), at, peer)
  {
    MoveKeepsInv(w, m, w', rollback);
    NetMonotone(w, m, w', rollback, at);
    if HasTask(w, at, peer) && Dials(w, at).tasks[peer].stage.Dialing? {
      ReachesMore(w'.net.machines[at].mem.v, w.net.machines[at].mem.v, Dials(w, at).tasks[peer].head);
    }
    if peer in w.net.machines {
      NetMonotone(w, m, w', rollback, peer);
      if HasTask(w, at, peer) && (Dials(w, at).tasks[peer].stage.Answered? || Dials(w, at).tasks[peer].stage.Finished?) {
        ReachesMore(w'.net.machines[peer].mem.v, w.net.machines[peer].mem.v, Dials(w, at).tasks[peer].head);
      }
      if peer in Dials(w, at).confirmed {
        ReachesMore(w'.net.machines[peer].mem.v, w.net.machines[peer].mem.v, Dials(w, at).confirmed[peer]);
      }
    }
  }

  lemma NetMonotone(w: World, m: Move, w': World, rollback: Rollback, id: MachineId)
    requires WorldInv(w) && Follows(w, m, w', rollback) && id in w.net.machines
    ensures id in w'.net.machines && Dominates(w'.net.machines[id].mem.v, w.net.machines[id].mem.v)
  {
    assert InOrder(w.net.writes, w.net.machines[id]);
    MoveProgress(w, m, rollback, id);
  }

  lemma ReachesOwnHead(v: Versioned)
    ensures Reaches(v, HeadOf(v))
  {
    forall f: Field ensures !Earlier(v.Stamp(f), StampIn(HeadOf(v), f)) {
      EarlierTrichotomous(v.Stamp(f), v.Stamp(f));
    }
  }

  /** The bookkeeping part. */
  lemma MoveKeepsHonest(w: World, m: Move, w': World, rollback: Rollback, at: MachineId, peer: MachineId)
    requires WorldInv(w) && Follows(w, m, w', rollback) && at in w.net.machines && Honest(w, at, peer)
    requires !(m == Answer(at, peer) && RefusedAnswer(w, m))
    ensures at in w'.net.machines && Honest(w', at, peer)
  {
    StepKeepsHonest(w, m, w', rollback, at, peer);
    if m == Dial(at, peer) {
      ReachesOwnHead(w.net.machines[at].mem.v);
    } else if m == Answer(at, peer) {
      var task := w.dialers[at].tasks[peer];
      ReceivedDominates(w.net.machines[peer], task.stage.sent, rollback);
      ReachesMore(w'.net.machines[peer].mem.v, task.stage.sent.v, task.head);
    }
  }

  /** The move is a peer's turn in a session, and it refuses the state it was sent. */
  predicate RefusedAnswer(w: World, m: Move)
  {
    m.Answer? && MoveEnabled(w, m) && Rejected(w.net.machines[m.peer], w.dialers[m.at].tasks[m.peer].stage.sent)
  }

  /** Whatever `at` shipped to `peer`, the peer accepted. */
  ghost predicate AnswersAccepted(worlds: seq<World>, moves: seq<Move>, i: nat, at: MachineId, peer: MachineId)
    requires i <= |moves| <= |worlds|
  {
    forall k :: 0 <= k < i ==> !(moves[k] == Answer(at, peer) && RefusedAnswer(worlds[k], moves[k]))
  }

  /** With the daemon's own rollback every covered history is such a history. */
  lemma CoveredAnswersAreAccepted(worlds: seq<World>, moves: seq<Move>, i: nat, at: MachineId, peer: MachineId)
    requires IsHistory(worlds, moves, ConfigOnly) && AllCovered(worlds, moves, ConfigOnly) && i <= |moves|
    ensures AnswersAccepted(worlds, moves, i, at, peer)
  {
    forall k | 0 <= k < i ensures !RefusedAnswer(worlds[k], moves[k]) {
      assert FollowsAt(worlds, moves, ConfigOnly, k);
    }
  }

  lemma {:induction false} HistoryKeepsHonest(
    worlds: seq<World>, moves: seq<Move>, rollback: Rollback, i: nat, at: MachineId, peer: MachineId)
    requires IsHistory(worlds, moves, rollback) && AllCovered(worlds, moves, rollback) && i <= |moves|
    requires at in worlds[i].net.machines && AnswersAccepted(worlds, moves, i, at, peer)
    ensures Honest(worlds[i], at, peer)
  {
    if i > 0 {
      HistoryKeepsInv(worlds, moves, rollback, i - 1);
      assert FollowsAt(worlds, moves, rollback, i - 1);
      MoveKeepsInv(worlds[i - 1], moves[i - 1], worlds[i], rollback);
      HistoryKeepsHonest(worlds, moves, rollback, i - 1, at, peer);
      MoveKeepsHonest(worlds[i - 1], moves[i - 1], worlds[i], rollback, at, peer);
    }
  }

  /** Silence means convergence: in every covered history in which the two machines accepted what
      they shipped to each other, if neither wants to dial the other or is in a session with it they
      have the same head. */
  lemma SilentPairHasConverged(worlds: seq<World>, moves: seq<Move>, rollback: Rollback, i: nat, a: MachineId,
      b: MachineId)
    requires IsHistory(worlds, moves, rollback) && AllCovered(worlds, moves, rollback) && i <= |moves|
    requires AnswersAccepted(worlds, moves, i, a, b) && AnswersAccepted(worlds, moves, i, b, a)
    requires a in worlds[i].net.machines && a in worlds[i].dialers && b in worlds[i].net.machines
    requires b in worlds[i].dialers
    requires !WantsDial(worlds[i], a, b) && !HasTask(worlds[i], a, b)
    requires !WantsDial(worlds[i], b, a) && !HasTask(worlds[i], b, a)
    ensures HeadAt(worlds[i], a) == HeadAt(worlds[i], b)
  {
    assert Settled(worlds[i], a, b) && Settled(worlds[i], b, a);
    HistoryKeepsInv(worlds, moves, rollback, i);
    HistoryKeepsHonest(worlds, moves, rollback, i, a, b);
    HistoryKeepsHonest(worlds, moves, rollback, i, b, a);
    var n := worlds[i].net;
    var c, d := n.machines[a].mem, n.machines[b].mem;
    PresentAgree(n, c, d);
    forall f: Field ensures c.v.Stamp(f) == d.v.Stamp(f) && c.v.Value(f) == d.v.Value(f) {
      EarlierTrichotomous(c.v.Stamp(f), d.v.Stamp(f));
      assert StampIn(HeadOf(c.v), f) == c.v.Stamp(f) && StampIn(HeadOf(d.v), f) == d.v.Stamp(f);
    }
    HeadsAgreeOnSharedFields(c.v, d.v);
  }
}
