/** What happens when a merged document fails validation. The daemon puts the saved config back
    but keeps the stamps of the merge it just refused. */
module SyncRejection {
  import Order
  import opened Configuration
  import opened Versioning
  import opened SyncNetwork
  import opened SyncProgress

  /** A refused merge is meant to change nothing. Config and per-machine part do survive it, but
      the stamps are always the refused state's; restoring both restores both. */
  lemma RejectedMergeKeepsOnlyTheConfig(m: Machine, copy: Copy)
    requires Saved(m) && Rejected(m, copy)
    ensures Received(m, copy, ConfigOnly).mem.v.config == m.mem.v.config
    ensures Received(m, copy, ConfigOnly).mem.v.stamps != m.mem.v.stamps
    ensures Received(m, copy, ConfigAndStamps).mem.v == m.mem.v.(clock := Raised(m.mem.v, copy.v))
  {
    var f :| Wins(m.mem.v, copy.v, f);
    EarlierTrichotomous(m.mem.v.Stamp(f), copy.v.Stamp(f));
    assert Received(m, copy, ConfigOnly).mem.v.Stamp(f) != m.mem.v.Stamp(f);
  }

  /** Handling a delivered state keeps "equal stamps mean equal values" between receiver and
      sender exactly when the merged document is valid: every single refusal breaks it. */
  lemma AgreementKeptIffNotRejected(m: Machine, copy: Copy)
    requires Saved(m) && Agree(m.mem.v, copy.v)
    ensures Agree(Received(m, copy, ConfigOnly).mem.v, copy.v) <==> !Rejected(m, copy)
  {
    var mine, theirs := m.mem.v, copy.v;
    var merged, result := Merged(mine, theirs), Received(m, copy, ConfigOnly).mem.v;
    if Rejected(m, copy) {
      MergeKeepsLocalPart(mine, theirs);
      if forall f: Field :: merged.Value(f) == mine.Value(f) {
        forall f: Field ensures ValueOf(merged.config, f) == ValueOf(mine.config, f) {
          assert merged.Value(f) == mine.Value(f);
        }
        ConfigIsItsParts(merged.config, mine.config);
        assert false;
      }
      var f: Field :| merged.Value(f) != mine.Value(f);
      assert Wins(mine, theirs, f);
      assert result.Stamp(f) == theirs.Stamp(f) && result.Value(f) != theirs.Value(f);
    } else {
      forall f: Field | merged.Stamp(f) == theirs.Stamp(f) ensures merged.Value(f) == theirs.Value(f) {}
    }
  }

  /** Whichever way a refusal is rolled back: the sender's state has arrived, stamps and values,
      exactly when it was not refused. */
  lemma ArrivedIffNotRejected(m: Machine, copy: Copy, rollback: Rollback)
    requires Saved(m) && Agree(m.mem.v, copy.v)
    ensures
      var r := Received(m, copy, rollback).mem.v;
      Dominates(r, copy.v) && Agree(r, copy.v) <==> !Rejected(m, copy)
  {
    AgreementKeptIffNotRejected(m, copy);
    if !Rejected(m, copy) {
      ReceivedDominates(m, copy, rollback);
      assert Received(m, copy, rollback).mem.v == Received(m, copy, ConfigOnly).mem.v;
    } else if rollback == ConfigAndStamps {
      var f :| Wins(m.mem.v, copy.v, f);
      assert Received(m, copy, rollback).mem.v.Stamp(f) == m.mem.v.Stamp(f);
    }
  }

  // ---------- divergence is permanent ----------

  /** Nothing in the network carries a later stamp than `t` for field `f`. */
  ghost predicate Capped(n: Net, f: Field, t: LamportTime)
  {
    && (forall c :: c in n.wire ==> !Earlier(t, c.v.Stamp(f)))
    && (forall id :: id in n.machines ==> !Earlier(t, n.machines[id].mem.v.Stamp(f)))
  }

  /** Machine `id` holds value `x` for field `f`, in memory and on disk, under stamp `t`. */
  ghost predicate Holds(n: Net, id: MachineId, f: Field, t: LamportTime, x: FieldValue)
  {
    && id in n.machines
    && n.machines[id].mem.v.Stamp(f) == t && n.machines[id].mem.v.Value(f) == x && n.machines[id].disk.v.Value(f) == x
  }

  lemma ReceivedHolds(m: Machine, copy: Copy, f: Field, t: LamportTime)
    requires !Earlier(t, copy.v.Stamp(f)) && !Earlier(t, m.mem.v.Stamp(f))
    ensures
      var r := Received(m, copy, ConfigOnly);
      && !Earlier(t, r.mem.v.Stamp(f))
      && (m.mem.v.Stamp(f) == t && m.mem.v.Value(f) == m.disk.v.Value(f)
          ==> r.mem.v.Stamp(f) == t && r.mem.v.Value(f) == r.disk.v.Value(f) == m.mem.v.Value(f))
  {
    EarlierTrichotomous(t, copy.v.Stamp(f));
  }

  lemma StepKeepsHolding(n: Net, s: Step, f: Field, t: LamportTime, id: MachineId, x: FieldValue)
    requires Enabled(n, s) && (s.Snapshot? || s.Deliver?)
    requires Capped(n, f, t) && Holds(n, id, f, t, x)
    ensures Capped(Next(n, s, ConfigOnly), f, t) && Holds(Next(n, s, ConfigOnly), id, f, t, x)
  {
    if s.Deliver? {
      ReceivedHolds(n.machines[s.at], s.copy, f, t);
    }
  }

  /** Two machines holding different values under the same latest stamp never converge again:
      not after any exchange of any states with anyone, accepted or refused, until someone edits
      or restarts. */
  lemma {:induction false} DivergenceIsPermanent(
    trace: seq<Net>, steps: seq<Step>, from: nat, i: nat, f: Field, t: LamportTime,
    a: MachineId, x: FieldValue, b: MachineId, y: FieldValue)
    requires IsTrace(trace, steps, ConfigOnly) && from <= i <= |steps|
    requires forall k :: from <= k < i ==> steps[k].Snapshot? || steps[k].Deliver?
    requires Capped(trace[from], f, t) && Holds(trace[from], a, f, t, x) && Holds(trace[from], b, f, t, y) && x != y
    ensures Capped(trace[i], f, t) && Holds(trace[i], a, f, t, x) && Holds(trace[i], b, f, t, y)
    ensures HeadOf(trace[i].machines[a].mem.v) != HeadOf(trace[i].machines[b].mem.v)
    decreases i
  {
    if i > from {
      DivergenceIsPermanent(trace, steps, from, i - 1, f, t, a, x, b, y);
      assert StepAt(trace, steps, ConfigOnly, i - 1);
      StepKeepsHolding(trace[i - 1], steps[i - 1], f, t, a, x);
      StepKeepsHolding(trace[i - 1], steps[i - 1], f, t, b, y);
    }
    HeadsAgreeOnSharedFields(trace[i].machines[a].mem.v, trace[i].machines[b].mem.v);
  }

  // ---------- a run that gets there ----------

  /** Machine `a` handles the bootstrap state of `b` and refuses it. */
  lemma RefusedBootstrap(n: Net, a: MachineId, b: MachineId) returns (f: Field)
    requires Init(n) && n.machines.Keys == {a, b} && Order.Less(a, b)
    requires Rejected(n.machines[a], n.machines[b].mem)
    ensures
      var r := Received(n.machines[a], n.machines[b].mem, ConfigOnly);
      && r.mem.v.Stamp(f) == LamportTime(1, b) == n.machines[b].mem.v.Stamp(f)
      && r.mem.v.Value(f) == r.disk.v.Value(f) != n.machines[b].mem.v.Value(f)
      && n.machines[b].mem == n.machines[b].disk && a != b
  {
    var ma, mb := n.machines[a], n.machines[b];
    Order.LessTrichotomous(a, b);
    InitInv(n);
    assert InOrder(n.writes, ma) && InOrder(n.writes, mb);
    forall f: Field ensures ma.mem.v.Stamp(f) == LamportTime(1, a) && mb.mem.v.Stamp(f) == LamportTime(1, b) {}
    AgreementKeptIffNotRejected(ma, mb.mem);
    f :| Received(ma, mb.mem, ConfigOnly).mem.v.Stamp(f) == mb.mem.v.Stamp(f)
         && Received(ma, mb.mem, ConfigOnly).mem.v.Value(f) != mb.mem.v.Value(f);
  }

  /** The first contact of two freshly bootstrapped machines: `b` has the later machine id, and
      its layout is not valid on `a`. After `a` has handled `b`'s state they stay apart. */
  lemma FirstContactRejectedNeverConverges(trace: seq<Net>, steps: seq<Step>, i: nat, a: MachineId, b: MachineId)
    requires IsTrace(trace, steps, ConfigOnly) && Init(trace[0]) && trace[0].machines.Keys == {a, b} && Order.Less(a, b)
    requires 2 <= i <= |steps| && steps[0] == Snapshot(b) && steps[1] == Deliver(a, trace[0].machines[b].mem)
    requires Rejected(trace[0].machines[a], trace[0].machines[b].mem)
    requires forall k :: 2 <= k < i ==> steps[k].Snapshot? || steps[k].Deliver?
    ensures a in trace[i].machines && b in trace[i].machines
    ensures HeadOf(trace[i].machines[a].mem.v) != HeadOf(trace[i].machines[b].mem.v)
    ensures exists f: Field :: trace[i].machines[a].mem.v.Stamp(f) == trace[i].machines[b].mem.v.Stamp(f)
                               && trace[i].machines[a].mem.v.Value(f) != trace[i].machines[b].mem.v.Value(f)
  {
    assert StepAt(trace, steps, ConfigOnly, 0) && StepAt(trace, steps, ConfigOnly, 1);
    var mb := trace[0].machines[b];
    var f := RefusedBootstrap(trace[0], a, b);
    var r := Received(trace[0].machines[a], mb.mem, ConfigOnly);
    assert trace[1] == trace[0].(wire := trace[0].wire + {mb.mem});
    assert trace[2] == Net(trace[0].machines[a := r], trace[1].wire + {r.mem}, trace[0].writes);
    EarlierTrichotomous(LamportTime(1, b), LamportTime(1, b));
    assert trace[2].wire == {mb.mem, r.mem};
    assert trace[2].machines.Keys == {a, b};
    DivergenceIsPermanent(trace, steps, 2, i, f, LamportTime(1, b), a, r.mem.v.Value(f), b, mb.mem.v.Value(f));
  }

  function Named(name: string): Config
  {
    OneScreen(name, 24800)
  }

  /** A machine that has just bootstrapped. */
  function Bootstrapped(config: Config, id: MachineId): Machine
  {
    var copy := Copy(Initial(config, id), set f: Field :: Write(f, LamportTime(1, id)));
    Machine(copy, copy)
  }

  /** Two default installations that were only given names of their own. */
  function NamedNet(a: MachineId, x: string, b: MachineId, y: string): Net
  {
    Net(map[a := Bootstrapped(Named(x), a), b := Bootstrapped(Named(y), b)], {},
        map w | w in (set f: Field :: Write(f, LamportTime(1, a))) + (set f: Field :: Write(f, LamportTime(1, b)))
          :: ValueOf(if w.stamp.origin == a then Named(x) else Named(y), w.field))
  }

  lemma NamedNetStarts(a: MachineId, b: MachineId, x: string, y: string)
    requires a != b
    ensures Init(NamedNet(a, x, b, y)) && NamedNet(a, x, b, y).machines.Keys == {a, b}
  {
    var n := NamedNet(a, x, b, y);
    assert Named(x).screens[0].name == x && Named(y).screens[0].name == y;
    assert n.machines.Keys == {a, b};
  }

  /** Such machines exist. */
  lemma NamedMachinesReject(a: MachineId, b: MachineId, x: string, y: string)
    requires Order.Less(a, b) && x != y
    ensures
      var n := NamedNet(a, x, b, y);
      Init(n) && n.machines.Keys == {a, b} && Rejected(n.machines[a], n.machines[b].mem)
  {
    Order.LessTrichotomous(a, b);
    NamedNetStarts(a, b, x, y);
    var ma, mb := Initial(Named(x), a), Initial(Named(y), b);
    assert Wins(ma, mb, Screens);
    var merged := Merged(ma, mb).config;
    assert merged.screens == Named(y).screens && merged.serverName == x;
    assert !IsScreen(merged, x);
  }

  lemma ExtendTrace(trace: seq<Net>, steps: seq<Step>, s: Step)
    requires IsTrace(trace, steps, ConfigOnly) && Enabled(trace[|steps|], s)
    ensures IsTrace(trace + [Next(trace[|steps|], s, ConfigOnly)], steps + [s], ConfigOnly)
  {
    var trace', steps' := trace + [Next(trace[|steps|], s, ConfigOnly)], steps + [s];
    forall i | 0 <= i < |steps'| ensures StepAt(trace', steps', ConfigOnly, i) {
      if i < |steps| {
        assert StepAt(trace, steps, ConfigOnly, i);
      }
    }
  }

  lemma Then(trace: seq<Net>, steps: seq<Step>, s: Step) returns (trace': seq<Net>, steps': seq<Step>)
    requires IsTrace(trace, steps, ConfigOnly) && Enabled(trace[|steps|], s)
    ensures IsTrace(trace', steps', ConfigOnly) && steps' == steps + [s] && trace' == trace + [trace'[|steps'|]]
    ensures trace'[|steps'|] == Next(trace[|steps|], s, ConfigOnly)
    ensures trace'[|steps'|].machines.Keys == trace[|steps|].machines.Keys
  {
    ExtendTrace(trace, steps, s);
    trace', steps' := trace + [Next(trace[|steps|], s, ConfigOnly)], steps + [s];
  }

  /** One end ships its state and the other handles it. */
  lemma Shipment(trace: seq<Net>, steps: seq<Step>, a: MachineId, b: MachineId)
    returns (trace': seq<Net>, steps': seq<Step>)
    requires IsTrace(trace, steps, ConfigOnly) && a in trace[|steps|].machines && b in trace[|steps|].machines
    ensures IsTrace(trace', steps', ConfigOnly) && steps <= steps' && trace <= trace' && |steps'| == |steps| + 2
    ensures steps'[|steps|] == Snapshot(a) && steps'[|steps| + 1] == Deliver(b, trace[|steps|].machines[a].mem)
    ensures trace'[|steps'|].machines.Keys == trace[|steps|].machines.Keys
  {
    trace', steps' := Then(trace, steps, Snapshot(a));
    trace', steps' := Then(trace', steps', Deliver(b, trace[|steps|].machines[a].mem));
  }

  lemma {:induction false} FirstContactAndRounds(n: Net, a: MachineId, b: MachineId, rounds: nat)
    returns (trace: seq<Net>, steps: seq<Step>)
    requires n.machines.Keys == {a, b}
    ensures IsTrace(trace, steps, ConfigOnly) && trace[0] == n && |steps| == 2 + 4 * rounds
    ensures steps[0] == Snapshot(b) && steps[1] == Deliver(a, n.machines[b].mem)
    ensures forall k :: 2 <= k < |steps| ==> steps[k].Snapshot? || steps[k].Deliver?
    ensures trace[|steps|].machines.Keys == {a, b}
  {
    if rounds == 0 {
      trace, steps := [n], [];
      trace, steps := Shipment(trace, steps, b, a);
    } else {
      trace, steps := FirstContactAndRounds(n, a, b, rounds - 1);
      trace, steps := Shipment(trace, steps, a, b);
      trace, steps := Shipment(trace, steps, b, a);
    }
  }

  /** A run of the two named installations: `a` refuses the first state it gets from `b`, and then
      the two exchange states as often as one likes. However often that is, they end apart. */
  lemma NamedMachinesNeverConverge(a: MachineId, b: MachineId, x: string, y: string, rounds: nat)
    returns (trace: seq<Net>, steps: seq<Step>)
    requires Order.Less(a, b) && x != y
    ensures IsTrace(trace, steps, ConfigOnly) && Init(trace[0]) && trace[0] == NamedNet(a, x, b, y)
    ensures |steps| == 2 + 4 * rounds
    ensures a in trace[|steps|].machines && b in trace[|steps|].machines
    ensures HeadOf(trace[|steps|].machines[a].mem.v) != HeadOf(trace[|steps|].machines[b].mem.v)
  {
    NamedMachinesReject(a, b, x, y);
    trace, steps := FirstContactAndRounds(NamedNet(a, x, b, y), a, b, rounds);
    FirstContactRejectedNeverConverges(trace, steps, |steps|, a, b);
  }

  // ---------- a refusal forgotten and repeated ----------

  /** The stamps of a refused merge are not saved, so a restart undoes it entirely. */
  lemma RestartUndoesRefusal(m: Machine, copy: Copy)
    requires m.mem == m.disk && Rejected(m, copy)
    ensures Received(m, copy, ConfigOnly).(mem := Received(m, copy, ConfigOnly).disk) == m
  {
  }

  lemma {:induction false} UpdateCountOfFront(
    trace: seq<Net>, steps: seq<Step>, trace': seq<Net>, steps': seq<Step>, i: nat, id: MachineId)
    requires i <= |steps| <= |steps'| && |steps| < |trace| && |steps'| < |trace'| && steps <= steps' && trace <= trace'
    ensures UpdateCount(trace', steps', ConfigOnly, 0, i, id) == UpdateCount(trace, steps, ConfigOnly, 0, i, id)
  {
    if i > 0 {
      UpdateCountOfFront(trace, steps, trace', steps', i - 1, id);
    }
  }

  /** One round: `a` handles the state of `b`, refuses it, and is restarted. */
  lemma RefuseAndRestart(trace: seq<Net>, steps: seq<Step>, n: Net, a: MachineId, copy: Copy)
    returns (trace': seq<Net>, steps': seq<Step>)
    requires IsTrace(trace, steps, ConfigOnly) && trace[|steps|].machines == n.machines && copy in trace[|steps|].wire
    requires a in n.machines && n.machines[a].mem == n.machines[a].disk && Rejected(n.machines[a], copy)
    ensures IsTrace(trace', steps', ConfigOnly) && steps' == steps + [Deliver(a, copy), Restart(a)] && trace <= trace'
    ensures trace'[|steps'|].machines == n.machines && copy in trace'[|steps'|].wire
    ensures UpdateCount(trace', steps', ConfigOnly, 0, |steps'|, a) ==
            UpdateCount(trace, steps, ConfigOnly, 0, |steps|, a) + 1
  {
    var k := |steps|;
    trace', steps' := Then(trace, steps, Deliver(a, copy));
    var trace1, steps1 := trace', steps';
    trace', steps' := Then(trace', steps', Restart(a));
    RestartUndoesRefusal(n.machines[a], copy);
    assert trace'[k + 2].machines == n.machines;
    UpdateCountOfFront(trace, steps, trace', steps', k, a);
    assert trace'[k] == trace[k] && steps'[k] == Deliver(a, copy) && steps'[k + 1] == Restart(a);
    assert UpdatesAt(trace'[k], steps'[k], ConfigOnly, a) && !UpdatesAt(trace'[k + 1], steps'[k + 1], ConfigOnly, a);
    assert UpdateCount(trace', steps', ConfigOnly, 0, k + 1, a) == UpdateCount(trace', steps', ConfigOnly, 0, k, a) + 1;
  }

  /** Why the bound on news needs machines that do not forget: two named installations and no edits,
      yet any number of merges at `a` that bring news, each refused and then undone by a restart. */
  lemma {:induction false} NamedMachinesRefuseForever(a: MachineId, b: MachineId, x: string, y: string, rounds: nat)
    returns (trace: seq<Net>, steps: seq<Step>)
    requires Order.Less(a, b) && x != y
    ensures IsTrace(trace, steps, ConfigOnly) && Init(trace[0]) && trace[0] == NamedNet(a, x, b, y)
    ensures forall k :: 0 <= k < |steps| ==> !steps[k].Edit?
    ensures UpdateCount(trace, steps, ConfigOnly, 0, |steps|, a) == rounds
    ensures trace[|steps|].machines == trace[0].machines && trace[0].machines[b].mem in trace[|steps|].wire
  {
    NamedMachinesReject(a, b, x, y);
    var n := NamedNet(a, x, b, y);
    if rounds == 0 {
      trace, steps := Then([n], [], Snapshot(b));
      assert UpdateCount(trace, steps, ConfigOnly, 0, 0, a) == 0 && !UpdatesAt(trace[0], steps[0], ConfigOnly, a);
    } else {
      trace, steps := NamedMachinesRefuseForever(a, b, x, y, rounds - 1);
      trace, steps := RefuseAndRestart(trace, steps, n, a, n.machines[b].mem);
    }
  }

  // ---------- apart forever ----------

  predicate AllAt(v: Versioned, t: LamportTime)
  {
    v.Stamp(Port) == v.Stamp(Screens) == v.Stamp(Links) == v.Stamp(Options) == v.Stamp(ClipboardSharing) == t
  }

  /** What `a` can hold or ship: its own document, under its own stamps or under those of `b`. */
  predicate OfA(c: Copy, a: MachineId, b: MachineId, x: string)
  {
    c.v.config == Named(x) && (AllAt(c.v, LamportTime(1, a)) || AllAt(c.v, LamportTime(1, b)))
  }

  /** What `b` can hold or ship. */
  predicate OfB(c: Copy, b: MachineId, y: string)
  {
    c.v.config == Named(y) && AllAt(c.v, LamportTime(1, b))
  }

  ghost predicate Apart(n: Net, a: MachineId, b: MachineId, x: string, y: string)
  {
    && n.machines.Keys == {a, b}
    && OfA(n.machines[a].mem, a, b, x) && OfA(n.machines[a].disk, a, b, x)
    && OfB(n.machines[b].mem, b, y) && OfB(n.machines[b].disk, b, y)
    && forall c :: c in n.wire ==> OfA(c, a, b, x) || OfB(c, b, y)
  }

  /** Nothing on the wire is news to `b`. */
  lemma HandledByB(m: Machine, copy: Copy, rollback: Rollback, a: MachineId, b: MachineId, x: string, y: string)
    requires Order.Less(a, b) && OfB(m.mem, b, y) && OfB(m.disk, b, y)
    requires OfA(copy, a, b, x) || OfB(copy, b, y)
    ensures var r := Received(m, copy, rollback); OfB(r.mem, b, y) && OfB(r.disk, b, y)
  {
    forall f: Field ensures !Wins(m.mem.v, copy.v, f) {
      Order.LessTrichotomous(a, b);
      EarlierTrichotomous(LamportTime(1, b), LamportTime(1, b));
      EarlierTrichotomous(LamportTime(1, a), LamportTime(1, b));
    }
    MergeWithoutNews(m.mem.v, copy.v);
  }

  /** Whatever `a` handles, it keeps its document: the document of `b` is refused, its own accepted. */
  lemma HandledByA(m: Machine, copy: Copy, rollback: Rollback, a: MachineId, b: MachineId, x: string, y: string)
    requires Order.Less(a, b) && x != y && OfA(m.mem, a, b, x) && OfA(m.disk, a, b, x)
    requires OfA(copy, a, b, x) || OfB(copy, b, y)
    ensures var r := Received(m, copy, rollback); OfA(r.mem, a, b, x) && OfA(r.disk, a, b, x)
  {
    var v, w := m.mem.v, copy.v;
    Order.LessTrichotomous(a, b);
    EarlierTrichotomous(LamportTime(1, a), LamportTime(1, a));
    EarlierTrichotomous(LamportTime(1, b), LamportTime(1, b));
    EarlierTrichotomous(LamportTime(1, a), LamportTime(1, b));
    if AllAt(v, LamportTime(1, a)) && AllAt(w, LamportTime(1, b)) {
      assert Wins(v, w, Screens);
      assert AllAt(Merged(v, w), LamportTime(1, b));
      OwnOrForeign(v, w, x, y);
    } else {
      forall f: Field ensures !Wins(v, w, f) {}
      MergeWithoutNews(v, w);
    }
  }

  lemma OwnOrForeign(v: Versioned, w: Versioned, x: string, y: string)
    requires x != y && v.config == Named(x) && (w.config == Named(x) || w.config == Named(y))
    requires forall f: Field :: Wins(v, w, f)
    ensures w.config == Named(x) ==> Merged(v, w).config == Named(x) && Valid(Named(x))
    ensures w.config == Named(y) ==> !Valid(Merged(v, w).config)
  {
    var merged := Merged(v, w).config;
    assert Wins(v, w, Screens) && Wins(v, w, Port) && Wins(v, w, Links) && Wins(v, w, Options)
        && Wins(v, w, ClipboardSharing);
    assert Named(x).screens[0].name == x && Named(y).screens[0].name == y;
    if w.config == Named(y) {
      assert merged.screens == Named(y).screens && merged.serverName == x;
      assert !IsScreen(merged, x);
    }
  }

  lemma StepKeepsApart(n: Net, s: Step, rollback: Rollback, a: MachineId, b: MachineId, x: string, y: string)
    requires Order.Less(a, b) && x != y && Apart(n, a, b, x, y) && Enabled(n, s) && !s.Edit?
    ensures Apart(Next(n, s, rollback), a, b, x, y)
  {
    Order.LessTrichotomous(a, b);
    if s.Deliver? {
      if s.at == a {
        HandledByA(n.machines[a], s.copy, rollback, a, b, x, y);
      } else {
        HandledByB(n.machines[b], s.copy, rollback, a, b, x, y);
      }
    }
  }

  /** Without an edit the two named installations never converge, whatever they ship, deliver, refuse
      or accept, however often they restart, and whichever way refusals are rolled back. */
  lemma {:induction false} NamedMachinesStayApart(
    trace: seq<Net>, steps: seq<Step>, rollback: Rollback, i: nat, a: MachineId, b: MachineId, x: string, y: string)
    requires Order.Less(a, b) && x != y && IsTrace(trace, steps, rollback) && i <= |steps|
    requires trace[0] == NamedNet(a, x, b, y) && forall k :: 0 <= k < i ==> !steps[k].Edit?
    ensures Apart(trace[i], a, b, x, y)
    ensures HeadOf(trace[i].machines[a].mem.v) != HeadOf(trace[i].machines[b].mem.v)
  {
    Order.LessTrichotomous(a, b);
    if i == 0 {
      NamedNetStarts(a, b, x, y);
    } else {
      NamedMachinesStayApart(trace, steps, rollback, i - 1, a, b, x, y);
      assert StepAt(trace, steps, rollback, i - 1);
      StepKeepsApart(trace[i - 1], steps[i - 1], rollback, a, b, x, y);
    }
    assert Named(x).screens[0].name == x && Named(y).screens[0].name == y;
  }
}
