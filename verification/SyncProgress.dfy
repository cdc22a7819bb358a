/** What every run makes progress on, refused merges included: stamps move forward, heads change by
    later stamps only, and once edits stop the merges that bring news run out. */
module SyncProgress {
  import opened Configuration
  import opened Versioning
  import opened SyncNetwork

  // ---------- what refusals keep, too ----------

  /** Every stamp of the copy belongs to a write that was made. */
  ghost predicate Recorded(writes: map<Write, FieldValue>, c: Copy)
  {
    forall f: Field :: Write(f, c.v.Stamp(f)) in writes
  }

  ghost predicate Tidy(writes: map<Write, FieldValue>, m: Machine)
  {
    && m.mem.v.config == m.disk.v.config && Dominates(m.mem.v, m.disk.v)
    && Recorded(writes, m.mem) && Recorded(writes, m.disk)
  }

  /** Weaker than the invariant of accepted runs, but kept by every step: live and saved document are
      the same, the live stamps are no earlier than the saved ones, and none comes from nowhere. */
  ghost predicate NetTidy(n: Net)
  {
    && (forall id {:trigger Tidy(n.writes, n.machines[id])} :: id in n.machines ==> Tidy(n.writes, n.machines[id]))
    && (forall c {:trigger Recorded(n.writes, c)} :: c in n.wire ==> Recorded(n.writes, c))
  }

  lemma InitTidy(n: Net)
    requires Init(n)
    ensures NetTidy(n)
  {
    forall id | id in n.machines ensures Tidy(n.writes, n.machines[id]) {
      DominatesItself(n.machines[id].mem.v);
      forall f: Field ensures n.machines[id].mem.v.Stamp(f) == LamportTime(1, id) {}
    }
  }

  lemma RecordedExtends(writes: map<Write, FieldValue>, more: map<Write, FieldValue>, c: Copy)
    requires Recorded(writes, c)
    ensures Recorded(writes + more, c)
  {
  }

  lemma ReceivedTidy(writes: map<Write, FieldValue>, m: Machine, copy: Copy, rollback: Rollback)
    requires Tidy(writes, m) && Recorded(writes, copy)
    ensures Tidy(writes, Received(m, copy, rollback))
  {
    var merged := Merged(m.mem.v, copy.v);
    forall f: Field ensures Write(f, merged.Stamp(f)) in writes {
      assert Write(f, m.mem.v.Stamp(f)) in writes && Write(f, copy.v.Stamp(f)) in writes;
    }
    if !Updates(m.mem.v, copy.v) {
      MergeWithoutNews(m.mem.v, copy.v);
    }
    var r := Received(m, copy, rollback);
    DeliverProgress(m, copy, rollback);
    DominatesTransitive(r.mem.v, m.mem.v, m.disk.v);
    DominatesItself(r.mem.v);
    forall f: Field ensures Write(f, r.mem.v.Stamp(f)) in writes && Write(f, r.disk.v.Stamp(f)) in writes {
      assert r.mem.v.Stamp(f) == merged.Stamp(f) || r.mem.v.Stamp(f) == m.mem.v.Stamp(f);
    }
  }

  lemma EditedTidy(writes: map<Write, FieldValue>, m: Machine, config: Config, at: MachineId)
    requires Tidy(writes, m)
    ensures
      var more := map w | w in FreshWrites(m.mem.v, config, at) :: ValueOf(config, w.field);
      Tidy(writes + more, EditedMachine(m, config, at))
  {
    var r := EditedMachine(m, config, at);
    DominatesItself(r.mem.v);
    forall f: Field
      ensures Write(f, r.mem.v.Stamp(f)) in writes || Write(f, r.mem.v.Stamp(f)) in FreshWrites(m.mem.v, config, at)
    {
      assert Write(f, m.mem.v.Stamp(f)) in writes;
    }
  }

  lemma ReplaceKeepsTidy(n: Net, at: MachineId, m: Machine, sent: set<Copy>, more: map<Write, FieldValue>)
    requires NetTidy(n) && at in n.machines && Tidy(n.writes + more, m)
    requires forall c :: c in sent ==> Recorded(n.writes + more, c)
    ensures NetTidy(Net(n.machines[at := m], n.wire + sent, n.writes + more))
  {
    var n' := Net(n.machines[at := m], n.wire + sent, n.writes + more);
    forall id | id in n'.machines ensures Tidy(n'.writes, n'.machines[id]) {
      if id != at {
        assert Tidy(n.writes, n.machines[id]);
        RecordedExtends(n.writes, more, n.machines[id].mem);
        RecordedExtends(n.writes, more, n.machines[id].disk);
      }
    }
    forall c | c in n'.wire ensures Recorded(n'.writes, c) {
      if c !in sent {
        assert Recorded(n.writes, c);
        RecordedExtends(n.writes, more, c);
      }
    }
  }

  lemma StepKeepsTidy(n: Net, s: Step, rollback: Rollback)
    requires NetTidy(n) && Enabled(n, s)
    ensures NetTidy(Next(n, s, rollback)) && Next(n, s, rollback).machines.Keys == n.machines.Keys
  {
    var m := n.machines[s.at];
    assert Tidy(n.writes, m);
    assert n.writes + map[] == n.writes && n.wire + {} == n.wire;
    match s
    case Edit(at, config) =>
      var more := map w | w in FreshWrites(m.mem.v, config, at) :: ValueOf(config, w.field);
      EditedTidy(n.writes, m, config, at);
      ReplaceKeepsTidy(n, at, EditedMachine(m, config, at), {}, more);
    case Deliver(at, copy) =>
      assert Recorded(n.writes, copy);
      ReceivedTidy(n.writes, m, copy, rollback);
      ReplaceKeepsTidy(n, at, Received(m, copy, rollback), {Received(m, copy, rollback).mem}, map[]);
    case Snapshot(at) =>
      ReplaceKeepsTidy(n, at, m, {m.mem}, map[]);
      assert n.machines[at := m] == n.machines;
    case Restart(at) =>
      DominatesItself(m.disk.v);
      ReplaceKeepsTidy(n, at, m.(mem := m.disk), {}, map[]);
  }

  lemma {:induction false} TraceKeepsTidy(trace: seq<Net>, steps: seq<Step>, rollback: Rollback, i: nat)
    requires IsTrace(trace, steps, rollback) && Init(trace[0]) && i <= |steps|
    ensures NetTidy(trace[i]) && trace[i].machines.Keys == trace[0].machines.Keys
  {
    if i == 0 {
      InitTidy(trace[0]);
    } else {
      TraceKeepsTidy(trace, steps, rollback, i - 1);
      assert StepAt(trace, steps, rollback, i - 1);
      StepKeepsTidy(trace[i - 1], steps[i - 1], rollback);
    }
  }

  // ---------- per-machine fields ----------

  /** In every run, refusals and restarts included, only a machine's own edits touch its per-machine
      fields. */
  lemma {:induction false} LocalFieldsChangeOnlyByOwnEdits(
    trace: seq<Net>, steps: seq<Step>, rollback: Rollback, i: nat, id: MachineId)
    requires IsTrace(trace, steps, rollback) && Init(trace[0]) && i <= |steps| && id in trace[0].machines
    requires forall k :: 0 <= k < i ==> !(steps[k].Edit? && steps[k].at == id)
    ensures id in trace[i].machines
    ensures LocalPart(trace[i].machines[id].mem.v.config) == LocalPart(trace[0].machines[id].mem.v.config)
  {
    TraceKeepsTidy(trace, steps, rollback, i);
    if i > 0 {
      LocalFieldsChangeOnlyByOwnEdits(trace, steps, rollback, i - 1, id);
      TraceKeepsTidy(trace, steps, rollback, i - 1);
      assert StepAt(trace, steps, rollback, i - 1);
      StepKeepsLocalFields(trace[i - 1], steps[i - 1], rollback, id);
    }
  }

  lemma StepKeepsLocalFields(n: Net, s: Step, rollback: Rollback, id: MachineId)
    requires NetTidy(n) && Enabled(n, s) && id in n.machines && !(s.Edit? && s.at == id)
    ensures id in Next(n, s, rollback).machines
    ensures LocalPart(Next(n, s, rollback).machines[id].mem.v.config) == LocalPart(n.machines[id].mem.v.config)
  {
    assert Tidy(n.writes, n.machines[id]);
    if s.Deliver? { MergeKeepsLocalPart(n.machines[s.at].mem.v, s.copy.v); }
  }

  // ---------- stamps move forward ----------

  /** A restart of `id` that loses stamps: those of a refused merge are never saved. */
  predicate Forgets(n: Net, s: Step, id: MachineId)
  {
    s == Restart(id) && id in n.machines && exists f: Field :: n.machines[id].mem.v.Stamp(f) != n.machines[id].disk.v.Stamp(f)
  }

  /** The condition is exact: of all steps, only such a restart moves a stamp backwards, and each
      does. */
  lemma StampsMoveBackIffForgotten(n: Net, s: Step, rollback: Rollback, id: MachineId)
    requires NetTidy(n) && Enabled(n, s) && id in n.machines
    ensures id in Next(n, s, rollback).machines
    ensures Dominates(Next(n, s, rollback).machines[id].mem.v, n.machines[id].mem.v) <==> !Forgets(n, s, id)
  {
    if Forgets(n, s, id) {
      var m := n.machines[id];
      assert Tidy(n.writes, m);
      var f: Field :| m.mem.v.Stamp(f) != m.disk.v.Stamp(f);
      EarlierTrichotomous(m.mem.v.Stamp(f), m.disk.v.Stamp(f));
      assert Next(n, s, rollback).machines[id].mem.v.Stamp(f) == m.disk.v.Stamp(f);
    } else {
      StepProgress(n, s, rollback, id);
    }
  }

  /** A delivery that brings machine `id` news it keeps. With the daemon's own rollback that is every
      delivery with news, refused or not, because the stamps stay. */
  predicate UpdatesAt(n: Net, s: Step, rollback: Rollback, id: MachineId)
  {
    && s.Deliver? && s.at == id && id in n.machines && Updates(n.machines[id].mem.v, s.copy.v)
    && (rollback == ConfigAndStamps ==> !Rejected(n.machines[id], s.copy))
  }

  lemma ReceivedStamps(m: Machine, copy: Copy, rollback: Rollback)
    requires !(rollback == ConfigAndStamps && Rejected(m, copy))
    ensures Received(m, copy, rollback).mem.v.stamps == Merged(m.mem.v, copy.v).stamps
  {
  }

  /** One step of any run, unless it forgets: no stamp of the machine moves backwards, and its head
      stays or some stamp moves forward. */
  lemma StepProgress(n: Net, s: Step, rollback: Rollback, id: MachineId)
    requires NetTidy(n) && Enabled(n, s) && id in n.machines && !Forgets(n, s, id)
    ensures id in Next(n, s, rollback).machines
    ensures
      var v, w := n.machines[id].mem.v, Next(n, s, rollback).machines[id].mem.v;
      && Dominates(w, v)
      && (HeadOf(w) == HeadOf(v) || exists f: Field :: Earlier(v.Stamp(f), w.Stamp(f)))
  {
    var m := n.machines[id];
    DominatesItself(m.mem.v);
    if s.at == id {
      assert Tidy(n.writes, m);
      match s
      case Edit(_, config) => EditProgress(m, config, id);
      case Deliver(_, copy) => DeliverProgress(m, copy, rollback);
      case Snapshot(_) =>
      case Restart(_) =>
        DominatesItself(m.disk.v);
        ReloadKeepsHead(m);
    }
  }

  lemma ReloadKeepsHead(m: Machine)
    requires m.mem.v.config == m.disk.v.config && forall f: Field :: m.mem.v.Stamp(f) == m.disk.v.Stamp(f)
    ensures HeadOf(m.disk.v) == HeadOf(m.mem.v)
  {
    HeadsAgreeOnSharedFields(m.disk.v, m.mem.v);
  }

  lemma EditProgress(m: Machine, config: Config, at: MachineId)
    ensures
      var v, w := m.mem.v, EditedMachine(m, config, at).mem.v;
      Dominates(w, v) && (HeadOf(w) == HeadOf(v) || exists f: Field :: Earlier(v.Stamp(f), w.Stamp(f)))
  {
    var v, w := m.mem.v, EditedMachine(m, config, at).mem.v;
    forall f: Field ensures !Earlier(w.Stamp(f), v.Stamp(f)) {
      EarlierTrichotomous(v.Stamp(f), w.Stamp(f));
    }
    if forall f: Field :: v.Value(f) == ValueOf(config, f) {
      forall f: Field ensures w.Stamp(f) == v.Stamp(f) && w.Value(f) == v.Value(f) {
        assert v.Value(f) == ValueOf(config, f);
      }
      HeadsAgreeOnSharedFields(w, v);
    } else {
      var f: Field :| v.Value(f) != ValueOf(config, f);
      assert Earlier(v.Stamp(f), w.Stamp(f));
    }
  }

  lemma DeliverProgress(m: Machine, copy: Copy, rollback: Rollback)
    requires m.mem.v.config == m.disk.v.config
    ensures
      var v, w := m.mem.v, Received(m, copy, rollback).mem.v;
      Dominates(w, v) && (HeadOf(w) == HeadOf(v) || exists f: Field :: Earlier(v.Stamp(f), w.Stamp(f)))
  {
    var v, w := m.mem.v, Received(m, copy, rollback).mem.v;
    if !Updates(v, copy.v) {
      MergeWithoutNews(v, copy.v);
      DominatesItself(v);
      assert HeadOf(w) == HeadOf(v);
    } else if rollback == ConfigAndStamps && Rejected(m, copy) {
      DominatesItself(v);
    } else {
      ReceivedStamps(m, copy, rollback);
      MergeDominatesBoth(v, copy.v);
      var f :| Wins(v, copy.v, f);
      forall g: Field ensures w.Stamp(g) == Merged(v, copy.v).Stamp(g) {}
    }
  }

  /** The steps from `i` to `j` do not make `id` forget. */
  ghost predicate Remembers(trace: seq<Net>, steps: seq<Step>, i: nat, j: nat, id: MachineId)
    requires j <= |steps| <= |trace|
  {
    forall k :: i <= k < j ==> !Forgets(trace[k], steps[k], id)
  }

  /** An accepted run has nothing unsaved to forget. */
  lemma AcceptedRunRemembers(trace: seq<Net>, steps: seq<Step>, rollback: Rollback, i: nat, j: nat, id: MachineId)
    requires IsRun(trace, steps, rollback) && Init(trace[0]) && j <= |steps|
    ensures Remembers(trace, steps, i, j, id)
  {
    forall k | i <= k < j ensures !Forgets(trace[k], steps[k], id) {
      RunKeepsInv(trace, steps, rollback, k);
      if id in trace[k].machines {
        assert InOrder(trace[k].writes, trace[k].machines[id]);
      }
    }
  }

  /** In every run, refusals included, a machine's stamps never move backwards and its head changes
      only by a strictly later stamp, until a restart that loses stamps. */
  lemma {:induction false} HeadChangeIsProgress(trace: seq<Net>, steps: seq<Step>, rollback: Rollback, i: nat, j: nat,
      id: MachineId)
    requires IsTrace(trace, steps, rollback) && Init(trace[0]) && i <= j <= |steps| && id in trace[i].machines
    requires Remembers(trace, steps, i, j, id)
    ensures id in trace[j].machines
    ensures
      var v, w := trace[i].machines[id].mem.v, trace[j].machines[id].mem.v;
      Dominates(w, v) && (HeadOf(w) == HeadOf(v) || exists f: Field :: Earlier(v.Stamp(f), w.Stamp(f)))
    decreases j
  {
    if i == j {
      DominatesItself(trace[i].machines[id].mem.v);
    } else {
      HeadChangeIsProgress(trace, steps, rollback, i, j - 1, id);
      TraceKeepsTidy(trace, steps, rollback, j - 1);
      assert StepAt(trace, steps, rollback, j - 1);
      StepProgress(trace[j - 1], steps[j - 1], rollback, id);
      ProgressAddsUp(trace[i].machines[id].mem.v, trace[j - 1].machines[id].mem.v, trace[j].machines[id].mem.v);
    }
  }

  lemma ProgressAddsUp(u: Versioned, v: Versioned, w: Versioned)
    requires Dominates(v, u) && (HeadOf(v) == HeadOf(u) || exists f: Field :: Earlier(u.Stamp(f), v.Stamp(f)))
    requires Dominates(w, v) && (HeadOf(w) == HeadOf(v) || exists f: Field :: Earlier(v.Stamp(f), w.Stamp(f)))
    ensures Dominates(w, u) && (HeadOf(w) == HeadOf(u) || exists f: Field :: Earlier(u.Stamp(f), w.Stamp(f)))
  {
    DominatesTransitive(w, v, u);
    if exists f: Field :: Earlier(u.Stamp(f), v.Stamp(f)) {
      var f: Field :| Earlier(u.Stamp(f), v.Stamp(f));
      LaterStays(u.Stamp(f), v.Stamp(f), w.Stamp(f));
    } else if HeadOf(w) != HeadOf(v) {
      var f: Field :| Earlier(v.Stamp(f), w.Stamp(f));
      HeadsAgreeOnSharedFields(v, u);
      assert v.Stamp(f) == u.Stamp(f);
    }
  }

  lemma LaterStays(a: LamportTime, b: LamportTime, c: LamportTime)
    requires Earlier(a, b) && !Earlier(c, b)
    ensures Earlier(a, c)
  {
    EarlierTrichotomous(b, c);
    if Earlier(b, c) {
      EarlierTransitive(a, b, c);
    }
  }

  // ---------- clocks ----------

  /** No step but a restart moves a machine's clock backwards, and a delivery moves it to whatever the
      sender had seen. */
  lemma StepKeepsClock(n: Net, s: Step, rollback: Rollback, id: MachineId)
    requires Enabled(n, s) && id in n.machines && s != Restart(id)
    ensures id in Next(n, s, rollback).machines
    ensures Next(n, s, rollback).machines[id].mem.v.clock >= n.machines[id].mem.v.clock
    ensures s.Deliver? && s.at == id ==>
              && Next(n, s, rollback).machines[id].mem.v.clock >= s.copy.v.clock
              && Next(n, s, rollback).machines[id].mem.v.clock >= MaxCounter(s.copy.v.stamps)
  {
  }

  lemma {:induction false} ClockKept(trace: seq<Net>, steps: seq<Step>, rollback: Rollback, i: nat, j: nat,
      id: MachineId)
    requires IsTrace(trace, steps, rollback) && i <= j <= |steps| && id in trace[i].machines
    requires forall k :: i <= k < j ==> steps[k] != Restart(id)
    ensures id in trace[j].machines && trace[j].machines[id].mem.v.clock >= trace[i].machines[id].mem.v.clock
    decreases j
  {
    if i < j {
      ClockKept(trace, steps, rollback, i, j - 1, id);
      assert StepAt(trace, steps, rollback, j - 1);
      StepKeepsClock(trace[j - 1], steps[j - 1], rollback, id);
    }
  }

  /** In every run, an edit made after a machine took in a state, accepted or refused, has a counter
      above that state's clock and is later than every stamp in it, unless a restart came between. */
  lemma EditAfterDeliveryIsLater(trace: seq<Net>, steps: seq<Step>, rollback: Rollback, i: nat, j: nat, f: Field)
    requires IsTrace(trace, steps, rollback) && i < j < |steps| && steps[i].Deliver?
    requires steps[j].Edit? && steps[j].at == steps[i].at && steps[j].at in trace[j].machines
    requires trace[j].machines[steps[j].at].mem.v.Value(f) != ValueOf(steps[j].config, f)
    requires forall k :: i < k < j ==> steps[k] != Restart(steps[i].at)
    ensures steps[j].at in trace[j + 1].machines
    ensures
      var t := trace[j + 1].machines[steps[j].at].mem.v.Stamp(f);
      && t.origin == steps[j].at && t.counter > steps[i].copy.v.clock
      && forall g: Field :: Earlier(steps[i].copy.v.Stamp(g), t)
  {
    var at, copy := steps[i].at, steps[i].copy;
    assert StepAt(trace, steps, rollback, i) && StepAt(trace, steps, rollback, j);
    StepKeepsClock(trace[i], steps[i], rollback, at);
    ClockKept(trace, steps, rollback, i + 1, j, at);
    var v := trace[j].machines[at].mem.v;
    assert trace[j + 1].machines[at].mem.v.Stamp(f) == FreshStamp(v, at);
    assert FreshStamp(v, at).counter > v.clock >= MaxCounter(copy.v.stamps);
    forall g: Field ensures Earlier(copy.v.Stamp(g), FreshStamp(v, at)) {
      assert copy.v.Stamp(g).counter <= MaxCounter(copy.v.stamps);
    }
  }

  /** A merge without news does not save the clock it raises, so a restart can lose it: the next edit
      then exceeds `k` exactly when the saved clock or a saved stamp reaches it. */
  lemma EditAfterRestartExceedsIff(m: Machine, at: MachineId, k: nat)
    ensures FreshStamp(m.(mem := m.disk).mem.v, at).counter > k <==>
            m.disk.v.clock >= k || MaxCounter(m.disk.v.stamps) >= k
  {
  }

  /** Such a loss: `b` hears of a clock of five from `a`, without news, and is restarted. */
  lemma UnsavedClockCanBeLost(a: MachineId, b: MachineId, config: Config, rollback: Rollback)
    requires !Earlier(LamportTime(1, b), LamportTime(1, a))
    ensures
      var own := Copy(Initial(config, b), {});
      var heard := Copy(Initial(config, a).(clock := 5), {});
      var m := Received(Machine(own, own), heard, rollback);
      m.mem.v.clock == 5 && FreshStamp(m.mem.v, b).counter == 6 && FreshStamp(m.disk.v, b).counter == 2
  {
    var own, heard := Initial(config, b), Initial(config, a).(clock := 5);
    forall f: Field ensures !Wins(own, heard, f) {
      assert own.Stamp(f) == LamportTime(1, b) && heard.Stamp(f) == LamportTime(1, a);
    }
  }

  // ---------- sessions ----------

  /** A sync session: `a` ships the state it holds at point `i`, `b` merges it in step `j` and
      replies with the outcome, `a` merges the reply in step `k`. */
  predicate Session(trace: seq<Net>, steps: seq<Step>, a: MachineId, b: MachineId, i: nat, j: nat, k: nat)
  {
    && i <= j < k < |steps| < |trace|
    && a in trace[i].machines && b in trace[j].machines && b in trace[j + 1].machines && a in trace[k].machines
    && steps[j] == Deliver(b, trace[i].machines[a].mem)
    && steps[k] == Deliver(a, trace[j + 1].machines[b].mem)
  }

  /** Neither end of the session refuses what it gets. */
  predicate Accepted(trace: seq<Net>, steps: seq<Step>, a: MachineId, b: MachineId, i: nat, j: nat, k: nat)
    requires Session(trace, steps, a, b, i, j, k)
  {
    !Rejected(trace[j].machines[b], steps[j].copy) && !Rejected(trace[k].machines[a], steps[k].copy)
  }

  lemma ReceivedStampsDominate(m: Machine, copy: Copy, rollback: Rollback)
    requires !(rollback == ConfigAndStamps && Rejected(m, copy))
    ensures Dominates(Received(m, copy, rollback).mem.v, copy.v)
    ensures Dominates(Received(m, copy, rollback).mem.v, m.mem.v)
  {
    ReceivedStamps(m, copy, rollback);
    MergeDominatesBoth(m.mem.v, copy.v);
    forall f: Field ensures Received(m, copy, rollback).mem.v.Stamp(f) == Merged(m.mem.v, copy.v).Stamp(f) {}
  }

  /** One sync session inside an arbitrary run. Whatever edits, merges, refusals and other sessions
      are interleaved, `a` ends up with the stamps of everything it sent and of everything `b` had
      after its merge, unless `a` forgets meanwhile or stamps are rolled back. */
  lemma FullExchange(trace: seq<Net>, steps: seq<Step>, rollback: Rollback,
                     a: MachineId, b: MachineId, i: nat, j: nat, k: nat)
    requires IsTrace(trace, steps, rollback) && Init(trace[0]) && Session(trace, steps, a, b, i, j, k)
    requires Remembers(trace, steps, i, k, a) && (rollback == ConfigAndStamps ==> Accepted(trace, steps, a, b, i, j, k))
    ensures
      var sent, reply := steps[j].copy.v, steps[k].copy.v;
      && a in trace[k + 1].machines
      && Dominates(trace[k + 1].machines[a].mem.v, sent)
      && Dominates(trace[k + 1].machines[a].mem.v, reply)
      && Dominates(reply, sent)
  {
    var last := trace[k].machines[a].mem;
    assert StepAt(trace, steps, rollback, j) && StepAt(trace, steps, rollback, k);
    HeadChangeIsProgress(trace, steps, rollback, i, k, a);
    ReceivedStampsDominate(trace[j].machines[b], steps[j].copy, rollback);
    ReceivedStampsDominate(trace[k].machines[a], steps[k].copy, rollback);
    DominatesTransitive(trace[k + 1].machines[a].mem.v, last.v, steps[j].copy.v);
  }

  /** In an accepted run, an initiator that still holds what it sent ends with exactly the head the
      listener replied with. */
  lemma ReplyBecomesHead(trace: seq<Net>, steps: seq<Step>, rollback: Rollback,
                         a: MachineId, b: MachineId, i: nat, j: nat, k: nat)
    requires IsRun(trace, steps, rollback) && Init(trace[0]) && Session(trace, steps, a, b, i, j, k)
    requires Accepted(trace, steps, a, b, i, j, k) && HeadOf(trace[k].machines[a].mem.v) == HeadOf(steps[j].copy.v)
    ensures a in trace[k + 1].machines && HeadOf(trace[k + 1].machines[a].mem.v) == HeadOf(steps[k].copy.v)
  {
    var sent, reply, last := steps[j].copy, steps[k].copy, trace[k].machines[a].mem;
    assert StepAt(trace, steps, rollback, k);
    AcceptedRunRemembers(trace, steps, rollback, i, k, a);
    FullExchange(trace, steps, rollback, a, b, i, j, k);
    RunKeepsInv(trace, steps, rollback, k);
    PresentAgree(trace[k], last, reply);
    HeadsAgreeOnSharedFields(last.v, sent.v);
    SameHeadOnceDominated(last.v, reply.v);
    ReceivedDominates(trace[k].machines[a], reply, rollback);
  }

  lemma SameHeadOnceDominated(mine: Versioned, reply: Versioned)
    requires Agree(mine, reply) && Dominates(reply, mine)
    ensures HeadOf(Merged(mine, reply)) == HeadOf(reply)
  {
    var r := Merged(mine, reply);
    forall f: Field ensures r.Stamp(f) == reply.Stamp(f) && r.Value(f) == reply.Value(f) {
      EarlierTrichotomous(mine.Stamp(f), reply.Stamp(f));
    }
    HeadsAgreeOnSharedFields(r, reply);
  }

  // ---------- news runs out ----------

  /** The writes a machine has yet to hear of that would still win at it. */
  ghost function Ahead(n: Net, id: MachineId): set<Write>
    requires id in n.machines
  {
    set w | w in n.writes && Earlier(n.machines[id].mem.v.Stamp(w.field), w.stamp)
  }

  /** Without an edit of its own or a loss of stamps, only news can change a machine's head. */
  lemma QuietStepKeepsHead(n: Net, s: Step, rollback: Rollback, id: MachineId)
    requires NetTidy(n) && Enabled(n, s) && id in n.machines
    requires !(s.Edit? && s.at == id) && !UpdatesAt(n, s, rollback, id) && !Forgets(n, s, id)
    ensures id in Next(n, s, rollback).machines
    ensures HeadOf(Next(n, s, rollback).machines[id].mem.v) == HeadOf(n.machines[id].mem.v)
  {
    var m := n.machines[id];
    assert Tidy(n.writes, m);
    if s.Deliver? && s.at == id && !Updates(m.mem.v, s.copy.v) {
      MergeWithoutNews(m.mem.v, s.copy.v);
    } else if s == Restart(id) {
      ReloadKeepsHead(m);
    }
  }

  /** Machine `id` neither edits, nor takes in news, nor loses stamps in this step. */
  predicate Undisturbed(n: Net, s: Step, rollback: Rollback, id: MachineId)
  {
    !(s.Edit? && s.at == id) && !UpdatesAt(n, s, rollback, id) && !Forgets(n, s, id)
  }

  lemma {:induction false} UndisturbedKeepsHead(trace: seq<Net>, steps: seq<Step>, rollback: Rollback, i: nat, j: nat,
      id: MachineId)
    requires IsTrace(trace, steps, rollback) && Init(trace[0]) && i <= j <= |steps| && id in trace[i].machines
    requires forall k :: i <= k < j ==> Undisturbed(trace[k], steps[k], rollback, id)
    ensures id in trace[j].machines && HeadOf(trace[j].machines[id].mem.v) == HeadOf(trace[i].machines[id].mem.v)
    decreases j
  {
    if i < j {
      UndisturbedKeepsHead(trace, steps, rollback, i, j - 1, id);
      TraceKeepsTidy(trace, steps, rollback, j - 1);
      assert StepAt(trace, steps, rollback, j - 1);
      QuietStepKeepsHead(trace[j - 1], steps[j - 1], rollback, id);
    }
  }

  /** A session with neither end disturbed by anything else: afterwards both ends have the same
      shared fields under the same stamps. */
  lemma UndisturbedExchange(trace: seq<Net>, steps: seq<Step>, rollback: Rollback,
                            a: MachineId, b: MachineId, i: nat, j: nat, k: nat)
    requires IsRun(trace, steps, rollback) && Init(trace[0]) && Session(trace, steps, a, b, i, j, k) && a != b
    requires Accepted(trace, steps, a, b, i, j, k)
    requires forall l :: i <= l < k ==> Undisturbed(trace[l], steps[l], rollback, a)
    requires forall l :: j < l < k ==> Undisturbed(trace[l], steps[l], rollback, b)
    ensures a in trace[k + 1].machines && b in trace[k + 1].machines
    ensures HeadOf(trace[k + 1].machines[a].mem.v) == HeadOf(trace[k + 1].machines[b].mem.v)
  {
    UndisturbedKeepsHead(trace, steps, rollback, i, k, a);
    UndisturbedKeepsHead(trace, steps, rollback, j + 1, k, b);
    TraceKeepsTidy(trace, steps, rollback, k);
    assert StepAt(trace, steps, rollback, k);
    QuietStepKeepsHead(trace[k], steps[k], rollback, b);
    ReplyBecomesHead(trace, steps, rollback, a, b, i, j, k);
  }

  lemma StepShrinksAhead(n: Net, s: Step, rollback: Rollback, id: MachineId)
    requires NetTidy(n) && Enabled(n, s) && !s.Edit? && id in n.machines && !Forgets(n, s, id)
    ensures id in Next(n, s, rollback).machines && Next(n, s, rollback).writes == n.writes
    ensures Ahead(Next(n, s, rollback), id) <= Ahead(n, id)
    ensures UpdatesAt(n, s, rollback, id) ==> Ahead(Next(n, s, rollback), id) < Ahead(n, id)
  {
    var n' := Next(n, s, rollback);
    var v, v' := n.machines[id].mem.v, n'.machines[id].mem.v;
    StepProgress(n, s, rollback, id);
    forall w | w in Ahead(n', id) ensures w in Ahead(n, id) {
      EarlierTrichotomous(v.Stamp(w.field), v'.Stamp(w.field));
      if v.Stamp(w.field) != v'.Stamp(w.field) {
        EarlierTransitive(v.Stamp(w.field), v'.Stamp(w.field), w.stamp);
      }
    }
    if UpdatesAt(n, s, rollback, id) {
      var f :| Wins(v, s.copy.v, f);
      var w := Write(f, s.copy.v.Stamp(f));
      assert Recorded(n.writes, s.copy);
      ReceivedStamps(n.machines[id], s.copy, rollback);
      EarlierTrichotomous(w.stamp, w.stamp);
      assert v'.Stamp(f) == Merged(v, s.copy.v).Stamp(f) == w.stamp;
      assert w in Ahead(n, id) && w !in Ahead(n', id);
    }
  }

  lemma ProperSubsetSmaller<T>(a: set<T>, b: set<T>)
    requires a <= b
    ensures |a| <= |b| && (a < b ==> |a| < |b|)
  {
    assert b == a + (b - a);
    if a < b {
      var x :| x in b && x !in a;
      assert x in b - a;
    }
  }

  ghost function UpdateCount(trace: seq<Net>, steps: seq<Step>, rollback: Rollback, from: nat, i: nat,
      id: MachineId): nat
    requires from <= i <= |steps| <= |trace|
  {
    if i == from then 0
    else
      UpdateCount(trace, steps, rollback, from, i - 1, id)
      + if UpdatesAt(trace[i - 1], steps[i - 1], rollback, id) then 1 else 0
  }

  /** In every run, refusals included: in any stretch without edits in which the machine does not
      forget, merges bring it news at most once per write it was still behind on. */
  lemma {:induction false} UpdatesAreBounded(
    trace: seq<Net>, steps: seq<Step>, rollback: Rollback, from: nat, i: nat, id: MachineId)
    requires IsTrace(trace, steps, rollback) && Init(trace[0]) && from <= i <= |steps| && id in trace[from].machines
    requires (forall k :: from <= k < i ==> !steps[k].Edit?) && Remembers(trace, steps, from, i, id)
    ensures id in trace[i].machines
    ensures UpdateCount(trace, steps, rollback, from, i, id) + |Ahead(trace[i], id)| <= |Ahead(trace[from], id)|
    decreases i
  {
    if i > from {
      UpdatesAreBounded(trace, steps, rollback, from, i - 1, id);
      TraceKeepsTidy(trace, steps, rollback, i - 1);
      assert StepAt(trace, steps, rollback, i - 1);
      StepShrinksAhead(trace[i - 1], steps[i - 1], rollback, id);
      ProperSubsetSmaller(Ahead(trace[i], id), Ahead(trace[i - 1], id));
    }
  }

  /** Every write some machine is still behind on, with the machine. */
  ghost function AheadAnywhere(n: Net): set<(MachineId, Write)>
  {
    set id, w | id in n.machines && w in n.writes && Earlier(n.machines[id].mem.v.Stamp(w.field), w.stamp) :: (id, w)
  }

  lemma StepShrinksAheadAnywhere(n: Net, s: Step, rollback: Rollback)
    requires NetTidy(n) && Enabled(n, s) && !s.Edit? && !Forgets(n, s, s.at)
    ensures |AheadAnywhere(Next(n, s, rollback))| + (if UpdatesAt(n, s, rollback, s.at) then 1 else 0)
            <= |AheadAnywhere(n)|
  {
    var n' := Next(n, s, rollback);
    assert n'.machines.Keys == n.machines.Keys;
    forall p | p in AheadAnywhere(n') ensures p in AheadAnywhere(n) {
      StepShrinksAhead(n, s, rollback, p.0);
      assert p.1 in Ahead(n', p.0);
    }
    if UpdatesAt(n, s, rollback, s.at) {
      StepShrinksAhead(n, s, rollback, s.at);
      var w :| w in Ahead(n, s.at) && w !in Ahead(n', s.at);
      assert (s.at, w) in AheadAnywhere(n) && (s.at, w) !in AheadAnywhere(n');
    }
    ProperSubsetSmaller(AheadAnywhere(n'), AheadAnywhere(n));
  }

  ghost function TotalUpdates(trace: seq<Net>, steps: seq<Step>, rollback: Rollback, from: nat, i: nat): nat
    requires from <= i <= |steps| <= |trace|
  {
    if i == from then 0
    else
      TotalUpdates(trace, steps, rollback, from, i - 1)
      + if UpdatesAt(trace[i - 1], steps[i - 1], rollback, steps[i - 1].at) then 1 else 0
  }

  /** The same over the whole network: in any stretch without edits in which nobody forgets, the
      merges anywhere that bring news are at most as many as the writes not yet everywhere. */
  lemma {:induction false} NetworkUpdatesAreBounded(
    trace: seq<Net>, steps: seq<Step>, rollback: Rollback, from: nat, i: nat)
    requires IsTrace(trace, steps, rollback) && Init(trace[0]) && from <= i <= |steps|
    requires forall k :: from <= k < i ==> !steps[k].Edit? && !Forgets(trace[k], steps[k], steps[k].at)
    ensures TotalUpdates(trace, steps, rollback, from, i) + |AheadAnywhere(trace[i])| <= |AheadAnywhere(trace[from])|
    decreases i
  {
    if i > from {
      NetworkUpdatesAreBounded(trace, steps, rollback, from, i - 1);
      TraceKeepsTidy(trace, steps, rollback, i - 1);
      assert StepAt(trace, steps, rollback, i - 1);
      StepShrinksAheadAnywhere(trace[i - 1], steps[i - 1], rollback);
    }
  }
}
