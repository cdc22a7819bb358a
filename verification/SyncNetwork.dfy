/** LAN config sync as a distributed protocol: any number of machines, each editing its own
    document and merging states that may arrive late, twice, out of order or never. */
module SyncNetwork {
  import opened Configuration
  import opened Versioning

  type MachineId = string

  /** One write ever made to a shared field. */
  datatype Write = Write(field: Field, stamp: LamportTime)

  /** A versioned state together with its history: the writes it has taken in. */
  datatype Copy = Copy(v: Versioned, seen: set<Write>)

  /** A daemon: its live state and what a restart would reload. */
  datatype Machine = Machine(mem: Copy, disk: Copy)

  /** `wire` only grows: a state in it may be delivered any number of times, at any later point,
      to anyone, or never. `writes` records the value every write gave its field. */
  datatype Net = Net(machines: map<MachineId, Machine>, wire: set<Copy>, writes: map<Write, FieldValue>)

  datatype Step =
    | Edit(at: MachineId, config: Config)
    | Snapshot(at: MachineId)
    | Deliver(at: MachineId, copy: Copy)
    | Restart(at: MachineId)

  /** What a merge that fails validation restores. The daemon restores the config alone. */
  datatype Rollback = ConfigOnly | ConfigAndStamps

  // ---------- steps ----------

  function FreshWrites(v: Versioned, config: Config, origin: MachineId): set<Write>
  {
    set f: Field | v.Value(f) != ValueOf(config, f) :: Write(f, FreshStamp(v, origin))
  }

  function EditedMachine(m: Machine, config: Config, at: MachineId): Machine
  {
    if m.mem.v.config == config then m
    else
      var copy := Copy(Edited(m.mem.v, config, at), m.mem.seen + FreshWrites(m.mem.v, config, at));
      Machine(copy, copy)
  }

  predicate Rejected(m: Machine, copy: Copy)
  {
    Updates(m.mem.v, copy.v) && !Valid(Merged(m.mem.v, copy.v).config)
  }

  /** A merge as the serial writer performs it. A merge without news only raises the clock in
      memory; an accepted one is saved; a rejected one puts the saved config back. */
  function Received(m: Machine, copy: Copy, rollback: Rollback): Machine
  {
    var merged := Copy(Merged(m.mem.v, copy.v), m.mem.seen + copy.seen);
    if !Updates(m.mem.v, copy.v) then m.(mem := merged)
    else if Valid(merged.v.config) then Machine(merged, merged)
    else match rollback
         case ConfigOnly => m.(mem := merged.(v := merged.v.(config := m.disk.v.config)))
         case ConfigAndStamps => m.(mem := m.mem.(v := m.mem.v.(clock := merged.v.clock)))
  }

  predicate Enabled(n: Net, s: Step)
  {
    && s.at in n.machines
    && (s.Edit? ==> Valid(s.config))
    && (s.Deliver? ==> s.copy in n.wire)
  }

  function Next(n: Net, s: Step, rollback: Rollback): Net
    requires Enabled(n, s)
  {
    var m := n.machines[s.at];
    match s
    case Edit(at, config) =>
      Net(n.machines[at := EditedMachine(m, config, at)], n.wire,
          n.writes + map w | w in FreshWrites(m.mem.v, config, at) :: ValueOf(config, w.field))
    case Snapshot(_) => n.(wire := n.wire + {m.mem})
    case Deliver(at, copy) =>
      var m' := Received(m, copy, rollback);
      n.(machines := n.machines[at := m'], wire := n.wire + {m'.mem})
    case Restart(at) => n.(machines := n.machines[at := m.(mem := m.disk)])
  }

  /** Every machine bootstraps from its own valid document, stamped by itself. */
  ghost predicate Init(n: Net)
  {
    && n.wire == {}
    && (forall id :: id in n.machines ==>
          var m := n.machines[id];
          m.mem == m.disk && m.mem.v == Initial(m.mem.v.config, id) && Valid(m.mem.v.config)
          && m.mem.seen == (set f: Field :: Write(f, LamportTime(1, id))))
    && (forall w :: w in n.writes ==>
          w.stamp.counter == 1 && w.stamp.origin in n.machines
          && n.writes[w] == n.machines[w.stamp.origin].mem.v.Value(w.field))
    && (forall id, f: Field :: id in n.machines ==> Write(f, LamportTime(1, id)) in n.writes)
  }

  // ---------- runs ----------

  /** A step the agreement results cover: any enabled one, except a merge the daemon rejects
      without restoring the stamps. */
  predicate Covered(n: Net, s: Step, rollback: Rollback)
  {
    Enabled(n, s) && (rollback == ConfigOnly && s.Deliver? ==> !Rejected(n.machines[s.at], s.copy))
  }

  ghost predicate StepAt(trace: seq<Net>, steps: seq<Step>, rollback: Rollback, i: nat)
    requires i < |steps| < |trace|
  {
    Enabled(trace[i], steps[i]) && trace[i + 1] == Next(trace[i], steps[i], rollback)
  }

  /** `trace` is the run's successive states: one before each step, and the last. */
  ghost predicate IsTrace(trace: seq<Net>, steps: seq<Step>, rollback: Rollback)
  {
    && |trace| == |steps| + 1
    && forall i {:trigger StepAt(trace, steps, rollback, i)} :: 0 <= i < |steps| ==> StepAt(trace, steps, rollback, i)
  }

  ghost predicate IsRun(trace: seq<Net>, steps: seq<Step>, rollback: Rollback)
  {
    && IsTrace(trace, steps, rollback)
    && forall i {:trigger StepAt(trace, steps, rollback, i)} :: 0 <= i < |steps| ==> Covered(trace[i], steps[i], rollback)
  }

  // ---------- the invariant ----------

  /** The copy's stamps are the latest of the writes it has seen, its values theirs. */
  ghost predicate Faithful(writes: map<Write, FieldValue>, c: Copy)
  {
    && c.seen <= writes.Keys
    && (forall f: Field :: Write(f, c.v.Stamp(f)) in c.seen && writes[Write(f, c.v.Stamp(f))] == c.v.Value(f))
    && (forall w :: w in c.seen ==> !Earlier(c.v.Stamp(w.field), w.stamp))
  }

  /** The sidecar on disk can lag only in the clock. */
  ghost predicate Saved(m: Machine)
  {
    && m.mem.v.config == m.disk.v.config && m.mem.v.stamps == m.disk.v.stamps
    && m.disk.v.clock <= m.mem.v.clock
    && Valid(m.mem.v.config)
  }

  /** Every stamp was issued by its origin, no later than the clock the origin has saved. */
  ghost predicate Issued(n: Net, w: Write)
  {
    w.stamp.origin in n.machines && w.stamp.counter <= n.machines[w.stamp.origin].disk.v.clock
  }

  ghost predicate InOrder(writes: map<Write, FieldValue>, m: Machine)
  {
    Saved(m) && Faithful(writes, m.mem) && Faithful(writes, m.disk)
  }

  ghost predicate Inv(n: Net)
  {
    && (forall id {:trigger InOrder(n.writes, n.machines[id])} :: id in n.machines ==> InOrder(n.writes, n.machines[id]))
    && (forall c {:trigger Faithful(n.writes, c)} :: c in n.wire ==> Faithful(n.writes, c))
    && (forall w {:trigger Issued(n, w)} :: w in n.writes ==> Issued(n, w))
  }

  lemma InitInv(n: Net)
    requires Init(n)
    ensures Inv(n)
  {
    forall id | id in n.machines ensures InOrder(n.writes, n.machines[id]) {
      var c := n.machines[id].mem;
      EarlierTrichotomous(LamportTime(1, id), LamportTime(1, id));
      forall f: Field ensures c.v.Stamp(f) == LamportTime(1, id) {}
    }
  }

  /** A fresh stamp is one nobody has ever used. */
  lemma FreshWritesAreNew(n: Net, at: MachineId, config: Config)
    requires Inv(n) && at in n.machines
    ensures FreshWrites(n.machines[at].mem.v, config, at) !! n.writes.Keys
  {
    forall w | w in FreshWrites(n.machines[at].mem.v, config, at) ensures w !in n.writes {
      assert InOrder(n.writes, n.machines[at]);
      assert w in n.writes ==> Issued(n, w);
    }
  }

  lemma EditKeepsFaithful(writes: map<Write, FieldValue>, c: Copy, config: Config, at: MachineId)
    requires Faithful(writes, c)
    requires FreshWrites(c.v, config, at) !! writes.Keys
    ensures
      var fw := FreshWrites(c.v, config, at);
      Faithful(writes + map w | w in fw :: ValueOf(config, w.field), Copy(Edited(c.v, config, at), c.seen + fw))
  {
    var t := FreshStamp(c.v, at);
    var d := Copy(Edited(c.v, config, at), c.seen + FreshWrites(c.v, config, at));
    forall w | w in d.seen ensures !Earlier(d.v.Stamp(w.field), w.stamp) {
      EarlierTrichotomous(t, t);
      EarlierTrichotomous(c.v.Stamp(w.field), t);
      if w in c.seen && Earlier(t, w.stamp) && d.v.Stamp(w.field) == t {
        EarlierTransitive(c.v.Stamp(w.field), t, w.stamp);
      }
    }
  }

  lemma FaithfulExtends(writes: map<Write, FieldValue>, more: map<Write, FieldValue>, c: Copy)
    requires Faithful(writes, c) && more.Keys !! writes.Keys
    ensures Faithful(writes + more, c)
  {
  }

  lemma MergeKeepsFaithful(writes: map<Write, FieldValue>, c: Copy, d: Copy)
    requires Faithful(writes, c) && Faithful(writes, d)
    ensures Faithful(writes, Copy(Merged(c.v, d.v), c.seen + d.seen))
  {
    var r := Merged(c.v, d.v);
    MergeDominatesBoth(c.v, d.v);
    forall w | w in c.seen + d.seen ensures !Earlier(r.Stamp(w.field), w.stamp) {
      var v := if w in c.seen then c.v else d.v;
      var a, b := r.Stamp(w.field), v.Stamp(w.field);
      EarlierTrichotomous(a, b);
      EarlierTrichotomous(b, w.stamp);
      if Earlier(a, w.stamp) && Earlier(b, a) { EarlierTransitive(b, a, w.stamp); }
    }
  }

  /** A step that replaces one machine, adds new writes and puts states on the wire keeps the
      invariant if the new machine and states are themselves in order. */
  lemma ReplaceKeepsInv(n: Net, at: MachineId, m: Machine, sent: set<Copy>, more: map<Write, FieldValue>)
    requires Inv(n) && at in n.machines
    requires n.machines[at].disk.v.clock <= m.disk.v.clock
    requires more.Keys !! n.writes.Keys
    requires InOrder(n.writes + more, m)
    requires forall c :: c in sent ==> Faithful(n.writes + more, c)
    requires forall w :: w in more ==> w.stamp.origin == at && w.stamp.counter <= m.disk.v.clock
    ensures Inv(Net(n.machines[at := m], n.wire + sent, n.writes + more))
  {
    var n' := Net(n.machines[at := m], n.wire + sent, n.writes + more);
    forall id | id in n'.machines ensures InOrder(n'.writes, n'.machines[id]) {
      if id != at {
        assert InOrder(n.writes, n.machines[id]);
        FaithfulExtends(n.writes, more, n.machines[id].mem);
        FaithfulExtends(n.writes, more, n.machines[id].disk);
      }
    }
    forall c | c in n'.wire ensures Faithful(n'.writes, c) {
      if c !in sent {
        assert Faithful(n.writes, c);
        FaithfulExtends(n.writes, more, c);
      }
    }
    forall w | w in n'.writes ensures Issued(n', w) {
      if w !in more { assert Issued(n, w); }
    }
  }

  lemma EditKeepsInv(n: Net, s: Step, rollback: Rollback)
    requires Inv(n) && s.Edit? && Enabled(n, s)
    ensures Inv(Next(n, s, rollback))
  {
    var m := n.machines[s.at];
    var fw := FreshWrites(m.mem.v, s.config, s.at);
    var more := map w | w in fw :: ValueOf(s.config, w.field);
    assert InOrder(n.writes, m);
    FreshWritesAreNew(n, s.at, s.config);
    EditKeepsFaithful(n.writes, m.mem, s.config, s.at);
    if m.mem.v.config == s.config {
      assert more == map[];
      assert n.writes + more == n.writes;
    }
    ReplaceKeepsInv(n, s.at, EditedMachine(m, s.config, s.at), {}, more);
    assert n.wire + {} == n.wire;
  }

  lemma ReceivedInOrder(writes: map<Write, FieldValue>, m: Machine, copy: Copy, rollback: Rollback)
    requires InOrder(writes, m) && Faithful(writes, copy)
    requires rollback == ConfigAndStamps || !Rejected(m, copy)
    ensures
      var r := Received(m, copy, rollback);
      InOrder(writes, r) && m.disk.v.clock <= r.disk.v.clock
  {
    MergeKeepsFaithful(writes, m.mem, copy);
    if !Updates(m.mem.v, copy.v) { MergeWithoutNews(m.mem.v, copy.v); }
    var r := Received(m, copy, rollback);
    if Rejected(m, copy) {
      forall f: Field ensures r.mem.v.Stamp(f) == m.mem.v.Stamp(f) && r.mem.v.Value(f) == m.mem.v.Value(f) {}
    }
  }

  lemma StepKeepsInv(n: Net, s: Step, rollback: Rollback)
    requires Inv(n) && Covered(n, s, rollback)
    ensures Inv(Next(n, s, rollback))
  {
    var m := n.machines[s.at];
    assert InOrder(n.writes, m);
    assert n.writes + map[] == n.writes;
    match s
    case Edit(_, _) => EditKeepsInv(n, s, rollback);
    case Deliver(_, copy) =>
      assert Faithful(n.writes, copy);
      ReceivedInOrder(n.writes, m, copy, rollback);
      ReplaceKeepsInv(n, s.at, Received(m, copy, rollback), {Received(m, copy, rollback).mem}, map[]);
    case Snapshot(_) =>
      ReplaceKeepsInv(n, s.at, m, {m.mem}, map[]);
      assert n.machines[s.at := m] == n.machines;
    case Restart(_) =>
      ReplaceKeepsInv(n, s.at, m.(mem := m.disk), {}, map[]);
      assert n.wire + {} == n.wire;
  }

  lemma {:induction false} RunKeepsInv(trace: seq<Net>, steps: seq<Step>, rollback: Rollback, i: nat)
    requires IsRun(trace, steps, rollback) && Init(trace[0]) && i <= |steps|
    ensures Inv(trace[i])
  {
    if i == 0 {
      InitInv(trace[0]);
    } else {
      RunKeepsInv(trace, steps, rollback, i - 1);
      assert StepAt(trace, steps, rollback, i - 1);
      StepKeepsInv(trace[i - 1], steps[i - 1], rollback);
    }
  }

  // ---------- what every run keeps ----------

  /** A state some machine holds, has saved, or has put on the wire. */
  ghost predicate Present(n: Net, c: Copy)
  {
    c in n.wire || exists id :: id in n.machines && (c == n.machines[id].mem || c == n.machines[id].disk)
  }

  lemma PresentFaithful(n: Net, c: Copy)
    requires Inv(n) && Present(n, c)
    ensures Faithful(n.writes, c)
  {
    if c !in n.wire {
      var id :| id in n.machines && (c == n.machines[id].mem || c == n.machines[id].disk);
      assert InOrder(n.writes, n.machines[id]);
    }
  }

  lemma StepKeepsWrites(n: Net, s: Step, rollback: Rollback)
    requires Inv(n) && Covered(n, s, rollback)
    ensures forall w :: w in n.writes ==> w in Next(n, s, rollback).writes && Next(n, s, rollback).writes[w] == n.writes[w]
  {
    if s.Edit? { FreshWritesAreNew(n, s.at, s.config); }
  }

  lemma FaithfulStays(writes: map<Write, FieldValue>, later: map<Write, FieldValue>, c: Copy)
    requires Faithful(writes, c) && forall w :: w in writes ==> w in later && later[w] == writes[w]
    ensures Faithful(later, c)
  {
    forall f: Field ensures Write(f, c.v.Stamp(f)) in c.seen && later[Write(f, c.v.Stamp(f))] == c.v.Value(f) {
      assert writes[Write(f, c.v.Stamp(f))] == c.v.Value(f);
    }
  }

  lemma {:induction false} FaithfulForever(trace: seq<Net>, steps: seq<Step>, rollback: Rollback, i: nat, j: nat,
      c: Copy)
    requires IsRun(trace, steps, rollback) && Init(trace[0]) && i <= j <= |steps| && Present(trace[i], c)
    ensures Faithful(trace[j].writes, c)
    decreases j
  {
    if i == j {
      RunKeepsInv(trace, steps, rollback, i);
      PresentFaithful(trace[i], c);
    } else {
      FaithfulForever(trace, steps, rollback, i, j - 1, c);
      RunKeepsInv(trace, steps, rollback, j - 1);
      assert StepAt(trace, steps, rollback, j - 1);
      StepKeepsWrites(trace[j - 1], steps[j - 1], rollback);
      FaithfulStays(trace[j - 1].writes, trace[j].writes, c);
    }
  }

  /** In every run, two states anywhere, at any two moments, that carry the same stamp for a
      shared field carry the same value: a stamp names one write. */
  lemma StampValueAgreement(trace: seq<Net>, steps: seq<Step>, rollback: Rollback, i: nat, c: Copy, j: nat, d: Copy)
    requires IsRun(trace, steps, rollback) && Init(trace[0]) && i <= |steps| && j <= |steps|
    requires Present(trace[i], c) && Present(trace[j], d)
    ensures Agree(c.v, d.v)
  {
    var k := |steps|;
    FaithfulForever(trace, steps, rollback, i, k, c);
    FaithfulForever(trace, steps, rollback, j, k, d);
    FaithfulAgree(trace[k].writes, c, d);
  }

  lemma PresentAgree(n: Net, c: Copy, d: Copy)
    requires Inv(n) && Present(n, c) && Present(n, d)
    ensures Agree(c.v, d.v)
  {
    PresentFaithful(n, c);
    PresentFaithful(n, d);
    FaithfulAgree(n.writes, c, d);
  }

  lemma FaithfulAgree(writes: map<Write, FieldValue>, c: Copy, d: Copy)
    requires Faithful(writes, c) && Faithful(writes, d)
    ensures Agree(c.v, d.v)
  {
    forall f: Field | c.v.Stamp(f) == d.v.Stamp(f) ensures c.v.Value(f) == d.v.Value(f) {
      assert writes[Write(f, c.v.Stamp(f))] == c.v.Value(f);
    }
  }

  /** In every run, states that took in the same writes, in whatever order and however often,
      hold each field's latest write and advertise the same head, even at different moments. */
  lemma StrongConvergence(trace: seq<Net>, steps: seq<Step>, rollback: Rollback, i: nat, c: Copy, j: nat, d: Copy)
    requires IsRun(trace, steps, rollback) && Init(trace[0]) && i <= |steps| && j <= |steps|
    requires Present(trace[i], c) && Present(trace[j], d)
    requires c.seen == d.seen
    ensures HeadOf(c.v) == HeadOf(d.v)
    ensures forall w :: w in c.seen ==> !Earlier(c.v.Stamp(w.field), w.stamp)
    ensures forall f: Field :: Write(f, c.v.Stamp(f)) in c.seen
  {
    StampValueAgreement(trace, steps, rollback, i, c, j, d);
    FaithfulForever(trace, steps, rollback, i, |steps|, c);
    FaithfulForever(trace, steps, rollback, j, |steps|, d);
    forall f: Field ensures c.v.Stamp(f) == d.v.Stamp(f) && c.v.Value(f) == d.v.Value(f) {
      assert Write(f, c.v.Stamp(f)) in d.seen && Write(f, d.v.Stamp(f)) in c.seen;
      EarlierTrichotomous(c.v.Stamp(f), d.v.Stamp(f));
    }
    HeadsAgreeOnSharedFields(c.v, d.v);
  }

  lemma ReceivedDominates(m: Machine, copy: Copy, rollback: Rollback)
    requires !Rejected(m, copy)
    ensures Received(m, copy, rollback).mem.v == Merged(m.mem.v, copy.v)
    ensures Dominates(Received(m, copy, rollback).mem.v, copy.v)
    ensures Dominates(Received(m, copy, rollback).mem.v, m.mem.v)
  {
    MergeDominatesBoth(m.mem.v, copy.v);
  }
}
