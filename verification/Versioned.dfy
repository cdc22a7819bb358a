/** A configuration with one Lamport stamp per top-level field: local edits, the per-field
    last-write-wins merge, and the algebra that makes the merge order-independent. */
module Versioning {
  import Order
  import opened Configuration

  // ---------- stamps ----------

  datatype LamportTime = LamportTime(counter: nat, origin: string)

  /** The stamp order: by counter, ties broken by origin. */
  predicate Earlier(a: LamportTime, b: LamportTime)
  {
    a.counter < b.counter || (a.counter == b.counter && Order.Less(a.origin, b.origin))
  }

  lemma EarlierTransitive(a: LamportTime, b: LamportTime, c: LamportTime)
    requires Earlier(a, b) && Earlier(b, c)
    ensures Earlier(a, c)
  {
    if a.counter == b.counter == c.counter {
      Order.LessTransitive(a.origin, b.origin, c.origin);
    }
  }

  /** Exactly one of earlier, equal, later. */
  lemma EarlierTrichotomous(a: LamportTime, b: LamportTime)
    ensures Earlier(a, b) || a == b || Earlier(b, a)
    ensures !(Earlier(a, b) && Earlier(b, a))
    ensures Earlier(a, b) ==> a != b
  {
    Order.LessTrichotomous(a.origin, b.origin);
  }

  /** A larger counter is later; of two edits with the same counter the one by the larger machine id
      is. */
  lemma EarlierInWords(a: LamportTime, b: LamportTime)
    ensures a.counter < b.counter ==> Earlier(a, b)
    ensures a.counter == b.counter ==> (Earlier(a, b) <==> Order.Less(a.origin, b.origin))
    ensures a.counter > b.counter ==> !Earlier(a, b)
  {
  }

  datatype FieldStamps = FieldStamps(
    role: LamportTime, serverName: LamportTime, serverAddress: LamportTime, port: LamportTime,
    servicePort: LamportTime, screens: LamportTime, links: LamportTime, options: LamportTime,
    clipboardSharing: LamportTime, binaries: LamportTime)

  function AllStamped(t: LamportTime): FieldStamps
  {
    FieldStamps(t, t, t, t, t, t, t, t, t, t)
  }

  function Max(a: nat, b: nat): nat { if a < b then b else a }

  /** The least upper bound of the ten counters. */
  function MaxCounter(s: FieldStamps): (m: nat)
    ensures forall f: Field :: StampOf(s, f).counter <= m
    ensures s.role.counter <= m && s.serverName.counter <= m && s.serverAddress.counter <= m
            && s.servicePort.counter <= m && s.binaries.counter <= m
    ensures (exists f: Field :: StampOf(s, f).counter == m) || m == s.role.counter || m == s.serverName.counter
            || m == s.serverAddress.counter || m == s.servicePort.counter || m == s.binaries.counter
  {
    assert StampOf(s, Port) == s.port && StampOf(s, Screens) == s.screens && StampOf(s, Links) == s.links
        && StampOf(s, Options) == s.options && StampOf(s, ClipboardSharing) == s.clipboardSharing;
    Max(s.role.counter, Max(s.serverName.counter, Max(s.serverAddress.counter, Max(s.port.counter,
      Max(s.servicePort.counter, Max(s.screens.counter, Max(s.links.counter, Max(s.options.counter,
        Max(s.clipboardSharing.counter, s.binaries.counter)))))))))
  }

  // ---------- the shared fields ----------

  /** The five fields that merges touch; all others stay a machine's own business. */
  datatype Field = Port | Screens | Links | Options | ClipboardSharing

  datatype FieldValue =
    | PortValue(port: nat)
    | ScreensValue(screens: seq<Screen>)
    | LinksValue(links: seq<Link>)
    | OptionsValue(options: seq<(string, string)>)
    | ClipboardValue(sharing: bool)

  function ValueOf(c: Config, f: Field): FieldValue
  {
    match f
    case Port => PortValue(c.port)
    case Screens => ScreensValue(c.screens)
    case Links => LinksValue(c.links)
    case Options => OptionsValue(c.options)
    case ClipboardSharing => ClipboardValue(c.clipboardSharing)
  }

  function StampOf(s: FieldStamps, f: Field): LamportTime
  {
    match f
    case Port => s.port
    case Screens => s.screens
    case Links => s.links
    case Options => s.options
    case ClipboardSharing => s.clipboardSharing
  }

  /** The per-machine part of a config: its shared fields blanked out. */
  function LocalPart(c: Config): Config
  {
    c.(port := 0, screens := [], links := [], options := [], clipboardSharing := true)
  }

  lemma ConfigIsItsParts(c: Config, d: Config)
    requires LocalPart(c) == LocalPart(d)
    requires forall f: Field :: ValueOf(c, f) == ValueOf(d, f)
    ensures c == d
  {
    assert ValueOf(c, Port) == ValueOf(d, Port) && ValueOf(c, Screens) == ValueOf(d, Screens)
        && ValueOf(c, Links) == ValueOf(d, Links) && ValueOf(c, Options) == ValueOf(d, Options)
        && ValueOf(c, ClipboardSharing) == ValueOf(d, ClipboardSharing);
    assert c == LocalPart(c).(port := c.port, screens := c.screens, links := c.links, options := c.options,
                              clipboardSharing := c.clipboardSharing);
    assert d == LocalPart(d).(port := d.port, screens := d.screens, links := d.links, options := d.options,
                              clipboardSharing := d.clipboardSharing);
  }

  // ---------- versioned values ----------

  /** What a machine ships to its peers. */
  datatype Versioned = Versioned(config: Config, stamps: FieldStamps, clock: nat)
  {
    function Stamp(f: Field): LamportTime { StampOf(stamps, f) }
    function Value(f: Field): FieldValue { ValueOf(config, f) }
  }

  function Initial(config: Config, origin: string): Versioned
  {
    Versioned(config, AllStamped(LamportTime(1, origin)), 1)
  }

  /** The first edit after a bootstrap is numbered two. */
  lemma FirstEditIsNumberedTwo(config: Config, now: Config, origin: string, f: Field)
    requires ValueOf(config, f) != ValueOf(now, f)
    ensures Edited(Initial(config, origin), now, origin).Stamp(f) == LamportTime(2, origin)
    ensures Initial(config, origin).Stamp(f) == LamportTime(1, origin)
  {
  }

  /** The input of the head hash: the shared fields with their stamps. The hash itself is taken
      to be collision-free, so heads are compared as these inputs. */
  datatype Head = Head(
    port: nat, screens: seq<Screen>, links: seq<Link>, options: seq<(string, string)>, clipboardSharing: bool,
    portStamp: LamportTime, screensStamp: LamportTime, linksStamp: LamportTime, optionsStamp: LamportTime,
    clipboardStamp: LamportTime)

  function HeadOf(v: Versioned): Head
  {
    Head(v.config.port, v.config.screens, v.config.links, v.config.options, v.config.clipboardSharing,
         v.stamps.port, v.stamps.screens, v.stamps.links, v.stamps.options, v.stamps.clipboardSharing)
  }

  /** Two machines advertise the same head exactly when they hold the same shared fields under
      the same stamps, whatever their per-machine fields are. */
  lemma HeadsAgreeOnSharedFields(v: Versioned, w: Versioned)
    ensures HeadOf(v) == HeadOf(w) <==>
            forall f: Field :: v.Stamp(f) == w.Stamp(f) && v.Value(f) == w.Value(f)
  {
    if forall f: Field :: v.Stamp(f) == w.Stamp(f) && v.Value(f) == w.Value(f) {
      assert v.Stamp(Port) == w.Stamp(Port) && v.Value(Port) == w.Value(Port);
      assert v.Stamp(Screens) == w.Stamp(Screens) && v.Value(Screens) == w.Value(Screens);
      assert v.Stamp(Links) == w.Stamp(Links) && v.Value(Links) == w.Value(Links);
      assert v.Stamp(Options) == w.Stamp(Options) && v.Value(Options) == w.Value(Options);
      assert v.Stamp(ClipboardSharing) == w.Stamp(ClipboardSharing)
          && v.Value(ClipboardSharing) == w.Value(ClipboardSharing);
    }
  }

  // ---------- local edits ----------

  function Restamp(changed: bool, was: LamportTime, t: LamportTime): LamportTime
  {
    if changed then t else was
  }

  /** The stamp a local edit of `v` gives to the fields it changes: the next counter after everything
      the machine has seen. */
  function FreshStamp(v: Versioned, origin: string): (t: LamportTime)
    ensures t.origin == origin && t.counter > v.clock && t.counter > MaxCounter(v.stamps)
    ensures t.counter == v.clock + 1 || t.counter == MaxCounter(v.stamps) + 1
    ensures forall f: Field :: Earlier(v.Stamp(f), t)
  {
    LamportTime(Max(v.clock, MaxCounter(v.stamps)) + 1, origin)
  }

  function RestampAll(s: FieldStamps, was: Config, now: Config, t: LamportTime): FieldStamps
  {
    FieldStamps(
      Restamp(was.role != now.role, s.role, t),
      Restamp(was.serverName != now.serverName, s.serverName, t),
      Restamp(was.serverAddress != now.serverAddress, s.serverAddress, t),
      Restamp(was.port != now.port, s.port, t),
      Restamp(was.servicePort != now.servicePort, s.servicePort, t),
      Restamp(was.screens != now.screens, s.screens, t),
      Restamp(was.links != now.links, s.links, t),
      Restamp(was.options != now.options, s.options, t),
      Restamp(was.clipboardSharing != now.clipboardSharing, s.clipboardSharing, t),
      Restamp(was.binaries != now.binaries, s.binaries, t))
  }

  /** The stamps of the per-machine fields: a fresh one exactly where the value changed. */
  ghost predicate OwnStampsFollow(v: Versioned, r: Versioned, t: LamportTime)
  {
    && r.stamps.role == (if v.config.role == r.config.role then v.stamps.role else t)
    && r.stamps.serverName == (if v.config.serverName == r.config.serverName then v.stamps.serverName else t)
    && r.stamps.serverAddress == (if v.config.serverAddress == r.config.serverAddress then v.stamps.serverAddress else t)
    && r.stamps.servicePort == (if v.config.servicePort == r.config.servicePort then v.stamps.servicePort else t)
    && r.stamps.binaries == (if v.config.binaries == r.config.binaries then v.stamps.binaries else t)
  }

  /** A local edit: exactly the shared fields whose value changes carry the fresh stamp, later
      than every stamp and clock the machine has seen; the others keep theirs. */
  function Edited(v: Versioned, now: Config, origin: string): (r: Versioned)
    ensures r.config == now
    ensures forall f: Field :: r.Stamp(f) == if v.Value(f) == ValueOf(now, f) then v.Stamp(f) else FreshStamp(v, origin)
    ensures r.clock == if v.config == now then v.clock else FreshStamp(v, origin).counter
    ensures v.config == now ==> r == v
    ensures OwnStampsFollow(v, r, FreshStamp(v, origin))
  {
    if v.config == now then v
    else Versioned(now, RestampAll(v.stamps, v.config, now, FreshStamp(v, origin)), FreshStamp(v, origin).counter)
  }

  // ---------- merge ----------

  datatype MergeOutcome = NoChange | Updated

  predicate Wins(mine: Versioned, theirs: Versioned, f: Field)
  {
    Earlier(mine.Stamp(f), theirs.Stamp(f))
  }

  predicate Updates(mine: Versioned, theirs: Versioned)
  {
    exists f: Field :: Wins(mine, theirs, f)
  }

  /** The clock rule: no less than anything either side has observed, and no more. */
  function Raised(mine: Versioned, theirs: Versioned): (k: nat)
    ensures k >= mine.clock && k >= theirs.clock && k >= MaxCounter(theirs.stamps)
    ensures k == mine.clock || k == theirs.clock || k == MaxCounter(theirs.stamps)
  {
    Max(Max(mine.clock, theirs.clock), MaxCounter(theirs.stamps))
  }

  /** Per-field last-write-wins. The winner brings value and stamp together. */
  function Merged(mine: Versioned, theirs: Versioned): (r: Versioned)
    ensures forall f: Field :: Wins(mine, theirs, f) ==> r.Stamp(f) == theirs.Stamp(f) && r.Value(f) == theirs.Value(f)
    ensures forall f: Field :: !Wins(mine, theirs, f) ==> r.Stamp(f) == mine.Stamp(f) && r.Value(f) == mine.Value(f)
    ensures r.clock >= mine.clock && r.clock >= theirs.clock && r.clock >= MaxCounter(theirs.stamps)
    ensures r.clock == mine.clock || r.clock == theirs.clock || r.clock == MaxCounter(theirs.stamps)
  {
    Versioned(MergedConfig(mine, theirs), MergedStamps(mine.stamps, theirs.stamps), Raised(mine, theirs))
  }

  function MergedConfig(mine: Versioned, theirs: Versioned): Config
  {
    var c, d, s, t := mine.config, theirs.config, mine.stamps, theirs.stamps;
    c.(port := if Earlier(s.port, t.port) then d.port else c.port)
     .(screens := if Earlier(s.screens, t.screens) then d.screens else c.screens)
     .(links := if Earlier(s.links, t.links) then d.links else c.links)
     .(options := if Earlier(s.options, t.options) then d.options else c.options)
     .(clipboardSharing := if Earlier(s.clipboardSharing,
         t.clipboardSharing) then d.clipboardSharing else c.clipboardSharing)
  }

  function MergedStamps(s: FieldStamps, t: FieldStamps): FieldStamps
  {
    s.(port := if Earlier(s.port, t.port) then t.port else s.port)
     .(screens := if Earlier(s.screens, t.screens) then t.screens else s.screens)
     .(links := if Earlier(s.links, t.links) then t.links else s.links)
     .(options := if Earlier(s.options, t.options) then t.options else s.options)
     .(clipboardSharing := if Earlier(s.clipboardSharing,
         t.clipboardSharing) then t.clipboardSharing else s.clipboardSharing)
  }

  /** Peers never overwrite per-machine fields, nor the stamps of those that have one. */
  lemma MergeKeepsLocalPart(mine: Versioned, theirs: Versioned)
    ensures LocalPart(Merged(mine, theirs).config) == LocalPart(mine.config)
    ensures OwnStampsFollow(mine, Merged(mine, theirs), LamportTime(0, ""))
  {
  }

  /** An edit made right after a merge is later than anything the peer had seen. */
  lemma EditAfterMergeIsLater(mine: Versioned, theirs: Versioned, origin: string)
    ensures var t := FreshStamp(Merged(mine, theirs), origin);
            && t.counter > theirs.clock && t.counter > mine.clock
            && forall f: Field :: Earlier(theirs.Stamp(f), t) && Earlier(mine.Stamp(f), t)
  {
    var r := Merged(mine, theirs);
    forall f: Field ensures Earlier(theirs.Stamp(f), FreshStamp(r, origin)) && Earlier(mine.Stamp(f), FreshStamp(r, origin)) {
      EarlierTrichotomous(mine.Stamp(f), theirs.Stamp(f));
      assert Earlier(r.Stamp(f), FreshStamp(r, origin));
    }
  }

  /** A merge without news leaves config and stamps alone. */
  lemma MergeWithoutNews(mine: Versioned, theirs: Versioned)
    requires !Updates(mine, theirs)
    ensures Merged(mine, theirs) == mine.(clock := Raised(mine, theirs))
  {
    assert !Wins(mine, theirs, Port) && !Wins(mine, theirs, Screens) && !Wins(mine, theirs, Links)
        && !Wins(mine, theirs, Options) && !Wins(mine, theirs, ClipboardSharing);
  }

  // ---------- the same two operations on the live object ----------

  class VersionedConfig {
    var config: Config
    var stamps: FieldStamps
    var clock: nat

    constructor (v: Versioned)
      ensures View() == v
    {
      config, stamps, clock := v.config, v.stamps, v.clock;
    }

    function View(): Versioned
      reads this
    {
      Versioned(config, stamps, clock)
    }

    method ApplyLocal(newConfig: Config, origin: string) returns (changed: bool)
      modifies this
      ensures View() == Edited(old(View()), newConfig, origin)
      ensures changed <==> old(config) != newConfig
    {
      if config == newConfig {
        return false;
      }
      clock := Max(clock, MaxCounter(stamps)) + 1;
      var stamp := LamportTime(clock, origin);
      stamps := stamps.(role := Restamp(config.role != newConfig.role, stamps.role, stamp));
      stamps := stamps.(serverName := Restamp(config.serverName != newConfig.serverName, stamps.serverName, stamp));
      stamps := stamps.(serverAddress := Restamp(config.serverAddress != newConfig.serverAddress, stamps.serverAddress,
          stamp));
      stamps := stamps.(port := Restamp(config.port != newConfig.port, stamps.port, stamp));
      stamps := stamps.(servicePort := Restamp(config.servicePort != newConfig.servicePort, stamps.servicePort, stamp));
      stamps := stamps.(screens := Restamp(config.screens != newConfig.screens, stamps.screens, stamp));
      stamps := stamps.(links := Restamp(config.links != newConfig.links, stamps.links, stamp));
      stamps := stamps.(options := Restamp(config.options != newConfig.options, stamps.options, stamp));
      stamps := stamps.(clipboardSharing := Restamp(config.clipboardSharing != newConfig.clipboardSharing,
          stamps.clipboardSharing, stamp));
      stamps := stamps.(binaries := Restamp(config.binaries != newConfig.binaries, stamps.binaries, stamp));
      config := newConfig;
      return true;
    }

    method Merge(other: Versioned) returns (outcome: MergeOutcome)
      modifies this
      ensures View() == Merged(old(View()), other)
      ensures outcome == Updated <==> Updates(old(View()), other)
    {
      ghost var was := View();
      clock := Max(Max(clock, other.clock), MaxCounter(other.stamps));
      var changed := TakeNewer(other);
      assert changed <==> Wins(was, other, Port) || Wins(was, other, Screens) || Wins(was, other, Links)
                          || Wins(was, other, Options) || Wins(was, other, ClipboardSharing);
      outcome := if changed then Updated else NoChange;
    }

    method TakeNewer(other: Versioned) returns (changed: bool)
      modifies `config, `stamps
      ensures config == MergedConfig(old(View()), other)
      ensures stamps == MergedStamps(old(stamps), other.stamps)
      ensures changed <==>
              || Earlier(old(stamps.port), other.stamps.port) || Earlier(old(stamps.screens), other.stamps.screens)
              || Earlier(old(stamps.links), other.stamps.links) || Earlier(old(stamps.options), other.stamps.options)
              || Earlier(old(stamps.clipboardSharing), other.stamps.clipboardSharing)
    {
      changed := false;
      if Earlier(stamps.port, other.stamps.port) {
        config := config.(port := other.config.port);
        stamps := stamps.(port := other.stamps.port);
        changed := true;
      }
      if Earlier(stamps.screens, other.stamps.screens) {
        config := config.(screens := other.config.screens);
        stamps := stamps.(screens := other.stamps.screens);
        changed := true;
      }
      if Earlier(stamps.links, other.stamps.links) {
        config := config.(links := other.config.links);
        stamps := stamps.(links := other.stamps.links);
        changed := true;
      }
      if Earlier(stamps.options, other.stamps.options) {
        config := config.(options := other.config.options);
        stamps := stamps.(options := other.stamps.options);
        changed := true;
      }
      if Earlier(stamps.clipboardSharing, other.stamps.clipboardSharing) {
        config := config.(clipboardSharing := other.config.clipboardSharing);
        stamps := stamps.(clipboardSharing := other.stamps.clipboardSharing);
        changed := true;
      }
    }
  }

  // ---------- algebra ----------

  /** Equal stamps mean equal values. */
  ghost predicate Agree(v: Versioned, w: Versioned)
  {
    forall f: Field :: v.Stamp(f) == w.Stamp(f) ==> v.Value(f) == w.Value(f)
  }

  /** Every stamp of `v` is at least the matching one of `w`. */
  ghost predicate Dominates(v: Versioned, w: Versioned)
  {
    forall f: Field :: !Earlier(v.Stamp(f), w.Stamp(f))
  }

  lemma DominatesItself(v: Versioned)
    ensures Dominates(v, v)
  {
    forall f: Field ensures !Earlier(v.Stamp(f), v.Stamp(f)) { EarlierTrichotomous(v.Stamp(f), v.Stamp(f)); }
  }

  lemma DominatesTransitive(u: Versioned, v: Versioned, w: Versioned)
    requires Dominates(u, v) && Dominates(v, w)
    ensures Dominates(u, w)
  {
    forall f: Field ensures !Earlier(u.Stamp(f), w.Stamp(f)) {
      var a, b, c := u.Stamp(f), v.Stamp(f), w.Stamp(f);
      EarlierTrichotomous(a, b);
      EarlierTrichotomous(b, c);
      if Earlier(a, c) && Earlier(b, a) {
        EarlierTransitive(b, a, c);
      }
    }
  }

  /** Of two states that agree, one that dominates the other without a later stamp has its head. */
  lemma SameHeadWithoutLaterStamp(v: Versioned, w: Versioned)
    requires Agree(v, w) && Dominates(w, v) && forall f: Field :: !Earlier(v.Stamp(f), w.Stamp(f))
    ensures HeadOf(v) == HeadOf(w)
  {
    forall f: Field ensures v.Stamp(f) == w.Stamp(f) && v.Value(f) == w.Value(f) {
      EarlierTrichotomous(v.Stamp(f), w.Stamp(f));
    }
    HeadsAgreeOnSharedFields(v, w);
  }

  /** A merge is an upper bound of both sides. */
  lemma MergeDominatesBoth(v: Versioned, w: Versioned)
    ensures Dominates(Merged(v, w), v) && Dominates(Merged(v, w), w)
  {
    forall f: Field ensures !Earlier(Merged(v, w).Stamp(f), v.Stamp(f)) && !Earlier(Merged(v, w).Stamp(f), w.Stamp(f)) {
      EarlierTrichotomous(v.Stamp(f), w.Stamp(f));
      EarlierTrichotomous(v.Stamp(f), v.Stamp(f));
      EarlierTrichotomous(w.Stamp(f), w.Stamp(f));
    }
  }

  /** The shared part of the merge is idempotent, commutative and associative on states that
      agree: a join, so the order and number of deliveries cannot matter. */
  lemma MergeIdempotent(v: Versioned)
    ensures !Updates(v, v) && HeadOf(Merged(v, v)) == HeadOf(v)
  {
    forall f: Field ensures !Wins(v, v, f) {
      EarlierTrichotomous(v.Stamp(f), v.Stamp(f));
    }
  }

  lemma MergeCommutative(v: Versioned, w: Versioned)
    requires Agree(v, w)
    ensures HeadOf(Merged(v, w)) == HeadOf(Merged(w, v))
  {
    forall f: Field ensures Merged(v, w).Stamp(f) == Merged(w, v).Stamp(f) && Merged(v, w).Value(f) == Merged(w,
        v).Value(f) {
      EarlierTrichotomous(v.Stamp(f), w.Stamp(f));
    }
    HeadsAgreeOnSharedFields(Merged(v, w), Merged(w, v));
  }

  lemma MergeAssociativeAt(u: Versioned, v: Versioned, w: Versioned, f: Field)
    ensures
      var l, r := Merged(Merged(u, v), w), Merged(u, Merged(v, w));
      l.Stamp(f) == r.Stamp(f) && l.Value(f) == r.Value(f)
  {
    var a, b, c := u.Stamp(f), v.Stamp(f), w.Stamp(f);
    EarlierTrichotomous(a, b);
    EarlierTrichotomous(b, c);
    EarlierTrichotomous(a, c);
    if Earlier(a, b) && Earlier(b, c) { EarlierTransitive(a, b, c); }
    if Earlier(b, a) && Earlier(a, c) { EarlierTransitive(b, a, c); }
  }

  lemma MergeAssociative(u: Versioned, v: Versioned, w: Versioned)
    ensures HeadOf(Merged(Merged(u, v), w)) == HeadOf(Merged(u, Merged(v, w)))
  {
    var l, r := Merged(Merged(u, v), w), Merged(u, Merged(v, w));
    forall f: Field ensures l.Stamp(f) == r.Stamp(f) && l.Value(f) == r.Value(f) {
      MergeAssociativeAt(u, v, w, f);
    }
    HeadsAgreeOnSharedFields(l, r);
  }
}
