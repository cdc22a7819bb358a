/** Any number of pairing sessions over a network that delivers whatever it likes, except
    signatures that were never made. */
module PairingSafety {
  import opened Execution
  import opened Configuration
  import opened Transcript
  import opened Pairing

  type World = seq<Party>

  /** `saves` tells whether a pairing that this step would complete can be sent and stored. */
  datatype Step =
    | Deliver(who: nat, message: Message, saves: bool)
    | User(who: nat, accept: bool, saves: bool)
    | Abort(who: nat)

  /** Some session of the world made this signature. */
  predicate Made(w: World, s: Signature)
  {
    exists j :: 0 <= j < |w| && MadeBy(w[j], s)
  }

  predicate MadeBy(p: Party, s: Signature)
  {
    p.accepted && p.heard.Some? && s == Signed(p.key, Text(p, p.heard.value))
  }

  predicate Owned(w: World, key: Key)
  {
    exists j :: 0 <= j < |w| && w[j].key == key
  }

  /** Signatures are unforgeable: one under a machine's key exists only once that machine made it. */
  predicate Genuine(w: World, s: Signature)
  {
    s.Signed? && Owned(w, s.key) ==> Made(w, s)
  }

  /** What the network may deliver: frames are far below 2^32 bytes. */
  predicate Possible(w: World, m: Message)
  {
    match m
    case Greeting(h) => Encodable(h)
    case Confirmation(c) => Genuine(w, c.signature)
    case Unreadable => true
  }

  predicate Enabled(w: World, step: Step)
  {
    step.who < |w| &&
    match step
    case Deliver(i, m, _) => Listening(w[i]) && Possible(w, m)
    case User(i, _, _) => w[i].phase.AwaitUser?
    case Abort(i) => !w[i].phase.Paired?
  }

  function Moved(p: Party, step: Step): Party
    requires step.Deliver? ==> Listening(p)
    requires step.User? ==> p.phase.AwaitUser?
  {
    match step
    case Deliver(_, m, saves) => Stored(OnMessage(p, m), saves)
    case User(_, accept, saves) => Stored(OnUser(p, accept), saves)
    case Abort(_) => p.(phase := Failed)
  }

  function Next(w: World, step: Step): World
    requires Enabled(w, step)
  {
    w[step.who := Moved(w[step.who], step)]
  }

  /** Sessions that have not begun; fresh nonces make their Hellos distinct. */
  predicate Init(w: World)
  {
    && (forall i :: 0 <= i < |w| ==> WellFormed(w[i]) && w[i].phase.AwaitHello? && !w[i].accepted && w[i].heard.None?)
    && HellosDistinct(w)
  }

  predicate HellosDistinct(w: World)
  {
    forall i, j :: 0 <= i < j < |w| ==> w[i].own != w[j].own
  }

  // ---------- what every step keeps ----------

  /** What a party's phase says about its past. */
  predicate Sound(w: World, p: Party)
  {
    && WellFormed(p)
    && (p.heard.Some? ==> Encodable(p.heard.value))
    && match p.phase
       case AwaitHello => !p.accepted && p.heard.None?
       case AwaitUser(peer, early) =>
         !p.accepted && p.heard == Some(peer) && Welcome(p, peer) && (early.Some? ==> Genuine(w, early.value.signature))
       case AwaitConfirm(peer) => p.accepted && p.heard == Some(peer) && Welcome(p, peer)
       case Paired(peer) =>
         && p.accepted && p.heard == Some(peer) && Welcome(p, peer)
         && Genuine(w, Signed(KeyOf(peer.pubkey).value, Text(p, peer)))
       case Failed => p.accepted ==> p.heard.Some?
  }

  predicate Inv(w: World)
  {
    HellosDistinct(w) && forall i :: 0 <= i < |w| ==> Sound(w, w[i])
  }

  /** Identity never changes, and neither does a signature once made. */
  predicate Continues(p: Party, q: Party)
  {
    && q.key == p.key && q.own == p.own && q.expected == p.expected
    && (p.accepted ==> q.accepted && q.heard == p.heard)
  }

  lemma StepContinues(w: World, step: Step)
    requires Inv(w) && Enabled(w, step)
    ensures |Next(w, step)| == |w| && forall i :: 0 <= i < |w| ==> Continues(w[i], Next(w, step)[i])
  {
    assert Sound(w, w[step.who]);
  }

  lemma GenuineStays(w: World, w': World, s: Signature)
    requires |w| == |w'| && (forall i :: 0 <= i < |w| ==> Continues(w[i], w'[i])) && Genuine(w, s)
    ensures Genuine(w', s)
  {
    if s.Signed? && Owned(w', s.key) {
      var i :| 0 <= i < |w'| && w'[i].key == s.key;
      assert w[i].key == s.key;
      var j :| 0 <= j < |w| && MadeBy(w[j], s);
      assert MadeBy(w'[j], s);
    }
  }

  lemma SoundStays(w: World, w': World, p: Party)
    requires |w| == |w'| && (forall i :: 0 <= i < |w| ==> Continues(w[i], w'[i])) && Sound(w, p)
    ensures Sound(w', p)
  {
    match p.phase
    case AwaitUser(peer, early) => if early.Some? { GenuineStays(w, w', early.value.signature); }
    case Paired(peer) => GenuineStays(w, w', Signed(KeyOf(peer.pubkey).value, Text(p, peer)));
    case _ =>
  }

  lemma MoverSound(w: World, step: Step)
    requires Inv(w) && Enabled(w, step)
    ensures Sound(w, Moved(w[step.who], step))
  {
    assert Sound(w, w[step.who]);
  }

  lemma StepKeepsInv(w: World, step: Step)
    requires Inv(w) && Enabled(w, step)
    ensures Inv(Next(w, step))
  {
    var w' := Next(w, step);
    StepContinues(w, step);
    MoverSound(w, step);
    forall i | 0 <= i < |w'| ensures Sound(w', w'[i]) {
      assert Sound(w, w'[i]);
      SoundStays(w, w', w'[i]);
    }
    forall i, j | 0 <= i < j < |w'| ensures w'[i].own != w'[j].own {
      assert Continues(w[i], w'[i]) && Continues(w[j], w'[j]);
    }
  }

  // ---------- whole runs ----------

  ghost function Steps(): Machine<World, Step>
  {
    Machine(Enabled, (w, step) => if Enabled(w, step) then Next(w, step) else w)
  }

  lemma RunKeepsInv(w: World, steps: seq<Step>)
    requires Init(w) && Runs(Steps(), w, steps)
    ensures Inv(After(Steps(), w, steps))
  {
    forall u: World, step: Step | Inv(u) && Steps().enabled(u, step) ensures Inv(Steps().next(u, step)) {
      StepKeepsInv(u, step);
    }
    RunKeeps(Steps(), Inv, w, steps);
  }

  /** Both ends of a pairing: each has heard the other's Hello, both users accepted, and both
      signed the same text. */
  predicate Agreed(p: Party, q: Party)
  {
    && p.accepted && q.accepted && p.heard == Some(q.own) && q.heard == Some(p.own)
    && Text(p, q.own) == Text(q, p.own)
  }

  lemma PairedMeansAgreed(w: World, i: nat) returns (j: nat)
    requires Inv(w) && i < |w| && w[i].phase.Paired?
    requires var k := KeyOf(w[i].phase.peer.pubkey); k.Some? ==> Owned(w, k.value) && k.value != w[i].key
    ensures j < |w| && j != i && Agreed(w[i], w[j]) && w[j].own == w[i].phase.peer
  {
    var p := w[i];
    assert Sound(w, p);
    var peer, k := p.phase.peer, KeyOf(p.phase.peer.pubkey).value;
    j :| 0 <= j < |w| && MadeBy(w[j], Signed(k, Text(p, peer)));
    var q := w[j];
    assert Sound(w, q);
    TranscriptInjective(p.own, peer, q.own, q.heard.value);
    assert i != j;
    assert q.own != p.own by {
      assert if i < j then w[i].own != w[j].own else w[j].own != w[i].own;
    }
  }

  /** In every run: if a session persists trust in a machine of this world other than itself, that
      machine has a session whose user accepted too, both heard each other's Hello as it was sent,
      and both signed the same transcript. */
  lemma PairingAgreement(w: World, steps: seq<Step>, i: nat) returns (j: nat)
    requires Init(w) && Runs(Steps(), w, steps) && i < |After(Steps(), w, steps)|
    requires After(Steps(), w, steps)[i].phase.Paired?
    requires var k := KeyOf(After(Steps(), w, steps)[i].phase.peer.pubkey);
             k.Some? ==> Owned(After(Steps(), w, steps), k.value) && k.value != After(Steps(), w, steps)[i].key
    ensures var e := After(Steps(), w, steps); j < |e| && j != i && Agreed(e[i], e[j]) && e[j].own == e[i].phase.peer
  {
    RunKeepsInv(w, steps);
    j := PairedMeansAgreed(After(Steps(), w, steps), i);
  }

  /** In every run an initiator pairs only with the machine it dialed, and nobody with itself. */
  lemma PairsOnlyWithItsTarget(w: World, steps: seq<Step>, i: nat)
    requires Init(w) && Runs(Steps(), w, steps) && i < |After(Steps(), w, steps)|
    requires After(Steps(), w, steps)[i].phase.Paired?
    ensures
      var p := After(Steps(), w, steps)[i];
      && (p.expected.Some? ==> p.phase.peer.machineId == p.expected.value)
      && p.phase.peer.machineId != p.own.machineId
  {
    RunKeepsInv(w, steps);
    assert Sound(After(Steps(), w, steps), After(Steps(), w, steps)[i]);
  }

  /** A session that hears the wrong id fails at once, unsigned, and so does one that hears a refusal
      where it waits for a confirmation. */
  lemma WrongHelloOrRefusalFails(p: Party, m: Message, saves: bool)
    requires Listening(p)
    ensures p.phase.AwaitHello? && m.Greeting?
            && ((p.expected.Some? && m.hello.machineId != p.expected.value) || m.hello.machineId == p.own.machineId)
            ==> Moved(p, Deliver(0, m, saves)) == p.(phase := Failed)
    ensures !p.phase.AwaitHello? && m.Confirmation? && !m.confirm.accepted
            ==> Moved(p, Deliver(0, m, saves)) == p.(phase := Failed)
  {
  }

  lemma OwnKey(p: Party)
    requires WellFormed(p)
    ensures KeyOf(p.own.pubkey) == Some(p.key)
  {
    HexRoundTrip(p.key);
  }

  lemma ConsentIsNeeded(w: World, i: nat, j: nat)
    requires Inv(w) && i < |w| && j < |w| && !w[j].accepted && w[i].key != w[j].key
    ensures w[i].phase != Paired(w[j].own) && !w[j].phase.Paired?
  {
    assert Sound(w, w[j]);
    if w[i].phase == Paired(w[j].own) {
      OwnKey(w[j]);
      var other := PairedMeansAgreed(w, i);
      assert false;
    }
  }

  /** A session whose user has not accepted, whether declined or undecided, is trusted by no other
      machine, and trusts nobody itself. */
  lemma NoTrustWithoutConsent(w: World, steps: seq<Step>, i: nat, j: nat)
    requires Init(w) && Runs(Steps(), w, steps) && i < |After(Steps(), w, steps)| && j < |After(Steps(), w, steps)|
    requires !After(Steps(), w, steps)[j].accepted && After(Steps(), w, steps)[i].key != After(Steps(), w, steps)[j].key
    ensures After(Steps(), w, steps)[i].phase != Paired(After(Steps(), w, steps)[j].own)
    ensures !After(Steps(), w, steps)[j].phase.Paired?
  {
    RunKeepsInv(w, steps);
    ConsentIsNeeded(After(Steps(), w, steps), i, j);
  }

  /** The condition on the peer's key is needed: the self-pairing check compares machine ids only,
      so with a Hello that repeats the session's own key under another id, the session completes on
      its own confirmation with nobody at the other end. */
  lemma HelloWithOwnKeyPairsAlone(p: Party, peer: Hello)
    requires Init([p]) && Encodable(peer) && Welcome(p, peer) && KeyOf(peer.pubkey) == Some(p.key)
    ensures var steps := [Deliver(0, Greeting(peer), true), User(0, true, true),
            Deliver(0, Confirmation(ConfirmOf(p, peer, true)), true)];
            && Runs(Steps(), [p], steps) && |After(Steps(), [p], steps)| == 1
            && After(Steps(), [p], steps)[0].phase == Paired(peer)
  {
    var hello, user, confirm := Deliver(0, Greeting(peer), true), User(0, true, true),
        Deliver(0, Confirmation(ConfirmOf(p, peer, true)), true);
    var w1 := Next([p], hello);
    var w2 := Next(w1, user);
    assert MadeBy(w2[0], Signed(p.key, Text(p, peer)));
    var w3 := Next(w2, confirm);
    assert w3[0].phase == Paired(peer);
    assert Runs(Steps(), w3, []) && After(Steps(), w3, []) == w3;
    Prepend(Steps(), w2, confirm, []);
    Prepend(Steps(), w1, user, [confirm]);
    Prepend(Steps(), [p], hello, [user, confirm]);
    assert [confirm] + [] == [confirm] && [user] + [confirm] == [user, confirm];
    assert [hello] + [user, confirm] == [hello, user, confirm];
  }
}
