/** Two sessions over a reliable channel whose users both accept. */
module PairingProgress {
  import opened Execution
  import opened Transcript
  import opened Pairing

  datatype Link = Link(a: Party, b: Party, toA: seq<Message>, toB: seq<Message>)

  datatype Step = ReceiveA | ReceiveB | AcceptA | AcceptB

  predicate Enabled(l: Link, step: Step)
  {
    match step
    case ReceiveA => Listening(l.a) && l.toA != []
    case ReceiveB => Listening(l.b) && l.toB != []
    case AcceptA => l.a.phase.AwaitUser?
    case AcceptB => l.b.phase.AwaitUser?
  }

  function Next(l: Link, step: Step): Link
    requires Enabled(l, step)
  {
    match step
    case ReceiveA => l.(a := OnMessage(l.a, l.toA[0]), toA := l.toA[1..])
    case ReceiveB => l.(b := OnMessage(l.b, l.toB[0]), toB := l.toB[1..])
    case AcceptA => l.(a := OnUser(l.a, true), toB := l.toB + [Confirmation(ConfirmOf(l.a, l.a.phase.peer, true))])
    case AcceptB => l.(b := OnUser(l.b, true), toA := l.toA + [Confirmation(ConfirmOf(l.b, l.b.phase.peer, true))])
  }

  /** Two machines that can pair: distinct keys and ids, and the initiator's target as announced. */
  predicate Compatible(p: Party, q: Party)
  {
    && WellFormed(p) && WellFormed(q) && p.key != q.key && p.own.machineId != q.own.machineId
    && (p.expected.Some? ==> p.expected.value == q.own.machineId)
    && (q.expected.Some? ==> q.expected.value == p.own.machineId)
  }

  /** Both Hellos are on their way. */
  predicate Init(l: Link)
  {
    && Compatible(l.a, l.b)
    && l.a.phase.AwaitHello? && l.b.phase.AwaitHello? && !l.a.accepted && !l.b.accepted
    && l.toA == [Greeting(l.b.own)] && l.toB == [Greeting(l.a.own)]
  }

  /** The confirmation `q` has sent to `p`, if it has. */
  function SentConfirm(p: Party, q: Party): seq<Message>
  {
    if q.accepted then [Confirmation(ConfirmOf(q, p.own, true))] else []
  }

  /** `p` is where the messages it took from `q` put it, and the rest is in its channel. */
  predicate OnTrack(p: Party, q: Party, toP: seq<Message>)
  {
    match p.phase
    case AwaitHello => !p.accepted && toP == [Greeting(q.own)] + SentConfirm(p, q)
    case AwaitUser(peer, None) => !p.accepted && peer == q.own && toP == SentConfirm(p, q)
    case AwaitUser(peer, Some(c)) =>
      !p.accepted && peer == q.own && q.accepted && toP == [] && c == ConfirmOf(q, p.own, true)
    case AwaitConfirm(peer) => p.accepted && peer == q.own && toP == SentConfirm(p, q)
    case Paired(peer) => p.accepted && peer == q.own && q.accepted && toP == []
    case Failed => false
  }

  predicate Healthy(l: Link)
  {
    Compatible(l.a, l.b) && OnTrack(l.a, l.b, l.toA) && OnTrack(l.b, l.a, l.toB)
  }

  /** Turns still to come at one end. */
  function Left(p: Party): nat
  {
    match p.phase
    case AwaitHello => 3
    case AwaitUser(_, early) => if early.None? then 2 else 1
    case AwaitConfirm(_) => 1
    case _ => 0
  }

  lemma ConfirmConvinces(p: Party, q: Party)
    requires Compatible(p, q)
    ensures Convinces(p, q.own, ConfirmOf(q, p.own, true)) && Welcome(p, q.own)
  {
    HexRoundTrip(p.key);
    HexRoundTrip(q.key);
    TranscriptSymmetricIff(p.own, q.own);
  }

  lemma ReceiveKeepsTrack(p: Party, q: Party, toP: seq<Message>, toQ: seq<Message>)
    requires Compatible(p, q) && OnTrack(p, q, toP) && OnTrack(q, p, toQ) && Listening(p) && toP != []
    ensures var p' := OnMessage(p, toP[0]);
            Compatible(p', q) && OnTrack(p', q, toP[1..]) && OnTrack(q, p', toQ) && Left(p') == Left(p) - 1
  {
    ConfirmConvinces(p, q);
    var p' := OnMessage(p, toP[0]);
    assert SentConfirm(q, p') == SentConfirm(q, p) && SentConfirm(p', q) == SentConfirm(p, q);
    assert p.phase.AwaitHello? ==> toP[1..] == SentConfirm(p, q);
    assert !p.phase.AwaitHello? ==> q.accepted && toP[1..] == [];
  }

  lemma AcceptKeepsTrack(p: Party, q: Party, toP: seq<Message>, toQ: seq<Message>)
    requires Compatible(p, q) && OnTrack(p, q, toP) && OnTrack(q, p, toQ) && p.phase.AwaitUser?
    ensures var p', toQ' := OnUser(p, true), toQ + [Confirmation(ConfirmOf(p, p.phase.peer, true))];
            Compatible(p', q) && OnTrack(p', q, toP) && OnTrack(q, p', toQ') && Left(p') == Left(p) - 1
  {
    ConfirmConvinces(p, q);
    var p' := OnUser(p, true);
    assert SentConfirm(q, p) == [] && SentConfirm(q, p') == [Confirmation(ConfirmOf(p, q.own, true))];
    assert SentConfirm(p', q) == SentConfirm(p, q);
    assert [] + SentConfirm(q, p') == SentConfirm(q, p');
    assert [Greeting(p.own)] + SentConfirm(q, p) == [Greeting(p.own)];
  }

  lemma StepKeepsHealthy(l: Link, step: Step)
    requires Healthy(l) && Enabled(l, step)
    ensures Healthy(Next(l, step))
    ensures Left(Next(l, step).a) + Left(Next(l, step).b) == Left(l.a) + Left(l.b) - 1
  {
    match step
    case ReceiveA => ReceiveKeepsTrack(l.a, l.b, l.toA, l.toB);
    case ReceiveB => ReceiveKeepsTrack(l.b, l.a, l.toB, l.toA);
    case AcceptA => AcceptKeepsTrack(l.a, l.b, l.toA, l.toB);
    case AcceptB => AcceptKeepsTrack(l.b, l.a, l.toB, l.toA);
  }

  lemma NeverStuck(l: Link)
    requires Healthy(l) && !(l.a.phase.Paired? && l.b.phase.Paired?)
    ensures exists step :: Enabled(l, step)
  {
    assert Enabled(l, ReceiveA) || Enabled(l, ReceiveB) || Enabled(l, AcceptA) || Enabled(l, AcceptB);
  }

  ghost function Steps(): Machine<Link, Step>
  {
    Machine(Enabled, (l, step) => if Enabled(l, step) then Next(l, step) else l)
  }

  lemma {:induction false} RunKeepsHealthy(l: Link, steps: seq<Step>)
    requires Healthy(l) && Runs(Steps(), l, steps)
    ensures var e := After(Steps(), l, steps);
            && Healthy(e) && e.a.own == l.a.own && e.b.own == l.b.own
            && Left(e.a) + Left(e.b) + |steps| == Left(l.a) + Left(l.b)
    decreases |steps|
  {
    if steps != [] {
      StepKeepsHealthy(l, steps[0]);
      RunKeepsHealthy(Next(l, steps[0]), steps[1..]);
    }
  }

  /** When both users accept, every order of deliveries and decisions pairs both ends in exactly six
      turns, and before that some turn can always be taken. */
  lemma BothUsersAcceptingPairs(l: Link, steps: seq<Step>)
    requires Init(l) && Runs(Steps(), l, steps)
    ensures |steps| <= 6
    ensures var end := After(Steps(), l, steps);
            |steps| == 6 <==> end.a.phase == Paired(l.b.own) && end.b.phase == Paired(l.a.own)
    ensures |steps| < 6 ==> exists step :: Enabled(After(Steps(), l, steps), step)
  {
    RunKeepsHealthy(l, steps);
    if |steps| < 6 {
      NeverStuck(After(Steps(), l, steps));
    }
  }
}
