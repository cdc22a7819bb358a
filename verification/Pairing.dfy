/** Pairing two machines: each shows its user a code for the exchanged Hellos, signs the transcript
    once the user accepts, and trusts the peer when the peer's signature of it arrives. */
module Pairing {
  import opened Configuration
  import opened Bytes
  import opened Transcript

  type Key = seq<byte>

  /** Ideal signatures: one exists for each key and text, and anything else verifies under none. */
  datatype Signature = Signed(key: Key, text: seq<byte>) | NoSignature

  datatype Confirm = Confirm(accepted: bool, signature: Signature)

  datatype Message = Greeting(hello: Hello) | Confirmation(confirm: Confirm) | Unreadable

  datatype Phase =
    | AwaitHello
    | AwaitUser(peer: Hello, early: Option<Confirm>)
    | AwaitConfirm(peer: Hello)
    | Paired(peer: Hello)
    | Failed

  /** One end of a session. `accepted` records that its user said yes, so that it signed. */
  datatype Party = Party(key: Key, own: Hello, expected: Option<seq<byte>>, accepted: bool, heard: Option<Hello>,
      phase: Phase)

  // ---------- public keys ----------

  function HexDigit(n: nat): byte
    requires n < 16
  {
    if n < 10 then 48 + n else 87 + n
  }

  function HexValue(b: byte): Option<nat>
  {
    if 48 <= b <= 57 then Some(b - 48)
    else if 97 <= b <= 102 then Some(b - 87)
    else if 65 <= b <= 70 then Some(b - 55)
    else None
  }

  function HexEncode(s: seq<byte>): (r: seq<byte>)
    ensures |r| == 2 * |s|
  {
    if s == [] then [] else [HexDigit(s[0] / 16), HexDigit(s[0] % 16)] + HexEncode(s[1..])
  }

  function HexDecode(s: seq<byte>): Option<seq<byte>>
  {
    if s == [] then Some([])
    else if |s| == 1 || HexValue(s[0]).None? || HexValue(s[1]).None? then None
    else
      var rest := HexDecode(s[2..]);
      if rest.None? then None else Some([HexValue(s[0]).value * 16 + HexValue(s[1]).value] + rest.value)
  }

  lemma {:induction false} HexRoundTrip(s: seq<byte>)
    ensures HexDecode(HexEncode(s)) == Some(s)
  {
    if s != [] {
      HexRoundTrip(s[1..]);
      assert HexValue(HexDigit(s[0] / 16)) == Some(s[0] / 16) && HexValue(HexDigit(s[0] % 16)) == Some(s[0] % 16);
      assert s == [s[0]] + s[1..];
      assert HexEncode(s)[2..] == HexEncode(s[1..]);
    }
  }

  const HEX_DIGITS: string := "0123456789abcdef"

  /** Two lower-case digits for each byte, the higher half first. */
  lemma {:induction false} HexEncodeAt(s: seq<byte>, i: nat)
    requires i < |s|
    ensures HexEncode(s)[2 * i] as char == HEX_DIGITS[s[i] / 16] && HexEncode(s)[2 * i + 1] as char == HEX_DIGITS[s[i] % 16]
  {
    if i > 0 {
      HexEncodeAt(s[1..], i - 1);
    }
  }

  /** Upper-case digits are read like lower-case ones. */
  lemma HexValueOfBothCases(n: nat)
    requires n < 16
    ensures HexValue(HexDigit(n)) == Some(n)
    ensures n >= 10 ==> HexValue(HexDigit(n) - 32) == Some(n)
  {
  }

  /** The key a Hello announces, if it is thirty-two bytes of hexadecimal. */
  function KeyOf(pubkey: seq<byte>): Option<Key>
  {
    var k := HexDecode(pubkey);
    if k.Some? && |k.value| == 32 then k else None
  }

  /** Exactly the keys of thirty-two bytes can be announced. */
  lemma KeyOfEncoded(k: seq<byte>)
    ensures KeyOf(HexEncode(k)) == if |k| == 32 then Some(k) else None
  {
    HexRoundTrip(k);
  }

  // ---------- one end ----------

  predicate WellFormed(p: Party)
  {
    |p.key| == 32 && p.own.pubkey == HexEncode(p.key) && Encodable(p.own)
  }

  function Text(p: Party, peer: Hello): seq<byte>
  {
    Canonical(p.own, peer)
  }

  /** Whether a peer's confirmation completes the pairing. */
  predicate Convinces(p: Party, peer: Hello, c: Confirm)
  {
    c.accepted && KeyOf(peer.pubkey).Some? && c.signature == Signed(KeyOf(peer.pubkey).value, Text(p, peer))
  }

  predicate Welcome(p: Party, h: Hello)
  {
    && (p.expected.Some? ==> p.expected.value == h.machineId)
    && h.machineId != p.own.machineId
    && KeyOf(h.pubkey).Some?
  }

  predicate Listening(p: Party)
  {
    p.phase.AwaitHello? || (p.phase.AwaitUser? && p.phase.early.None?) || p.phase.AwaitConfirm?
  }

  function Judged(p: Party, peer: Hello, c: Confirm): Party
  {
    p.(phase := if Convinces(p, peer, c) then Paired(peer) else Failed)
  }

  function OnMessage(p: Party, m: Message): Party
    requires Listening(p)
  {
    match p.phase
    case AwaitHello =>
      if m.Greeting? && Welcome(p, m.hello) then p.(phase := AwaitUser(m.hello, None), heard := Some(m.hello))
      else p.(phase := Failed)
    case AwaitUser(peer, _) =>
      if m.Confirmation? && m.confirm.accepted then p.(phase := AwaitUser(peer, Some(m.confirm)))
      else p.(phase := Failed)
    case AwaitConfirm(peer) =>
      if m.Confirmation? then Judged(p, peer, m.confirm) else p.(phase := Failed)
  }

  /** The confirmation sent once the user has decided. */
  function ConfirmOf(p: Party, peer: Hello, accept: bool): Confirm
  {
    Confirm(accept, if accept then Signed(p.key, Text(p, peer)) else NoSignature)
  }

  function OnUser(p: Party, accept: bool): Party
    requires p.phase.AwaitUser?
  {
    var peer := p.phase.peer;
    if !accept then p.(phase := Failed)
    else
      var q := p.(accepted := true);
      if p.phase.early.Some? then Judged(q, peer, p.phase.early.value) else q.(phase := AwaitConfirm(peer))
  }

  /** A pairing that cannot be stored has failed. */
  function Stored(p: Party, saves: bool): Party
  {
    if p.phase.Paired? && !saves then p.(phase := Failed) else p
  }

  // ---------- the session as it is written ----------

  /** How the wait for the user went: the user decided first and the peer's message came after, or
      the message came first. A missing value is a dropped channel or a failed read. */
  datatype Race =
    | UserFirst(verdict: Option<bool>, later: Option<Message>)
    | MessageFirst(message: Option<Message>, verdict: Option<bool>)

  class TrustStore {
    var peers: map<seq<byte>, Hello>

    constructor ()
      ensures peers == map[]
    {
      peers := map[];
    }

    method Upsert(peer: Hello)
      modifies this
      ensures peers == old(peers)[peer.machineId := peer]
    {
      peers := peers[peer.machineId := peer];
    }
  }

  /** The confirmation of the peer that the race brings, whichever way it went. */
  function ConfirmIn(race: Race): Option<Confirm>
  {
    var message := if race.UserFirst? then race.later else race.message;
    if message.Some? && message.value.Confirmation? then Some(message.value.confirm) else None
  }

  /** The steps that race stands for, as far as they are taken. */
  function Raced(p: Party, race: Race): Party
    requires p.phase.AwaitUser? && p.phase.early.None?
  {
    match race
    case UserFirst(verdict, later) =>
      if verdict.None? then p.(phase := Failed)
      else
        var q := OnUser(p, verdict.value);
        if !q.phase.AwaitConfirm? then q
        else if later.None? then q.(phase := Failed) else OnMessage(q, later.value)
    case MessageFirst(message, verdict) =>
      if message.None? then p.(phase := Failed)
      else
        var q := OnMessage(p, message.value);
        if !q.phase.AwaitUser? then q
        else if verdict.None? then q.(phase := Failed) else OnUser(q, verdict.value)
  }

  /** The session body; `saves` is whether the trust store can be written. It ends as the
      step-by-step party does, sends its Hello and then at most one confirmation, signed exactly
      when the user accepted, and the store gains the peer exactly when the pairing completes. */
  method RunSession(p: Party, first: Option<Message>, race: Race, saves: bool, store: TrustStore)
    returns (end: Party, sent: seq<Message>)
    requires p.phase.AwaitHello? && !p.accepted
    modifies store
    ensures
      var greeted := if first.None? then p.(phase := Failed) else OnMessage(p, first.value);
      var settled := if greeted.phase.Failed? then greeted else Raced(greeted, race);
      end == Stored(settled, saves)
    ensures end.phase.Paired? || end.phase.Failed?
    ensures end.phase.Paired? <==>
            && saves && first.Some? && first.value.Greeting?
            && (p.expected.Some? ==> first.value.hello.machineId == p.expected.value)
            && first.value.hello.machineId != p.own.machineId && KeyOf(first.value.hello.pubkey).Some?
            && race.verdict == Some(true) && ConfirmIn(race).Some? && ConfirmIn(race).value.accepted
            && ConfirmIn(race).value.signature
               == Signed(KeyOf(first.value.hello.pubkey).value, Canonical(p.own, first.value.hello))
    ensures end.phase.Paired? ==> end.phase.peer == first.value.hello && end.accepted
    ensures first.Some? && first.value.Greeting?
            && ((p.expected.Some? && first.value.hello.machineId != p.expected.value)
                || first.value.hello.machineId == p.own.machineId)
            ==> end == p.(phase := Failed) && |sent| == 1
    ensures store.peers == if end.phase.Paired? then old(store.peers)[end.phase.peer.machineId := end.phase.peer]
            else old(store.peers)
    ensures 1 <= |sent| <= 2 && sent[0] == Greeting(p.own)
    ensures end.accepted ==> |sent| == 2 && end.heard.Some? && sent[1] == Confirmation(ConfirmOf(p, end.heard.value, true))
    ensures !end.accepted && |sent| == 2 ==> sent[1] == Confirmation(Confirm(false, NoSignature))
    ensures |sent| == 2 <==>
            && first.Some? && first.value.Greeting? && Welcome(p, first.value.hello) && race.verdict.Some?
            && (race.MessageFirst? ==> ConfirmIn(race).Some? && ConfirmIn(race).value.accepted)
    ensures |sent| == 2 ==> end.accepted == race.verdict.value
  {
    end := p;
    sent := [Greeting(p.own)];
    if first.None? || !first.value.Greeting? {
      return p.(phase := Failed), sent;
    }
    var peer := first.value.hello;
    if p.expected.Some? && p.expected.value != peer.machineId {
      return p.(phase := Failed), sent;
    }
    if peer.machineId == p.own.machineId {
      return p.(phase := Failed), sent;
    }
    var text := CanonicalTranscript(p.own, peer);
    if KeyOf(peer.pubkey).None? {
      return p.(phase := Failed), sent;
    }
    end := p.(heard := Some(peer));
    var early: Option<Confirm>, verdict: Option<bool> := None, None;
    match race {
      case UserFirst(v, _) => verdict := v;
      case MessageFirst(message, v) =>
        if message.None? || !message.value.Confirmation? || !message.value.confirm.accepted {
          return end.(phase := Failed), sent;
        }
        early, verdict := Some(message.value.confirm), v;
    }
    if verdict.None? {
      return end.(phase := Failed), sent;
    }
    var signature := if verdict.value then Signed(p.key, text) else NoSignature;
    sent := sent + [Confirmation(Confirm(verdict.value, signature))];
    if !verdict.value {
      return end.(phase := Failed), sent;
    }
    end := end.(accepted := true);
    if early.None? {
      if race.later.None? || !race.later.value.Confirmation? {
        return end.(phase := Failed), sent;
      }
      early := Some(race.later.value.confirm);
    }
    if !early.value.accepted || early.value.signature != Signed(KeyOf(peer.pubkey).value, text) {
      return end.(phase := Failed), sent;
    }
    if !saves {
      return end.(phase := Failed), sent;
    }
    store.Upsert(peer);
    end := end.(phase := Paired(peer));
  }
}
