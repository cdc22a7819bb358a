/** The encrypted channel on top of the frames: per-direction keys, nonce prefixes and counters. */
module Channel {
  import opened Configuration
  import opened Bytes
  import opened Framing

  const U64_LIMIT := 0x1_0000_0000_0000_0000

  type Nonce = seq<byte>

  /** An authenticated cipher under one fixed key. */
  datatype Aead = Aead(encrypt: (Nonce, seq<byte>) -> seq<byte>, decrypt: (Nonce, seq<byte>) -> Option<seq<byte>>)

  /** Section 2.8 of RFC 8439, as far as the channel relies on it: decryption inverts encryption
      under the same nonce, and the ciphertext is sixteen bytes longer. */
  ghost predicate Lawful(c: Aead)
  {
    forall n: Nonce, p: seq<byte> {:trigger c.encrypt(n, p)} ::
      |c.encrypt(n, p)| == |p| + TAG_BYTES && c.decrypt(n, c.encrypt(n, p)) == Some(p)
  }

  /** Four prefix bytes and the counter, big-endian. */
  function BuildNonce(prefix: seq<byte>, counter: nat): Nonce
  {
    prefix + BigEndian(counter, 8)
  }

  /** The nonce byte by byte: twelve of them, the prefix first, then the counter's digits. */
  lemma NonceOnTheWire(prefix: seq<byte>, counter: nat)
    requires |prefix| == 4
    ensures |BuildNonce(prefix, counter)| == 12 && BuildNonce(prefix, counter)[..4] == prefix
    ensures forall i :: 4 <= i < 12 ==> BuildNonce(prefix, counter)[i] == counter / Pow256(11 - i) % 256
  {
    forall i | 4 <= i < 12 ensures BuildNonce(prefix, counter)[i] == counter / Pow256(11 - i) % 256 {
      BigEndianAt(counter, 8, i - 4);
    }
  }

  /** Distinct counters of one direction give distinct nonces. */
  lemma NoncesDistinct(prefix: seq<byte>, i: nat, j: nat)
    requires i < U64_LIMIT && j < U64_LIMIT && BuildNonce(prefix, i) == BuildNonce(prefix, j)
    ensures i == j
  {
    Pow256Values();
    BigEndianRoundTrip(i, 8);
    BigEndianRoundTrip(j, 8);
    assert BuildNonce(prefix, i)[|prefix|..] == BigEndian(i, 8);
    assert BuildNonce(prefix, j)[|prefix|..] == BigEndian(j, 8);
  }

  /** The frames a sender emits for `payloads`, the first under counter `from`. */
  function Sealed(c: Aead, prefix: seq<byte>, payloads: seq<seq<byte>>, from: nat): seq<seq<byte>>
  {
    if payloads == [] then []
    else [c.encrypt(BuildNonce(prefix, from), payloads[0])] + Sealed(c, prefix, payloads[1..], from + 1)
  }

  lemma {:induction false} SealedAppend(c: Aead, prefix: seq<byte>, payloads: seq<seq<byte>>, from: nat, p: seq<byte>)
    ensures Sealed(c, prefix, payloads + [p], from)
            == Sealed(c, prefix, payloads, from) + [c.encrypt(BuildNonce(prefix, from + |payloads|), p)]
  {
    if payloads == [] {
      assert (payloads + [p])[1..] == [];
    } else {
      SealedAppend(c, prefix, payloads[1..], from + 1, p);
      assert (payloads + [p])[1..] == payloads[1..] + [p];
    }
  }

  // ---------- sending ----------

  datatype SendResult = Sent | PayloadTooLarge | WriteFailed | NonceExhausted

  /** One send, as a function of the counter and the bytes already on the wire. `written` is how
      many bytes of the frame get out if the write fails or is abandoned. Only a send that succeeds
      moves the counter. */
  function Sending(c: Aead, prefix: seq<byte>, counter: nat, wire: seq<byte>, payload: seq<byte>, written: Option<nat>)
    : (SendResult, nat, seq<byte>)
  {
    if |payload| > MAX_FRAME_BYTES then (PayloadTooLarge, counter, wire)
    else
      var frame := Prefixed(c.encrypt(BuildNonce(prefix, counter), payload));
      if written.Some? then (WriteFailed, counter, wire
          + frame[..if written.value <= |frame| then written.value else |frame|])
      else if counter + 1 == U64_LIMIT then (NonceExhausted, counter, wire + frame)
      else (Sent, counter + 1, wire + frame)
  }

  /** The size limit in numbers: 256 KiB go out, one byte more is refused and leaves no trace. */
  lemma SizeLimit(c: Aead, prefix: seq<byte>, counter: nat, wire: seq<byte>, payload: seq<byte>)
    requires counter + 1 < U64_LIMIT
    ensures |payload| <= 262144 ==>
              Sending(c, prefix, counter, wire, payload, None)
              == (Sent, counter + 1, wire + Prefixed(c.encrypt(BuildNonce(prefix, counter), payload)))
    ensures |payload| > 262144 ==> Sending(c, prefix, counter, wire, payload, None) == (PayloadTooLarge, counter, wire)
  {
  }

  /** An attempt that reached encryption, under the nonce of `counter`. */
  datatype Attempt = Attempt(counter: nat, result: SendResult)

  datatype Sender = Sender(counter: nat, wire: seq<byte>, attempts: seq<Attempt>)

  /** Any number of sends, going on after failures too. */
  function SendAll(c: Aead, prefix: seq<byte>, start: Sender, payloads: seq<seq<byte>>,
      faults: seq<Option<nat>>): Sender
    requires |faults| == |payloads|
  {
    if payloads == [] then start
    else
      var n := |payloads| - 1;
      SendOne(c, prefix, SendAll(c, prefix, start, payloads[..n], faults[..n]), payloads[n], faults[n])
  }

  function SendOne(c: Aead, prefix: seq<byte>, s: Sender, payload: seq<byte>, fault: Option<nat>): Sender
  {
    var (r, counter, wire) := Sending(c, prefix, s.counter, s.wire, payload, fault);
    Sender(counter, wire, if r == PayloadTooLarge then s.attempts else s.attempts + [Attempt(s.counter, r)])
  }

  /** Counters of successive attempts: the next one up after a success, the same one again after a
      failure. */
  ghost predicate Chained(s: Sender)
  {
    && s.counter < U64_LIMIT
    && (forall i :: 0 <= i < |s.attempts| ==> s.attempts[i].counter < U64_LIMIT)
    && (forall i :: 0 <= i < |s.attempts| - 1 ==> s.attempts[i + 1].counter == After(s.attempts[i]))
    && (s.attempts != [] ==> s.counter == After(s.attempts[|s.attempts| - 1]))
  }

  function After(a: Attempt): nat
  {
    if a.result == Sent then a.counter + 1 else a.counter
  }

  lemma {:induction false} SendAllChained(c: Aead, prefix: seq<byte>, start: Sender, payloads: seq<seq<byte>>,
      faults: seq<Option<nat>>)
    requires |faults| == |payloads| && Chained(start)
    ensures Chained(SendAll(c, prefix, start, payloads, faults))
  {
    if payloads != [] {
      var n := |payloads| - 1;
      SendAllChained(c, prefix, start, payloads[..n], faults[..n]);
    }
  }

  lemma {:induction false} CountersGrow(s: Sender, i: nat, j: nat)
    requires Chained(s) && i < j < |s.attempts|
    ensures s.attempts[i].counter <= s.attempts[j].counter
    ensures s.attempts[i].result == Sent ==> s.attempts[i].counter < s.attempts[j].counter
    decreases j
  {
    assert s.attempts[j].counter == After(s.attempts[j - 1]);
    if i < j - 1 {
      CountersGrow(s, i, j - 1);
    }
  }

  ghost predicate NoncesUnique(prefix: seq<byte>, attempts: seq<Attempt>)
  {
    forall i, j :: 0 <= i < j < |attempts| ==> BuildNonce(prefix, attempts[i].counter) != BuildNonce(prefix, attempts[j].counter)
  }

  /** No failed attempt is followed by another attempt. */
  ghost predicate OnlyLastFails(attempts: seq<Attempt>)
  {
    forall i :: 0 <= i < |attempts| - 1 ==> attempts[i].result == Sent
  }

  /** Over any sends, two that return Ok never share a nonce; and the nonces of all attempts are
      distinct exactly when nothing that fits is sent after a failure. */
  lemma NoncesUniqueIffOnlyLastFails(c: Aead, prefix: seq<byte>, payloads: seq<seq<byte>>, faults: seq<Option<nat>>)
    requires |faults| == |payloads|
    ensures var attempts := SendAll(c, prefix, Sender(0, [], []), payloads, faults).attempts;
            && (NoncesUnique(prefix, attempts) <==> OnlyLastFails(attempts))
            && forall i, j :: 0 <= i < j < |attempts| && attempts[i].result == Sent ==>
                 BuildNonce(prefix, attempts[i].counter) != BuildNonce(prefix, attempts[j].counter)
  {
    var s := SendAll(c, prefix, Sender(0, [], []), payloads, faults);
    SendAllChained(c, prefix, Sender(0, [], []), payloads, faults);
    forall i, j | 0 <= i < j < |s.attempts| && s.attempts[i].result == Sent
      ensures BuildNonce(prefix, s.attempts[i].counter) != BuildNonce(prefix, s.attempts[j].counter)
    {
      CountersGrow(s, i, j);
      if BuildNonce(prefix, s.attempts[i].counter) == BuildNonce(prefix, s.attempts[j].counter) {
        NoncesDistinct(prefix, s.attempts[i].counter, s.attempts[j].counter);
      }
    }
    if !OnlyLastFails(s.attempts) {
      var i :| 0 <= i < |s.attempts| - 1 && s.attempts[i].result != Sent;
      assert s.attempts[i + 1].counter == s.attempts[i].counter;
    }
  }

  /** Such a run: a write fails before its first byte, and the next payload goes out under the same
      nonce. */
  lemma FailedSendLendsItsNonce(c: Aead, prefix: seq<byte>, p: seq<byte>, q: seq<byte>)
    requires |p| <= MAX_FRAME_BYTES && |q| <= MAX_FRAME_BYTES
    ensures SendAll(c, prefix, Sender(0, [], []), [p, q], [Some(0), None]).attempts ==
            [Attempt(0, WriteFailed), Attempt(0, Sent)]
  {
    var start := Sender(0, [], []);
    assert [p, q][..1] == [p] && [Some(0), None][..1] == [Some(0)] && [p][..0] == [] && [Some(0)][..0] == [];
    assert SendAll(c, prefix, start, [p][..0], [Some(0)][..0]) == start;
    assert SendAll(c, prefix, start, [p], [Some(0)]).attempts == [Attempt(0, WriteFailed)];
  }

  /** The payloads that are not refused for their size. */
  function Fitting(payloads: seq<seq<byte>>): (r: seq<seq<byte>>)
    ensures |r| <= |payloads| && forall i :: 0 <= i < |r| ==> |r[i]| <= MAX_FRAME_BYTES
  {
    if payloads == [] then []
    else
      var front, last := Fitting(payloads[..|payloads| - 1]), payloads[|payloads| - 1];
      if |last| <= MAX_FRAME_BYTES then front + [last] else front
  }

  lemma SendOntoSealed(c: Aead, prefix: seq<byte>, sealedSoFar: seq<seq<byte>>, payload: seq<byte>,
      written: Option<nat>)
    requires |payload| <= MAX_FRAME_BYTES
    ensures var (r, counter, wire) :=
              Sending(c, prefix, |sealedSoFar|, Stream(Sealed(c, prefix, sealedSoFar, 0)), payload, written);
            var all := Stream(Sealed(c, prefix, sealedSoFar + [payload], 0));
            wire <= all && (r == Sent ==> wire == all && counter == |sealedSoFar| + 1)
  {
    SealedAppend(c, prefix, sealedSoFar, 0, payload);
    StreamAppend(Sealed(c, prefix, sealedSoFar, 0), c.encrypt(BuildNonce(prefix, |sealedSoFar|), payload));
  }

  ghost predicate AllSent(attempts: seq<Attempt>)
  {
    forall i :: 0 <= i < |attempts| ==> attempts[i].result == Sent
  }

  /** Sends without a failure, except perhaps the last: the wire holds the front of the sealed
      payloads, all of them if nothing failed, and then the counter is their number. */
  lemma {:induction false} WireIsFrontOfSealed(c: Aead, prefix: seq<byte>, payloads: seq<seq<byte>>,
      faults: seq<Option<nat>>)
    requires |faults| == |payloads| < U64_LIMIT
    requires OnlyLastFails(SendAll(c, prefix, Sender(0, [], []), payloads, faults).attempts)
    ensures var s := SendAll(c, prefix, Sender(0, [], []), payloads, faults);
            && |s.attempts| == |Fitting(payloads)|
            && s.wire <= Stream(Sealed(c, prefix, Fitting(payloads), 0))
            && (AllSent(s.attempts) ==>
                  s.wire == Stream(Sealed(c, prefix, Fitting(payloads), 0)) && s.counter == |Fitting(payloads)|)
  {
    if payloads != [] {
      var n := |payloads| - 1;
      var start := Sender(0, [], []);
      var s, t := SendAll(c, prefix, start, payloads[..n], faults[..n]), SendAll(c, prefix, start, payloads, faults);
      assert forall i :: 0 <= i < |s.attempts| ==> s.attempts[i] == t.attempts[i];
      WireIsFrontOfSealed(c, prefix, payloads[..n], faults[..n]);
      if |payloads[n]| <= MAX_FRAME_BYTES {
        assert AllSent(s.attempts);
        SendOntoSealed(c, prefix, Fitting(payloads[..n]), payloads[n], faults[n]);
        assert t.attempts[|s.attempts|] == Attempt(s.counter,
            Sending(c, prefix, s.counter, s.wire, payloads[n], faults[n]).0);
      }
    }
  }

  lemma SendAllOneMore(c: Aead, prefix: seq<byte>, start: Sender, p: seq<seq<byte>>, f: seq<Option<nat>>,
      payload: seq<byte>, fault: Option<nat>)
    requires |f| == |p|
    ensures SendAll(c, prefix, start, p + [payload], f + [fault]) ==
            SendOne(c, prefix, SendAll(c, prefix, start, p, f), payload, fault)
  {
    assert (p + [payload])[..|p|] == p && (f + [fault])[..|p|] == f;
  }

  lemma LastOfSum<T>(p: seq<T>, q: seq<T>)
    requires q != []
    ensures p + q == (p + q[..|q| - 1]) + [q[|q| - 1]]
  {
  }

  lemma {:induction false} SendAllInParts(c: Aead, prefix: seq<byte>, start: Sender, p: seq<seq<byte>>,
      f: seq<Option<nat>>, q: seq<seq<byte>>, g: seq<Option<nat>>)
    requires |f| == |p| && |g| == |q|
    ensures SendAll(c, prefix, start, p + q, f + g) == SendAll(c, prefix, SendAll(c, prefix, start, p, f), q, g)
  {
    if q == [] {
      assert p + q == p && f + g == f;
    } else {
      var n := |q| - 1;
      SendAllInParts(c, prefix, start, p, f, q[..n], g[..n]);
      SendAllOneMore(c, prefix, start, p + q[..n], f + g[..n], q[n], g[n]);
      LastOfSum(p, q);
      LastOfSum(f, g);
    }
  }

  // ---------- receiving ----------

  datatype RecvResult = Plain(payload: seq<byte>) | BadCiphertext | RecvExhausted | NoFrame(why: FrameResult)

  /** One receive call: either no frame is taken and the unreturned bytes stay as they are, or the
      parser's next frame is taken and opened under the current counter, which moves only if the
      payload is handed out. The end of the stream is reported only when no whole frame is left, an
      impossible length only when it comes next. */
  ghost predicate Step(cipher: Aead, prefix: seq<byte>, counter: nat, bytes: seq<byte>,
                       counter': nat, bytes': seq<byte>, r: RecvResult)
  {
    if r.NoFrame? then
      && counter' == counter && bytes' == bytes
      && (r.why.Ended? ==> ParseOne(bytes) == NeedMore)
      && (r.why.Oversize? ==> ParseOne(bytes) == BadLength(r.why.length))
    else
      && ParseOne(bytes).Frame? && bytes' == ParseOne(bytes).rest
      && match cipher.decrypt(BuildNonce(prefix, counter), ParseOne(bytes).body)
         case None => r == BadCiphertext && counter' == counter
         case Some(p) => if counter + 1 == U64_LIMIT then r == RecvExhausted && counter' == counter
                         else r == Plain(p) && counter' == counter + 1
  }

  /** What is still due to a receiver at `counter`: the sealed frames of the payloads not yet
      received, cut short anywhere. */
  ghost predicate Expecting(cipher: Aead, prefix: seq<byte>, counter: nat, bytes: seq<byte>, due: seq<seq<byte>>)
  {
    && (forall i :: 0 <= i < |due| ==> |due[i]| <= MAX_FRAME_BYTES)
    && bytes <= Stream(Sealed(cipher, prefix, due, counter))
  }

  lemma StepDeliversNext(cipher: Aead, prefix: seq<byte>, counter: nat, bytes: seq<byte>, due: seq<seq<byte>>,
                         counter': nat, bytes': seq<byte>, r: RecvResult)
    requires Lawful(cipher) && Expecting(cipher, prefix, counter, bytes, due) && counter + |due| < U64_LIMIT
    requires Step(cipher, prefix, counter, bytes, counter', bytes', r)
    ensures r.NoFrame? || r.Plain?
    ensures r.NoFrame? ==> counter' == counter && Expecting(cipher, prefix, counter', bytes', due)
    ensures r.Plain? ==> due != [] && r.payload == due[0] && counter' == counter + 1
                         && Expecting(cipher, prefix, counter', bytes', due[1..])
  {
    if !r.NoFrame? && due != [] {
      var body := cipher.encrypt(BuildNonce(prefix, counter), due[0]);
      var rest := Stream(Sealed(cipher, prefix, due[1..], counter + 1));
      assert Sealed(cipher, prefix, due, counter)[1..] == Sealed(cipher, prefix, due[1..], counter + 1);
      ParseOneInvertsPrefix(body, rest);
      ParseOneOfPrefix(bytes, Prefixed(body) + rest);
    }
  }

  /** An authenticated wire: the frames on it may be repeated, reordered, dropped or made up, but
      whatever opens under some nonce was sealed by the sender under that nonce. */
  ghost predicate Unforged(cipher: Aead, prefix: seq<byte>, bytes: seq<byte>, sent: seq<seq<byte>>)
  {
    forall body, n: Nonce {:trigger cipher.decrypt(n, body)} :: body in ParseAll(bytes) && cipher.decrypt(n, body).Some? ==>
      exists i :: 0 <= i < |sent| && n == BuildNonce(prefix, i) && body == cipher.encrypt(n, sent[i])
  }

  /** On such a wire a frame opens exactly when it is the sender's next one; a replayed or reordered
      frame is reported and the counter stays. */
  lemma OnlyTheNextFrameOpens(cipher: Aead, prefix: seq<byte>, counter: nat, bytes: seq<byte>, sent: seq<seq<byte>>,
                              counter': nat, bytes': seq<byte>, r: RecvResult)
    requires Lawful(cipher) && Unforged(cipher, prefix, bytes, sent) && |sent| < U64_LIMIT && counter + 1 < U64_LIMIT
    requires Step(cipher, prefix, counter, bytes, counter', bytes', r)
    ensures Unforged(cipher, prefix, bytes', sent)
    ensures !r.NoFrame? ==>
              if counter < |sent| && ParseOne(bytes).body == cipher.encrypt(BuildNonce(prefix, counter), sent[counter])
              then r == Plain(sent[counter]) else r == BadCiphertext && counter' == counter
  {
    if !r.NoFrame? {
      var body, n := ParseOne(bytes).body, BuildNonce(prefix, counter);
      assert ParseAll(bytes) == [body] + ParseAll(bytes');
      if cipher.decrypt(n, body).Some? {
        var i :| 0 <= i < |sent| && n == BuildNonce(prefix, i) && body == cipher.encrypt(n, sent[i]);
        NoncesDistinct(prefix, i, counter);
      }
    }
  }

  // ---------- any number of receives ----------

  function CounterAfter(counter: nat, r: RecvResult): nat
  {
    if r.Plain? then counter + 1 else counter
  }

  function BytesAfter(bytes: seq<byte>, r: RecvResult): seq<byte>
  {
    if r.NoFrame? || !ParseOne(bytes).Frame? then bytes else ParseOne(bytes).rest
  }

  /** Successive receives on one stream of bytes, going on after errors too. */
  ghost predicate Steps(cipher: Aead, prefix: seq<byte>, counter: nat, bytes: seq<byte>, rs: seq<RecvResult>)
    decreases |rs|
  {
    rs == [] ||
    var c, b := CounterAfter(counter, rs[0]), BytesAfter(bytes, rs[0]);
    Step(cipher, prefix, counter, bytes, c, b, rs[0]) && Steps(cipher, prefix, c, b, rs[1..])
  }

  /** Where successive receives leave the counter and the bytes. */
  ghost function EndOf(counter: nat, bytes: seq<byte>, rs: seq<RecvResult>): (nat, seq<byte>)
    decreases |rs|
  {
    if rs == [] then (counter, bytes) else EndOf(CounterAfter(counter, rs[0]), BytesAfter(bytes, rs[0]), rs[1..])
  }

  function Payloads(rs: seq<RecvResult>): seq<seq<byte>>
    decreases |rs|
  {
    if rs == [] then [] else (if rs[0].Plain? then [rs[0].payload] else []) + Payloads(rs[1..])
  }

  lemma TailOfSum(a: seq<RecvResult>, b: seq<RecvResult>)
    requires a != []
    ensures a + b != [] && (a + b)[0] == a[0] && (a + b)[1..] == a[1..] + b
  {
  }

  /** A receive that comes back without a frame only when none is there. */
  ghost predicate Prompt(bytes: seq<byte>, r: RecvResult)
  {
    r.NoFrame? ==> !ParseOne(bytes).Frame?
  }

  ghost predicate AllPrompt(bytes: seq<byte>, rs: seq<RecvResult>)
    decreases |rs|
  {
    rs == [] || (Prompt(bytes, rs[0]) && AllPrompt(BytesAfter(bytes, rs[0]), rs[1..]))
  }

  lemma {:induction false} PromptInParts(counter: nat, bytes: seq<byte>, a: seq<RecvResult>, b: seq<RecvResult>)
    requires AllPrompt(bytes, a) && AllPrompt(EndOf(counter, bytes, a).1, b)
    ensures AllPrompt(bytes, a + b)
    decreases |a|
  {
    if a == [] {
      assert a + b == b;
    } else {
      PromptInParts(CounterAfter(counter, a[0]), BytesAfter(bytes, a[0]), a[1..], b);
      TailOfSum(a, b);
    }
  }

  lemma {:induction false} EndInParts(counter: nat, bytes: seq<byte>, a: seq<RecvResult>, b: seq<RecvResult>)
    ensures EndOf(counter, bytes, a + b) == EndOf(EndOf(counter, bytes, a).0, EndOf(counter, bytes, a).1, b)
    decreases |a|
  {
    if a == [] {
      assert a + b == b;
    } else {
      EndInParts(CounterAfter(counter, a[0]), BytesAfter(bytes, a[0]), a[1..], b);
      TailOfSum(a, b);
    }
  }

  lemma {:induction false} StepsInParts(cipher: Aead, prefix: seq<byte>, counter: nat, bytes: seq<byte>,
      a: seq<RecvResult>, b: seq<RecvResult>)
    requires Steps(cipher, prefix, counter, bytes, a)
    requires Steps(cipher, prefix, EndOf(counter, bytes, a).0, EndOf(counter, bytes, a).1, b)
    ensures Steps(cipher, prefix, counter, bytes, a + b)
    decreases |a|
  {
    if a == [] {
      assert a + b == b;
    } else {
      StepsInParts(cipher, prefix, CounterAfter(counter, a[0]), BytesAfter(bytes, a[0]), a[1..], b);
      TailOfSum(a, b);
    }
  }

  lemma StepIsDetermined(cipher: Aead, prefix: seq<byte>, counter: nat, bytes: seq<byte>, counter': nat,
      bytes': seq<byte>, r: RecvResult)
    requires Step(cipher, prefix, counter, bytes, counter', bytes', r)
    ensures counter' == CounterAfter(counter, r) && bytes' == BytesAfter(bytes, r)
  {
  }

  lemma FirstReceive(cipher: Aead, prefix: seq<byte>, counter: nat, bytes: seq<byte>, rs: seq<RecvResult>)
    requires rs != [] && Steps(cipher, prefix, counter, bytes, rs)
    ensures Step(cipher, prefix, counter, bytes, CounterAfter(counter, rs[0]), BytesAfter(bytes, rs[0]), rs[0])
    ensures Steps(cipher, prefix, CounterAfter(counter, rs[0]), BytesAfter(bytes, rs[0]), rs[1..])
    ensures Payloads(rs) == (if rs[0].Plain? then [rs[0].payload] else []) + Payloads(rs[1..])
  {
  }

  lemma FrontGrows(first: seq<byte>, rest: seq<seq<byte>>, due: seq<seq<byte>>)
    requires due != [] && first == due[0] && rest <= due[1..]
    ensures [first] + rest <= due
  {
    assert due == [due[0]] + due[1..];
  }

  /** On an honest wire, cut short anywhere, what is handed out is the front of what is due. */
  lemma {:induction false} HonestWireDeliversFront(
    cipher: Aead, prefix: seq<byte>, counter: nat, bytes: seq<byte>, due: seq<seq<byte>>, rs: seq<RecvResult>)
    requires Lawful(cipher) && Expecting(cipher, prefix, counter, bytes, due) && counter + |due| < U64_LIMIT
    requires Steps(cipher, prefix, counter, bytes, rs)
    ensures Payloads(rs) <= due && EndOf(counter, bytes, rs).0 == counter + |Payloads(rs)|
    ensures forall i :: 0 <= i < |rs| ==> rs[i].Plain? || rs[i].NoFrame?
    decreases |rs|
  {
    if rs != [] {
      var r, c, b := rs[0], CounterAfter(counter, rs[0]), BytesAfter(bytes, rs[0]);
      FirstReceive(cipher, prefix, counter, bytes, rs);
      StepDeliversNext(cipher, prefix, counter, bytes, due, c, b, r);
      HonestWireDeliversFront(cipher, prefix, c, b, if r.Plain? then due[1..] else due, rs[1..]);
      if r.Plain? {
        FrontGrows(r.payload, Payloads(rs[1..]), due);
      } else {
        assert [] + Payloads(rs[1..]) == Payloads(rs[1..]);
      }
    }
  }

  /** On a whole honest wire, a receiver that has been told of the end has handed out everything. */
  lemma {:induction false} EndedMeansAllDelivered(
    cipher: Aead, prefix: seq<byte>, counter: nat, bytes: seq<byte>, due: seq<seq<byte>>, rs: seq<RecvResult>)
    requires Lawful(cipher) && Expecting(cipher, prefix, counter, bytes, due) && counter + |due| < U64_LIMIT
    requires bytes == Stream(Sealed(cipher, prefix, due, counter)) && Steps(cipher, prefix, counter, bytes, rs)
    requires NoFrame(Ended) in rs
    ensures Payloads(rs) == due
    decreases |rs|
  {
    var r, c, b := rs[0], CounterAfter(counter, rs[0]), BytesAfter(bytes, rs[0]);
    FirstReceive(cipher, prefix, counter, bytes, rs);
    StepDeliversNext(cipher, prefix, counter, bytes, due, c, b, r);
    if due != [] {
      WholeWireHasNext(cipher, prefix, counter, due);
      EndedMeansAllDelivered(cipher, prefix, c, b, if r.Plain? then due[1..] else due, rs[1..]);
      assert r.Plain? ==> due == [due[0]] + due[1..];
      assert !r.Plain? ==> [] + Payloads(rs[1..]) == Payloads(rs[1..]);
    } else {
      HonestWireDeliversFront(cipher, prefix, counter, bytes, due, rs);
    }
  }

  lemma PromptTakesNext(cipher: Aead, prefix: seq<byte>, counter: nat, bytes: seq<byte>, due: seq<seq<byte>>,
                        counter': nat, bytes': seq<byte>, r: RecvResult)
    requires Lawful(cipher) && Expecting(cipher, prefix, counter, bytes, due) && counter + |due| < U64_LIMIT && due != []
    requires bytes == Stream(Sealed(cipher, prefix, due, counter)) && Prompt(bytes, r)
    requires Step(cipher, prefix, counter, bytes, counter', bytes', r)
    ensures r.Plain? && r.payload == due[0] && counter' == counter + 1
    ensures Expecting(cipher, prefix, counter', bytes', due[1..])
    ensures bytes' == Stream(Sealed(cipher, prefix, due[1..], counter'))
  {
    WholeWireHasNext(cipher, prefix, counter, due);
    StepDeliversNext(cipher, prefix, counter, bytes, due, counter', bytes', r);
  }

  /** On a whole honest wire, prompt receives hand out everything, one payload each. */
  lemma {:induction false} PromptReceivesDeliverAll(
    cipher: Aead, prefix: seq<byte>, counter: nat, bytes: seq<byte>, due: seq<seq<byte>>, rs: seq<RecvResult>)
    requires Lawful(cipher) && Expecting(cipher, prefix, counter, bytes, due) && counter + |due| < U64_LIMIT
    requires bytes == Stream(Sealed(cipher, prefix, due, counter)) && Steps(cipher, prefix, counter, bytes, rs)
    requires AllPrompt(bytes, rs) && |rs| >= |due|
    ensures Payloads(rs) == due
    decreases |rs|
  {
    if due == [] {
      HonestWireDeliversFront(cipher, prefix, counter, bytes, due, rs);
    } else {
      var c, b := CounterAfter(counter, rs[0]), BytesAfter(bytes, rs[0]);
      FirstReceive(cipher, prefix, counter, bytes, rs);
      PromptTakesNext(cipher, prefix, counter, bytes, due, c, b, rs[0]);
      PromptReceivesDeliverAll(cipher, prefix, c, b, due[1..], rs[1..]);
      assert due == [due[0]] + due[1..];
    }
  }

  lemma WholeWireHasNext(cipher: Aead, prefix: seq<byte>, counter: nat, due: seq<seq<byte>>)
    requires Lawful(cipher) && due != [] && |due[0]| <= MAX_FRAME_BYTES
    ensures ParseOne(Stream(Sealed(cipher, prefix, due, counter))) ==
            Frame(cipher.encrypt(BuildNonce(prefix, counter), due[0]),
                Stream(Sealed(cipher, prefix, due[1..], counter + 1)))
  {
    assert Sealed(cipher, prefix, due, counter)[1..] == Sealed(cipher, prefix, due[1..], counter + 1);
    ParseOneInvertsPrefix(cipher.encrypt(BuildNonce(prefix, counter), due[0]),
        Stream(Sealed(cipher, prefix, due[1..], counter + 1)));
  }

  /** On any wire without forgeries, whatever is repeated, reordered, dropped or inserted, what is
      handed out is the front of what was sent. */
  lemma {:induction false} AnyWireDeliversFront(
    cipher: Aead, prefix: seq<byte>, counter: nat, bytes: seq<byte>, sent: seq<seq<byte>>, rs: seq<RecvResult>)
    requires Lawful(cipher) && Unforged(cipher, prefix, bytes, sent) && counter <= |sent| < U64_LIMIT - 1
    requires Steps(cipher, prefix, counter, bytes, rs)
    ensures Payloads(rs) <= sent[counter..] && EndOf(counter, bytes, rs).0 == counter + |Payloads(rs)|
    decreases |rs|
  {
    if rs != [] {
      var r, c, b := rs[0], CounterAfter(counter, rs[0]), BytesAfter(bytes, rs[0]);
      FirstReceive(cipher, prefix, counter, bytes, rs);
      OnlyTheNextFrameOpens(cipher, prefix, counter, bytes, sent, c, b, r);
      AnyWireDeliversFront(cipher, prefix, c, b, sent, rs[1..]);
      if r.Plain? {
        assert sent[counter..][0] == sent[counter] && sent[counter..][1..] == sent[c..];
        FrontGrows(r.payload, Payloads(rs[1..]), sent[counter..]);
      } else {
        assert [] + Payloads(rs[1..]) == Payloads(rs[1..]);
      }
    }
  }

  lemma OneMore(cipher: Aead, prefix: seq<byte>, counter: nat, bytes: seq<byte>, rs: seq<RecvResult>,
                c: nat, b: seq<byte>, c': nat, b': seq<byte>, r: RecvResult)
    requires Steps(cipher, prefix, counter, bytes, rs) && (c, b) == EndOf(counter, bytes, rs)
    requires Step(cipher, prefix, c, b, c', b', r)
    ensures Steps(cipher, prefix, counter, bytes, rs + [r]) && (c', b') == EndOf(counter, bytes, rs + [r])
    ensures AllPrompt(bytes, rs) && Prompt(b, r) ==> AllPrompt(bytes, rs + [r])
  {
    if AllPrompt(bytes, rs) && Prompt(b, r) {
      assert AllPrompt(BytesAfter(b, r), [r][1..]);
      PromptInParts(counter, bytes, rs, [r]);
    }
    StepIsDetermined(cipher, prefix, c, b, c', b', r);
    assert Steps(cipher, prefix, c', b', [r][1..]) && EndOf(c', b', [r][1..]) == (c', b');
    EndInParts(counter, bytes, rs, [r]);
    StepsInParts(cipher, prefix, counter, bytes, rs, [r]);
  }

  // ---------- a lawful cipher ----------

  /** A tag that tells nonces of twelve bytes apart, and those from all others. */
  function Tag(n: Nonce): (t: seq<byte>)
    ensures |t| == TAG_BYTES
  {
    if |n| == 12 then n + [0, 0, 0, 1] else seq(TAG_BYTES, _ => 2)
  }

  function SealOpenly(n: Nonce, p: seq<byte>): seq<byte>
  {
    Tag(n) + p
  }

  function Unseal(n: Nonce, c: seq<byte>): Option<seq<byte>>
  {
    if |c| >= TAG_BYTES && c[..TAG_BYTES] == Tag(n) then Some(c[TAG_BYTES..]) else None
  }

  function OpenCipher(): Aead
  {
    Aead(SealOpenly, Unseal)
  }

  lemma OpenCipherLawful()
    ensures Lawful(OpenCipher())
  {
    var c := OpenCipher();
    forall n: Nonce, p: seq<byte>
      ensures |c.encrypt(n, p)| == |p| + TAG_BYTES && c.decrypt(n, c.encrypt(n, p)) == Some(p)
    {
      var s := Tag(n) + p;
      assert s[..TAG_BYTES] == Tag(n) && s[TAG_BYTES..] == p;
    }
  }

  lemma TagTellsNoncesApart(n: Nonce, m: Nonce)
    requires Tag(n) == Tag(m) && |m| == 12
    ensures n == m
  {
    assert Tag(m)[15] == 1 && Tag(n)[15] == if |n| == 12 then 1 else 2;
    assert n == Tag(n)[..12] && m == Tag(m)[..12];
  }

  /** The laws of the cipher and of the wire go together: for one cipher, every wire made of the
      sender's frames, repeated and reordered at will, is without forgeries. */
  lemma ReplayedWireIsUnforged(prefix: seq<byte>, sent: seq<seq<byte>>, picks: seq<nat>)
    requires |prefix| == 4 && forall i :: 0 <= i < |sent| ==> |sent[i]| <= MAX_FRAME_BYTES
    requires forall k :: 0 <= k < |picks| ==> picks[k] < |sent|
    ensures Lawful(OpenCipher())
    ensures Unforged(OpenCipher(), prefix, Stream(Picked(prefix, sent, picks)), sent)
  {
    var c, frames := OpenCipher(), Picked(prefix, sent, picks);
    OpenCipherLawful();
    assert forall k :: 0 <= k < |frames| ==> LengthInRange(|frames[k]|);
    ParseAllInvertsStream(frames, []);
    assert Stream(frames) + [] == Stream(frames) && ParseAll([]) == [];
    forall body, n: Nonce | body in ParseAll(Stream(frames)) && c.decrypt(n, body).Some?
      ensures exists i :: 0 <= i < |sent| && n == BuildNonce(prefix, i) && body == c.encrypt(n, sent[i])
    {
      var k :| 0 <= k < |frames| && body == frames[k];
      var i := picks[k];
      assert body[..TAG_BYTES] == Tag(BuildNonce(prefix, i));
      TagTellsNoncesApart(n, BuildNonce(prefix, i));
    }
  }

  /** Some of the sender's frames, in any order and number. */
  function Picked(prefix: seq<byte>, sent: seq<seq<byte>>, picks: seq<nat>): seq<seq<byte>>
    requires forall k :: 0 <= k < |picks| ==> picks[k] < |sent|
  {
    seq(|picks|, k requires 0 <= k < |picks| => SealOpenly(BuildNonce(prefix, picks[k]), sent[picks[k]]))
  }
}
