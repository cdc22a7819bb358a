/** The encrypted stream over a socket, and the read and write halves it splits into. */
module CipherStreams {
  import opened Configuration
  import opened Bytes
  import opened Framing
  import opened Channel

  /** The outgoing side of the socket: everything written so far. */
  class Outlet {
    var data: seq<byte>

    constructor ()
      ensures data == []
    {
      data := [];
    }

    method Write(bytes: seq<byte>)
      modifies this
      ensures data == old(data) + bytes
    {
      data := data + bytes;
    }
  }

  class CipherWriter {
    const cipher: Aead
    const prefix: seq<byte>
    const outlet: Outlet
    var counter: nat

    constructor (cipher: Aead, prefix: seq<byte>, outlet: Outlet, counter: nat)
      ensures this.cipher == cipher && this.prefix == prefix && this.outlet == outlet && this.counter == counter
    {
      this.cipher, this.prefix, this.outlet, this.counter := cipher, prefix, outlet, counter;
    }

    method Send(payload: seq<byte>, written: Option<nat>) returns (r: SendResult)
      requires counter < U64_LIMIT
      modifies this, outlet
      ensures (r, counter, outlet.data) == Sending(cipher, prefix, old(counter), old(outlet.data), payload, written)
    {
      if |payload| > MAX_FRAME_BYTES {
        return PayloadTooLarge;
      }
      var ciphertext := cipher.encrypt(BuildNonce(prefix, counter), payload);
      r := WriteFrame(outlet, ciphertext, written);
      if r != Sent {
        return;
      }
      if counter + 1 == U64_LIMIT {
        return NonceExhausted;
      }
      counter := counter + 1;
    }
  }

  /** Length and ciphertext go out one after the other, unless the write stops short. */
  method WriteFrame(outlet: Outlet, ciphertext: seq<byte>, written: Option<nat>) returns (r: SendResult)
    modifies outlet
    ensures r == if written.Some? then WriteFailed else Sent
    ensures var frame := Prefixed(ciphertext);
            outlet.data == old(outlet.data)
              + if written.Some? then frame[..if written.value <= |frame| then written.value else |frame|] else frame
  {
    var length := BigEndian(|ciphertext|, 4);
    if written.Some? {
      var n := written.value;
      var frame := length + ciphertext;
      outlet.Write(frame[..if n <= |frame| then n else |frame|]);
      return WriteFailed;
    }
    outlet.Write(length);
    outlet.Write(ciphertext);
    assert outlet.data == old(outlet.data) + Prefixed(ciphertext);
    return Sent;
  }

  class CipherReader {
    const cipher: Aead
    const prefix: seq<byte>
    const frame: PendingFrame
    var counter: nat

    constructor (cipher: Aead, prefix: seq<byte>, frame: PendingFrame, counter: nat)
      ensures this.cipher == cipher && this.prefix == prefix && this.frame == frame && this.counter == counter
    {
      this.cipher, this.prefix, this.frame, this.counter := cipher, prefix, frame, counter;
    }

    method Recv(source: Source) returns (r: RecvResult)
      requires frame.Valid()
      modifies this, frame, frame.header, source
      ensures frame.Valid()
      ensures Step(cipher, prefix, old(counter), old(frame.Buffered() + source.data),
                   counter, frame.Buffered() + source.data, r)
      ensures old(source.Steady()) ==> source.Steady() && Prompt(old(frame.Buffered() + source.data), r)
    {
      ghost var bytes := frame.Buffered() + source.data;
      var f := frame.Read(source);
      if !f.Received? {
        NothingTaken(frame.Buffered(), source.data, f);
        if old(source.Steady()) {
          SteadyReadTakesFrame(bytes, frame.Buffered(), source.data, f);
        }
        return NoFrame(f);
      }
      assert frame.Buffered() + source.data == source.data;
      var plain := cipher.decrypt(BuildNonce(prefix, counter), f.body);
      if plain.None? {
        return BadCiphertext;
      }
      if counter + 1 == U64_LIMIT {
        return RecvExhausted;
      }
      counter := counter + 1;
      return Plain(plain.value);
    }
  }

  // ---------- the stream and its halves ----------

  /** The whole stream, before it is split. */
  class CipherStream {
    const sendCipher: Aead
    const recvCipher: Aead
    const sendPrefix: seq<byte>
    const recvPrefix: seq<byte>
    const outlet: Outlet
    const recvFrame: PendingFrame
    var sendCounter: nat
    var recvCounter: nat

    constructor (outlet: Outlet, sendCipher: Aead, recvCipher: Aead, sendPrefix: seq<byte>, recvPrefix: seq<byte>)
      ensures this.sendCipher == sendCipher && this.recvCipher == recvCipher
      ensures this.sendPrefix == sendPrefix && this.recvPrefix == recvPrefix
      ensures this.outlet == outlet && sendCounter == 0 && recvCounter == 0
      ensures fresh(recvFrame) && fresh(recvFrame.header) && recvFrame.Valid() && recvFrame.Buffered() == []
    {
      this.outlet, this.sendCipher, this.recvCipher := outlet, sendCipher, recvCipher;
      this.sendPrefix, this.recvPrefix, sendCounter, recvCounter := sendPrefix, recvPrefix, 0, 0;
      recvFrame := new PendingFrame();
    }

    method Send(payload: seq<byte>, written: Option<nat>) returns (r: SendResult)
      requires sendCounter < U64_LIMIT
      modifies this, outlet
      ensures (r, sendCounter, outlet.data) == Sending(sendCipher, sendPrefix, old(sendCounter), old(outlet.data),
              payload, written)
      ensures recvCounter == old(recvCounter)
    {
      if |payload| > MAX_FRAME_BYTES {
        return PayloadTooLarge;
      }
      var ciphertext := sendCipher.encrypt(BuildNonce(sendPrefix, sendCounter), payload);
      r := WriteFrame(outlet, ciphertext, written);
      if r != Sent {
        return;
      }
      if sendCounter + 1 == U64_LIMIT {
        return NonceExhausted;
      }
      sendCounter := sendCounter + 1;
    }

    method Recv(source: Source) returns (r: RecvResult)
      requires recvFrame.Valid()
      modifies this, recvFrame, recvFrame.header, source
      ensures recvFrame.Valid() && sendCounter == old(sendCounter)
      ensures Step(recvCipher, recvPrefix, old(recvCounter), old(recvFrame.Buffered() + source.data),
                   recvCounter, recvFrame.Buffered() + source.data, r)
      ensures old(source.Steady()) ==> source.Steady() && Prompt(old(recvFrame.Buffered() + source.data), r)
    {
      ghost var bytes := recvFrame.Buffered() + source.data;
      var f := recvFrame.Read(source);
      if !f.Received? {
        NothingTaken(recvFrame.Buffered(), source.data, f);
        if old(source.Steady()) {
          SteadyReadTakesFrame(bytes, recvFrame.Buffered(), source.data, f);
        }
        return NoFrame(f);
      }
      assert recvFrame.Buffered() + source.data == source.data;
      var plain := recvCipher.decrypt(BuildNonce(recvPrefix, recvCounter), f.body);
      if plain.None? {
        return BadCiphertext;
      }
      if recvCounter + 1 == U64_LIMIT {
        return RecvExhausted;
      }
      recvCounter := recvCounter + 1;
      return Plain(plain.value);
    }

    /** Each half takes over its direction's cipher, prefix and counter, the read half also the
        partly read frame. */
    method Split() returns (reader: CipherReader, writer: CipherWriter)
      ensures fresh(reader) && reader.frame == recvFrame && reader.counter == recvCounter
      ensures reader.cipher == recvCipher && reader.prefix == recvPrefix
      ensures fresh(writer) && writer.outlet == outlet && writer.counter == sendCounter
      ensures writer.cipher == sendCipher && writer.prefix == sendPrefix
    {
      reader := new CipherReader(recvCipher, recvPrefix, recvFrame, recvCounter);
      writer := new CipherWriter(sendCipher, sendPrefix, outlet, sendCounter);
    }
  }

  // ---------- whole conversations ----------

  /** Some number of sends on the unsplit stream, after the attempts `prior`. */
  method SendWhole(stream: CipherStream, payloads: seq<seq<byte>>, faults: seq<Option<nat>>, prior: seq<Attempt>)
    returns (attempts: seq<Attempt>)
    requires |faults| == |payloads| && stream.sendCounter < U64_LIMIT
    modifies stream, stream.outlet
    ensures stream.recvCounter == old(stream.recvCounter) && stream.sendCounter < U64_LIMIT
    ensures Sender(stream.sendCounter, stream.outlet.data, attempts) ==
            SendAll(stream.sendCipher, stream.sendPrefix,
                Sender(old(stream.sendCounter), old(stream.outlet.data), prior), payloads, faults)
  {
    ghost var start := Sender(stream.sendCounter, stream.outlet.data, prior);
    attempts := prior;
    for i := 0 to |payloads|
      invariant stream.recvCounter == old(stream.recvCounter) && stream.sendCounter < U64_LIMIT
      invariant Sender(stream.sendCounter, stream.outlet.data, attempts) ==
                SendAll(stream.sendCipher, stream.sendPrefix, start, payloads[..i], faults[..i])
    {
      assert payloads[..i + 1][..i] == payloads[..i] && faults[..i + 1][..i] == faults[..i];
      var c := stream.sendCounter;
      var r := stream.Send(payloads[i], faults[i]);
      if r != PayloadTooLarge {
        attempts := attempts + [Attempt(c, r)];
      }
    }
    assert payloads[..|payloads|] == payloads && faults[..|payloads|] == faults;
  }

  /** Some number of sends on the write half. */
  method SendHalf(writer: CipherWriter, payloads: seq<seq<byte>>, faults: seq<Option<nat>>, prior: seq<Attempt>)
    returns (attempts: seq<Attempt>)
    requires |faults| == |payloads| && writer.counter < U64_LIMIT
    modifies writer, writer.outlet
    ensures Sender(writer.counter, writer.outlet.data, attempts) ==
            SendAll(writer.cipher, writer.prefix, Sender(old(writer.counter), old(writer.outlet.data), prior),
                payloads, faults)
  {
    ghost var start := Sender(writer.counter, writer.outlet.data, prior);
    attempts := prior;
    for i := 0 to |payloads|
      invariant writer.counter < U64_LIMIT
      invariant Sender(writer.counter, writer.outlet.data, attempts) ==
                SendAll(writer.cipher, writer.prefix, start, payloads[..i], faults[..i])
    {
      assert payloads[..i + 1][..i] == payloads[..i] && faults[..i + 1][..i] == faults[..i];
      var c := writer.counter;
      var r := writer.Send(payloads[i], faults[i]);
      if r != PayloadTooLarge {
        attempts := attempts + [Attempt(c, r)];
      }
    }
    assert payloads[..|payloads|] == payloads && faults[..|payloads|] == faults;
  }

  /** Sends before and after a split: counter, wire and attempts are as if there had been none. */
  method SendAcrossSplit(stream: CipherStream, payloads: seq<seq<byte>>, faults: seq<Option<nat>>, splitAt: nat)
    returns (attempts: seq<Attempt>, writer: CipherWriter)
    requires |faults| == |payloads| && splitAt <= |payloads| && stream.sendCounter < U64_LIMIT
    modifies stream, stream.outlet
    ensures writer.outlet == stream.outlet
    ensures Sender(writer.counter, writer.outlet.data, attempts) ==
            SendAll(stream.sendCipher, stream.sendPrefix, Sender(old(stream.sendCounter), old(stream.outlet.data), []),
                payloads, faults)
  {
    ghost var start := Sender(stream.sendCounter, stream.outlet.data, []);
    attempts := SendWhole(stream, payloads[..splitAt], faults[..splitAt], []);
    var reader;
    reader, writer := stream.Split();
    attempts := SendHalf(writer, payloads[splitAt..], faults[splitAt..], attempts);
    SendAllInParts(stream.sendCipher, stream.sendPrefix, start, payloads[..splitAt], faults[..splitAt],
                   payloads[splitAt..], faults[splitAt..]);
    assert payloads[..splitAt] + payloads[splitAt..] == payloads && faults[..splitAt] + faults[splitAt..] == faults;
  }

  /** Some number of receives on the unsplit stream. */
  method ReceiveWhole(stream: CipherStream, source: Source, calls: nat) returns (rs: seq<RecvResult>)
    requires stream.recvFrame.Valid()
    modifies stream, stream.recvFrame, stream.recvFrame.header, source
    ensures stream.recvFrame.Valid()
    ensures Steps(stream.recvCipher, stream.recvPrefix, old(stream.recvCounter),
            old(stream.recvFrame.Buffered() + source.data), rs)
    ensures (stream.recvCounter, stream.recvFrame.Buffered() + source.data) ==
            EndOf(old(stream.recvCounter), old(stream.recvFrame.Buffered() + source.data), rs)
    ensures |rs| == calls
    ensures old(source.Steady()) ==> source.Steady() && AllPrompt(old(stream.recvFrame.Buffered() + source.data), rs)
  {
    ghost var counter, bytes := stream.recvCounter, stream.recvFrame.Buffered() + source.data;
    rs := [];
    for i := 0 to calls
      invariant |rs| == i && (old(source.Steady()) ==> source.Steady() && AllPrompt(bytes, rs))
      invariant stream.recvFrame.Valid()
      invariant Steps(stream.recvCipher, stream.recvPrefix, counter, bytes, rs)
      invariant (stream.recvCounter, stream.recvFrame.Buffered() + source.data) == EndOf(counter, bytes, rs)
    {
      ghost var c, b := stream.recvCounter, stream.recvFrame.Buffered() + source.data;
      var r := stream.Recv(source);
      OneMore(stream.recvCipher, stream.recvPrefix, counter, bytes, rs, c, b, stream.recvCounter,
              stream.recvFrame.Buffered() + source.data, r);
      rs := rs + [r];
    }
  }

  /** Some number of receives on the read half. */
  method ReceiveHalf(reader: CipherReader, source: Source, calls: nat) returns (rs: seq<RecvResult>)
    requires reader.frame.Valid()
    modifies reader, reader.frame, reader.frame.header, source
    ensures reader.frame.Valid()
    ensures Steps(reader.cipher, reader.prefix, old(reader.counter), old(reader.frame.Buffered() + source.data), rs)
    ensures (reader.counter, reader.frame.Buffered() + source.data) ==
            EndOf(old(reader.counter), old(reader.frame.Buffered() + source.data), rs)
    ensures |rs| == calls
    ensures old(source.Steady()) ==> source.Steady() && AllPrompt(old(reader.frame.Buffered() + source.data), rs)
  {
    ghost var counter, bytes := reader.counter, reader.frame.Buffered() + source.data;
    rs := [];
    for i := 0 to calls
      invariant |rs| == i && (old(source.Steady()) ==> source.Steady() && AllPrompt(bytes, rs))
      invariant reader.frame.Valid()
      invariant Steps(reader.cipher, reader.prefix, counter, bytes, rs)
      invariant (reader.counter, reader.frame.Buffered() + source.data) == EndOf(counter, bytes, rs)
    {
      ghost var c, b := reader.counter, reader.frame.Buffered() + source.data;
      var r := reader.Recv(source);
      OneMore(reader.cipher, reader.prefix, counter, bytes, rs, c, b, reader.counter,
          reader.frame.Buffered() + source.data, r);
      rs := rs + [r];
    }
  }

  /** Receives before and after a split, which may fall inside a frame: they are one sequence of
      receives on one stream of bytes. */
  method ReceiveAcrossSplit(stream: CipherStream, source: Source, before: nat, after: nat)
    returns (rs: seq<RecvResult>, reader: CipherReader)
    requires stream.recvFrame.Valid()
    modifies stream, stream.recvFrame, stream.recvFrame.header, source
    ensures reader.frame.Valid() && reader.frame == stream.recvFrame
    ensures Steps(stream.recvCipher, stream.recvPrefix, old(stream.recvCounter),
            old(stream.recvFrame.Buffered() + source.data), rs)
    ensures (reader.counter, reader.frame.Buffered() + source.data) ==
            EndOf(old(stream.recvCounter), old(stream.recvFrame.Buffered() + source.data), rs)
    ensures |rs| == before + after
    ensures old(source.Steady()) ==> AllPrompt(old(stream.recvFrame.Buffered() + source.data), rs)
  {
    ghost var counter, bytes := stream.recvCounter, stream.recvFrame.Buffered() + source.data;
    var first := ReceiveWhole(stream, source, before);
    var writer;
    reader, writer := stream.Split();
    var second := ReceiveHalf(reader, source, after);
    EndInParts(counter, bytes, first, second);
    StepsInParts(stream.recvCipher, stream.recvPrefix, counter, bytes, first, second);
    if old(source.Steady()) {
      PromptInParts(counter, bytes, first, second);
    }
    rs := first + second;
  }

  /** A whole conversation in one direction: any payloads, any sends failing, any cutting of the
      stream into reads with any of them abandoned, and a split of either end anywhere. Unless
      something was sent after a failure, what arrives is the front of what was sent. It is all of it
      if nothing failed and either the receiver was told of the end, or the network kept delivering
      and the receiver asked often enough. */
  method Conversation(cipher: Aead, prefix: seq<byte>, back: Aead, backPrefix: seq<byte>, payloads: seq<seq<byte>>,
                      faults: seq<Option<nat>>, senderSplit: nat, plan: seq<Decision>, before: nat, after: nat)
    returns (got: seq<seq<byte>>, attempts: seq<Attempt>, ended: bool)
    requires Lawful(cipher) && |faults| == |payloads| < U64_LIMIT && senderSplit <= |payloads|
    ensures OnlyLastFails(attempts) ==> got <= Fitting(payloads)
    ensures AllSent(attempts) && ended ==> got == Fitting(payloads)
    ensures AllSent(attempts) && (forall i :: 0 <= i < |plan| ==> plan[i].Deliver?)
            && |plan| >= |Stream(Sealed(cipher, prefix, Fitting(payloads), 0))| && before + after >= |Fitting(payloads)|
            ==> got == Fitting(payloads)
    ensures NoncesUnique(prefix, attempts) <==> OnlyLastFails(attempts)
  {
    var outlet := new Outlet();
    var sender := new CipherStream(outlet, cipher, back, prefix, backPrefix);
    var writer;
    attempts, writer := SendAcrossSplit(sender, payloads, faults, senderSplit);
    var source := new Source(outlet.data, plan);
    var reply := new Outlet();
    var receiver := new CipherStream(reply, back, cipher, backPrefix, prefix);
    ghost var wire, steady := outlet.data, source.Steady();
    assert receiver.recvFrame.Buffered() + source.data == wire;
    var rs, reader := ReceiveAcrossSplit(receiver, source, before, after);
    got, ended := Payloads(rs), NoFrame(Ended) in rs;
    NoncesUniqueIffOnlyLastFails(cipher, prefix, payloads, faults);
    if OnlyLastFails(attempts) {
      WireIsFrontOfSealed(cipher, prefix, payloads, faults);
      HonestWireDeliversFront(cipher, prefix, 0, wire, Fitting(payloads), rs);
      if AllSent(attempts) && ended {
        EndedMeansAllDelivered(cipher, prefix, 0, wire, Fitting(payloads), rs);
      }
      if AllSent(attempts) && steady && |rs| >= |Fitting(payloads)| {
        PromptReceivesDeliverAll(cipher, prefix, 0, wire, Fitting(payloads), rs);
      }
    }
  }

  /** The receiving end alone, on a wire in anyone's hands: as long as nobody can forge, what is
      handed out is the front of what the peer sent, whatever else is done to the wire. */
  method ReceiveFromAnyone(cipher: Aead, prefix: seq<byte>, back: Aead, backPrefix: seq<byte>, wire: seq<byte>,
                           plan: seq<Decision>, before: nat, after: nat,
                           ghost sent: seq<seq<byte>>)
    returns (got: seq<seq<byte>>)
    requires Lawful(cipher) && Unforged(cipher, prefix, wire, sent) && |sent| < U64_LIMIT - 1
    ensures got <= sent
  {
    var source := new Source(wire, plan);
    var reply := new Outlet();
    var receiver := new CipherStream(reply, back, cipher, backPrefix, prefix);
    assert receiver.recvFrame.Buffered() + source.data == wire;
    var rs, reader := ReceiveAcrossSplit(receiver, source, before, after);
    AnyWireDeliversFront(cipher, prefix, 0, wire, sent, rs);
    got := Payloads(rs);
    assert sent[0..] == sent;
  }
}
