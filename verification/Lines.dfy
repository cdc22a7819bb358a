/** Newline-delimited IPC messages with a size cap, read by a future that competes with events and
    may be dropped at any await. */
module Lines {
  import opened Bytes
  import opened Framing

  const MAX_MESSAGE_BYTES := 1024 * 1024
  const NEWLINE: byte := 10

  /** `line` is one whole message: its only newline is its last byte. */
  predicate IsLine(line: seq<byte>)
  {
    line != [] && line[|line| - 1] == NEWLINE && NEWLINE !in line[..|line| - 1]
  }

  /** The first position of a newline, or the length. */
  function LineEnd(s: seq<byte>): (n: nat)
    ensures n <= |s| && NEWLINE !in s[..n] && (n < |s| ==> s[n] == NEWLINE)
  {
    if s == [] || s[0] == NEWLINE then 0
    else
      assert forall k :: 0 <= k < LineEnd(s[1..]) ==> s[1..][..LineEnd(s[1..])][k] == s[k + 1];
      assert s[..1 + LineEnd(s[1..])] == [s[0]] + s[1..][..LineEnd(s[1..])];
      1 + LineEnd(s[1..])
  }

  datatype LineResult = Message(line: seq<byte>) | Closed | TooLarge | Broken | Cancelled

  /** The buffered reader: whatever piece of the stream is currently on hand. */
  class LineSource {
    var data: seq<byte>
    var plan: seq<Decision>

    constructor (data: seq<byte>, plan: seq<Decision>)
      ensures this.data == data && this.plan == plan
    {
      this.data, this.plan := data, plan;
    }

    /** Enough pieces are on their way for everything to arrive. */
    ghost predicate Steady()
      reads this
    {
      data == [] || ((forall i :: 0 <= i < |plan| ==> plan[i].Deliver?) && |plan| >= |data|)
    }

    /** A look at the next piece; nothing is consumed. */
    method FillBuf() returns (r: ReadResult)
      modifies `plan
      ensures r.Data? ==> 0 < |r.bytes| && r.bytes <= data
      ensures r.Eof? ==> data == []
      ensures r.Data? ==> |plan| < |old(plan)|
      ensures |plan| <= |old(plan)|
      ensures r.IoError? ==> old(plan) != [] && old(plan)[0].Break?
      ensures old(Steady()) ==> (r.Data? <==> data != [])
      ensures old(Steady()) && r.Data? ==> (forall i :: 0 <= i < |plan| ==> plan[i].Deliver?) && |plan| + 1 >= |data|
    {
      if plan == [] {
        return Abandoned;
      }
      var decision := plan[0];
      plan := plan[1..];
      match decision
      case Stall => return Abandoned;
      case Break => return IoError;
      case Close => if data == [] { return Eof; } else { return Abandoned; }
      case Deliver(most) =>
        if data == [] { return Abandoned; }
        var n := if most == 0 then 1 else if most > |data| then |data| else most;
        return Data(data[..n]);
    }

    method Consume(n: nat)
      requires n <= |data|
      modifies `data
      ensures old(data) == old(data)[..n] + data && data == old(data)[n..]
    {
      data := data[n..];
    }
  }

  lemma PieceInPlace(buffer: seq<byte>, bytes: seq<byte>, data: seq<byte>, end: nat)
    requires bytes <= data && end <= |bytes| && NEWLINE !in buffer && NEWLINE !in bytes[..end]
    ensures NEWLINE !in (buffer + data)[..|buffer| + end]
  {
    assert data[..end] == bytes[..end];
    assert (buffer + data)[..|buffer| + end] == buffer + bytes[..end];
  }

  /** Moving a piece from the stream to the buffer. */
  lemma PieceMoves(buffer: seq<byte>, bytes: seq<byte>, data: seq<byte>, n: nat)
    requires bytes <= data && n <= |bytes|
    ensures (buffer + bytes[..n]) + data[n..] == buffer + data
  {
    assert data == bytes[..n] + data[n..];
  }

  class LineReader {
    var buffer: seq<byte>

    ghost predicate Valid()
      reads this
    {
      NEWLINE !in buffer && |buffer| <= MAX_MESSAGE_BYTES
    }

    constructor ()
      ensures Valid() && buffer == []
    {
      buffer := [];
    }

    /** Read one message. Whatever way the call ends, the bytes not handed out are still there in
        order. A message is handed out only whole and within the cap, and the cap is reported only
        for a line that exceeds it, however the line was cut up. */
    method ReadMessage(source: LineSource) returns (r: LineResult)
      requires Valid()
      modifies this, source
      ensures Valid()
      ensures r.Message? ==> buffer == [] && old(buffer + source.data) == r.line + source.data
                             && IsLine(r.line) && |r.line| <= MAX_MESSAGE_BYTES
      ensures !r.Message? ==> buffer + source.data == old(buffer + source.data)
      ensures r.TooLarge? ==> |old(buffer + source.data)| > MAX_MESSAGE_BYTES
                              && NEWLINE !in old(buffer + source.data)[..MAX_MESSAGE_BYTES]
      ensures r.Closed? ==> source.data == [] && NEWLINE !in old(buffer + source.data)
      ensures old(source.Steady()) && r.Message? ==> source.Steady()
      ensures old(source.Steady()) && !r.Message? && !r.TooLarge? ==> NEWLINE !in old(buffer + source.data)
    {
      ghost var all := buffer + source.data;
      while true
        invariant Valid() && buffer + source.data == all
        invariant old(source.Steady()) ==> source.Steady()
        decreases |source.plan|
      {
        var piece := source.FillBuf();
        match piece
        case Eof => assert all == buffer; return Closed;
        case IoError => assert source.data == [] ==> all == buffer; return Broken;
        case Abandoned => assert source.data == [] ==> all == buffer; return Cancelled;
        case Data(bytes) =>
          var end := LineEnd(bytes);
          var n := if end < |bytes| then end + 1 else |bytes|;
          PieceInPlace(buffer, bytes, source.data, end);
          if |buffer| + n > MAX_MESSAGE_BYTES {
            assert all[..MAX_MESSAGE_BYTES] == all[..|buffer| + end][..MAX_MESSAGE_BYTES];
            return TooLarge;
          }
          PieceMoves(buffer, bytes, source.data, n);
          buffer := buffer + bytes[..n];
          source.Consume(n);
          if end < |bytes| {
            var line := buffer;
            assert line[..|line| - 1] == all[..|line| - 1];
            buffer := [];
            return Message(line);
          }
      }
    }
  }

  /** The messages of a stream: its newline-terminated lines up to the first that exceeds the cap. */
  function Messages(s: seq<byte>): seq<seq<byte>>
    decreases |s|
  {
    var n := LineEnd(s);
    if n == |s| || n + 1 > MAX_MESSAGE_BYTES then [] else [s[..n + 1]] + Messages(s[n + 1..])
  }

  lemma FirstNewline(s: seq<byte>, k: nat)
    requires k < |s| && s[k] == NEWLINE && NEWLINE !in s[..k]
    ensures LineEnd(s) == k
  {
    if LineEnd(s) != k {
      assert false;
    }
  }

  lemma FirstMessage(line: seq<byte>, rest: seq<byte>)
    requires IsLine(line) && |line| <= MAX_MESSAGE_BYTES
    ensures Messages(line + rest) == [line] + Messages(rest)
  {
    var s, n := line + rest, |line| - 1;
    assert s[..n] == line[..n];
    FirstNewline(s, n);
    assert s[..n + 1] == line && s[n + 1..] == rest;
  }

  lemma NoMessageWithoutNewline(s: seq<byte>)
    requires NEWLINE !in s || (|s| > MAX_MESSAGE_BYTES && NEWLINE !in s[..MAX_MESSAGE_BYTES])
    ensures Messages(s) == []
  {
    if LineEnd(s) < |s| && LineEnd(s) < MAX_MESSAGE_BYTES {
      assert false;
    }
  }

  /** One read in terms of the stream's messages. */
  method ReadNext(reader: LineReader, source: LineSource) returns (r: LineResult)
    requires reader.Valid()
    modifies reader, source
    ensures reader.Valid()
    ensures r.Message? ==> reader.buffer == [] && old(reader.buffer + source.data) == r.line + source.data
                           && old(Messages(reader.buffer + source.data)) == [r.line] + Messages(source.data)
    ensures !r.Message? ==> reader.buffer + source.data == old(reader.buffer + source.data)
    ensures r.Closed? || r.TooLarge? ==> old(Messages(reader.buffer + source.data)) == []
    ensures old(source.Steady()) && r.Message? ==> source.Steady()
    ensures old(source.Steady()) && !r.Message? ==> old(Messages(reader.buffer + source.data)) == []
  {
    ghost var unread := reader.buffer + source.data;
    r := reader.ReadMessage(source);
    if r.Message? {
      FirstMessage(r.line, source.data);
    } else if r.Closed? || r.TooLarge? || old(source.Steady()) {
      NoMessageWithoutNewline(unread);
    }
  }

  lemma HandOut(lines: seq<seq<byte>>, line: seq<byte>, rest: seq<byte>, more: seq<seq<byte>>)
    ensures lines + ([line] + more) == (lines + [line]) + more
    ensures Joined(lines) + (line + rest) == Joined(lines + [line]) + rest
  {
    assert (lines + [line])[..|lines|] == lines;
  }

  /** Any number of reads, cut short or not, hand out exactly the first messages of the stream, and
      all of them once a read reports the end of the stream or an oversized line, and after that many
      reads if the pieces keep coming. */
  method ReadMany(reader: LineReader, source: LineSource, calls: nat) returns (lines: seq<seq<byte>>, exhausted: bool)
    requires reader.Valid()
    modifies reader, source
    ensures reader.Valid()
    ensures Messages(old(reader.buffer + source.data)) == lines + Messages(reader.buffer + source.data)
    ensures Joined(lines) + (reader.buffer + source.data) == old(reader.buffer + source.data)
    ensures exhausted ==> lines == Messages(old(reader.buffer + source.data))
    ensures old(source.Steady()) && calls >= |Messages(old(reader.buffer + source.data))| ==>
              lines == Messages(old(reader.buffer + source.data))
  {
    ghost var all := reader.buffer + source.data;
    ghost var unread := all;
    lines, exhausted := [], false;
    assert lines + Messages(all) == Messages(all) && Joined(lines) + all == all;
    for i := 0 to calls
      invariant reader.Valid() && unread == reader.buffer + source.data
      invariant Messages(all) == lines + Messages(unread)
      invariant Joined(lines) + unread == all
      invariant exhausted ==> Messages(unread) == []
      invariant old(source.Steady()) ==> Messages(unread) == [] || (source.Steady() && |lines| == i)
    {
      var r := ReadNext(reader, source);
      if r.Message? {
        HandOut(lines, r.line, source.data, Messages(source.data));
        assert source.data == reader.buffer + source.data;
        lines, unread := lines + [r.line], source.data;
      }
      exhausted := r.Closed? || r.TooLarge?;
    }
  }
}
