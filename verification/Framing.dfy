/** Length-delimited frames read from a stream that may deliver its bytes in any pieces and whose
    read may be abandoned at any await. */
module Framing {
  import opened Bytes

  const MAX_FRAME_BYTES := 256 * 1024
  const TAG_BYTES := 16

  // ---------- the pure parser ----------

  datatype Parsed = NeedMore | BadLength(length: nat) | Frame(body: seq<byte>, rest: seq<byte>)

  predicate LengthInRange(n: nat)
  {
    TAG_BYTES <= n <= MAX_FRAME_BYTES + TAG_BYTES
  }

  function ParseOne(s: seq<byte>): Parsed
  {
    if |s| < 4 then NeedMore
    else
      var n := FromBigEndian(s[..4]);
      if !LengthInRange(n) then BadLength(n)
      else if |s| < 4 + n then NeedMore
      else Frame(s[4..4 + n], s[4 + n..])
  }

  /** The parser in numbers: four bytes of length, most significant first, between 16 and 262160, and
      then the body. */
  lemma ParseOneInNumbers(s: seq<byte>)
    ensures |s| < 4 ==> ParseOne(s) == NeedMore
    ensures |s| >= 4 ==>
              var n := s[0] as int * 0x100_0000 + s[1] as int * 0x1_0000 + s[2] as int * 0x100 + s[3] as int;
              ParseOne(s) == if n < 16 || n > 262160 then BadLength(n)
                             else if |s| < 4 + n then NeedMore
                             else Frame(s[4..4 + n], s[4 + n..])
  {
    if |s| >= 4 {
      FourBytes(s[..4]);
    }
  }

  function ParseAll(s: seq<byte>): seq<seq<byte>>
    decreases |s|
  {
    match ParseOne(s)
    case Frame(body, rest) => [body] + ParseAll(rest)
    case _ => []
  }

  /** The bytes of a list of frames. */
  function Stream(frames: seq<seq<byte>>): seq<byte>
  {
    if frames == [] then [] else Prefixed(frames[0]) + Stream(frames[1..])
  }

  lemma ParseOneInvertsPrefix(body: seq<byte>, rest: seq<byte>)
    requires LengthInRange(|body|)
    ensures ParseOne(Prefixed(body) + rest) == Frame(body, rest)
  {
    Pow256Values();
    BigEndianRoundTrip(|body|, 4);
    var s := Prefixed(body) + rest;
    assert s[..4] == BigEndian(|body|, 4);
    assert s[4..4 + |body|] == body && s[4 + |body|..] == rest;
  }

  lemma ParsedFrameIsPrefix(s: seq<byte>)
    requires ParseOne(s).Frame?
    ensures s == Prefixed(ParseOne(s).body) + ParseOne(s).rest && LengthInRange(|ParseOne(s).body|)
  {
    FromBigEndianRoundTrip(s[..4]);
    assert s == s[..4] + ParseOne(s).body + ParseOne(s).rest;
  }

  /** A frame cut off the front of a truncated stream is the one cut off the whole stream. */
  lemma ParseOneOfPrefix(part: seq<byte>, whole: seq<byte>)
    requires part <= whole && ParseOne(part).Frame?
    ensures ParseOne(whole).Frame? && ParseOne(whole).body == ParseOne(part).body
    ensures ParseOne(part).rest <= ParseOne(whole).rest
  {
    assert whole[..4] == part[..4];
    var n := FromBigEndian(part[..4]);
    assert whole[4..4 + n] == part[4..4 + n];
  }

  lemma ParseAllTakesFront(body: seq<byte>, rest: seq<byte>)
    requires LengthInRange(|body|)
    ensures ParseAll(Prefixed(body) + rest) == [body] + ParseAll(rest)
  {
    ParseOneInvertsPrefix(body, rest);
  }

  /** Parsing a stream of well-formed frames gives exactly those frames, then whatever the rest
      parses to. */
  lemma {:induction false} ParseAllInvertsStream(frames: seq<seq<byte>>, rest: seq<byte>)
    requires forall i :: 0 <= i < |frames| ==> LengthInRange(|frames[i]|)
    ensures ParseAll(Stream(frames) + rest) == frames + ParseAll(rest)
  {
    if frames == [] {
      assert Stream(frames) + rest == rest;
    } else {
      StreamTakesFront(frames, rest);
      ParseAllInvertsStream(frames[1..], rest);
      Regroup(frames, ParseAll(rest));
    }
  }

  lemma Regroup(frames: seq<seq<byte>>, more: seq<seq<byte>>)
    requires frames != []
    ensures [frames[0]] + (frames[1..] + more) == frames + more
  {
  }

  lemma StreamTakesFront(frames: seq<seq<byte>>, rest: seq<byte>)
    requires frames != [] && LengthInRange(|frames[0]|)
    ensures ParseAll(Stream(frames) + rest) == [frames[0]] + ParseAll(Stream(frames[1..]) + rest)
  {
    var front, tail := Prefixed(frames[0]), Stream(frames[1..]);
    assert (front + tail) + rest == front + (tail + rest);
    ParseAllTakesFront(frames[0], tail + rest);
  }

  /** Moving one parsed frame from the unreturned bytes to the returned frames. */
  lemma ReturnFrame(frames: seq<seq<byte>>, unreturned: seq<byte>, all: seq<byte>)
    requires Stream(frames) + unreturned == all && ParseOne(unreturned).Frame?
    ensures Stream(frames + [ParseOne(unreturned).body]) + ParseOne(unreturned).rest == all
    ensures LengthInRange(|ParseOne(unreturned).body|)
  {
    ParsedFrameIsPrefix(unreturned);
    StreamAppend(frames, ParseOne(unreturned).body);
  }

  lemma {:induction false} StreamAppend(frames: seq<seq<byte>>, last: seq<byte>)
    ensures Stream(frames + [last]) == Stream(frames) + Prefixed(last)
  {
    if frames == [] {
      assert Stream([last]) == Prefixed(last) + Stream([]);
    } else {
      StreamAppend(frames[1..], last);
      assert (frames + [last])[1..] == frames[1..] + [last];
    }
  }

  // ---------- the byte source ----------

  /** What one `read` of the underlying stream comes back with; a read still pending when the
      caller gives up is `Abandoned`. */
  datatype ReadResult = Data(bytes: seq<byte>) | Eof | IoError | Abandoned

  /** What the network decides at each read. */
  datatype Decision = Deliver(most: nat) | Close | Break | Stall

  /** The bytes still to be read, and the network's decisions, fixed in advance: for every way to
      cut the stream into reads and to abandon them there is a plan. */
  class Source {
    var data: seq<byte>
    var plan: seq<Decision>

    constructor (data: seq<byte>, plan: seq<Decision>)
      ensures this.data == data && this.plan == plan
    {
      this.data, this.plan := data, plan;
    }

    /** The network keeps delivering, at least a byte at a time, until everything has arrived. */
    ghost predicate Steady()
      reads this
    {
      data == [] || ((forall i :: 0 <= i < |plan| ==> plan[i].Deliver?) && |plan| >= |data|)
    }

    method Read(max: nat) returns (r: ReadResult)
      requires max > 0
      modifies this
      ensures r.Data? ==> 0 < |r.bytes| <= max && old(data) == r.bytes + data
      ensures !r.Data? ==> data == old(data)
      ensures r.Eof? ==> data == []
      ensures |plan| <= |old(plan)| && (r.Data? ==> |plan| < |old(plan)|)
      ensures r.IoError? ==> old(plan) != [] && old(plan)[0].Break?
      ensures old(Steady()) ==> (r.Data? <==> old(data) != []) && Steady()
    {
      if plan == [] {
        return Abandoned;
      }
      var decision := plan[0];
      plan := plan[1..];
      match decision
      case Stall => return Abandoned;
      case Break => return IoError;
      case Close => if data == [] { return Eof; } else { return Abandoned; }
      case Deliver(most) =>
        if data == [] { return Abandoned; }
        var n := if most == 0 then 1 else most;
        n := if n > max then max else n;
        n := if n > |data| then |data| else n;
        var bytes := data[..n];
        data := data[n..];
        return Data(bytes);
    }
  }

  // ---------- the resumable reader ----------

  datatype FrameResult = Received(body: seq<byte>) | Oversize(length: nat) | Ended | Failed | Dropped

  class PendingFrame {
    const header: array<byte>
    var headerRead: nat
    var body: seq<byte>
    var bodyRead: nat

    /** An empty body means no header has been parsed: sound because parsed lengths are at least
        sixteen. */
    ghost predicate Valid()
      reads this, header
    {
      && header.Length == 4 && headerRead <= 4 && bodyRead <= |body|
      && (body != [] ==> headerRead == 4 && |body| == FromBigEndian(header[..]) && LengthInRange(|body|))
    }

    /** The bytes taken off the stream that belong to no returned frame yet. */
    ghost function Buffered(): seq<byte>
      requires Valid()
      reads this, header
    {
      header[..headerRead] + body[..bodyRead]
    }

    constructor ()
      ensures Valid() && Buffered() == [] && fresh(header)
    {
      header := new byte[4](_ => 0);
      headerRead, body, bodyRead := 0, [], 0;
    }

    method FillHeader(source: Source) returns (stop: FrameResult)
      requires Valid() && body == []
      modifies this, header, source
      ensures Valid() && body == [] && bodyRead == 0
      ensures Buffered() + source.data == old(Buffered() + source.data)
      ensures stop.Received? ==> headerRead == 4
      ensures !stop.Received? ==> headerRead < 4 && !stop.Oversize?
      ensures stop.Ended? ==> source.data == []
      ensures old(headerRead) == 4 ==>
                stop.Received? && Buffered() == old(Buffered()) && source.data == old(source.data)
      ensures old(source.Steady()) ==> source.Steady() && (stop.Received? || source.data == [])
    {
      ghost var all := Buffered() + source.data;
      while headerRead < 4
        invariant Valid() && body == [] && bodyRead == 0
        invariant Buffered() + source.data == all
        invariant old(headerRead) == 4 ==>
                    headerRead == 4 && Buffered() == old(Buffered()) && source.data == old(source.data)
        invariant old(source.Steady()) ==> source.Steady()
        decreases 4 - headerRead
      {
        ghost var before, data := header[..headerRead], source.data;
        var r := source.Read(4 - headerRead);
        match r
        case Eof => return Ended;
        case IoError => return Failed;
        case Abandoned => return Dropped;
        case Data(bytes) =>
          StoreHeader(bytes);
          assert Buffered() + source.data == before + (bytes + source.data);
      }
      return Received([]);
    }

    method StoreHeader(bytes: seq<byte>)
      requires header.Length == 4 && headerRead + |bytes| <= 4
      modifies `headerRead, header
      ensures headerRead == old(headerRead) + |bytes| && header[..headerRead] == old(header[..headerRead]) + bytes
    {
      forall k | 0 <= k < |bytes| { header[headerRead + k] := bytes[k]; }
      headerRead := headerRead + |bytes|;
    }

    method FillBody(source: Source) returns (stop: FrameResult)
      requires Valid() && body != []
      modifies this, source
      ensures Valid() && body != [] && |body| == |old(body)| && headerRead == 4
      ensures Buffered() + source.data == old(Buffered() + source.data)
      ensures stop.Received? ==> bodyRead == |body|
      ensures !stop.Received? ==> bodyRead < |body| && !stop.Oversize?
      ensures stop.Ended? ==> source.data == []
      ensures old(source.Steady()) ==> source.Steady() && (stop.Received? || source.data == [])
    {
      ghost var all := Buffered() + source.data;
      while bodyRead < |body|
        invariant Valid() && body != [] && |body| == |old(body)| && headerRead == 4
        invariant Buffered() + source.data == all
        invariant old(source.Steady()) ==> source.Steady()
        decreases |body| - bodyRead
      {
        ghost var h, before := header[..headerRead], body[..bodyRead];
        var r := source.Read(|body| - bodyRead);
        match r
        case Eof => return Ended;
        case IoError => return Failed;
        case Abandoned => return Dropped;
        case Data(bytes) =>
          body := body[..bodyRead] + bytes + body[bodyRead + |bytes|..];
          bodyRead := bodyRead + |bytes|;
          assert body[..bodyRead] == before + bytes;
          assert Buffered() + source.data == h + before + (bytes + source.data);
      }
      return Received(body);
    }

    /** Read one frame, resuming wherever an earlier call was cut off. No byte is lost, repeated or
        reordered by any of the ways the call can end, and a frame is returned exactly as the pure
        parser would cut it off the front of the unreturned bytes. */
    method Read(source: Source) returns (r: FrameResult)
      requires Valid()
      modifies this, header, source
      ensures Valid()
      ensures r.Received? ==> Buffered() == [] && ParseOne(old(Buffered() + source.data)) == Frame(r.body, source.data)
      ensures !r.Received? ==> Buffered() + source.data == old(Buffered() + source.data)
      ensures r.Oversize? ==> ParseOne(Buffered()) == BadLength(r.length)
      ensures r.Ended? ==> source.data == [] && ParseOne(Buffered()) == NeedMore
      ensures old(ParseOne(Buffered())).BadLength? ==> r == Oversize(old(ParseOne(Buffered())).length)
      ensures old(source.Steady()) ==>
                && source.Steady()
                && (!r.Received? && !r.Oversize? ==> source.data == [] && ParseOne(Buffered()) == NeedMore)
    {
      ghost var all := Buffered() + source.data;
      if body == [] {
        var stop := FillHeader(source);
        if !stop.Received? {
          return stop;
        }
        assert header[..4] == header[..] == Buffered();
        var length := FromBigEndian(header[..]);
        assert Buffered()[..4] == header[..];
        if !LengthInRange(length) {
          assert ParseOne(Buffered()) == BadLength(length);
          return Oversize(length);
        }
        body := seq(length, _ => 0);
      }
      assert Buffered() + source.data == all;
      var stop := FillBody(source);
      if !stop.Received? {
        assert Buffered()[..4] == header[..];
        return stop;
      }
      assert header[..4] == header[..] && body[..bodyRead] == body;
      assert all == header[..] + body + source.data;
      assert all[..4] == header[..] && all[4..4 + |body|] == body && all[4 + |body|..] == source.data;
      r := Received(body);
      headerRead, bodyRead, body := 0, 0, [];
    }
  }

  /** A read from a source that keeps delivering returns a frame whenever one is there. */
  lemma SteadyReadTakesFrame(all: seq<byte>, buffered: seq<byte>, data: seq<byte>, r: FrameResult)
    requires !r.Received? ==> buffered + data == all
    requires r.Oversize? ==> ParseOne(buffered) == BadLength(r.length)
    requires !r.Received? && !r.Oversize? ==> data == [] && ParseOne(buffered) == NeedMore
    ensures ParseOne(all).Frame? ==> r.Received?
  {
    if !r.Received? && !r.Oversize? {
      assert all == buffered;
    } else if r.Oversize? {
      assert all[..4] == buffered[..4];
    }
  }

  /** Any number of reads, each cut short or not: the frames returned, re-encoded, followed by what
      is buffered and what is unread, are the original stream, and the frames are the first ones
      the pure parser finds in it; all of them once a read reports the end or a bad length, and all
      of them after that many reads if the source keeps delivering. */
  method ReadMany(pending: PendingFrame, source: Source, calls: nat) returns (frames: seq<seq<byte>>, exhausted: bool)
    requires pending.Valid()
    modifies pending, pending.header, source
    ensures pending.Valid()
    ensures Stream(frames) + (pending.Buffered() + source.data) == old(pending.Buffered() + source.data)
    ensures ParseAll(old(pending.Buffered() + source.data)) == frames + ParseAll(pending.Buffered() + source.data)
    ensures exhausted ==> frames == ParseAll(old(pending.Buffered() + source.data))
    ensures old(source.Steady()) && calls >= |ParseAll(old(pending.Buffered() + source.data))| ==>
              frames == ParseAll(old(pending.Buffered() + source.data))
  {
    ghost var all := pending.Buffered() + source.data;
    frames, exhausted := [], false;
    for i := 0 to calls
      invariant pending.Valid()
      invariant Stream(frames) + (pending.Buffered() + source.data) == all
      invariant forall k :: 0 <= k < |frames| ==> LengthInRange(|frames[k]|)
      invariant exhausted ==> ParseAll(pending.Buffered() + source.data) == []
      invariant old(source.Steady()) ==> source.Steady()
      invariant old(source.Steady()) ==> |frames| == i || ParseAll(pending.Buffered() + source.data) == []
    {
      ghost var before := pending.Buffered() + source.data;
      var r := pending.Read(source);
      if old(source.Steady()) {
        SteadyReadTakesFrame(before, pending.Buffered(), source.data, r);
      }
      if r.Received? {
        ReturnFrame(frames, before, all);
        frames := frames + [r.body];
        assert pending.Buffered() + source.data == source.data;
      } else if r.Ended? || r.Oversize? {
        NothingMore(pending.Buffered(), source.data);
      }
      exhausted := r.Ended? || r.Oversize?;
    }
    ParseAllInvertsStream(frames, pending.Buffered() + source.data);
  }

  /** What a read without a frame says about the bytes it left. */
  lemma NothingTaken(buffered: seq<byte>, data: seq<byte>, r: FrameResult)
    requires r.Ended? ==> data == [] && ParseOne(buffered) == NeedMore
    requires r.Oversize? ==> ParseOne(buffered) == BadLength(r.length)
    ensures r.Ended? ==> ParseOne(buffered + data) == NeedMore
    ensures r.Oversize? ==> ParseOne(buffered + data) == BadLength(r.length)
  {
    if r.Ended? {
      assert buffered + data == buffered;
    } else if r.Oversize? {
      assert (buffered + data)[..4] == buffered[..4];
    }
  }

  lemma NothingMore(buffered: seq<byte>, data: seq<byte>)
    requires ParseOne(buffered).BadLength? || (ParseOne(buffered).NeedMore? && data == [])
    ensures ParseAll(buffered + data) == []
  {
    if ParseOne(buffered).BadLength? {
      assert (buffered + data)[..4] == buffered[..4];
    } else {
      assert buffered + data == buffered;
    }
  }
}
