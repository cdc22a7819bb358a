/** A log bounded in size: a current file and three numbered backups. */
module RotatingLog {
  import opened Bytes

  const BACKUPS := 3

  /** The files of one log: the current file is 0, `<name>.k` is k. */
  type Files = map<nat, seq<byte>>

  function File(files: Files, k: nat): seq<byte>
  {
    if k in files then files[k] else []
  }

  /** Everything still on disk, oldest first. */
  function Window(files: Files): seq<byte>
  {
    File(files, 3) + File(files, 2) + File(files, 1) + File(files, 0)
  }

  predicate Bounded(files: Files, limit: nat)
  {
    forall k :: k in files ==> k <= BACKUPS && |files[k]| <= limit
  }

  // ---------- the byte-at-a-time log ----------

  /** Whether place `k` is taken once the files from `from` on have moved one place down, leaving a
      gap at `from`. */
  predicate Taken(files: Files, from: nat, k: nat)
  {
    k != from && if k < from then k in files else k - 1 in files
  }

  function PartlyShifted(files: Files, from: nat): Files
  {
    map k: nat | k <= BACKUPS && Taken(files, from, k) :: if k < from then files[k] else files[k - 1]
  }

  /** Every file one place older; the oldest is gone. */
  function Shifted(files: Files): Files
  {
    PartlyShifted(files, 0)
  }

  lemma ShiftStep(files: Files, i: nat)
    requires i < BACKUPS
    ensures var f := PartlyShifted(files, i + 1);
            PartlyShifted(files, i) == if i in f then f[i + 1 := f[i]] - {i} else f
  {
  }

  /** The simple log: one byte at a time, moving to an empty file whenever the current one is full. */
  function Fed(files: Files, limit: nat, s: seq<byte>): (r: Files)
    requires 0 in files
    ensures 0 in r
  {
    if s == [] then files
    else
      var f := Fed(files, limit, s[..|s| - 1]);
      var b := s[|s| - 1];
      if |f[0]| >= limit then Shifted(f)[0 := [b]] else f[0 := f[0] + [b]]
  }

  /** How a text is cut into writes does not matter. */
  lemma {:induction false} FedInPieces(files: Files, limit: nat, a: seq<byte>, b: seq<byte>)
    requires 0 in files
    ensures Fed(files, limit, a + b) == Fed(Fed(files, limit, a), limit, b)
  {
    if b == [] {
      assert a + b == a;
    } else {
      FedInPieces(files, limit, a, b[..|b| - 1]);
      assert (a + b)[..|a + b| - 1] == a + b[..|b| - 1];
    }
  }

  lemma {:induction false} FedWithRoom(files: Files, limit: nat, s: seq<byte>)
    requires 0 in files && |files[0]| + |s| <= limit
    ensures Fed(files, limit, s) == files[0 := files[0] + s]
  {
    if s == [] {
      assert files[0] + s == files[0];
    } else {
      FedWithRoom(files, limit, s[..|s| - 1]);
      assert files[0] + s == files[0] + s[..|s| - 1] + [s[|s| - 1]];
    }
  }

  lemma FedWhenFull(files: Files, limit: nat, s: seq<byte>)
    requires 0 in files && |files[0]| >= limit && 0 < |s| <= limit
    ensures Fed(files, limit, s) == Shifted(files)[0 := s]
  {
    var first := s[..1];
    assert Fed(files, limit, first[..0]) == files && first == [s[0]];
    assert Fed(files, limit, first) == Shifted(files)[0 := first];
    assert s == first + s[1..];
    FedInPieces(files, limit, first, s[1..]);
    FedWithRoom(Shifted(files)[0 := first], limit, s[1..]);
  }

  // ---------- the sliding window ----------

  lemma {:induction false} FedStaysBounded(files: Files, limit: nat, s: seq<byte>)
    requires 0 in files && limit > 0 && Bounded(files, limit)
    ensures Bounded(Fed(files, limit, s), limit)
  {
    if s != [] {
      FedStaysBounded(files, limit, s[..|s| - 1]);
    }
  }

  predicate IsSuffix(part: seq<byte>, whole: seq<byte>)
  {
    |part| <= |whole| && part == whole[|whole| - |part|..]
  }

  /** The end of file `k` in a text that ends with the window. */
  function End(files: Files, total: nat, k: nat): int
  {
    if k == 0 then total else End(files, total, k - 1) - |File(files, k - 1)|
  }

  /** What the window keeps: it ends the text, and a backup reaching past `start` is a full file. */
  predicate Tracks(files: Files, limit: nat, text: seq<byte>, start: nat)
  {
    && IsSuffix(Window(files), text)
    && forall k :: 1 <= k <= BACKUPS && End(files, |text|, k) > start ==> |File(files, k)| == limit
  }

  lemma EndsUnrolled(files: Files, total: nat)
    ensures End(files, total, 1) == total - |File(files, 0)|
    ensures End(files, total, 2) == total - |File(files, 0)| - |File(files, 1)|
    ensures End(files, total, 3) == total - |File(files, 0)| - |File(files, 1)| - |File(files, 2)|
  {
    assert End(files, total, 0) == total;
    assert End(files, total, 1) == total - |File(files, 0)|;
    assert End(files, total, 2) == End(files, total, 1) - |File(files, 1)|;
  }

  lemma SuffixGrows(part: seq<byte>, whole: seq<byte>, cut: nat, b: byte)
    requires IsSuffix(part, whole) && cut <= |part|
    ensures IsSuffix(part[cut..] + [b], whole + [b])
  {
  }

  /** One more byte, seen file by file. */
  lemma FeedFiles(files: Files, limit: nat, b: byte)
    requires 0 in files
    ensures |files[0]| >= limit ==>
              && File(Fed(files, limit, [b]), 0) == [b] && File(Fed(files, limit, [b]), 1) == files[0]
              && File(Fed(files, limit, [b]), 2) == File(files, 1) && File(Fed(files, limit, [b]), 3) == File(files, 2)
    ensures |files[0]| < limit ==>
              && File(Fed(files, limit, [b]), 0) == files[0] + [b]
              && forall k :: 1 <= k ==> File(Fed(files, limit, [b]), k) == File(files, k)
  {
    assert Fed(files, limit, [b][..0]) == files;
  }

  lemma FeedWindow(files: Files, limit: nat, b: byte)
    requires 0 in files
    ensures Window(Fed(files, limit, [b])) ==
            Window(files)[if |files[0]| >= limit then |File(files, 3)| else 0..] + [b]
  {
    FeedFiles(files, limit, b);
  }

  lemma FeedTracks(files: Files, limit: nat, text: seq<byte>, start: nat, b: byte)
    requires 0 in files && limit > 0 && |files[0]| <= limit && Tracks(files, limit, text, start)
    ensures Tracks(Fed(files, limit, [b]), limit, text + [b], start)
  {
    FeedWindow(files, limit, b);
    SuffixGrows(Window(files), text, if |files[0]| >= limit then |File(files, 3)| else 0, b);
    FeedKeepsFull(files, limit, text, start, b);
  }

  lemma FeedKeepsFull(files: Files, limit: nat, text: seq<byte>, start: nat, b: byte)
    requires 0 in files && limit > 0 && |files[0]| <= limit && Tracks(files, limit, text, start)
    ensures forall k :: 1 <= k <= BACKUPS && End(Fed(files, limit, [b]), |text + [b]|, k) > start
                        ==> |File(Fed(files, limit, [b]), k)| == limit
  {
    var r := Fed(files, limit, [b]);
    FeedFiles(files, limit, b);
    EndsUnrolled(files, |text|);
    EndsUnrolled(r, |text| + 1);
    forall k | 1 <= k <= BACKUPS && End(r, |text| + 1, k) > start
      ensures |File(r, k)| == limit
    {
      assert End(files, |text|, 1) > start ==> |File(files, 1)| == limit;
      assert End(files, |text|, 2) > start ==> |File(files, 2)| == limit;
      assert k == 1 || k == 2 || k == 3;
    }
  }

  lemma {:induction false} FedTracks(files: Files, limit: nat, s: seq<byte>)
    requires 0 in files && limit > 0 && Bounded(files, limit)
    ensures Tracks(Fed(files, limit, s), limit, Window(files) + s, |Window(files)|)
  {
    if s == [] {
      EndsUnrolled(files, |Window(files)|);
      assert Window(files) + s == Window(files);
    } else {
      var front, b := s[..|s| - 1], s[|s| - 1];
      FedTracks(files, limit, front);
      FedStaysBounded(files, limit, front);
      FeedTracks(Fed(files, limit, front), limit, Window(files) + front, |Window(files)|, b);
      assert front + [b] == s;
      FedInPieces(files, limit, front, [b]);
      assert Window(files) + front + [b] == Window(files) + s;
    }
  }

  /** Whatever was on disk at the start: the files stay within the limit, what they hold is the end
      of everything that was there and was written since, and of the bytes written since at least
      three full files' worth is retained. */
  lemma SlidingWindow(files: Files, limit: nat, s: seq<byte>)
    requires 0 in files && limit > 0 && Bounded(files, limit)
    ensures Bounded(Fed(files, limit, s), limit)
    ensures IsSuffix(Window(Fed(files, limit, s)), Window(files) + s)
    ensures |Window(Fed(files, limit, s))| <= (BACKUPS + 1) * limit
    ensures |Window(Fed(files, limit, s))| >= |s| || |Window(Fed(files, limit, s))| >= BACKUPS * limit
  {
    FedStaysBounded(files, limit, s);
    FedTracks(files, limit, s);
    EndsUnrolled(Fed(files, limit, s), |Window(files) + s|);
  }

  /** A log that began empty has lost nothing exactly while four files could hold it. */
  lemma NothingLostIffItFits(limit: nat, s: seq<byte>)
    requires limit > 0
    ensures Window(Fed(map[0 := []], limit, s)) == s <==> |s| <= (BACKUPS + 1) * limit
  {
    var files: Files := map[0 := []];
    SlidingWindow(files, limit, s);
    assert Window(files) + s == s;
    if |s| <= (BACKUPS + 1) * limit {
      FittingTextIsWhole(limit, s);
    }
  }

  /** While less than four files' worth has been written, a full current file has no third backup. */
  lemma OldestStillEmpty(limit: nat, s: seq<byte>)
    requires limit > 0 && |s| < (BACKUPS + 1) * limit && Window(Fed(map[0 := []], limit, s)) == s
    ensures var f := Fed(map[0 := []], limit, s); |f[0]| >= limit ==> File(f, 3) == []
  {
    var files: Files := map[0 := []];
    var f := Fed(files, limit, s);
    FedTracks(files, limit, s);
    assert Window(files) + s == s;
    EndsUnrolled(f, |s|);
    assert |Window(f)| == |File(f, 3)| + |File(f, 2)| + |File(f, 1)| + |f[0]|;
    assert End(f, |s|, 3) > 0 ==> |File(f, 3)| == limit;
    assert End(f, |s|, 2) > 0 ==> |File(f, 2)| == limit;
    assert End(f, |s|, 1) > 0 ==> |File(f, 1)| == limit;
  }

  lemma {:induction false} FittingTextIsWhole(limit: nat, s: seq<byte>)
    requires limit > 0 && |s| <= (BACKUPS + 1) * limit
    ensures Window(Fed(map[0 := []], limit, s)) == s
  {
    var files: Files := map[0 := []];
    if s != [] {
      var front, b := s[..|s| - 1], s[|s| - 1];
      FittingTextIsWhole(limit, front);
      OldestStillEmpty(limit, front);
      assert front + [b] == s;
      FedInPieces(files, limit, front, [b]);
      FeedWindow(Fed(files, limit, front), limit, b);
    }
  }

  // ---------- the writer ----------

  class LogFile {
    var files: Files
    var isOpen: bool
    var bytes: nat
    const limit: nat

    ghost predicate Valid()
      reads this
    {
      && limit > 0 && Bounded(files, limit)
      && isOpen && 0 in files && |files[0]| == bytes
    }

    /** Open a log over whatever files are there, cutting each to its last `limit` bytes. */
    constructor (limit: nat, existing: Files)
      requires limit > 0
      ensures Valid() && this.limit == limit
      ensures forall k :: 0 <= k <= BACKUPS ==> IsSuffix(File(files, k), File(existing, k))
      ensures forall k :: 0 <= k <= BACKUPS && |File(existing, k)| > limit ==> |File(files, k)| == limit
      ensures forall k :: 0 <= k <= BACKUPS && |File(existing, k)| <= limit ==> File(files, k) == File(existing, k)
    {
      var kept: Files := map[];
      for index := 0 to BACKUPS + 1
        invariant forall k :: k in kept <==> k < index && k in existing
        invariant forall k :: k in kept ==> kept[k] == Tail(existing[k], limit)
      {
        if index in existing {
          kept := kept[index := Tail(existing[index], limit)];
        }
      }
      if 0 !in kept {
        kept := kept[0 := []];
      }
      this.limit, this.files, this.isOpen, this.bytes := limit, kept, true, |kept[0]|;
    }

    method Rename(from: nat, to: nat)
      requires from in files && from != to
      modifies `files
      ensures files == old(files)[to := old(files)[from]] - {from}
    {
      files := files[to := files[from]] - {from};
    }

    /** Close the current file and move every file one place down. */
    method Rotate()
      requires Valid()
      modifies this
      ensures files == Shifted(old(files)) && bytes == 0 && !isOpen
    {
      isOpen := false;
      files := files - {BACKUPS};
      for index := BACKUPS downto 1
        invariant !isOpen && files == PartlyShifted(old(files), index)
      {
        ShiftStep(old(files), index);
        if index in files {
          Rename(index, index + 1);
        }
      }
      ShiftStep(old(files), 0);
      if 0 in files {
        Rename(0, 1);
      }
      bytes := 0;
    }

    /** Write as much as fits, into an empty file if the current one is full. */
    method WritePiece(remaining: seq<byte>) returns (size: nat)
      requires Valid() && remaining != []
      modifies this
      ensures Valid() && 0 < size <= |remaining|
      ensures files == Fed(old(files), limit, remaining[..size])
    {
      ghost var before := files;
      if bytes >= limit {
        Rotate();
      }
      if !isOpen {
        files, isOpen := files[0 := []], true;
      }
      size := if |remaining| < limit - bytes then |remaining| else limit - bytes;
      Piece(before, limit, remaining[..size]);
      files := files[0 := files[0] + remaining[..size]];
      bytes := bytes + size;
    }

    /** Write a text of any length, in pieces that fit: the files end up as if it had been written a
        byte at a time. */
    method Write(text: seq<byte>) returns (n: nat)
      requires Valid()
      modifies this
      ensures Valid() && n == |text|
      ensures files == Fed(old(files), limit, text)
    {
      var remaining := text;
      ghost var done: seq<byte> := [];
      while remaining != []
        invariant Valid() && done + remaining == text
        invariant files == Fed(old(files), limit, done)
        decreases |remaining|
      {
        var size := WritePiece(remaining);
        FedInPieces(old(files), limit, done, remaining[..size]);
        done := done + remaining[..size];
        remaining := remaining[size..];
      }
      assert done == text;
      n := |text|;
    }
  }

  /** Open a log over whatever files are there and write any texts to it. With `initial` the files
      after opening: each file stays within the limit, together they are the end of what was there
      and of everything written, at most four files' worth, and at least three of what was written. */
  method WriteSession(limit: nat, existing: Files, texts: seq<seq<byte>>) returns (initial: Files, files: Files)
    requires limit > 0
    ensures forall k :: 0 <= k <= BACKUPS ==> IsSuffix(File(initial, k), File(existing, k)) && |File(initial, k)| <= limit
    ensures Bounded(files, limit) && IsSuffix(Window(files), Window(initial) + Joined(texts))
    ensures |Window(files)| <= (BACKUPS + 1) * limit
    ensures |Window(files)| >= |Joined(texts)| || |Window(files)| >= BACKUPS * limit
  {
    var log := new LogFile(limit, existing);
    initial := log.files;
    for i := 0 to |texts|
      invariant log.Valid() && log.limit == limit && fresh(log)
      invariant log.files == Fed(initial, limit, Joined(texts[..i]))
    {
      assert texts[..i + 1][..i] == texts[..i];
      FedInPieces(initial, limit, Joined(texts[..i]), texts[i]);
      var _ := log.Write(texts[i]);
    }
    assert texts[..|texts|] == texts;
    files := log.files;
    SlidingWindow(initial, limit, Joined(texts));
  }

  /** The last `limit` bytes. */
  function Tail(s: seq<byte>, limit: nat): (r: seq<byte>)
    ensures IsSuffix(r, s) && |r| <= limit && (|s| <= limit ==> r == s) && (|s| > limit ==> |r| == limit)
  {
    if |s| > limit then s[|s| - limit..] else s
  }

  lemma Piece(files: Files, limit: nat, piece: seq<byte>)
    requires 0 in files && 0 < |piece| <= limit && Bounded(files, limit)
    requires |files[0]| < limit ==> |files[0]| + |piece| <= limit
    ensures |files[0]| < limit ==> Fed(files, limit, piece) == files[0 := files[0] + piece]
    ensures |files[0]| >= limit ==> Fed(files, limit, piece) == Shifted(files)[0 := []][0 := [] + piece]
    ensures Bounded(Fed(files, limit, piece), limit)
  {
    FedStaysBounded(files, limit, piece);
    if |files[0]| >= limit {
      FedWhenFull(files, limit, piece);
      assert [] + piece == piece;
      assert Shifted(files)[0 := []][0 := piece] == Shifted(files)[0 := piece];
    } else {
      FedWithRoom(files, limit, piece);
    }
  }
}
