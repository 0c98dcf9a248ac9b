/**
 Counting RTCM 3 Frames in a byte stream that arrives in chunks: the resync
 scanner, and the window that feeds it. The frame layout is that of section 4 of
 RTCM 10403.3: a 0xD3 preamble, a 10-bit length in the next two bytes, that many
 bytes of message, and a 24-bit CRC. The CRC and the message number are given
 by a decoder.
 */
module CorrectionVerification {

  import opened Octets

  const PREAMBLE: Byte := 0xD3

  /** What the decoder library says of a whole frame's bytes. */
  datatype Decoder = Decoder(valid: seq<Byte> -> bool, isReference: seq<Byte> -> bool)

  /** What the scan consumed: a Frame, or bytes passed over to resync. */
  datatype Piece = Frame(bytes: seq<Byte>) | Skipped(bytes: seq<Byte>)

  datatype Scanned = Scanned(pieces: seq<Piece>, rest: seq<Byte>)

  /** The whole length of the frame that starts at the front. */
  function FrameLength(buffer: seq<Byte>): (n: nat)
    requires |buffer| >= 3
    ensures 6 <= n < 1030
  {
    var high: int, low: int := buffer[1], buffer[2];
    3 + (high % 4 * 256 + low) + 3
  }

  /** The frame at the front isn't whole yet. */
  predicate Partial(buffer: seq<Byte>) {
    |buffer| < 3 || |buffer| < FrameLength(buffer)
  }

  /** How many bytes one pass of the scan takes off the front; none when it must wait for more. */
  function Taken(d: Decoder, buffer: seq<Byte>): (n: nat)
    ensures n <= |buffer|
  {
    if buffer == [] then 0
    else if buffer[0] != PREAMBLE then 1
    else if Partial(buffer) then 0
    else if d.valid(buffer[..FrameLength(buffer)]) then FrameLength(buffer)
    else 1
  }

  function TakenPiece(d: Decoder, buffer: seq<Byte>): Piece {
    var front := buffer[..Taken(d, buffer)];
    if |front| > 1 then Frame(front) else Skipped(front)
  }

  /** One scan of a buffer: resync a byte at a time, consume whole valid Frames, keep a partial one. */
  function Scan(d: Decoder, buffer: seq<Byte>): Scanned
    decreases |buffer|
  {
    var n := Taken(d, buffer);
    if n == 0 then Scanned([], buffer)
    else
      var later := Scan(d, buffer[n..]);
      Scanned([TakenPiece(d, buffer)] + later.pieces, later.rest)
  }

  function Frames(pieces: seq<Piece>): nat {
    if pieces == [] then 0 else Frames(pieces[..|pieces| - 1]) + if pieces[|pieces| - 1].Frame? then 1 else 0
  }

  predicate SawReference(d: Decoder, pieces: seq<Piece>) {
    exists i :: 0 <= i < |pieces| && pieces[i].Frame? && d.isReference(pieces[i].bytes)
  }

  function Bytes(pieces: seq<Piece>): seq<Byte> {
    if pieces == [] then [] else pieces[0].bytes + Bytes(pieces[1..])
  }

  // ---------------------------------------------------------------------
  // Chunk independence
  // ---------------------------------------------------------------------

  /** More bytes behind it don't change what is taken off the front. */
  lemma TakenIsStable(d: Decoder, a: seq<Byte>, b: seq<Byte>)
    requires Taken(d, a) > 0
    ensures Taken(d, a + b) == Taken(d, a) && TakenPiece(d, a + b) == TakenPiece(d, a)
  {
    var whole := a + b;
    assert whole[..1] == a[..1];
    if a[0] == PREAMBLE {
      var n := FrameLength(a);
      assert FrameLength(whole) == n && whole[..n] == a[..n];
    }
  }

  /** Scanning a longer buffer is scanning its front, then what that left with the rest. */
  lemma {:induction false} ScanSplits(d: Decoder, a: seq<Byte>, b: seq<Byte>)
    ensures var front := Scan(d, a);
      var back := Scan(d, front.rest + b);
      Scan(d, a + b) == Scanned(front.pieces + back.pieces, back.rest)
    decreases |a|
  {
    var n := Taken(d, a);
    if n > 0 {
      TakenIsStable(d, a, b);
      ScanSplits(d, a[n..], b);
      var front := Scan(d, a[n..]);
      var back := Scan(d, front.rest + b);
      ScanFirst(d, a, a[n..], front);
      assert (a + b)[n..] == a[n..] + b;
      ScanFirst(d, a + b, a[n..] + b, Scanned(front.pieces + back.pieces, back.rest));
      PiecesRegroup(TakenPiece(d, a), front.pieces, back.pieces);
    } else {
      assert [] + Scan(d, a + b).pieces == Scan(d, a + b).pieces;
    }
  }

  /** A scan takes a piece off the front and scans on. */
  lemma {:induction false} ScanFirst(d: Decoder, buffer: seq<Byte>, behind: seq<Byte>, later: Scanned)
    requires Taken(d, buffer) > 0 && behind == buffer[Taken(d, buffer)..] && later == Scan(d, behind)
    ensures Scan(d, buffer) == Scanned([TakenPiece(d, buffer)] + later.pieces, later.rest)
  {
  }

  lemma PiecesRegroup(first: Piece, a: seq<Piece>, b: seq<Piece>)
    ensures [first] + (a + b) == [first] + a + b
  {
  }

  function Concat(chunks: seq<seq<Byte>>): seq<Byte> {
    if chunks == [] then [] else Concat(chunks[..|chunks| - 1]) + chunks[|chunks| - 1]
  }

  /** Feeding chunks one at a time, each scan starting from what the last one left. */
  function Feed(d: Decoder, chunks: seq<seq<Byte>>): Scanned {
    if chunks == [] then Scanned([], [])
    else
      var before := Feed(d, chunks[..|chunks| - 1]);
      var now := Scan(d, before.rest + chunks[|chunks| - 1]);
      Scanned(before.pieces + now.pieces, now.rest)
  }

  /** However a stream is cut, the Frames found and the bytes left are those of one scan of the whole. */
  lemma {:induction false} ChunkIndependence(d: Decoder, chunks: seq<seq<Byte>>)
    ensures Feed(d, chunks) == Scan(d, Concat(chunks))
  {
    if chunks != [] {
      ChunkIndependence(d, chunks[..|chunks| - 1]);
      ScanSplits(d, Concat(chunks[..|chunks| - 1]), chunks[|chunks| - 1]);
    }
  }

  // ---------------------------------------------------------------------
  // What is found
  // ---------------------------------------------------------------------

  /** Every byte is accounted for, in order. */
  lemma {:induction false} ScanConserves(d: Decoder, buffer: seq<Byte>)
    ensures Bytes(Scan(d, buffer).pieces) + Scan(d, buffer).rest == buffer
    decreases |buffer|
  {
    var n := Taken(d, buffer);
    if n > 0 {
      var later := Scan(d, buffer[n..]);
      ScanConserves(d, buffer[n..]);
      PiecePutBack(buffer, n, TakenPiece(d, buffer), later);
    }
  }

  lemma PiecePutBack(buffer: seq<Byte>, n: nat, p: Piece, later: Scanned)
    requires n <= |buffer| && p.bytes == buffer[..n] && Bytes(later.pieces) + later.rest == buffer[n..]
    ensures Bytes([p] + later.pieces) + later.rest == buffer
  {
    BytesCons(p, later.pieces);
    Regroup(p.bytes, Bytes(later.pieces), later.rest);
    assert buffer == buffer[..n] + buffer[n..];
  }

  lemma Regroup(a: seq<Byte>, b: seq<Byte>, c: seq<Byte>)
    ensures (a + b) + c == a + (b + c)
  {
  }

  /** What is left starts a Frame that isn't whole yet. */
  lemma {:induction false} RestIsPartial(d: Decoder, buffer: seq<Byte>)
    ensures var rest := Scan(d, buffer).rest; rest != [] ==> rest[0] == PREAMBLE && Partial(rest)
    decreases |buffer|
  {
    if Taken(d, buffer) > 0 {
      RestIsPartial(d, buffer[Taken(d, buffer)..]);
    }
  }

  lemma {:induction false} BytesCons(p: Piece, pieces: seq<Piece>)
    ensures Bytes([p] + pieces) == p.bytes + Bytes(pieces)
  {
    assert ([p] + pieces)[1..] == pieces;
  }

  /** Every Frame counted is a whole valid Frame of the stream. */
  lemma {:induction false} FramesAreValid(d: Decoder, buffer: seq<Byte>)
    ensures forall p :: p in Scan(d, buffer).pieces && p.Frame? ==> IsFrame(d, p.bytes)
    decreases |buffer|
  {
    var n := Taken(d, buffer);
    if n > 0 {
      FramesAreValid(d, buffer[n..]);
      if n > 1 {
        assert FrameLength(buffer[..n]) == n;
      }
    }
  }

  /** A whole valid Frame starts at the front. */
  predicate FrameAhead(d: Decoder, stream: seq<Byte>) {
    |stream| >= 3 && FrameLength(stream) <= |stream| && IsFrame(d, stream[..FrameLength(stream)])
  }

  /**
   The scan is the one that finds a Frame wherever one starts and otherwise passes over a
   single byte: what it has not yet judged starts with a Frame exactly when it takes one.
   */
  lemma {:induction false} ScanIsGreedy(d: Decoder, buffer: seq<Byte>, k: nat)
    requires k < |Scan(d, buffer).pieces|
    ensures var ahead, p := Bytes(Scan(d, buffer).pieces[k..]) + Scan(d, buffer).rest, Scan(d, buffer).pieces[k];
      && (p.Frame? <==> FrameAhead(d, ahead))
      && (p.Frame? ==> p.bytes == ahead[..FrameLength(ahead)])
      && (p.Skipped? ==> ahead != [] && p.bytes == [ahead[0]])
    decreases |buffer|
  {
    var n := Taken(d, buffer);
    var later := Scan(d, buffer[n..]);
    ScanFirst(d, buffer, buffer[n..], later);
    if k > 0 {
      ScanIsGreedy(d, buffer[n..], k - 1);
      assert Scan(d, buffer).pieces[k..] == later.pieces[k - 1..];
    } else {
      ScanConserves(d, buffer);
      assert Scan(d, buffer).pieces[0..] == Scan(d, buffer).pieces;
      FirstTaken(d, buffer);
    }
  }

  lemma FirstTaken(d: Decoder, buffer: seq<Byte>)
    requires Taken(d, buffer) > 0
    ensures var p := TakenPiece(d, buffer);
      && (p.Frame? <==> FrameAhead(d, buffer))
      && (p.Frame? ==> p.bytes == buffer[..FrameLength(buffer)])
      && (p.Skipped? ==> p.bytes == [buffer[0]])
  {
    if |buffer| >= 3 && FrameLength(buffer) <= |buffer| {
      assert FrameLength(buffer[..FrameLength(buffer)]) == FrameLength(buffer);
    }
  }

  predicate IsFrame(d: Decoder, bytes: seq<Byte>) {
    |bytes| >= 3 && bytes[0] == PREAMBLE && |bytes| == FrameLength(bytes) && d.valid(bytes)
  }

  /** A Frame's layout: the preamble, the length in the low ten bits of two bytes, so many bytes, and three more. */
  lemma LaidOutFrame(d: Decoder, message: seq<Byte>, check: seq<Byte>, spare: nat)
    requires |message| < 1024 && |check| == 3 && spare < 64
    ensures var n := |message|;
      var bytes := [0xD3, 4 * spare + n / 256, n % 256] + message + check;
      IsFrame(d, bytes) <==> d.valid(bytes)
  {
    var n := |message|;
    assert (4 * spare + n / 256) % 4 == n / 256;
  }

  function FramePieces(frames: seq<seq<Byte>>): (ps: seq<Piece>)
    ensures |ps| == |frames|
  {
    seq(|frames|, i requires 0 <= i < |frames| => Frame(frames[i]))
  }

  function SkippedPieces(junk: seq<Byte>): (ps: seq<Piece>)
    ensures |ps| == |junk|
  {
    seq(|junk|, i requires 0 <= i < |junk| => Skipped([junk[i]]))
  }

  function Flatten(frames: seq<seq<Byte>>): seq<Byte> {
    if frames == [] then [] else frames[0] + Flatten(frames[1..])
  }

  lemma ScanFrame(d: Decoder, frame: seq<Byte>, more: seq<Byte>)
    requires IsFrame(d, frame)
    ensures Taken(d, frame + more) == |frame| && TakenPiece(d, frame + more) == Frame(frame)
    ensures (frame + more)[|frame|..] == more
  {
    var buffer := frame + more;
    assert buffer[..|frame|] == frame && FrameLength(buffer) == |frame|;
  }

  lemma {:induction false} FramesAreFound(d: Decoder, frames: seq<seq<Byte>>)
    requires forall i :: 0 <= i < |frames| ==> IsFrame(d, frames[i])
    ensures Scan(d, Flatten(frames)) == Scanned(FramePieces(frames), [])
  {
    if frames != [] {
      var behind := Flatten(frames[1..]);
      FramesAreFound(d, frames[1..]);
      ScanFrame(d, frames[0], behind);
      ScanFirst(d, frames[0] + behind, behind, Scanned(FramePieces(frames[1..]), []));
      assert FramePieces(frames) == [Frame(frames[0])] + FramePieces(frames[1..]);
    }
  }

  /** Valid Frames back to back, after anything without a preamble byte, are each found and nothing is left. */
  lemma {:induction false} BackToBackFramesAreFound(d: Decoder, junk: seq<Byte>, frames: seq<seq<Byte>>)
    requires PREAMBLE !in junk && forall i :: 0 <= i < |frames| ==> IsFrame(d, frames[i])
    ensures Scan(d, junk + Flatten(frames)) == Scanned(SkippedPieces(junk) + FramePieces(frames), [])
    decreases |junk|
  {
    var buffer := junk + Flatten(frames);
    if junk == [] {
      FramesAreFound(d, frames);
      assert buffer == Flatten(frames) && SkippedPieces(junk) + FramePieces(frames) == FramePieces(frames);
    } else {
      BackToBackFramesAreFound(d, junk[1..], frames);
      assert buffer[0] == junk[0] != PREAMBLE;
      assert buffer[1..] == junk[1..] + Flatten(frames) && buffer[..1] == [junk[0]];
      assert SkippedPieces(junk) + FramePieces(frames)
          == [Skipped([junk[0]])] + (SkippedPieces(junk[1..]) + FramePieces(frames));
    }
  }

  // ---------------------------------------------------------------------
  // The scanner, in place
  // ---------------------------------------------------------------------

  lemma {:induction false} FramesAdd(a: seq<Piece>, b: seq<Piece>)
    ensures Frames(a + b) == Frames(a) + Frames(b)
  {
    if b == [] {
      assert a + b == a;
    } else {
      FramesAdd(a, b[..|b| - 1]);
      assert (a + b)[..|a + b| - 1] == a + b[..|b| - 1];
    }
  }

  lemma SawReferenceAdd(d: Decoder, a: seq<Piece>, b: seq<Piece>)
    ensures SawReference(d, a + b) <==> SawReference(d, a) || SawReference(d, b)
  {
    if SawReference(d, a) {
      var i :| 0 <= i < |a| && a[i].Frame? && d.isReference(a[i].bytes);
      assert (a + b)[i] == a[i];
    }
    if SawReference(d, b) {
      var i :| 0 <= i < |b| && b[i].Frame? && d.isReference(b[i].bytes);
      assert (a + b)[|a| + i] == b[i];
    }
  }

  lemma {:induction false} NoFrameSkipped(d: Decoder, junk: seq<Byte>)
    ensures Frames(SkippedPieces(junk)) == 0 && !SawReference(d, SkippedPieces(junk))
  {
    if junk != [] {
      NoFrameSkipped(d, junk[..|junk| - 1]);
      assert SkippedPieces(junk)[..|junk| - 1] == SkippedPieces(junk[..|junk| - 1]);
    }
  }

  /** Bytes without a preamble in front of a buffer are only skipped. */
  lemma {:induction false} JunkIsSkipped(d: Decoder, junk: seq<Byte>, buffer: seq<Byte>)
    requires PREAMBLE !in junk
    ensures Scan(d, junk + buffer) == Scanned(SkippedPieces(junk) + Scan(d, buffer).pieces, Scan(d, buffer).rest)
  {
    BackToBackFramesAreFound(d, junk, []);
    assert junk + Flatten([]) == junk && SkippedPieces(junk) + FramePieces([]) == SkippedPieces(junk);
    ScanSplits(d, junk, buffer);
    assert [] + buffer == buffer;
  }

  /** Where the scan stands: what is done, and what the buffer still gives, make up the whole scan. */
  ghost predicate Underway(d: Decoder, whole: Scanned, done: seq<Piece>, buffer: seq<Byte>) {
    whole == Scanned(done + Scan(d, buffer).pieces, Scan(d, buffer).rest)
  }

  lemma TakeFront(d: Decoder, whole: Scanned, done: seq<Piece>, buffer: seq<Byte>)
    requires Underway(d, whole, done, buffer) && Taken(d, buffer) > 0
    ensures Underway(d, whole, done + [TakenPiece(d, buffer)], buffer[Taken(d, buffer)..])
  {
    var later := Scan(d, buffer[Taken(d, buffer)..]);
    assert done + ([TakenPiece(d, buffer)] + later.pieces) == (done + [TakenPiece(d, buffer)]) + later.pieces;
  }

  lemma {:induction false} SkipJunk(d: Decoder, whole: Scanned, done: seq<Piece>, junk: seq<Byte>, buffer: seq<Byte>)
    requires Underway(d, whole, done, junk + buffer) && PREAMBLE !in junk
    ensures Underway(d, whole, done + SkippedPieces(junk), buffer)
    ensures Frames(done + SkippedPieces(junk)) == Frames(done)
    ensures SawReference(d, done + SkippedPieces(junk)) <==> SawReference(d, done)
  {
    JunkIsSkipped(d, junk, buffer);
    var later := Scan(d, buffer).pieces;
    assert done + (SkippedPieces(junk) + later) == (done + SkippedPieces(junk)) + later;
    FramesAdd(done, SkippedPieces(junk));
    SawReferenceAdd(d, done, SkippedPieces(junk));
    NoFrameSkipped(d, junk);
  }

  /** Where the first preamble byte is, if there is one. */
  method Find(buffer: seq<Byte>) returns (at: int)
    ensures at == -1 ==> PREAMBLE !in buffer
    ensures at != -1 ==> 0 <= at < |buffer| && buffer[at] == PREAMBLE && PREAMBLE !in buffer[..at]
  {
    at := 0;
    while at < |buffer|
      invariant 0 <= at <= |buffer| && PREAMBLE !in buffer[..at]
    {
      if buffer[at] == PREAMBLE {
        return;
      }
      at := at + 1;
    }
    at := -1;
  }

  /** Scanning what was left over and a chunk goes on counting where the scan of the stream so far stopped. */
  lemma {:induction false} MoreData(d: Decoder, stream: seq<Byte>, data: seq<Byte>)
    ensures var before, more := Scan(d, stream), Scan(d, Scan(d, stream).rest + data);
      var all := Scan(d, stream + data);
      && all.rest == more.rest && Frames(all.pieces) == Frames(before.pieces) + Frames(more.pieces)
      && SawReference(d, all.pieces) == (SawReference(d, before.pieces) || SawReference(d, more.pieces))
  {
    ScanSplits(d, stream, data);
    FramesAdd(Scan(d, stream).pieces, Scan(d, Scan(d, stream).rest + data).pieces);
    SawReferenceAdd(d, Scan(d, stream).pieces, Scan(d, Scan(d, stream).rest + data).pieces);
  }

  class Window {
    var buffer: seq<Byte>
    var bytesRead: nat
    var frames: nat
    var referencePosition: bool
    ghost var stream: seq<Byte>

    /** The counts and the buffer are those of one scan of everything read. */
    ghost predicate Valid(d: Decoder)
      reads this
    {
      && bytesRead == |stream| && buffer == Scan(d, stream).rest
      && frames == Frames(Scan(d, stream).pieces) && referencePosition == SawReference(d, Scan(d, stream).pieces)
    }

    constructor (d: Decoder)
      ensures Valid(d) && stream == []
    {
      buffer, bytesRead, frames, referencePosition, stream := [], 0, 0, false, [];
    }

    /** Take one chunk of the stream. */
    method Take(d: Decoder, data: seq<Byte>)
      requires Valid(d)
      modifies this
      ensures Valid(d) && stream == old(stream) + data && frames >= old(frames)
    {
      bytesRead := bytesRead + |data|;
      buffer := buffer + data;
      ScanBuffer(d);
      MoreData(d, stream, data);
      stream := stream + data;
    }

    /** The verdict on what has been read. */
    method Stage(d: Decoder) returns (stage: Stage)
      requires Valid(d)
      ensures stage == Judge(d, stream)
    {
      stage := if referencePosition then Passed
               else if frames > 0 then NoReferencePosition
               else if bytesRead > 0 then NotRtcm3
               else Silent;
    }

    /** Count the whole valid Frames in the buffer, deleting what is consumed from its front. */
    method ScanBuffer(d: Decoder)
      modifies `buffer, `frames, `referencePosition
      ensures var s := Scan(d, old(buffer));
        && buffer == s.rest && frames == old(frames) + Frames(s.pieces)
        && referencePosition == (old(referencePosition) || SawReference(d, s.pieces))
    {
      ghost var whole := Scan(d, buffer);
      ghost var done: seq<Piece> := [];
      assert [] + whole.pieces == whole.pieces;
      var more := true;
      while more
        invariant Underway(d, whole, done, buffer)
        invariant frames == old(frames) + Frames(done)
        invariant referencePosition == (old(referencePosition) || SawReference(d, done))
        invariant !more ==> Taken(d, buffer) == 0
        decreases |buffer| + if more then 1 else 0
      {
        more, done := SkipToPreamble(d, whole, done);
        if more {
          ghost var hit;
          done, hit := TakeOne(d, whole, done);
        }
      }
      assert done + [] == done;
    }

    /** Delete up to the first preamble; whether what is then at the front can be judged. */
    method SkipToPreamble(d: Decoder, ghost whole: Scanned, ghost done: seq<Piece>)
      returns (whole?: bool, ghost done': seq<Piece>)
      requires Underway(d, whole, done, buffer)
      modifies `buffer
      ensures Underway(d, whole, done', buffer) && Frames(done') == Frames(done)
      ensures SawReference(d, done') <==> SawReference(d, done)
      ensures |buffer| <= |old(buffer)|
      ensures if whole? then buffer != [] && buffer[0] == PREAMBLE && !Partial(buffer) else Taken(d, buffer) == 0
    {
      var start := Find(buffer);
      if start < 0 {
        assert buffer + [] == buffer;
        SkipJunk(d, whole, done, buffer, []);
        done', buffer := done + SkippedPieces(buffer), [];
        return false, done';
      }
      assert buffer[..start] + buffer[start..] == buffer;
      SkipJunk(d, whole, done, buffer[..start], buffer[start..]);
      done', buffer := done + SkippedPieces(buffer[..start]), buffer[start..];
      whole? := |buffer| >= 3 && |buffer| >= FrameLength(buffer);
    }

    /** Consume the whole frame at the front if it is valid, and otherwise its first byte. */
    method TakeOne(d: Decoder, ghost whole: Scanned, ghost done: seq<Piece>)
      returns (ghost done': seq<Piece>, ghost hit: bool)
      requires Underway(d, whole, done, buffer)
      requires buffer != [] && buffer[0] == PREAMBLE && !Partial(buffer)
      modifies `buffer, `frames, `referencePosition
      ensures Underway(d, whole, done', buffer) && |buffer| < |old(buffer)|
      ensures frames - Frames(done') == old(frames) - Frames(done)
      ensures referencePosition == (old(referencePosition) || hit)
      ensures SawReference(d, done') <==> SawReference(d, done) || hit
    {
      TakeFront(d, whole, done, buffer);
      CountPiece(d, done, TakenPiece(d, buffer));
      done' := done + [TakenPiece(d, buffer)];
      hit := TakenPiece(d, buffer).Frame? && d.isReference(TakenPiece(d, buffer).bytes);
      var frame := buffer[..FrameLength(buffer)];
      if d.valid(frame) {
        frames := frames + 1;
        if d.isReference(frame) {
          referencePosition := true;
        }
        buffer := buffer[|frame|..];
      } else {
        buffer := buffer[1..];
      }
    }
  }

  lemma {:induction false} CountPiece(d: Decoder, done: seq<Piece>, p: Piece)
    ensures Frames(done + [p]) == Frames(done) + if p.Frame? then 1 else 0
    ensures SawReference(d, done + [p]) <==> SawReference(d, done) || (p.Frame? && d.isReference(p.bytes))
  {
    assert (done + [p])[..|done|] == done;
    SawReferenceAdd(d, done, [p]);
    assert SawReference(d, [p]) <==> p.Frame? && d.isReference([p][0].bytes);
  }

  // ---------------------------------------------------------------------
  // The data window
  // ---------------------------------------------------------------------

  /** What one read gave: data, perhaps none, or an error. */
  datatype Read = Data(bytes: seq<Byte>) | Error

  /** A read, what the clock said just before it, and whether the stream is still open after it. */
  datatype Tick = Tick(now: real, read: Read, open: bool) {
    predicate EndsStream() {
      read.Error? || (read.bytes == [] && !open)
    }
  }

  datatype Stage = Passed | NoReferencePosition | NotRtcm3 | Silent

  function DataOf(ticks: seq<Tick>): seq<Byte> {
    if ticks == [] then []
    else
      var last := ticks[|ticks| - 1].read;
      DataOf(ticks[..|ticks| - 1]) + if last.Data? then last.bytes else []
  }

  /** The verdict on a stream: it says only what one scan of all of it says, however it was cut. */
  function Judge(d: Decoder, stream: seq<Byte>): Stage {
    var pieces := Scan(d, stream).pieces;
    if SawReference(d, pieces) then Passed
    else if Frames(pieces) > 0 then NoReferencePosition
    else if stream != [] then NotRtcm3
    else Silent
  }

  /**
   Passed, with a reference position among the Frames found; otherwise by whether there
   was any Frame, any byte, or nothing at all.
   */
  lemma {:induction false} JudgedBy(d: Decoder, stream: seq<Byte>)
    ensures var frames := set p | p in Scan(d, stream).pieces && p.Frame? :: p.bytes;
      && (Judge(d, stream) == Passed <==> exists f :: f in frames && d.isReference(f))
      && (Judge(d, stream) == NoReferencePosition <==> frames != {} && forall f :: f in frames ==> !d.isReference(f))
      && (Judge(d, stream) == NotRtcm3 <==> frames == {} && stream != [])
      && (Judge(d, stream) == Silent <==> stream == [])
  {
    var pieces := Scan(d, stream).pieces;
    var frames := set p | p in pieces && p.Frame? :: p.bytes;
    AnyFrame(pieces);
    assert frames == {} <==> Frames(pieces) == 0 by {
      if p :| p in pieces && p.Frame? {
        assert p.bytes in frames;
      }
    }
  }

  lemma {:induction false} AnyFrame(pieces: seq<Piece>)
    ensures Frames(pieces) > 0 <==> exists p :: p in pieces && p.Frame?
  {
    if pieces != [] {
      var init, last := pieces[..|pieces| - 1], pieces[|pieces| - 1];
      AnyFrame(init);
      assert pieces == init + [last] && last in pieces;
    }
  }

  /**
   Whether the window still waits for a read: within its deadline, longer once Frames
   have arrived, and nothing settled.
   */
  predicate Waiting(d: Decoder, began: real, silenceS: real, referenceS: real, ticks: seq<Tick>, k: nat)
    requires k < |ticks|
  {
    var pieces := Scan(d, DataOf(ticks[..k])).pieces;
    && !SawReference(d, pieces)
    && (var window := if Frames(pieces) > 0 then referenceS else silenceS;
        (window > 0.0 && ticks[k].now < began + window) || ticks[k].now < began)
    && (k > 0 ==> !ticks[k - 1].EndsStream())
  }

  /** It waited for each of the first n reads. */
  ghost predicate Waited(d: Decoder, began: real, silenceS: real, referenceS: real, ticks: seq<Tick>, n: nat)
    requires n <= |ticks|
  {
    forall k :: 0 <= k < n ==> Waiting(d, began, silenceS, referenceS, ticks, k)
  }

  lemma WaitedOneMore(d: Decoder, began: real, silenceS: real, referenceS: real, ticks: seq<Tick>, n: nat)
    requires n < |ticks| && Waited(d, began, silenceS, referenceS, ticks, n)
    requires Waiting(d, began, silenceS, referenceS, ticks, n)
    ensures Waited(d, began, silenceS, referenceS, ticks, n + 1)
  {
  }

  function NonNegative(x: real): real {
    if x < 0.0 then 0.0 else x
  }

  lemma DataStep(ticks: seq<Tick>, k: nat)
    requires k < |ticks|
    ensures DataOf(ticks[..k + 1])
         == if ticks[k].read.Data? && ticks[k].read.bytes != [] then DataOf(ticks[..k]) + ticks[k].read.bytes
            else DataOf(ticks[..k])
  {
    assert ticks[..k + 1][..k] == ticks[..k];
  }

  /** Read until a reference position arrives, the deadline passes, or the stream ends. */
  method ReadWindow(d: Decoder, began: real, silenceS: real, referenceS: real, ticks: seq<Tick>)
    returns (stage: Stage, used: nat)
    ensures used <= |ticks| && stage == Judge(d, DataOf(ticks[..used]))
    ensures forall k :: 0 <= k < used ==> Waiting(d, began, silenceS, referenceS, ticks, k)
    ensures used < |ticks| ==> !Waiting(d, began, silenceS, referenceS, ticks, used)
  {
    var seen := new Window(d);
    var deadline, over := began + NonNegative(silenceS), false;
    used := 0;
    assert ticks[..0] == [];
    while used < |ticks| && !over && deadline - ticks[used].now > 0.0
      invariant used <= |ticks| && fresh(seen)
      invariant seen.Valid(d) && seen.stream == DataOf(ticks[..used])
      invariant !over ==> deadline == began + if seen.frames > 0 then NonNegative(referenceS) else NonNegative(silenceS)
      invariant over <==> seen.referencePosition || (used > 0 && ticks[used - 1].EndsStream())
      invariant Waited(d, began, silenceS, referenceS, ticks, used)
      decreases |ticks| - used
    {
      WaitsIf(d, began, silenceS, referenceS, ticks, used, seen.frames, seen.referencePosition);
      WaitedOneMore(d, began, silenceS, referenceS, ticks, used);
      over := ReadOnce(d, seen, ticks, ticks[used], used);
      used := used + 1;
      if !over && seen.frames > 0 {
        deadline := began + NonNegative(referenceS);
      }
    }
    if used < |ticks| {
      WaitsIf(d, began, silenceS, referenceS, ticks, used, seen.frames, seen.referencePosition);
    }
    stage := seen.Stage(d);
  }

  /** Whether the window waits, by what it has seen. */
  lemma WaitsIf(d: Decoder, began: real, silenceS: real, referenceS: real, ticks: seq<Tick>, k: nat,
                frames: nat, sawReference: bool)
    requires k < |ticks| && frames == Frames(Scan(d, DataOf(ticks[..k])).pieces)
    requires sawReference == SawReference(d, Scan(d, DataOf(ticks[..k])).pieces)
    ensures Waiting(d, began, silenceS, referenceS, ticks, k) <==>
      && !sawReference && (k > 0 ==> !ticks[k - 1].EndsStream())
      && ticks[k].now < began + if frames > 0 then NonNegative(referenceS) else NonNegative(silenceS)
  {
  }

  /** Take one read's data; whether it settles the verdict or the stream ends there. */
  method ReadOnce(d: Decoder, seen: Window, ghost ticks: seq<Tick>, tick: Tick, ghost k: nat) returns (over: bool)
    requires seen.Valid(d) && !seen.referencePosition
    requires k < |ticks| && tick == ticks[k] && seen.stream == DataOf(ticks[..k])
    modifies seen
    ensures seen.Valid(d) && seen.stream == DataOf(ticks[..k + 1])
    ensures over <==> seen.referencePosition || tick.EndsStream()
    ensures seen.frames >= old(seen.frames)
  {
    DataStep(ticks, k);
    if tick.read.Error? {
      return true;  // the caster stopped answering; judge what arrived
    }
    if tick.read.bytes != [] {
      seen.Take(d, tick.read.bytes);
      return seen.referencePosition;
    }
    return !tick.open;  // or the caster closed the stream
  }
}
