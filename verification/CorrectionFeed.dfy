/**
 The correction pump: each write to the receiver carries every Frame waiting,
 whole and in order, up to a size. The subscription is a source that may or
 may not have a Frame whenever it is asked; a write may fail.
 */
module CorrectionFeed {

  import opened Common
  import opened Octets

  /** A Frame's bytes: a header of 3, up to 1023 of payload, and a check of 3. */
  type Frame = f: seq<Byte> | 6 <= |f| <= LONGEST_FRAME witness [0, 0, 0, 0, 0, 0]

  const LONGEST_FRAME: nat := 1029

  /** A write stops taking more Frames once it holds this many bytes. */
  const MAX_BYTES_PER_WRITE: nat := 4096

  /** The Frames of one write, and whether it succeeded. */
  datatype Batch = Batch(frames: seq<Frame>, ok: bool)

  /** Frames end to end. */
  function Join(frames: seq<Frame>): seq<Byte> {
    if frames == [] then [] else Join(frames[..|frames| - 1]) + frames[|frames| - 1]
  }

  lemma {:induction false} JoinSplits(a: seq<Frame>, b: seq<Frame>)
    ensures Join(a + b) == Join(a) + Join(b)
    decreases |b|
  {
    if b == [] {
      assert a + b == a;
    } else {
      var n := |b| - 1;
      assert (a + b)[..|a| + n] == a + b[..n];
      JoinSplits(a, b[..n]);
    }
  }

  /** The Frames of the batches whose writes ended as `ok` says. */
  function FramesOf(batches: seq<Batch>, ok: bool): seq<Frame> {
    if batches == [] then []
    else
      var last := batches[|batches| - 1];
      FramesOf(batches[..|batches| - 1], ok) + if last.ok == ok then last.frames else []
  }

  /** The Frames of all batches. */
  function Taken(batches: seq<Batch>): seq<Frame> {
    if batches == [] then [] else Taken(batches[..|batches| - 1]) + batches[|batches| - 1].frames
  }

  lemma {:induction false} OneMoreBatch(batches: seq<Batch>, b: Batch)
    ensures Taken(batches + [b]) == Taken(batches) + b.frames
    ensures forall ok :: FramesOf(batches + [b], ok) == FramesOf(batches, ok) + if b.ok == ok then b.frames else []
    ensures Join(FramesOf(batches + [b], true)) == Join(FramesOf(batches, true)) + if b.ok then Join(b.frames) else []
  {
    assert (batches + [b])[..|batches|] == batches;
    JoinSplits(FramesOf(batches, true), b.frames);
    if !b.ok {
      assert FramesOf(batches, true) + [] == FramesOf(batches, true);
    }
  }

  /** Every Frame taken was either written or in a failed write. */
  lemma {:induction false} NoneLost(batches: seq<Batch>)
    ensures |FramesOf(batches, true)| + |FramesOf(batches, false)| == |Taken(batches)|
    ensures multiset(FramesOf(batches, true)) + multiset(FramesOf(batches, false)) == multiset(Taken(batches))
  {
    if batches != [] {
      NoneLost(batches[..|batches| - 1]);
    }
  }

  lemma {:induction false} AllWritten(batches: seq<Batch>)
    requires forall b :: b in batches ==> b.ok
    ensures FramesOf(batches, true) == Taken(batches)
  {
    if batches != [] {
      var init, last := batches[..|batches| - 1], batches[|batches| - 1];
      assert last in batches && forall b :: b in init ==> b in batches;
      AllWritten(init);
    }
  }

  /** A write goes on taking Frames exactly while it holds less than 4096 bytes. */
  ghost predicate Bounded(frames: seq<Frame>) {
    && frames != []
    && |Join(frames[..|frames| - 1])| < MAX_BYTES_PER_WRITE
  }

  lemma {:induction false} BatchIsShort(frames: seq<Frame>)
    requires Bounded(frames)
    ensures |Join(frames)| < 4096 + |frames[|frames| - 1]| <= 4096 + 1029
  {
  }

  /** The Frame subscription: what it gives is up to the source. */
  class Subscription {
    var closed: bool
    /** The Frames taken from it so far. */
    ghost var given: seq<Frame>
    /** Whether it had none when last asked. */
    ghost var empty: bool
    /** How often it has been asked. */
    ghost var asked: nat

    /** The next Frame, if there is one now. */
    method Next() returns (f: Option<Frame>)
      modifies `given, `empty, `asked
      ensures given == (old(given) + if f.Some? then [f.value] else []) && empty == f.None?
      ensures asked == old(asked) + 1
    {
      f := *;
      empty, asked := f.None?, asked + 1;
      if f.Some? {
        given := given + [f.value];
      }
    }
  }

  class CorrectionFeed {
    var written: nat
    var bytesWritten: nat
    var writeFailures: nat
    /** What the receiver was sent. */
    ghost var received: seq<Byte>
    ghost var batches: seq<Batch>
    const subscription: Subscription

    ghost predicate Valid()
      reads this, subscription
    {
      subscription.given == Taken(batches) && Accounted()
    }

    /** The receiver has the successful writes' Frames end to end, and the counts are right. */
    ghost predicate Accounted()
      reads this
    {
      && received == Join(FramesOf(batches, true))
      && written == |FramesOf(batches, true)|
      && writeFailures == |FramesOf(batches, false)|
      && bytesWritten == |received|
      && forall b :: b in batches ==> Bounded(b.frames)
    }

    constructor (subscription: Subscription)
      requires subscription.given == []
      ensures Valid() && this.subscription == subscription && batches == []
    {
      this.subscription := subscription;
      written, bytesWritten, writeFailures, received, batches := 0, 0, 0, [], [];
    }

    /**
     Push Frames for so many turns of the loop: it ends before only once the subscription
     has closed and has none left, asks for one every turn, and writes every one it gets.
     */
    method PushFrames(turns: nat) returns (turned: nat)
      requires Valid()
      modifies this, subscription
      ensures Valid() && old(batches) <= batches
      ensures turned <= turns && (turned < turns ==> subscription.closed && subscription.empty)
      ensures subscription.asked >= old(subscription.asked) + turned
      ensures subscription.given == Taken(batches)
      ensures written + writeFailures == |subscription.given| && bytesWritten == |received|
    {
      turned := 0;
      while turned < turns
        invariant turned <= turns && Valid() && old(batches) <= batches
        invariant subscription.asked >= old(subscription.asked) + turned
      {
        var over := Turn();
        if over {
          break;
        }
        turned := turned + 1;
      }
      NoneLost(batches);
    }

    /** One turn: a Frame, if there is one, begins one more write; without one, a closed subscription is the end. */
    method Turn() returns (over: bool)
      requires Valid()
      modifies this, subscription
      ensures Valid() && subscription.asked > old(subscription.asked)
      ensures over ==> subscription.closed && subscription.empty && batches == old(batches)
      ensures !over ==>
        if subscription.given == old(subscription.given) then batches == old(batches) && !subscription.closed
        else old(batches) <= batches && |batches| == |old(batches)| + 1
    {
      var frame := subscription.Next();
      if frame.None? {
        return subscription.closed;
      }
      Push(frame.value);
      return false;
    }

    /** Every Frame waiting goes in one write, which may fail. */
    method Push(frame: Frame)
      requires subscription.given == Taken(batches) + [frame] && Accounted()
      modifies this, subscription
      ensures Valid() && old(batches) <= batches && |batches| == |old(batches)| + 1
      ensures old(subscription.given) <= subscription.given && subscription.asked >= old(subscription.asked)
    {
      var frames, data := Collect(frame);
      assert frames == [frame] + frames[1..];
      assert subscription.given == Taken(batches) + frames;
      WriteBatch(frames, data);
    }

    /** Write a batch and count its Frames as written or failed. */
    method WriteBatch(frames: seq<Frame>, data: seq<Byte>)
      requires Accounted() && Bounded(frames) && data == Join(frames)
      modifies this
      ensures Accounted() && exists ok :: batches == old(batches) + [Batch(frames, ok)]
      ensures Taken(batches) == Taken(old(batches)) + frames
    {
      var ok := Write(data);
      if ok {
        written := written + |frames|;
        bytesWritten := bytesWritten + |data|;
      } else {
        writeFailures := writeFailures + |frames|;
      }
      OneMoreBatch(batches, Batch(frames, ok));
      batches := batches + [Batch(frames, ok)];
    }

    /** Take what is waiting, while the write holds less than 4096 bytes. */
    method Collect(frame: Frame) returns (frames: seq<Frame>, data: seq<Byte>)
      modifies subscription
      ensures Bounded(frames) && frames[0] == frame && data == Join(frames)
      ensures subscription.given == old(subscription.given) + frames[1..]
      ensures |data| >= 4096 || subscription.empty
      ensures subscription.asked >= old(subscription.asked)
    {
      frames := [frame];
      var size := |frame|;
      assert Join(frames[..0]) == [];
      while size < MAX_BYTES_PER_WRITE
        invariant Bounded(frames) && frames[0] == frame && size == |Join(frames)|
        invariant subscription.given == old(subscription.given) + frames[1..]
        invariant subscription.asked >= old(subscription.asked)
        decreases MAX_BYTES_PER_WRITE - size
      {
        var more := subscription.Next();
        if more.None? {
          data := Join(frames);
          return;
        }
        assert (frames + [more.value])[..|frames|] == frames;
        frames := frames + [more.value];
        size := size + |more.value|;
      }
      data := Join(frames);
    }

    /** The driver writes the bytes, or fails. */
    method Write(data: seq<Byte>) returns (ok: bool)
      modifies `received
      ensures received == old(received) + if ok then data else []
    {
      ok := *;
      if ok {
        received := received + data;
      }
    }
  }
}
