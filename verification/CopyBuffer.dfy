/** One direction of a copy: a single buffer between a reader and a writer. */
module Copying {
  import opened Polling
  import opened Endpoints

  /** The bytes at positions `lo..hi` of the concatenated frames all belong to one frame. */
  ghost predicate InOneFrame(frames: seq<seq<Byte>>, lo: nat, hi: nat) {
    lo == hi || exists j :: 0 <= j < |frames| && |Concat(frames[..j])| <= lo && hi <= |Concat(frames[..j + 1])|
  }

  ghost predicate AllInOneFrame(frames: seq<seq<Byte>>, spans: seq<(nat, nat)>) {
    forall i {:trigger InOneFrame(frames, spans[i].0, spans[i].1)} ::
      0 <= i < |spans| ==> InOneFrame(frames, spans[i].0, spans[i].1)
  }

  /** Reading one more frame does not disturb the spans that already lie inside a frame. */
  lemma MoreFrames(frames: seq<seq<Byte>>, more: seq<seq<Byte>>, spans: seq<(nat, nat)>)
    requires AllInOneFrame(frames, spans)
    ensures AllInOneFrame(frames + more, spans)
  {
    forall i | 0 <= i < |spans| ensures InOneFrame(frames + more, spans[i].0, spans[i].1) {
      var lo, hi := spans[i].0, spans[i].1;
      assert InOneFrame(frames, lo, hi);
      if lo != hi {
        var j :| 0 <= j < |frames| && |Concat(frames[..j])| <= lo && hi <= |Concat(frames[..j + 1])|;
        assert (frames + more)[..j] == frames[..j] && (frames + more)[..j + 1] == frames[..j + 1];
      }
    }
  }

  /** A span inside the last frame can be added. */
  lemma SpanInLastFrame(frames: seq<seq<Byte>>, spans: seq<(nat, nat)>, lo: nat, hi: nat)
    requires AllInOneFrame(frames, spans)
    requires lo == hi || (frames != [] && |Concat(frames[..|frames| - 1])| <= lo && hi <= |Concat(frames)|)
    ensures AllInOneFrame(frames, spans + [(lo, hi)])
  {
    var longer := spans + [(lo, hi)];
    assert lo != hi ==> frames[..|frames| - 1 + 1] == frames;
    assert InOneFrame(frames, lo, hi);
    forall i | 0 <= i < |longer| ensures InOneFrame(frames, longer[i].0, longer[i].1) {
      assert i < |spans| ==> longer[i] == spans[i] && InOneFrame(frames, spans[i].0, spans[i].1);
    }
  }

  /** Everything but the last frame. */
  ghost function Earlier(frames: seq<seq<Byte>>): seq<seq<Byte>> {
    if frames == [] then [] else frames[..|frames| - 1]
  }

  class CopyBuffer {
    var readDone: bool
    var needFlush: bool
    const datagram: bool
    var pos: nat
    var cap: nat
    var amt: nat
    const buf: array<Byte>

    /**
     Nothing is lost, duplicated or reordered between what was read and what was written, for a
     buffer whose unwritten part starts at `at` after `amount` written bytes.
    */
    ghost predicate Lossless(at: nat, amount: nat, r: Reader, w: Writer)
      reads `cap, `readDone, buf, r, w, w.Inner()
    {
      && at <= cap <= buf.Length
      && r.Valid() && w.Valid()
      && r.taken == w.accepted + buf[at..cap]
      && amount == |w.accepted|
      && w.Parked() <= buf[at..cap]
      && (readDone ==> r.script == [] || buf.Length == 0)
      && (buf.Length == 0 ==> w.accepted == [])
    }

    /** Datagram mode: the buffer holds one frame at a time, and all earlier ones are flushed. */
    ghost predicate FrameByFrame(at: nat, r: Reader, w: Writer)
      requires at <= cap <= buf.Length
      reads `cap, `readDone, buf, r, w, w.Inner()
    {
      && r.WholeChunks(buf.Length)
      && (cap == 0 || (r.frames != [] && buf[..cap] == r.frames[|r.frames| - 1]))
      && |Concat(Earlier(r.frames))| <= w.flushed
      && AllInOneFrame(r.frames, w.spans)
      && (w.udp != null ==>
            && (at == 0 || at == cap)
            && w.Packets() == (if at == cap then r.frames else Earlier(r.frames))
            && (w.Parked() == [] || (at == 0 && w.Parked() == buf[..cap])))
    }

    ghost predicate ValidAt(at: nat, amount: nat, r: Reader, w: Writer)
      reads `cap, `readDone, buf, r, w, w.Inner()
    {
      Lossless(at, amount, r, w) && (datagram ==> FrameByFrame(at, r, w))
    }

    ghost predicate Valid(r: Reader, w: Writer)
      reads this, buf, r, w, w.Inner()
    {
      ValidAt(pos, amt, r, w) && (!needFlush ==> w.flushed == |w.accepted|)
    }

    /** What was held before a read is still held, and the new bytes follow it. */
    lemma ReadKeepsBytes(r: Reader, w: Writer, taken: seq<Byte>, held: nat)
      requires pos <= held <= cap <= buf.Length && r.Valid() && w.Valid()
      requires taken == w.accepted + buf[pos..held] && r.taken == taken + buf[held..cap]
      requires amt == |w.accepted| && w.Parked() <= buf[pos..held] && (buf.Length == 0 ==> w.accepted == [])
      requires readDone ==> r.script == [] || buf.Length == 0
      ensures Lossless(pos, amt, r, w)
    {
      Cut(buf[..], pos, held, cap);
      Associative(w.accepted, buf[pos..held], buf[held..cap]);
    }

    /** A frame read into the empty buffer, once everything before it is flushed, is the one in progress. */
    lemma ReadKeepsFrames(r: Reader, w: Writer, frames: seq<seq<Byte>>)
      requires pos == 0 <= cap <= buf.Length && w.Valid() && r.WholeChunks(buf.Length)
      requires r.frames == if cap == 0 then frames else frames + [buf[0..cap]]
      requires |Concat(frames)| == w.flushed && AllInOneFrame(frames, w.spans)
      requires w.udp != null ==> w.Parked() == [] && w.Packets() == frames
      ensures FrameByFrame(pos, r, w)
    {
      if cap > 0 {
        MoreFrames(frames, [buf[0..cap]], w.spans);
        assert buf[0..cap] == buf[..cap];
      } else if frames != [] {
        assert frames[..|frames|] == frames;
        ConcatMonotone(frames, |frames| - 1, |frames|);
      }
    }

    constructor (size: nat, datagram: bool, ghost r: Reader, ghost w: Writer)
      requires r.Valid() && r.taken == [] && r.frames == []
      requires w.Valid() && !w.failed && !w.closed
      requires w.accepted == [] && w.flushed == 0 && w.spans == [] && w.Parked() == []
      requires w.udp != null ==> w.udp.queue == [] && w.udp.state == Writing
      requires datagram ==> r.WholeChunks(size)
      ensures Valid(r, w) && fresh(this) && fresh(buf)
      ensures buf.Length == size && this.datagram == datagram
      ensures pos == cap == amt == 0 && !readDone && !needFlush
    {
      readDone, needFlush, this.datagram := false, false, datagram;
      pos, cap, amt := 0, 0, 0;
      buf := new Byte[size];
    }

    /** Reads once, appending after `cap`. A read that adds nothing is taken for the end of the input. */
    method PollFillBuf(r: Reader, ghost w: Writer) returns (res: Poll<(), IoError>)
      requires Valid(r, w)
      requires cap < buf.Length || buf.Length == 0
      requires datagram ==> pos == cap == 0 && w.flushed == |w.accepted|
      modifies this`cap, this`readDone, buf, r
      ensures Valid(r, w)
      ensures old(cap) <= cap && |r.taken| == |old(r.taken)| + cap - old(cap)
      ensures readDone == if res.Ready? then cap == old(cap) else old(readDone)
      ensures !res.Ready? ==> cap == old(cap)
      ensures res.Failed? ==> res.error == ReadFailed && !r.faultless
      ensures res.Pending? ==> !r.prompt
      ensures |r.script| <= |old(r.script)| && (res.Pending? ==> |r.script| < |old(r.script)|)
      ensures r.polls == old(r.polls) + 1
      ensures r.pendings == old(r.pendings) + if res.Pending? then 1 else 0
      ensures r.errors == old(r.errors) + if res.Failed? then 1 else 0
    {
      hide Concat, Unread, Chunks, InOneFrame, AllInOneFrame, Earlier;
      var filled := r.PollRead(buf, cap);
      assert buf[pos..cap] == old(buf[pos..cap]);
      if filled.Ready? {
        readDone := cap == filled.value;
        cap := filled.value;
      }
      ReadKeepsBytes(r, w, old(r.taken), old(cap));
      if datagram {
        ReadKeepsFrames(r, w, old(r.frames));
      }
      match filled
      case Pending => res := Pending;
      case Failed(error) => res := Failed(error);
      case Ready(_) => res := Ready(());
    }

    /** After the writer took `n` bytes of the slice, the buffer is sound from `pos + n` on. */
    lemma WriteKeepsBytes(r: Reader, w: Writer, n: nat, accepted: seq<Byte>, slice: seq<Byte>)
      requires pos + n <= cap <= buf.Length && r.Valid() && w.Valid() && slice == buf[pos..cap]
      requires r.taken == accepted + slice && amt == |accepted|
      requires w.accepted == accepted + slice[..n] && w.Parked() == [] && (buf.Length == 0 ==> accepted == [])
      requires readDone ==> r.script == [] || buf.Length == 0
      ensures Lossless(pos + n, amt + n, r, w)
    {
      Cut(slice, 0, n, |slice|);
      Associative(accepted, slice[..n], slice[n..]);
      assert slice[n..] == buf[pos + n..cap];
    }

    lemma WriteKeepsFrames(r: Reader, w: Writer, n: nat, from: nat, spans: seq<(nat, nat)>, slice: seq<Byte>)
      requires pos < cap <= buf.Length && pos + n <= cap && slice == buf[pos..cap]
      requires w.Valid() && r.Valid() && r.WholeChunks(buf.Length)
      requires |r.taken| == from + |slice| && |w.accepted| == from + n
      requires r.frames != [] && buf[..cap] == r.frames[|r.frames| - 1]
      requires |Concat(Earlier(r.frames))| <= w.flushed
      requires AllInOneFrame(r.frames, spans) && w.spans == spans + [(from, from + n)]
      requires w.udp != null ==>
                 && pos == 0 && n == |slice| && w.Parked() == []
                 && w.Packets() == Earlier(r.frames) + [slice[..n]]
      ensures FrameByFrame(pos + n, r, w)
    {
      SpanInLastFrame(r.frames, spans, from, from + n);
      if pos == 0 && n == |slice| {
        assert slice[..n] == buf[..cap];
      }
    }

    /** Offers the unwritten bytes to the writer, once. */
    method Offer(ghost r: Reader, w: Writer) returns (res: Poll<nat, IoError>)
      requires Valid(r, w) && !w.failed && !w.closed && pos < cap
      modifies w, w.Inner()
      ensures res.Ready? ==> pos + res.value <= cap && ValidAt(pos + res.value, amt + res.value, r, w)
      ensures res.Pending? ==> Valid(r, w)
      ensures w.failed == res.Failed?
      ensures w.Steps() <= old(w.Steps()) && (res.Pending? ==> w.Steps() < old(w.Steps()))
      ensures w.writePendings == old(w.writePendings) + if res.Pending? then 1 else 0
      ensures w.flushPendings == old(w.flushPendings) && w.shutdownPendings == old(w.shutdownPendings)
      ensures w.errors == old(w.errors) + if res.Failed? then 1 else 0
      ensures res.Failed? ==> (res.error.WriteFailed? || res.error.NotConnected?)
      ensures w.closed == old(w.closed) && w.zeros == old(w.zeros) + if res == Ready(0) then 1 else 0
      ensures w.faultless ==> !res.Failed? && res != Ready(0)
      ensures res.Pending? ==> !w.prompt
      ensures w.flushPolls == old(w.flushPolls)
      ensures w.offered == old(buf[pos..cap])
    {
      hide Reader.Valid, Reader.WholeChunks, Concat, AllInOneFrame, Earlier;
      hide Writer.Valid, Writer.Steps, Writer.Parked, Writer.Packets;
      var slice := buf[pos..cap];
      assert pos == 0 ==> slice == buf[..cap];
      ghost var accepted, spans := w.accepted, w.spans;
      res := w.PollWrite(slice);
      if res.Ready? {
        WriteKeepsBytes(r, w, res.value, accepted, slice);
        if datagram {
          WriteKeepsFrames(r, w, res.value, |accepted|, spans, slice);
        }
      }
    }

    /**
     Offers the unwritten bytes. While the writer is not ready, a byte-stream copy reads more
     behind them; a datagram copy never does.
    */
    method PollWriteBuf(r: Reader, w: Writer) returns (res: Poll<nat, IoError>)
      requires Valid(r, w) && !w.failed && !w.closed && pos < cap
      modifies this`cap, this`readDone, buf, r, w, w.Inner()
      ensures res.Ready? ==> pos + res.value <= cap && ValidAt(pos + res.value, amt + res.value, r, w)
      ensures res.Ready? ==> cap == old(cap) && readDone == old(readDone)
      ensures res.Ready? ==> r.script == old(r.script) && r.pendings == old(r.pendings)
      ensures res.Pending? ==> Valid(r, w)
      ensures res == Failed(ReadFailed) ==> pos < cap && !datagram
      ensures w.failed == (res.Failed? && res.error != ReadFailed)
      ensures res.Failed? ==> !res.error.BrokenPipe? && !res.error.WriteZero?
      ensures var topUp := !res.Ready? && !w.failed && !datagram && !old(readDone) && old(cap) < buf.Length;
              r.polls == old(r.polls) + if topUp then 1 else 0
      ensures |r.script| <= |old(r.script)| && w.Steps() <= old(w.Steps())
      ensures res.Pending? ==> w.Steps() < old(w.Steps())
      ensures w.writePendings == old(w.writePendings) + if res.Ready? || w.failed then 0 else 1
      ensures w.flushPendings == old(w.flushPendings) && w.shutdownPendings == old(w.shutdownPendings)
      ensures r.errors == old(r.errors) + if res == Failed(ReadFailed) then 1 else 0
      ensures w.errors == old(w.errors) + if w.failed then 1 else 0
      ensures w.closed == old(w.closed) && w.zeros == old(w.zeros) + if res == Ready(0) then 1 else 0
      ensures r.faultless && w.faultless ==> !res.Failed? && res != Ready(0)
      ensures res.Pending? ==> !w.prompt
      ensures w.flushPolls == old(w.flushPolls)
      ensures r.pendings >= old(r.pendings)
      ensures w.offered == old(buf[pos..cap])
    {
      hide Reader.Valid, Reader.WholeChunks, Concat, AllInOneFrame, Earlier;
      hide Writer.Valid, Writer.Steps, Writer.Parked, Writer.Packets;
      res := Offer(r, w);
      if res.Pending? && !datagram && !readDone && cap < buf.Length {
        var more := PollFillBuf(r, w);
        if more.Failed? {
          res := Failed(more.error);
        }
      }
    }

    /** Flushes the writer. */
    method FlushWriter(ghost r: Reader, w: Writer) returns (res: Poll<(), IoError>)
      requires Valid(r, w) && !w.failed && !w.closed
      modifies w, w.Inner()
      ensures !res.Failed? ==> Valid(r, w)
      ensures res.Ready? ==> w.flushed == |w.accepted|
      ensures w.failed == res.Failed? && w.accepted == old(w.accepted)
      ensures w.Steps() <= old(w.Steps()) && (res.Pending? ==> w.Steps() < old(w.Steps()))
      ensures w.flushPendings == old(w.flushPendings) + if res.Pending? then 1 else 0
      ensures w.writePendings == old(w.writePendings) && w.shutdownPendings == old(w.shutdownPendings)
      ensures w.errors == old(w.errors) + if res.Failed? then 1 else 0
      ensures res.Failed? ==> (res.error.WriteFailed? || res.error.NotConnected?)
      ensures w.closed == old(w.closed) && w.zeros == old(w.zeros)
      ensures w.faultless ==> !res.Failed?
      ensures res.Pending? ==> !w.prompt
      ensures w.flushPolls == old(w.flushPolls) + 1
    {
      ghost var spans, flushed := w.spans, w.flushed;
      res := w.PollFlush();
      if res.Ready? && datagram {
        FlushInLastFrame(r, w, spans, flushed);
      }
    }

    /** Flushes what was written since the last flush, and remembers that it did. */
    method Flush(ghost r: Reader, w: Writer) returns (res: Poll<(), IoError>)
      requires Valid(r, w) && !w.failed && !w.closed
      modifies this`needFlush, w, w.Inner()
      ensures !res.Failed? ==> Valid(r, w)
      ensures needFlush == if res.Ready? then false else old(needFlush)
      ensures res.Ready? ==> w.flushed == |w.accepted|
      ensures w.failed == res.Failed? && w.accepted == old(w.accepted)
      ensures w.Steps() <= old(w.Steps()) && (res.Pending? ==> w.Steps() < old(w.Steps()))
      ensures w.flushPendings == old(w.flushPendings) + if res.Pending? then 1 else 0
      ensures w.writePendings == old(w.writePendings) && w.shutdownPendings == old(w.shutdownPendings)
      ensures w.errors == old(w.errors) + if res.Failed? then 1 else 0
      ensures res.Failed? ==> (res.error.WriteFailed? || res.error.NotConnected?)
      ensures w.closed == old(w.closed) && w.zeros == old(w.zeros)
      ensures w.faultless ==> !res.Failed?
      ensures res.Pending? ==> !w.prompt
      ensures w.flushPolls == old(w.flushPolls) + 1
    {
      hide Lossless, FrameByFrame;
      res := FlushWriter(r, w);
      if res.Ready? {
        needFlush := false;
      }
    }

    /** What a flush completes lies inside the frame in progress. */
    lemma FlushInLastFrame(r: Reader, w: Writer, spans: seq<(nat, nat)>, flushed: nat)
      requires Lossless(pos, amt, r, w) && r.Valid()
      requires flushed <= |w.accepted| && |Concat(Earlier(r.frames))| <= flushed
      requires AllInOneFrame(r.frames, spans) && w.spans == spans + [(flushed, |w.accepted|)]
      ensures AllInOneFrame(r.frames, w.spans)
    {
      SpanInLastFrame(r.frames, spans, flushed, |w.accepted|);
    }

    /** Resets a fully written buffer. */
    method Empty(ghost r: Reader, ghost w: Writer)
      requires Valid(r, w) && pos == cap
      modifies this`pos, this`cap
      ensures Valid(r, w) && pos == cap == 0
    {
      pos, cap := 0, 0;
    }

    /** Reads into the empty buffer, flushing the writer when the reader has nothing yet. */
    method Refill(r: Reader, w: Writer) returns (res: Poll<(), IoError>)
      requires Valid(r, w) && !w.failed && !w.closed && pos == cap && !readDone && (datagram ==> !needFlush)
      modifies this, buf, r, w, w.Inner()
      ensures !res.Failed? ==> Valid(r, w) && !w.failed
      ensures res.Ready? ==> readDone || |Unread(r.script)| < |Unread(old(r.script))|
      ensures res.Ready? ==> w.flushPendings == old(w.flushPendings)
      ensures res.Pending? ==>
                || (r.pendings > old(r.pendings) && w.flushed == |w.accepted| && pos == cap)
                || w.flushPendings > old(w.flushPendings)
      ensures r.pendings >= old(r.pendings)
      ensures |r.script| <= |old(r.script)| && w.Steps() <= old(w.Steps())
      ensures res.Pending? ==> |r.script| < |old(r.script)|
      ensures r.errors == old(r.errors) + if res == Failed(BrokenPipe) then 1 else 0
      ensures w.errors == old(w.errors) + if res.Failed? && res.error != BrokenPipe then 1 else 0
      ensures res.Failed? ==> !res.error.ReadFailed? && !res.error.WriteZero?
      ensures w.writePendings == old(w.writePendings) && w.shutdownPendings == old(w.shutdownPendings)
      ensures res == Failed(BrokenPipe) ==> pos == cap == 0
      ensures w.closed == old(w.closed) && w.zeros == old(w.zeros)
      ensures r.faultless && w.faultless ==> !res.Failed?
      ensures res.Pending? ==> !(r.prompt && w.prompt)
      ensures w.flushPolls == old(w.flushPolls) + if r.pendings > old(r.pendings) && old(needFlush) then 1 else 0
    {
      Empty(r, w);
      var filled := PollFillBuf(r, w);
      match filled
      case Ready(_) => res := Ready(());
      case Failed(_) => res := Failed(BrokenPipe);
      case Pending =>
        res := Pending;
        if needFlush {
          var flushed := Flush(r, w);
          if flushed.Failed? {
            res := Failed(flushed.error);
          }
        }
    }

    /** Flushes a written datagram, then makes sure there is something to write unless the input has ended. */
    method Prepare(r: Reader, w: Writer) returns (res: Poll<(), IoError>)
      requires Valid(r, w) && !w.failed && !w.closed
      modifies this, buf, r, w, w.Inner()
      ensures !res.Failed? ==> Valid(r, w) && !w.failed
      ensures res.Ready? ==>
                || (|Unread(r.script)| < |Unread(old(r.script))|)
                || (r.script == old(r.script) && readDone == old(readDone)
                    && cap - pos == old(cap) - old(pos) && (pos < cap || readDone))
                || (|Unread(r.script)| == |Unread(old(r.script))| && readDone && !old(readDone))
      ensures res.Pending? ==>
                || (r.pendings > old(r.pendings) && w.flushed == |w.accepted| && pos == cap)
                || w.flushPendings > old(w.flushPendings)
      ensures res.Ready? ==> w.flushPendings == old(w.flushPendings)
      ensures r.pendings >= old(r.pendings)
      ensures |r.script| <= |old(r.script)| && w.Steps() <= old(w.Steps())
      ensures res.Pending? ==> |r.script| + w.Steps() < |old(r.script)| + old(w.Steps())
      ensures r.errors == old(r.errors) + if res == Failed(BrokenPipe) then 1 else 0
      ensures w.errors == old(w.errors) + if res.Failed? && res.error != BrokenPipe then 1 else 0
      ensures res.Failed? ==> !res.error.ReadFailed? && !res.error.WriteZero?
      ensures w.writePendings == old(w.writePendings) && w.shutdownPendings == old(w.shutdownPendings)
      ensures res == Failed(BrokenPipe) ==> pos == cap == 0
      ensures w.closed == old(w.closed) && w.zeros == old(w.zeros)
      ensures r.faultless && w.faultless ==> !res.Failed?
      ensures res.Pending? ==> !(r.prompt && w.prompt)
      // A datagram is flushed before the next read; a byte stream only when the reader has nothing yet.
      ensures w.flushPolls == old(w.flushPolls)
                              + if old(needFlush) && (datagram || r.pendings > old(r.pendings)) then 1 else 0
    {
      Bounds(r, w);
      hide *;
      res := Ready(());
      if datagram && needFlush {
        res := Flush(r, w);
        if !res.Ready? { return; }
      }
      if pos == cap && !readDone {
        res := Refill(r, w);
      }
    }

    /** Writes once and accounts for what was taken; a writer that takes nothing has failed. */
    method WriteSome(r: Reader, w: Writer) returns (res: Poll<(), IoError>)
      requires Valid(r, w) && !w.failed && !w.closed && pos < cap
      modifies this, buf, r, w, w.Inner()
      ensures !res.Failed? ==> Valid(r, w) && !w.failed && pos <= cap
      ensures res.Ready? ==> old(pos) < pos && cap == old(cap) && readDone == old(readDone)
      ensures res.Ready? ==> r.script == old(r.script) && r.pendings == old(r.pendings)
      ensures |r.script| <= |old(r.script)| && w.Steps() <= old(w.Steps())
      ensures res.Pending? ==> w.Steps() < old(w.Steps()) && w.writePendings > old(w.writePendings)
      ensures r.errors == old(r.errors) + if res == Failed(ReadFailed) then 1 else 0
      ensures w.errors ==
              old(w.errors) + if res.Failed? && (res.error.WriteFailed? || res.error.NotConnected?) then 1 else 0
      ensures res.Failed? ==> !res.error.BrokenPipe?
      ensures res == Failed(ReadFailed) ==> pos < cap && !datagram
      ensures res.Ready? ==> w.writePendings == old(w.writePendings)
      ensures w.flushPendings == old(w.flushPendings) && w.shutdownPendings == old(w.shutdownPendings)
      ensures w.closed == old(w.closed) && w.zeros == old(w.zeros) + if res == Failed(WriteZero) then 1 else 0
      ensures r.faultless && w.faultless ==> !res.Failed?
      ensures res.Pending? ==> !w.prompt
      ensures w.flushPolls == old(w.flushPolls)
      ensures r.pendings >= old(r.pendings)
      ensures w.offered == old(buf[pos..cap])
    {
      hide *;
      var written := PollWriteBuf(r, w);
      match written
      case Pending =>
        res := Pending;
        Bounds(r, w);
      case Failed(error) =>
        res := Failed(error);
      case Ready(n) =>
        if n == 0 { return Failed(WriteZero); }
        pos, amt, needFlush := pos + n, amt + n, true;
        Settle(r, w);
        res := Ready(());
    }

    lemma Settle(r: Reader, w: Writer)
      requires ValidAt(pos, amt, r, w) && needFlush
      ensures Valid(r, w) && pos <= cap
    {
    }

    lemma Bounds(r: Reader, w: Writer)
      requires Valid(r, w)
      ensures pos <= cap
    {
    }

    /** Writes until the buffer is fully written. */
    method Drain(r: Reader, w: Writer) returns (res: Poll<(), IoError>)
      requires Valid(r, w) && !w.failed && !w.closed
      modifies this, buf, r, w, w.Inner()
      ensures !res.Failed? ==> Valid(r, w) && !w.failed && pos <= cap
      ensures res.Ready? ==> pos == cap && readDone == old(readDone) && r.script == old(r.script)
      ensures |r.script| <= |old(r.script)| && w.Steps() <= old(w.Steps())
      ensures res.Pending? ==> w.Steps() < old(w.Steps()) && w.writePendings > old(w.writePendings)
      ensures r.errors == old(r.errors) + if res == Failed(ReadFailed) then 1 else 0
      ensures w.errors ==
              old(w.errors) + if res.Failed? && (res.error.WriteFailed? || res.error.NotConnected?) then 1 else 0
      ensures res.Failed? ==> !res.error.BrokenPipe?
      ensures res == Failed(ReadFailed) ==> pos < cap && !datagram
      ensures res.Ready? ==> w.writePendings == old(w.writePendings) && r.pendings == old(r.pendings)
      ensures w.flushPendings == old(w.flushPendings) && w.shutdownPendings == old(w.shutdownPendings)
      ensures w.closed == old(w.closed) && w.zeros == old(w.zeros) + if res == Failed(WriteZero) then 1 else 0
      ensures r.faultless && w.faultless ==> !res.Failed?
      ensures res.Pending? ==> !w.prompt
      ensures w.flushPolls == old(w.flushPolls)
      ensures r.pendings >= old(r.pendings)
    {
      Bounds(r, w);
      hide *;
      while pos < cap
        invariant Valid(r, w) && !w.failed && pos <= cap
        invariant w.closed == old(w.closed) && w.zeros == old(w.zeros)
        invariant w.flushPolls == old(w.flushPolls)
        invariant readDone == old(readDone) && r.script == old(r.script)
        invariant w.Steps() <= old(w.Steps())
        invariant r.errors == old(r.errors) && w.errors == old(w.errors) && r.pendings == old(r.pendings)
        invariant w.writePendings == old(w.writePendings)
        invariant w.flushPendings == old(w.flushPendings) && w.shutdownPendings == old(w.shutdownPendings)
        decreases cap - pos
      {
        res := WriteSome(r, w);
        if !res.Ready? { return; }
      }
      res := Ready(());
    }

    /** An ended reader whose bytes are all written was copied whole, unless the buffer had no room. */
    lemma Finished(r: Reader, w: Writer)
      requires Valid(r, w) && readDone && pos == cap
      ensures amt == |w.accepted| && w.accepted == r.taken
      ensures w.accepted == r.input <==> buf.Length > 0 || r.input == []
    {
      assert buf[pos..cap] == [];
    }

    /** Flushes at the end of the input, and reports how much was copied. */
    method Finish(r: Reader, w: Writer) returns (res: Poll<nat, IoError>)
      requires Valid(r, w) && !w.failed && !w.closed && pos == cap && readDone
      modifies w, w.Inner()
      ensures !res.Failed? ==> Valid(r, w)
      ensures res.Ready? ==>
                && res.value == |w.accepted| == w.flushed && w.accepted == r.taken
                && (w.accepted == r.input <==> buf.Length > 0 || r.input == [])
      ensures w.failed == res.Failed?
      ensures w.Steps() <= old(w.Steps()) && (res.Pending? ==> w.Steps() < old(w.Steps()))
      ensures w.flushPendings == old(w.flushPendings) + if res.Pending? then 1 else 0
      ensures w.shutdownPendings == old(w.shutdownPendings)
      ensures w.errors == old(w.errors) + if res.Failed? then 1 else 0
      ensures res.Failed? ==> (res.error.WriteFailed? || res.error.NotConnected?)
      ensures w.closed == old(w.closed) && w.zeros == old(w.zeros)
      ensures w.faultless ==> !res.Failed?
      ensures res.Pending? ==> !w.prompt
      ensures w.flushPolls == old(w.flushPolls) + 1
    {
      hide *;
      var flushed := FlushWriter(r, w);
      match flushed
      case Pending => res := Pending;
      case Failed(error) => res := Failed(error);
      case Ready(_) =>
        Finished(r, w);
        res := Ready(amt);
    }

    /** Gets something to write if there is more, and writes all of it. */
    method Round(r: Reader, w: Writer) returns (res: Poll<(), IoError>)
      requires Valid(r, w) && !w.failed && !w.closed
      modifies this, buf, r, w, w.Inner()
      ensures !res.Failed? ==> Valid(r, w) && !w.failed
      ensures res.Ready? ==>
                && pos == cap
                && (readDone || |Unread(r.script)| < |Unread(old(r.script))|
                    || (r.script == old(r.script) && old(pos) < old(cap)))
                && w.flushPendings == old(w.flushPendings) && w.writePendings == old(w.writePendings)
                && r.pendings >= old(r.pendings)
      ensures res.Pending? ==>
                || (r.pendings > old(r.pendings) && w.flushed == |w.accepted| && pos == cap)
                || w.flushPendings > old(w.flushPendings)
                || w.writePendings > old(w.writePendings)
      ensures res.Pending? ==> |r.script| + w.Steps() < |old(r.script)| + old(w.Steps())
      ensures |r.script| <= |old(r.script)| && w.Steps() <= old(w.Steps())
      ensures r.errors == old(r.errors) + if res.Failed? && (res.error.BrokenPipe? || res.error.ReadFailed?) then 1 else 0
      ensures w.errors ==
              old(w.errors) + if res.Failed? && (res.error.WriteFailed? || res.error.NotConnected?) then 1 else 0
      ensures res == Failed(BrokenPipe) ==> pos == cap == 0
      ensures res == Failed(ReadFailed) ==> pos < cap && !datagram
      ensures w.shutdownPendings == old(w.shutdownPendings)
      ensures w.closed == old(w.closed) && w.zeros == old(w.zeros) + if res == Failed(WriteZero) then 1 else 0
      ensures r.faultless && w.faultless ==> !res.Failed?
      ensures res.Pending? ==> !(r.prompt && w.prompt)
      ensures !datagram && w.flushPolls > old(w.flushPolls) ==> r.pendings > old(r.pendings)
      ensures r.pendings >= old(r.pendings)
    {
      Bounds(r, w);
      hide *;
      res := Prepare(r, w);
      if res.Ready? {
        res := Drain(r, w);
      }
    }

    /**
     Copies until the input has ended and everything is written and flushed, a collaborator fails,
     or one of them is not ready.
    */
    method PollCopy(r: Reader, w: Writer) returns (res: Poll<nat, IoError>)
      requires Valid(r, w) && !w.failed && !w.closed
      modifies this, buf, r, w, w.Inner()
      ensures !res.Failed? ==> Valid(r, w) && !w.failed
      // Success: the reader has ended, and everything it handed out is written and flushed.
      ensures res.Ready? ==>
                && readDone && pos == cap && res.value == |w.accepted| == w.flushed && w.accepted == r.taken
                && (w.accepted == r.input <==> buf.Length > 0 || r.input == [])
      // Not ready: some collaborator was not; a reader only after everything written is flushed.
      ensures res.Pending? ==>
                || (r.pendings > old(r.pendings) && w.flushed == |w.accepted| && pos == cap)
                || w.flushPendings > old(w.flushPendings)
                || w.writePendings > old(w.writePendings)
      ensures res.Pending? ==> |r.script| + w.Steps() < |old(r.script)| + old(w.Steps())
      ensures |r.script| <= |old(r.script)| && w.Steps() <= old(w.Steps())
      // Failure: exactly the failures of the collaborators, and a write of nothing.
      ensures r.errors == old(r.errors) + if res.Failed? && (res.error.BrokenPipe? || res.error.ReadFailed?) then 1 else 0
      ensures w.errors ==
              old(w.errors) + if res.Failed? && (res.error.WriteFailed? || res.error.NotConnected?) then 1 else 0
      ensures res == Failed(BrokenPipe) ==> pos == cap == 0
      ensures res == Failed(ReadFailed) ==> pos < cap && !datagram
      ensures w.shutdownPendings == old(w.shutdownPendings)
      ensures w.closed == old(w.closed) && w.zeros == old(w.zeros) + if res == Failed(WriteZero) then 1 else 0
      ensures r.faultless && w.faultless ==> !res.Failed?
      ensures res.Pending? ==> !(r.prompt && w.prompt)
      // A byte stream is flushed only when the reader has nothing yet, or at the end.
      ensures !datagram && w.flushPolls > old(w.flushPolls) ==> r.pendings > old(r.pendings) || (readDone && pos == cap)
      ensures r.pendings >= old(r.pendings)
    {
      Bounds(r, w);
      hide *;
      while true
        invariant Valid(r, w) && !w.failed && pos <= cap
        invariant w.closed == old(w.closed) && w.zeros == old(w.zeros)
        invariant !datagram && w.flushPolls > old(w.flushPolls) ==> r.pendings > old(r.pendings)
        invariant |r.script| <= |old(r.script)| && w.Steps() <= old(w.Steps())
        invariant r.errors == old(r.errors) && w.errors == old(w.errors)
        invariant r.pendings >= old(r.pendings) && w.shutdownPendings == old(w.shutdownPendings)
        invariant w.flushPendings == old(w.flushPendings) && w.writePendings == old(w.writePendings)
        decreases |Unread(r.script)|, cap - pos
      {
        var round := Round(r, w);
        if round.Pending? { return Pending; }
        if round.Failed? { return Failed(round.error); }

        if pos == cap && readDone {
          res := Finish(r, w);
          return;
        }
      }
    }

    /** At every point what was written is a prefix of the input. */
    lemma Prefix(r: Reader, w: Writer)
      requires Valid(r, w)
      ensures w.accepted <= r.input && amt == |w.accepted|
    {
      Associative(w.accepted, buf[pos..cap], Unread(r.script));
    }

    /**
     What a UDP stream has been given is the input up to `amt`, followed by the packet it has queued
     but not reported; that packet is the beginning of what the buffer still holds.
    */
    lemma QueueIsInput(r: Reader, w: Writer)
      requires Valid(r, w) && !w.failed && !w.closed && w.udp != null
      ensures amt <= |r.input| && Concat(w.udp.queue) == r.input[..amt] + w.Parked()
      ensures w.Parked() <= buf[pos..cap]
      ensures w.Parked() != [] <==> w.udp.state.Flushing?
    {
      var queue := w.udp.queue;
      if w.udp.state.Flushing? {
        assert queue == w.Packets() + [w.Parked()];
        ConcatAppend(w.Packets(), w.Parked());
      }
      assert r.input == w.accepted + (buf[pos..cap] + Unread(r.script)) by {
        Associative(w.accepted, buf[pos..cap], Unread(r.script));
      }
    }

    /** Datagram mode over UDP: the packets queued are the datagrams read, one for one and in order. */
    lemma PacketsAreDatagrams(r: Reader, w: Writer)
      requires Valid(r, w) && datagram && w.udp != null
      ensures w.udp.queue == r.frames || w.udp.queue == Earlier(r.frames)
      ensures r.frames <= r.datagrams
      ensures readDone && pos == cap && buf.Length > 0 ==> w.udp.queue == r.datagrams
    {
      assert w.udp.state.Flushing? ==> w.udp.queue == w.Packets() + [w.Parked()];
      assert r.frames != [] ==> r.frames == Earlier(r.frames) + [r.frames[|r.frames| - 1]];
    }

    /**
     Datagram mode: every accepted write and everything written between two completed flushes lies
     inside one datagram, and all datagrams but the one in progress are written and flushed.
    */
    lemma DatagramsStayApart(r: Reader, w: Writer, i: nat)
      requires Valid(r, w) && datagram && i < |w.spans|
      ensures InOneFrame(r.datagrams, w.spans[i].0, w.spans[i].1)
      ensures Concat(Earlier(r.frames)) <= w.accepted[..w.flushed]
    {
      MoreFrames(r.frames, Chunks(r.script), w.spans);
      assert InOneFrame(r.datagrams, w.spans[i].0, w.spans[i].1);
      assert r.frames != [] ==> Concat(r.frames) == Concat(Earlier(r.frames)) + r.frames[|r.frames| - 1];
      assert Concat(Earlier(r.frames)) <= r.taken;
      assert w.accepted <= r.taken;
    }
  }
}
