/**
 The two collaborators of a copy: something bytes are read from and something bytes are written to.
 Each answers from a finite script fixed in advance; a script that has run out answers without
 delay (end of input, everything accepted). A copy is deterministic, so quantifying over scripts
 quantifies over every environment, including one that reacts to what it is sent.
*/
module Endpoints {
  import opened Polling

  type Byte(==, 0)

  datatype IoError = BrokenPipe | WriteZero | NotConnected | ReadFailed | WriteFailed

  datatype ReadStep = ReadPending | ReadChunk(bytes: seq<Byte>) | ReadError

  /** The chunks a script still has to hand out. */
  function Chunks(script: seq<ReadStep>): seq<seq<Byte>> {
    if script == [] then []
    else if script[0].ReadChunk? then [script[0].bytes] + Chunks(script[1..])
    else Chunks(script[1..])
  }

  /** The bytes a script still has to hand out. */
  function Unread(script: seq<ReadStep>): seq<Byte> {
    if script == [] then []
    else if script[0].ReadChunk? then script[0].bytes + Unread(script[1..])
    else Unread(script[1..])
  }

  predicate NoEmptyChunks(script: seq<ReadStep>) {
    forall i :: 0 <= i < |script| && script[i].ReadChunk? ==> script[i].bytes != []
  }

  predicate NoReadErrors(script: seq<ReadStep>) {
    forall i :: 0 <= i < |script| ==> !script[i].ReadError?
  }

  predicate NoReadDelays(script: seq<ReadStep>) {
    forall i :: 0 <= i < |script| ==> !script[i].ReadPending?
  }

  /** The script after the first `k` bytes of its first chunk were handed out. */
  function Shortened(script: seq<ReadStep>, k: nat): seq<ReadStep>
    requires script != [] && script[0].ReadChunk? && k < |script[0].bytes|
  {
    [ReadChunk(script[0].bytes[k..])] + script[1..]
  }

  lemma UnreadSplit(script: seq<ReadStep>, k: nat)
    requires script != [] && script[0].ReadChunk? && k < |script[0].bytes|
    ensures Unread(script) == script[0].bytes[..k] + Unread(Shortened(script, k))
    ensures NoReadErrors(script) ==> NoReadErrors(Shortened(script, k))
    ensures NoReadDelays(script) ==> NoReadDelays(Shortened(script, k))
    ensures NoEmptyChunks(script) ==> NoEmptyChunks(Shortened(script, k))
  {
    var bytes, later := script[0].bytes, script[1..];
    var rest := Shortened(script, k);
    assert rest[1..] == later && rest[0].bytes == bytes[k..];
    assert bytes == bytes[..k] + bytes[k..];
    Associative(bytes[..k], bytes[k..], Unread(later));
  }

  /** A readable endpoint. */
  class Reader {
    var script: seq<ReadStep>
    /** Everything the reader will ever hand out, and the chunks it comes in. */
    ghost const input: seq<Byte>
    ghost const datagrams: seq<seq<Byte>>
    /** Whether the reader never fails, and whether it is always ready. */
    ghost const faultless: bool
    ghost const prompt: bool
    /** What has been handed out so far, and in which pieces. */
    ghost var taken: seq<Byte>
    ghost var frames: seq<seq<Byte>>
    ghost var polls: nat
    ghost var pendings: nat
    ghost var errors: nat

    ghost predicate Valid()
      reads this
    {
      && input == taken + Unread(script)
      && taken == Concat(frames)
      && NoEmptyChunks(script)
      && (faultless ==> NoReadErrors(script))
      && (prompt ==> NoReadDelays(script))
    }

    /** Every read so far returned one whole chunk, and the chunks to come fit into `room` bytes. */
    ghost predicate WholeChunks(room: nat)
      reads this
    {
      && datagrams == frames + Chunks(script)
      && (forall i :: 0 <= i < |script| && script[i].ReadChunk? ==> |script[i].bytes| <= room)
    }

    constructor (script: seq<ReadStep>)
      requires NoEmptyChunks(script)
      ensures Valid() && taken == [] && frames == [] && pendings == 0 && errors == 0
      ensures this.script == script && input == Unread(script) && datagrams == Chunks(script)
      ensures (faultless <==> NoReadErrors(script)) && (prompt <==> NoReadDelays(script))
    {
      this.script := script;
      faultless, prompt := NoReadErrors(script), NoReadDelays(script);
      input, datagrams := Unread(script), Chunks(script);
      taken, frames, polls, pendings, errors := [], [], 0, 0, 0;
    }

    /** What the reader hands out when there is room for `room` bytes. */
    method Next(room: nat) returns (r: Poll<seq<Byte>, IoError>)
      requires Valid()
      modifies this
      ensures Valid()
      ensures r.Ready? ==>
                && |r.value| <= room
                && taken == old(taken) + r.value
                && frames == if r.value == [] then old(frames) else old(frames) + [r.value]
      // A read with room for data that yields none is the end of the input.
      ensures r == Ready([]) ==> room == 0 || script == []
      ensures !r.Ready? ==> taken == old(taken) && frames == old(frames)
      ensures r.Failed? ==> r.error == ReadFailed && !faultless
      ensures r.Pending? ==> !prompt
      ensures old(WholeChunks(room)) ==> WholeChunks(room)
      ensures |script| <= |old(script)| && (r.Pending? ==> |script| < |old(script)|)
      ensures polls == old(polls) + 1
      ensures pendings == old(pendings) + if r.Pending? then 1 else 0
      ensures errors == old(errors) + if r.Failed? then 1 else 0
    {
      polls := polls + 1;
      if script == [] {
        return Ready([]);
      }
      var step := script[0];
      match step
      case ReadPending =>
        script, pendings, r := script[1..], pendings + 1, Pending;
      case ReadError =>
        script, errors, r := script[1..], errors + 1, Failed(ReadFailed);
      case ReadChunk(bytes) =>
        if |bytes| <= room {
          HandOut(bytes);
          r := Ready(bytes);
        } else {
          Split(bytes, room);
          r := Ready(bytes[..room]);
        }
    }

    /** Hands out the chunk at the head of the script. */
    method HandOut(bytes: seq<Byte>)
      requires Valid() && script != [] && script[0] == ReadChunk(bytes)
      modifies this`script, this`taken, this`frames
      ensures Valid()
      ensures taken == old(taken) + bytes && frames == old(frames) + [bytes]
      ensures script == old(script)[1..]
      ensures datagrams == old(frames + Chunks(script)) ==> datagrams == frames + Chunks(script)
    {
      script := script[1..];
      ConcatAppend(frames, bytes);
      Associative(taken, bytes, Unread(script));
      Associative(frames, [bytes], Chunks(script));
      taken, frames := taken + bytes, frames + [bytes];
    }

    /** Hands out the first `room` bytes of a chunk that is longer than that. */
    method Split(bytes: seq<Byte>, room: nat)
      requires Valid() && script != [] && script[0] == ReadChunk(bytes) && room < |bytes|
      modifies this`script, this`taken, this`frames
      ensures Valid()
      ensures taken == old(taken) + bytes[..room]
      ensures frames == if room == 0 then old(frames) else old(frames) + [bytes[..room]]
      ensures |script| == |old(script)| && script[0].ReadChunk?
    {
      hide Unread, NoReadErrors, NoReadDelays, NoEmptyChunks, Concat;
      UnreadSplit(script, room);
      var rest := Shortened(script, room);
      Associative(taken, bytes[..room], Unread(rest));
      script, taken := rest, taken + bytes[..room];
      if room > 0 {
        ConcatAppend(frames, bytes[..room]);
        frames := frames + [bytes[..room]];
      }
    }

    /** Fills `buf` from `filled` on and answers how much of it is filled now. */
    method PollRead(buf: array<Byte>, filled: nat) returns (r: Poll<nat, IoError>)
      requires Valid() && filled <= buf.Length
      modifies this, buf
      ensures Valid()
      ensures forall p: nat :: p <= filled ==> buf[p..filled] == old(buf[p..filled])
      ensures var end := if r.Ready? then r.value else filled;
              && filled <= end <= buf.Length
              && taken == old(taken) + buf[filled..end]
              && frames == if end == filled then old(frames) else old(frames) + [buf[filled..end]]
      ensures r == Ready(filled) ==> filled == buf.Length || script == []
      ensures r.Failed? ==> r.error == ReadFailed && !faultless
      ensures r.Pending? ==> !prompt
      ensures filled == 0 && old(WholeChunks(buf.Length)) ==> WholeChunks(buf.Length)
      ensures |script| <= |old(script)| && (r.Pending? ==> |script| < |old(script)|)
      ensures polls == old(polls) + 1
      ensures pendings == old(pendings) + if r.Pending? then 1 else 0
      ensures errors == old(errors) + if r.Failed? then 1 else 0
    {
      hide Valid, WholeChunks, Concat;
      var got := Next(buf.Length - filled);
      match got
      case Pending => r := Pending;
      case Failed(error) => r := Failed(error);
      case Ready(bytes) =>
        forall i | 0 <= i < |bytes| {
          buf[filled + i] := bytes[i];
        }
        assert buf[filled..filled + |bytes|] == bytes;
        r := Ready(filled + |bytes|);
    }
  }

  datatype WriteStep = WritePending | WriteTake(n: nat) | WriteError

  datatype UdpState = Writing | Flushing(len: nat)

  predicate NoErrors(steps: seq<Step>) {
    forall i :: 0 <= i < |steps| ==> steps[i] != StepError
  }

  predicate AllOk(steps: seq<Step>) {
    forall i :: 0 <= i < |steps| ==> steps[i] == StepOk
  }

  predicate NoDelays(steps: seq<Step>) {
    forall i :: 0 <= i < |steps| ==> steps[i] != StepPending
  }

  /** The next scripted answer. */
  function Head(steps: seq<Step>): (step: Step)
    ensures step != StepOk ==> steps != []
    ensures NoErrors(steps) ==> step != StepError
    ensures NoDelays(steps) ==> step != StepPending
    ensures AllOk(steps) ==> step == StepOk
  {
    if steps == [] then StepOk else steps[0]
  }

  /** The answers after the next one. */
  function Rest(steps: seq<Step>): (rest: seq<Step>)
    ensures |rest| == if steps == [] then 0 else |steps| - 1
    ensures NoErrors(steps) ==> NoErrors(rest)
    ensures NoDelays(steps) ==> NoDelays(rest)
    ensures AllOk(steps) ==> AllOk(rest)
  {
    if steps == [] then [] else steps[1..]
  }

  /**
   The UDP stream as a writer: one packet per write, queued into the egress channel and flushed
   before the write is reported. `queue` is what the egress channel has been given.
  */
  class ConnectedUdpStream {
    var state: UdpState
    const connected: bool
    var queue: seq<seq<Byte>>
    var readies: seq<Step>
    var sends: seq<Step>
    var flushes: seq<Step>
    var closes: seq<Step>
    /** Whether the stream is connected and its egress channel never fails, and whether that is always ready. */
    ghost const faultless: bool
    ghost const prompt: bool

    /** The packet that is queued but whose length has not been reported yet. */
    ghost function Parked(): seq<Byte>
      reads this
    {
      if state.Flushing? && queue != [] then queue[|queue| - 1] else []
    }

    /** The packets whose length has been reported. */
    ghost function Settled(): seq<seq<Byte>>
      reads this
    {
      if state.Flushing? && queue != [] then queue[..|queue| - 1] else queue
    }

    ghost predicate Valid()
      reads this
    {
      && (state.Flushing? ==> queue != [] && state.len == |queue[|queue| - 1]|)
      && (faultless ==>
            connected && NoErrors(readies) && AllOk(sends) && NoErrors(flushes) && NoErrors(closes))
      && (prompt ==> NoDelays(readies) && NoDelays(flushes) && NoDelays(closes))
    }

    ghost function Steps(): nat
      reads this
    {
      |readies| + |sends| + |flushes| + |closes|
    }

    constructor (connected: bool, readies: seq<Step>, sends: seq<Step>, flushes: seq<Step>, closes: seq<Step>)
      ensures Valid() && state == Writing && queue == [] && this.connected == connected
      ensures faultless <==>
                connected && NoErrors(readies) && AllOk(sends) && NoErrors(flushes) && NoErrors(closes)
      ensures prompt <==> NoDelays(readies) && NoDelays(flushes) && NoDelays(closes)
    {
      prompt := NoDelays(readies) && NoDelays(flushes) && NoDelays(closes);
      faultless := connected && NoErrors(readies) && AllOk(sends) && NoErrors(flushes) && NoErrors(closes);
      state, this.connected, queue := Writing, connected, [];
      this.readies, this.sends, this.flushes, this.closes := readies, sends, flushes, closes;
    }

    method PollWrite(slice: seq<Byte>) returns (r: Poll<nat, IoError>)
      requires Valid()
      modifies this
      ensures Valid()
      // The packet reported is the one queued when this write was first attempted, not `slice`.
      ensures r.Ready? ==>
                && state == Writing
                && queue == old(Settled()) + [if old(state.Flushing?) then old(Parked()) else slice]
                && r.value == |queue[|queue| - 1]|
      ensures r.Pending? ==>
                && Settled() == old(Settled())
                && (state.Flushing? ==> Parked() == if old(state.Flushing?) then old(Parked()) else slice)
                && (old(state.Flushing?) ==> state.Flushing?)
      ensures Steps() <= old(Steps()) && (r.Pending? ==> Steps() < old(Steps()))
      ensures r.Failed? ==> !faultless && r.error == if connected then WriteFailed else NotConnected
      ensures r.Pending? ==> !prompt
      ensures r.Failed? ==> state == Writing || state == old(state)
      // A packet that is queued is flushed next: its write is reported when that flush succeeds, and only then.
      ensures old(state.Flushing?) ==> readies == old(readies) && sends == old(sends)
      ensures queue != old(queue) ==>
                && Head(old(readies)) == StepOk && readies == Rest(old(readies))
                && Head(old(sends)) == StepOk && sends == Rest(old(sends))
      ensures connected && old(state.Writing?) && Head(old(readies)) == StepPending ==> r.Pending? && queue == old(queue)
      ensures r.Ready? ==> Head(old(flushes)) == StepOk && flushes == Rest(old(flushes))
      ensures r.Pending? ==>
                if state.Flushing? then Head(old(flushes)) == StepPending && flushes == Rest(old(flushes))
                else flushes == old(flushes)
      ensures r.Failed? && connected && (old(state.Flushing?) || queue != old(queue)) ==>
                Head(old(flushes)) == StepError && flushes == Rest(old(flushes))
    {
      hide NoErrors, NoDelays, AllOk;
      if !connected {
        return Failed(NotConnected);
      }
      while true
        invariant Valid()
        invariant Steps() <= old(Steps())
        invariant Settled() == old(Settled())
        invariant old(state.Flushing?) ==> state.Flushing? && Parked() == old(Parked())
        invariant !old(state.Flushing?) && state.Flushing? ==> Parked() == slice
        invariant flushes == old(flushes)
        invariant state.Writing? || old(state.Flushing?) ==>
                    queue == old(queue) && readies == old(readies) && sends == old(sends)
        invariant state.Flushing? && !old(state.Flushing?) ==>
                    && Head(old(readies)) == StepOk && readies == Rest(old(readies))
                    && Head(old(sends)) == StepOk && sends == Rest(old(sends))
        decreases state.Writing?
      {
        match state
        case Writing =>
          var ready := Head(readies);
          readies := Rest(readies);
          if ready.StepPending? { return Pending; }
          if ready.StepError? { return Failed(WriteFailed); }
          var send := Head(sends);
          sends := Rest(sends);
          if !send.StepOk? { return Failed(WriteFailed); }
          queue := queue + [slice];
          state := Flushing(|slice|);
        case Flushing(len) =>
          var flush := Head(flushes);
          flushes := Rest(flushes);
          if flush.StepPending? { return Pending; }
          state := Writing;
          assert queue == queue[..|queue| - 1] + [queue[|queue| - 1]];
          return if flush.StepOk? then Ready(len) else Failed(WriteFailed);
      }
    }

    method PollFlush() returns (r: Poll<(), IoError>)
      requires Valid()
      modifies this`flushes
      ensures Valid()
      // The answer is that of the egress channel.
      ensures connected ==>
                && flushes == Rest(old(flushes))
                && (r.Ready? <==> Head(old(flushes)) == StepOk) && (r.Pending? <==> Head(old(flushes)) == StepPending)
      ensures Steps() <= old(Steps()) && (r.Pending? ==> Steps() < old(Steps()))
      ensures r.Failed? ==> !faultless && r.error == if connected then WriteFailed else NotConnected
      ensures r.Pending? ==> !prompt
    {
      hide NoErrors, NoDelays, AllOk;
      if !connected {
        return Failed(NotConnected);
      }
      var flush := Head(flushes);
      flushes := Rest(flushes);
      match flush
      case StepPending => r := Pending;
      case StepOk => r := Ready(());
      case StepError => r := Failed(WriteFailed);
    }

    method PollShutdown() returns (r: Poll<(), IoError>)
      requires Valid()
      modifies this`closes
      ensures Valid()
      // The answer is that of the egress channel.
      ensures connected ==>
                && closes == Rest(old(closes))
                && (r.Ready? <==> Head(old(closes)) == StepOk) && (r.Pending? <==> Head(old(closes)) == StepPending)
      ensures Steps() <= old(Steps()) && (r.Pending? ==> Steps() < old(Steps()))
      ensures r.Failed? ==> !faultless && r.error == if connected then WriteFailed else NotConnected
      ensures r.Pending? ==> !prompt
    {
      hide NoErrors, NoDelays, AllOk;
      if !connected {
        return Failed(NotConnected);
      }
      var close := Head(closes);
      closes := Rest(closes);
      match close
      case StepPending => r := Pending;
      case StepOk => r := Ready(());
      case StepError => r := Failed(WriteFailed);
    }
  }

  /** A writable endpoint: a UDP stream when there is one, otherwise an arbitrary script of answers. */
  class Writer {
    const udp: ConnectedUdpStream?
    var writes: seq<WriteStep>
    var flushes: seq<Step>
    var shutdowns: seq<Step>
    /** The bytes whose acceptance was reported, and how many of them a completed flush covers. */
    ghost var accepted: seq<Byte>
    ghost var flushed: nat
    /** Every accepted write and every stretch between two completed flushes, as byte positions. */
    ghost var spans: seq<(nat, nat)>
    ghost var failed: bool
    /** Whether a shutdown has completed. */
    ghost var closed: bool
    /** Whether the writer never fails and always takes something of what it is offered; and whether it is always ready. */
    ghost const faultless: bool
    ghost const prompt: bool
    ghost var writePendings: nat
    ghost var flushPendings: nat
    ghost var shutdownPendings: nat
    ghost var errors: nat
    /** How many writes were accepted that took nothing, and how often the writer was asked to flush. */
    ghost var zeros: nat
    ghost var flushPolls: nat
    /** What the last write was offered. */
    ghost var offered: seq<Byte>

    ghost function Inner(): set<ConnectedUdpStream> {
      if udp == null then {} else {udp}
    }

    /** Bytes a pending write has already taken; the next write must start with them. */
    ghost function Parked(): seq<Byte>
      reads this, Inner()
    {
      if udp == null then [] else udp.Parked()
    }

    /** The packets a UDP stream has queued and reported. */
    ghost function Packets(): seq<seq<Byte>>
      reads this, Inner()
    {
      if udp == null then [] else udp.Settled()
    }

    ghost predicate Valid()
      reads this, Inner()
    {
      && flushed <= |accepted|
      && (udp != null ==>
            && udp.Valid()
            && (udp.state.Flushing? ==> udp.state.len > 0)
            && (!failed ==> Concat(Packets()) == accepted))
      && (faultless ==> Untroubled())
      && (prompt ==> Undelayed())
    }

    /** No answer still to come is a delay. */
    ghost predicate Undelayed()
      reads this
    {
      if udp != null then udp.prompt
      else WritePending !in writes && NoDelays(flushes) && NoDelays(shutdowns)
    }

    /** No answer still to come is a failure or takes nothing. */
    ghost predicate Untroubled()
      reads this
    {
      if udp != null then udp.faultless
      else WriteError !in writes && WriteTake(0) !in writes && NoErrors(flushes) && NoErrors(shutdowns)
    }

    ghost function Steps(): nat
      reads this, Inner()
    {
      |writes| + |flushes| + |shutdowns| + if udp == null then 0 else udp.Steps()
    }

    constructor (udp: ConnectedUdpStream?, writes: seq<WriteStep>, flushes: seq<Step>, shutdowns: seq<Step>)
      requires udp != null ==> udp.Valid() && udp.state == Writing && udp.queue == []
      ensures Valid() && !failed && !closed && Parked() == [] && this.udp == udp
      ensures accepted == [] && flushed == 0 && spans == []
      ensures faultless <==>
                if udp != null then udp.faultless
                else WriteError !in writes && WriteTake(0) !in writes && NoErrors(flushes) && NoErrors(shutdowns)
      ensures prompt <==>
                if udp != null then udp.prompt
                else WritePending !in writes && NoDelays(flushes) && NoDelays(shutdowns)
    {
      prompt := if udp != null then udp.prompt
        else WritePending !in writes && NoDelays(flushes) && NoDelays(shutdowns);
      faultless :=
        if udp != null then udp.faultless
        else WriteError !in writes && WriteTake(0) !in writes && NoErrors(flushes) && NoErrors(shutdowns);
      this.udp, this.writes, this.flushes, this.shutdowns := udp, writes, flushes, shutdowns;
      accepted, flushed, spans, failed, closed := [], 0, [], false, false;
      writePendings, flushPendings, shutdownPendings, errors, zeros, flushPolls := 0, 0, 0, 0, 0, 0;
      offered := [];
    }

    /** A write to the UDP stream; the packet it reports may have been queued by an earlier attempt. */
    method WriteUdp(slice: seq<Byte>) returns (r: Poll<nat, IoError>)
      requires udp != null && Valid() && !failed && Parked() <= slice && slice != []
      modifies udp
      ensures udp.Valid() && (udp.state.Flushing? ==> udp.state.len > 0)
      ensures r.Ready? ==>
                && 0 < r.value <= |slice|
                && Parked() == []
                && Packets() == old(Packets()) + [slice[..r.value]]
                && Concat(Packets()) == accepted + slice[..r.value]
                && r.value == if old(Parked()) == [] then |slice| else |old(Parked())|
      ensures r.Pending? ==>
                && Packets() == old(Packets()) && old(Parked()) <= Parked() <= slice
                && (Parked() == [] || Parked() == if old(Parked()) == [] then slice else old(Parked()))
      ensures r.Failed? ==> !udp.faultless && (r.error.WriteFailed? || r.error.NotConnected?)
      ensures r.Pending? ==> !udp.prompt
      ensures udp.Steps() <= old(udp.Steps()) && (r.Pending? ==> udp.Steps() < old(udp.Steps()))
    {
      hide Concat, NoErrors, NoDelays, AllOk;
      r := udp.PollWrite(slice);
      if r.Ready? {
        var packet := udp.queue[|udp.queue| - 1];
        assert packet == slice[..r.value];
        ConcatAppend(old(udp.Settled()), packet);
      }
    }

    method PollWrite(slice: seq<Byte>) returns (r: Poll<nat, IoError>)
      requires Valid() && !failed && !closed && Parked() <= slice && slice != []
      modifies this, Inner()
      ensures Valid()
      ensures failed == r.Failed?
      ensures r.Ready? ==>
                && r.value <= |slice|
                && accepted == old(accepted) + slice[..r.value]
                && Parked() == []
                && spans == old(spans) + [(|old(accepted)|, |accepted|)]
      ensures !r.Ready? ==> accepted == old(accepted) && spans == old(spans)
      ensures r.Pending? ==> old(Parked()) <= Parked() <= slice
      ensures flushed == old(flushed)
      // A UDP stream reports the packet it queued when this write was first attempted.
      ensures udp != null && r.Ready? ==>
                && Packets() == old(Packets()) + [slice[..r.value]]
                && r.value == if old(Parked()) == [] then |slice| else |old(Parked())|
      ensures udp != null && r.Pending? ==>
                && Packets() == old(Packets())
                && (Parked() == [] || Parked() == if old(Parked()) == [] then slice else old(Parked()))
      ensures Steps() <= old(Steps()) && (r.Pending? ==> Steps() < old(Steps()))
      ensures writePendings == old(writePendings) + if r.Pending? then 1 else 0
      ensures flushPendings == old(flushPendings) && shutdownPendings == old(shutdownPendings)
      ensures errors == old(errors) + if r.Failed? then 1 else 0
      ensures zeros == old(zeros) + if r == Ready(0) then 1 else 0
      ensures faultless ==> !r.Failed? && r != Ready(0)
      ensures r.Pending? ==> !prompt
      ensures flushPolls == old(flushPolls) && offered == slice
      ensures closed == old(closed)
      ensures r.Failed? ==> r.error.WriteFailed? || r.error.NotConnected?
    {
      hide Concat, NoErrors, NoDelays, AllOk, ConnectedUdpStream.Valid, ConnectedUdpStream.Steps;
      if udp != null {
        r := WriteUdp(slice);
      } else {
        r := PollScript(slice);
      }
      offered := slice;
      match r
      case Pending => writePendings := writePendings + 1;
      case Failed(_) => failed, errors := true, errors + 1;
      case Ready(n) =>
        spans := spans + [(|accepted|, |accepted| + n)];
        accepted := accepted + slice[..n];
        zeros := zeros + if n == 0 then 1 else 0;
    }

    /** The scripted answer to a write; it never claims more than it was offered. */
    method PollScript(slice: seq<Byte>) returns (r: Poll<nat, IoError>)
      requires (faultless ==> WriteError !in writes && WriteTake(0) !in writes) && (prompt ==> WritePending !in writes)
      requires slice != []
      modifies this`writes
      ensures faultless ==> WriteError !in writes && WriteTake(0) !in writes && !r.Failed? && r != Ready(0)
      ensures prompt ==> WritePending !in writes && !r.Pending?
      ensures r.Ready? ==> r.value <= |slice|
      ensures r.Failed? ==> r.error == WriteFailed
      ensures |writes| <= |old(writes)| && (r.Pending? ==> |writes| < |old(writes)|)
    {
      var step := if writes == [] then WriteTake(|slice|) else writes[0];
      writes := if writes == [] then [] else writes[1..];
      match step
      case WritePending => r := Pending;
      case WriteTake(n) => r := Ready(if n <= |slice| then n else |slice|);
      case WriteError => r := Failed(WriteFailed);
    }

    method FlushScript() returns (r: Poll<(), IoError>)
      requires (faultless ==> NoErrors(flushes)) && (prompt ==> NoDelays(flushes))
      modifies `flushes
      ensures (faultless ==> NoErrors(flushes) && !r.Failed?) && (prompt ==> NoDelays(flushes) && !r.Pending?)
      ensures |flushes| <= old(|flushes|) && (r.Pending? ==> |flushes| < old(|flushes|))
      ensures r.Failed? ==> r.error == WriteFailed
    {
      var step := Head(flushes);
      flushes := Rest(flushes);
      match step
      case StepPending => r := Pending;
      case StepOk => r := Ready(());
      case StepError => r := Failed(WriteFailed);
    }

    method PollFlush() returns (r: Poll<(), IoError>)
      requires Valid() && !failed
      modifies this, Inner()
      ensures Valid()
      ensures failed == r.Failed?
      ensures accepted == old(accepted)
      ensures flushed == if r.Ready? then |accepted| else old(flushed)
      ensures spans == old(spans) + if r.Ready? then [(old(flushed), |accepted|)] else []
      ensures Parked() == old(Parked())
      ensures Packets() == old(Packets())
      ensures Steps() <= old(Steps()) && (r.Pending? ==> Steps() < old(Steps()))
      ensures flushPendings == old(flushPendings) + if r.Pending? then 1 else 0
      ensures writePendings == old(writePendings) && shutdownPendings == old(shutdownPendings)
      ensures errors == old(errors) + if r.Failed? then 1 else 0
      ensures zeros == old(zeros) && closed == old(closed) && (faultless ==> !r.Failed?)
      ensures flushPolls == old(flushPolls) + 1 && (r.Pending? ==> !prompt)
      ensures r.Failed? ==> r.error.WriteFailed? || r.error.NotConnected?
    {
      hide Concat, NoErrors, NoDelays, AllOk, ConnectedUdpStream.Valid;
      if udp != null {
        r := udp.PollFlush();
      } else {
        r := FlushScript();
      }
      flushPolls := flushPolls + 1;
      match r
      case Pending => flushPendings := flushPendings + 1;
      case Failed(_) => failed, errors := true, errors + 1;
      case Ready(_) => spans, flushed := spans + [(flushed, |accepted|)], |accepted|;
    }

    method ShutdownScript() returns (r: Poll<(), IoError>)
      requires (faultless ==> NoErrors(shutdowns)) && (prompt ==> NoDelays(shutdowns))
      modifies `shutdowns
      ensures (faultless ==> NoErrors(shutdowns) && !r.Failed?) && (prompt ==> NoDelays(shutdowns) && !r.Pending?)
      ensures |shutdowns| <= old(|shutdowns|) && (r.Pending? ==> |shutdowns| < old(|shutdowns|))
      ensures r.Failed? ==> r.error == WriteFailed
    {
      var step := Head(shutdowns);
      shutdowns := Rest(shutdowns);
      match step
      case StepPending => r := Pending;
      case StepOk => r := Ready(());
      case StepError => r := Failed(WriteFailed);
    }

    method PollShutdown() returns (r: Poll<(), IoError>)
      requires Valid() && !failed && !closed
      modifies this, Inner()
      ensures Valid()
      ensures failed == r.Failed?
      ensures accepted == old(accepted) && flushed == old(flushed) && spans == old(spans)
      ensures Parked() == old(Parked())
      ensures Packets() == old(Packets())
      ensures Steps() <= old(Steps()) && (r.Pending? ==> Steps() < old(Steps()))
      ensures shutdownPendings == old(shutdownPendings) + if r.Pending? then 1 else 0
      ensures writePendings == old(writePendings) && flushPendings == old(flushPendings)
      ensures errors == old(errors) + if r.Failed? then 1 else 0
      ensures closed <==> r.Ready?
      ensures zeros == old(zeros) && (faultless ==> !r.Failed?)
      ensures flushPolls == old(flushPolls) && (r.Pending? ==> !prompt)
    {
      hide Concat, NoErrors, NoDelays, AllOk, ConnectedUdpStream.Valid;
      if udp != null {
        r := udp.PollShutdown();
      } else {
        r := ShutdownScript();
      }
      match r
      case Pending => shutdownPendings := shutdownPendings + 1;
      case Failed(_) => failed, errors := true, errors + 1;
      case Ready(_) => closed := true;
    }
  }
}
