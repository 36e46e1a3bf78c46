/** Forwarding a stream into a bounded channel, dropping what cannot be sent in time. */
module Forwarding {
  import opened Polling

  type Item(==)

  datatype SendError = Disconnected

  datatype SinkError = Timeout | Inner(error: SendError)

  datatype ForwardError = ChannelClosed | StreamFailed

  /** An item in the channel, with the sink that sent it; items of unknown senders have none. */
  datatype Entry = Entry(sender: Option<nat>, item: Item)

  /** What happens to the channel between two accesses of a sink. */
  datatype Traffic = Traffic(received: nat, others: seq<Item>, disconnect: bool)

  function Min(a: nat, b: nat): nat {
    if a < b then a else b
  }

  function Foreign(items: seq<Item>): (entries: seq<Entry>)
    ensures |entries| == |items| && forall i :: 0 <= i < |items| ==> entries[i] == Entry(None, items[i])
  {
    seq(|items|, i requires 0 <= i < |items| => Entry(None, items[i]))
  }

  /** The items of a log that sink `id` has sent, in order. */
  function SentBy(log: seq<Entry>, id: nat): seq<Item> {
    if log == [] then []
    else
      var before, last := SentBy(log[..|log| - 1], id), log[|log| - 1];
      if last.sender == Some(id) then before + [last.item] else before
  }

  lemma {:induction false} SentByForeign(log: seq<Entry>, items: seq<Item>, id: nat)
    ensures SentBy(log + Foreign(items), id) == SentBy(log, id)
  {
    if items == [] {
      assert log + Foreign(items) == log;
    } else {
      var before := items[..|items| - 1];
      SentByForeign(log, before, id);
      assert (log + Foreign(items))[..|log| + |before|] == log + Foreign(before);
    }
  }

  /** A bounded channel with one receiver and any number of senders. */
  class Channel {
    const capacity: nat
    var queue: seq<Entry>
    var open: bool
    var script: seq<Traffic>
    /** Everything that ever entered the channel, and what has left it again. */
    ghost var log: seq<Entry>
    ghost var delivered: seq<Entry>
    /** Whether the receiver stays. */
    ghost const steady: bool

    ghost predicate Valid()
      reads this
    {
      && capacity > 0 && |queue| <= capacity && log == delivered + queue
      && (steady ==> open && Stays(script))
    }

    static predicate Stays(script: seq<Traffic>) {
      forall i :: 0 <= i < |script| ==> !script[i].disconnect
    }

    constructor (capacity: nat, script: seq<Traffic>)
      requires capacity > 0
      ensures Valid() && this.capacity == capacity && open && log == []
      ensures steady <==> Stays(script)
    {
      steady := Stays(script);
      this.capacity, this.script := capacity, script;
      queue, open, log, delivered := [], true, [], [];
    }

    /** The receiver and the other senders act; once the script is over, the receiver keeps up. */
    method Interfere()
      requires Valid()
      modifies this
      ensures Valid()
      ensures forall id :: SentBy(log, id) == SentBy(old(log), id)
      ensures old(log) <= log
      ensures |script| <= |old(script)| && (old(script) != [] ==> |script| < |old(script)|)
      ensures old(script) == [] ==> queue == [] && open == old(open)
      ensures open ==> old(open)
    {
      var step := if script == [] then Traffic(|queue|, [], false) else script[0];
      script := if script == [] then [] else script[1..];
      var gone := Min(step.received, |queue|);
      assert delivered + queue == (delivered + queue[..gone]) + queue[gone..];
      delivered := delivered + queue[..gone];
      queue := queue[gone..];
      var more := step.others[..Min(|step.others|, capacity - |queue|)];
      forall id ensures SentBy(log + Foreign(more), id) == SentBy(log, id) {
        SentByForeign(log, more, id);
      }
      Associative(delivered, queue, Foreign(more));
      queue, log := queue + Foreign(more), log + Foreign(more);
      open := open && !step.disconnect;
    }

    /** Sends without waiting; `Pending` means that the channel is full. */
    method TrySend(id: nat, item: Item) returns (r: Poll<(), SendError>)
      requires Valid()
      modifies this
      ensures Valid()
      ensures SentBy(log, id) == SentBy(old(log), id) + if r.Ready? then [item] else []
      ensures forall other :: other != id ==> SentBy(log, other) == SentBy(old(log), other)
      ensures old(log) <= log
      ensures |script| <= |old(script)| && (r.Pending? ==> |script| < |old(script)|)
      // It fails exactly when the receiver is gone, and waits exactly when the channel is full.
      ensures r.Failed? <==> !open
      ensures steady ==> !r.Failed?
      ensures r.Pending? ==> |queue| == capacity
      ensures open ==> old(open)
    {
      Interfere();
      if !open {
        return Failed(Disconnected);
      }
      if |queue| == capacity {
        return Pending;
      }
      var entry := Entry(Some(id), item);
      assert (log + [entry])[..|log|] == log;
      Associative(delivered, queue, [entry]);
      queue, log := queue + [entry], log + [entry];
      r := Ready(());
    }
  }

  /** A sink over the channel that holds at most one item: buffered, or in a send under way. */
  class CrossfireSink {
    const tx: Channel
    const id: nat
    var buffered: Option<Item>
    var pending: Option<Item>
    /** Whether the channel knows whom to wake: the send under way has been polled. */
    ghost var armed: bool
    /** Items given to the sink, and whether one was lost because the receiver is gone. */
    ghost var accepted: seq<Item>
    ghost var lost: bool

    /** The items the sink holds: one in a send under way comes before one still buffered. */
    function Held(): seq<Item>
      reads this
    {
      (if pending.Some? then [pending.value] else []) + (if buffered.Some? then [buffered.value] else [])
    }

    /** The items this sink has put into the channel. */
    ghost function Pushed(): seq<Item>
      reads tx
    {
      SentBy(tx.log, id)
    }

    ghost predicate Valid()
      reads this, tx
    {
      && tx.Valid()
      && !(buffered.Some? && pending.Some?)
      && (!lost ==> accepted == Pushed() + Held())
    }

    constructor (tx: Channel, id: nat)
      requires tx.Valid() && SentBy(tx.log, id) == []
      ensures Valid() && this.tx == tx && this.id == id && Held() == [] && accepted == [] && !lost
    {
      this.tx, this.id := tx, id;
      buffered, pending, accepted, lost, armed := None, None, [], false, false;
    }

    /** A clone starts idle on the same channel. */
    method Clone(newId: nat) returns (c: CrossfireSink)
      requires Valid() && SentBy(tx.log, newId) == []
      ensures fresh(c) && c.Valid() && c.tx == tx && c.id == newId && c.Held() == []
    {
      c := new CrossfireSink(tx, newId);
    }

    method PollReady() returns (r: Poll<(), SendError>)
      requires Valid()
      modifies this, tx
      ensures Valid() && accepted == old(accepted)
      ensures r.Ready? ==> Held() == [] && lost == old(lost)
      ensures r.Pending? ==>
                && pending.Some? && armed && Held() == old(Held()) && lost == old(lost)
                && |tx.script| < |old(tx.script)|
      ensures r.Failed? ==> Held() == [] && lost && old(Held()) != [] && !tx.open && !tx.steady
      ensures |tx.script| <= |old(tx.script)|
      ensures old(Held()) == [] ==> unchanged(this, tx)
      ensures forall other :: other != id ==> SentBy(tx.log, other) == SentBy(old(tx.log), other)
    {
      while true
        invariant Valid() && accepted == old(accepted) && lost == old(lost)
        invariant Held() == old(Held()) && |tx.script| <= |old(tx.script)|
        invariant old(Held()) == [] ==> unchanged(this, tx)
        invariant forall other :: other != id ==> SentBy(tx.log, other) == SentBy(old(tx.log), other)
        decreases buffered.Some?
      {
        if pending.Some? {
          var item := pending.value;
          pending := None;
          var sent := tx.TrySend(id, item);
          match sent
          case Ready(_) => return Ready(());
          case Failed(_) =>
            lost := true;
            return Failed(Disconnected);
          case Pending =>
            pending, armed := Some(item), true;
            return Pending;
        } else if buffered.Some? {
          var item := buffered.value;
          buffered := None;
          var sent := tx.TrySend(id, item);
          match sent
          case Ready(_) => return Ready(());
          case Pending => pending, armed := Some(item), false;
          case Failed(_) =>
            lost := true;
            return Failed(Disconnected);
        } else {
          return Ready(());
        }
      }
    }

    /** A sink that holds nothing has put everything it accepted into the channel, in order. */
    lemma AllPushed()
      requires Valid() && Held() == [] && !lost
      ensures accepted == Pushed()
    {
    }

    method StartSend(item: Item)
      requires Valid() && Held() == []
      modifies this
      ensures Valid() && Held() == [item] && buffered == Some(item)
      ensures accepted == old(accepted) + [item] && lost == old(lost)
    {
      buffered, accepted := Some(item), accepted + [item];
    }

    method PollFlush() returns (r: Poll<(), SendError>)
      requires Valid()
      modifies this, tx
      ensures Valid() && accepted == old(accepted)
      ensures r.Ready? ==> Held() == [] && lost == old(lost)
      ensures r.Pending? ==>
                pending.Some? && armed && Held() == old(Held()) && lost == old(lost) && |tx.script| < |old(tx.script)|
      ensures r.Failed? ==> !tx.open && !tx.steady
      ensures |tx.script| <= |old(tx.script)|
      ensures forall other :: other != id ==> SentBy(tx.log, other) == SentBy(old(tx.log), other)
    {
      r := PollReady();
    }

    method PollClose() returns (r: Poll<(), SendError>)
      requires Valid()
      modifies this, tx
      ensures Valid() && accepted == old(accepted)
      ensures r.Ready? ==> Held() == [] && lost == old(lost)
      ensures r.Pending? ==>
                pending.Some? && armed && Held() == old(Held()) && lost == old(lost) && |tx.script| < |old(tx.script)|
      ensures r.Failed? ==> !tx.open && !tx.steady
      ensures |tx.script| <= |old(tx.script)|
      ensures forall other :: other != id ==> SentBy(tx.log, other) == SentBy(old(tx.log), other)
    {
      r := PollFlush();
    }
  }

  ghost function TotalHeld(sinks: seq<CrossfireSink>): nat
    reads sinks
  {
    if sinks == [] then 0 else TotalHeld(sinks[1..]) + |sinks[0].Held()|
  }

  /** However many clones there are, each adds room for at most the one item it holds itself. */
  lemma {:induction false} CapacityIsStrict(tx: Channel, sinks: seq<CrossfireSink>)
    requires tx.Valid()
    requires forall s :: s in sinks ==> s.tx == tx && s.Valid()
    ensures |tx.queue| + TotalHeld(sinks) <= tx.capacity + |sinks|
  {
    if sinks != [] {
      assert sinks[0] in sinks && |sinks[0].Held()| <= 1;
      CapacityIsStrict(tx, sinks[1..]);
    }
  }

  /** A sink and its clones, numbered in the order in which they were made. */
  ghost predicate Family(tx: Channel, sinks: seq<CrossfireSink>)
    reads tx, sinks
  {
    && tx.Valid()
    && (forall i :: 0 <= i < |sinks| ==> sinks[i].tx == tx && sinks[i].id == i && sinks[i].Valid())
    && (forall id: nat :: id >= |sinks| ==> SentBy(tx.log, id) == [])
  }

  /** A call of the sink with the given number; `CallSend` is made only once the sink is ready. */
  datatype SinkCall =
    | CallReady(sink: nat)
    | CallSend(sink: nat, item: Item)
    | CallFlush(sink: nat)
    | CallClose(sink: nat)
    | CallClone(sink: nat)

  /** One call of one sink of a family disturbs none of the others. */
  method MakeCall(tx: Channel, sinks: seq<CrossfireSink>, call: SinkCall) returns (after: seq<CrossfireSink>)
    requires Family(tx, sinks) && call.sink < |sinks|
    modifies tx, sinks[call.sink]
    ensures Family(tx, after) && sinks <= after && |after| == |sinks| + if call.CallClone? then 1 else 0
    ensures forall s :: s in after ==> s in sinks || fresh(s)
    ensures forall s :: s in sinks && s.id != call.sink ==> unchanged(s) && s.Pushed() == old(s.Pushed())
  {
    var sink := sinks[call.sink];
    after := sinks;
    match call
    case CallReady(_) => var _ := sink.PollReady();
    case CallSend(_, item) =>
      var ready := sink.PollReady();
      if ready.Ready? {
        sink.StartSend(item);
      }
    case CallFlush(_) => var _ := sink.PollFlush();
    case CallClose(_) => var _ := sink.PollClose();
    case CallClone(_) =>
      var clone := sink.Clone(|sinks|);
      after := sinks + [clone];
  }

  /**
   Any interleaving of calls of a sink and of all its clones: the channel and the sinks together never
   hold more than the capacity and one item for each sink, and each sink's items arrive in its order.
  */
  method RunClones(tx: Channel, first: CrossfireSink, calls: seq<SinkCall>) returns (sinks: seq<CrossfireSink>)
    requires Family(tx, [first])
    modifies tx, first
    ensures Family(tx, sinks) && first in sinks
    ensures |tx.queue| <= tx.capacity && |tx.queue| + TotalHeld(sinks) <= tx.capacity + |sinks|
    ensures forall s :: s in sinks && !s.lost ==> s.accepted == s.Pushed() + s.Held()
  {
    sinks := [first];
    for n := 0 to |calls|
      invariant Family(tx, sinks) && first in sinks
      invariant forall s :: s in sinks ==> s == first || fresh(s)
    {
      if calls[n].sink < |sinks| {
        assert sinks[calls[n].sink] in sinks;
        sinks := MakeCall(tx, sinks, calls[n]);
      }
    }
    CapacityIsStrict(tx, sinks);
  }

  /** A sink that gives up waiting for the inner sink when its timer expires. */
  class TimeoutSink {
    const inner: CrossfireSink
    /** How many more polls the running timer takes to expire. */
    var timer: Option<nat>
    /** The durations of the timers to come; a timer beyond those expires at once. */
    var durations: seq<nat>
    ghost var timeouts: nat

    ghost predicate Valid()
      reads this, inner, inner.tx
    {
      inner.Valid()
    }

    /** How many polls the next timer to be started takes to expire. */
    function NextDuration(): nat
      reads this
    {
      if durations == [] then 0 else durations[0]
    }

    ghost function Delay(): nat
      reads inner.tx
    {
      |inner.tx.script|
    }

    constructor (inner: CrossfireSink, durations: seq<nat>)
      requires inner.Valid()
      ensures Valid() && this.inner == inner && timer == None && timeouts == 0
    {
      this.inner, this.durations := inner, durations;
      timer, timeouts := None, 0;
    }

    method PollReady() returns (r: Poll<(), SinkError>)
      requires Valid()
      modifies this, inner, inner.tx
      ensures Valid() && inner.accepted == old(inner.accepted)
      ensures r.Ready? ==> inner.Held() == [] && inner.lost == old(inner.lost)
      ensures r == Failed(Timeout) ==> inner.Held() == old(inner.Held()) && inner.lost == old(inner.lost)
      // A timer runs exactly while the sink waits.
      ensures timer.Some? <==> r.Pending?
      ensures r == Failed(Timeout) || r.Pending? ==> inner.pending.Some? && Delay() < old(Delay())
      ensures r.Pending? ==> inner.Held() == old(inner.Held()) && inner.lost == old(inner.lost)
      ensures r.Failed? && r.error.Inner? ==> inner.lost && !inner.tx.open && !inner.tx.steady
      // A poll that waits uses up the timer; one that finds it expired gives up, and only then.
      ensures r.Pending? ==> timer.value + 1 == if old(timer).Some? then old(timer).value else old(NextDuration())
      ensures r == Failed(Timeout) ==> old(timer) == Some(0) || (old(timer).None? && old(NextDuration()) == 0)
      ensures Delay() <= old(Delay())
      ensures timeouts == old(timeouts) + if r == Failed(Timeout) then 1 else 0
    {
      var ready := inner.PollReady();
      match ready
      case Ready(_) =>
        timer, r := None, Ready(());
      case Failed(error) =>
        timer, r := None, Failed(Inner(error));
      case Pending =>
        if timer.None? {
          timer := Some(NextDuration());
          durations := if durations == [] then [] else durations[1..];
        }
        if timer.value > 0 {
          timer, r := Some(timer.value - 1), Pending;
        } else {
          timer, timeouts, r := None, timeouts + 1, Failed(Timeout);
        }
    }

    method StartSend(item: Item) returns (r: Result<(), SinkError>)
      requires Valid() && inner.Held() == []
      modifies inner
      ensures Valid() && inner.Held() == [item]
      ensures inner.accepted == old(inner.accepted) + [item] && inner.lost == old(inner.lost)
      ensures r.Err? ==> r.error.Inner? && !inner.tx.open && !inner.tx.steady
    {
      inner.StartSend(item);
      r := Ok(());
    }

    method PollFlush() returns (r: Poll<(), SinkError>)
      requires Valid()
      modifies inner, inner.tx
      ensures Valid() && inner.accepted == old(inner.accepted)
      ensures r.Ready? ==> inner.Held() == [] && inner.lost == old(inner.lost)
      ensures r.Pending? ==> inner.pending.Some? && inner.lost == old(inner.lost) && Delay() < old(Delay())
      ensures Delay() <= old(Delay())
      ensures r.Failed? ==> r.error.Inner? && !inner.tx.open && !inner.tx.steady
    {
      var flushed := inner.PollFlush();
      match flushed
      case Ready(_) => r := Ready(());
      case Pending => r := Pending;
      case Failed(error) => r := Failed(Inner(error));
    }

    method PollClose() returns (r: Poll<(), SinkError>)
      requires Valid()
      modifies inner, inner.tx
      ensures Valid() && inner.accepted == old(inner.accepted)
      ensures r.Ready? ==> inner.Held() == [] && inner.lost == old(inner.lost)
      ensures r.Pending? ==> inner.pending.Some? && inner.lost == old(inner.lost) && Delay() < old(Delay())
      ensures Delay() <= old(Delay())
      ensures r.Failed? ==> r.error.Inner? && !inner.tx.open && !inner.tx.steady
    {
      var closed := inner.PollClose();
      match closed
      case Ready(_) => r := Ready(());
      case Pending => r := Pending;
      case Failed(error) => r := Failed(Inner(error));
    }
  }

  datatype StreamStep = StreamPending | StreamItem(item: Item) | StreamError

  /** The items a stream still has to yield. */
  function Items(stream: seq<StreamStep>): seq<Item> {
    if stream == [] then []
    else if stream[0].StreamItem? then [stream[0].item] + Items(stream[1..])
    else Items(stream[1..])
  }

  /** What became of an item that left the forwarder: handed to the sink, or dropped after a timeout. */
  datatype Fate = Fate(item: Item, sent: bool)

  function Forwarded(fates: seq<Fate>): seq<Item> {
    if fates == [] then [] else Forwarded(fates[..|fates| - 1]) + [fates[|fates| - 1].item]
  }

  function Sent(fates: seq<Fate>): seq<Item> {
    if fates == [] then []
    else
      var last := fates[|fates| - 1];
      Sent(fates[..|fates| - 1]) + if last.sent then [last.item] else []
  }

  function Drops(fates: seq<Fate>): nat {
    if fates == [] then 0
    else Drops(fates[..|fates| - 1]) + if fates[|fates| - 1].sent then 0 else 1
  }

  lemma FateAdded(fates: seq<Fate>, last: Fate)
    ensures Forwarded(fates + [last]) == Forwarded(fates) + [last.item]
    ensures Sent(fates + [last]) == Sent(fates) + if last.sent then [last.item] else []
    ensures Drops(fates + [last]) == Drops(fates) + if last.sent then 0 else 1
  {
    assert (fates + [last])[..|fates|] == fates;
  }

  /** What was sent is what was forwarded without the dropped items, one for each drop. */
  lemma {:induction false} DropsAccountForGaps(fates: seq<Fate>)
    ensures |Forwarded(fates)| == |fates| == |Sent(fates)| + Drops(fates)
    ensures multiset(Sent(fates)) <= multiset(Forwarded(fates))
    ensures Drops(fates) == 0 ==> Sent(fates) == Forwarded(fates)
  {
    if fates != [] {
      DropsAccountForGaps(fates[..|fates| - 1]);
    }
  }

  /** The error behind a sink error; only asked of errors of the inner sink. */
  function Unwrapped(error: SinkError): ForwardError
    requires error.Inner?
  {
    ChannelClosed
  }

  class ForwardWithTimeout {
    const sink: TimeoutSink
    /** Cleared when the sink is closed; a finished forwarder is not polled again. */
    var active: bool
    var stream: seq<StreamStep>
    var bufferedItem: Option<Item>
    /** Everything the stream will ever yield, what was pulled so far, and what became of it. */
    ghost const total: seq<Item>
    ghost var pulled: seq<Item>
    ghost var fates: seq<Fate>
    /** Whether the stream never fails; and how often it was not ready, or failed, so far. */
    ghost const faultless: bool
    ghost var streamPendings: nat
    ghost var streamErrors: nat

    ghost function Repr(): set<object> {
      {this, sink, sink.inner, sink.inner.tx}
    }

    ghost predicate Valid()
      reads Repr()
    {
      && sink.Valid()
      && total == pulled + Items(stream)
      && pulled == Forwarded(fates) + (if bufferedItem.Some? then [bufferedItem.value] else [])
      && sink.inner.accepted == Sent(fates)
      && sink.timeouts == Drops(fates)
      && !sink.inner.lost
      && (sink.timer.Some? ==> bufferedItem.Some?)
      && (faultless ==> StreamError !in stream)
    }

    ghost function Work(): nat
      reads Repr()
    {
      |stream| + sink.Delay()
    }

    constructor (stream: seq<StreamStep>, sink: TimeoutSink)
      requires sink.Valid() && sink.inner.accepted == [] && !sink.inner.lost && sink.timeouts == 0 && sink.timer == None
      ensures Valid() && active && this.sink == sink && this.stream == stream && total == Items(stream)
      ensures faultless <==> StreamError !in stream
    {
      faultless := StreamError !in stream;
      streamPendings, streamErrors := 0, 0;
      this.stream, this.sink, active, bufferedItem := stream, sink, true, None;
      total, pulled, fates := Items(stream), [], [];
    }

    /** Sends the buffered item, or drops it when the sink has timed out. */
    method SendBuffered() returns (r: Poll<(), ForwardError>)
      requires Valid() && bufferedItem.Some?
      modifies Repr()
      ensures !r.Failed? ==> Valid()
      ensures stream == old(stream) && pulled == old(pulled) && active == old(active)
      ensures streamErrors == old(streamErrors) && streamPendings == old(streamPendings)
      ensures r.Pending? ==> sink.inner.pending.Some? && sink.timer.Some?
      ensures r.Failed? ==> r.error == ChannelClosed && !sink.inner.tx.open && !sink.inner.tx.steady
      ensures r.Ready? ==>
                && bufferedItem == None
                && fates == old(fates) + [Fate(old(bufferedItem).value, sink.timeouts == old(sink.timeouts))]
      ensures r.Pending? ==> bufferedItem == old(bufferedItem) && fates == old(fates) && sink.Delay() < old(sink.Delay())
      ensures sink.Delay() <= old(sink.Delay())
    {
      hide Forwarded, Sent, Drops, Items, CrossfireSink.Valid, CrossfireSink.Held;
      var item := bufferedItem.value;
      var ready := sink.PollReady();
      match ready
      case Pending => r := Pending;
      case Ready(_) =>
        bufferedItem := None;
        FateAdded(fates, Fate(item, true));
        fates := fates + [Fate(item, true)];
        var started := sink.StartSend(item);
        r := if started.Err? then Failed(Unwrapped(started.error)) else Ready(());
      case Failed(Timeout) =>
        bufferedItem := None;
        FateAdded(fates, Fate(item, false));
        fates := fates + [Fate(item, false)];
        r := Ready(());
      case Failed(Inner(error)) =>
        r := Failed(ChannelClosed);
    }

    /** Flushes the sink while the forwarder has nothing to send. */
    method FlushSink() returns (r: Polling.Poll<(), ForwardError>)
      requires Valid() && bufferedItem == None
      modifies sink.inner, sink.inner.tx
      ensures !r.Failed? ==> Valid()
      ensures r.Ready? ==> sink.inner.Pushed() == Sent(fates)
      ensures r.Pending? ==> sink.inner.pending.Some?
      ensures r.Failed? ==> r.error == ChannelClosed && !sink.inner.tx.open && !sink.inner.tx.steady
      ensures sink.Delay() <= old(sink.Delay()) && (r.Pending? ==> sink.Delay() < old(sink.Delay()))
    {
      hide Forwarded, Sent, Drops, Items;
      var flushed := sink.PollFlush();
      match flushed
      case Pending => r := Pending;
      case Failed(error) => r := Failed(Unwrapped(error));
      case Ready(_) =>
        sink.inner.AllPushed();
        r := Ready(());
    }

    /** Closes the sink, which flushes it. */
    method CloseSink() returns (r: Polling.Poll<(), ForwardError>)
      requires Valid() && bufferedItem == None
      modifies sink.inner, sink.inner.tx
      ensures !r.Failed? ==> Valid()
      ensures r.Ready? ==> sink.inner.Pushed() == Sent(fates)
      ensures r.Pending? ==> sink.inner.pending.Some?
      ensures r.Failed? ==> r.error == ChannelClosed && !sink.inner.tx.open && !sink.inner.tx.steady
      ensures sink.Delay() <= old(sink.Delay()) && (r.Pending? ==> sink.Delay() < old(sink.Delay()))
    {
      hide Forwarded, Sent, Drops, Items;
      var closed := sink.PollClose();
      match closed
      case Pending => r := Pending;
      case Failed(error) => r := Failed(Unwrapped(error));
      case Ready(_) =>
        sink.inner.AllPushed();
        r := Ready(());
    }

    /** Pulls the next item into the buffer; answers whether there was one. */
    method PollStream() returns (r: Polling.Poll<bool, ForwardError>)
      requires Valid() && bufferedItem == None
      modifies this`stream, this`bufferedItem, this`pulled, this`streamPendings, this`streamErrors
      ensures !r.Failed? ==> Valid()
      ensures bufferedItem.Some? <==> r == Ready(true)
      ensures r == Ready(false) <==> old(stream) == []
      ensures |stream| == |old(stream)| - if r == Ready(false) then 0 else 1
      ensures streamPendings == old(streamPendings) + if r.Pending? then 1 else 0
      ensures streamErrors == old(streamErrors) + if r.Failed? then 1 else 0
      ensures r.Failed? ==> r.error == StreamFailed && !faultless
    {
      hide Forwarded, Sent, Drops, CrossfireSink.Valid, CrossfireSink.Held;
      if stream == [] {
        return Ready(false);
      }
      var step := stream[0];
      match step
      case StreamItem(item) =>
        Associative(pulled, [item], Items(stream[1..]));
        stream, bufferedItem, pulled := stream[1..], Some(item), pulled + [item];
        r := Ready(true);
      case StreamError =>
        stream, streamErrors := stream[1..], streamErrors + 1;
        r := Failed(StreamFailed);
      case StreamPending =>
        stream, streamPendings := stream[1..], streamPendings + 1;
        r := Pending;
    }

    method Poll() returns (r: Polling.Poll<(), ForwardError>)
      requires Valid() && active
      modifies Repr()
      ensures !r.Failed? ==> Valid()
      ensures active <==> !r.Ready?
      // Success: the stream has ended, and each of its items was put into the channel or dropped by a timeout.
      ensures r.Ready? ==>
                && stream == [] && Forwarded(fates) == total
                && sink.inner.Pushed() == Sent(fates) && sink.timeouts == Drops(fates)
      // Not ready: an item waits with its timer running; or the stream was not ready, and everything sent is in the
      // channel or a flush is under way; or the stream has ended and the close is under way.
      ensures r.Pending? ==>
                || (bufferedItem.Some? && sink.timer.Some? && sink.inner.pending.Some? && sink.Delay() < old(sink.Delay()))
                || (bufferedItem == None && streamPendings > old(streamPendings)
                    && (sink.inner.Pushed() == Sent(fates)
                        || (sink.inner.pending.Some? && sink.Delay() < old(sink.Delay()))))
                || (bufferedItem == None && stream == []
                    && sink.inner.pending.Some? && sink.Delay() < old(sink.Delay()))
      // Failure: exactly the failures of the stream and of the channel.
      ensures streamErrors == old(streamErrors) + if r == Failed(StreamFailed) then 1 else 0
      ensures r == Failed(ChannelClosed) ==> !sink.inner.tx.open && !sink.inner.tx.steady
      ensures faultless && sink.inner.tx.steady ==> !r.Failed?
      ensures r.Failed? ==> streamErrors > old(streamErrors) || !sink.inner.tx.open
      ensures r.Pending? ==> Work() < old(Work())
      ensures Work() <= old(Work())
    {
      hide Forwarded, Sent, Drops, SentBy, Channel.Valid, CrossfireSink.Valid, CrossfireSink.Held, CrossfireSink.Pushed;
      while true
        invariant Valid() && active && Work() <= old(Work()) && sink.Delay() <= old(sink.Delay())
        invariant streamErrors == old(streamErrors) && streamPendings == old(streamPendings)
        decreases |stream|, bufferedItem.Some?
      {
        if bufferedItem.Some? {
          var sent := SendBuffered();
          if sent.Pending? { return Pending; }
          if sent.Failed? { return Failed(sent.error); }
        }
        var next := PollStream();
        match next
        case Ready(true) =>
        case Ready(false) =>
          r := CloseSink();
          active := !r.Ready?;
          return;
        case Failed(error) => return Failed(error);
        case Pending =>
          var flushed := FlushSink();
          return if flushed.Failed? then Failed(flushed.error) else Pending;
      }
    }

    /**
     At every point between polls: what was pulled has been sent or dropped, in order, but for at most
     one item the forwarder holds; and what was sent is in the channel but for at most one the sink holds.
    */
    lemma NothingUnaccounted()
      requires Valid()
      ensures pulled <= total
      ensures Forwarded(fates) <= pulled && |pulled| <= |Forwarded(fates)| + 1
      ensures sink.inner.Pushed() <= Sent(fates) && |Sent(fates)| <= |sink.inner.Pushed()| + 1
      ensures |pulled| == |sink.inner.Pushed()| + |sink.inner.Held()| + sink.timeouts
                          + if bufferedItem.Some? then 1 else 0
    {
      DropsAccountForGaps(fates);
    }

    /** Polls until the forwarder is done; every poll that is not uses up some delay of the stream or the channel. */
    method Complete() returns (r: Polling.Poll<(), ForwardError>)
      requires Valid() && active
      modifies Repr()
      ensures !r.Pending? && (active <==> !r.Ready?)
      ensures streamErrors == old(streamErrors) + if r == Failed(StreamFailed) then 1 else 0
      ensures r == Failed(ChannelClosed) ==> !sink.inner.tx.open && !sink.inner.tx.steady
      ensures faultless && sink.inner.tx.steady ==> r.Ready?
      ensures r.Ready? ==>
                && Valid() && Forwarded(fates) == total
                && sink.inner.Pushed() == Sent(fates) && |total| == |sink.inner.Pushed()| + sink.timeouts
                && (sink.timeouts == 0 ==> sink.inner.Pushed() == total)
    {
      hide Forwarded, Sent, Drops, Items, SentBy, CrossfireSink.Valid, CrossfireSink.Held;
      while true
        invariant Valid() && active && streamErrors == old(streamErrors)
        decreases Work()
      {
        r := Poll();
        if !r.Pending? {
          DropsAccountForGaps(fates);
          return;
        }
      }
    }
  }
}
