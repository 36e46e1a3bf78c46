/**
 The decode arbiter: admission of decode tasks to a shared pool, as a state machine in which every
 step is one access to shared state. Any number of threads take steps in any order.
*/
module Arbiter {
  import opened Polling

  datatype Config = Disabled | Enabled(occupancyPct: int, encodeReservePct: int)

  function Clamp(pct: int): int {
    if pct < 1 then 1 else if pct > 100 then 100 else pct
  }

  function Max(a: int, b: int): int {
    if a < b then b else a
  }

  function Min(a: int, b: int): int {
    if a < b then a else b
  }

  const DECODE_FLOOD_FACTOR := 2

  /** Running tasks from which on the pool counts as saturated. */
  function Threshold(poolThreads: int, occupancyPct: int): int {
    Max(poolThreads * occupancyPct / 100, 1)
  }

  /** The share of the pool that decode yields to encode, rounded up to whole threads. */
  function Share(poolThreads: int, reservePct: int): int {
    (poolThreads * reservePct + 99) / 100
  }

  /** How many decode tasks may be outstanding; no limit unless the pool is saturated and decode floods encode. */
  function DecodeAdmitCap(poolThreads: int, running: int, dec: int, enc: int, occupancyPct: int, reservePct: int)
    : Option<int>
  {
    if running < Threshold(poolThreads, occupancyPct) then None
    else if enc == 0 then None
    else if dec <= enc * DECODE_FLOOD_FACTOR then None
    else Some(Max(Max(poolThreads - Min(Share(poolThreads, reservePct), enc), 0), 1))
  }

  /** The pool counts as saturated unless nothing runs, or one more task would still fit the percentage. */
  lemma SaturatedIff(poolThreads: int, running: int, occupancyPct: int)
    ensures running < Threshold(poolThreads, occupancyPct) <==>
            running < 1 || (running + 1) * 100 <= poolThreads * occupancyPct
  {
    AtLeastIff(poolThreads * occupancyPct, running + 1);
  }

  lemma AtLeastIff(x: int, n: int)
    ensures n <= x / 100 <==> n * 100 <= x
  {
  }

  /** The share is the percentage of the pool, rounded up: the fewest threads that are at least that much. */
  lemma ShareIff(poolThreads: int, reservePct: int, n: int)
    ensures Share(poolThreads, reservePct) <= n <==> poolThreads * reservePct <= n * 100
  {
    AtLeastIff(poolThreads * reservePct + 99, n + 1);
  }

  /**
   A cap never drops below one, and unless it is at that floor it leaves exactly the threads
   reserved for encode: its share of the pool, or one per encode task if those are fewer.
  */
  lemma CapLeavesReserve(poolThreads: nat, running: nat, dec: nat, enc: nat, occupancyPct: nat, reservePct: nat)
    requires occupancyPct <= 100
    ensures var cap := DecodeAdmitCap(poolThreads, running, dec, enc, occupancyPct, reservePct);
            && (cap.None? <==>
                  || running == 0 || (running + 1) * 100 <= poolThreads * occupancyPct
                  || enc == 0 || dec <= 2 * enc)
            && (cap.Some? ==>
                  && 1 <= cap.value <= Max(poolThreads, 1)
                  && (cap.value > 1 ==> poolThreads - cap.value == Min(Share(poolThreads, reservePct), enc)))
    ensures poolThreads > 0 ==> 1 <= Threshold(poolThreads, occupancyPct) <= poolThreads
  {
    hide Threshold, Share;
    ShareIff(poolThreads, reservePct, -1);
    SaturatedIff(poolThreads, running, occupancyPct);
    ThresholdBounds(poolThreads, occupancyPct);
    assert Share(poolThreads, reservePct) >= 0 by {
      ShareBounds(poolThreads, reservePct);
    }
  }

  lemma ThresholdBounds(poolThreads: nat, occupancyPct: nat)
    requires occupancyPct <= 100
    ensures poolThreads > 0 ==> 1 <= Threshold(poolThreads, occupancyPct) <= poolThreads
  {
    assert poolThreads * occupancyPct <= poolThreads * 100;
  }

  lemma ShareBounds(poolThreads: nat, reservePct: nat)
    ensures Share(poolThreads, reservePct) >= 0
  {
    assert poolThreads * reservePct >= 0;
  }

  /** Where a thread stands. Values read earlier travel along as arguments. */
  datatype Pc =
    // an admitter, in the order of the code
    | Arrived
    | Bypass
    | LoopTop
    | LoadOccupancy
    | LoadReserve(occ: int)
    | LoadDecode(occ: int, res: int, again: bool)
    | LoadRunning(occ: int, res: int, again: bool, dec: int)
    | LoadEncode(occ: int, res: int, again: bool, dec: int, running: int)
    | Reserve(occ: int, res: int, again: bool, dec: int, cap: Option<int>)
    | Register(occ: int, res: int)
    | Recheck(occ: int, res: int)
    | LateBypass
    | Unregister
    | Parked
    | Holding
    // an encode task, a task on a pool thread
    | EncodeArrived
    | EncodeHolding
    | RunArrived
    | RunHolding
    // any finishing task, between its decrement and its notification
    | Notifying
    // a call of `apply`
    | Applying(config: Config)
    | ApplyReserve(res: int)
    | ApplyEnable
    | ApplyNotify(disabling: bool)
    | Gone

  type Tid = nat

  /** The event's listeners, by the thread that owns them; the value tells whether one is notified. */
  type Listeners = map<Tid, bool>

  /** The shared state: the arbiter's statics, the counters and the event. */
  datatype Memory = Memory(
    enabled: bool,
    occ: int,
    res: int,
    dec: int,
    enc: int,
    running: int,
    listeners: Listeners)

  datatype State = State(poolThreads: nat, mem: Memory, threads: map<Tid, Pc>)

  datatype Outcome = Outcome(mem: Memory, pc: Pc)

  datatype Action =
    | Arrive(tid: Tid, pc: Pc)
    | Run(tid: Tid, pick: Tid)
    | LosingRace(tid: Tid)
    | Cancelling(tid: Tid, pick: Tid)

  // The event. Which listener a notification reaches is left open: `pick` names it.

  /** A notification must reach a listener that is not notified yet, if there is one. */
  predicate CanNotify(ls: Listeners, pick: Tid) {
    (forall u :: u in ls ==> ls[u]) || (pick in ls && !ls[pick])
  }

  /** `notify(1.additional())` */
  function NotifyOne(ls: Listeners, pick: Tid): Listeners {
    if pick in ls then ls[pick := true] else ls
  }

  /** `notify(usize::MAX)` */
  function NotifyAll(ls: Listeners): Listeners {
    map u | u in ls :: true
  }

  /** Dropping a listener; the mark of a notified one goes to another. */
  function Drop(ls: Listeners, t: Tid, pick: Tid): Listeners {
    if t in ls && ls[t] then NotifyOne(ls - {t}, pick) else ls - {t}
  }

  // One step of one thread.

  /** The next access of thread `t`, which stands at `pc`; a thread that waits or has finished does nothing. */
  function Step(poolThreads: nat, m: Memory, t: Tid, pc: Pc, pick: Tid): Outcome {
    match pc
    case Arrived => Outcome(m, if !m.enabled || poolThreads == 0 then Bypass else LoopTop)
    case Bypass => Outcome(m.(dec := m.dec + 1), Holding)
    case LoopTop => Outcome(m, if !m.enabled then Bypass else LoadOccupancy)
    case LoadOccupancy => Outcome(m, LoadReserve(m.occ))
    case LoadReserve(occ) => Outcome(m, LoadDecode(occ, m.res, false))
    case LoadDecode(occ, res, again) => Outcome(m, LoadRunning(occ, res, again, m.dec))
    case LoadRunning(occ, res, again, dec) => Outcome(m, LoadEncode(occ, res, again, dec, m.running))
    case LoadEncode(occ, res, again, dec, running) =>
      Outcome(m, Reserve(occ, res, again, dec, DecodeAdmitCap(poolThreads, running, dec, m.enc, occ, res)))
    case Reserve(occ, res, again, dec, cap) =>
      if cap.Some? && dec >= cap.value then Outcome(m, if again then Parked else Register(occ, res))
      else if m.dec != dec then Outcome(m, LoadDecode(occ, res, again))
      else Outcome(m.(dec := dec + 1), if again then Unregister else Holding)
    case Register(occ, res) => Outcome(m.(listeners := m.listeners[t := false]), Recheck(occ, res))
    case Recheck(occ, res) => Outcome(m, if !m.enabled then LateBypass else LoadDecode(occ, res, true))
    case LateBypass => Outcome(m.(dec := m.dec + 1), Unregister)
    case Unregister =>
      if CanNotify(m.listeners - {t}, pick) then Outcome(m.(listeners := Drop(m.listeners, t, pick)), Holding)
      else Outcome(m, pc)
    case Parked =>
      if t in m.listeners && m.listeners[t] then Outcome(m.(listeners := m.listeners - {t}), LoopTop)
      else Outcome(m, pc)
    case Holding => Outcome(m.(dec := m.dec - 1), Notifying)
    case EncodeArrived => Outcome(m.(enc := m.enc + 1), EncodeHolding)
    case EncodeHolding => Outcome(m.(enc := m.enc - 1), Notifying)
    case RunArrived => Outcome(m.(running := m.running + 1), RunHolding)
    case RunHolding => Outcome(m.(running := m.running - 1), Notifying)
    case Notifying =>
      if CanNotify(m.listeners, pick) then Outcome(m.(listeners := NotifyOne(m.listeners, pick)), Gone)
      else Outcome(m, pc)
    case Applying(Disabled) => Outcome(m.(enabled := false), ApplyNotify(true))
    case Applying(Enabled(occ, res)) => Outcome(m.(occ := Clamp(occ)), ApplyReserve(res))
    case ApplyReserve(res) => Outcome(m.(res := Clamp(res)), ApplyEnable)
    case ApplyEnable => Outcome(m.(enabled := true), ApplyNotify(false))
    case ApplyNotify(_) => Outcome(m.(listeners := NotifyAll(m.listeners)), Gone)
    case Gone => Outcome(m, pc)
  }

  /** A weak compare-exchange may fail although nothing has changed. */
  function LoseRace(pc: Pc): Pc {
    if pc.Reserve? && (pc.cap.Some? ==> pc.dec < pc.cap.value) then LoadDecode(pc.occ, pc.res, pc.again) else pc
  }

  /** A future is dropped before its first poll or while it awaits. */
  function Cancel(m: Memory, t: Tid, pc: Pc, pick: Tid): Outcome {
    if pc == Arrived then Outcome(m, Gone)
    else if pc == Parked && CanNotify(m.listeners - {t}, pick) then
      Outcome(m.(listeners := Drop(m.listeners, t, pick)), Gone)
    else Outcome(m, pc)
  }

  /** What a thread may be when it arrives. */
  predicate Starts(pc: Pc) {
    pc.Arrived? || pc.EncodeArrived? || pc.RunArrived? || pc.Applying?
  }

  predicate Possible(s: State, a: Action) {
    if a.Arrive? then a.tid !in s.threads && Starts(a.pc) else a.tid in s.threads
  }

  /** What an action makes of the shared state and of the thread that takes it. */
  function Effect(s: State, a: Action): Outcome
    requires Possible(s, a)
  {
    match a
    case Arrive(_, pc) => Outcome(s.mem, pc)
    case Run(t, pick) => Step(s.poolThreads, s.mem, t, s.threads[t], pick)
    case LosingRace(t) => Outcome(s.mem, LoseRace(s.threads[t]))
    case Cancelling(t, pick) => Cancel(s.mem, t, s.threads[t], pick)
  }

  /** One action of the system; an action that is not possible changes nothing. */
  function Next(s: State, a: Action): State {
    if Possible(s, a) then
      var o := Effect(s, a);
      s.(mem := o.mem, threads := s.threads[a.tid := o.pc])
    else s
  }

  function RunAll(s: State, actions: seq<Action>): State {
    if actions == [] then s else Next(RunAll(s, actions[..|actions| - 1]), actions[|actions| - 1])
  }

  /** No thread has arrived yet. */
  predicate Init(s: State) {
    s.mem.dec == s.mem.enc == s.mem.running == 0 && s.mem.listeners == map[] && s.threads == map[]
  }

  // What every reachable state satisfies.

  /** The thread owns a listener. */
  predicate Registered(pc: Pc) {
    match pc
    case LoadDecode(_, _, again) => again
    case LoadRunning(_, _, again, _) => again
    case LoadEncode(_, _, again, _, _) => again
    case Reserve(_, _, again, _, _) => again
    case _ => pc.Recheck? || pc.LateBypass? || pc.Unregister? || pc.Parked?
  }

  datatype Counter = DecodeOutstanding | EncodeOutstanding | RunningTasks

  function Value(m: Memory, c: Counter): int {
    match c
    case DecodeOutstanding => m.dec
    case EncodeOutstanding => m.enc
    case RunningTasks => m.running
  }

  /** The thread has counted itself in `c` and not yet taken itself out again. */
  predicate Holds(c: Counter, pc: Pc) {
    match c
    case DecodeOutstanding => pc.Holding? || pc.Unregister?
    case EncodeOutstanding => pc.EncodeHolding?
    case RunningTasks => pc.RunHolding?
  }

  /** The admitter has read a positive counter after registering, and may go on to park. */
  predicate Committed(pc: Pc) {
    match pc
    case LoadRunning(_, _, again, dec) => again && dec >= 1
    case LoadEncode(_, _, again, dec, _) => again && dec >= 1
    case Reserve(_, _, again, dec, _) => again && dec >= 1
    case _ => pc.Parked?
  }

  /** The admitter will still read the counter, or count itself, before it can park. */
  predicate Reevaluating(pc: Pc) {
    match pc
    case LoadDecode(_, _, _) => true
    case LoadRunning(_, _, again, dec) => !again || dec < 1
    case LoadEncode(_, _, again, dec, _) => !again || dec < 1
    case Reserve(_, _, again, dec, _) => !again || dec < 1
    case _ =>
      pc.Bypass? || pc.LoopTop? || pc.LoadOccupancy? || pc.LoadReserve? || pc.Register? || pc.Recheck? || pc.LateBypass?
  }

  function Holders(threads: map<Tid, Pc>, c: Counter): set<Tid> {
    set t | t in threads && Holds(c, threads[t])
  }

  /** Every counter is the number of threads that hold it. */
  ghost predicate Counters(s: State) {
    forall c :: Value(s.mem, c) == |Holders(s.threads, c)|
  }

  /** Exactly the registered threads own a listener; and no cap is below one. */
  ghost predicate Listed(s: State) {
    && (forall t :: t in s.mem.listeners <==> t in s.threads && Registered(s.threads[t]))
    && (forall t :: t in s.threads && s.threads[t].Reserve? && s.threads[t].cap.Some? ==> s.threads[t].cap.value >= 1)
  }

  function Change(threads: map<Tid, Pc>, t: Tid, pc: Pc, c: Counter): int {
    (if Holds(c, pc) then 1 else 0) - (if t in threads && Holds(c, threads[t]) then 1 else 0)
  }

  lemma CountAfter(threads: map<Tid, Pc>, t: Tid, pc: Pc, c: Counter)
    ensures |Holders(threads[t := pc], c)| == |Holders(threads, c)| + Change(threads, t, pc, c)
  {
    hide Holds;
    var before, after := Holders(threads, c), Holders(threads[t := pc], c);
    if Holds(c, pc) {
      assert after == before + {t};
    } else {
      assert after == before - {t};
    }
  }

  lemma CountersKept(s: State, a: Action)
    requires Counters(s) && Possible(s, a)
    ensures Counters(Next(s, a))
  {
    var o := Effect(s, a);
    forall c ensures Value(Next(s, a).mem, c) == |Holders(Next(s, a).threads, c)| {
      assert Value(o.mem, c) - Value(s.mem, c) == Change(s.threads, a.tid, o.pc, c);
      CountAfter(s.threads, a.tid, o.pc, c);
    }
  }

  lemma CapFloor(poolThreads: nat, running: int, dec: int, enc: int, occ: int, res: int)
    ensures var cap := DecodeAdmitCap(poolThreads, running, dec, enc, occ, res); cap.Some? ==> cap.value >= 1
  {
  }

  /** A thread adds and removes no listener but its own, and owns one exactly where its next access needs it. */
  lemma OwnListenerOnly(s: State, a: Action)
    requires Listed(s) && Possible(s, a)
    ensures var o := Effect(s, a);
            && o.mem.listeners.Keys - {a.tid} == s.mem.listeners.Keys - {a.tid}
            && (a.tid in o.mem.listeners <==> Registered(o.pc))
  {
    hide DecodeAdmitCap;
  }

  lemma CapsKeepFloor(s: State, a: Action)
    requires Listed(s) && Possible(s, a)
    ensures var pc := Effect(s, a).pc; pc.Reserve? && pc.cap.Some? ==> pc.cap.value >= 1
  {
    hide DecodeAdmitCap;
    if a.Run? && s.threads[a.tid].LoadEncode? {
      var pc := s.threads[a.tid];
      CapFloor(s.poolThreads, pc.running, pc.dec, s.mem.enc, pc.occ, pc.res);
    }
  }

  lemma ListedKept(s: State, a: Action)
    requires Listed(s) && Possible(s, a)
    ensures Listed(Next(s, a))
  {
    hide Effect, Registered;
    OwnListenerOnly(s, a);
    CapsKeepFloor(s, a);
    var s' := Next(s, a);
    forall t | t != a.tid ensures t in s'.mem.listeners <==> t in s'.threads && Registered(s'.threads[t]) {
      assert t in s'.mem.listeners.Keys - {a.tid} <==> t in s.mem.listeners.Keys - {a.tid};
    }
  }

  // No stranded decoder.

  /** Something is on its way that will release a parked admitter. */
  ghost predicate Attended(s: State) {
    || s.mem.dec >= 1
    || (exists t :: t in s.threads && (s.threads[t].Notifying? || Reevaluating(s.threads[t])))
    || (exists t :: t in s.mem.listeners && s.mem.listeners[t])
  }

  /** An admitter that has parked, or may be about to, and is not notified. */
  ghost predicate Waits(s: State, t: Tid) {
    t in s.threads && Committed(s.threads[t]) && t in s.mem.listeners && !s.mem.listeners[t]
  }

  /** The wait of any admitter is attended to. */
  ghost predicate NoneStranded(s: State) {
    forall t :: Waits(s, t) ==> Attended(s)
  }

  /** Nobody but its owner registers a listener, and no mark is ever taken back. */
  lemma UnmarkedBefore(s: State, a: Action, t: Tid)
    requires Possible(s, a) && t != a.tid
    requires t in Next(s, a).mem.listeners && !Next(s, a).mem.listeners[t]
    ensures t in s.mem.listeners && !s.mem.listeners[t]
    ensures a.tid in s.threads ==> s.threads[a.tid] == Next(s, a).threads[a.tid] || !s.threads[a.tid].ApplyNotify?
  {
    hide DecodeAdmitCap;
  }

  /** A notified listener is replaced, if at all, by another one or by an admitter that looks again. */
  lemma MarkMovesOn(s: State, a: Action, t: Tid, u: Tid)
    requires Listed(s) && Possible(s, a)
    requires Waits(Next(s, a), t) && u in s.mem.listeners && s.mem.listeners[u]
    ensures Attended(Next(s, a))
  {
    hide DecodeAdmitCap;
    var s', o := Next(s, a), Effect(s, a);
    assert s'.threads[a.tid] == o.pc;
    assert (u in s'.mem.listeners && s'.mem.listeners[u])
           || Reevaluating(o.pc)
           || (a.pick in s'.mem.listeners && s'.mem.listeners[a.pick]);
  }

  /** A thread that holds a decode slot after an action accounts for a positive counter. */
  lemma HeldIsCounted(s: State, a: Action)
    requires Counters(s) && Possible(s, a)
    ensures Holds(DecodeOutstanding, Effect(s, a).pc) ==> Next(s, a).mem.dec >= 1
  {
    hide Step, Cancel, LoseRace, Holds;
    CountersKept(s, a);
    var s' := Next(s, a);
    assert Value(s'.mem, DecodeOutstanding) == s'.mem.dec;
    assert Holds(DecodeOutstanding, Effect(s, a).pc) ==> a.tid in Holders(s'.threads, DecodeOutstanding);
  }

  /** An admitter that goes on to wait has just seen a positive counter, or was waiting already. */
  lemma WaitsAfresh(s: State, a: Action)
    requires Listed(s) && Possible(s, a) && Waits(Next(s, a), a.tid) && !Waits(s, a.tid)
    ensures Next(s, a).mem.dec >= 1
  {
    hide DecodeAdmitCap;
  }

  /** Whoever attends by being about to notify, or by looking again, goes on to do so or hands over. */
  lemma MoverAttends(s: State, a: Action, t: Tid)
    requires Listed(s) && Counters(s) && Possible(s, a) && a.tid in s.threads
    requires s.threads[a.tid].Notifying? || Reevaluating(s.threads[a.tid])
    requires t in s.mem.listeners && !s.mem.listeners[t]
    ensures Attended(Next(s, a))
  {
    hide DecodeAdmitCap, Counters;
    HeldIsCounted(s, a);
    var s', o := Next(s, a), Effect(s, a);
    assert s'.threads[a.tid] == o.pc;
    if s.threads[a.tid].Notifying? {
      assert o.pc.Notifying? || s'.mem.listeners[a.pick];
    } else {
      assert Reevaluating(o.pc) || s'.mem.dec >= 1;
    }
  }

  /** The last decode task to finish is about to notify. */
  lemma LastAttends(s: State, a: Action)
    requires Possible(s, a) && s.mem.dec >= 1
    ensures Attended(Next(s, a))
  {
    hide DecodeAdmitCap;
    assert Next(s, a).threads[a.tid] == Effect(s, a).pc;
    assert Next(s, a).mem.dec >= 1 || Effect(s, a).pc.Notifying?;
  }

  /** An action of any thread leaves the wait of thread `t` attended to. */
  lemma StillAttended(s: State, a: Action, t: Tid)
    requires Listed(s) && Counters(s) && Possible(s, a)
    requires Waits(Next(s, a), t) && (Waits(s, t) ==> Attended(s))
    ensures Attended(Next(s, a))
  {
    hide Effect, Counters, Committed, Registered;
    if !Waits(s, t) && t == a.tid {
      WaitsAfresh(s, a);
    } else if s.mem.dec >= 1 {
      LastAttends(s, a);
    } else {
      if t != a.tid {
        UnmarkedBefore(s, a, t);
      }
      if u :| u in s.mem.listeners && s.mem.listeners[u] {
        MarkMovesOn(s, a, t, u);
      } else {
        var u :| u in s.threads && (s.threads[u].Notifying? || Reevaluating(s.threads[u]));
        if u == a.tid {
          MoverAttends(s, a, t);
        } else {
          assert Next(s, a).threads[u] == s.threads[u];
        }
      }
    }
  }

  lemma NoneStrandedKept(s: State, a: Action)
    requires Listed(s) && Counters(s) && NoneStranded(s) && Possible(s, a)
    ensures NoneStranded(Next(s, a))
  {
    forall t | Waits(Next(s, a), t) ensures Attended(Next(s, a)) {
      StillAttended(s, a, t);
    }
  }

  // Disabling the arbiter.

  /** A disabling `apply` has stored its setting but not yet notified. */
  predicate Disabling(pc: Pc) {
    pc == ApplyNotify(true)
  }

  /** The admitter has registered but not yet looked again, or has looked and will not wait. */
  predicate WillNotPark(pc: Pc) {
    pc.Recheck? || pc.LateBypass? || pc.Unregister?
  }

  /** While the arbiter is off and every disabling `apply` has notified, nobody waits unnotified. */
  ghost predicate Drained(s: State) {
    !s.mem.enabled && (forall t :: t in s.threads ==> !Disabling(s.threads[t])) ==>
      forall t :: t in s.threads && t in s.mem.listeners && !s.mem.listeners[t] ==> WillNotPark(s.threads[t])
  }

  ghost predicate NobodyDisabling(threads: map<Tid, Pc>) {
    forall t :: t in threads ==> !Disabling(threads[t])
  }

  /** If nobody is disabling any more, nobody was before, or the last one has just notified everybody. */
  lemma QuietBefore(s: State, a: Action)
    requires Possible(s, a) && !Next(s, a).mem.enabled && NobodyDisabling(Next(s, a).threads)
    ensures || (!s.mem.enabled && NobodyDisabling(s.threads))
            || (forall t :: t in Next(s, a).mem.listeners ==> Next(s, a).mem.listeners[t])
  {
    hide DecodeAdmitCap, Drop, NotifyOne, CanNotify;
    var s', pc := Next(s, a), Effect(s, a).pc;
    assert s'.threads[a.tid] == pc && !Disabling(pc);
    forall u | u in s.threads && u != a.tid ensures !Disabling(s.threads[u]) {
      assert s'.threads[u] == s.threads[u];
    }
  }

  /** An admitter that steps while the arbiter is off does not come to wait. */
  lemma StepsAsideWhenOff(s: State, a: Action)
    requires Listed(s) && Possible(s, a) && !s.mem.enabled
    requires a.tid in Next(s, a).mem.listeners && !Next(s, a).mem.listeners[a.tid]
    requires a.tid in s.mem.listeners && !s.mem.listeners[a.tid] ==> WillNotPark(s.threads[a.tid])
    ensures WillNotPark(Next(s, a).threads[a.tid])
  {
    hide DecodeAdmitCap, CanNotify;
  }

  lemma DrainedKept(s: State, a: Action)
    requires Listed(s) && Drained(s) && Possible(s, a)
    ensures Drained(Next(s, a))
  {
    hide Effect, WillNotPark, Disabling;
    var s' := Next(s, a);
    if !s'.mem.enabled && NobodyDisabling(s'.threads) {
      QuietBefore(s, a);
      forall t | t in s'.threads && t in s'.mem.listeners && !s'.mem.listeners[t] ensures WillNotPark(s'.threads[t]) {
        if t == a.tid {
          StepsAsideWhenOff(s, a);
        } else {
          UnmarkedBefore(s, a, t);
          assert s'.threads[t] == s.threads[t];
        }
      }
    }
  }

  // Live reconfiguration.

  /** A call of `apply` that has not notified yet. */
  predicate InApply(pc: Pc) {
    pc.Applying? || pc.ApplyReserve? || pc.ApplyEnable? || pc.ApplyNotify?
  }

  /** The admitter is parked, and `told` if it must be notified. */
  predicate ParkedStill(s: State, t: Tid, told: bool) {
    && t in s.threads && s.threads[t].Parked?
    && t in s.mem.listeners && (told ==> s.mem.listeners[t])
  }

  /** After some of the actions, thread `t` stood before another look at the settings. */
  ghost predicate LookedAgain(s: State, actions: seq<Action>, t: Tid) {
    exists i :: 0 <= i <= |actions| && t in RunAll(s, actions[..i]).threads && RunAll(s, actions[..i]).threads[t].LoopTop?
  }

  /** A parked admitter stays parked, and notified once it was; or it is woken; or it is cancelled. */
  lemma ParkedStep(s: State, a: Action, t: Tid, told: bool)
    requires Possible(s, a) && ParkedStill(s, t, told)
    ensures var s' := Next(s, a);
            ParkedStill(s', t, told) || (t in s'.threads && (s'.threads[t].LoopTop? || s'.threads[t].Gone?))
  {
    hide DecodeAdmitCap;
  }

  /** A call of `apply` goes on, or it has just notified everybody. */
  lemma ApplyStep(s: State, a: Action, u: Tid)
    requires Possible(s, a) && u in s.threads && InApply(s.threads[u])
    ensures var s' := Next(s, a);
            && u in s'.threads
            && (InApply(s'.threads[u])
                || (a.tid == u && s'.threads[u].Gone? && forall t :: t in s'.mem.listeners ==> s'.mem.listeners[t]))
  {
    hide DecodeAdmitCap;
  }

  /**
   When a call of `apply` has finished, whatever the configuration and whatever else went on, each admitter
   that was parked when the call began is notified, or has been woken to read the settings again, or is cancelled.
  */
  lemma {:induction false} ApplyReachesParked(s: State, actions: seq<Action>, u: Tid, t: Tid)
    requires u in s.threads && InApply(s.threads[u]) && ParkedStill(s, t, false)
    ensures var s' := RunAll(s, actions);
            && u in s'.threads && t in s'.threads && (InApply(s'.threads[u]) || s'.threads[u].Gone?)
            && (ParkedStill(s', t, s'.threads[u].Gone?) || s'.threads[t].Gone? || LookedAgain(s, actions, t))
  {
    if actions != [] {
      var before, a := actions[..|actions| - 1], actions[|actions| - 1];
      var last := RunAll(s, before);
      ApplyReachesParked(s, before, u, t);
      if Possible(last, a) {
        ThreadsStay(last, a, u, t);
        if InApply(last.threads[u]) {
          ApplyStep(last, a, u);
        }
        if LookedAgain(s, before, t) {
          var i :| 0 <= i <= |before| && t in RunAll(s, before[..i]).threads && RunAll(s, before[..i]).threads[t].LoopTop?;
          assert actions[..i] == before[..i];
          assert LookedAgain(s, actions, t);
        } else if ParkedStill(last, t, last.threads[u].Gone?) {
          ParkedStep(last, a, t, last.threads[u].Gone?);
          assert actions[..|actions|] == actions;
        }
      } else {
        assert forall i :: 0 <= i <= |before| ==> actions[..i] == before[..i];
        assert LookedAgain(s, before, t) ==> LookedAgain(s, actions, t);
      }
    } else {
      assert RunAll(s, actions) == s;
    }
  }

  /** No thread is forgotten, and one that is gone stays gone. */
  lemma ThreadsStay(s: State, a: Action, u: Tid, t: Tid)
    requires Possible(s, a) && u in s.threads && t in s.threads
    ensures u in Next(s, a).threads && t in Next(s, a).threads
    ensures s.threads[u].Gone? ==> Next(s, a).threads[u].Gone?
    ensures s.threads[t].Gone? ==> Next(s, a).threads[t].Gone?
  {
  }

  // Whole runs.

  ghost predicate Invariant(s: State) {
    Counters(s) && Listed(s) && NoneStranded(s) && Drained(s)
  }

  lemma {:induction false} Reachable(s0: State, actions: seq<Action>)
    requires Init(s0)
    ensures Invariant(RunAll(s0, actions))
  {
    if actions == [] {
      forall c ensures Value(s0.mem, c) == |Holders(s0.threads, c)| {
        assert Holders(s0.threads, c) == {};
      }
    } else {
      var a, s := actions[|actions| - 1], RunAll(s0, actions[..|actions| - 1]);
      Reachable(s0, actions[..|actions| - 1]);
      if Possible(s, a) {
        CountersKept(s, a);
        ListedKept(s, a);
        NoneStrandedKept(s, a);
        DrainedKept(s, a);
      }
    }
  }

  /**
   In every run: while an admitter is parked and not notified, some decode task is outstanding, or
   some finishing task is about to notify, or another admitter is notified or looks again.
  */
  lemma NoStrandedDecoder(s0: State, actions: seq<Action>, t: Tid)
    requires Init(s0)
    requires var s := RunAll(s0, actions);
             t in s.threads && s.threads[t] == Parked && t in s.mem.listeners && !s.mem.listeners[t]
    ensures var s := RunAll(s0, actions);
            || s.mem.dec >= 1
            || (exists u :: u in s.threads && s.threads[u].Notifying?)
            || (exists u :: u != t && u in s.threads && Reevaluating(s.threads[u]))
            || (exists u :: u != t && u in s.mem.listeners && s.mem.listeners[u])
  {
    hide Next;
    Reachable(s0, actions);
    assert Waits(RunAll(s0, actions), t);
  }

  /** Nothing is left to do except for threads that wait and tasks other than decode tasks. */
  ghost predicate Quiescent(s: State) {
    && (forall t :: t in s.threads ==>
          var pc := s.threads[t];
          || pc.Arrived? || pc.Parked? || pc.Gone?
          || pc.EncodeArrived? || pc.EncodeHolding? || pc.RunArrived? || pc.RunHolding?)
    && (forall t :: t in s.mem.listeners ==> !s.mem.listeners[t])
  }

  /** A system that has come to rest has no parked admitter. */
  lemma RestLeavesNobodyParked(s0: State, actions: seq<Action>, t: Tid)
    requires Init(s0) && Quiescent(RunAll(s0, actions))
    requires t in RunAll(s0, actions).threads
    ensures RunAll(s0, actions).threads[t] != Parked
  {
    var s := RunAll(s0, actions);
    Reachable(s0, actions);
    assert Holders(s.threads, DecodeOutstanding) == {};
    assert Value(s.mem, DecodeOutstanding) == 0;
    assert !Attended(s);
    assert !Waits(s, t);
  }

  /**
   In every run, with any number of concurrent `apply` calls: once the arbiter is off and the calls
   that turned it off have notified, every parked admitter is notified.
  */
  lemma DisablingReleasesAll(s0: State, actions: seq<Action>, t: Tid)
    requires Init(s0)
    requires var s := RunAll(s0, actions);
             && !s.mem.enabled
             && (forall u :: u in s.threads ==> s.threads[u] != ApplyNotify(true))
             && t in s.threads && s.threads[t] == Parked
    ensures var s := RunAll(s0, actions); t in s.mem.listeners && s.mem.listeners[t]
  {
    hide Next;
    Reachable(s0, actions);
  }

  // The ceiling under saturation.

  /** What is assumed of an interval: fixed settings, a saturated pool, and between `lo` and `hi` encode tasks. */
  datatype Load = Load(occ: int, res: int, lo: int, hi: int)

  ghost predicate Saturated(s: State, load: Load) {
    && s.poolThreads > 0 && s.mem.enabled && s.mem.occ == load.occ && s.mem.res == load.res
    && s.mem.running >= Threshold(s.poolThreads, load.occ)
    && 1 <= load.lo <= s.mem.enc <= load.hi
  }

  /** An admitter is in the middle of an attempt. */
  predicate Attempting(pc: Pc) {
    || pc.Bypass? || pc.LoopTop? || pc.LoadOccupancy? || pc.LoadReserve? || pc.LoadDecode? || pc.LoadRunning?
    || pc.LoadEncode? || pc.Reserve? || pc.Register? || pc.Recheck? || pc.LateBypass?
  }

  /** The most decode tasks that admissions under this load can lead to. */
  function Ceiling(poolThreads: nat, load: Load): int {
    Max(2 * load.hi + 1, Max(1, poolThreads - Min(Share(poolThreads, load.res), load.lo)))
  }

  /** What an attempt has read so far agrees with the load. */
  predicate Agrees(poolThreads: nat, load: Load, pc: Pc) {
    match pc
    case LoadReserve(occ) => occ == load.occ
    case LoadDecode(occ, res, _) => occ == load.occ && res == load.res
    case LoadRunning(occ, res, _, _) => occ == load.occ && res == load.res
    case LoadEncode(occ, res, _, _, running) =>
      occ == load.occ && res == load.res && running >= Threshold(poolThreads, load.occ)
    case Reserve(occ, res, _, dec, cap) =>
      && occ == load.occ && res == load.res
      && (if cap.Some? then cap.value <= Ceiling(poolThreads, load) else dec < Ceiling(poolThreads, load))
    case Register(occ, res) => occ == load.occ && res == load.res
    case Recheck(occ, res) => occ == load.occ && res == load.res
    case _ => !pc.Bypass? && !pc.LateBypass?
  }

  lemma CapUnderLoad(poolThreads: nat, load: Load, running: int, dec: int, enc: int)
    requires running >= Threshold(poolThreads, load.occ) && 1 <= load.lo <= enc <= load.hi
    ensures var cap := DecodeAdmitCap(poolThreads, running, dec, enc, load.occ, load.res);
            if cap.Some? then cap.value <= Ceiling(poolThreads, load) else dec < Ceiling(poolThreads, load)
  {
    hide Threshold, Share;
  }

  ghost predicate UnderCeiling(s: State, load: Load) {
    && s.mem.dec <= Ceiling(s.poolThreads, load)
    && (forall t :: t in s.threads ==> Agrees(s.poolThreads, load, s.threads[t]))
  }

  lemma UnderCeilingKept(s: State, a: Action, load: Load)
    requires Saturated(s, load) && UnderCeiling(s, load) && Possible(s, a)
    ensures UnderCeiling(Next(s, a), load)
  {
    if a.Run? && s.threads[a.tid].LoadEncode? {
      var pc := s.threads[a.tid];
      CapUnderLoad(s.poolThreads, load, pc.running, pc.dec, s.mem.enc);
    }
    hide DecodeAdmitCap, Ceiling, Threshold, Drop, NotifyOne, NotifyAll, CanNotify, Clamp;
    assert Agrees(s.poolThreads, load, Effect(s, a).pc);
  }

  /**
   While the pool stays saturated under a given load, no matter how many admitters race, the decode
   tasks outstanding never exceed the ceiling, if they did not when the interval began with no
   attempt under way.
  */
  lemma {:induction false} DecodeCeiling(s: State, actions: seq<Action>, load: Load)
    requires s.mem.dec <= Ceiling(s.poolThreads, load)
    requires forall t :: t in s.threads ==> !Attempting(s.threads[t])
    requires forall i :: 0 <= i <= |actions| ==> Saturated(RunAll(s, actions[..i]), load)
    ensures UnderCeiling(RunAll(s, actions), load)
    ensures RunAll(s, actions).mem.dec <= Ceiling(s.poolThreads, load)
  {
    assert actions[..|actions|] == actions;
    if actions != [] {
      var before := actions[..|actions| - 1];
      forall i | 0 <= i <= |before| ensures Saturated(RunAll(s, before[..i]), load) {
        assert before[..i] == actions[..i];
      }
      DecodeCeiling(s, before, load);
      SamePool(s, before);
      var a, last := actions[|actions| - 1], RunAll(s, before);
      assert before[..|before|] == before;
      if Possible(last, a) {
        UnderCeilingKept(last, a, load);
      }
    } else {
      forall t | t in s.threads ensures Agrees(s.poolThreads, load, s.threads[t]) {
        assert !Attempting(s.threads[t]);
      }
    }
  }

  lemma SamePool(s: State, actions: seq<Action>)
    ensures RunAll(s, actions).poolThreads == s.poolThreads
  {
  }
}
