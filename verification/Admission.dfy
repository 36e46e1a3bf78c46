/** Who is admitted: the admission of decode tasks told from its policy and from what an admitter read in a run. */
module Admission {
  import opened Arbiter

  /**
   The policy: decode is admitted unless the pool is saturated, there is encode work to protect, decode floods
   encode, and decode already fills what the reserve for encode leaves of the pool, which is at least one thread.
  */
  predicate Admissible(poolThreads: int, running: int, dec: int, enc: int, occ: int, res: int) {
    || running < 1 || (running + 1) * 100 <= poolThreads * occ
    || enc == 0
    || dec <= 2 * enc
    || dec < Max(1, poolThreads - Min(Share(poolThreads, res), enc))
  }

  /** The cap of the code and the policy agree. */
  lemma CapIsPolicy(poolThreads: int, running: int, dec: int, enc: int, occ: int, res: int)
    ensures var cap := DecodeAdmitCap(poolThreads, running, dec, enc, occ, res);
            Admissible(poolThreads, running, dec, enc, occ, res) <==> cap.None? || dec < cap.value
  {
    hide Threshold, Share;
    SaturatedIff(poolThreads, running, occ);
  }

  /** The state after thread `t` has taken `n` steps with nobody in between. */
  function Alone(s: State, t: Tid, pick: Tid, n: nat): State {
    if n == 0 then s else Next(Alone(s, t, pick, n - 1), Run(t, pick))
  }

  /** After `n` steps of its own the thread stands at `pc`, the shared state is `mem`, and nothing else has changed. */
  predicate Stands(s: State, t: Tid, pick: Tid, n: nat, mem: Memory, pc: Pc) {
    Alone(s, t, pick, n) == s.(mem := mem, threads := s.threads[t := pc])
  }

  lemma Begin(s: State, t: Tid, pick: Tid)
    requires t in s.threads
    ensures Stands(s, t, pick, 0, s.mem, s.threads[t])
  {
    assert s.threads == s.threads[t := s.threads[t]];
  }

  lemma OneStep(s: State, t: Tid, pick: Tid, n: nat, mem: Memory, pc: Pc)
    requires Stands(s, t, pick, n, mem, pc)
    ensures var o := Step(s.poolThreads, mem, t, pc, pick); Stands(s, t, pick, n + 1, o.mem, o.pc)
  {
    hide Step;
    var o := Step(s.poolThreads, mem, t, pc, pick);
    assert s.threads[t := pc][t := o.pc] == s.threads[t := o.pc];
  }

  /** An attempt from its first read on, by a thread that is left alone. */
  lemma AttemptAlone(s: State, t: Tid, pick: Tid, n: nat, m: Memory, occ: int, res: int, again: bool)
    requires Stands(s, t, pick, n, m, LoadDecode(occ, res, again))
    ensures if Admissible(s.poolThreads, m.running, m.dec, m.enc, occ, res)
            then Stands(s, t, pick, n + 4, m.(dec := m.dec + 1), if again then Unregister else Holding)
            else Stands(s, t, pick, n + 4, m, if again then Parked else Register(occ, res))
  {
    hide DecodeAdmitCap, Admissible, Stands, Alone, Drop, NotifyOne, NotifyAll, CanNotify;
    var cap := DecodeAdmitCap(s.poolThreads, m.running, m.dec, m.enc, occ, res);
    CapIsPolicy(s.poolThreads, m.running, m.dec, m.enc, occ, res);
    OneStep(s, t, pick, n, m, LoadDecode(occ, res, again));
    OneStep(s, t, pick, n + 1, m, LoadRunning(occ, res, again, m.dec));
    OneStep(s, t, pick, n + 2, m, LoadEncode(occ, res, again, m.dec, m.running));
    OneStep(s, t, pick, n + 3, m, Reserve(occ, res, again, m.dec, cap));
  }

  /** An admitter that is left alone is admitted exactly if the policy admits it, at the settings then in force. */
  lemma AloneIsAdmittedIff(s: State, t: Tid, pick: Tid)
    requires s.mem.enabled && t in s.threads && s.threads[t] == LoopTop
    ensures var m := s.mem;
            if Admissible(s.poolThreads, m.running, m.dec, m.enc, m.occ, m.res)
            then Stands(s, t, pick, 7, m.(dec := m.dec + 1), Holding)
            else Stands(s, t, pick, 7, m, Register(m.occ, m.res))
  {
    hide Admissible, Stands, Alone, DecodeAdmitCap, Drop, NotifyOne, NotifyAll, CanNotify;
    Begin(s, t, pick);
    OneStep(s, t, pick, 0, s.mem, LoopTop);
    OneStep(s, t, pick, 1, s.mem, LoadOccupancy);
    OneStep(s, t, pick, 2, s.mem, LoadReserve(s.mem.occ));
    AttemptAlone(s, t, pick, 3, s.mem, s.mem.occ, s.mem.res, false);
  }

  /**
   One that was refused registers and looks once more. It parks, unnotified, only if the policy still refuses it;
   otherwise it takes its slot and its listener back.
  */
  lemma AloneParksIff(s: State, t: Tid, pick: Tid, occ: int, res: int)
    requires s.mem.enabled && t in s.threads && s.threads[t] == Register(occ, res)
    requires t !in s.mem.listeners && CanNotify(s.mem.listeners, pick)
    ensures var m := s.mem;
            if Admissible(s.poolThreads, m.running, m.dec, m.enc, occ, res)
            then Stands(s, t, pick, 7, m.(dec := m.dec + 1), Holding)
            else Stands(s, t, pick, 6, m.(listeners := m.listeners[t := false]), Parked)
  {
    hide Admissible, Stands, Alone, DecodeAdmitCap;
    var m := s.mem.(listeners := s.mem.listeners[t := false]);
    Begin(s, t, pick);
    OneStep(s, t, pick, 0, s.mem, Register(occ, res));
    OneStep(s, t, pick, 1, m, Recheck(occ, res));
    AttemptAlone(s, t, pick, 2, m, occ, res, true);
    if Admissible(s.poolThreads, m.running, m.dec, m.enc, occ, res) {
      assert m.listeners - {t} == s.mem.listeners;
      OneStep(s, t, pick, 6, m.(dec := m.dec + 1), Unregister);
    }
  }

  /** If the arbiter is turned off meanwhile, it takes a slot without further question. */
  lemma AloneSlipsThrough(s: State, t: Tid, pick: Tid, occ: int, res: int)
    requires !s.mem.enabled && t in s.threads && s.threads[t] == Register(occ, res)
    requires t !in s.mem.listeners && CanNotify(s.mem.listeners, pick)
    ensures Stands(s, t, pick, 4, s.mem.(dec := s.mem.dec + 1), Holding)
  {
    hide Stands, Alone, DecodeAdmitCap;
    var m := s.mem.(listeners := s.mem.listeners[t := false]);
    Begin(s, t, pick);
    OneStep(s, t, pick, 0, s.mem, Register(occ, res));
    OneStep(s, t, pick, 1, m, Recheck(occ, res));
    OneStep(s, t, pick, 2, m, LateBypass);
    assert m.listeners - {t} == s.mem.listeners;
    OneStep(s, t, pick, 3, m.(dec := m.dec + 1), Unregister);
  }

  /** A parked admitter moves exactly if it is notified; it gives its listener up and looks again from the start. */
  lemma ParkedWakesIff(s: State, t: Tid, pick: Tid)
    requires t in s.threads && s.threads[t] == Parked && t in s.mem.listeners
    ensures if s.mem.listeners[t] then Stands(s, t, pick, 1, s.mem.(listeners := s.mem.listeners - {t}), LoopTop)
            else Stands(s, t, pick, 1, s.mem, Parked)
  {
    hide Stands, Alone;
    Begin(s, t, pick);
    OneStep(s, t, pick, 0, s.mem, Parked);
  }

  /** An admitter that is dropped while it waits leaves nothing behind: its notification goes to another waiter. */
  lemma CancelledHandsOn(s: State, t: Tid, pick: Tid)
    requires t in s.threads && s.threads[t] == Parked && t in s.mem.listeners && CanNotify(s.mem.listeners - {t}, pick)
    ensures var s', others := Next(s, Cancelling(t, pick)), s.mem.listeners - {t};
            && s' == s.(mem := s'.mem, threads := s.threads[t := Gone])
            && s'.mem == s.mem.(listeners := s'.mem.listeners) && s'.mem.listeners.Keys == others.Keys
            && (forall u :: u in others ==> s'.mem.listeners[u] == (others[u] || (s.mem.listeners[t] && u == pick)))
            && (s.mem.listeners[t] && (exists u :: u in others && !others[u]) ==> pick in others && !others[pick])
  {
  }

  /** What a finishing task holds. */
  function HoldingOf(c: Counter): Pc {
    match c
    case DecodeOutstanding => Holding
    case EncodeOutstanding => EncodeHolding
    case RunningTasks => RunHolding
  }

  /** Any task that finishes gives its place back and then notifies one waiter that was not notified, if there is one. */
  lemma FinishingNotifies(s: State, t: Tid, pick: Tid, c: Counter)
    requires t in s.threads && s.threads[t] == HoldingOf(c) && CanNotify(s.mem.listeners, pick)
    ensures var m, m' := s.mem, Alone(s, t, pick, 2).mem;
            && Stands(s, t, pick, 2, m', Gone)
            && Value(m', c) == Value(m, c) - 1
            && (forall other :: other != c ==> Value(m', other) == Value(m, other))
            && m'.listeners.Keys == m.listeners.Keys
            && (forall u :: u in m.listeners ==> m'.listeners[u] == (m.listeners[u] || u == pick))
            && ((exists u :: u in m.listeners && !m.listeners[u]) ==> pick in m.listeners && !m.listeners[pick])
  {
    hide Alone, DecodeAdmitCap;
    var m := s.mem;
    Begin(s, t, pick);
    OneStep(s, t, pick, 0, m, HoldingOf(c));
    var m1 := match c
      case DecodeOutstanding => m.(dec := m.dec - 1)
      case EncodeOutstanding => m.(enc := m.enc - 1)
      case RunningTasks => m.(running := m.running - 1);
    OneStep(s, t, pick, 1, m1, Notifying);
  }

  /** With the arbiter off, on arrival or when woken, or without a pool, an admitter passes straight through. */
  lemma AlonePassesThrough(s: State, t: Tid, pick: Tid)
    requires t in s.threads
    requires || (s.threads[t] == Arrived && (!s.mem.enabled || s.poolThreads == 0))
             || (s.threads[t] == LoopTop && !s.mem.enabled)
    ensures Stands(s, t, pick, 2, s.mem.(dec := s.mem.dec + 1), Holding)
  {
    hide Stands, Alone;
    Begin(s, t, pick);
    OneStep(s, t, pick, 0, s.mem, s.threads[t]);
    OneStep(s, t, pick, 1, s.mem, Bypass);
  }

  // What an admitter read, told by the run.

  /** The counters and settings as a thread last read them, each when it read it. */
  datatype Reads = Reads(occ: int, res: int, dec: int, running: int, enc: int)

  function ReadsAfter(r: Reads, m: Memory, pc: Pc): Reads {
    match pc
    case LoadOccupancy => r.(occ := m.occ)
    case LoadReserve(_) => r.(res := m.res)
    case LoadDecode(_, _, _) => r.(dec := m.dec)
    case LoadRunning(_, _, _, _) => r.(running := m.running)
    case LoadEncode(_, _, _, _, _) => r.(enc := m.enc)
    case _ => r
  }

  function LastReads(s0: State, actions: seq<Action>, t: Tid): Reads {
    if actions == [] then Reads(0, 0, 0, 0, 0)
    else
      var before, a := RunAll(s0, actions[..|actions| - 1]), actions[|actions| - 1];
      var r := LastReads(s0, actions[..|actions| - 1], t);
      if a.Run? && a.tid == t && t in before.threads then ReadsAfter(r, before.mem, before.threads[t]) else r
  }

  predicate Refused(poolThreads: int, r: Reads) {
    !Admissible(poolThreads, r.running, r.dec, r.enc, r.occ, r.res)
  }

  /** What a thread carries with it is what it last read. */
  predicate Informed(poolThreads: int, r: Reads, pc: Pc) {
    match pc
    case LoadReserve(occ) => occ == r.occ
    case LoadDecode(occ, res, _) => occ == r.occ && res == r.res
    case LoadRunning(occ, res, _, dec) => occ == r.occ && res == r.res && dec == r.dec
    case LoadEncode(occ, res, _, dec, running) => occ == r.occ && res == r.res && dec == r.dec && running == r.running
    case Reserve(occ, res, _, dec, cap) =>
      && occ == r.occ && res == r.res && dec == r.dec
      && (Refused(poolThreads, r) <==> cap.Some? && dec >= cap.value)
    case Register(occ, res) => occ == r.occ && res == r.res && Refused(poolThreads, r)
    case Recheck(occ, res) => occ == r.occ && res == r.res
    case Parked => Refused(poolThreads, r)
    case _ => true
  }

  lemma InformedStep(poolThreads: nat, r: Reads, m: Memory, t: Tid, pc: Pc, pick: Tid)
    requires Informed(poolThreads, r, pc)
    ensures Informed(poolThreads, ReadsAfter(r, m, pc), Step(poolThreads, m, t, pc, pick).pc)
  {
    if pc.LoadEncode? {
      CapIsPolicy(poolThreads, pc.running, pc.dec, m.enc, pc.occ, pc.res);
    }
    hide DecodeAdmitCap, Admissible, Drop, NotifyOne, NotifyAll, CanNotify;
  }

  lemma {:induction false} AlwaysInformed(s0: State, actions: seq<Action>, t: Tid)
    requires Init(s0)
    ensures var s := RunAll(s0, actions);
            t in s.threads ==> Informed(s.poolThreads, LastReads(s0, actions, t), s.threads[t])
  {
    hide Step, Informed, ReadsAfter;
    if actions != [] {
      var before, a := actions[..|actions| - 1], actions[|actions| - 1];
      var s, r := RunAll(s0, before), LastReads(s0, before, t);
      AlwaysInformed(s0, before, t);
      if Possible(s, a) && a.tid == t {
        match a
        case Arrive(_, pc) => StartsInformed(s.poolThreads, r, pc);
        case Run(_, pick) => InformedStep(s.poolThreads, r, s.mem, t, s.threads[t], pick);
        case LosingRace(_) => RaceKeepsInformed(s.poolThreads, r, s.threads[t]);
        case Cancelling(_, pick) => CancelKeepsInformed(s.poolThreads, r, s.mem, t, s.threads[t], pick);
      }
    }
  }

  lemma StartsInformed(poolThreads: int, r: Reads, pc: Pc)
    requires Starts(pc)
    ensures Informed(poolThreads, r, pc)
  {
  }

  lemma RaceKeepsInformed(poolThreads: int, r: Reads, pc: Pc)
    requires Informed(poolThreads, r, pc)
    ensures Informed(poolThreads, r, LoseRace(pc))
  {
    hide Admissible;
  }

  lemma CancelKeepsInformed(poolThreads: int, r: Reads, m: Memory, t: Tid, pc: Pc, pick: Tid)
    requires Informed(poolThreads, r, pc)
    ensures Informed(poolThreads, r, Cancel(m, t, pc, pick).pc)
  {
    hide Admissible;
  }

  /** In every run, whoever registers or parks was refused by the policy on what it read in its last attempt. */
  lemma RefusedForCause(s0: State, actions: seq<Action>, t: Tid)
    requires Init(s0) && t in RunAll(s0, actions).threads
    requires var pc := RunAll(s0, actions).threads[t]; pc.Register? || pc.Parked?
    ensures Refused(s0.poolThreads, LastReads(s0, actions, t))
  {
    hide RunAll, LastReads, Admissible;
    AlwaysInformed(s0, actions, t);
    SamePool(s0, actions);
  }

  /** In every run, a slot that is reserved under the policy is admitted by it, on what was read and at that very count. */
  lemma AdmittedForCause(s0: State, actions: seq<Action>, t: Tid, pick: Tid)
    requires Init(s0) && t in RunAll(s0, actions).threads && RunAll(s0, actions).threads[t].Reserve?
    requires Next(RunAll(s0, actions), Run(t, pick)).mem.dec != RunAll(s0, actions).mem.dec
    ensures var m, r := RunAll(s0, actions).mem, LastReads(s0, actions, t);
            && Admissible(s0.poolThreads, r.running, m.dec, r.enc, r.occ, r.res)
            && Next(RunAll(s0, actions), Run(t, pick)).mem.dec == m.dec + 1
  {
    hide RunAll, LastReads, Admissible;
    AlwaysInformed(s0, actions, t);
    SamePool(s0, actions);
  }

  // What `apply` sets.

  /** A call of `apply` that is left alone leaves the settings it was given, and everybody notified. */
  lemma ApplyAlone(s: State, u: Tid, pick: Tid, config: Config)
    requires u in s.threads && s.threads[u] == Applying(config)
    ensures var n, m := if config.Enabled? then 4 else 2, s.mem;
            var m' := Alone(s, u, pick, n).mem;
            && Stands(s, u, pick, n, m', Gone)
            && (m'.enabled <==> config.Enabled?)
            && (config.Enabled? && 1 <= config.occupancyPct <= 100 ==> m'.occ == config.occupancyPct)
            && (config.Enabled? && 1 <= config.encodeReservePct <= 100 ==> m'.res == config.encodeReservePct)
            && (config.Enabled? ==> 1 <= m'.occ <= 100 && 1 <= m'.res <= 100)
            && (config.Disabled? ==> m'.occ == m.occ && m'.res == m.res)
            && m'.dec == m.dec && m'.enc == m.enc && m'.running == m.running && m'.listeners.Keys == m.listeners.Keys
            && (forall t :: t in m'.listeners ==> m'.listeners[t])
  {
    hide Alone, DecodeAdmitCap, Drop, NotifyOne, CanNotify;
    var m := s.mem;
    Begin(s, u, pick);
    OneStep(s, u, pick, 0, m, Applying(config));
    if config.Enabled? {
      var m1 := m.(occ := Clamp(config.occupancyPct));
      var m2 := m1.(res := Clamp(config.encodeReservePct));
      OneStep(s, u, pick, 1, m1, ApplyReserve(config.encodeReservePct));
      OneStep(s, u, pick, 2, m2, ApplyEnable);
      OneStep(s, u, pick, 3, m2.(enabled := true), ApplyNotify(false));
    } else {
      OneStep(s, u, pick, 1, m.(enabled := false), ApplyNotify(true));
    }
  }
}
