/**
 Accounting of tasks on the shared pool: submission with a queue limit, cancellation, execution with
 panics, and the guards that count all of it. Callers and pool threads take single steps on shared
 state in any order.
*/
module Tasks {
  import opened Polling

  datatype Kind = Plain | Encode | Decode

  /** What became of a call: `ChannelClosed` is the case the code expects never to meet. */
  datatype Result = Answered(ok: bool) | Rejected | Dropped | ChannelClosed

  /** The caller's side of a task. */
  datatype Caller =
    | Submitting
    | Tagged
    | Acquired(prev: int)
    | Rejecting
    | Waiting
    | Leaving(result: Result)
    | Finished(result: Result)

  /** How a submitted task ends. */
  datatype Fate = Completed | Cancelled | Orphaned

  /** The pool's side of a task. */
  datatype Work =
    | NotSubmitted
    | Queued
    | Entering
    | Executing
    | Sending(ok: bool)
    | LeavingThread(fate: Fate)
    | Releasing(fate: Fate)
    | Ended(fate: Fate)

  datatype Job = Job(kind: Kind, caller: Caller, work: Work, channel: Option<bool>)

  type JobId = nat

  /** The shared counters and the metrics. */
  datatype Memory = Memory(
    outstanding: int,
    enc: int,
    dec: int,
    running: int,
    submitted: int,
    completed: int,
    cancelled: int,
    orphaned: int,
    rejected: int)

  datatype State = State(limit: Option<nat>, mem: Memory, jobs: map<JobId, Job>)

  datatype Outcome = Outcome(mem: Memory, job: Job)

  datatype Action =
    | Submit(id: JobId, kind: Kind)
    | RunCaller(id: JobId)
    | RunWorker(id: JobId, ok: bool)
    | DropCaller(id: JobId)

  /** The next access of the caller. */
  function CallerStep(limit: Option<nat>, m: Memory, j: Job): Outcome {
    match j.caller
    case Submitting =>
      Outcome(if j.kind.Encode? then m.(enc := m.enc + 1) else if j.kind.Decode? then m.(dec := m.dec + 1) else m,
              j.(caller := Tagged))
    case Tagged => Outcome(m.(outstanding := m.outstanding + 1), j.(caller := Acquired(m.outstanding)))
    case Acquired(prev) =>
      if limit.Some? && prev + 1 > limit.value
      then Outcome(m.(rejected := m.rejected + 1), j.(caller := Rejecting))
      else Outcome(m.(submitted := m.submitted + 1), j.(caller := Waiting, work := Queued))
    case Rejecting => Outcome(m.(outstanding := m.outstanding - 1), j.(caller := Leaving(Rejected)))
    case Waiting =>
      if j.channel.Some? then Outcome(m, j.(caller := Leaving(Answered(j.channel.value))))
      else if SenderGone(j.work) then Outcome(m, j.(caller := Leaving(ChannelClosed)))
      else Outcome(m, j)
    case Leaving(result) =>
      Outcome(if j.kind.Encode? then m.(enc := m.enc - 1) else if j.kind.Decode? then m.(dec := m.dec - 1) else m,
              j.(caller := Finished(result)))
    case Finished(_) => Outcome(m, j)
  }

  /** The sending half of the channel no longer exists. */
  predicate SenderGone(work: Work) {
    work.LeavingThread? || work.Releasing? || work.Ended?
  }

  /** The next access of the pool thread that runs the task; `ok` tells whether the task returns or panics. */
  function WorkerStep(m: Memory, j: Job, ok: bool): Outcome {
    match j.work
    case NotSubmitted => Outcome(m, j)
    case Queued =>
      if j.caller.Waiting? then Outcome(m, j.(work := Entering))
      else Outcome(m.(cancelled := m.cancelled + 1), j.(work := Releasing(Cancelled)))
    case Entering => Outcome(m.(running := m.running + 1), j.(work := Executing))
    case Executing => Outcome(m, j.(work := Sending(ok)))
    case Sending(result) =>
      if j.caller.Waiting?
      then Outcome(m.(completed := m.completed + 1), j.(work := LeavingThread(Completed), channel := Some(result)))
      else Outcome(m.(orphaned := m.orphaned + 1), j.(work := LeavingThread(Orphaned)))
    case LeavingThread(fate) => Outcome(m.(running := m.running - 1), j.(work := Releasing(fate)))
    case Releasing(fate) => Outcome(m.(outstanding := m.outstanding - 1), j.(work := Ended(fate)))
    case Ended(_) => Outcome(m, j)
  }

  /** A call is dropped before its first poll or while it awaits the result. */
  function DropStep(j: Job): Job {
    match j.caller
    case Submitting => j.(caller := Finished(Dropped))
    case Waiting => j.(caller := Leaving(Dropped))
    case _ => j
  }

  predicate Possible(s: State, a: Action) {
    if a.Submit? then a.id !in s.jobs else a.id in s.jobs
  }

  function Effect(s: State, a: Action): Outcome
    requires Possible(s, a)
  {
    match a
    case Submit(_, kind) => Outcome(s.mem, Job(kind, Submitting, NotSubmitted, None))
    case RunCaller(id) => CallerStep(s.limit, s.mem, s.jobs[id])
    case RunWorker(id, ok) => WorkerStep(s.mem, s.jobs[id], ok)
    case DropCaller(id) => Outcome(s.mem, DropStep(s.jobs[id]))
  }

  function Next(s: State, a: Action): State {
    if Possible(s, a) then
      var o := Effect(s, a);
      s.(mem := o.mem, jobs := s.jobs[a.id := o.job])
    else s
  }

  function RunAll(s: State, actions: seq<Action>): State {
    if actions == [] then s else Next(RunAll(s, actions[..|actions| - 1]), actions[|actions| - 1])
  }

  predicate Init(s: State) {
    s.mem == Memory(0, 0, 0, 0, 0, 0, 0, 0, 0) && s.jobs == map[]
  }

  // What every reachable state satisfies.

  datatype Counter =
    | OutstandingSlots | EncodeTags | DecodeTags | RunningThreads
    | SubmittedTasks | RejectedCalls | EndedAs(fate: Fate)

  function Value(m: Memory, c: Counter): int {
    match c
    case OutstandingSlots => m.outstanding
    case EncodeTags => m.enc
    case DecodeTags => m.dec
    case RunningThreads => m.running
    case SubmittedTasks => m.submitted
    case RejectedCalls => m.rejected
    case EndedAs(Completed) => m.completed
    case EndedAs(Cancelled) => m.cancelled
    case EndedAs(Orphaned) => m.orphaned
  }

  predicate HasFate(work: Work, fate: Fate) {
    SenderGone(work) && work.fate == fate
  }

  /** The task has a slot of the queue that it keeps until it ends. */
  predicate HoldsTaskSlot(j: Job) {
    !j.work.NotSubmitted? && !j.work.Ended?
  }

  /** The job holds the guard, or has caused the event, that counter `c` counts. */
  predicate Counted(c: Counter, j: Job) {
    match c
    case OutstandingSlots => j.caller.Acquired? || j.caller.Rejecting? || HoldsTaskSlot(j)
    case EncodeTags => j.kind.Encode? && !j.caller.Submitting? && !j.caller.Finished?
    case DecodeTags => j.kind.Decode? && !j.caller.Submitting? && !j.caller.Finished?
    case RunningThreads => j.work.Executing? || j.work.Sending? || j.work.LeavingThread?
    case SubmittedTasks => !j.work.NotSubmitted?
    case RejectedCalls =>
      j.caller.Rejecting? || ((j.caller.Leaving? || j.caller.Finished?) && j.caller.result == Rejected)
    case EndedAs(fate) => HasFate(j.work, fate)
  }

  /** What one job satisfies by itself, whatever the others do. */
  predicate Sound(j: Job) {
    && (match j.caller
        case Waiting => !j.work.NotSubmitted? && (j.channel.None? ==> !SenderGone(j.work))
        case Leaving(result) => SoundResult(j, result)
        case Finished(result) => SoundResult(j, result)
        case _ => j.work.NotSubmitted?)
    && (j.channel.Some? <==> HasFate(j.work, Completed))
  }

  /** A caller that was not answered has no result; one that was has exactly the one that was sent. */
  predicate SoundResult(j: Job, result: Result) {
    match result
    case Answered(ok) => j.channel == Some(ok)
    case Rejected => j.work.NotSubmitted?
    case Dropped => j.caller.Leaving? ==> !j.work.NotSubmitted?
    case ChannelClosed => false
  }

  function Holders(jobs: map<JobId, Job>, c: Counter): set<JobId> {
    set id | id in jobs && Counted(c, jobs[id])
  }

  /** Tasks accepted into the queue that have not released their slot. */
  function Accepted(limit: nat, jobs: map<JobId, Job>): set<JobId> {
    set id | id in jobs && (HoldsTaskSlot(jobs[id]) || (jobs[id].caller.Acquired? && jobs[id].caller.prev < limit))
  }

  ghost predicate Invariant(s: State) {
    && (forall id :: id in s.jobs ==> Sound(s.jobs[id]))
    && (forall c :: Value(s.mem, c) == |Holders(s.jobs, c)|)
    && (s.limit.Some? ==> |Accepted(s.limit.value, s.jobs)| <= s.limit.value)
  }

  function Change(jobs: map<JobId, Job>, id: JobId, job: Job, c: Counter): int {
    (if Counted(c, job) then 1 else 0) - (if id in jobs && Counted(c, jobs[id]) then 1 else 0)
  }

  lemma CountAfter(jobs: map<JobId, Job>, id: JobId, job: Job, c: Counter)
    ensures |Holders(jobs[id := job], c)| == |Holders(jobs, c)| + Change(jobs, id, job, c)
  {
    hide Counted;
    var before, after := Holders(jobs, c), Holders(jobs[id := job], c);
    if Counted(c, job) {
      assert after == before + {id};
    } else {
      assert after == before - {id};
    }
  }

  /** How far counter `c` moves when a job becomes `after`. */
  function Move(before: Job, after: Job, c: Counter): int {
    (if Counted(c, after) then 1 else 0) - (if Counted(c, before) then 1 else 0)
  }

  lemma CallerCounts(limit: Option<nat>, m: Memory, j: Job, c: Counter)
    requires Sound(j)
    ensures var o := CallerStep(limit, m, j); Value(o.mem, c) - Value(m, c) == Move(j, o.job, c)
  {
  }

  lemma WorkerCounts(m: Memory, j: Job, ok: bool, c: Counter)
    requires Sound(j)
    ensures var o := WorkerStep(m, j, ok); Value(o.mem, c) - Value(m, c) == Move(j, o.job, c)
  {
  }

  lemma DropCounts(j: Job, c: Counter)
    requires Sound(j)
    ensures Move(j, DropStep(j), c) == 0
  {
  }

  lemma CountersKept(s: State, a: Action, c: Counter)
    requires Invariant(s) && Possible(s, a)
    ensures Value(Next(s, a).mem, c) == |Holders(Next(s, a).jobs, c)|
  {
    var o := Effect(s, a);
    assert a.Submit? ==> !Counted(c, o.job);
    assert a.Submit? || Sound(s.jobs[a.id]);
    assert Value(s.mem, c) == |Holders(s.jobs, c)|;
    hide Invariant, Counted, CallerStep, WorkerStep, DropStep, Sound, Value, Holders, Accepted;
    match a {
      case Submit(_, _) =>
      case RunCaller(id) => CallerCounts(s.limit, s.mem, s.jobs[id], c);
      case RunWorker(id, ok) => WorkerCounts(s.mem, s.jobs[id], ok, c);
      case DropCaller(id) => DropCounts(s.jobs[id], c);
    }
    CountAfter(s.jobs, a.id, o.job, c);
  }

  /** A slot is accepted only if, at the moment it is taken, no more slots exist than the limit allows. */
  lemma LimitKept(s: State, a: Action)
    requires Invariant(s) && Possible(s, a) && s.limit.Some?
    ensures |Accepted(s.limit.value, Next(s, a).jobs)| <= s.limit.value
  {
    var s', o, limit := Next(s, a), Effect(s, a), s.limit.value;
    var before, after := Accepted(limit, s.jobs), Accepted(limit, s'.jobs);
    if a.RunCaller? && s.jobs[a.id].caller.Tagged? && s.mem.outstanding < limit {
      CountersKept(s, a, OutstandingSlots);
      assert after <= Holders(s'.jobs, OutstandingSlots);
      SizeOfSubset(after, Holders(s'.jobs, OutstandingSlots));
    } else {
      assert a.id in after ==> a.id in before;
      assert after <= before;
      SizeOfSubset(after, before);
    }
  }

  lemma InvariantKept(s: State, a: Action)
    requires Invariant(s)
    ensures Invariant(Next(s, a))
  {
    if Possible(s, a) {
      forall c ensures Value(Next(s, a).mem, c) == |Holders(Next(s, a).jobs, c)| {
        CountersKept(s, a, c);
      }
      if s.limit.Some? {
        LimitKept(s, a);
      }
      assert Sound(Effect(s, a).job) by {
        hide Holders, Accepted;
      }
    }
  }

  lemma {:induction false} Reachable(s0: State, actions: seq<Action>)
    requires Init(s0)
    ensures Invariant(RunAll(s0, actions))
    ensures RunAll(s0, actions).limit == s0.limit
  {
    if actions == [] {
      forall c ensures Value(s0.mem, c) == |Holders(s0.jobs, c)| {
        assert Holders(s0.jobs, c) == {};
      }
      if s0.limit.Some? {
        assert Accepted(s0.limit.value, s0.jobs) == {};
      }
    } else {
      Reachable(s0, actions[..|actions| - 1]);
      InvariantKept(RunAll(s0, actions[..|actions| - 1]), actions[|actions| - 1]);
    }
  }

  // Main results, about every run from an idle system.

  /**
   The queue limit is hard: however calls race, the counter is the number of live slots, and no more
   accepted tasks than the limit are alive, although rejected callers inflate the counter for a while.
  */
  lemma QueueLimitIsHard(s0: State, actions: seq<Action>)
    requires Init(s0)
    ensures var s := RunAll(s0, actions);
            && s.mem.outstanding == |Holders(s.jobs, OutstandingSlots)|
            && (s0.limit.Some? ==> |Accepted(s0.limit.value, s.jobs)| <= s0.limit.value)
  {
    hide Next;
    Reachable(s0, actions);
    assert Value(RunAll(s0, actions).mem, OutstandingSlots) == RunAll(s0, actions).mem.outstanding;
  }

  /**
   A call is rejected exactly if, when it counts itself, as many slots are alive as the limit allows:
   slots of other callers that are being rejected among them.
  */
  lemma RejectedIff(s0: State, actions: seq<Action>, id: JobId)
    requires Init(s0) && id in RunAll(s0, actions).jobs && RunAll(s0, actions).jobs[id].caller.Tagged?
    ensures var s := RunAll(s0, actions);
            var counted := Next(s, RunCaller(id));
            && counted.jobs[id].caller == Acquired(|Holders(s.jobs, OutstandingSlots)|)
            && (Next(counted, RunCaller(id)).jobs[id].caller.Rejecting? <==>
                  s.limit.Some? && |Holders(s.jobs, OutstandingSlots)| >= s.limit.value)
  {
    Reachable(s0, actions);
    var s := RunAll(s0, actions);
    assert Value(s.mem, OutstandingSlots) == s.mem.outstanding;
  }

  /**
   A caller that still waits never finds the channel closed, and what it is answered is what the task
   produced, be it a value or a panic.
  */
  lemma WaitingIsAnswered(s0: State, actions: seq<Action>, id: JobId)
    requires Init(s0) && id in RunAll(s0, actions).jobs
    ensures var j := RunAll(s0, actions).jobs[id];
            && j.caller != Leaving(ChannelClosed) && j.caller != Finished(ChannelClosed)
            && (j.caller.Waiting? ==> if j.channel.Some? then HasFate(j.work, Completed) else !SenderGone(j.work))
            && (forall ok :: j.caller == Finished(Answered(ok)) ==> j.channel == Some(ok) && HasFate(j.work, Completed))
  {
    hide Next;
    Reachable(s0, actions);
    assert Sound(RunAll(s0, actions).jobs[id]);
  }

  predicate Flying(j: Job) {
    !j.work.NotSubmitted? && !SenderGone(j.work)
  }

  function InFlight(jobs: map<JobId, Job>): set<JobId> {
    set id | id in jobs && Flying(jobs[id])
  }

  lemma OneStage(j: Job)
    ensures Counted(SubmittedTasks, j) <==>
            Counted(EndedAs(Completed), j) || Counted(EndedAs(Cancelled), j) || Counted(EndedAs(Orphaned), j) || Flying(j)
    ensures !(Counted(EndedAs(Completed), j) && Counted(EndedAs(Cancelled), j))
    ensures !(Counted(EndedAs(Orphaned), j) && (Counted(EndedAs(Completed), j) || Counted(EndedAs(Cancelled), j)))
    ensures Flying(j) ==>
              !Counted(EndedAs(Completed), j) && !Counted(EndedAs(Cancelled), j) && !Counted(EndedAs(Orphaned), j)
  {
  }

  lemma FatesPartition(jobs: map<JobId, Job>)
    ensures |Holders(jobs, SubmittedTasks)| ==
            |Holders(jobs, EndedAs(Completed))| + |Holders(jobs, EndedAs(Cancelled))| + |Holders(jobs, EndedAs(Orphaned))|
            + |InFlight(jobs)|
  {
    hide Counted, Flying;
    var x, y, z := Holders(jobs, EndedAs(Completed)), Holders(jobs, EndedAs(Cancelled)), Holders(jobs, EndedAs(Orphaned));
    var f := InFlight(jobs);
    forall id | id in jobs
      ensures id in Holders(jobs, SubmittedTasks) <==> id in x + y + z + f
      ensures !(id in x && id in y) && !(id in z && id in x + y) && !(id in f && id in x + y + z)
    {
      OneStage(jobs[id]);
    }
    assert Holders(jobs, SubmittedTasks) == x + y + z + f;
    SizeOfParts(x, y, z, f);
  }

  /** Every submitted task is in flight or has ended in exactly one of three ways, and the metrics say so. */
  lemma SubmittedAreAccountedFor(s0: State, actions: seq<Action>)
    requires Init(s0)
    ensures var s := RunAll(s0, actions);
            s.mem.submitted == s.mem.completed + s.mem.cancelled + s.mem.orphaned + |InFlight(s.jobs)|
  {
    hide Next, RunAll, Counted, Holders, InFlight, Flying;
    Reachable(s0, actions);
    var s := RunAll(s0, actions);
    FatesPartition(s.jobs);
    assert Value(s.mem, SubmittedTasks) == s.mem.submitted;
    assert Value(s.mem, EndedAs(Completed)) == s.mem.completed;
    assert Value(s.mem, EndedAs(Cancelled)) == s.mem.cancelled;
    assert Value(s.mem, EndedAs(Orphaned)) == s.mem.orphaned;
  }

  /** No caller and no pool thread can move any more. */
  ghost predicate AtRest(s: State) {
    forall id :: id in s.jobs ==>
      CallerStep(s.limit, s.mem, s.jobs[id]).job == s.jobs[id] && WorkerStep(s.mem, s.jobs[id], true).job == s.jobs[id]
  }

  /** When nothing moves any more, every call has finished, every submitted task has ended, and no guard is left. */
  lemma RestReleasesEverything(s0: State, actions: seq<Action>)
    requires Init(s0) && AtRest(RunAll(s0, actions))
    ensures var s := RunAll(s0, actions);
            && (forall id :: id in s.jobs ==>
                  s.jobs[id].caller.Finished? && (s.jobs[id].work.NotSubmitted? || s.jobs[id].work.Ended?))
            && s.mem.outstanding == s.mem.enc == s.mem.dec == s.mem.running == 0
            && s.mem.submitted == s.mem.completed + s.mem.cancelled + s.mem.orphaned
  {
    hide Next, RunAll;
    Reachable(s0, actions);
    SubmittedAreAccountedFor(s0, actions);
    var s := RunAll(s0, actions);
    forall id | id in s.jobs
      ensures s.jobs[id].caller.Finished? && (s.jobs[id].work.NotSubmitted? || s.jobs[id].work.Ended?)
    {
      assert Sound(s.jobs[id]);
    }
    assert InFlight(s.jobs) == {};
    forall c | c in {OutstandingSlots, EncodeTags, DecodeTags, RunningThreads} ensures Value(s.mem, c) == 0 {
      assert Holders(s.jobs, c) == {};
    }
    assert Value(s.mem, OutstandingSlots) == Value(s.mem, EncodeTags) == 0;
    assert Value(s.mem, DecodeTags) == Value(s.mem, RunningThreads) == 0;
  }

  /** How many steps a job can still take at most. */
  function Remaining(j: Job): nat {
    (match j.caller
     case Submitting => 12
     case Tagged => 11
     case Acquired(_) => 10
     case Rejecting => 2
     case Waiting => 2
     case Leaving(_) => 1
     case Finished(_) => 0)
    + (match j.work
       case NotSubmitted => 0
       case Queued => 6
       case Entering => 5
       case Executing => 4
       case Sending(_) => 3
       case LeavingThread(_) => 2
       case Releasing(_) => 1
       case Ended(_) => 0)
  }

  /** Every job comes to rest: each action either leaves it as it is or uses up one of its steps. */
  lemma JobsComeToRest(s: State, a: Action)
    requires Possible(s, a) && !a.Submit?
    ensures Effect(s, a).job == s.jobs[a.id] || Remaining(Effect(s, a).job) < Remaining(s.jobs[a.id])
  {
  }
}
