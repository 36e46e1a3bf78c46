/** What the fates and answers of tasks mean, told by the actions of the run and not by the state they left behind. */
module TaskHistory {
  import opened Polling
  import opened Tasks

  /** In this action the body of task `id` is executed. */
  predicate Executes(s: State, a: Action, id: JobId) {
    a.RunWorker? && a.id == id && id in s.jobs && s.jobs[id].work.Executing?
  }

  /** How the executions of the body of task `id` ended in this run: `true` for a value, `false` for a panic. */
  function Outcomes(s0: State, actions: seq<Action>, id: JobId): seq<bool> {
    if actions == [] then []
    else
      var before, a := actions[..|actions| - 1], actions[|actions| - 1];
      Outcomes(s0, before, id) + if Executes(RunAll(s0, before), a, id) then [a.ok] else []
  }

  /** The caller has gone without an answer. */
  predicate Abandoned(j: Job) {
    (j.caller.Leaving? || j.caller.Finished?) && j.caller.result == Dropped
  }

  /** The state of a job agrees with what its body did. */
  predicate Explained(j: Job, outcomes: seq<bool>) {
    match j.work
    case Sending(ok) => outcomes == [ok]
    case LeavingThread(fate) => FateExplained(j, fate, outcomes)
    case Releasing(fate) => FateExplained(j, fate, outcomes)
    case Ended(fate) => FateExplained(j, fate, outcomes)
    case _ => outcomes == []
  }

  /** Completed: executed once and sent; cancelled: never executed; orphaned: executed once, for nobody. */
  predicate FateExplained(j: Job, fate: Fate, outcomes: seq<bool>) {
    match fate
    case Completed => |outcomes| == 1 && j.channel == Some(outcomes[0])
    case Cancelled => outcomes == [] && Abandoned(j)
    case Orphaned => |outcomes| == 1 && Abandoned(j)
  }

  /** One action keeps the state of a job in agreement with what its body did. */
  lemma ExplainedStep(s: State, a: Action, id: JobId, outcomes: seq<bool>)
    requires Invariant(s) && id in Next(s, a).jobs
    requires if id in s.jobs then Explained(s.jobs[id], outcomes) else outcomes == []
    ensures Explained(Next(s, a).jobs[id], outcomes + if Executes(s, a, id) then [a.ok] else [])
  {
    hide Holders, Accepted, Value;
    if id in s.jobs {
      assert Sound(s.jobs[id]);
    }
  }

  lemma {:induction false} History(s0: State, actions: seq<Action>, id: JobId)
    requires Init(s0)
    ensures var s := RunAll(s0, actions);
            if id in s.jobs then Explained(s.jobs[id], Outcomes(s0, actions, id)) else Outcomes(s0, actions, id) == []
  {
    if actions != [] {
      var before, a := actions[..|actions| - 1], actions[|actions| - 1];
      History(s0, before, id);
      Reachable(s0, before);
      if id in RunAll(s0, actions).jobs {
        ExplainedStep(RunAll(s0, before), a, id, Outcomes(s0, before, id));
      }
    }
  }

  // Main results, about every run from an idle system.

  /** Whoever is answered is answered what the body produced, value or panic, and the body ran exactly once. */
  lemma AnswersAreOutcomes(s0: State, actions: seq<Action>, id: JobId, ok: bool)
    requires Init(s0) && id in RunAll(s0, actions).jobs
    requires RunAll(s0, actions).jobs[id].caller in {Leaving(Answered(ok)), Finished(Answered(ok))}
    ensures Outcomes(s0, actions, id) == [ok]
  {
    hide Next, RunAll, Outcomes;
    History(s0, actions, id);
    Reachable(s0, actions);
    assert Sound(RunAll(s0, actions).jobs[id]);
  }

  /**
   A completed task was executed once and its outcome sent; a cancelled one was never executed; an
   orphaned one was executed once; and the caller of the latter two is gone without an answer.
  */
  lemma FatesTellTheTruth(s0: State, actions: seq<Action>, id: JobId)
    requires Init(s0) && id in RunAll(s0, actions).jobs
    ensures var j, outcomes := RunAll(s0, actions).jobs[id], Outcomes(s0, actions, id);
            && |outcomes| <= 1
            && (HasFate(j.work, Completed) ==> |outcomes| == 1 && j.channel == Some(outcomes[0]))
            && (HasFate(j.work, Cancelled) ==> outcomes == [] && Abandoned(j))
            && (HasFate(j.work, Orphaned) ==> |outcomes| == 1 && Abandoned(j))
  {
    hide Next, RunAll, Outcomes;
    History(s0, actions, id);
  }

  /** What decided the fate of a task: where a pool thread found it, and whether its caller still waited then. */
  predicate Decides(s: State, a: Action, id: JobId, fate: Fate) {
    && a.RunWorker? && a.id == id && id in s.jobs
    && match fate
       case Cancelled => s.jobs[id].work.Queued? && !s.jobs[id].caller.Waiting?
       case Orphaned => s.jobs[id].work.Sending? && !s.jobs[id].caller.Waiting?
       case Completed => s.jobs[id].work.Sending? && s.jobs[id].caller.Waiting?
  }

  /**
   A task is cancelled only because its caller had gone when a thread picked it up, orphaned only
   because its caller had gone when its outcome was sent, and completed only because its caller waited.
  */
  lemma {:induction false} FateIsDecided(s0: State, actions: seq<Action>, id: JobId, fate: Fate)
    requires Init(s0) && id in RunAll(s0, actions).jobs && HasFate(RunAll(s0, actions).jobs[id].work, fate)
    ensures exists i :: 0 <= i < |actions| && Decides(RunAll(s0, actions[..i]), actions[i], id, fate)
  {
    var last := |actions| - 1;
    var before := actions[..last];
    var s := RunAll(s0, before);
    if id in s.jobs && HasFate(s.jobs[id].work, fate) {
      FateIsDecided(s0, before, id, fate);
      var i :| 0 <= i < |before| && Decides(RunAll(s0, before[..i]), before[i], id, fate);
      assert actions[..i] == before[..i];
      assert Decides(RunAll(s0, actions[..i]), actions[i], id, fate);
    } else {
      assert Decides(RunAll(s0, actions[..last]), actions[last], id, fate);
    }
  }

  lemma RunOneMore(s0: State, before: seq<Action>, more: seq<Action>)
    requires more != []
    ensures before + more != []
    ensures (before + more)[..|before + more| - 1] == before + more[..|more| - 1]
    ensures RunAll(s0, before + more) == Next(RunAll(s0, before + more[..|more| - 1]), more[|more| - 1])
  {
    assert (before + more)[..|before + more| - 1] == before + more[..|more| - 1];
  }

  /** A task whose caller went while it was still queued never runs: it stays queued, or is cancelled. */
  lemma {:induction false} AbandonedInQueueNeverRuns(s0: State, before: seq<Action>, more: seq<Action>, id: JobId)
    requires Init(s0) && id in RunAll(s0, before).jobs
    requires RunAll(s0, before).jobs[id].work.Queued? && !RunAll(s0, before).jobs[id].caller.Waiting?
    ensures var s := RunAll(s0, before + more);
            && id in s.jobs && (s.jobs[id].work.Queued? || HasFate(s.jobs[id].work, Cancelled))
            && !s.jobs[id].caller.Waiting?
            && Outcomes(s0, before + more, id) == []
    decreases more
  {
    if more == [] {
      assert before + more == before;
    } else {
      AbandonedInQueueNeverRuns(s0, before, more[..|more| - 1], id);
      RunOneMore(s0, before, more);
      Reachable(s0, before + more[..|more| - 1]);
      assert Sound(RunAll(s0, before + more[..|more| - 1]).jobs[id]);
    }
    History(s0, before + more, id);
  }

  /** A task whose caller went after it was picked up can only be orphaned. */
  lemma {:induction false} AbandonedLaterIsOrphaned(s0: State, before: seq<Action>, more: seq<Action>, id: JobId)
    requires Init(s0) && id in RunAll(s0, before).jobs && !RunAll(s0, before).jobs[id].caller.Waiting?
    requires var work := RunAll(s0, before).jobs[id].work; work.Entering? || work.Executing? || work.Sending?
    ensures var s := RunAll(s0, before + more);
            && id in s.jobs && !s.jobs[id].caller.Waiting?
            && var work := s.jobs[id].work;
               work.Entering? || work.Executing? || work.Sending? || HasFate(work, Orphaned)
    decreases more
  {
    if more == [] {
      assert before + more == before;
    } else {
      AbandonedLaterIsOrphaned(s0, before, more[..|more| - 1], id);
      RunOneMore(s0, before, more);
      Reachable(s0, before + more[..|more| - 1]);
      assert Sound(RunAll(s0, before + more[..|more| - 1]).jobs[id]);
    }
  }

  /** Dropping a call that waits makes its caller go, once and for all, and leaves its task to the pool. */
  lemma DroppedCallsGo(s: State, id: JobId)
    requires id in s.jobs && s.jobs[id].caller.Waiting?
    ensures var s', after := Next(s, DropCaller(id)), Next(Next(s, DropCaller(id)), RunCaller(id));
            && s'.mem == s.mem && s'.jobs.Keys == s.jobs.Keys
            && Abandoned(s'.jobs[id]) && s'.jobs[id].work == s.jobs[id].work && s'.jobs[id].channel == s.jobs[id].channel
            && after.jobs[id].caller == Finished(Dropped)
  {
  }

  /** A caller that is never dropped never goes without an answer. */
  lemma {:induction false} StaysUnlessDropped(s0: State, actions: seq<Action>, id: JobId)
    requires Init(s0) && DropCaller(id) !in actions
    ensures id in RunAll(s0, actions).jobs ==> !Abandoned(RunAll(s0, actions).jobs[id])
  {
    if actions != [] {
      var before := actions[..|actions| - 1];
      StaysUnlessDropped(s0, before, id);
      assert actions[|actions| - 1] in actions;
    }
  }

  /**
   In a run that has come to rest, a caller that was never dropped has a result: it was rejected and
   its task never ran, or it was answered with the outcome of the one execution of its task.
  */
  lemma StayingIsAnswered(s0: State, actions: seq<Action>, id: JobId)
    requires Init(s0) && AtRest(RunAll(s0, actions))
    requires id in RunAll(s0, actions).jobs && DropCaller(id) !in actions
    ensures var caller, outcomes := RunAll(s0, actions).jobs[id].caller, Outcomes(s0, actions, id);
            || (caller == Finished(Rejected) && outcomes == [])
            || (|outcomes| == 1 && caller == Finished(Answered(outcomes[0])))
  {
    hide Next, RunAll, Outcomes;
    RestReleasesEverything(s0, actions);
    StaysUnlessDropped(s0, actions, id);
    History(s0, actions, id);
    Reachable(s0, actions);
    assert Sound(RunAll(s0, actions).jobs[id]);
  }

  /** A result is received once: nothing changes it afterwards. */
  lemma {:induction false} ResultIsFinal(s: State, more: seq<Action>, id: JobId)
    requires id in s.jobs && s.jobs[id].caller.Finished?
    ensures id in RunAll(s, more).jobs && RunAll(s, more).jobs[id].caller == s.jobs[id].caller
  {
    if more != [] {
      ResultIsFinal(s, more[..|more| - 1], id);
    }
  }

  // Rejection with room in the queue.

  /** The state after four more actions. */
  function Four(s: State, a: Action, b: Action, c: Action, d: Action): State {
    Next(Next(Next(Next(s, a), b), c), d)
  }

  lemma FourMore(s0: State, before: seq<Action>, a: Action, b: Action, c: Action, d: Action)
    ensures RunAll(s0, before + [a, b, c, d]) == Four(RunAll(s0, before), a, b, c, d)
  {
    hide Next;
    RunOneMore(s0, before, [a]);
    RunOneMore(s0, before, [a, b]);
    RunOneMore(s0, before, [a, b, c]);
    RunOneMore(s0, before, [a, b, c, d]);
    assert [a][..0] == [] && [a, b][..1] == [a] && [a, b, c][..2] == [a, b] && [a, b, c, d][..3] == [a, b, c];
    assert before + [] == before;
  }

  predicate Looks(s: State, outstanding: int, jobs: map<JobId, Job>) {
    s.limit == Some(1) && s.mem.outstanding == outstanding && s.jobs == jobs
  }

  const ASKING := Job(Plain, Tagged, NotSubmitted, None)
  const LATE := Job(Plain, Acquired(1), NotSubmitted, None)
  const TAKEN := Job(Plain, Waiting, Queued, None)
  const LEFT := Job(Plain, Leaving(Dropped), Queued, None)
  const ENDED := Job(Plain, Leaving(Dropped), Ended(Cancelled), None)

  lemma FirstIsAccepted(s: State)
    requires Looks(s, 0, map[])
    ensures Looks(Four(s, Submit(0, Plain), RunCaller(0), RunCaller(0), RunCaller(0)), 1, map[0 := TAKEN])
  {
  }

  lemma SecondFindsNoRoom(s: State)
    requires Looks(s, 1, map[0 := TAKEN])
    ensures Looks(Four(s, Submit(1, Plain), RunCaller(1), RunCaller(1), DropCaller(0)), 2, map[0 := LEFT, 1 := LATE])
  {
  }

  lemma FirstEnds(s: State)
    requires Looks(s, 2, map[0 := LEFT, 1 := LATE])
    ensures Looks(Four(s, RunWorker(0, true), RunWorker(0, true), Submit(2, Plain), RunCaller(2)), 1,
                  map[0 := ENDED, 1 := LATE, 2 := ASKING])
  {
  }

  lemma ThirdIsRejected(s: State)
    requires Looks(s, 1, map[0 := ENDED, 1 := LATE, 2 := ASKING])
    ensures var s' := Four(s, RunCaller(2), RunCaller(2), DropCaller(0), DropCaller(0));
            2 in s'.jobs && s'.jobs[2].caller.Rejecting? && Accepted(1, s'.jobs) == {}
  {
  }

  /**
   A rejection does not mean that as many accepted tasks as the limit are alive. With a limit of one,
   call 1 is about to be rejected for task 0; task 0 ends, and call 2 is rejected although no task is left.
  */
  lemma RejectedWithRoom(s0: State)
    requires Init(s0) && s0.limit == Some(1)
    ensures exists actions: seq<Action> ::
              var s := RunAll(s0, actions);
              2 in s.jobs && s.jobs[2].caller.Rejecting? && Accepted(1, s.jobs) == {}
  {
    hide Four, Accepted;
    var none: seq<Action> := [];
    FourMore(s0, none, Submit(0, Plain), RunCaller(0), RunCaller(0), RunCaller(0));
    FirstIsAccepted(s0);
    var one := none + [Submit(0, Plain), RunCaller(0), RunCaller(0), RunCaller(0)];
    FourMore(s0, one, Submit(1, Plain), RunCaller(1), RunCaller(1), DropCaller(0));
    SecondFindsNoRoom(RunAll(s0, one));
    var two := one + [Submit(1, Plain), RunCaller(1), RunCaller(1), DropCaller(0)];
    FourMore(s0, two, RunWorker(0, true), RunWorker(0, true), Submit(2, Plain), RunCaller(2));
    FirstEnds(RunAll(s0, two));
    var three := two + [RunWorker(0, true), RunWorker(0, true), Submit(2, Plain), RunCaller(2)];
    FourMore(s0, three, RunCaller(2), RunCaller(2), DropCaller(0), DropCaller(0));
    ThirdIsRejected(RunAll(s0, three));
  }
}
