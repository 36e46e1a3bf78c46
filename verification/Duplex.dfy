/** Two directions of a copy that start together and never leave each other half open. */
module Duplex {
  import opened Polling
  import opened Endpoints
  import opened Copying

  datatype TransferState = Running(copier: CopyBuffer) | ShuttingDown(count: nat) | Done(count: nat)

  function Phase(state: TransferState): nat {
    match state
    case Running(_) => 0
    case ShuttingDown(_) => 1
    case Done(_) => 2
  }

  /** Why a direction stopped copying. */
  datatype Cause = Active | Eof | Aborted | PeerDone

  /** An abort signal: if armed, it is raised after some number of polls, and for good. */
  class Abortable {
    const armed: bool
    var fuse: nat

    constructor (armed: bool, fuse: nat)
      ensures this.armed == armed && this.fuse == fuse
    {
      this.armed, this.fuse := armed, fuse;
    }

    /** The signal has been raised, as the next poll will tell. */
    predicate Raised()
      reads this
    {
      armed && fuse == 0
    }

    method Poll() returns (aborted: bool)
      modifies this
      ensures aborted <==> old(Raised())
      ensures fuse == if old(fuse) == 0 then 0 else old(fuse) - 1
    {
      aborted := armed && fuse == 0;
      if fuse > 0 {
        fuse := fuse - 1;
      }
    }
  }

  class Direction {
    var state: TransferState
    const r: Reader
    const w: Writer
    const copier: CopyBuffer
    ghost var cause: Cause

    /** Every object this direction works on. */
    ghost const repr: set<object>

    /** A direction is done exactly when its writer is shut down. */
    ghost predicate Valid()
      reads this, repr
      ensures Valid() ==> {this, r, w, copier} + w.Inner() <= repr
      ensures Valid() ==> (state.Running? <==> cause == Active) && (state.Done? <==> w.closed)
    {
      && Sound()
      && (state.Done? <==> w.closed)
    }

    ghost predicate Sound()
      reads this, repr
      ensures Sound() ==> {this, r, w, copier} + w.Inner() <= repr && (state.Running? <==> cause == Active)
    {
      && repr == {this, r, w, copier, copier.buf} + w.Inner()
      && copier.Valid(r, w)
      && (state.Running? <==> cause == Active)
      && (if state.Running? then state.copier == copier else state.count == |w.accepted|)
      && (cause == Eof ==> copier.readDone && copier.pos == copier.cap && w.flushed == |w.accepted|)
    }

    /** The answers the collaborators still have in store. */
    ghost function Work(): nat
      reads r, w, w.Inner()
    {
      |r.script| + w.Steps()
    }

    /** The failures of the collaborators so far; a write that takes nothing counts as one. */
    ghost function Faults(): nat
      reads r, w
    {
      r.errors + w.errors + w.zeros
    }

    /** Neither collaborator ever fails. */
    ghost predicate Faultless() {
      r.faultless && w.faultless
    }

    /** Neither collaborator is ever not ready. */
    ghost predicate Prompt() {
      r.prompt && w.prompt
    }

    /** The reader or the writer was not ready for copying. */
    twostate predicate Stalled()
      reads r, w
    {
      r.pendings > old(r.pendings) || w.flushPendings > old(w.flushPendings) || w.writePendings > old(w.writePendings)
    }

    /** Some collaborator answered "not ready" in the phase this direction is in now. */
    twostate predicate Blocked()
      reads this, r, w, copier
    {
      match state
      case Running(_) =>
        || (r.pendings > old(r.pendings) && w.flushed == |w.accepted| && copier.pos == copier.cap)
        || w.flushPendings > old(w.flushPendings)
        || w.writePendings > old(w.writePendings)
      case ShuttingDown(_) => w.shutdownPendings > old(w.shutdownPendings)
      case Done(_) => true
    }

    constructor (r: Reader, w: Writer, size: nat, datagram: bool)
      requires r.Valid() && r.taken == [] && r.frames == []
      requires w.Valid() && !w.failed && !w.closed
      requires w.accepted == [] && w.flushed == 0 && w.spans == [] && w.Parked() == []
      requires w.udp != null ==> w.udp.queue == [] && w.udp.state == Writing
      requires datagram ==> r.WholeChunks(size)
      ensures Valid() && state.Running? && this.r == r && this.w == w && fresh(repr - {r, w} - w.Inner())
      ensures copier.buf.Length == size && copier.datagram == datagram
    {
      this.r, this.w := r, w;
      var c := new CopyBuffer(size, datagram, r, w);
      copier, state, cause := c, Running(c), Active;
      repr := {this, r, w, c, c.buf} + w.Inner();
    }

    /** Shuts the writer down; a shutdown transfers nothing. */
    method Shutdown() returns (res: Poll<(), IoError>)
      requires Valid() && !w.failed && state.ShuttingDown?
      modifies w, w.Inner()
      ensures !res.Failed? ==> Sound() && !w.failed
      ensures w.closed <==> res.Ready?
      ensures res.Pending? ==> !w.prompt
      ensures Faults() == old(Faults()) + if res.Failed? then 1 else 0
      ensures Faultless() ==> !res.Failed?
      ensures w.accepted == old(w.accepted)
      ensures Work() <= old(Work()) && (res.Pending? ==> Work() < old(Work()))
      ensures w.shutdownPendings == old(w.shutdownPendings) + if res.Pending? then 1 else 0
    {
      hide Concat, AllInOneFrame, Earlier, Reader.Valid, Reader.WholeChunks;
      res := w.PollShutdown();
    }

    /** Runs this direction as far as its collaborators allow. */
    method Transfer() returns (res: Poll<nat, IoError>)
      requires Valid() && !w.failed
      modifies repr
      ensures !res.Failed? ==> Valid() && !w.failed
      ensures res.Ready? <==> state.Done? && !res.Failed?
      ensures res.Ready? ==> state == Done(res.value) && res.value == |w.accepted| && w.closed
      ensures Faults() == old(Faults()) + if res.Failed? then 1 else 0
      ensures Faultless() ==> !res.Failed?
      ensures res.Pending? ==> Blocked() && Work() < old(Work())
      ensures Work() <= old(Work()) && w.shutdownPendings >= old(w.shutdownPendings)
      ensures Phase(old(state)) <= Phase(state)
      ensures old(state.Running?) && !state.Running? ==> cause == Eof
      ensures !old(state.Running?) ==> w.accepted == old(w.accepted) && r.taken == old(r.taken) && cause == old(cause)
      ensures Prompt() ==> !res.Pending?
    {
      hide CopyBuffer.Valid;
      while true
        invariant Valid() && !w.failed
        invariant Phase(old(state)) <= Phase(state) && Work() <= old(Work())
        invariant Faults() == old(Faults())
        invariant w.shutdownPendings >= old(w.shutdownPendings)
        invariant state.Running? ==>
                    && r.pendings == old(r.pendings)
                    && w.flushPendings == old(w.flushPendings) && w.writePendings == old(w.writePendings)
        invariant old(state.Running?) && !state.Running? ==> cause == Eof
        invariant !old(state.Running?) ==> w.accepted == old(w.accepted) && r.taken == old(r.taken) && cause == old(cause)
        decreases 2 - Phase(state)
      {
        match state
        case Running(buf) =>
          var copied := buf.PollCopy(r, w);
          if copied.Pending? { return Pending; }
          if copied.Failed? { return Failed(copied.error); }
          state, cause := ShuttingDown(copied.value), Eof;
        case ShuttingDown(count) =>
          var shut := Shutdown();
          if shut.Pending? { return Pending; }
          if shut.Failed? { return Failed(shut.error); }
          state := Done(count);
        case Done(count) =>
          return Ready(count);
      }
    }

    /** Stops copying where it is; what is written so far is all this direction will have transferred. */
    method Leave(ghost why: Cause)
      requires Valid() && state.Running? && why in {Aborted, PeerDone}
      modifies this
      ensures Valid() && state == ShuttingDown(|w.accepted|) && cause == why
    {
      state, cause := ShuttingDown(copier.amt), why;
    }

    /** Once the peer is done, a direction that still copies stops where it is and shuts down. */
    method FollowPeer(peerDone: bool, before: Poll<nat, IoError>) returns (after: Poll<nat, IoError>)
      requires Valid() && !w.failed && !before.Failed? && (before.Ready? <==> state.Done?)
      requires before.Ready? ==> before.value == |w.accepted|
      modifies repr
      ensures !after.Failed? ==> Valid() && !w.failed && (after.Ready? <==> state.Done?)
      ensures after.Ready? ==> after.value == |w.accepted|
      ensures Work() <= old(Work())
      ensures Faults() == old(Faults()) + if after.Failed? then 1 else 0
      ensures Faultless() ==> !after.Failed?
      ensures if peerDone && old(state.Running?)
              then Phase(state) > 0 && cause == PeerDone && (after.Pending? ==> Blocked())
              else after == before && unchanged(repr)
      ensures w.shutdownPendings >= old(w.shutdownPendings)
    {
      hide CopyBuffer.Valid;
      after := before;
      if peerDone && state.Running? {
        Leave(PeerDone);
        after := Transfer();
      }
    }

    /** Everything the reader had was written and flushed; a buffer without room copies nothing at all. */
    ghost predicate Whole()
      reads r, w
    {
      && w.flushed == |w.accepted|
      && (w.accepted == r.input <==> copier.buf.Length > 0 || r.input == [])
    }

    /**
     Whenever and why ever a direction stops, it has written a prefix of its input; if it stopped
     because the input ended, it has written all of it.
    */
    lemma StoppedSoundly()
      requires Valid()
      ensures w.accepted <= r.input
      ensures state.Running? || state.count == |w.accepted|
      ensures cause == Eof ==> Whole()
    {
      copier.Prefix(r, w);
      if cause == Eof {
        copier.Finished(r, w);
      }
    }
  }

  /** `copy_duplex_abortable_with_datagram`: the two directions and the two abort signals. */
  class Transfer {
    const ab: Direction
    const ba: Direction
    const abortA: Abortable
    const abortB: Abortable
    /** Whether the poll in progress asked to be polled again. */
    var woken: bool

    ghost function Repr(): set<object> {
      {this, abortA, abortB, ab, ba} + ab.repr + ba.repr
    }

    ghost predicate Valid()
      reads Repr()
    {
      && {this, abortA, abortB} !! ab.repr !! ba.repr && abortA != abortB
      && ab.Valid() && ba.Valid()
      && (ab.cause == PeerDone ==> ba.state.Done? && ba.cause != PeerDone)
      && (ba.cause == PeerDone ==> ab.state.Done? && ab.cause != PeerDone)
      && (ab.cause == Aborted ==> abortA.armed)
      && (ba.cause == Aborted ==> abortB.armed)
    }

    /** No writer has failed, so the transfer may be polled again. */
    ghost predicate Healthy()
      reads ab.w, ba.w
    {
      !ab.w.failed && !ba.w.failed
    }

    /** One direction is finished while the other still copies. */
    ghost predicate HalfOpen()
      reads ab, ba
    {
      (ab.state.Done? && ba.state.Running?) || (ba.state.Done? && ab.state.Running?)
    }

    ghost function Faults(): nat
      reads ab.r, ab.w, ba.r, ba.w
    {
      ab.Faults() + ba.Faults()
    }

    ghost predicate Faultless() {
      ab.Faultless() && ba.Faultless()
    }

    ghost function Phases(): nat
      reads ab, ba
    {
      Phase(ab.state) + Phase(ba.state)
    }

    ghost function Work(): nat
      reads ab.r, ab.w, ab.w.Inner(), ba.r, ba.w, ba.w.Inner()
    {
      ab.Work() + ba.Work()
    }

    constructor (ab: Direction, ba: Direction, abortA: Abortable, abortB: Abortable)
      requires ab.Valid() && ba.Valid() && ab.repr !! ba.repr && abortA != abortB
      requires ab.state.Running? && ba.state.Running? && !ab.w.failed && !ba.w.failed
      ensures Valid() && Healthy() && !HalfOpen()
      ensures this.ab == ab && this.ba == ba && this.abortA == abortA && this.abortB == abortB
    {
      this.ab, this.ba, this.abortA, this.abortB, woken := ab, ba, abortA, abortB, false;
    }

    /** A raised abort signal stops its direction and asks for another poll; nothing else does either. */
    method CheckAborts()
      requires Valid() && Healthy()
      modifies `woken, abortA, abortB, ab, ba
      ensures Valid()
      ensures woken <==> old(woken)
                         || (old(ab.state.Running?) && old(abortA.Raised()))
                         || (old(ba.state.Running?) && old(abortB.Raised()))
      ensures if old(ab.state.Running?) && old(abortA.Raised())
              then ab.state == ShuttingDown(|ab.w.accepted|) && ab.cause == Aborted
              else ab.state == old(ab.state) && ab.cause == old(ab.cause)
      ensures if old(ba.state.Running?) && old(abortB.Raised())
              then ba.state == ShuttingDown(|ba.w.accepted|) && ba.cause == Aborted
              else ba.state == old(ba.state) && ba.cause == old(ba.cause)
    {
      hide Direction.Valid;
      var aborted := abortA.Poll();
      if aborted && ab.state.Running? {
        ab.Leave(Aborted);
        woken := true;
      }
      aborted := abortB.Poll();
      if aborted && ba.state.Running? {
        ba.Leave(Aborted);
        woken := true;
      }
    }

    method TransferBoth() returns (x: Polling.Poll<nat, IoError>, y: Polling.Poll<nat, IoError>)
      requires Valid() && Healthy()
      modifies ab.repr, ba.repr
      ensures !x.Failed? && !y.Failed? ==> Valid() && Healthy()
      ensures !x.Failed? && !y.Failed? ==> (x.Ready? <==> ab.state.Done?) && (y.Ready? <==> ba.state.Done?)
      ensures x.Ready? ==> x.value == |ab.w.accepted|
      ensures y.Ready? && !x.Failed? ==> y.value == |ba.w.accepted|
      ensures Phase(old(ab.state)) <= Phase(ab.state) && Phase(old(ba.state)) <= Phase(ba.state)
      ensures if old(ab.state.Running?) then !ab.state.Running? ==> ab.cause == Eof
              else ab.w.accepted == old(ab.w.accepted) && ab.cause == old(ab.cause)
      ensures if old(ba.state.Running?) then !ba.state.Running? ==> ba.cause == Eof
              else ba.w.accepted == old(ba.w.accepted) && ba.cause == old(ba.cause)
      ensures x.Pending? && !y.Failed? ==> ab.Blocked()
      ensures y.Pending? && !x.Failed? ==> ba.Blocked()
      ensures ab.w.shutdownPendings >= old(ab.w.shutdownPendings)
      ensures ba.w.shutdownPendings >= old(ba.w.shutdownPendings)
      ensures Work() <= old(Work()) && ((x.Pending? || y.Pending?) && !x.Failed? ==> Work() < old(Work()))
      ensures Faults() == old(Faults()) + if !x.Failed? && !y.Failed? then 0 else 1
      ensures Faultless() ==> !x.Failed? && !y.Failed?
      ensures ab.Prompt() ==> !x.Pending?
      ensures ba.Prompt() && !x.Failed? ==> !y.Pending?
    {
      hide Direction.Valid, Direction.Work, Direction.Faults;
      ghost var baWork := ba.Work();
      y := Pending;
      x := ab.Transfer();
      assert ba.Work() == baWork;
      if x.Failed? { return; }
      ghost var abLeft := ab.Work();
      y := ba.Transfer();
      assert ab.Work() == abLeft;
    }

    /** The first half of a poll: runs both directions, then looks at the abort signals. */
    method RunBoth() returns (x: Polling.Poll<nat, IoError>, y: Polling.Poll<nat, IoError>)
      requires Valid() && Healthy()
      modifies Repr()
      ensures !x.Failed? && !y.Failed? ==> Valid() && Healthy()
      ensures !x.Failed? && !y.Failed? ==> (x.Ready? <==> ab.state.Done?) && (y.Ready? <==> ba.state.Done?)
      // A direction whose signal was raised no longer copies, and none counts as aborted without a signal.
      ensures !x.Failed? && !y.Failed? && old(abortA.Raised()) ==> !ab.state.Running?
      ensures !x.Failed? && !y.Failed? && old(abortB.Raised()) ==> !ba.state.Running?
      ensures !x.Failed? && !y.Failed? && ab.cause == Aborted ==> old(ab.cause) == Aborted || old(abortA.Raised())
      ensures !x.Failed? && !y.Failed? && ba.cause == Aborted ==> old(ba.cause) == Aborted || old(abortB.Raised())
      // It fails exactly when a collaborator does.
      ensures Faults() == old(Faults()) + if !x.Failed? && !y.Failed? then 0 else 1
      ensures Faultless() ==> !x.Failed? && !y.Failed?
      ensures x.Ready? ==> x.value == |ab.w.accepted|
      ensures y.Ready? && !x.Failed? ==> y.value == |ba.w.accepted|
      ensures Phase(old(ab.state)) <= Phase(ab.state) && Phase(old(ba.state)) <= Phase(ba.state)
      ensures !old(ab.state.Running?) ==> ab.w.accepted == old(ab.w.accepted)
      ensures !old(ba.state.Running?) ==> ba.w.accepted == old(ba.w.accepted)
      ensures x.Pending? && !y.Failed? ==> woken || ab.Blocked()
      ensures y.Pending? && !x.Failed? ==> woken || ba.Blocked()
      ensures ab.w.shutdownPendings >= old(ab.w.shutdownPendings)
      ensures ba.w.shutdownPendings >= old(ba.w.shutdownPendings)
      ensures Work() <= old(Work()) && ((x.Pending? || y.Pending?) && !x.Failed? ==> Work() < old(Work()))
      // An abort stops only a direction whose copy was not ready in this very poll.
      ensures !x.Failed? && !y.Failed? && ab.cause == Aborted && old(ab.cause) == Active ==> ab.Stalled()
      ensures !x.Failed? && !y.Failed? && ba.cause == Aborted && old(ba.cause) == Active ==> ba.Stalled()
      ensures !x.Failed? && !y.Failed? && ab.Prompt() && old(ab.state.Running?) ==> ab.cause == Eof
      ensures !x.Failed? && !y.Failed? && ba.Prompt() && old(ba.state.Running?) ==> ba.cause == Eof
      ensures !x.Failed? && !y.Failed? && !old(ab.state.Running?) ==> ab.cause == old(ab.cause)
      ensures !x.Failed? && !y.Failed? && !old(ba.state.Running?) ==> ba.cause == old(ba.cause)
    {
      hide Direction.Valid, Direction.Work, Direction.Faults;
      ghost var abWork, baWork := ab.Work(), ba.Work();
      woken := false;
      assert ab.Work() == abWork && ba.Work() == baWork;
      x, y := TransferBoth();
      if x.Failed? || y.Failed? { return; }
      ghost var abLeft, baLeft := ab.Work(), ba.Work();
      CheckAborts();
      assert ab.Work() == abLeft && ba.Work() == baLeft;
    }

    /** The second half of a poll: once one direction is done, the other follows it. */
    method FollowBoth(x: Polling.Poll<nat, IoError>, y: Polling.Poll<nat, IoError>)
      returns (x': Polling.Poll<nat, IoError>, y': Polling.Poll<nat, IoError>)
      requires Valid() && Healthy() && !x.Failed? && !y.Failed?
      requires (x.Ready? <==> ab.state.Done?) && (y.Ready? <==> ba.state.Done?)
      requires (x.Ready? ==> x.value == |ab.w.accepted|) && (y.Ready? ==> y.value == |ba.w.accepted|)
      modifies ab.repr, ba.repr
      ensures !x'.Failed? && !y'.Failed? ==>
                && Valid() && Healthy() && !HalfOpen()
                && (x'.Ready? <==> ab.state.Done?) && (y'.Ready? <==> ba.state.Done?)
      ensures x'.Ready? && !y'.Failed? ==> x'.value == |ab.w.accepted| && ab.w.closed
      ensures y'.Ready? && !x'.Failed? ==> y'.value == |ba.w.accepted| && ba.w.closed
      ensures unchanged(ab.repr) ||
                (old(ab.state.Running?) && ab.cause == PeerDone && Phase(ab.state) > 0 && (x'.Pending? ==> ab.Blocked()))
      ensures unchanged(ba.repr) ||
                (old(ba.state.Running?) && ba.cause == PeerDone && Phase(ba.state) > 0 && (y'.Pending? ==> ba.Blocked()))
      ensures ab.w.shutdownPendings >= old(ab.w.shutdownPendings)
      ensures ba.w.shutdownPendings >= old(ba.w.shutdownPendings)
      ensures unchanged(ab.repr) && !x'.Failed? ==> x' == x
      ensures unchanged(ba.repr) && !y'.Failed? && !x'.Failed? ==> y' == y
      ensures Work() <= old(Work())
      ensures Faults() == old(Faults()) + if !x'.Failed? && !y'.Failed? then 0 else 1
      ensures Faultless() ==> !x'.Failed? && !y'.Failed?
    {
      hide Direction.Valid, Direction.Work, Direction.Faults;
      y' := y;
      x' := ab.FollowPeer(ba.state.Done?, x);
      if !x'.Failed? {
        y' := ba.FollowPeer(ab.state.Done?, y);
      }
    }

    method Poll() returns (res: Polling.Poll<(nat, nat), IoError>)
      requires Valid() && Healthy()
      modifies Repr()
      ensures !res.Failed? ==> Valid() && Healthy() && !HalfOpen()
      ensures res.Ready? <==> ab.state.Done? && ba.state.Done? && !res.Failed?
      // A direction whose signal was raised no longer copies, and none counts as aborted without a signal.
      ensures !res.Failed? && old(abortA.Raised()) ==> !ab.state.Running?
      ensures !res.Failed? && old(abortB.Raised()) ==> !ba.state.Running?
      ensures !res.Failed? && ab.cause == Aborted ==> old(ab.cause) == Aborted || old(abortA.Raised())
      ensures !res.Failed? && ba.cause == Aborted ==> old(ba.cause) == Aborted || old(abortB.Raised())
      // It fails exactly when a collaborator does.
      ensures Faults() == old(Faults()) + if !res.Failed? then 0 else 1
      ensures Faultless() ==> !res.Failed?
      ensures res.Ready? ==> res.value == (|ab.w.accepted|, |ba.w.accepted|) && ab.w.closed && ba.w.closed
      ensures Phase(old(ab.state)) <= Phase(ab.state) && Phase(old(ba.state)) <= Phase(ba.state)
      ensures !old(ab.state.Running?) ==> ab.w.accepted == old(ab.w.accepted)
      ensures !old(ba.state.Running?) ==> ba.w.accepted == old(ba.w.accepted)
      ensures res.Pending? ==> woken || (ab.Blocked() && ba.Blocked())
      ensures res.Pending? ==> old(Phases()) < Phases() || (old(Phases()) == Phases() && Work() < old(Work()))
      // An abort stops only a direction whose copy was not ready in this very poll.
      ensures !res.Failed? && ab.cause == Aborted && old(ab.cause) == Active ==> ab.Stalled()
      ensures !res.Failed? && ba.cause == Aborted && old(ba.cause) == Active ==> ba.Stalled()
      ensures !res.Failed? && ab.Prompt() && old(ab.state.Running?) ==> ab.cause == Eof
      ensures !res.Failed? && ba.Prompt() && old(ba.state.Running?) ==> ba.cause == Eof
      ensures !res.Failed? && !old(ab.state.Running?) ==> ab.cause == old(ab.cause)
      ensures !res.Failed? && !old(ba.state.Running?) ==> ba.cause == old(ba.cause)
    {
      hide Direction.Valid, Direction.Work, Direction.Faults, Abortable.Raised;
      var x, y := RunBoth();
      if x.Failed? { return Failed(x.error); }
      if y.Failed? { return Failed(y.error); }
      x, y := FollowBoth(x, y);
      if x.Failed? { return Failed(x.error); }
      if y.Failed? { return Failed(y.error); }
      if x.Pending? || y.Pending? { return Pending; }
      res := Ready((x.value, y.value));
    }

    /** Polls until the transfer is finished; it is, because every poll uses up some delay or ends a phase. */
    method Complete() returns (res: Polling.Poll<(nat, nat), IoError>)
      requires Valid() && Healthy()
      modifies Repr()
      ensures !res.Pending?
      ensures Faults() == old(Faults()) + if res.Failed? then 1 else 0
      ensures Faultless() ==> res.Ready?
      ensures res.Ready? ==>
                && Valid() && ab.state.Done? && ba.state.Done? && ab.w.closed && ba.w.closed
                && res.value == (|ab.w.accepted|, |ba.w.accepted|)
                && ab.w.accepted <= ab.r.input && ba.w.accepted <= ba.r.input
                && (ab.cause == Eof ==> ab.Whole()) && (ba.cause == Eof ==> ba.Whole())
                && !(ab.cause == PeerDone && ba.cause == PeerDone)
      ensures res.Ready? && !abortA.armed && !abortB.armed ==> ab.Whole() || ba.Whole()
      // A direction that never has to wait is copied whole, whatever signals are raised and whatever its peer does.
      ensures res.Ready? && old(ab.state.Running?) && ab.Prompt() ==> ab.Whole()
      ensures res.Ready? && old(ba.state.Running?) && ba.Prompt() ==> ba.Whole()
    {
      hide Direction.Valid, Direction.Work, Direction.Whole, Direction.Blocked;
      while true
        invariant Valid() && Healthy() && Faults() == old(Faults())
        invariant old(ab.state.Running?) && ab.Prompt() ==> ab.state.Running? || ab.cause == Eof
        invariant old(ba.state.Running?) && ba.Prompt() ==> ba.state.Running? || ba.cause == Eof
        decreases 4 - Phases(), Work()
      {
        res := Poll();
        if res.Failed? { return; }
        if res.Ready? {
          ab.StoppedSoundly();
          ba.StoppedSoundly();
          return;
        }
      }
    }
  }
}
