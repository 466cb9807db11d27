/** run_with_timeout_impl and terminate_process_group: who may be signalled, when, and what is waited on.

    The child leads its own process group. It runs, becomes a zombie when it exits (remembering whether a
    native INT or TERM ended it), and is reaped by a wait that succeeds, which reports just that. Time, the
    child's exit and every failure are free choices; `log` records what the code did, with the leader's state
    at each signal. */
module TimedRun {
  datatype Phase = Running | Zombie(interrupted: bool) | Reaped(interrupted: bool)
  datatype Signal = Term | Kill

  datatype Event =
    | GroupSignal(signal: Signal, leader: Phase)
    | Probe(alive: bool, at: nat)
    | ChildKill
    | ChildWait

  datatype Outcome = Output(interrupted: bool) | Failed

  // Where a run ended: readers that could not be set up, a read that failed with the leader as it was found
  // then, a wait that ran out of time, or the end of the child.
  datatype Ending = NoReaders | ReadFailed(leader: Phase) | WaitFailed | Ended

  const GRACE := 200
  const POLL_INTERVAL := 20

  // Only signals to a leader that is not reaped.
  ghost predicate SignalsAreSafe(log: seq<Event>) {
    forall i :: 0 <= i < |log| && log[i].GroupSignal? ==> !log[i].leader.Reaped?
  }

  // Probes from `from` on: the first at once, each but the last finding the group alive, the last finding
  // it gone or falling at or after the deadline.
  ghost predicate Polls(probes: seq<Event>, from: nat, grace: nat, died: bool) {
    && probes != []
    && (forall i :: 0 <= i < |probes| ==> probes[i].Probe? && (probes[i].alive <==> !(died && i == |probes| - 1)))
    && probes[0].at == from
    && (!died ==> probes[|probes| - 1].at >= from + grace)
    && (forall i :: 0 <= i < |probes| - 1 ==> probes[i].at < from + grace)
  }

  // One escalation: TERM, the probes of the grace, and KILL exactly when none of them saw the group gone.
  ghost predicate Escalation(events: seq<Event>, died: bool) {
    exists leader, last, from, probes ::
      && Polls(probes, from, GRACE, died)
      && events == [GroupSignal(Term, leader)] + probes + (if died then [] else [GroupSignal(Kill, last)])
  }

  lemma Escalated(leader: Phase, last: Phase, from: nat, probes: seq<Event>, died: bool)
    requires Polls(probes, from, GRACE, died)
    ensures Escalation([GroupSignal(Term, leader)] + probes + (if died then [] else [GroupSignal(Kill, last)]), died)
  {
  }

  class Child {
    var phase: Phase
    var members: bool          // some other process is alive in the group
    var now: nat
    ghost var log: seq<Event>

    constructor ()
      ensures phase == Running && log == []
    {
      phase, members, now, log := Running, true, 0, [];
    }

    // Exits that happen on their own while the code is elsewhere.
    twostate predicate Later()
      reads this
    {
      && (old(phase).Running? ==> !phase.Reaped?)
      && (!old(phase).Running? ==> phase == old(phase))
      && (!old(members) ==> !members)
      && log == old(log)
      && now >= old(now)
    }

    // Time passes, at least `atLeast` of it.
    method Sleep(atLeast: nat)
      modifies this
      ensures Later() && now >= old(now) + atLeast
    {
      var extra: int := *;
      now := now + atLeast + if extra > 0 then extra else 0;
      var exits: bool, interrupted: bool := *, *;
      if phase.Running? && exits {
        phase := Zombie(interrupted);
      }
      if * {
        members := false;
      }
    }

    // KILL cannot be refused; TERM can. Neither changes how a zombie ended.
    method SignalGroup(signal: Signal)
      modifies this`phase, this`members, this`log
      ensures log == old(log) + [GroupSignal(signal, old(phase))]
      ensures !old(phase).Running? ==> phase == old(phase)
      ensures !phase.Reaped? || old(phase).Reaped?
      ensures signal.Kill? ==> !phase.Running? && !members
      ensures !old(members) ==> !members
    {
      log := log + [GroupSignal(signal, phase)];
      var leaderHeeds: bool, othersHeed: bool := *, *;
      if phase.Running? && (signal.Kill? || leaderHeeds) {
        phase := Zombie(signal.Term?);
      }
      if signal.Kill? || othersHeed {
        members := false;
      }
    }

    // An unreaped leader, dead or not, keeps the group in existence.
    method GroupAlive() returns (alive: bool)
      modifies this`log
      ensures alive <==> !phase.Reaped? || members
      ensures log == old(log) + [Probe(alive, now)]
    {
      alive := !phase.Reaped? || members;
      log := log + [Probe(alive, now)];
    }

    method GroupDiedWithin(grace: nat) returns (died: bool, ghost probes: seq<Event>)
      modifies this
      ensures log == old(log) + probes && Polls(probes, old(now), grace, died)
      ensures !old(phase).Reaped? ==> !phase.Reaped? && !died
      ensures !old(phase).Running? ==> phase == old(phase)
      ensures died ==> phase.Reaped? && !members
      ensures !old(members) ==> !members
    {
      ghost var start := now;
      var deadline := now + grace;
      probes := [];
      while true
        invariant log == old(log) + probes && now >= start
        invariant forall i :: 0 <= i < |probes| ==> probes[i].Probe? && probes[i].alive && probes[i].at < deadline
        invariant if probes == [] then now == start else probes[0].at == start
        invariant !old(phase).Reaped? ==> !phase.Reaped?
        invariant !old(phase).Running? ==> phase == old(phase)
        invariant !old(members) ==> !members
        decreases if now < deadline then deadline - now else 0
      {
        var alive := GroupAlive();
        probes := probes + [Probe(alive, now)];
        if !alive {
          return true, probes;
        }
        var remaining := if deadline > now then deadline - now else 0;
        if remaining == 0 {
          return false, probes;
        }
        Sleep(if remaining < POLL_INTERVAL then remaining else POLL_INTERVAL);
      }
    }

    // The leader, if unreaped, pins the group, so the grace is used up and KILL follows; either way no
    // member of the group outlives the escalation.
    method TerminateProcessGroup() returns (died: bool)
      modifies this
      ensures old(log) <= log && Escalation(log[|old(log)|..], died)
      ensures SignalsAreSafe(old(log)) && !old(phase).Reaped? ==> SignalsAreSafe(log)
      ensures !members && !phase.Running?
      ensures !old(phase).Reaped? ==> !died && !phase.Reaped?
      ensures !old(phase).Running? ==> phase == old(phase)
    {
      ghost var leader := phase;
      SignalGroup(Term);
      ghost var from, probes := now, [];
      died, probes := GroupDiedWithin(GRACE);
      ghost var last := phase;
      if !died {
        SignalGroup(Kill);
      }
      Escalated(leader, last, from, probes, died);
      assert log[|old(log)|..]
          == [GroupSignal(Term, leader)] + probes + (if died then [] else [GroupSignal(Kill, last)]);
    }

    // The last wait of a teardown; the leader is dead, so it does not block. It may still fail.
    method Wait() returns (ok: bool)
      requires !phase.Running?
      modifies this`phase, this`log
      ensures log == old(log) + [ChildWait]
      ensures phase == if ok then Reaped(old(phase).interrupted) else old(phase)
    {
      log := log + [ChildWait];
      ok := *;
      if ok {
        phase := Reaped(phase.interrupted);
      }
    }

    method KillChild()
      modifies this`phase, this`log
      ensures log == old(log) + [ChildKill]
      ensures phase == if old(phase).Running? then Zombie(false) else old(phase)
    {
      log := log + [ChildKill];
      if phase.Running? {
        phase := Zombie(false);
      }
    }

    // What every failing path does: the group, then the child, then the wait.
    method TearDown() returns (waited: bool)
      requires !phase.Reaped? && SignalsAreSafe(log)
      modifies this
      ensures SignalsAreSafe(log) && TornDown(old(log), log)
      ensures !members && !phase.Running?
      ensures waited == phase.Reaped?
      ensures old(phase).Zombie? ==> phase.interrupted == old(phase).interrupted
    {
      ghost var before := log;
      var died := TerminateProcessGroup();
      ghost var events := log[|before|..];
      KillChild();
      waited := Wait();
      assert log == before + events + [ChildKill, ChildWait];
    }

    static ghost predicate TornDown(before: seq<Event>, after: seq<Event>) {
      exists events :: Escalation(events, false) && after == before + events + [ChildKill, ChildWait]
    }

    // After the spawn. Setting up the readers, reading to end of file within the deadline, and the wait
    // under the deadline may each fail. However it returns, the child has been waited on; a failure
    // before that wait signals the group while the leader is unreaped, TERM and then KILL.
    method RunWithTimeout() returns (outcome: Outcome, ghost ending: Ending)
      requires phase == Running && log == []
      modifies this
      ensures SignalsAreSafe(log)
      ensures log == [ChildWait] || TornDown([], log) || TornDown([ChildWait], log)
      ensures log == [ChildWait] <==> ending == Ended
      ensures ending != Ended ==> !members
      // What is reported is how the child ended, as the wait that reaped it told; and a child that had been
      // interrupted by the time its output could not be read is reported so, if only the wait succeeds.
      ensures outcome.Output? ==> phase == Reaped(outcome.interrupted)
      ensures ending == Ended ==> outcome.Output?
      ensures ending.ReadFailed? ==>
        outcome == if ending.leader == Zombie(true) && phase.Reaped? then Output(true) else Failed
      ensures ending.NoReaders? || ending.WaitFailed? ==> outcome == Failed
    {
      var readersReady: bool := *;
      if !readersReady {
        var _ := TearDown();
        return Failed, NoReaders;
      }
      Sleep(0);
      var readToEnd: bool := *;
      if !readToEnd {
        // Looked at without reaping; a zombie's status cannot change any more.
        ending := ReadFailed(phase);
        var interrupted := phase.Zombie? && phase.interrupted;
        var waited := TearDown();
        outcome := if waited && interrupted then Output(true) else Failed;
        return;
      }
      Sleep(0);
      log := log + [ChildWait];
      var inTime: bool := *;
      if inTime {
        var endsInterrupted: bool := *;
        var interrupted := if phase.Zombie? then phase.interrupted else endsInterrupted;
        phase := Reaped(interrupted);
        return Output(interrupted), Ended;
      }
      var _ := TearDown();
      outcome, ending := Failed, WaitFailed;
    }
  }

  // A reaped leader lets the grace end early: no KILL, and exactly because a probe saw the group gone.
  lemma KillFollowsUnlessSeenGone(events: seq<Event>, died: bool)
    requires Escalation(events, died)
    ensures events[|events| - 1].GroupSignal? && events[|events| - 1].signal.Kill? <==>
      forall i :: 0 <= i < |events| && events[i].Probe? ==> events[i].alive
    ensures events != [] && events[0].GroupSignal? && events[0].signal.Term?
    ensures |events| >= 2 && events[1].Probe?
  {
    var leader, last, from, probes :|
      && Polls(probes, from, GRACE, died)
      && events == [GroupSignal(Term, leader)] + probes + (if died then [] else [GroupSignal(Kill, last)]);
    assert forall i :: 0 <= i < |probes| ==> events[i + 1] == probes[i];
    if died {
      assert events[|events| - 1] == probes[|probes| - 1];
    }
  }
}
