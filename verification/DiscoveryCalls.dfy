/**
 What whole Start, Stop and PushToChan calls do to a discovery service at rest,
 and what no run can undo.
 */
module DiscoveryCalls {
  import opened Wrappers
  import opened DiscoveryService
  import opened DiscoveryTheorems

  // ---------- what no run undoes ----------

  /** What was closed or cancelled in a still is in b, and what was sent still counts. */
  ghost predicate Follows(a: Shared, b: Shared) {
    && |a.isOpen| <= |b.isOpen| && (forall c :: 0 <= c < |a.isOpen| && !a.isOpen[c] ==> !b.isOpen[c])
    && |a.cancelled| <= |b.cancelled| && (forall x :: 0 <= x < |a.cancelled| && a.cancelled[x] ==> b.cancelled[x])
    && a.sends <= b.sends && a.faults <= b.faults
  }

  lemma StartFollows(s: Shared, t: ThreadId, pc: Pc, choice: Choice)
    requires StartStep(s, t, pc, choice).Moved?
    ensures Follows(s, StartStep(s, t, pc, choice).shared)
  {
  }

  lemma StopFollows(s: Shared, t: ThreadId, pc: Pc)
    requires StopStep(s, t, pc).Moved?
    ensures Follows(s, StopStep(s, t, pc).shared)
  {
  }

  lemma PushFollows(s: Shared, t: ThreadId, pc: Pc, choice: Choice)
    requires PushStep(s, t, pc, choice).Moved?
    ensures Follows(s, PushStep(s, t, pc, choice).shared)
  {
  }

  lemma AdvanceFollows(s: Shared, t: ThreadId, pc: Pc, choice: Choice)
    requires Advance(s, t, pc, choice).Moved?
    ensures Follows(s, Advance(s, t, pc, choice).shared)
  {
    if StartStep(s, t, pc, choice).Moved? {
      StartFollows(s, t, pc, choice);
    } else if StopStep(s, t, pc).Moved? {
      StopFollows(s, t, pc);
    } else {
      PushFollows(s, t, pc, choice);
    }
  }

  lemma StepFollows(s: State, step: Step)
    requires Next(s, step).Some?
    ensures Follows(s.shared, Next(s, step).value.shared)
  {
    if step.Run? {
      AdvanceFollows(s.shared, step.thread, s.threads[step.thread], step.choice);
    }
  }

  /** No run reopens a channel, revives a context, or takes back what was sent. */
  lemma {:induction false} RunFollows(s: State, steps: seq<Step>)
    requires Execute(s, steps).Some?
    ensures Follows(s.shared, Execute(s, steps).value.shared)
    decreases |steps|
  {
    if steps != [] {
      StepFollows(s, steps[0]);
      RunFollows(Next(s, steps[0]).value, steps[1..]);
    }
  }

  /** Nothing is sent on a channel once it is closed. */
  lemma StepSendsOnOpen(s: State, step: Step, x: Sent)
    requires Inv(s) && Next(s, step).Some? && x in Next(s, step).value.shared.sends && x !in s.shared.sends
    ensures ChannelIsOpen(s.shared, Some(x.channel)) && s.shared.channel == Some(x.channel)
  {
    assert step.Run?;
    assert ThreadInv(s.shared, step.thread, s.threads[step.thread]);
  }

  lemma {:induction false} ClosedIsFinal(s: State, steps: seq<Step>, c: nat, x: Sent)
    requires Inv(s) && Execute(s, steps).Some? && c < |s.shared.isOpen| && !s.shared.isOpen[c]
    requires x.channel == c && x in Execute(s, steps).value.shared.sends
    ensures x in s.shared.sends
    decreases |steps|
  {
    if steps != [] {
      var n := Next(s, steps[0]).value;
      StepKeeps(s, steps[0]);
      StepFollows(s, steps[0]);
      ClosedIsFinal(n, steps[1..], c, x);
      if x !in s.shared.sends {
        StepSendsOnOpen(s, steps[0], x);
      }
    }
  }

  // ---------- whole calls ----------

  predicate AtRest(s: Shared) {
    s.serviceLock.None? && s.channelLock.None?
  }

  lemma StartMakes(s: Shared, t: ThreadId, choice: Choice)
    requires s.channelLock.None?
    ensures Solo(s, t, StartChanLock, choice, 4) ==
            Moved(s.(channel := Some(|s.isOpen|), isOpen := s.isOpen + [true], closedFlag := false), StartRun)
  {
    var s1 := s.(channelLock := Some(t));
    var s2 := s1.(channel := Some(|s.isOpen|), isOpen := s.isOpen + [true]);
    SoloUnfold(s, t, StartChanLock, choice, 3);
    SoloUnfold(s1, t, StartMake, choice, 2);
    SoloUnfold(s2, t, StartOpenFlag, choice, 1);
    SoloUnfold(s2.(closedFlag := false), t, StartChanUnlock, choice, 0);
  }

  lemma StartReachesTheWork(s: Shared, t: ThreadId, choice: Choice)
    requires AtRest(s) && !s.started
    ensures var o := Solo(s, t, StartLock, choice, 8);
            && o.Moved? && o.pc == StartRun && Running(o.shared)
            && o.shared.channel == Some(|s.isOpen|) && o.shared.isOpen == s.isOpen + [true]
            && o.shared.context == Some(|s.cancelled|) && o.shared.cancelled == s.cancelled + [false]
            && o.shared.serviceLock == Some(t) && o.shared.channelLock.None?
            && o.shared.sends == s.sends && o.shared.faults == s.faults
  {
    StartReachesTheLock(s, t, choice);
    var o := Solo(s, t, StartLock, choice, 4);
    SoloAppend(s, t, StartLock, choice, 4, 4);
    StartMakes(o.shared, t, choice);
  }

  /** A Start whose work succeeds leaves the service running, with a new open channel and a new live context. */
  lemma StartSucceeds(s: Shared, t: ThreadId)
    requires AtRest(s) && !s.started
    ensures var o := Solo(s, t, StartLock, Go, 10);
            && o.Moved? && o.pc == Returned(false) && AtRest(o.shared) && Running(o.shared)
            && o.shared.channel == Some(|s.isOpen|) && o.shared.isOpen == s.isOpen + [true]
            && o.shared.context == Some(|s.cancelled|) && o.shared.cancelled == s.cancelled + [false]
            && o.shared.sends == s.sends && o.shared.faults == s.faults
  {
    StartReachesTheWork(s, t, Go);
    var o := Solo(s, t, StartLock, Go, 8);
    SoloAppend(s, t, StartLock, Go, 8, 2);
    SoloUnfold(o.shared, t, StartRun, Go, 1);
    SoloUnfold(o.shared, t, StartUnlock, Go, 0);
  }

  /**
   One whose work fails leaves it stopped, its context cancelled; but its
   channel stays open and is not flagged as closed.
   */
  lemma StartFails(s: Shared, t: ThreadId)
    requires AtRest(s) && !s.started
    ensures var o := Solo(s, t, StartLock, FnFails, 12);
            && o.Moved? && o.pc == Returned(false) && AtRest(o.shared) && !o.shared.started
            && o.shared.context == Some(|s.cancelled|) && o.shared.cancelled == s.cancelled + [true]
            && ChannelIsOpen(o.shared, o.shared.channel) && !o.shared.closedFlag
            && o.shared.sends == s.sends && o.shared.faults == s.faults
  {
    StartReachesTheWork(s, t, FnFails);
    var o := Solo(s, t, StartLock, FnFails, 8);
    SoloAppend(s, t, StartLock, FnFails, 8, 4);
    var s1 := o.shared.(started := false);
    var s2 := Cancelled(s1);
    SoloUnfold(o.shared, t, StartRun, FnFails, 3);
    SoloUnfold(o.shared, t, StartUnmark, FnFails, 2);
    SoloUnfold(s1, t, StartCancel, FnFails, 1);
    SoloUnfold(s2, t, StartUnlock, FnFails, 0);
  }

  lemma StopCancels(s: Shared, t: ThreadId)
    requires AtRest(s) && Running(s)
    ensures Solo(s, t, StopLock, Go, 5) ==
            Moved(Cancelled(s).(serviceLock := Some(t), channelLock := Some(t)), StopClose)
  {
    var s1 := s.(serviceLock := Some(t));
    var s2 := Cancelled(s1);
    SoloUnfold(s, t, StopLock, Go, 4);
    SoloUnfold(s1, t, StopCheck, Go, 3);
    SoloUnfold(s1, t, StopCancel, Go, 2);
    SoloUnfold(s2, t, StopWait, Go, 1);
    SoloUnfold(s2, t, StopChanLock, Go, 0);
  }

  lemma StopFinishes(s: Shared, t: ThreadId)
    requires s.started && ChannelIsOpen(s, s.channel)
    ensures var isOpen := s.isOpen[s.channel.value := false];
            Solo(s, t, StopClose, Go, 5) == Moved(
              s.(isOpen := isOpen, closedFlag := true, started := false, serviceLock := None, channelLock := None),
              Returned(false))
  {
    var s1 := s.(isOpen := s.isOpen[s.channel.value := false]);
    var s2 := s1.(closedFlag := true);
    var s3 := s2.(channelLock := None);
    SoloUnfold(s, t, StopClose, Go, 4);
    SoloUnfold(s1, t, StopClosedFlag, Go, 3);
    SoloUnfold(s2, t, StopChanUnlock, Go, 2);
    SoloUnfold(s3, t, StopUnmark, Go, 1);
    SoloUnfold(s3.(started := false), t, StopUnlock, Go, 0);
  }

  /** A Stop of a running service closes its channel, says so, and cancels its context. */
  lemma StopCloses(s: Shared, t: ThreadId)
    requires AtRest(s) && Running(s) && s.context.value < |s.cancelled|
    ensures var o := Solo(s, t, StopLock, Go, 10);
            && o.Moved? && o.pc == Returned(false) && AtRest(o.shared) && !o.shared.started && o.shared.closedFlag
            && o.shared.channel == s.channel && o.shared.isOpen == s.isOpen[s.channel.value := false]
            && o.shared.context == s.context && o.shared.cancelled == s.cancelled[s.context.value := true]
            && o.shared.sends == s.sends && o.shared.faults == s.faults
  {
    StopCancels(s, t);
    SoloAppend(s, t, StopLock, Go, 5, 5);
    StopFinishes(Solo(s, t, StopLock, Go, 5).shared, t);
  }

  /** A push to a running service, once somebody receives, sends on its channel and says so. */
  lemma PushSends(s: Shared, u: ThreadId)
    requires AtRest(s) && Running(s)
    ensures Solo(s, u, PushCheck, CanSend, 6) ==
            Moved(s.(sends := s.sends + {Sent(u, s.channel.value, true)}), Returned(true))
  {
    PushReachesTheSelect(s, u, CanSend);
    SoloAppend(s, u, PushCheck, CanSend, 4, 2);
    var s1 := s.(channelLock := Some(u));
    SoloUnfold(s1, u, PushSelect(s.channel, s.context.value), CanSend, 1);
    SoloUnfold(s1.(sends := s.sends + {Sent(u, s.channel.value, true)}), u, PushChanUnlock(true), CanSend, 0);
  }

  /** A Start of a running service, a Stop of a stopped one and a push to a stopped one change nothing. */
  lemma IdleCalls(s: Shared, t: ThreadId)
    requires AtRest(s)
    ensures s.started ==> Solo(s, t, StartLock, Go, 3) == Moved(s, Returned(false))
    ensures !s.started ==> Solo(s, t, StopLock, Go, 3) == Moved(s, Returned(false))
    ensures !s.started ==> Solo(s, t, PushCheck, Go, 1) == Moved(s, Returned(false))
  {
    var s1 := s.(serviceLock := Some(t));
    if s.started {
      SoloUnfold(s, t, StartLock, Go, 2);
      SoloUnfold(s1, t, StartCheck, Go, 1);
      SoloUnfold(s1, t, StartUnlock, Go, 0);
    } else {
      SoloUnfold(s, t, StopLock, Go, 2);
      SoloUnfold(s1, t, StopCheck, Go, 1);
      SoloUnfold(s1, t, StopUnlock, Go, 0);
      SoloUnfold(s, t, PushCheck, Go, 0);
    }
  }

  /** A Start, a push and a Stop, one after the other. */
  function Cycle(t: ThreadId, u: ThreadId, v: ThreadId): seq<Step> {
    Alone(t, StartLock, Go, 10) + (Alone(u, PushCheck, CanSend, 6) + Alone(v, StopLock, Go, 10))
  }

  /**
   From every state in which a stopped service is at rest, a Start, a push and
   a Stop can follow each other: exactly one value is sent, on a channel that
   did not exist before, the push reports it, and the service is stopped and at
   rest again, with that channel closed and flagged, and nothing has faulted.
   */
  lemma CycleWorks(s: State, t: ThreadId, u: ThreadId, v: ThreadId)
    requires Inv(s) && AtRest(s.shared) && !s.shared.started
    requires t !in s.threads && u !in s.threads && v !in s.threads && t != u && u != v && t != v
    ensures var r := Execute(s, Cycle(t, u, v));
            && r.Some? && u in r.value.threads && r.value.threads[u] == Returned(true)
            && AtRest(r.value.shared) && !r.value.shared.started && r.value.shared.closedFlag
            && r.value.shared.isOpen == s.shared.isOpen + [false]
            && r.value.shared.cancelled == s.shared.cancelled + [true]
            && r.value.shared.sends == s.shared.sends + {Sent(u, |s.shared.isOpen|, true)}
            && r.value.shared.faults == s.shared.faults
  {
    StartSucceeds(s.shared, t);
    AloneExecutes(s, t, StartLock, Go, 10);
    var s1 := Execute(s, Alone(t, StartLock, Go, 10)).value;
    PushSends(s1.shared, u);
    AloneExecutes(s1, u, PushCheck, CanSend, 6);
    var s2 := Execute(s1, Alone(u, PushCheck, CanSend, 6)).value;
    StopCloses(s2.shared, v);
    AloneExecutes(s2, v, StopLock, Go, 10);
    ExecuteAppend(s1, Alone(u, PushCheck, CanSend, 6), Alone(v, StopLock, Go, 10));
    ExecuteAppend(s, Alone(t, StartLock, Go, 10), Alone(u, PushCheck, CanSend, 6) + Alone(v, StopLock, Go, 10));
  }
}
