/**
 What holds in every interleaving of any number of Start, Stop and PushToChan
 calls on one discovery service: which faults cannot happen, and when calls
 can wait for each other for ever.
 */
module DiscoveryTheorems {
  import opened Wrappers
  import opened DiscoveryService

  datatype State = State(shared: Shared, threads: map<ThreadId, Pc>)

  const INITIAL: State := State(Shared(false, None, false, None, [], [], None, None, {}, {}), map[])

  /** A new call, a step of a call, or the end of the context a Start was given. */
  datatype Step = Call(thread: ThreadId, entry: Pc) | Run(thread: ThreadId, choice: Choice) | Expire(context: nat)

  predicate IsEntry(pc: Pc) {
    pc == StartLock || pc == StopLock || pc == PushCheck
  }

  function Next(s: State, step: Step): Option<State> {
    match step
    case Call(t, entry) =>
      if t !in s.threads && IsEntry(entry) then Some(s.(threads := s.threads[t := entry])) else None
    case Run(t, choice) =>
      if t !in s.threads then None
      else
        var o := Advance(s.shared, t, s.threads[t], choice);
        if o.Moved? then Some(State(o.shared, s.threads[t := o.pc])) else None
    case Expire(x) =>
      if x < |s.shared.cancelled|
      then Some(s.(shared := s.shared.(cancelled := s.shared.cancelled[x := true])))
      else None
  }

  function Execute(s: State, steps: seq<Step>): Option<State>
    decreases |steps|
  {
    if steps == [] then Some(s)
    else
      var n := Next(s, steps[0]);
      if n.None? then None else Execute(n.value, steps[1..])
  }

  // ---------- every reachable state ----------

  ghost predicate Inv(s: State) {
    && Global(s.shared)
    && (s.shared.serviceLock.Some? ==> s.shared.serviceLock.value in s.threads)
    && (s.shared.channelLock.Some? ==> s.shared.channelLock.value in s.threads)
    && (forall x :: x in s.shared.sends ==> x.thread in s.threads)
    && (forall t :: t in s.threads ==> ThreadInv(s.shared, t, s.threads[t]))
  }

  lemma AdvanceMine(s: Shared, t: ThreadId, pc: Pc, choice: Choice)
    requires Global(s) && ThreadInv(s, t, pc) && Advance(s, t, pc, choice).Moved?
    ensures var n := Advance(s, t, pc, choice); Global(n.shared) && ThreadInv(n.shared, t, n.pc)
  {
    if StartStep(s, t, pc, choice).Moved? {
      StartGlobal(s, t, pc, choice);
      StartLocks(s, t, pc, choice);
      StartFacts(s, t, pc, choice);
      StartResult(s, t, pc, choice);
    } else if StopStep(s, t, pc).Moved? {
      StopGlobal(s, t, pc);
      StopLocks(s, t, pc);
      StopFacts(s, t, pc);
      StopResult(s, t, pc);
    } else {
      PushGlobal(s, t, pc, choice);
      PushLocks(s, t, pc, choice);
      PushFacts(s, t, pc, choice);
      PushResult(s, t, pc, choice);
    }
  }

  lemma AdvanceOther(s: Shared, t: ThreadId, pc: Pc, choice: Choice, u: ThreadId, other: Pc)
    requires Global(s) && ThreadInv(s, t, pc) && Advance(s, t, pc, choice).Moved?
    requires u != t && ThreadInv(s, u, other)
    ensures ThreadInv(Advance(s, t, pc, choice).shared, u, other)
  {
    if StartStep(s, t, pc, choice).Moved? {
      StartOther(s, t, pc, choice, u, other);
    } else if StopStep(s, t, pc).Moved? {
      StopOther(s, t, pc, u, other);
    } else {
      PushOther(s, t, pc, choice, u, other);
    }
  }

  lemma LocksStayWithCalls(s: Shared, t: ThreadId, pc: Pc, choice: Choice)
    requires Advance(s, t, pc, choice).Moved?
    ensures var n := Advance(s, t, pc, choice).shared;
            && (n.serviceLock.None? || n.serviceLock == Some(t) || n.serviceLock == s.serviceLock)
            && (n.channelLock.None? || n.channelLock == Some(t) || n.channelLock == s.channelLock)
            && (forall x :: x in n.sends ==> x in s.sends || x.thread == t)
  {
  }

  lemma RunKeeps(s: State, t: ThreadId, choice: Choice)
    requires Inv(s) && Next(s, Run(t, choice)).Some?
    ensures Inv(Next(s, Run(t, choice)).value)
  {
    var n := Next(s, Run(t, choice)).value;
    AdvanceMine(s.shared, t, s.threads[t], choice);
    LocksStayWithCalls(s.shared, t, s.threads[t], choice);
    forall u | u in n.threads && u != t ensures ThreadInv(n.shared, u, n.threads[u]) {
      AdvanceOther(s.shared, t, s.threads[t], choice, u, s.threads[u]);
    }
  }

  lemma ExpireKeepsThread(s: Shared, x: nat, t: ThreadId, pc: Pc)
    requires x < |s.cancelled| && ThreadInv(s, t, pc)
    ensures ThreadInv(s.(cancelled := s.cancelled[x := true]), t, pc)
  {
  }

  lemma CallKeeps(s: State, t: ThreadId, entry: Pc)
    requires Inv(s) && Next(s, Call(t, entry)).Some?
    ensures Inv(Next(s, Call(t, entry)).value)
  {
    var n := Next(s, Call(t, entry)).value;
    forall u | u in n.threads ensures ThreadInv(n.shared, u, n.threads[u]) {
      if u != t { assert ThreadInv(s.shared, u, s.threads[u]); }
    }
  }

  lemma ExpireKeeps(s: State, x: nat)
    requires Inv(s) && Next(s, Expire(x)).Some?
    ensures Inv(Next(s, Expire(x)).value)
  {
    var n := Next(s, Expire(x)).value;
    forall u | u in n.threads ensures ThreadInv(n.shared, u, n.threads[u]) {
      ExpireKeepsThread(s.shared, x, u, s.threads[u]);
    }
  }

  lemma StepKeeps(s: State, step: Step)
    requires Inv(s) && Next(s, step).Some?
    ensures Inv(Next(s, step).value)
  {
    match step
    case Call(t, entry) => CallKeeps(s, t, entry);
    case Run(t, choice) => RunKeeps(s, t, choice);
    case Expire(x) => ExpireKeeps(s, x);
  }

  lemma {:induction false} ExecuteKeeps(s: State, steps: seq<Step>)
    requires Inv(s) && Execute(s, steps).Some?
    ensures Inv(Execute(s, steps).value)
    decreases |steps|
  {
    if steps != [] {
      StepKeeps(s, steps[0]);
      ExecuteKeeps(Next(s, steps[0]).value, steps[1..]);
    }
  }

  /**
   In every run no push sends on a closed channel, no channel is closed twice
   and none is closed before it exists; whatever was sent, was sent on a channel
   open at that moment; and a call that has returned reports true exactly when
   it did send.
   */
  lemma NoChannelFault(steps: seq<Step>)
    requires Execute(INITIAL, steps).Some?
    ensures var s := Execute(INITIAL, steps).value;
            && s.shared.faults <= {NilContext}
            && (forall x :: x in s.shared.sends ==> x.wasOpen)
            && (forall t :: t in s.threads && s.threads[t].Returned? ==>
                  (s.threads[t].result <==> SomethingSent(s.shared, t)))
  {
    ExecuteKeeps(INITIAL, steps);
    var s := Execute(INITIAL, steps).value;
    forall t | t in s.threads && s.threads[t].Returned? ensures s.threads[t].result <==> SomethingSent(s.shared, t) {
      assert ThreadInv(s.shared, t, s.threads[t]);
    }
  }

  // ---------- the nil context ----------

  /**
   A push that finds no context does so while the very first Start stands
   between marking the service started and creating the context.
   */
  lemma NilContextOnlyInFirstStart(steps: seq<Step>, t: ThreadId)
    requires Execute(INITIAL, steps).Some?
    requires var s := Execute(INITIAL, steps).value; t in s.threads && s.threads[t] == PushEvaluate
    ensures var s := Execute(INITIAL, steps).value;
            s.shared.context.None? ==>
              s.shared.started && s.shared.serviceLock.Some? && s.shared.serviceLock.value in s.threads
              && s.threads[s.shared.serviceLock.value] == StartContext
  {
    ExecuteKeeps(INITIAL, steps);
    var s := Execute(INITIAL, steps).value;
    assert ThreadInv(s.shared, t, s.threads[t]);
    if s.shared.context.None? {
      assert s.shared.started;
      var u := s.shared.serviceLock.value;
      assert ThreadInv(s.shared, u, s.threads[u]);
    }
  }

  lemma StopNoFault(s: Shared, t: ThreadId, pc: Pc)
    requires Global(s) && ThreadInv(s, t, pc) && s.context.Some? && StopStep(s, t, pc).Moved?
    ensures var n := StopStep(s, t, pc).shared; n.context.Some? && n.faults == s.faults
  {
  }

  lemma PushNoFault(s: Shared, t: ThreadId, pc: Pc, choice: Choice)
    requires Global(s) && ThreadInv(s, t, pc) && s.context.Some? && PushStep(s, t, pc, choice).Moved?
    ensures var n := PushStep(s, t, pc, choice).shared; n.context.Some? && n.faults == s.faults
  {
  }

  lemma AdvanceNoFault(s: Shared, t: ThreadId, pc: Pc, choice: Choice)
    requires Global(s) && ThreadInv(s, t, pc) && s.context.Some? && Advance(s, t, pc, choice).Moved?
    ensures var n := Advance(s, t, pc, choice).shared; n.context.Some? && n.faults == s.faults
  {
    if !StartStep(s, t, pc, choice).Moved? {
      if StopStep(s, t, pc).Moved? {
        StopNoFault(s, t, pc);
      } else {
        PushNoFault(s, t, pc, choice);
      }
    }
  }

  /** No step from a state with a context faults: a context, once made, is never taken away. */
  lemma NoFaultOnceThereIsAContext(s: State, step: Step)
    requires Inv(s) && s.shared.context.Some? && Next(s, step).Some?
    ensures var n := Next(s, step).value; n.shared.context.Some? && n.shared.faults == s.shared.faults
  {
    if step.Run? {
      AdvanceNoFault(s.shared, step.thread, s.threads[step.thread], step.choice);
    }
  }

  // ---------- waiting ----------

  /** A call can take a step although nobody receives from the channel. */
  predicate CanMove(s: State, t: ThreadId) {
    && t in s.threads
    && (|| Advance(s.shared, t, s.threads[t], Go).Moved?
        || Advance(s.shared, t, s.threads[t], ContextDone).Moved?)
  }

  predicate InStop(pc: Pc) {
    match pc
    case StopLock | StopCheck | StopCancel | StopWait | StopChanLock | StopClose | StopClosedFlag
       | StopChanUnlock | StopUnmark | StopUnlock => true
    case _ => false
  }

  /**
   A Start inside the service lock waits for the channel lock, and the push
   that holds it waits to send, watching the context that this Start made.
   */
  predicate Jammed(s: State, t: ThreadId, u: ThreadId) {
    && t in s.threads && s.threads[t] == StartChanLock
    && u in s.threads && s.threads[u].PushSelect?
    && s.shared.channelLock == Some(u)
    && s.shared.context == Some(s.threads[u].context)
    && s.threads[u].context < |s.shared.cancelled| && !s.shared.cancelled[s.threads[u].context]
  }

  /** Whoever holds the channel lock can move, unless it is a push that waits under a live context. */
  lemma HolderMoves(s: State, u: ThreadId)
    requires Inv(s) && s.shared.channelLock == Some(u)
    ensures u in s.threads && HoldsChannel(s.threads[u])
    ensures CanMove(s, u)
         || (s.threads[u].PushSelect? && s.shared.context == Some(s.threads[u].context) && !Ended(s.shared))
  {
    assert ThreadInv(s.shared, u, s.threads[u]);
  }

  /** A holder of the service lock can move, or waits for the channel lock. */
  lemma ServiceHolderMoves(s: State, t: ThreadId)
    requires Inv(s) && t in s.threads && HoldsService(s.threads[t])
    ensures CanMove(s, t)
         || ((s.threads[t] == StartChanLock || s.threads[t] == StopChanLock) && s.shared.channelLock.Some?)
  {
  }

  /** The call that has the service lock can move, or the one that has the channel lock, or they have jammed. */
  ghost predicate LockHolderMoves(s: State, t: ThreadId) {
    || CanMove(s, t)
    || (s.shared.channelLock.Some? && CanMove(s, s.shared.channelLock.value))
    || (s.shared.channelLock.Some? && Jammed(s, t, s.shared.channelLock.value))
  }

  lemma ServiceMoves(s: State, t: ThreadId)
    requires Inv(s) && t in s.threads && HoldsService(s.threads[t])
    ensures LockHolderMoves(s, t)
  {
    ServiceHolderMoves(s, t);
    if !CanMove(s, t) {
      var u := s.shared.channelLock.value;
      HolderMoves(s, u);
      assert ThreadInv(s.shared, t, s.threads[t]);
    }
  }

  /**
   A Stop under way can move by itself, although nobody receives from the
   channel; or the call that has the service lock can, or the one that has the
   channel lock; or a Start and a push have jammed.
   */
  lemma StopIsNotStuck(steps: seq<Step>, t: ThreadId)
    requires Execute(INITIAL, steps).Some?
    requires var s := Execute(INITIAL, steps).value; t in s.threads && InStop(s.threads[t])
    ensures var s := Execute(INITIAL, steps).value;
            CanMove(s, t) || (s.shared.serviceLock.Some? && LockHolderMoves(s, s.shared.serviceLock.value))
  {
    ExecuteKeeps(INITIAL, steps);
    var s := Execute(INITIAL, steps).value;
    assert ThreadInv(s.shared, t, s.threads[t]);
    if s.shared.serviceLock.Some? {
      var h := s.shared.serviceLock.value;
      assert ThreadInv(s.shared, h, s.threads[h]);
      ServiceMoves(s, h);
    }
  }

  /** A jam needs a channel that no Stop has closed: none yet, or one left by a Start that failed. */
  lemma JamNeedsUnclosed(s: State, t: ThreadId, u: ThreadId)
    requires Inv(s) && Jammed(s, t, u)
    ensures !s.shared.closedFlag && (s.shared.channel.None? || ChannelIsOpen(s.shared, s.shared.channel))
  {
    assert ThreadInv(s.shared, u, s.threads[u]);
  }

  /** In a jam over no channel at all, only the end of the context that the push watches lets anything finish. */
  lemma JamStays(s: State, t: ThreadId, u: ThreadId, step: Step)
    requires Inv(s) && Jammed(s, t, u) && s.threads[u].channel.None? && Next(s, step).Some?
    requires step != Expire(s.threads[u].context)
    ensures var n := Next(s, step).value; Jammed(n, t, u) && n.threads[u] == s.threads[u]
  {
    assert ThreadInv(s.shared, t, s.threads[t]);
    assert ThreadInv(s.shared, u, s.threads[u]);
    match step
    case Call(v, entry) =>
    case Run(v, choice) => assert ThreadInv(s.shared, v, s.threads[v]);
    case Expire(x) =>
  }

  /** A Stop called then never gets past its first step, whatever else is called. */
  lemma {:induction false} JamIsForever(s: State, t: ThreadId, u: ThreadId, steps: seq<Step>)
    requires Inv(s) && Jammed(s, t, u) && s.threads[u].channel.None? && Execute(s, steps).Some?
    requires Expire(s.threads[u].context) !in steps
    ensures var n := Execute(s, steps).value;
            && Jammed(n, t, u)
            && (forall v :: v in n.threads && InStop(n.threads[v]) ==> n.threads[v] == StopLock)
    decreases |steps|
  {
    if steps == [] {
      assert ThreadInv(s.shared, t, s.threads[t]);
      forall v | v in s.threads && InStop(s.threads[v]) ensures s.threads[v] == StopLock {
        assert ThreadInv(s.shared, v, s.threads[v]);
      }
    } else {
      var n := Next(s, steps[0]).value;
      JamStays(s, t, u, steps[0]);
      StepKeeps(s, steps[0]);
      JamIsForever(n, t, u, steps[1..]);
    }
  }

  // ---------- one call running alone ----------

  function Solo(s: Shared, t: ThreadId, pc: Pc, choice: Choice, k: nat): Outcome
    decreases k
  {
    if k == 0 then Moved(s, pc)
    else
      var o := Advance(s, t, pc, choice);
      if o.Blocked? then Blocked else Solo(o.shared, t, o.pc, choice, k - 1)
  }

  /** A new call, and k of its steps with nothing in between. */
  function Alone(t: ThreadId, entry: Pc, choice: Choice, k: nat): seq<Step> {
    [Call(t, entry)] + seq(k, _ => Run(t, choice))
  }

  lemma {:induction false} SoloExecutes(s: State, t: ThreadId, choice: Choice, k: nat)
    requires t in s.threads && Solo(s.shared, t, s.threads[t], choice, k).Moved?
    ensures var o := Solo(s.shared, t, s.threads[t], choice, k);
            Execute(s, seq(k, _ => Run(t, choice))) == Some(State(o.shared, s.threads[t := o.pc]))
    decreases k
  {
    var steps := seq(k, _ => Run(t, choice));
    if k == 0 {
      assert s.threads[t := s.threads[t]] == s.threads;
    } else {
      var n := Next(s, Run(t, choice)).value;
      assert steps[1..] == seq(k - 1, _ => Run(t, choice));
      SoloExecutes(n, t, choice, k - 1);
      var o := Solo(n.shared, t, n.threads[t], choice, k - 1);
      assert n.threads[t := o.pc] == s.threads[t := o.pc];
    }
  }

  lemma AloneExecutes(s: State, t: ThreadId, entry: Pc, choice: Choice, k: nat)
    requires t !in s.threads && IsEntry(entry) && Solo(s.shared, t, entry, choice, k).Moved?
    ensures var o := Solo(s.shared, t, entry, choice, k);
            Execute(s, Alone(t, entry, choice, k)) == Some(State(o.shared, s.threads[t := o.pc]))
  {
    var n := Next(s, Call(t, entry)).value;
    SoloExecutes(n, t, choice, k);
    assert Alone(t, entry, choice, k)[1..] == seq(k, _ => Run(t, choice));
    var o := Solo(s.shared, t, entry, choice, k);
    assert n.threads[t := o.pc] == s.threads[t := o.pc];
  }

  lemma {:induction false} ExecuteAppend(s: State, a: seq<Step>, b: seq<Step>)
    requires Execute(s, a).Some?
    ensures Execute(s, a + b) == Execute(Execute(s, a).value, b)
    decreases |a|
  {
    if a == [] {
      assert a + b == b;
    } else {
      assert (a + b)[1..] == a[1..] + b;
      ExecuteAppend(Next(s, a[0]).value, a[1..], b);
    }
  }

  lemma SoloUnfold(s: Shared, t: ThreadId, pc: Pc, choice: Choice, k: nat)
    requires Advance(s, t, pc, choice).Moved?
    ensures var o := Advance(s, t, pc, choice);
            Solo(s, t, pc, choice, k + 1) == Solo(o.shared, t, o.pc, choice, k)
  {
  }

  lemma {:induction false} SoloAppend(s: Shared, t: ThreadId, pc: Pc, choice: Choice, i: nat, j: nat)
    requires Solo(s, t, pc, choice, i).Moved?
    ensures var o := Solo(s, t, pc, choice, i);
            Solo(s, t, pc, choice, i + j) == Solo(o.shared, t, o.pc, choice, j)
    decreases i
  {
    if i != 0 {
      var o := Advance(s, t, pc, choice);
      SoloAppend(o.shared, t, o.pc, choice, i - 1, j);
    }
  }

  /** A Start of a stopped service, up to the point where it has marked it started. */
  lemma StartMarks(s: Shared, t: ThreadId)
    requires s.serviceLock.None? && !s.started
    ensures Solo(s, t, StartLock, Go, 3) == Moved(s.(serviceLock := Some(t), started := true), StartContext)
  {
    var s1 := s.(serviceLock := Some(t));
    SoloUnfold(s, t, StartLock, Go, 2);
    SoloUnfold(s1, t, StartCheck, Go, 1);
    SoloUnfold(s1, t, StartMark, Go, 0);
  }

  /** And one step further, where it waits for the channel lock. */
  lemma StartReachesTheLock(s: Shared, t: ThreadId, choice: Choice)
    requires s.serviceLock.None? && !s.started
    ensures Solo(s, t, StartLock, choice, 4) == Moved(
      s.(serviceLock := Some(t), started := true, context := Some(|s.cancelled|), cancelled := s.cancelled + [false]),
      StartChanLock)
  {
    var s1 := s.(serviceLock := Some(t));
    var s2 := s1.(started := true);
    SoloUnfold(s, t, StartLock, choice, 3);
    SoloUnfold(s1, t, StartCheck, choice, 2);
    SoloUnfold(s1, t, StartMark, choice, 1);
    SoloUnfold(s2, t, StartContext, choice, 0);
  }

  lemma PushGetsTheLock(s: Shared, u: ThreadId, choice: Choice)
    requires s.channelLock.None? && s.started
    ensures Solo(s, u, PushCheck, choice, 2) == Moved(s.(channelLock := Some(u)), PushClosedCheck)
  {
    SoloUnfold(s, u, PushCheck, choice, 1);
    SoloUnfold(s, u, PushChanLock, choice, 0);
  }

  lemma PushLooks(s: Shared, u: ThreadId, choice: Choice)
    ensures Solo(s, u, PushClosedCheck, choice, 2) ==
      if s.closedFlag then Moved(s.(channelLock := None), Returned(false))
      else if s.context.None? then Moved(s.(channelLock := None, faults := s.faults + {NilContext}), Panicked)
      else Moved(s, PushSelect(s.channel, s.context.value))
  {
    SoloUnfold(s, u, PushClosedCheck, choice, 1);
    if s.closedFlag {
      SoloUnfold(s, u, PushChanUnlock(false), choice, 0);
    } else {
      SoloUnfold(s, u, PushEvaluate, choice, 0);
    }
  }

  /** A push, up to the point where it waits to send, gives up, or finds no context. */
  lemma PushReachesTheSelect(s: Shared, u: ThreadId, choice: Choice)
    requires s.channelLock.None? && s.started
    ensures Solo(s, u, PushCheck, choice, 4) ==
      if s.closedFlag then Moved(s, Returned(false))
      else if s.context.None? then Moved(s.(faults := s.faults + {NilContext}), Panicked)
      else Moved(s.(channelLock := Some(u)), PushSelect(s.channel, s.context.value))
  {
    PushGetsTheLock(s, u, choice);
    SoloAppend(s, u, PushCheck, choice, 2, 2);
    PushLooks(s.(channelLock := Some(u)), u, choice);
  }

  /** A Start takes k steps, and then a push overtakes it. */
  function Overtaken(t: ThreadId, u: ThreadId, k: nat): seq<Step> {
    Alone(t, StartLock, Go, k) + Alone(u, PushCheck, Go, 4)
  }

  /**
   From every resting state of a stopped service, a Start overtaken by a push
   jams exactly when the last thing to touch the channel was not a Stop.
   */
  lemma JamIff(s: State, t: ThreadId, u: ThreadId)
    requires Inv(s) && s.shared.serviceLock.None? && s.shared.channelLock.None? && !s.shared.started
    requires t !in s.threads && u !in s.threads && t != u
    ensures var r := Execute(s, Overtaken(t, u, 4));
            && r.Some?
            && (Jammed(r.value, t, u) <==> !s.shared.closedFlag)
            && (Jammed(r.value, t, u) ==> r.value.threads[u] == PushSelect(s.shared.channel, |s.shared.cancelled|))
  {
    StartReachesTheLock(s.shared, t, Go);
    AloneExecutes(s, t, StartLock, Go, 4);
    var m := Execute(s, Alone(t, StartLock, Go, 4)).value;
    PushReachesTheSelect(m.shared, u, Go);
    AloneExecutes(m, u, PushCheck, Go, 4);
    ExecuteAppend(s, Alone(t, StartLock, Go, 4), Alone(u, PushCheck, Go, 4));
  }

  /** The first Start overtaken: no Stop ever gets past its first step. */
  lemma FirstStartCanJam(t: ThreadId, u: ThreadId, later: seq<Step>)
    requires t != u && Expire(0) !in later
    ensures var r := Execute(INITIAL, Overtaken(t, u, 4));
            r.Some? && (Execute(r.value, later).Some? ==>
              forall v :: v in Execute(r.value, later).value.threads && InStop(Execute(r.value, later).value.threads[v])
                ==> Execute(r.value, later).value.threads[v] == StopLock)
  {
    JamIff(INITIAL, t, u);
    var r := Execute(INITIAL, Overtaken(t, u, 4)).value;
    ExecuteKeeps(INITIAL, Overtaken(t, u, 4));
    if Execute(r, later).Some? {
      JamIsForever(r, t, u, later);
    }
  }

  /** Overtaken one step earlier, the push finds no context. */
  lemma NilContextHappens(t: ThreadId, u: ThreadId)
    requires t != u
    ensures var r := Execute(INITIAL, Overtaken(t, u, 3));
            r.Some? && u in r.value.threads && r.value.threads[u] == Panicked && NilContext in r.value.shared.faults
  {
    StartMarks(INITIAL.shared, t);
    AloneExecutes(INITIAL, t, StartLock, Go, 3);
    var m := Execute(INITIAL, Alone(t, StartLock, Go, 3)).value;
    PushReachesTheSelect(m.shared, u, Go);
    AloneExecutes(m, u, PushCheck, Go, 4);
    ExecuteAppend(INITIAL, Alone(t, StartLock, Go, 3), Alone(u, PushCheck, Go, 4));
  }
}
