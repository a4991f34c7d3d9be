/**
 Start, Stop and PushToChan of a discovery service as interleaved steps
 (waku/v2/service/common_discovery_service.go and common_service.go). Any
 number of calls run at once; each step of the model is one access to shared
 state. Every Start makes a new channel, and the `started` check of a push
 takes no lock.
 */
module DiscoveryService {
  import opened Wrappers

  type ThreadId = nat

  /** Where a call is: what it does in its next step. */
  datatype Pc =
    // Start
    | StartLock | StartCheck | StartMark | StartContext | StartChanLock | StartMake | StartOpenFlag
    | StartChanUnlock | StartRun | StartUnmark | StartCancel | StartUnlock
    // Stop
    | StopLock | StopCheck | StopCancel | StopWait | StopChanLock | StopClose | StopClosedFlag
    | StopChanUnlock | StopUnmark | StopUnlock
    // PushToChan
    | PushCheck | PushChanLock | PushClosedCheck | PushEvaluate | PushSelect(channel: Option<nat>, context: nat)
    | PushChanUnlock(sent: bool)
    // the end of a call; the result is that of a push
    | Returned(result: bool)
    | Panicked

  /** A value sent, and whether the channel was open at that moment. */
  datatype Sent = Sent(thread: ThreadId, channel: nat, wasOpen: bool)

  datatype Fault = SendOnClosed | CloseOfClosed | CloseOfNil | NilContext

  /**
   What the calls share. Channels and contexts are numbered in the order of
   their creation; `sends` and `faults` record what happened.
   */
  datatype Shared = Shared(
    started: bool, channel: Option<nat>, closedFlag: bool, context: Option<nat>,
    isOpen: seq<bool>, cancelled: seq<bool>,
    serviceLock: Option<ThreadId>, channelLock: Option<ThreadId>,
    sends: set<Sent>, faults: set<Fault>)

  /** What the scheduler and the environment decide in a step. */
  datatype Choice = Go | FnFails | CanSend | ContextDone

  datatype Outcome = Blocked | Moved(shared: Shared, pc: Pc)

  predicate ChannelIsOpen(s: Shared, c: Option<nat>) {
    c.Some? && c.value < |s.isOpen| && s.isOpen[c.value]
  }

  // ---------- the steps ----------

  function StartStep(s: Shared, t: ThreadId, pc: Pc, choice: Choice): Outcome {
    match pc
    case StartLock => if s.serviceLock.None? then Moved(s.(serviceLock := Some(t)), StartCheck) else Blocked
    case StartCheck => Moved(s, if s.started then StartUnlock else StartMark)
    case StartMark => Moved(s.(started := true), StartContext)
    case StartContext =>
      Moved(s.(context := Some(|s.cancelled|), cancelled := s.cancelled + [false]), StartChanLock)
    case StartChanLock => if s.channelLock.None? then Moved(s.(channelLock := Some(t)), StartMake) else Blocked
    case StartMake => Moved(s.(channel := Some(|s.isOpen|), isOpen := s.isOpen + [true]), StartOpenFlag)
    case StartOpenFlag => Moved(s.(closedFlag := false), StartChanUnlock)
    case StartChanUnlock => Moved(s.(channelLock := None), StartRun)
    case StartRun => Moved(s, if choice.FnFails? then StartUnmark else StartUnlock)
    case StartUnmark => Moved(s.(started := false), StartCancel)
    case StartCancel => Moved(Cancelled(s), StartUnlock)
    case StartUnlock => Moved(s.(serviceLock := None), Returned(false))
    case _ => Blocked
  }

  function StopStep(s: Shared, t: ThreadId, pc: Pc): Outcome {
    match pc
    case StopLock => if s.serviceLock.None? then Moved(s.(serviceLock := Some(t)), StopCheck) else Blocked
    case StopCheck => Moved(s, if s.started then StopCancel else StopUnlock)
    case StopCancel => Moved(Cancelled(s), StopWait)
    case StopWait => Moved(s, StopChanLock)
    case StopChanLock => if s.channelLock.None? then Moved(s.(channelLock := Some(t)), StopClose) else Blocked
    case StopClose => Moved(Closed(s), StopClosedFlag)
    case StopClosedFlag => Moved(s.(closedFlag := true), StopChanUnlock)
    case StopChanUnlock => Moved(s.(channelLock := None), StopUnmark)
    case StopUnmark => Moved(s.(started := false), StopUnlock)
    case StopUnlock => Moved(s.(serviceLock := None), Returned(false))
    case _ => Blocked
  }

  function PushStep(s: Shared, t: ThreadId, pc: Pc, choice: Choice): Outcome {
    match pc
    case PushCheck => Moved(s, if s.started then PushChanLock else Returned(false))
    case PushChanLock => if s.channelLock.None? then Moved(s.(channelLock := Some(t)), PushClosedCheck) else Blocked
    case PushClosedCheck => Moved(s, if s.closedFlag then PushChanUnlock(false) else PushEvaluate)
    case PushEvaluate =>
      if s.context.None? then Moved(s.(channelLock := None, faults := s.faults + {NilContext}), Panicked)
      else Moved(s, PushSelect(s.channel, s.context.value))
    case PushSelect(c, x) =>
      if choice.CanSend? && c.Some? then SentOn(s, t, c.value)
      else if choice.ContextDone? && x < |s.cancelled| && s.cancelled[x] then Moved(s, PushChanUnlock(false))
      else Blocked
    case PushChanUnlock(sent) => Moved(s.(channelLock := None), Returned(sent))
    case _ => Blocked
  }

  function Cancelled(s: Shared): Shared {
    if s.context.Some? && s.context.value < |s.cancelled|
    then s.(cancelled := s.cancelled[s.context.value := true])
    else s
  }

  /** Closing faults on a nil or closed channel. */
  function Closed(s: Shared): Shared {
    if s.channel.None? then s.(faults := s.faults + {CloseOfNil})
    else if !ChannelIsOpen(s, s.channel) then s.(faults := s.faults + {CloseOfClosed})
    else s.(isOpen := s.isOpen[s.channel.value := false])
  }

  /** A send takes place, or panics when the channel is closed. */
  function SentOn(s: Shared, t: ThreadId, c: nat): Outcome {
    if ChannelIsOpen(s, Some(c)) then Moved(s.(sends := s.sends + {Sent(t, c, true)}), PushChanUnlock(true))
    else
      var after := s.(faults := s.faults + {SendOnClosed}, sends := s.sends + {Sent(t, c, false)});
      Moved(after.(channelLock := None), Panicked)
  }

  function Advance(s: Shared, t: ThreadId, pc: Pc, choice: Choice): Outcome {
    var a := StartStep(s, t, pc, choice);
    var b := StopStep(s, t, pc);
    if a.Moved? then a else if b.Moved? then b else PushStep(s, t, pc, choice)
  }

  // ---------- the invariant ----------

  predicate HoldsService(pc: Pc) {
    match pc
    case StartCheck | StartMark | StartContext | StartChanLock | StartMake | StartOpenFlag
       | StartChanUnlock | StartRun | StartUnmark | StartCancel | StartUnlock
       | StopCheck | StopCancel | StopWait | StopChanLock | StopClose | StopClosedFlag
       | StopChanUnlock | StopUnmark | StopUnlock => true
    case _ => false
  }

  predicate HoldsChannel(pc: Pc) {
    match pc
    case StartMake | StartOpenFlag | StartChanUnlock | StopClose | StopClosedFlag | StopChanUnlock
       | PushClosedCheck | PushEvaluate | PushSelect(_, _) | PushChanUnlock(_) => true
    case _ => false
  }

  /** Started, with an open channel that the flag does not call closed. */
  predicate Running(s: Shared) {
    s.started && ChannelIsOpen(s, s.channel) && !s.closedFlag && s.context.Some?
  }

  /** The latest context, if there is one, is cancelled. */
  predicate Ended(s: Shared) {
    s.context.Some? ==> s.context.value < |s.cancelled| && s.cancelled[s.context.value]
  }

  predicate Quiet(s: Shared) {
    if s.started then Running(s) else Ended(s)
  }

  /** What a call inside the service lock knows. */
  predicate ServiceFact(s: Shared, pc: Pc) {
    match pc
    case StartCheck | StartUnlock | StopCheck => Quiet(s)
    case StartMark | StopUnlock => !s.started && Ended(s)
    case StartCancel => !s.started
    case StartContext => s.started && Ended(s)
    case StartChanLock | StartMake => s.started && s.context.Some?
    case StartOpenFlag => s.started && s.context.Some? && ChannelIsOpen(s, s.channel)
    case StartChanUnlock | StartRun | StartUnmark | StopCancel => Running(s)
    case StopWait | StopChanLock | StopClose => Running(s) && Ended(s)
    case StopClosedFlag | StopChanUnlock | StopUnmark => s.started && s.context.Some? && Ended(s)
    case _ => true
  }

  /** The flag is right about a closed channel. */
  predicate FlagTells(s: Shared) {
    s.channel.Some? && !ChannelIsOpen(s, s.channel) ==> s.closedFlag
  }

  /** What a call inside the channel lock knows. */
  predicate ChannelFact(s: Shared, pc: Pc) {
    match pc
    case StopClosedFlag => true
    case PushEvaluate => FlagTells(s) && !s.closedFlag
    case PushSelect(c, _) => FlagTells(s) && !s.closedFlag && c == s.channel
    case _ => HoldsChannel(pc) ==> FlagTells(s)
  }

  /**
   A push that got past its check while there was no context did so during the
   first Start; one that waits to send watches the latest context or a cancelled one.
   */
  predicate ContextFact(s: Shared, pc: Pc) {
    match pc
    case PushChanLock | PushClosedCheck | PushEvaluate => s.context.None? ==> s.started
    case PushSelect(_, x) => x < |s.cancelled| && (s.context == Some(x) || s.cancelled[x])
    case _ => true
  }

  ghost predicate SomethingSent(s: Shared, t: ThreadId) {
    exists c :: Sent(t, c, true) in s.sends
  }

  /** A call has sent something exactly when it is going to say so, or has said so. */
  ghost predicate ResultFact(s: Shared, t: ThreadId, pc: Pc) {
    SomethingSent(s, t) <==> pc == PushChanUnlock(true) || pc == Returned(true)
  }

  /** A call holds a lock exactly where it should. */
  predicate Holds(s: Shared, t: ThreadId, pc: Pc) {
    (HoldsService(pc) <==> s.serviceLock == Some(t)) && (HoldsChannel(pc) <==> s.channelLock == Some(t))
  }

  predicate Facts(s: Shared, pc: Pc) {
    ServiceFact(s, pc) && ChannelFact(s, pc) && ContextFact(s, pc)
  }

  ghost predicate ThreadInv(s: Shared, t: ThreadId, pc: Pc) {
    Holds(s, t, pc) && Facts(s, pc) && ResultFact(s, t, pc)
  }

  ghost predicate Global(s: Shared) {
    && (s.serviceLock.None? ==> Quiet(s))
    && (s.channelLock.None? ==> FlagTells(s))
    && (s.channel.Some? ==> s.channel.value < |s.isOpen|)
    && (s.context.Some? ==> s.context.value < |s.cancelled|)
    && (forall x :: x in s.sends ==> x.wasOpen)
    && s.faults <= {NilContext}
  }

  // A step keeps the facts of the call that takes it ...

  lemma StartGlobal(s: Shared, t: ThreadId, pc: Pc, choice: Choice)
    requires Global(s) && ThreadInv(s, t, pc) && StartStep(s, t, pc, choice).Moved?
    ensures Global(StartStep(s, t, pc, choice).shared)
  {
  }

  lemma StartLocks(s: Shared, t: ThreadId, pc: Pc, choice: Choice)
    requires Global(s) && Holds(s, t, pc) && Facts(s, pc) && StartStep(s, t, pc, choice).Moved?
    ensures var n := StartStep(s, t, pc, choice); Holds(n.shared, t, n.pc)
  {
  }

  lemma StartFacts(s: Shared, t: ThreadId, pc: Pc, choice: Choice)
    requires Global(s) && Holds(s, t, pc) && Facts(s, pc) && StartStep(s, t, pc, choice).Moved?
    ensures var n := StartStep(s, t, pc, choice); Facts(n.shared, n.pc)
  {
  }

  lemma StopGlobal(s: Shared, t: ThreadId, pc: Pc)
    requires Global(s) && ThreadInv(s, t, pc) && StopStep(s, t, pc).Moved?
    ensures Global(StopStep(s, t, pc).shared)
  {
  }

  lemma StopLocks(s: Shared, t: ThreadId, pc: Pc)
    requires Global(s) && Holds(s, t, pc) && Facts(s, pc) && StopStep(s, t, pc).Moved?
    ensures var n := StopStep(s, t, pc); Holds(n.shared, t, n.pc)
  {
  }

  lemma StopFacts(s: Shared, t: ThreadId, pc: Pc)
    requires Global(s) && Holds(s, t, pc) && Facts(s, pc) && StopStep(s, t, pc).Moved?
    ensures var n := StopStep(s, t, pc); Facts(n.shared, n.pc)
  {
  }

  lemma PushGlobal(s: Shared, t: ThreadId, pc: Pc, choice: Choice)
    requires Global(s) && ThreadInv(s, t, pc) && PushStep(s, t, pc, choice).Moved?
    ensures Global(PushStep(s, t, pc, choice).shared)
  {
  }

  lemma PushLocks(s: Shared, t: ThreadId, pc: Pc, choice: Choice)
    requires Global(s) && Holds(s, t, pc) && Facts(s, pc) && PushStep(s, t, pc, choice).Moved?
    ensures var n := PushStep(s, t, pc, choice); Holds(n.shared, t, n.pc)
  {
  }

  lemma PushFacts(s: Shared, t: ThreadId, pc: Pc, choice: Choice)
    requires Global(s) && Holds(s, t, pc) && Facts(s, pc) && PushStep(s, t, pc, choice).Moved?
    ensures var n := PushStep(s, t, pc, choice); Facts(n.shared, n.pc)
  {
  }

  lemma StartResult(s: Shared, t: ThreadId, pc: Pc, choice: Choice)
    requires ResultFact(s, t, pc) && StartStep(s, t, pc, choice).Moved?
    ensures var n := StartStep(s, t, pc, choice); ResultFact(n.shared, t, n.pc)
  {
    assert StartStep(s, t, pc, choice).shared.sends == s.sends;
  }

  lemma StopResult(s: Shared, t: ThreadId, pc: Pc)
    requires ResultFact(s, t, pc) && StopStep(s, t, pc).Moved?
    ensures var n := StopStep(s, t, pc); ResultFact(n.shared, t, n.pc)
  {
    assert StopStep(s, t, pc).shared.sends == s.sends;
  }

  lemma PushResult(s: Shared, t: ThreadId, pc: Pc, choice: Choice)
    requires Global(s) && ThreadInv(s, t, pc) && PushStep(s, t, pc, choice).Moved?
    ensures var n := PushStep(s, t, pc, choice); ResultFact(n.shared, t, n.pc)
  {
    var n := PushStep(s, t, pc, choice);
    if pc.PushSelect? && choice.CanSend? && pc.channel.Some? {
      var x := Sent(t, pc.channel.value, true);
      assert ChannelIsOpen(s, pc.channel);
      assert x in n.shared.sends;
    } else {
      assert n.shared.sends == s.sends;
    }
  }

  // ... and of every other call.

  lemma StartOther(s: Shared, t: ThreadId, pc: Pc, choice: Choice, u: ThreadId, other: Pc)
    requires Global(s) && ThreadInv(s, t, pc) && StartStep(s, t, pc, choice).Moved?
    requires u != t && ThreadInv(s, u, other)
    ensures ThreadInv(StartStep(s, t, pc, choice).shared, u, other)
  {
  }

  lemma StopOther(s: Shared, t: ThreadId, pc: Pc, u: ThreadId, other: Pc)
    requires Global(s) && ThreadInv(s, t, pc) && StopStep(s, t, pc).Moved?
    requires u != t && ThreadInv(s, u, other)
    ensures ThreadInv(StopStep(s, t, pc).shared, u, other)
  {
  }

  lemma PushOther(s: Shared, t: ThreadId, pc: Pc, choice: Choice, u: ThreadId, other: Pc)
    requires Global(s) && ThreadInv(s, t, pc) && PushStep(s, t, pc, choice).Moved?
    requires u != t && ThreadInv(s, u, other)
    ensures ThreadInv(PushStep(s, t, pc, choice).shared, u, other)
  {
  }
}
