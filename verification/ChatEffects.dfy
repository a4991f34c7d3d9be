/**
 What every run of the chat does: sends are tracked, missing messages are asked
 for, what was seen is acknowledged, clocks stay near the time, and nothing
 shown or written down is taken back.
 */
module ChatEffects {
  import opened GoTypes
  import opened Wrappers
  import opened ChatHistory
  import opened RollingBloom
  import opened ChatNode
  import opened ChatOutgoing
  import opened ChatDelivery
  import opened ChatReceive
  import opened ChatSystem
  import opened ChatProvenance

  // ---------- nothing is taken back ----------

  lemma StepExtends(hash: Hash, w: World, a: Action, now: int, i: nat)
    requires Enabled(w, a, now) && i < |w.nodes|
    ensures Extends(w.nodes[i], Next(hash, w, a, now).nodes[i])
  {
    if a.Receive? && i == a.node {
      ReceivedGoes(hash, w.nodes[i], a.msg, a.fetch, w.created.All());
    }
  }

  /** Whatever a node has shown, let in or written down stays, in its place. */
  lemma {:induction false} NothingTakenBack(hash: Hash, worlds: seq<World>, steps: seq<Timed>, j: nat, k: nat, i: nat)
    requires IsRun(hash, worlds, steps) && j <= k < |worlds| && i < |worlds[j].nodes|
    ensures |worlds[k].nodes| == |worlds[j].nodes| && Extends(worlds[j].nodes[i], worlds[k].nodes[i])
    decreases k - j
  {
    if j < k {
      NothingTakenBack(hash, worlds, steps, j, k - 1, i);
      assert IsStep(hash, worlds[k - 1], steps[k - 1], worlds[k]);
      StepExtends(hash, worlds[k - 1], steps[k - 1].action, steps[k - 1].now, i);
    }
  }

  lemma TimesPrefix(a: seq<Event>, b: seq<Event>, id: Id)
    requires a <= b
    ensures Times(a, id) <= Times(b, id)
  {
    assert b == a + b[|a|..];
    TimesAppend(a, b[|a|..], id);
  }

  // ---------- sending ----------

  /**
   Every chat message that is built is put into its sender's outgoing buffer
   and accounted for ever after; the sender shows it exactly when it was
   published, and lets it in.
   */
  lemma SendIsTracked(hash: Hash, worlds: seq<World>, steps: seq<Timed>, j: nat, k: nat, m: Message)
    requires IsRun(hash, worlds, steps) && j < k < |worlds|
    requires Builds(worlds[j], steps[j], m) && steps[j].action.Send?
    ensures var i := steps[j].action.node;
            && i < |worlds[j + 1].nodes| && i < |worlds[k].nodes|
            && Unack(m, steps[j].now, 0) in worlds[j + 1].nodes[i].outgoing
            && Times(worlds[k].nodes[i].journal, m.id) != []
            && (steps[j].action.outcome.Published? ==> m in worlds[k].nodes[i].displayed)
            && (!steps[j].action.outcome.Published? ==>
                  worlds[j + 1].nodes[i].displayed == worlds[j].nodes[i].displayed)
  {
    var a, i := steps[j].action, steps[j].action.node;
    assert IsStep(hash, worlds[j], steps[j], worlds[j + 1]);
    var n, r := worlds[j].nodes[i], worlds[j + 1].nodes[i];
    TimesAppend(n.journal, [Queued(a.id, steps[j].now)], m.id);
    assert [Queued(a.id, steps[j].now)][..0] == [];
    NothingTakenBack(hash, worlds, steps, j + 1, k, i);
    TimesPrefix(r.journal, worlds[k].nodes[i].journal, m.id);
    if a.outcome.Published? {
      assert r.displayed[|n.displayed|] == m;
      assert worlds[k].nodes[i].displayed[|n.displayed|] == m;
    }
  }

  /**
   Every attempt to send moves the clock as far as it goes, also one that
   fails, and a message that is built carries the clock.
   */
  lemma SendMovesClock(hash: Hash, worlds: seq<World>, steps: seq<Timed>, j: nat, m: Message)
    requires IsRun(hash, worlds, steps) && j < |steps| && steps[j].action.Send?
    ensures var i := steps[j].action.node;
            && i < |worlds[j].nodes| && i < |worlds[j + 1].nodes|
            && (worlds[j + 1].nodes[i].clock > worlds[j].nodes[i].clock <==> worlds[j].nodes[i].clock != MAX_INT32)
            && worlds[j + 1].nodes[i].clock >= Wrap32(steps[j].now / SECOND)
            && (Builds(worlds[j], steps[j], m) ==> m.ts == worlds[j + 1].nodes[i].clock)
  {
    assert IsStep(hash, worlds[j], steps[j], worlds[j + 1]);
    IncrementIsStrict(worlds[j].nodes[steps[j].action.node].clock, steps[j].now);
  }

  // ---------- fetching ----------

  /**
   In every run, a receive asks for each dependency that the history lacks, and
   unless no attempt was answered, the dependency is known when it ends.
   */
  lemma DependenciesRequested(hash: Hash, worlds: seq<World>, steps: seq<Timed>, k: nat, d: Id) returns (q: nat)
    requires IsRun(hash, worlds, steps) && k < |steps| && steps[k].action.Receive?
    requires steps[k].action.node < |worlds[k].nodes|
    requires var n, m := worlds[k].nodes[steps[k].action.node], steps[k].action.msg;
             !Tests(hash, n.filter, m.id) && d in m.causal && !HasId(n.history, d)
    ensures var i, fetch := steps[k].action.node, steps[k].action.fetch;
            && i < |worlds[k + 1].nodes|
            && worlds[k].nodes[i].requests <= q < worlds[k + 1].nodes[i].requests
            && ((forall t :: 0 <= t < MAX_RETRIES ==> fetch.answer(q, d, t).None?)
                || Tests(hash, worlds[k + 1].nodes[i].filter, d))
  {
    var w, a := worlds[k], steps[k].action;
    assert IsStep(hash, w, steps[k], worlds[k + 1]);
    q := MissingAreFetched(hash, w.nodes[a.node], a.msg, d, a.fetch, w.created.All());
    var answer := Answer(a.fetch, q, d, 0);
    if answer.Some? {
      assert Tests(hash, worlds[k + 1].nodes[a.node].filter, answer.value.id);
    }
  }

  // ---------- acknowledging ----------

  /** What a message says: it names the ten newest messages of the history and carries the whole filter. */
  lemma BuiltFromNode(w: World, t: Timed, m: Message)
    requires Builds(w, t, m)
    ensures var n := w.nodes[t.action.node];
            && m.bloom == Bits(n.filter.bits)
            && m.sender == w.names[t.action.node]
            && |m.causal| == (if |n.history| < 10 then |n.history| else 10)
            && forall i :: 0 <= i < |m.causal| ==> m.causal[i] == n.history[|n.history| - 1 - i].id
  {
    var n := w.nodes[t.action.node];
    RecentAt(n.history, CAUSAL_LENGTH, 0);
    forall i | 0 <= i < |m.causal| ensures m.causal[i] == n.history[|n.history| - 1 - i].id {
      RecentAt(n.history, CAUSAL_LENGTH, i);
    }
  }

  /** A message acknowledges everything that its builder let in less than a bloom window before. */
  lemma BuiltAcknowledges(hash: Hash, worlds: seq<World>, steps: seq<Timed>, j: nat, m: Message, a: Arrival)
    requires IsRun(hash, worlds, steps) && j < |steps| && Builds(worlds[j], steps[j], m)
    requires a in worlds[j].nodes[steps[j].action.node].intake && worlds[j].now - a.time < WINDOW
    ensures Acknowledges(hash, m, a.msg.id)
  {
    RunKeeps(hash, worlds, steps, j, false);
    var n := worlds[j].nodes[steps[j].action.node];
    assert Inv(hash, n, [], worlds[j].created, worlds[j].now, false);
    var e := Stamp(a.msg.id, a.time);
    assert e in n.filter.messages;
    BitsOfMember(hash, n.filter.messages, e);
    BuiltFromNode(worlds[j], steps[j], m);
  }

  /**
   From end to end: a node that lets in a message drops every entry of its
   outgoing buffer that the builder of the message had let in less than a bloom
   window before building it.
   */
  lemma SeenIsAcknowledged(hash: Hash, worlds: seq<World>, steps: seq<Timed>, j: nat, k: nat, a: Arrival, u: Unack)
    requires IsRun(hash, worlds, steps) && j < |steps| && k < |steps| && steps[k].action.Receive?
    requires Builds(worlds[j], steps[j], steps[k].action.msg)
    requires a in worlds[j].nodes[steps[j].action.node].intake && worlds[j].now - a.time < WINDOW
    requires steps[k].action.node < |worlds[k].nodes| && steps[k].action.node < |worlds[k + 1].nodes|
    requires !Tests(hash, worlds[k].nodes[steps[k].action.node].filter, steps[k].action.msg.id)
    requires u in worlds[k + 1].nodes[steps[k].action.node].outgoing
    ensures u.msg.id != a.msg.id
  {
    var w, r := worlds[k], steps[k].action;
    assert IsStep(hash, w, steps[k], worlds[k + 1]);
    RunKeeps(hash, worlds, steps, k, false);
    var n := w.nodes[r.node];
    assert Inv(hash, n, [], w.created, w.now, false);
    ReceivedFewer(hash, n, r.msg, r.fetch, w.created.All());
    BuiltAcknowledges(hash, worlds, steps, j, r.msg, a);
  }

  // ---------- clocks ----------

  function Sends(steps: seq<Timed>): nat {
    if steps == [] then 0
    else Sends(steps[..|steps| - 1]) + if steps[|steps| - 1].action.Send? then 1 else 0
  }

  /** No clock and no timestamp is past this. */
  ghost predicate Within(w: World, bound: int) {
    && (forall i :: 0 <= i < |w.nodes| ==> w.nodes[i].clock <= bound)
    && (forall m :: m in w.created.All() ==> m.ts <= bound)
  }

  lemma IncrementWithin(clock: Int32, now: int, bound: int)
    requires now >= 0 && clock <= bound && now / SECOND <= bound
    ensures Incremented(clock, now) <= bound + 1
  {
    assert now / SECOND >= 0;
    assert Wrap32(now / SECOND) <= now / SECOND;
  }

  lemma ReceiveWithin(hash: Hash, w: World, a: Action, now: int, bound: int)
    requires WorldInv(hash, w, false) && Enabled(w, a, now) && a.Receive? && Within(w, bound)
    ensures Received(hash, w.nodes[a.node], a.msg, a.fetch, w.created.All()).clock <= bound
  {
    var n := w.nodes[a.node];
    var r := Received(hash, n, a.msg, a.fetch, w.created.All());
    ReceivedGoes(hash, n, a.msg, a.fetch, w.created.All());
    ChangedInv(hash, w, a, now, false);
    if r.clock != n.clock {
      var i :| |n.intake| <= i < |r.intake| && r.intake[i].msg.ts == r.clock;
      assert r.intake[i] in r.intake;
    }
  }

  /** The clock of the acting node after a step, and the message it may have built. */
  lemma ActorWithin(hash: Hash, w: World, a: Action, now: int, bound: int)
    requires WorldInv(hash, w, false) && Enabled(w, a, now) && 0 <= now && Within(w, bound) && now / SECOND <= bound
    ensures Changed(hash, w, a, now).clock <= bound + if a.Send? then 1 else 0
  {
    if a.Send? {
      IncrementWithin(w.nodes[a.node].clock, now, bound);
    } else if a.Receive? {
      ReceiveWithin(hash, w, a, now, bound);
    }
  }

  lemma BuiltWithin(w: World, a: Action, now: int, bound: int, m: Message)
    requires Enabled(w, a, now) && 0 <= now && Within(w, bound) && now / SECOND <= bound && m in Create(w, a, now).All()
    ensures m.ts <= bound + if a.Send? then 1 else 0
  {
    if a.Send? {
      IncrementWithin(w.nodes[a.node].clock, now, bound);
    }
  }

  lemma StepWithin(hash: Hash, w: World, t: Timed, next: World, bound: int)
    requires WorldInv(hash, w, false) && IsStep(hash, w, t, next)
    requires 0 <= t.now && Within(w, bound) && t.now / SECOND <= bound
    ensures Within(next, bound + if t.action.Send? then 1 else 0)
  {
    ActorWithin(hash, w, t.action, t.now, bound);
    forall m | m in next.created.All() ensures m.ts <= bound + if t.action.Send? then 1 else 0 {
      BuiltWithin(w, t.action, t.now, bound, m);
    }
  }

  lemma Later(a: int, b: int)
    requires 0 <= a <= b
    ensures a / SECOND <= b / SECOND
  {
  }

  lemma SendsSnoc(steps: seq<Timed>, k: nat)
    requires k < |steps|
    ensures Sends(steps[..k + 1]) == Sends(steps[..k]) + if steps[k].action.Send? then 1 else 0
  {
    assert steps[..k + 1][..k] == steps[..k];
  }

  /** The bound moves with the time and with every send. */
  ghost predicate NearTime(w: World, sends: nat) {
    0 <= w.now && Within(w, w.now / SECOND + sends)
  }

  lemma StepNearTime(hash: Hash, w: World, t: Timed, next: World, sends: nat)
    requires WorldInv(hash, w, false) && IsStep(hash, w, t, next) && NearTime(w, sends)
    ensures NearTime(next, sends + if t.action.Send? then 1 else 0)
  {
    Later(w.now, t.now);
    WithinMore(w, w.now / SECOND + sends, t.now / SECOND + sends);
    StepWithin(hash, w, t, next, t.now / SECOND + sends);
  }

  /** In every run no clock and no timestamp is ahead of the time by more than the number of sends so far. */
  lemma {:induction false} ClocksNearTime(hash: Hash, worlds: seq<World>, steps: seq<Timed>, k: nat)
    requires IsRun(hash, worlds, steps) && k < |worlds| && 0 <= worlds[0].now
    ensures NearTime(worlds[k], Sends(steps[..k]))
  {
    if k > 0 {
      ClocksNearTime(hash, worlds, steps, k - 1);
      RunKeeps(hash, worlds, steps, k - 1, false);
      assert IsStep(hash, worlds[k - 1], steps[k - 1], worlds[k]);
      StepNearTime(hash, worlds[k - 1], steps[k - 1], worlds[k], Sends(steps[..k - 1]));
      SendsSnoc(steps, k - 1);
    } else {
      FirstNearTime(worlds[0]);
    }
  }

  lemma FirstNearTime(w: World)
    requires Initial(w) && 0 <= w.now
    ensures NearTime(w, 0)
  {
    Later(0, w.now);
  }

  lemma WithinMore(w: World, bound: int, more: int)
    requires Within(w, bound) && bound <= more
    ensures Within(w, more)
  {
  }
}
