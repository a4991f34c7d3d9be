/**
 Any number of chat nodes and all the messages they ever built. The network may
 deliver any built message to any node, any number of times, in any order, or
 never; peers answer requests from their histories.
 */
module ChatSystem {
  import opened GoTypes
  import opened ChatHistory
  import opened RollingBloom
  import opened ChatNode
  import opened ChatOutgoing
  import opened ChatDelivery

  /** Nodes with their peer ids. */
  datatype World = World(nodes: seq<Node>, names: seq<Bytes>, created: Created, now: int)

  datatype Action =
    | Send(node: nat, sender: Bytes, id: Id, line: Bytes, outcome: Outcome)
    | Sync(node: nat, sender: Bytes, id: Id)
    | Receive(node: nat, msg: Message, fetch: Fetch)
    | Sweep(node: nat)
    | Tick(node: nat)
    | Clean(node: nat)

  ghost predicate FreshId(w: Created, id: Id) {
    forall m :: m in w.All() ==> m.id != id
  }

  /** Another node has this message in its history. */
  ghost predicate PeerHas(w: World, node: nat, m: Message) {
    exists j :: 0 <= j < |w.nodes| && j != node && m in w.nodes[j].history
  }

  ghost predicate HonestPeers(w: World, node: nat, fetch: Fetch) {
    forall r, id, k :: fetch.answer(r, id, k).Some? ==>
      fetch.answer(r, id, k).value.id == id && PeerHas(w, node, fetch.answer(r, id, k).value)
  }

  ghost predicate Enabled(w: World, a: Action, now: int) {
    && w.now <= now
    && a.node < |w.nodes| == |w.names|
    && (a.Send? || a.Sync? ==> FreshId(w.created, a.id) && a.sender == w.names[a.node])
    && (a.Receive? ==>
          && a.msg in w.created.All() && HonestPeers(w, a.node, a.fetch) && AnswersIn(a.fetch, w.created.All())
          && Timely(a.fetch, w.nodes[a.node].requests, w.now, now))
  }

  ghost function Create(w: World, a: Action, now: int): Created
    requires Enabled(w, a, now)
  {
    var n := w.nodes[a.node];
    match a
    case Send(_, sender, id, line, outcome) =>
      if outcome.MarshalFailed? then w.created
      else w.created.(chats := w.created.chats + {ChatMessage(n, sender, id, now, line)})
    case Sync(_, sender, id) => w.created.(syncs := w.created.syncs + {SyncMessage(n, sender, id)})
    case _ => w.created
  }

  ghost function Changed(hash: Hash, w: World, a: Action, now: int): Node
    requires Enabled(w, a, now)
  {
    var n := w.nodes[a.node];
    match a
    case Send(_, sender, id, line, outcome) => Sent(hash, n, sender, id, now, line, outcome)
    case Sync(_, _, _) => n
    case Receive(_, msg, fetch) => Received(hash, n, msg, fetch, w.created.All())
    case Sweep(_) => Swept(n)
    case Tick(_) => Ticked(n, now)
    case Clean(_) => n.(filter := Cleaned(hash, n.filter, now))
  }

  ghost function Next(hash: Hash, w: World, a: Action, now: int): World
    requires Enabled(w, a, now)
  {
    World(w.nodes[a.node := Changed(hash, w, a, now)], w.names, Create(w, a, now), now)
  }

  datatype Timed = Timed(action: Action, now: int)

  ghost predicate Initial(w: World) {
    && w.created == Created({}, {})
    && (forall i :: 0 <= i < |w.nodes| ==> w.nodes[i] == INITIAL)
    && |w.names| == |w.nodes|
    && (forall i, j :: 0 <= i < j < |w.names| ==> w.names[i] != w.names[j])
  }

  ghost predicate IsStep(hash: Hash, w: World, t: Timed, w': World) {
    Enabled(w, t.action, t.now) && w' == Next(hash, w, t.action, t.now)
  }

  /** A run: worlds linked by steps, from a world in which nothing has happened. */
  ghost predicate IsRun(hash: Hash, worlds: seq<World>, steps: seq<Timed>) {
    && |worlds| == |steps| + 1
    && Initial(worlds[0])
    && forall k :: 0 <= k < |steps| ==> IsStep(hash, worlds[k], steps[k], worlds[k + 1])
  }

  /** No clock is at its 32-bit maximum when its node sends. */
  ghost predicate NoOverflow(worlds: seq<World>, steps: seq<Timed>)
    requires |worlds| == |steps| + 1
  {
    forall k :: 0 <= k < |steps| && steps[k].action.Send? && steps[k].action.node < |worlds[k].nodes|
            ==> worlds[k].nodes[steps[k].action.node].clock != MAX_INT32
  }

  // ---------- invariants of the message set ----------

  ghost predicate UniqueIds(w: Created) {
    forall x, y :: x in w.All() && y in w.All() && x.id == y.id ==> x == y
  }

  /** Dependencies are chat messages, with smaller timestamps when no clock overflowed. */
  ghost predicate Grounded(w: Created, m: Message, strict: bool, safe: bool) {
    forall d :: d in m.causal ==>
      exists x :: x in w.chats && x.id == d && (safe ==> if strict then x.ts < m.ts else x.ts <= m.ts)
  }

  ghost predicate Lamport(w: Created, safe: bool) {
    && (forall m :: m in w.chats ==> Grounded(w, m, true, safe))
    && (forall m :: m in w.syncs ==> Grounded(w, m, false, safe))
  }

  ghost predicate WorldInv(hash: Hash, w: World, safe: bool) {
    && CreatedInv(w.created, safe)
    && forall i :: 0 <= i < |w.nodes| ==> Inv(hash, w.nodes[i], [], w.created, w.now, safe)
  }

  lemma {:induction false} RecentMember(history: seq<Message>, n: nat, d: Id) returns (m: Message)
    requires d in Recent(history, n)
    ensures m in history && m.id == d
  {
    var last := history[|history| - 1];
    if d == last.id {
      m := last;
    } else {
      m := RecentMember(history[..|history| - 1], n - 1, d);
    }
  }

  /** Causal history comes from the history, whose messages the clock has caught up with. */
  lemma NewMessageGrounded(hash: Hash, n: Node, w: Created, now: int, safe: bool, m: Message, strict: bool)
    requires Inv(hash, n, [], w, now, safe) && m.causal == Recent(n.history, CAUSAL_LENGTH)
    requires safe ==> if strict then n.clock < m.ts else n.clock <= m.ts
    ensures Grounded(w, m, strict, safe)
  {
    forall d | d in m.causal
      ensures exists x :: x in w.chats && x.id == d && (safe ==> if strict then x.ts < m.ts else x.ts <= m.ts)
    {
      var x := RecentMember(n.history, CAUSAL_LENGTH, d);
      HistoryShown(n.displayed, x);
      assert x in w.chats;
    }
  }

  lemma GroundedMonotone(w: Created, w': Created, m: Message, strict: bool, safe: bool)
    requires Grounded(w, m, strict, safe) && w.chats <= w'.chats
    ensures Grounded(w', m, strict, safe)
  {
    forall d | d in m.causal
      ensures exists x :: x in w'.chats && x.id == d && (safe ==> if strict then x.ts < m.ts else x.ts <= m.ts)
    {
      var x :| x in w.chats && x.id == d && (safe ==> if strict then x.ts < m.ts else x.ts <= m.ts);
      assert x in w'.chats;
    }
  }

  lemma LamportMonotone(c: Created, c': Created, safe: bool)
    requires Lamport(c, safe) && c.chats <= c'.chats
    requires forall m :: m in c'.chats && m !in c.chats ==> Grounded(c, m, true, safe)
    requires forall m :: m in c'.syncs && m !in c.syncs ==> Grounded(c, m, false, safe)
    ensures Lamport(c', safe)
  {
    forall m | m in c'.chats ensures Grounded(c', m, true, safe) { GroundedMonotone(c, c', m, true, safe); }
    forall m | m in c'.syncs ensures Grounded(c', m, false, safe) { GroundedMonotone(c, c', m, false, safe); }
  }

  ghost predicate CreatedInv(c: Created, safe: bool) {
    UniqueIds(c) && Lamport(c, safe) && forall m :: m in c.syncs ==> m.content == []
  }

  lemma NewChat(c: Created, m: Message, safe: bool)
    requires CreatedInv(c, safe) && FreshId(c, m.id) && Grounded(c, m, true, safe)
    ensures CreatedInv(c.(chats := c.chats + {m}), safe)
  {
    LamportMonotone(c, c.(chats := c.chats + {m}), safe);
  }

  lemma NewSync(c: Created, m: Message, safe: bool)
    requires CreatedInv(c, safe) && FreshId(c, m.id) && Grounded(c, m, false, safe) && m.content == []
    ensures CreatedInv(c.(syncs := c.syncs + {m}), safe)
  {
    LamportMonotone(c, c.(syncs := c.syncs + {m}), safe);
  }

  lemma CreateKeeps(hash: Hash, w: World, a: Action, now: int, safe: bool)
    requires WorldInv(hash, w, safe) && Enabled(w, a, now)
    requires safe && a.Send? ==> w.nodes[a.node].clock != MAX_INT32
    ensures CreatedInv(Create(w, a, now), safe)
    ensures w.created.chats <= Create(w, a, now).chats && w.created.syncs <= Create(w, a, now).syncs
  {
    var c, n := w.created, w.nodes[a.node];
    assert Inv(hash, n, [], c, w.now, safe);
    if a.Send? {
      var m := ChatMessage(n, a.sender, a.id, now, a.line);
      IncrementIsStrict(n.clock, now);
      NewMessageGrounded(hash, n, c, w.now, safe, m, true);
      NewChat(c, m, safe);
    } else if a.Sync? {
      var m := SyncMessage(n, a.sender, a.id);
      NewMessageGrounded(hash, n, c, w.now, safe, m, false);
      NewSync(c, m, safe);
    }
  }

  /** Time passing and messages being built elsewhere do not disturb a node. */
  lemma InvMonotone(hash: Hash, n: Node, w: Created, w': Created, now: int, now': int, safe: bool)
    requires Inv(hash, n, [], w, now, safe) && now <= now'
    requires w.chats <= w'.chats && w.syncs <= w'.syncs && forall m :: m in w'.syncs ==> m.content == []
    ensures Inv(hash, n, [], w', now', safe)
  {
    forall id | Times(n.journal, id) != [] ensures IdCreated(w', id) {
      var m :| m in w.chats && m.id == id;
      assert m in w'.chats;
    }
  }

  lemma RecentShown(hash: Hash, n: Node, w: Created, now: int, safe: bool, d: Id)
    requires Inv(hash, n, [], w, now, safe) && d in Recent(n.history, CAUSAL_LENGTH)
    ensures HasId(n.displayed, d)
  {
    var x := RecentMember(n.history, CAUSAL_LENGTH, d);
    HistoryShown(n.displayed, x);
  }

  lemma SentLocal(hash: Hash, n: Node, sender: Bytes, id: Id, now: int, line: Bytes, w: Created, safe: bool)
    requires Inv(hash, n, [], w, now, safe)
    ensures Local(Sent(hash, n, sender, id, now, line, Published), [])
  {
    var m := ChatMessage(n, sender, id, now, line);
    forall d | d in m.causal ensures HasId(n.displayed, d) { RecentShown(hash, n, w, now, safe, d); }
    CausalSnoc(n.displayed, m);
    AddAllSnoc([], n.displayed, m);
    OwedSnoc(n.intake, Arrival(m, now, true));
  }

  lemma SentWindow(hash: Hash, n: Node, sender: Bytes, id: Id, now: int, line: Bytes, w: Created, safe: bool)
    requires Inv(hash, n, [], w, now, safe) && FreshId(w, id)
    ensures Window(hash, Sent(hash, n, sender, id, now, line, Published), now)
  {
    var m := ChatMessage(n, sender, id, now, line);
    AddedCoherent(hash, n.filter, id, now);
    var intake := n.intake + [Arrival(m, now, true)];
    forall i | 0 <= i < |n.intake| ensures n.intake[i].msg.id != id {
      assert n.intake[i] in n.intake;
    }
    assert Spaced(intake);
    assert Remembers(Added(hash, n.filter, id, now), intake, now);
  }

  lemma SentAccounted(hash: Hash, n: Node, sender: Bytes, id: Id, now: int, line: Bytes, outcome: Outcome,
                      w: Created, w': Created, safe: bool)
    requires Inv(hash, n, [], w, now, safe) && FreshId(w, id) && !outcome.MarshalFailed?
    requires w' == w.(chats := w.chats + {ChatMessage(n, sender, id, now, line)})
    ensures Accounted(hash, Sent(hash, n, sender, id, now, line, outcome), w')
  {
    var m := ChatMessage(n, sender, id, now, line);
    assert !IdCreated(w, id);
    QueuedTracked(hash, n.outgoing, n.journal, n.intake, m, now);
    forall x | Times(n.journal + [Queued(id, now)], x) != [] ensures IdCreated(w', x) {
      TimesAppend(n.journal, [Queued(id, now)], x);
      if x == id {
        assert m in w'.chats && m.id == id;
      } else {
        assert [Queued(id, now)][..0] == [];
        assert Times([Queued(id, now)], x) == [];
        var y :| y in w.chats && y.id == x;
        assert y in w'.chats;
      }
    }
  }

  lemma SentHonest(hash: Hash, n: Node, sender: Bytes, id: Id, now: int, line: Bytes, outcome: Outcome, w: Created,
                   w': Created, safe: bool)
    requires Honest(n, [], w, safe) && (safe ==> n.clock != MAX_INT32)
    requires w' == if outcome.MarshalFailed? then w else w.(chats := w.chats + {ChatMessage(n, sender, id, now, line)})
    ensures Honest(Sent(hash, n, sender, id, now, line, outcome), [], w', safe)
  {
    IncrementIsStrict(n.clock, now);
  }

  lemma SentInv(hash: Hash, n: Node, sender: Bytes, id: Id, now: int, line: Bytes, outcome: Outcome, w: Created,
                w': Created, safe: bool)
    requires Inv(hash, n, [], w, now, safe) && FreshId(w, id)
    requires safe ==> n.clock != MAX_INT32
    requires w' == if outcome.MarshalFailed? then w else w.(chats := w.chats + {ChatMessage(n, sender, id, now, line)})
    ensures Inv(hash, Sent(hash, n, sender, id, now, line, outcome), [], w', now, safe)
  {
    SentHonest(hash, n, sender, id, now, line, outcome, w, w', safe);
    if !outcome.MarshalFailed? { SentAccounted(hash, n, sender, id, now, line, outcome, w, w', safe); }
    if outcome.Published? {
      SentLocal(hash, n, sender, id, now, line, w, safe);
      SentWindow(hash, n, sender, id, now, line, w, safe);
    }
  }

  lemma TickedAccounted(hash: Hash, n: Node, w: Created, now: int)
    requires Accounted(hash, n, w)
    ensures Accounted(hash, Ticked(n, now), w)
  {
    TickedTracked(hash, n.outgoing, n.journal, n.intake, now);
    var more := TickEvents(n.outgoing, now);
    forall id | Times(n.journal + more, id) != [] ensures IdCreated(w, id) {
      TimesAppend(n.journal, more, id);
      if Times(n.journal, id) == [] {
        forall i | 0 <= i < |n.outgoing| ensures n.outgoing[i].msg.id != id {
          assert n.outgoing[i] in n.outgoing;
        }
        TickAbsent(n.outgoing, now, id);
      }
    }
  }

  lemma ChangedInv(hash: Hash, w: World, a: Action, now: int, safe: bool)
    requires WorldInv(hash, w, safe) && Enabled(w, a, now)
    requires safe && a.Send? ==> w.nodes[a.node].clock != MAX_INT32
    ensures Inv(hash, Changed(hash, w, a, now), [], Create(w, a, now), now, safe)
  {
    var n, c := w.nodes[a.node], w.created;
    CreateKeeps(hash, w, a, now, safe);
    InvMonotone(hash, n, c, c, w.now, now, safe);
    match a {
      case Send(_, sender, id, line, outcome) =>
        SentInv(hash, n, sender, id, now, line, outcome, c, Create(w, a, now), safe);
      case Sync(_, _, _) => InvMonotone(hash, n, c, Create(w, a, now), w.now, now, safe);
      case Receive(_, msg, fetch) =>
        InvLater(hash, n, [], c, w.now, fetch.time(n.requests), safe);
        ReceivedInv(hash, n, msg, fetch, [], c, w.now, now, safe);
        var r := Received(hash, n, msg, fetch, c.All());
        InvLater(hash, r, [], c, fetch.time(r.requests), now, safe);
      case Sweep(_) =>
        SweptLocal(n, []);
        SweptHonest(n, [], c, safe);
      case Tick(_) => TickedAccounted(hash, n, c, now);
      case Clean(_) => CleanedWindow(hash, n, now);
    }
  }

  lemma StepKeeps(hash: Hash, w: World, a: Action, now: int, safe: bool)
    requires WorldInv(hash, w, safe) && Enabled(w, a, now)
    requires safe && a.Send? ==> w.nodes[a.node].clock != MAX_INT32
    ensures WorldInv(hash, Next(hash, w, a, now), safe)
  {
    CreateKeeps(hash, w, a, now, safe);
    ChangedInv(hash, w, a, now, safe);
    var w' := Next(hash, w, a, now);
    forall i | 0 <= i < |w'.nodes| ensures Inv(hash, w'.nodes[i], [], w'.created, now, safe) {
      if i != a.node { InvMonotone(hash, w.nodes[i], w.created, w'.created, w.now, now, safe); }
    }
  }

  lemma InitialInv(hash: Hash, w: World, safe: bool)
    requires Initial(w)
    ensures WorldInv(hash, w, safe)
  {
    forall i | 0 <= i < |w.nodes| ensures Inv(hash, w.nodes[i], [], w.created, w.now, safe) {
      assert Tracked(hash, INITIAL.outgoing, INITIAL.journal, INITIAL.intake);
    }
  }

  /** The invariant holds at every moment of every run. */
  lemma {:induction false} RunKeeps(hash: Hash, worlds: seq<World>, steps: seq<Timed>, k: nat, safe: bool)
    requires IsRun(hash, worlds, steps) && k < |worlds| && (safe ==> NoOverflow(worlds, steps))
    ensures WorldInv(hash, worlds[k], safe)
  {
    if k == 0 {
      InitialInv(hash, worlds[0], safe);
    } else {
      RunKeeps(hash, worlds, steps, k - 1, safe);
      assert IsStep(hash, worlds[k - 1], steps[k - 1], worlds[k]);
      StepKeeps(hash, worlds[k - 1], steps[k - 1].action, steps[k - 1].now, safe);
    }
  }
}
