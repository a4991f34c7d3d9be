/** What users of the chat may rely on, at every moment of every run. */
module ChatTheorems {
  import opened GoTypes
  import opened Wrappers
  import opened ChatHistory
  import opened RollingBloom
  import opened ChatNode
  import opened ChatOutgoing
  import opened ChatDelivery
  import opened ChatSweep
  import opened ChatSystem
  import opened ChatProvenance

  // ---------- Lamport timestamps ----------

  /** Every chat message is later than everything in its causal history. */
  ghost predicate InOrder(c: Created) {
    forall m, x :: m in c.chats && x in c.All() && x.id in m.causal ==> x.ts < m.ts
  }

  /** The timestamp of a send is past the newest message in the node's history. */
  ghost predicate Advancing(n: Node, now: int) {
    n.history == [] || n.history[|n.history| - 1].ts < Incremented(n.clock, now)
  }

  ghost predicate SendAdvances(w: World, t: Timed) {
    t.action.Send? && t.action.node < |w.nodes| && !t.action.outcome.MarshalFailed? ==>
      Advancing(w.nodes[t.action.node], t.now)
  }

  ghost predicate SendsAdvance(worlds: seq<World>, steps: seq<Timed>)
    requires |worlds| == |steps| + 1
  {
    forall k :: 0 <= k < |steps| ==> SendAdvances(worlds[k], steps[k])
  }

  lemma NewestIsGreatest(h: seq<Message>, x: Message)
    requires Sorted(h) && x in h
    ensures x.ts <= h[|h| - 1].ts
  {
    var i :| 0 <= i < |h| && h[i] == x;
    if i < |h| - 1 { assert !Before(h[|h| - 1], h[i]); }
  }

  /** What an existing message names exists; a fresh id is named by none. */
  lemma FreshIsNotNamed(c: Created, id: Id, m: Message)
    requires Lamport(c, false) && FreshId(c, id) && m in c.chats
    ensures id !in m.causal
  {
    assert Grounded(c, m, true, false);
    forall d | d in m.causal ensures d != id {
      var x :| x in c.chats && x.id == d;
      assert x in c.All();
    }
  }

  /** The message that a send builds names messages of the history only, none newer than its last ... */
  lemma NamedIsNotNewer(hash: Hash, n: Node, c: Created, at: int, x: Message)
    requires Inv(hash, n, [], c, at, false) && UniqueIds(c) && x in c.All() && x.id in Recent(n.history, CAUSAL_LENGTH)
    ensures n.history != [] && x.ts <= n.history[|n.history| - 1].ts
  {
    HistoryIsGreatest(n.displayed);
    var y := RecentMember(n.history, CAUSAL_LENGTH, x.id);
    HistoryShown(n.displayed, y);
    assert y in c.All();
    NewestIsGreatest(n.history, y);
  }

  /** ... and that last one in particular. */
  lemma NewestIsNamed(hash: Hash, n: Node, c: Created, at: int)
    requires Inv(hash, n, [], c, at, false) && n.history != []
    ensures n.history[|n.history| - 1] in c.chats && n.history[|n.history| - 1].id in Recent(n.history, CAUSAL_LENGTH)
  {
    HistoryShown(n.displayed, n.history[|n.history| - 1]);
    assert Recent(n.history, CAUSAL_LENGTH)[0] == n.history[|n.history| - 1].id;
  }

  lemma AdvancingSendKeepsOrder(hash: Hash, w: World, a: Action, now: int)
    requires WorldInv(hash, w, false) && InOrder(w.created)
    requires Enabled(w, a, now) && a.Send? && !a.outcome.MarshalFailed?
    requires Advancing(w.nodes[a.node], now)
    ensures InOrder(Create(w, a, now))
  {
    var n, c, c' := w.nodes[a.node], w.created, Create(w, a, now);
    var m := ChatMessage(n, a.sender, a.id, now, a.line);
    forall y, x | y in c'.chats && x in c'.All() && x.id in y.causal ensures x.ts < y.ts {
      if x == m {
        NewIsNotNamed(hash, w, a, now, y);
      } else if y == m {
        NamedIsNotNewer(hash, n, c, w.now, x);
      }
    }
  }

  lemma OtherSendBreaksOrder(hash: Hash, w: World, a: Action, now: int)
    requires WorldInv(hash, w, false) && Enabled(w, a, now) && a.Send? && !a.outcome.MarshalFailed?
    requires !Advancing(w.nodes[a.node], now)
    ensures !InOrder(Create(w, a, now))
  {
    var n, c' := w.nodes[a.node], Create(w, a, now);
    NewestIsNamed(hash, n, w.created, w.now);
    var m, x := ChatMessage(n, a.sender, a.id, now, a.line), n.history[|n.history| - 1];
    assert m in c'.chats && x in c'.All() && x.id in m.causal && x.ts >= m.ts;
  }

  lemma NewIsNotNamed(hash: Hash, w: World, a: Action, now: int, y: Message)
    requires WorldInv(hash, w, false) && Enabled(w, a, now) && (a.Send? || a.Sync?) && y in Create(w, a, now).chats
    ensures a.id !in y.causal
  {
    var n := w.nodes[a.node];
    assert Inv(hash, n, [], w.created, w.now, false);
    if y in w.created.chats {
      FreshIsNotNamed(w.created, a.id, y);
    } else if a.id in y.causal {
      var x := RecentMember(n.history, CAUSAL_LENGTH, a.id);
      HistoryShown(n.displayed, x);
    }
  }

  /** Every other step keeps it. */
  lemma OtherStepKeepsOrder(hash: Hash, w: World, a: Action, now: int)
    requires WorldInv(hash, w, false) && Enabled(w, a, now) && InOrder(w.created)
    requires a.Send? ==> a.outcome.MarshalFailed?
    ensures InOrder(Create(w, a, now))
  {
    var c' := Create(w, a, now);
    forall y, x | y in c'.chats && x in c'.All() && x.id in y.causal ensures x.ts < y.ts {
      if x !in w.created.All() { NewIsNotNamed(hash, w, a, now, y); }
    }
  }

  lemma {:induction false} OrderUpTo(hash: Hash, worlds: seq<World>, steps: seq<Timed>, k: nat)
    requires IsRun(hash, worlds, steps) && k < |worlds|
    ensures InOrder(worlds[k].created) <==> forall j :: 0 <= j < k ==> SendAdvances(worlds[j], steps[j])
  {
    if k > 0 {
      OrderUpTo(hash, worlds, steps, k - 1);
      RunKeeps(hash, worlds, steps, k - 1, false);
      var w, t := worlds[k - 1], steps[k - 1];
      assert IsStep(hash, w, t, worlds[k]);
      CreatedGrows(hash, worlds, steps, k - 1, k);
      if InOrder(worlds[k].created) {
        assert InOrder(w.created);
      }
      if InOrder(w.created) {
        if t.action.Send? && !t.action.outcome.MarshalFailed? {
          if Advancing(w.nodes[t.action.node], t.now) {
            AdvancingSendKeepsOrder(hash, w, t.action, t.now);
          } else {
            OtherSendBreaksOrder(hash, w, t.action, t.now);
          }
        } else {
          OtherStepKeepsOrder(hash, w, t.action, t.now);
        }
      }
    }
  }

  /**
   In every run, every chat message is later than everything in its causal
   history if and only if every send got a timestamp past the newest message of
   its node's history.
   */
  lemma LamportOrderIff(hash: Hash, worlds: seq<World>, steps: seq<Timed>)
    requires IsRun(hash, worlds, steps)
    ensures InOrder(worlds[|steps|].created) <==> SendsAdvance(worlds, steps)
  {
    OrderUpTo(hash, worlds, steps, |steps|);
  }

  /**
   While no clock has overflowed, a send advances unless its clock is at the
   32-bit maximum and the time is not past the newest message.
   */
  lemma AdvancingIff(hash: Hash, n: Node, c: Created, at: int, now: int)
    requires Inv(hash, n, [], c, at, true)
    ensures Advancing(n, now)
       <==> n.clock != MAX_INT32 || n.history == [] || n.history[|n.history| - 1].ts < Wrap32(now / SECOND)
  {
    IncrementIsStrict(n.clock, now);
    if n.history != [] {
      HistoryShown(n.displayed, n.history[|n.history| - 1]);
    }
  }

  /** So a run in which no clock is at its maximum at a send is in order. */
  lemma NoOverflowKeepsOrder(hash: Hash, worlds: seq<World>, steps: seq<Timed>)
    requires IsRun(hash, worlds, steps) && NoOverflow(worlds, steps)
    ensures SendsAdvance(worlds, steps) && InOrder(worlds[|steps|].created)
  {
    forall k | 0 <= k < |steps| ensures SendAdvances(worlds[k], steps[k]) {
      RunKeeps(hash, worlds, steps, k, true);
      if steps[k].action.Send? && steps[k].action.node < |worlds[k].nodes| {
        var n := worlds[k].nodes[steps[k].action.node];
        AdvancingIff(hash, n, worlds[k].created, worlds[k].now, steps[k].now);
      }
    }
    LamportOrderIff(hash, worlds, steps);
  }

  /** When the sends advance, the sorted history of every node lists a dependency before its dependents. */
  lemma DependenciesListedFirst(hash: Hash, worlds: seq<World>, steps: seq<Timed>, k: nat, i: nat, a: nat, b: nat)
    requires IsRun(hash, worlds, steps) && SendsAdvance(worlds, steps) && k < |worlds| && i < |worlds[k].nodes|
    requires a < |worlds[k].nodes[i].history| && b < |worlds[k].nodes[i].history|
    requires worlds[k].nodes[i].history[a].id in worlds[k].nodes[i].history[b].causal
    ensures a < b
  {
    RunKeeps(hash, worlds, steps, k, false);
    OrderUpTo(hash, worlds, steps, k);
    var n := worlds[k].nodes[i];
    assert Inv(hash, n, [], worlds[k].created, worlds[k].now, false);
    HistoryShown(n.displayed, n.history[a]);
    HistoryShown(n.displayed, n.history[b]);
    HistoryIsGreatest(n.displayed);
    ListedInOrder(n.history, a, b);
  }

  lemma ListedInOrder(h: seq<Message>, a: nat, b: nat)
    requires Sorted(h) && a < |h| && b < |h| && h[a].ts < h[b].ts
    ensures a < b
  {
    assert Before(h[a], h[b]);
  }

  // ---------- delivery ----------

  /** Every shown message had all its dependencies shown before it. */
  lemma CausalDelivery(hash: Hash, worlds: seq<World>, steps: seq<Timed>, k: nat, i: nat, p: nat, d: Id)
    returns (q: nat)
    requires IsRun(hash, worlds, steps) && k < |worlds| && i < |worlds[k].nodes|
    requires p < |worlds[k].nodes[i].displayed| && d in worlds[k].nodes[i].displayed[p].causal
    ensures q < p && worlds[k].nodes[i].displayed[q].id == d
  {
    RunKeeps(hash, worlds, steps, k, false);
    var s := worlds[k].nodes[i].displayed;
    assert HasId(s[..p], d);
    var j :| 0 <= j < |s[..p]| && s[..p][j].id == d;
    q := j;
  }

  /**
   Messages let in are shown or buffered, exactly as often as they were let in;
   so no message with content is lost.
   */
  lemma ConservedDelivery(hash: Hash, worlds: seq<World>, steps: seq<Timed>, k: nat, i: nat)
    requires IsRun(hash, worlds, steps) && k < |worlds| && i < |worlds[k].nodes|
    ensures var n := worlds[k].nodes[i];
            && multiset(n.displayed) + multiset(Content(n.incoming)) == Owed(n.intake)
            && forall a :: 0 <= a < |n.intake| && (n.intake[a].own || n.intake[a].msg.content != []) ==>
                 n.intake[a].msg in n.displayed || n.intake[a].msg in n.incoming
  {
    RunKeeps(hash, worlds, steps, k, false);
    var n := worlds[k].nodes[i];
    assert Conserved(n, []);
    forall a | 0 <= a < |n.intake| && (n.intake[a].own || n.intake[a].msg.content != [])
      ensures n.intake[a].msg in n.displayed || n.intake[a].msg in n.incoming
    {
      NothingLost(n, a);
    }
  }

  /** An id that a node has shown twice was let in twice, at least a whole bloom window apart. */
  lemma NoDoubleDelivery(hash: Hash, worlds: seq<World>, steps: seq<Timed>, k: nat, i: nat, p: nat, q: nat)
    returns (a: nat, b: nat)
    requires IsRun(hash, worlds, steps) && k < |worlds| && i < |worlds[k].nodes|
    requires p < q < |worlds[k].nodes[i].displayed|
    requires worlds[k].nodes[i].displayed[p].id == worlds[k].nodes[i].displayed[q].id
    ensures var n := worlds[k].nodes[i];
            && a < b < |n.intake|
            && n.intake[a].msg.id == n.intake[b].msg.id == n.displayed[p].id
            && n.intake[b].time - n.intake[a].time >= WINDOW
  {
    RunKeeps(hash, worlds, steps, k, false);
    var n := worlds[k].nodes[i];
    assert Inv(hash, n, [], worlds[k].created, worlds[k].now, false);
    a, b := ShownTwiceIsAWindowApart(hash, n, worlds[k].now, p, q);
  }

  /** Nodes that have shown the same messages, in whatever order, hold the same history. */
  lemma Convergence(hash: Hash, worlds: seq<World>, steps: seq<Timed>, k: nat, i: nat, j: nat)
    requires IsRun(hash, worlds, steps) && k < |worlds| && i < |worlds[k].nodes| && j < |worlds[k].nodes|
    requires multiset(worlds[k].nodes[i].displayed) == multiset(worlds[k].nodes[j].displayed)
    ensures worlds[k].nodes[i].history == worlds[k].nodes[j].history
    ensures IsGreatest(worlds[k].nodes[i].history, multiset(worlds[k].nodes[i].displayed))
  {
    RunKeeps(hash, worlds, steps, k, false);
    var n, c := worlds[k].nodes[i], worlds[k].created;
    assert Inv(hash, n, [], c, worlds[k].now, false);
    assert Inv(hash, worlds[k].nodes[j], [], c, worlds[k].now, false);
    HistoryIsGreatest(n.displayed);
    forall x, y | x in multiset(n.displayed) && y in multiset(n.displayed) && x.id == y.id ensures x == y {
      assert x in n.displayed && y in n.displayed;
    }
    ArrivalOrderIrrelevant(n.displayed, worlds[k].nodes[j].displayed);
  }

  // ---------- emptying the buffer ----------

  /**
   In every run, whatever the clocks do: a node whose history has room for its
   buffer empties the buffer within one sweep per buffered message exactly when
   every dependency is in the history or buffered with content.
   */
  lemma SweepingEmptiesBuffer(hash: Hash, worlds: seq<World>, steps: seq<Timed>, k: nat, i: nat)
    requires IsRun(hash, worlds, steps) && k < |worlds| && i < |worlds[k].nodes|
    requires Room(worlds[k].nodes[i])
    ensures var n := worlds[k].nodes[i];
            Sweeps(n, |n.incoming|).incoming == [] <==> AllObtainable(n)
  {
    RunKeeps(hash, worlds, steps, k, false);
    var n, c := worlds[k].nodes[i], worlds[k].created;
    assert Inv(hash, n, [], c, worlds[k].now, false);
    var rank := (m: Message) => BuiltIn(worlds, steps, m);
    forall m, b | m in n.incoming && b in n.incoming && m.content != [] && b.content != [] && b.id in m.causal
      ensures rank(b) < rank(m)
    {
      DependencyBuiltFirst(hash, worlds, steps, k, m, b);
    }
    SweepsEmptyIffObtainable(n, rank);
  }

  /** Where every chat message has content, a dependency that is buffered at all is buffered with content. */
  lemma BufferedWithContent(c: Created, n: Node)
    requires CreatedInv(c, false) && (forall m :: m in c.chats ==> m.content != [])
    requires forall m :: m in n.incoming ==> m in c.All()
    ensures NothingMissing(n) <==> AllObtainable(n)
  {
    forall m, d | m in n.incoming && d in m.causal
      ensures HasId(n.history, d) || HasId(n.incoming, d) <==> Obtainable(n, d)
    {
      assert Grounded(c, m, m in c.chats, false);
      var x :| x in c.chats && x.id == d;
      if j :| 0 <= j < |n.incoming| && n.incoming[j].id == d {
        var b := n.incoming[j];
        assert b in n.incoming && b == x;
        assert Obtainable(n, d);
      }
    }
  }

  /**
   In every run in which no empty line was sent, as the user interface sees to:
   a node whose history has room for its buffer empties the buffer within one
   sweep per buffered message exactly when every dependency is in the history
   or in the buffer.
   */
  lemma SweepingContent(hash: Hash, worlds: seq<World>, steps: seq<Timed>, k: nat, i: nat)
    requires IsRun(hash, worlds, steps) && k < |worlds| && i < |worlds[k].nodes|
    requires Room(worlds[k].nodes[i]) && forall m :: m in worlds[k].created.chats ==> m.content != []
    ensures var n := worlds[k].nodes[i];
            Sweeps(n, |n.incoming|).incoming == [] <==> NothingMissing(n)
  {
    RunKeeps(hash, worlds, steps, k, false);
    var n, c := worlds[k].nodes[i], worlds[k].created;
    assert Inv(hash, n, [], c, worlds[k].now, false);
    BufferedWithContent(c, n);
    SweepingEmptiesBuffer(hash, worlds, steps, k, i);
  }

  // ---------- outgoing buffer ----------

  /**
   A queued message was sent and resent at times more than the timeout apart,
   at most five resends. It is in the buffer with that many attempts, or gone,
   and then acknowledged by a message let in, or dropped after five resends.
   */
  lemma OutgoingAccounted(hash: Hash, worlds: seq<World>, steps: seq<Timed>, k: nat, i: nat, id: Id)
    requires IsRun(hash, worlds, steps) && k < |worlds| && i < |worlds[k].nodes|
    requires Times(worlds[k].nodes[i].journal, id) != []
    ensures var n := worlds[k].nodes[i];
            var times := Times(n.journal, id);
            && |times| <= MAX_RESENDS + 1
            && (forall r :: 0 <= r < |times| - 1 ==> times[r + 1] - times[r] > ACK_TIMEOUT)
            && ((exists u :: u in n.outgoing && u.msg.id == id && u.attempts == |times| - 1)
                || (exists e :: e in n.journal && e.Acked? && e.id == id && Acknowledges(hash, e.cause, id)
                              && exists a :: a in n.intake && a.msg == e.cause)
                || (|times| == MAX_RESENDS + 1
                    && exists e :: e in n.journal && e.Dropped? && e.id == id
                                 && e.time - times[MAX_RESENDS] > ACK_TIMEOUT))
  {
    RunKeeps(hash, worlds, steps, k, false);
    var n := worlds[k].nodes[i];
    assert Inv(hash, n, [], worlds[k].created, worlds[k].now, false);
    assert Spread(Times(n.journal, id));
    if j :| 0 <= j < |n.outgoing| && n.outgoing[j].msg.id == id {
      assert n.outgoing[j] in n.outgoing && Agrees(n.outgoing[j], n.journal);
    } else {
      assert Settled(n.journal, id);
      var e :| SettledBy(e, n.journal, id);
      assert e in n.journal;
    }
  }

  /**
   Who acknowledged: the message behind an acknowledgement was built by some
   node, which had by then shown the acknowledged message if the causal history
   names it, and whose bloom filter found its id otherwise. That node is another
   one if and only if the message carries another sender.
   */
  lemma AcknowledgedBy(hash: Hash, worlds: seq<World>, steps: seq<Timed>, k: nat, i: nat, e: Event) returns (j: nat)
    requires IsRun(hash, worlds, steps) && k < |worlds| && i < |worlds[k].nodes|
    requires e in worlds[k].nodes[i].journal && e.Acked?
    ensures j < k && Builds(worlds[j], steps[j], e.cause)
    ensures var p := steps[j].action.node;
            && (e.id in e.cause.causal ==> HasId(worlds[j].nodes[p].displayed, e.id))
            && (e.id !in e.cause.causal ==> Tests(hash, worlds[j].nodes[p].filter, e.id))
            && p < |worlds[0].names| && i < |worlds[0].names|
            && (p != i <==> e.cause.sender != worlds[0].names[i])
  {
    RunKeeps(hash, worlds, steps, k, false);
    var n := worlds[k].nodes[i];
    assert Inv(hash, n, [], worlds[k].created, worlds[k].now, false);
    assert Justified(hash, n.journal, n.intake);
    var a :| a in n.intake && a.msg == e.cause;
    j := BuiltAt(hash, worlds, steps, k, e.cause);
    if e.id in e.cause.causal {
      var x := NamedWasShown(hash, worlds, steps, j, e.cause, e.id);
    }
    CreatedGrows(hash, worlds, steps, 0, j);
    NodeCount(hash, worlds, steps, k);
  }

  lemma {:induction false} NodeCount(hash: Hash, worlds: seq<World>, steps: seq<Timed>, k: nat)
    requires IsRun(hash, worlds, steps) && k < |worlds|
    ensures |worlds[k].nodes| == |worlds[0].nodes|
  {
    if k > 0 {
      NodeCount(hash, worlds, steps, k - 1);
      assert IsStep(hash, worlds[k - 1], steps[k - 1], worlds[k]);
    }
  }

  // ---------- the recursion through missing dependencies ----------

  /** A receive lets in no more messages than it marks as seen: the recursion is bounded. */
  lemma {:induction false} ReceiveBounded(hash: Hash, n: Node, m: Message, fetch: Fetch, universe: set<Message>)
    requires m in universe && AnswersIn(fetch, universe)
    ensures var r := Received(hash, n, m, fetch, universe);
            |n.intake| <= |r.intake|
                       <= |n.intake| + |Unseen(hash, n.filter, universe)| - |Unseen(hash, r.filter, universe)|
    decreases |Unseen(hash, n.filter, universe)|, 0, 0
  {
    if !Tests(hash, n.filter, m.id) {
      AcceptedShrinksUnseen(hash, n, m, fetch.time(n.requests), universe);
      var n1 := Accepted(hash, n, m, fetch.time(n.requests));
      if !Ready(n1.history, m) {
        FetchBounded(hash, n1, Missing(n1.history, m.causal), fetch, universe);
      }
    }
  }

  lemma {:induction false} FetchBounded(hash: Hash, n: Node, deps: seq<Id>, fetch: Fetch, universe: set<Message>)
    requires AnswersIn(fetch, universe)
    ensures var r := FetchedAll(hash, n, deps, fetch, universe);
            |n.intake| <= |r.intake|
                       <= |n.intake| + |Unseen(hash, n.filter, universe)| - |Unseen(hash, r.filter, universe)|
    decreases |Unseen(hash, n.filter, universe)|, 1, |deps|
  {
    if deps != [] {
      var answer := Answer(fetch, n.requests, deps[0], 0);
      var n1 := Asked(n);
      if answer.Some? {
        ReceiveBounded(hash, n1, answer.value, fetch, universe);
        n1 := Received(hash, n1, answer.value, fetch, universe);
      }
      assert n1 == FetchedOne(hash, n, deps[0], fetch, universe);
      UnseenMonotone(hash, n.filter, n1.filter, universe);
      FetchBounded(hash, n1, deps[1..], fetch, universe);
    }
  }
}
