/**
 Runs that show what the chat protocol does not promise: timestamps when the
 clock is at its maximum, delivery after a message without content, and that
 an acknowledgement comes from somebody else.
 */
module ChatExamples {
  import opened GoTypes
  import opened Wrappers
  import opened ChatHistory
  import opened RollingBloom
  import opened ChatNode
  import opened ChatDelivery
  import opened ChatSweep
  import opened ChatSystem

  /** One bit per first byte of an id. */
  const HASH: Hash := (id: Id) => if id == [] then {} else {id[0]}

  /** No peer answers, and no time passes. */
  const SILENT: Fetch := Fetch((r: nat, id: Id, k: nat) => None, (r: nat) => 0)

  /** A world that some run ends in. */
  ghost predicate Reached(hash: Hash, w: World) {
    exists worlds, steps :: RunsTo(hash, worlds, steps, w)
  }

  ghost predicate RunsTo(hash: Hash, worlds: seq<World>, steps: seq<Timed>, w: World) {
    IsRun(hash, worlds, steps) && worlds[|steps|] == w
  }

  lemma ReachedFirst(hash: Hash, w: World)
    requires Initial(w)
    ensures Reached(hash, w)
  {
    assert RunsTo(hash, [w], [], w);
  }

  lemma ReachedNext(hash: Hash, w: World, a: Action, now: int)
    requires Reached(hash, w) && Enabled(w, a, now)
    ensures Reached(hash, Next(hash, w, a, now))
  {
    var worlds, steps :| RunsTo(hash, worlds, steps, w);
    var next := Next(hash, w, a, now);
    var ws, ts := worlds + [next], steps + [Timed(a, now)];
    forall k | 0 <= k < |ts| ensures IsStep(hash, ws[k], ts[k], ws[k + 1]) {
      if k < |steps| { assert IsStep(hash, worlds[k], steps[k], worlds[k + 1]); }
    }
    assert RunsTo(hash, ws, ts, next);
  }

  // ---------- the clock at its maximum ----------

  /** A run of one node that sends twice in the last second that 32 bits can count. */
  ghost function OverflowSteps(a: Id, b: Id): seq<Timed> {
    [Timed(Send(0, [], a, [1], Published), MAX_INT32 * SECOND),
     Timed(Send(0, [], b, [1], Published), MAX_INT32 * SECOND)]
  }

  ghost function OverflowWorlds(hash: Hash, a: Id, b: Id): seq<World>
    requires a != b
  {
    var t := MAX_INT32 * SECOND;
    var w0 := World([INITIAL], [[]], Created({}, {}), 0);
    var w1 := Next(hash, w0, Send(0, [], a, [1], Published), t);
    assert w1.created.All() == {ChatMessage(INITIAL, [], a, t, [1])};
    [w0, w1, Next(hash, w1, Send(0, [], b, [1], Published), t)]
  }

  /** Both messages get the same timestamp, although the second names the first. */
  lemma OverflowBreaksOrder(hash: Hash, a: Id, b: Id) returns (x: Message, m: Message)
    requires a != b
    ensures IsRun(hash, OverflowWorlds(hash, a, b), OverflowSteps(a, b))
    ensures m in OverflowWorlds(hash, a, b)[2].created.chats && x in OverflowWorlds(hash, a, b)[2].created.chats
    ensures x.id in m.causal && x.ts == m.ts
  {
    var t := MAX_INT32 * SECOND;
    var worlds, steps := OverflowWorlds(hash, a, b), OverflowSteps(a, b);
    var n1 := worlds[1].nodes[0];
    x := ChatMessage(INITIAL, [], a, t, [1]);
    m := ChatMessage(n1, [], b, t, [1]);
    assert n1.history == Insert([], x) == [x];
    assert IsStep(hash, worlds[0], steps[0], worlds[1]);
    assert IsStep(hash, worlds[1], steps[1], worlds[2]);
    assert Recent([x], CAUSAL_LENGTH)[0] == x.id;
    assert Wrap32(MAX_INT32) == MAX_INT32 && t / SECOND == MAX_INT32;
  }

  // ---------- sending at time zero ----------

  lemma {:induction false} InsertLast(h: seq<Message>, m: Message)
    requires forall i :: 0 <= i < |h| ==> h[i].ts < m.ts
    ensures Insert(h, m) == h + [m]
  {
    if h != [] { InsertLast(h[1..], m); }
  }

  /** A send at time zero counts the clock up and appends to the history. */
  lemma SendAppends(n: Node, sender: Bytes, id: Id, line: Bytes)
    requires 0 <= n.clock < 100 && |n.history| < MAX_HISTORY
    requires forall i :: 0 <= i < |n.history| ==> n.history[i].ts <= n.clock
    ensures var m, r := ChatMessage(n, sender, id, 0, line), Sent(HASH, n, sender, id, 0, line, Published);
            && m.ts == n.clock + 1 && m.id == id && m.content == line && r.clock == n.clock + 1
            && r.history == n.history + [m]
  {
    var m := ChatMessage(n, sender, id, 0, line);
    assert 0 / SECOND == 0;
    InsertLast(n.history, m);
  }

  lemma {:induction false} RecentSnoc(h: seq<Message>, m: Message, n: nat)
    requires n > 0
    ensures Recent(h + [m], n) == [m.id] + Recent(h, n - 1)
  {
    assert (h + [m])[..|h|] == h;
  }

  lemma OneRecent(a: Message, n: nat)
    requires n >= 1
    ensures Recent([a], n) == [a.id]
  {
    var h := [a];
    assert h[..0] == [];
    assert Recent(h, n) == [a.id] + Recent(h[..0], n - 1);
  }

  // ---------- a node's own sync message ----------

  const START: World := World([INITIAL], [[]], Created({}, {}), 0)
  const MINE: Action := Send(0, [], [1], [1], Published)
  const SYNC: Action := Sync(0, [], [2])

  /** The node has sent one message. */
  ghost predicate SentOne(n: Node, a: Message) {
    && n.history == [a] && n.outgoing == [Unack(a, 0, 0)] && n.incoming == [] && n.filter.bits == {1}
    && n.journal == [Queued(a.id, 0)]
  }

  lemma SentAlone() returns (w: World, a: Message)
    ensures Reached(HASH, w) && |w.nodes| == 1 && w.names == [[]] && w.now == 0 && w.created == Created({a}, {})
    ensures SentOne(w.nodes[0], a) && a.id == [1]
  {
    ReachedFirst(HASH, START);
    a := ChatMessage(INITIAL, [], [1], 0, [1]);
    SendAppends(INITIAL, [], [1], [1]);
    ReachedNext(HASH, START, MINE, 0);
    w := Next(HASH, START, MINE, 0);
  }

  lemma SentAndSynced() returns (w: World, a: Message, s: Message)
    ensures Reached(HASH, w) && |w.nodes| == 1 && w.names == [[]] && w.now == 0 && s in w.created.All()
    ensures SentOne(w.nodes[0], a)
    ensures s.id == [2] && s.sender == [] && s.causal == [a.id] && s.content == []
  {
    var w1;
    w1, a := SentAlone();
    s := SyncMessage(w1.nodes[0], [], [2]);
    OneRecent(a, CAUSAL_LENGTH);
    assert FreshId(w1.created, [2]);
    ReachedNext(HASH, w1, SYNC, 0);
    w := Next(HASH, w1, SYNC, 0);
  }

  /**
   A run of a single node that sends a message, then a sync message, and
   receives that sync message: it acknowledges its own message to itself.
   */
  lemma SelfAcknowledged() returns (w: World, a: Message, s: Message)
    ensures Reached(HASH, w) && |w.nodes| == 1 && w.names == [s.sender]
    ensures Queued(a.id, 0) in w.nodes[0].journal && Acked(a.id, s) in w.nodes[0].journal && w.nodes[0].outgoing == []
  {
    var w2;
    w2, a, s := SentAndSynced();
    var receive := Receive(0, s, SILENT);
    assert Enabled(w2, receive, 0);
    ReachedNext(HASH, w2, receive, 0);
    w := Next(HASH, w2, receive, 0);
    OwnSync(w2.nodes[0], a, s, w2.created.All());
  }

  lemma OwnSync(n: Node, a: Message, s: Message, universe: set<Message>)
    requires SentOne(n, a) && s.id == [2] && s.causal == [a.id] && s.content == []
    requires s in universe && AnswersIn(SILENT, universe)
    ensures var r := Received(HASH, n, s, SILENT, universe);
            r.outgoing == [] && r.journal == n.journal + [Acked(a.id, s)]
  {
    assert 2 !in n.filter.bits && !Tests(HASH, n.filter, s.id);
    var n1 := Accepted(HASH, n, s, 0);
    assert s.causal[..0] == [];
    assert RemoveEach(n.outgoing, s.causal) == RemoveFirst(n.outgoing, a.id) == [];
    assert AfterAcks(HASH, n.outgoing, s) == [];
    assert n.outgoing[..0] == [];
    assert AckEvents(n.outgoing, [], s) == [Acked(a.id, s)];
    assert n1.history[0].id == a.id && Ready(n1.history, s);
    assert n1.journal == n.journal + [Acked(a.id, s)] && n1.outgoing == [];
  }

  // ---------- a message without content ----------

  /** Two nodes; node 0 sends, node 1 has done nothing yet. */
  ghost predicate Sending(w: World, sent: seq<Message>) {
    && |w.nodes| == 2 && w.names == [[0], [1]] && w.now == 0
    && w.nodes[1] == INITIAL
    && w.nodes[0].clock == |sent| < 10 && w.nodes[0].history == sent
    && (forall i :: 0 <= i < |sent| ==> sent[i].id == [i + 1] && sent[i].ts == i + 1)
    && w.created.syncs == {} && w.created.chats == (set m | m in sent)
  }

  /** Node 0 sends one more line. */
  lemma SendMore(w: World, sent: seq<Message>, line: Bytes) returns (next: World, m: Message)
    requires Reached(HASH, w) && Sending(w, sent) && |sent| < 9
    ensures Reached(HASH, next) && Sending(next, sent + [m])
    ensures m.causal == Recent(sent, CAUSAL_LENGTH) && m.content == line
  {
    var id: Id := [|sent| + 1];
    var a := Send(0, [0], id, line, Published);
    m := ChatMessage(w.nodes[0], [0], id, 0, line);
    SendAppends(w.nodes[0], [0], id, line);
    assert FreshId(w.created, id);
    ReachedNext(HASH, w, a, 0);
    next := Next(HASH, w, a, 0);
  }

  /** Messages a, b, x without content and y, each naming all before it. */
  ghost predicate FourSent(a: Message, b: Message, x: Message, y: Message) {
    && a.id == [1] && b.id == [2] && x.id == [3] && y.id == [4]
    && a.ts == 1 && b.ts == 2 && x.ts == 3 && y.ts == 4
    && a.causal == [] && b.causal == [a.id] && x.causal == [b.id, a.id] && y.causal == [x.id, b.id, a.id]
    && a.content != [] && b.content != [] && x.content == [] && y.content != []
  }

  lemma SendOne() returns (w: World, a: Message)
    ensures Reached(HASH, w) && Sending(w, [a]) && a.causal == [] && a.content == [1]
  {
    var w0 := World([INITIAL, INITIAL], [[0], [1]], Created({}, {}), 0);
    ReachedFirst(HASH, w0);
    assert Sending(w0, []);
    w, a := SendMore(w0, [], [1]);
    assert [] + [a] == [a];
  }

  lemma SendTwo() returns (w: World, a: Message, b: Message)
    ensures Reached(HASH, w) && Sending(w, [a, b])
    ensures a.causal == [] && b.causal == [a.id] && a.content == [1] == b.content
  {
    w, a := SendOne();
    w, b := SendMore(w, [a], [1]);
    assert [a] + [b] == [a, b];
    OneRecent(a, CAUSAL_LENGTH);
  }

  lemma SendFour() returns (w: World, a: Message, b: Message, x: Message, y: Message)
    ensures Reached(HASH, w) && Sending(w, [a, b, x, y]) && FourSent(a, b, x, y)
  {
    w, a, b := SendTwo();
    w, x := SendMore(w, [a, b], []);
    assert [a, b] + [x] == [a, b, x];
    w, y := SendMore(w, [a, b, x], [1]);
    assert [a, b, x] + [y] == [a, b, x, y];
    ThreeRecent(a, b, x);
    Four(a, b, x, y);
  }

  /** The ids and timestamps of four messages in a row. */
  lemma Four(a: Message, b: Message, x: Message, y: Message)
    requires forall i :: 0 <= i < 4 ==> [a, b, x, y][i].id == [i + 1] && [a, b, x, y][i].ts == i + 1
    ensures a.id == [1] && b.id == [2] && x.id == [3] && y.id == [4] && a.ts == 1 && b.ts == 2 && x.ts == 3 && y.ts == 4
  {
    var s := [a, b, x, y];
    assert s[0] == a && s[1] == b && s[2] == x && s[3] == y;
  }

  lemma ThreeRecent(a: Message, b: Message, x: Message)
    ensures Recent([], CAUSAL_LENGTH) == [] && Recent([a], CAUSAL_LENGTH) == [a.id]
    ensures Recent([a, b], CAUSAL_LENGTH) == [b.id, a.id] && Recent([a, b, x], CAUSAL_LENGTH) == [x.id, b.id, a.id]
  {
    OneRecent(a, CAUSAL_LENGTH);
    TwoRecent(a, b, CAUSAL_LENGTH);
    TwoRecent(a, b, CAUSAL_LENGTH - 1);
    RecentSnoc([a, b], x, CAUSAL_LENGTH);
    assert [a, b] + [x] == [a, b, x];
  }

  lemma TwoRecent(a: Message, b: Message, n: nat)
    requires n >= 2
    ensures Recent([a, b], n) == [b.id, a.id]
  {
    OneRecent(a, n - 1);
    RecentSnoc([a], b, n);
    assert [a] + [b] == [a, b];
  }

  lemma {:induction false} SilentFetch(n: Node, deps: seq<Id>, universe: set<Message>)
    requires AnswersIn(SILENT, universe)
    ensures FetchedAll(HASH, n, deps, SILENT, universe) == n.(requests := n.requests + |deps|)
    decreases |deps|
  {
    if deps != [] {
      NoAnswer(n.requests, deps[0], 0);
      SilentFetch(Asked(n), deps[1..], universe);
    }
  }

  lemma {:induction false} NoAnswer(r: nat, id: Id, k: nat)
    requires k <= MAX_RETRIES
    ensures Answer(SILENT, r, id, k) == None
    decreases MAX_RETRIES - k
  {
    if k < MAX_RETRIES { NoAnswer(r, id, k + 1); }
  }

  /** A node that has sent nothing, so that nothing can be acknowledged. */
  lemma HeldUnanswered(n: Node, m: Message, universe: set<Message>)
    requires m in universe && AnswersIn(SILENT, universe) && n.outgoing == []
    requires !Tests(HASH, n.filter, m.id) && !Ready(n.history, m)
    ensures var r := Received(HASH, n, m, SILENT, universe);
            && r.history == n.history && r.incoming == n.incoming + [m] && r.outgoing == []
            && r.filter.bits == n.filter.bits + HASH(m.id)
  {
    var n1 := Accepted(HASH, n, m, 0);
    NothingToReview(m);
    SilentFetch(n1, Missing(n1.history, m.causal), universe);
  }

  lemma NothingToReview(m: Message)
    ensures AfterAcks(HASH, [], m) == []
  {
    RemoveFromNothing(m.causal);
  }

  lemma {:induction false} RemoveFromNothing(ids: seq<Id>)
    ensures RemoveEach([], ids) == []
  {
    if ids != [] { RemoveFromNothing(ids[..|ids| - 1]); }
  }

  lemma NotReady(history: seq<Message>, m: Message, d: Id)
    requires d in m.causal && !HasId(history, d)
    ensures !Ready(history, m)
  {
    if Ready(history, m) { ReadyHasAll(history, m.causal, d); }
  }

  /** Two nodes, of which node 1 is as given, and everything that was sent. */
  ghost predicate Listening(w: World, n: Node, sent: set<Message>) {
    |w.nodes| == |w.names| == 2 && w.now == 0 && w.nodes[1] == n && w.created.All() == sent
  }

  /** Node 1 receives a message, and nobody answers its requests. */
  lemma ReceiveMore(w: World, n: Node, sent: set<Message>, m: Message) returns (next: World)
    requires Reached(HASH, w) && Listening(w, n, sent) && m in sent
    ensures AnswersIn(SILENT, sent) && Reached(HASH, next) && Listening(next, Received(HASH, n, m, SILENT, sent), sent)
  {
    var a := Receive(1, m, SILENT);
    assert AnswersIn(SILENT, sent);
    assert Enabled(w, a, 0);
    ReachedNext(HASH, w, a, 0);
    next := Next(HASH, w, a, 0);
  }

  /** Node 1 receives a message that is not ready, and keeps it. */
  lemma HoldMore(w: World, n: Node, sent: set<Message>, m: Message) returns (next: World, r: Node)
    requires Reached(HASH, w) && Listening(w, n, sent) && m in sent
    requires n.history == [] && n.outgoing == [] && !Ready([], m) && !Tests(HASH, n.filter, m.id)
    ensures Reached(HASH, next) && Listening(next, r, sent)
    ensures r.history == [] && r.outgoing == []
    ensures r.incoming == n.incoming + [m] && r.filter.bits == n.filter.bits + HASH(m.id)
  {
    next := ReceiveMore(w, n, sent, m);
    HeldUnanswered(n, m, sent);
    r := Received(HASH, n, m, SILENT, sent);
  }

  /** Node 1 is given b, x and y, and keeps all three. */
  lemma HoldThree(w: World, a: Message, b: Message, x: Message, y: Message, sent: set<Message>)
    returns (next: World, n: Node)
    requires Reached(HASH, w) && Listening(w, INITIAL, sent) && FourSent(a, b, x, y) && {b, x, y} <= sent
    ensures Reached(HASH, next) && Listening(next, n, sent)
    ensures n.history == [] && n.incoming == [b, x, y] && n.outgoing == [] && n.filter.bits == {2, 3, 4}
  {
    NotReady([], b, a.id);
    NotReady([], x, a.id);
    NotReady([], y, a.id);
    next, n := HoldMore(w, INITIAL, sent, b);
    next, n := HoldMore(next, n, sent, x);
    next, n := HoldMore(next, n, sent, y);
  }

  lemma DeliverFirst(n: Node, a: Message, b: Message, x: Message, y: Message, universe: set<Message>)
    requires FourSent(a, b, x, y) && a in universe && AnswersIn(SILENT, universe)
    requires n.history == [] && n.incoming == [b, x, y] && n.outgoing == [] && n.filter.bits == {2, 3, 4}
    ensures var r := Received(HASH, n, a, SILENT, universe); r.history == [a, b] && r.incoming == [x, y]
  {
    assert !Tests(HASH, n.filter, a.id) by { assert 1 !in n.filter.bits; }
    NothingToReview(a);
    var n1 := Accepted(HASH, n, a, 0);
    assert Ready(n1.history, a);
    var n2 := Delivered(n1, a);
    assert n2.history == [a];
    SplitBuffer(a, b, x, y);
    InsertLast([a], b);
    assert Content([b]) == [b] by { assert [b][..0] == []; }
    assert AddAll([a], [b]) == [a] + [b] by { assert [b][1..] == []; }
  }

  lemma SplitBuffer(a: Message, b: Message, x: Message, y: Message)
    requires FourSent(a, b, x, y)
    ensures ReadyOf([a], [b, x, y]) == [b] && WaitingOf([a], [b, x, y]) == [x, y]
  {
    assert [a][0].id == a.id;
    AllPresentIsReady([a], b.causal);
    NotReady([a], x, b.id);
    NotReady([a], y, b.id);
    assert [b, x, y][..2] == [b, x] && [b, x][..1] == [b] && [b][..0] == [];
    assert ReadyOf([a], [b]) == [b] && WaitingOf([a], [b]) == [];
    assert ReadyOf([a], [b, x]) == [b] && WaitingOf([a], [b, x]) == [x];
  }

  /**
   Node 0 sends four messages, the third without content. Node 1 receives the
   last three unanswered, and then the first. Every dependency is then in its
   history or its buffer, and yet the fourth message never leaves the buffer.
   */
  lemma EmptyContentNeverSatisfies() returns (w: World, x: Message, y: Message)
    ensures Reached(HASH, w) && |w.nodes| == 2
    ensures var n := w.nodes[1];
            && x in n.incoming && x.content == [] && y in n.incoming && x.id in y.causal
            && NothingMissing(n)
            && forall k :: y in Sweeps(n, k).incoming
  {
    var a, b, n;
    w, a, b, x, y := SendFour();
    var sent := w.created.All();
    assert a in [a, b, x, y] && b in [a, b, x, y] && x in [a, b, x, y] && y in [a, b, x, y];
    w, n := HoldThree(w, a, b, x, y, sent);
    w := ReceiveMore(w, n, sent, a);
    DeliverFirst(n, a, b, x, y, sent);
    AllThere(w.nodes[1], a, b, x, y);
    forall k ensures y in Sweeps(w.nodes[1], k).incoming {
      StaysBehind(w.nodes[1], a, b, x, y, k);
    }
  }

  lemma StaysBehind(n: Node, a: Message, b: Message, x: Message, y: Message, k: nat)
    requires FourSent(a, b, x, y) && n.history == [a, b] && n.incoming == [x, y]
    ensures y in Sweeps(n, k).incoming
  {
    assert !Obtainable(n, x.id);
    UnobtainableWaits(n, y, x.id, k);
  }

  lemma AllThere(n: Node, a: Message, b: Message, x: Message, y: Message)
    requires FourSent(a, b, x, y) && n.history == [a, b] && n.incoming == [x, y]
    ensures NothingMissing(n)
  {
    assert n.history[0].id == a.id && n.history[1].id == b.id && n.incoming[0].id == x.id;
  }
}
