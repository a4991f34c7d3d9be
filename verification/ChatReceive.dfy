/**
 What a receive does, and not only what it keeps: which messages it lets in,
 asks for, shows and buffers, and what becomes of the clock and the outgoing
 buffer (examples/chat2-reliable/reliability.go, processReceivedMessage).
 */
module ChatReceive {
  import opened Wrappers
  import opened ChatHistory
  import opened RollingBloom
  import opened ChatNode
  import opened ChatOutgoing
  import opened ChatDelivery

  // ---------- the building blocks ----------

  /** Exactly the dependencies that are not in the history are missing. */
  lemma {:induction false} MissingExactly(history: seq<Message>, deps: seq<Id>, d: Id)
    ensures d in Missing(history, deps) <==> d in deps && !HasId(history, d)
  {
    if deps != [] {
      MissingExactly(history, deps[..|deps| - 1], d);
      assert deps == deps[..|deps| - 1] + [deps[|deps| - 1]];
    }
  }

  /** The recent ids are those of the last messages, newest first, as many as asked for or as there are. */
  lemma {:induction false} RecentAt(history: seq<Message>, n: nat, i: nat)
    ensures |Recent(history, n)| == if n <= |history| then n else |history|
    ensures i < |Recent(history, n)| ==> Recent(history, n)[i] == history[|history| - 1 - i].id
  {
    if history != [] && n > 0 {
      RecentAt(history[..|history| - 1], n - 1, if i == 0 then 0 else i - 1);
    }
  }

  /** A sweep takes the buffer apart message by message and keeps the order. */
  lemma {:induction false} SweepInOrder(history: seq<Message>, a: seq<Message>, b: seq<Message>)
    ensures ReadyOf(history, a + b) == ReadyOf(history, a) + ReadyOf(history, b)
    ensures WaitingOf(history, a + b) == WaitingOf(history, a) + WaitingOf(history, b)
    ensures Content(a + b) == Content(a) + Content(b)
  {
    if b == [] {
      assert a + b == a;
    } else {
      assert (a + b)[..|a + b| - 1] == a + b[..|b| - 1];
      SweepInOrder(history, a, b[..|b| - 1]);
    }
  }

  // ---------- what is let in, and what is asked for ----------

  /** A message that the filter knows changes nothing. */
  lemma SeenIsIgnored(hash: Hash, n: Node, m: Message, fetch: Fetch, universe: set<Message>)
    requires m in universe && AnswersIn(fetch, universe) && Tests(hash, n.filter, m.id)
    ensures Received(hash, n, m, fetch, universe) == n
  {
  }

  /** After a receive the filter knows the message. */
  lemma ReceivedIsSeen(hash: Hash, n: Node, m: Message, fetch: Fetch, universe: set<Message>)
    requires m in universe && AnswersIn(fetch, universe)
    ensures Tests(hash, Received(hash, n, m, fetch, universe).filter, m.id)
  {
    if !Tests(hash, n.filter, m.id) {
      var n1 := Accepted(hash, n, m, fetch.time(n.requests));
      assert Tests(hash, n1.filter, m.id);
      if !Ready(n1.history, m) {
        var n2 := FetchedAll(hash, n1, Missing(n1.history, m.causal), fetch, universe);
        assert n1.filter.bits <= n2.filter.bits;
      }
    }
  }

  lemma {:induction false} FetchedIsSeen(hash: Hash, n: Node, deps: seq<Id>, d: Id, fetch: Fetch,
                                         universe: set<Message>) returns (q: nat)
    requires d in deps && AnswersIn(fetch, universe)
    ensures var r := FetchedAll(hash, n, deps, fetch, universe);
            && n.requests <= q < r.requests
            && forall x :: Answer(fetch, q, d, 0) == Some(x) ==> Tests(hash, r.filter, x.id)
    decreases |deps|
  {
    var n1 := FetchedOne(hash, n, deps[0], fetch, universe);
    UnseenMonotone(hash, n.filter, n1.filter, universe);
    var r := FetchedAll(hash, n1, deps[1..], fetch, universe);
    if d == deps[0] {
      q := n.requests;
      var answer := Answer(fetch, q, d, 0);
      if answer.Some? {
        ReceivedIsSeen(hash, Asked(n), answer.value, fetch, universe);
      }
    } else {
      q := FetchedIsSeen(hash, n1, deps[1..], d, fetch, universe);
    }
  }

  /**
   Each dependency that the history lacks is asked for, and the answer, if one
   of five attempts gives one, is let in before the receive ends.
   */
  lemma MissingAreFetched(hash: Hash, n: Node, m: Message, d: Id, fetch: Fetch, universe: set<Message>) returns (q: nat)
    requires m in universe && AnswersIn(fetch, universe) && !Tests(hash, n.filter, m.id)
    requires d in m.causal && !HasId(n.history, d)
    ensures var r := Received(hash, n, m, fetch, universe);
            && n.requests <= q < r.requests
            && forall x :: Answer(fetch, q, d, 0) == Some(x) ==> Tests(hash, r.filter, x.id)
  {
    var n1 := Accepted(hash, n, m, fetch.time(n.requests));
    if Ready(n1.history, m) { ReadyHasAll(n1.history, m.causal, d); }
    MissingExactly(n1.history, m.causal, d);
    q := FetchedIsSeen(hash, n1, Missing(n1.history, m.causal), d, fetch, universe);
  }

  // ---------- what is shown, and what is buffered ----------

  /** The history when a message that is ready has been delivered. */
  function AfterDelivery(n: Node, m: Message): seq<Message> {
    if m.content != [] then AddToHistory(n.history, m) else n.history
  }

  /**
   A message with nothing missing is shown at once, without asking anybody, and
   one sweep follows: exactly the buffered messages that are not ready then stay.
   */
  lemma ReadyIsShown(hash: Hash, n: Node, m: Message, fetch: Fetch, universe: set<Message>, b: Message)
    requires m in universe && AnswersIn(fetch, universe) && !Tests(hash, n.filter, m.id)
    requires forall d :: d in m.causal ==> HasId(n.history, d)
    ensures var r := Received(hash, n, m, fetch, universe);
            && r.requests == n.requests
            && (m.content != [] ==> n.displayed + [m] <= r.displayed)
            && (b in r.incoming <==> b in n.incoming && !Ready(AfterDelivery(n, m), b))
  {
    AllPresentIsReady(n.history, m.causal);
    var n1 := Delivered(Accepted(hash, n, m, fetch.time(n.requests)), m);
    ReadyMember(n1.history, n1.incoming, b);
  }

  /** A message with something missing is put last into the buffer, after all the fetching. */
  lemma UnreadyIsHeld(hash: Hash, n: Node, m: Message, d: Id, fetch: Fetch, universe: set<Message>)
    requires m in universe && AnswersIn(fetch, universe) && !Tests(hash, n.filter, m.id)
    requires d in m.causal && !HasId(n.history, d)
    ensures var r := Received(hash, n, m, fetch, universe); r.incoming != [] && r.incoming[|r.incoming| - 1] == m
  {
    var n1 := Accepted(hash, n, m, fetch.time(n.requests));
    if Ready(n1.history, m) { ReadyHasAll(n1.history, m.causal, d); }
  }

  // ---------- what only grows, and the clock ----------

  /** Nothing shown, let in or written down is taken back. */
  ghost predicate Extends(n: Node, r: Node) {
    n.displayed <= r.displayed && n.intake <= r.intake && n.journal <= r.journal
  }

  /** The clock is that of the start, or the highest timestamp let in since. */
  ghost predicate ClockFollows(n: Node, r: Node) {
    && |n.intake| <= |r.intake|
    && n.clock <= r.clock
    && (forall i :: |n.intake| <= i < |r.intake| ==> r.intake[i].msg.ts <= r.clock)
    && (r.clock == n.clock || exists i :: |n.intake| <= i < |r.intake| && r.intake[i].msg.ts == r.clock)
  }

  ghost predicate Goes(n: Node, r: Node) {
    Extends(n, r) && ClockFollows(n, r)
  }

  lemma GoesOn(a: Node, b: Node, c: Node)
    requires Goes(a, b) && Goes(b, c)
    ensures Goes(a, c)
  {
    forall i | |a.intake| <= i < |b.intake| ensures c.intake[i].msg.ts <= c.clock {
      assert c.intake[i] == b.intake[i];
    }
    if b.clock != a.clock && c.clock == b.clock {
      var i :| |a.intake| <= i < |b.intake| && b.intake[i].msg.ts == b.clock;
      assert c.intake[i] == b.intake[i];
    }
  }

  lemma AcceptedGoes(hash: Hash, n: Node, m: Message, now: int)
    ensures Goes(n, Accepted(hash, n, m, now))
    ensures n.intake + [Arrival(m, now, false)] == Accepted(hash, n, m, now).intake
  {
    var r := Accepted(hash, n, m, now);
    assert r.intake[|n.intake|].msg == m;
  }

  lemma {:induction false} ReceivedGoes(hash: Hash, n: Node, m: Message, fetch: Fetch, universe: set<Message>)
    requires m in universe && AnswersIn(fetch, universe)
    ensures Goes(n, Received(hash, n, m, fetch, universe))
    ensures !Tests(hash, n.filter, m.id) ==>
      n.intake + [Arrival(m, fetch.time(n.requests), false)] <= Received(hash, n, m, fetch, universe).intake
    decreases |Unseen(hash, n.filter, universe)|, 0, 0
  {
    if !Tests(hash, n.filter, m.id) {
      var now := fetch.time(n.requests);
      AcceptedShrinksUnseen(hash, n, m, now, universe);
      AcceptedGoes(hash, n, m, now);
      var n1 := Accepted(hash, n, m, now);
      if Ready(n1.history, m) {
        assert Goes(n1, Swept(Delivered(n1, m)));
        GoesOn(n, n1, Swept(Delivered(n1, m)));
      } else {
        var missing := Missing(n1.history, m.causal);
        FetchedGoes(hash, n1, missing, fetch, universe);
        var n2 := FetchedAll(hash, n1, missing, fetch, universe);
        GoesOn(n, n1, n2);
        GoesOn(n, n2, Held(n2, m));
      }
    }
  }

  lemma {:induction false} FetchedGoes(hash: Hash, n: Node, deps: seq<Id>, fetch: Fetch, universe: set<Message>)
    requires AnswersIn(fetch, universe)
    ensures Goes(n, FetchedAll(hash, n, deps, fetch, universe))
    decreases |Unseen(hash, n.filter, universe)|, 1, |deps|
  {
    if deps != [] {
      var answer := Answer(fetch, n.requests, deps[0], 0);
      var n1 := FetchedOne(hash, n, deps[0], fetch, universe);
      if answer.Some? {
        ReceivedGoes(hash, Asked(n), answer.value, fetch, universe);
        GoesOn(n, Asked(n), n1);
      }
      UnseenMonotone(hash, n.filter, n1.filter, universe);
      FetchedGoes(hash, n1, deps[1..], fetch, universe);
      GoesOn(n, n1, FetchedAll(hash, n1, deps[1..], fetch, universe));
    }
  }

  // ---------- the outgoing buffer ----------

  /** Entries only leave. */
  ghost predicate Fewer(n: Node, r: Node) {
    Distinct(r.outgoing) && forall u :: u in r.outgoing ==> u in n.outgoing
  }

  lemma AcceptedFewer(hash: Hash, n: Node, m: Message, now: int)
    requires Distinct(n.outgoing)
    ensures Fewer(n, Accepted(hash, n, m, now))
    ensures forall u :: u in Accepted(hash, n, m, now).outgoing ==> !Acknowledges(hash, m, u.msg.id)
  {
    AcksAreFilter(hash, n.outgoing, m);
    UnackedDistinct(hash, n.outgoing, m);
    forall u | u in Unacked(hash, n.outgoing, m) ensures u in n.outgoing && !Acknowledges(hash, m, u.msg.id) {
      UnackedMember(hash, n.outgoing, m, u);
    }
  }

  lemma {:induction false} ReceivedFewer(hash: Hash, n: Node, m: Message, fetch: Fetch, universe: set<Message>)
    requires m in universe && AnswersIn(fetch, universe) && Distinct(n.outgoing)
    ensures Fewer(n, Received(hash, n, m, fetch, universe))
    ensures !Tests(hash, n.filter, m.id) ==>
      forall u :: u in Received(hash, n, m, fetch, universe).outgoing ==> !Acknowledges(hash, m, u.msg.id)
    decreases |Unseen(hash, n.filter, universe)|, 0, 0
  {
    if !Tests(hash, n.filter, m.id) {
      var now := fetch.time(n.requests);
      AcceptedShrinksUnseen(hash, n, m, now, universe);
      AcceptedFewer(hash, n, m, now);
      var n1 := Accepted(hash, n, m, now);
      if !Ready(n1.history, m) {
        FetchedFewer(hash, n1, Missing(n1.history, m.causal), fetch, universe);
      }
    }
  }

  lemma {:induction false} FetchedFewer(hash: Hash, n: Node, deps: seq<Id>, fetch: Fetch, universe: set<Message>)
    requires AnswersIn(fetch, universe) && Distinct(n.outgoing)
    ensures Fewer(n, FetchedAll(hash, n, deps, fetch, universe))
    decreases |Unseen(hash, n.filter, universe)|, 1, |deps|
  {
    if deps != [] {
      var answer := Answer(fetch, n.requests, deps[0], 0);
      var n1 := FetchedOne(hash, n, deps[0], fetch, universe);
      if answer.Some? {
        ReceivedFewer(hash, Asked(n), answer.value, fetch, universe);
      }
      UnseenMonotone(hash, n.filter, n1.filter, universe);
      FetchedFewer(hash, n1, deps[1..], fetch, universe);
    }
  }
}
