/**
 What every handler keeps about the messages a node lets in and shows: nothing
 is lost or duplicated, dependencies are shown first, the history is the
 greatest part of what was shown, and an id is let in again only a full bloom
 window later.

 Inside processReceivedMessage a message has been let in but is neither shown
 nor buffered while its dependencies are fetched; `pending` is that stack.
 */
module ChatDelivery {
  import opened Wrappers
  import opened ChatHistory
  import opened RollingBloom
  import opened ChatNode
  import opened ChatOutgoing

  /** All messages ever built, by SendMessage and by sendSyncMessage. */
  datatype Created = Created(chats: set<Message>, syncs: set<Message>) {
    function All(): set<Message> { chats + syncs }
  }

  /** The messages let in that are to be shown: own ones, and received ones with content. */
  function Owed(intake: seq<Arrival>): multiset<Message> {
    if intake == [] then multiset{}
    else
      var a := intake[|intake| - 1];
      Owed(intake[..|intake| - 1]) + (if a.own || a.msg.content != [] then multiset{a.msg} else multiset{})
  }

  /** Everything let in is shown, buffered or pending, exactly as often as it was let in. */
  ghost predicate Conserved(n: Node, pending: seq<Message>) {
    multiset(n.displayed) + multiset(Content(n.incoming)) + multiset(Content(pending)) == Owed(n.intake)
  }

  /** Each dependency of a shown message was shown before it. */
  ghost predicate Causal(displayed: seq<Message>) {
    forall k, d :: 0 <= k < |displayed| && d in displayed[k].causal ==> HasId(displayed[..k], d)
  }

  ghost predicate Local(n: Node, pending: seq<Message>) {
    && n.history == AddAll([], n.displayed)
    && Causal(n.displayed)
    && Conserved(n, pending)
  }

  /** Two arrivals with the same id are at least a window apart. */
  ghost predicate Spaced(intake: seq<Arrival>) {
    forall i, j :: 0 <= i < j < |intake| && intake[i].msg.id == intake[j].msg.id
               ==> intake[j].time - intake[i].time >= WINDOW
  }

  ghost predicate Remembers(f: Filter, intake: seq<Arrival>, now: int) {
    forall a :: a in intake ==> a.time <= now && (Stamp(a.msg.id, a.time) in f.messages || now - a.time >= WINDOW)
  }

  ghost predicate Window(hash: Hash, n: Node, now: int) {
    && Coherent(hash, n.filter)
    && Remembers(n.filter, n.intake, now)
    && Spaced(n.intake)
  }

  /** Where a node's messages come from, and (`safe`) that its clock has caught up with them. */
  ghost predicate Honest(n: Node, pending: seq<Message>, w: Created, safe: bool) {
    && (forall m :: m in n.displayed ==> m in w.chats)
    && (forall m :: m in n.incoming || m in pending ==> m in w.All())
    && (forall a :: a in n.intake ==> a.msg in w.All())
    && (forall m :: m in w.syncs ==> m.content == [])
    && (safe ==> forall m :: m in n.displayed || m in n.incoming || m in pending ==> m.ts <= n.clock)
  }

  // ---------- facts about the building blocks ----------

  lemma {:induction false} ReadyHasAll(history: seq<Message>, deps: seq<Id>, d: Id)
    requires Missing(history, deps) == [] && d in deps
    ensures HasId(history, d)
  {
    if d != deps[|deps| - 1] {
      assert deps == deps[..|deps| - 1] + [deps[|deps| - 1]];
      ReadyHasAll(history, deps[..|deps| - 1], d);
    }
  }

  lemma {:induction false} AllPresentIsReady(history: seq<Message>, deps: seq<Id>)
    requires forall d :: d in deps ==> HasId(history, d)
    ensures Missing(history, deps) == []
  {
    if deps != [] {
      AllPresentIsReady(history, deps[..|deps| - 1]);
    }
  }

  lemma HistoryShown(displayed: seq<Message>, m: Message)
    requires m in AddAll([], displayed)
    ensures m in displayed
  {
    HistoryIsGreatest(displayed);
    assert m in multiset(AddAll([], displayed));
    assert m in multiset(displayed);
  }

  lemma HistoryIdShown(displayed: seq<Message>, d: Id)
    requires HasId(AddAll([], displayed), d)
    ensures HasId(displayed, d)
  {
    var h := AddAll([], displayed);
    var i :| 0 <= i < |h| && h[i].id == d;
    HistoryShown(displayed, h[i]);
  }

  lemma ContentSnoc(s: seq<Message>, m: Message)
    ensures Content(s + [m]) == Content(s) + (if m.content != [] then [m] else [])
  {
    assert (s + [m])[..|s|] == s;
  }

  lemma OwedSnoc(s: seq<Arrival>, a: Arrival)
    ensures Owed(s + [a]) == Owed(s) + (if a.own || a.msg.content != [] then multiset{a.msg} else multiset{})
  {
    assert (s + [a])[..|s|] == s;
  }

  lemma {:induction false} ContentMember(s: seq<Message>, m: Message)
    ensures m in Content(s) <==> m in s && m.content != []
  {
    if s != [] {
      ContentMember(s[..|s| - 1], m);
      assert s == s[..|s| - 1] + [s[|s| - 1]];
    }
  }

  /** Sweeping splits the buffer into ready and waiting messages. */
  lemma {:induction false} SweepSplits(history: seq<Message>, buffer: seq<Message>)
    ensures multiset(Content(buffer))
         == multiset(Content(ReadyOf(history, buffer))) + multiset(Content(WaitingOf(history, buffer)))
  {
    if buffer != [] {
      var pre, m := buffer[..|buffer| - 1], buffer[|buffer| - 1];
      SweepSplits(history, pre);
      ContentSnoc(ReadyOf(history, pre), m);
      ContentSnoc(WaitingOf(history, pre), m);
    }
  }

  lemma {:induction false} ReadyMember(history: seq<Message>, buffer: seq<Message>, m: Message)
    ensures m in ReadyOf(history, buffer) <==> m in buffer && Ready(history, m)
    ensures m in WaitingOf(history, buffer) <==> m in buffer && !Ready(history, m)
  {
    if buffer != [] {
      ReadyMember(history, buffer[..|buffer| - 1], m);
      assert buffer == buffer[..|buffer| - 1] + [buffer[|buffer| - 1]];
    }
  }

  lemma CausalSnoc(displayed: seq<Message>, m: Message)
    requires Causal(displayed) && forall d :: d in m.causal ==> HasId(displayed, d)
    ensures Causal(displayed + [m])
  {
    var s := displayed + [m];
    forall k, d | 0 <= k < |s| && d in s[k].causal ensures HasId(s[..k], d) {
      assert s[..k] == displayed[..k];
      if k == |displayed| { assert displayed[..k] == displayed; }
    }
  }

  lemma ReadyShown(n: Node, pending: seq<Message>, m: Message)
    requires Local(n, pending) && Ready(n.history, m)
    ensures forall d :: d in m.causal ==> HasId(n.displayed, d)
  {
    forall d | d in m.causal ensures HasId(n.displayed, d) {
      ReadyHasAll(n.history, m.causal, d);
      HistoryIdShown(n.displayed, d);
    }
  }

  lemma {:induction false} CausalAppend(displayed: seq<Message>, more: seq<Message>)
    requires Causal(displayed)
    requires forall m, d :: m in more && d in m.causal ==> HasId(displayed, d)
    ensures Causal(displayed + more)
    decreases |more|
  {
    if more == [] {
      assert displayed + more == displayed;
    } else {
      CausalSnoc(displayed, more[0]);
      assert displayed + [more[0]] + more[1..] == displayed + more;
      forall m, d | m in more[1..] && d in m.causal ensures HasId(displayed + [more[0]], d) {
        assert m in more && HasId(displayed, d);
        var i :| 0 <= i < |displayed| && displayed[i].id == d;
        assert (displayed + [more[0]])[i].id == d;
      }
      CausalAppend(displayed + [more[0]], more[1..]);
    }
  }

  // ---------- each building block keeps the invariants ----------

  lemma AcceptedLocal(hash: Hash, n: Node, m: Message, now: int, pending: seq<Message>)
    requires Local(n, pending)
    ensures Local(Accepted(hash, n, m, now), pending + [m])
  {
    ContentSnoc(pending, m);
    OwedSnoc(n.intake, Arrival(m, now, false));
  }

  lemma DeliveredLocal(n: Node, m: Message, pending: seq<Message>)
    requires Local(n, pending + [m]) && Ready(n.history, m)
    ensures Local(Delivered(n, m), pending)
  {
    ContentSnoc(pending, m);
    ReadyShown(n, pending + [m], m);
    if m.content != [] {
      CausalSnoc(n.displayed, m);
      AddAllSnoc([], n.displayed, m);
    }
  }

  lemma HeldLocal(n: Node, m: Message, pending: seq<Message>)
    requires Local(n, pending + [m])
    ensures Local(Held(n, m), pending)
  {
    ContentSnoc(pending, m);
    ContentSnoc(n.incoming, m);
  }

  lemma SweptLocal(n: Node, pending: seq<Message>)
    requires Local(n, pending)
    ensures Local(Swept(n), pending)
  {
    var shown := Content(ReadyOf(n.history, n.incoming));
    SweepSplits(n.history, n.incoming);
    AddAllAppend([], n.displayed, shown);
    forall m, d | m in shown && d in m.causal ensures HasId(n.displayed, d) {
      ContentMember(ReadyOf(n.history, n.incoming), m);
      ReadyMember(n.history, n.incoming, m);
      ReadyShown(n, pending, m);
    }
    CausalAppend(n.displayed, shown);
  }

  lemma AcceptedWindow(hash: Hash, n: Node, m: Message, now: int)
    requires Window(hash, n, now) && !Tests(hash, n.filter, m.id)
    ensures Window(hash, Accepted(hash, n, m, now), now)
  {
    AddedCoherent(hash, n.filter, m.id, now);
    var f := Added(hash, n.filter, m.id, now);
    var intake := n.intake + [Arrival(m, now, false)];
    forall i | 0 <= i < |n.intake| && n.intake[i].msg.id == m.id ensures now - n.intake[i].time >= WINDOW {
      var e := Stamp(n.intake[i].msg.id, n.intake[i].time);
      if e in n.filter.messages {
        BitsOfMember(hash, n.filter.messages, e);
      }
    }
    assert Spaced(intake);
    assert Remembers(f, intake, now);
  }

  lemma CleanedWindow(hash: Hash, n: Node, now: int)
    requires Window(hash, n, now)
    ensures Window(hash, n.(filter := Cleaned(hash, n.filter, now)), now)
  {
    var f := Cleaned(hash, n.filter, now);
    forall a | a in n.intake ensures Stamp(a.msg.id, a.time) in f.messages || now - a.time >= WINDOW {
      KeptExactly(n.filter.messages, now - WINDOW, Stamp(a.msg.id, a.time));
    }
  }

  lemma SweptHonest(n: Node, pending: seq<Message>, w: Created, safe: bool)
    requires Honest(n, pending, w, safe)
    ensures Honest(Swept(n), pending, w, safe)
  {
    var shown := Content(ReadyOf(n.history, n.incoming));
    forall m | m in shown ensures m in w.chats && m in n.incoming {
      ContentMember(ReadyOf(n.history, n.incoming), m);
      ReadyMember(n.history, n.incoming, m);
    }
    forall m | m in WaitingOf(n.history, n.incoming) ensures m in n.incoming {
      ReadyMember(n.history, n.incoming, m);
    }
  }

  // ---------- a whole receive ----------

  ghost predicate IdCreated(w: Created, id: Id) {
    exists m :: m in w.chats && m.id == id
  }

  /** The outgoing buffer agrees with the journal, which speaks of created messages only. */
  ghost predicate Accounted(hash: Hash, n: Node, w: Created) {
    && Tracked(hash, n.outgoing, n.journal, n.intake)
    && forall id :: Times(n.journal, id) != [] ==> IdCreated(w, id)
  }

  ghost predicate Inv(hash: Hash, n: Node, pending: seq<Message>, w: Created, now: int, safe: bool) {
    && Local(n, pending)
    && Window(hash, n, now)
    && Honest(n, pending, w, safe)
    && Accounted(hash, n, w)
  }

  lemma AcceptedAccounted(hash: Hash, n: Node, m: Message, w: Created, now: int)
    requires Accounted(hash, n, w)
    ensures Accounted(hash, Accepted(hash, n, m, now), w)
  {
    var a := Arrival(m, now, false);
    var intake := n.intake + [a];
    assert a in intake && a.msg == m;
    assert Justified(hash, n.journal, intake);
    ReviewedTracked(hash, n.outgoing, n.journal, intake, m);
    var after := AfterAcks(hash, n.outgoing, m);
    forall id ensures Times(n.journal + AckEvents(n.outgoing, after, m), id) == Times(n.journal, id) {
      AckEventsExact(n.outgoing, after, m, id);
      TimesAppend(n.journal, AckEvents(n.outgoing, after, m), id);
    }
  }

  lemma AcceptedInv(hash: Hash, n: Node, m: Message, pending: seq<Message>, w: Created, now: int, safe: bool)
    requires Inv(hash, n, pending, w, now, safe) && m in w.All() && !Tests(hash, n.filter, m.id)
    ensures Inv(hash, Accepted(hash, n, m, now), pending + [m], w, now, safe)
  {
    AcceptedLocal(hash, n, m, now, pending);
    AcceptedWindow(hash, n, m, now);
    AcceptedAccounted(hash, n, m, w, now);
  }

  lemma DeliveredInv(hash: Hash, n: Node, m: Message, pending: seq<Message>, w: Created, now: int, safe: bool)
    requires Inv(hash, n, pending + [m], w, now, safe) && Ready(n.history, m)
    ensures Inv(hash, Swept(Delivered(n, m)), pending, w, now, safe)
  {
    assert m in pending + [m];
    DeliveredLocal(n, m, pending);
    var d := Delivered(n, m);
    assert Honest(d, pending, w, safe);
    SweptLocal(d, pending);
    SweptHonest(d, pending, w, safe);
  }

  lemma HeldInv(hash: Hash, n: Node, m: Message, pending: seq<Message>, w: Created, now: int, safe: bool)
    requires Inv(hash, n, pending + [m], w, now, safe)
    ensures Inv(hash, Held(n, m), pending, w, now, safe)
  {
    assert m in pending + [m];
    HeldLocal(n, m, pending);
  }

  /** While a node waits for answers, time does not go back, and stays between the start and the end of the receive. */
  ghost predicate Timely(fetch: Fetch, from: nat, start: int, end: int) {
    && (forall r :: from <= r ==> start <= fetch.time(r) <= end)
    && (forall r, t :: from <= r <= t ==> fetch.time(r) <= fetch.time(t))
  }

  /** Time passing does not disturb a node. */
  lemma InvLater(hash: Hash, n: Node, pending: seq<Message>, w: Created, now: int, later: int, safe: bool)
    requires Inv(hash, n, pending, w, now, safe) && now <= later
    ensures Inv(hash, n, pending, w, later, safe)
  {
  }

  lemma AskedInv(hash: Hash, n: Node, pending: seq<Message>, w: Created, now: int, safe: bool)
    requires Inv(hash, n, pending, w, now, safe)
    ensures Inv(hash, Asked(n), pending, w, now, safe)
  {
  }

  lemma {:induction false} ReceivedInv(hash: Hash, n: Node, m: Message, fetch: Fetch, pending: seq<Message>,
                                       w: Created, start: int, end: int, safe: bool)
    requires Timely(fetch, n.requests, start, end) && m in w.All() && AnswersIn(fetch, w.All())
    requires Inv(hash, n, pending, w, fetch.time(n.requests), safe)
    ensures var r := Received(hash, n, m, fetch, w.All()); Inv(hash, r, pending, w, fetch.time(r.requests), safe)
    decreases |Unseen(hash, n.filter, w.All())|, 0, 0
  {
    if !Tests(hash, n.filter, m.id) {
      var now := fetch.time(n.requests);
      AcceptedShrinksUnseen(hash, n, m, now, w.All());
      AcceptedInv(hash, n, m, pending, w, now, safe);
      var n1 := Accepted(hash, n, m, now);
      if Ready(n1.history, m) {
        DeliveredInv(hash, n1, m, pending, w, now, safe);
      } else {
        var missing := Missing(n1.history, m.causal);
        FetchedAllInv(hash, n1, missing, fetch, pending + [m], w, start, end, safe);
        var n2 := FetchedAll(hash, n1, missing, fetch, w.All());
        HeldInv(hash, n2, m, pending, w, fetch.time(n2.requests), safe);
      }
    }
  }

  lemma {:induction false} FetchedOneInv(hash: Hash, n: Node, dep: Id, fetch: Fetch, pending: seq<Message>,
                                         w: Created, start: int, end: int, safe: bool)
    requires Timely(fetch, n.requests, start, end) && AnswersIn(fetch, w.All())
    requires Inv(hash, n, pending, w, fetch.time(n.requests), safe)
    ensures var r := FetchedOne(hash, n, dep, fetch, w.All()); Inv(hash, r, pending, w, fetch.time(r.requests), safe)
    decreases |Unseen(hash, n.filter, w.All())|, 1, 0
  {
    var answer := Answer(fetch, n.requests, dep, 0);
    InvLater(hash, n, pending, w, fetch.time(n.requests), fetch.time(n.requests + 1), safe);
    AskedInv(hash, n, pending, w, fetch.time(n.requests + 1), safe);
    if answer.Some? {
      ReceivedInv(hash, Asked(n), answer.value, fetch, pending, w, start, end, safe);
    }
  }

  lemma {:induction false} FetchedAllInv(hash: Hash, n: Node, deps: seq<Id>, fetch: Fetch, pending: seq<Message>,
                                         w: Created, start: int, end: int, safe: bool)
    requires Timely(fetch, n.requests, start, end) && AnswersIn(fetch, w.All())
    requires Inv(hash, n, pending, w, fetch.time(n.requests), safe)
    ensures var r := FetchedAll(hash, n, deps, fetch, w.All()); Inv(hash, r, pending, w, fetch.time(r.requests), safe)
    decreases |Unseen(hash, n.filter, w.All())|, 2, |deps|
  {
    if deps != [] {
      FetchedOneInv(hash, n, deps[0], fetch, pending, w, start, end, safe);
      var n1 := FetchedOne(hash, n, deps[0], fetch, w.All());
      UnseenMonotone(hash, n.filter, n1.filter, w.All());
      FetchedAllInv(hash, n1, deps[1..], fetch, pending, w, start, end, safe);
    }
  }

  // ---------- what the invariants say to a user ----------

  lemma {:induction false} OwedArrived(intake: seq<Arrival>, m: Message) returns (i: nat)
    requires m in Owed(intake)
    ensures i < |intake| && intake[i].msg == m
  {
    if intake[|intake| - 1].msg == m {
      i := |intake| - 1;
    } else {
      i := OwedArrived(intake[..|intake| - 1], m);
    }
  }

  lemma {:induction false} OwedTwiceArrivedTwice(intake: seq<Arrival>, m: Message) returns (i: nat, j: nat)
    requires Owed(intake)[m] >= 2
    ensures i < j < |intake| && intake[i].msg == m == intake[j].msg
  {
    if intake[|intake| - 1].msg == m {
      j := |intake| - 1;
      i := OwedArrived(intake[..|intake| - 1], m);
    } else {
      i, j := OwedTwiceArrivedTwice(intake[..|intake| - 1], m);
    }
  }

  lemma TwiceInMultiset(s: seq<Message>, k1: nat, k2: nat)
    requires k1 < k2 < |s| && s[k1] == s[k2]
    ensures multiset(s)[s[k1]] >= 2
  {
    assert s == s[..k2] + [s[k2]] + s[k2 + 1..];
    assert s[..k2][k1] == s[k1];
    assert multiset(s) == multiset(s[..k2]) + multiset{s[k2]} + multiset(s[k2 + 1..]);
  }

  /** An id shown twice was let in twice, at least a full bloom window apart. */
  lemma ShownTwiceIsAWindowApart(hash: Hash, n: Node, now: int, k1: nat, k2: nat) returns (i: nat, j: nat)
    requires Conserved(n, []) && Window(hash, n, now)
    requires k1 < k2 < |n.displayed| && n.displayed[k1].id == n.displayed[k2].id
    ensures i < j < |n.intake|
    ensures n.intake[i].msg.id == n.intake[j].msg.id == n.displayed[k1].id
    ensures n.intake[j].time - n.intake[i].time >= WINDOW
  {
    var x, y := n.displayed[k1], n.displayed[k2];
    if x == y {
      TwiceInMultiset(n.displayed, k1, k2);
      i, j := OwedTwiceArrivedTwice(n.intake, x);
    } else {
      assert x in multiset(n.displayed) && y in multiset(n.displayed);
      i := OwedArrived(n.intake, x);
      j := OwedArrived(n.intake, y);
      if j < i { i, j := j, i; }
    }
  }

  lemma {:induction false} ArrivedIsOwed(intake: seq<Arrival>, i: nat)
    requires i < |intake| && (intake[i].own || intake[i].msg.content != [])
    ensures intake[i].msg in Owed(intake)
  {
    if i < |intake| - 1 { ArrivedIsOwed(intake[..|intake| - 1], i); }
  }

  /** A content message past the bloom filter is shown or still buffered. */
  lemma NothingLost(n: Node, i: nat)
    requires Conserved(n, []) && i < |n.intake| && (n.intake[i].own || n.intake[i].msg.content != [])
    ensures n.intake[i].msg in n.displayed || n.intake[i].msg in n.incoming
  {
    var m := n.intake[i].msg;
    ArrivedIsOwed(n.intake, i);
    assert m in multiset(n.displayed) || m in multiset(Content(n.incoming));
    ContentMember(n.incoming, m);
  }
}
