/**
 Exactly when the history retriever can deadlock: its consumers put follow-up
 work into the same bounded queue that the producer fills and the main loop
 empties, and the main loop waits for a consumer slot while holding an item.
 */
module HistoryDeadlock {
  import opened Wrappers
  import opened HistoryWindows
  import opened HistoryRetriever
  import opened HistoryTheorems

  /** Not complete, and no step is possible. */
  ghost predicate Stuck(store: seq<Stored>, s: State) {
    !s.main.Completed? && forall a :: !Enabled(store, s, a)
  }

  /** A full queue, a held item and every slot taken by a consumer that waits for the queue. */
  ghost predicate Jammed(s: State) {
    && |s.queue| >= QUEUE_CAPACITY
    && s.main.Holding?
    && |s.consumers| == SLOTS
    && AllRequeueing(s.consumers)
  }

  ghost predicate AllRequeueing(cs: seq<Consumer>) {
    forall i :: 0 <= i < |cs| ==> cs[i].Requeueing?
  }

  lemma {:induction false} RequeueingCarry(cs: seq<Consumer>)
    requires AllRequeueing(cs)
    ensures Loads(Carried(ONE), cs) == |cs|
  {
    if cs != [] { RequeueingCarry(cs[..|cs| - 1]); }
  }

  lemma JammedCount(s: State)
    requires Jammed(s)
    ensures Count(s) >= QUEUE_CAPACITY + 1 + SLOTS
  {
    SumOfOnes(s.queue);
    RequeueingCarry(s.consumers);
  }

  /** A consumer that is not waiting for the queue can always go on. */
  lemma ConsumerGoesOn(store: seq<Stored>, c: Criteria, s: State, i: nat) returns (a: Step)
    requires Inv(store, c, s) && i < |s.consumers| && !s.consumers[i].Requeueing?
    ensures Enabled(store, s, a)
  {
    match s.consumers[i] {
      case Querying(w) =>
        LoadIncluded(Carried(BadCursor(store)), s.consumers, i);
        a := Page(i, Select(store[From(w)..], Windowed(w.criteria)), None, true);
      case Adding(_) => a := AddWork(i);
      case Finishing => a := Done(i);
      case Releasing => a := Release(i);
    }
  }

  /** In a reachable state some step is possible, unless the query is complete or jammed. */
  lemma GoesOnUnlessJammed(store: seq<Stored>, c: Criteria, s: State) returns (a: Step)
    requires Inv(store, c, s) && !s.main.Completed? && !Jammed(s)
    ensures Enabled(store, s, a)
  {
    if i :| 0 <= i < |s.consumers| && !s.consumers[i].Requeueing? {
      a := ConsumerGoesOn(store, c, s, i);
    } else if s.main.Holding? && |s.consumers| < SLOTS {
      a := Spawn;
    } else if s.main.Selecting? && s.queue != [] {
      a := Take;
    } else if s.consumers != [] {
      a := Requeue(0);
    } else if s.unproduced != [] {
      a := Produce;
    } else {
      a := Complete;
    }
  }

  /** A request can leave work behind: an earlier window, or a cursor into a store that holds something. */
  predicate LeavesWork(store: seq<Stored>, c: Criteria) {
    Exceeds(c) || store != []
  }

  /** Enough batches to fill the queue, the slots and the hands of the main loop, and requests that leave work. */
  predicate CanJam(store: seq<Stored>, c: Criteria) {
    |c.topics| > 10030 && LeavesWork(store, c)
  }

  /** No window to come anywhere, and no consumer with work to queue again. */
  ghost predicate NoFollowUps(s: State) {
    && (forall i :: 0 <= i < |s.unproduced| ==> !Exceeds(s.unproduced[i].criteria))
    && (forall i :: 0 <= i < |s.queue| ==> !Exceeds(s.queue[i].criteria))
    && (s.main.Holding? ==> !Exceeds(s.main.work.criteria))
    && AllShort(s.consumers)
  }

  ghost predicate AllShort(cs: seq<Consumer>) {
    forall i :: 0 <= i < |cs| ==> ShortConsumer(cs[i])
  }

  predicate ShortConsumer(c: Consumer) {
    !c.Adding? && !c.Requeueing? && (c.Querying? ==> !Exceeds(c.work.criteria))
  }

  /** From an empty store no cursor comes back. */
  lemma StepNoFollowUps(s: State, a: Step)
    requires NoFollowUps(s) && Enabled([], s, a)
    ensures NoFollowUps(Next([], s, a))
  {
    if a.Page? || a.AddWork? || a.Requeue? || a.Done? {
      assert ShortConsumer(s.consumers[a.consumer]);
      NextConsumers([], s, a);
      ShortAround(s.consumers, a.consumer, Advanced(s, a));
    }
  }

  lemma ShortAround(cs: seq<Consumer>, i: nat, c: Consumer)
    requires i < |cs| && ShortConsumer(c) && AllShort(cs)
    ensures AllShort(cs[..i] + [c] + cs[i + 1..])
  {
  }

  lemma {:induction false} PathNoFollowUps(s: State, steps: seq<Step>, t: State)
    requires NoFollowUps(s) && Path([], s, steps, t)
    ensures NoFollowUps(t)
    decreases |steps|
  {
    if steps != [] {
      StepNoFollowUps(s, steps[0]);
      PathNoFollowUps(Next([], s, steps[0]), steps[1..], t);
    }
  }

  lemma {:induction false} InitialNoFollowUps(c: Criteria, batches: seq<seq<string>>)
    requires !Exceeds(c)
    ensures forall i :: 0 <= i < |InitialWorks(c, batches)| ==> !Exceeds(InitialWorks(c, batches)[i].criteria)
  {
    if batches != [] { InitialNoFollowUps(c, batches[1..]); }
  }

  lemma JamNeedsFollowUps(s: State)
    requires Jammed(s)
    ensures !NoFollowUps(s)
  {
    assert !ShortConsumer(s.consumers[0]);
  }

  /** Unless it can jam, a query can go on from every reachable state until it is complete. */
  lemma NoDeadlock(store: seq<Stored>, c: Criteria, steps: seq<Step>, s: State) returns (a: Step)
    requires Path(store, Initial(c), steps, s) && !s.main.Completed? && !CanJam(store, c)
    ensures Enabled(store, s, a)
  {
    ReachableInv(store, c, steps, s);
    ChunkCount(c.topics);
    if Jammed(s) {
      JammedCount(s);
      InitialNoFollowUps(c, Chunks(c.topics));
      PathNoFollowUps(Initial(c), steps, s);
      JamNeedsFollowUps(s);
    }
    a := GoesOnUnlessJammed(store, c, s);
  }

  // ---------- reaching the jam ----------

  lemma {:induction false} PathAppend(store: seq<Stored>, s: State, a: seq<Step>, t: State, b: seq<Step>, u: State)
    requires Path(store, s, a, t) && Path(store, t, b, u)
    ensures Path(store, s, a + b, u)
    decreases |a|
  {
    if a == [] {
      assert a + b == b;
    } else {
      assert (a + b)[1..] == a[1..] + b;
      PathAppend(store, Next(store, s, a[0]), a[1..], t, b, u);
    }
  }

  lemma PathStep(store: seq<Stored>, s: State, a: Step)
    requires Enabled(store, s, a)
    ensures Path(store, s, [a], Next(store, s, a))
  {
    assert [a][1..] == [];
  }

  /** Every item is at its start and leaves work when it is requested. */
  ghost predicate LongWorks(store: seq<Stored>, ws: seq<Work>) {
    forall i :: 0 <= i < |ws| ==> LeavesWork(store, ws[i].criteria) && ws[i].cursor == None
  }

  ghost predicate Warming(store: seq<Stored>, s: State) {
    s.queue == [] && s.main.Selecting? && AllRequeueing(s.consumers) && LongWorks(store, s.unproduced)
  }

  lemma FiveSteps(store: seq<Stored>, s: State, a: Step, b: Step, c: Step, d: Step, e: Step)
    requires Enabled(store, s, a)
    requires var s1 := Next(store, s, a); Enabled(store, s1, b)
    requires var s2 := Next(store, Next(store, s, a), b); Enabled(store, s2, c)
    requires var s3 := Next(store, Next(store, Next(store, s, a), b), c); Enabled(store, s3, d)
    requires var s4 := Next(store, Next(store, Next(store, Next(store, s, a), b), c), d); Enabled(store, s4, e)
    ensures var s4 := Next(store, Next(store, Next(store, Next(store, s, a), b), c), d);
            Path(store, s, [a, b, c, d, e], Next(store, s4, e))
  {
    var s1 := Next(store, s, a);
    var s2 := Next(store, s1, b);
    var s3 := Next(store, s2, c);
    var s4 := Next(store, s3, d);
    var s5 := Next(store, s4, e);
    PathStep(store, s, a);
    PathStep(store, s1, b);
    PathStep(store, s2, c);
    PathStep(store, s3, d);
    PathStep(store, s4, e);
    PathAppend(store, s, [a], s1, [b], s2);
    PathAppend(store, s, [a] + [b], s2, [c], s3);
    PathAppend(store, s, [a] + [b] + [c], s3, [d], s4);
    PathAppend(store, s, [a] + [b] + [c] + [d], s4, [e], s5);
    assert [a] + [b] + [c] + [d] + [e] == [a, b, c, d, e];
  }

  /** A first page that leaves work: the whole window and then an earlier one, or a cursor after one message. */
  function FirstPage(store: seq<Stored>, w: Work, k: nat): Step {
    if Exceeds(w.criteria) || store == [] then Page(k, Select(store, Windowed(w.criteria)), None, true)
    else Page(k, Select(store[..1], Windowed(w.criteria)), Some(1), true)
  }

  lemma FirstPageLeavesWork(store: seq<Stored>, w: Work, k: nat)
    requires LeavesWork(store, w.criteria) && w.cursor == None
    ensures var p := FirstPage(store, w, k);
            FaithfulPage(store, w, p.page, p.next) && AfterPage(w, p.next).Some?
  {
    assert store[0..] == store;
    if store != [] { assert store[0..1] == store[..1]; }
  }

  /** One more batch is produced, taken, requested, and waits to be queued again. */
  lemma WarmUp(store: seq<Stored>, s: State) returns (steps: seq<Step>, t: State)
    requires Warming(store, s) && s.unproduced != [] && |s.consumers| < SLOTS
    ensures Path(store, s, steps, t) && Warming(store, t)
    ensures t.unproduced == s.unproduced[1..] && |t.consumers| == |s.consumers| + 1
  {
    var w, k := s.unproduced[0], |s.consumers|;
    var s1 := Next(store, s, Produce);
    var s2 := Next(store, s1, Take);
    var s3 := Next(store, s2, Spawn);
    var page := FirstPage(store, w, k);
    FirstPageLeavesWork(store, w, k);
    var after := AfterPage(w, page.next).value;
    assert s3.consumers[k] == Querying(w);
    var s4 := Next(store, s3, page);
    assert s4.consumers == s.consumers + [Adding(after)];
    t := Next(store, s4, AddWork(k));
    assert t.consumers == s.consumers + [Requeueing(after)];
    steps := [Produce, Take, Spawn, page, AddWork(k)];
    FiveSteps(store, s, Produce, Take, Spawn, page, AddWork(k));
  }

  lemma {:induction false} FillQueue(store: seq<Stored>, s: State, n: nat) returns (steps: seq<Step>, t: State)
    requires n <= |s.unproduced| && |s.queue| + n <= QUEUE_CAPACITY
    ensures Path(store, s, steps, t)
    ensures t.main == s.main && t.consumers == s.consumers
    ensures |t.queue| == |s.queue| + n && |t.unproduced| == |s.unproduced| - n
    decreases n
  {
    if n == 0 {
      steps, t := [], s;
    } else {
      var s1 := Next(store, s, Produce);
      var more, u := FillQueue(store, s1, n - 1);
      PathStep(store, s, Produce);
      PathAppend(store, s, [Produce], s1, more, u);
      steps, t := [Produce] + more, u;
    }
  }

  lemma JammedIsStuck(store: seq<Stored>, s: State)
    requires Jammed(s)
    ensures Stuck(store, s)
  {
  }

  lemma {:induction false} InitialLong(store: seq<Stored>, c: Criteria, batches: seq<seq<string>>)
    requires LeavesWork(store, c)
    ensures LongWorks(store, InitialWorks(c, batches)) && |InitialWorks(c, batches)| == |batches|
  {
    if batches != [] { InitialLong(store, c, batches[1..]); }
  }

  lemma Jam(store: seq<Stored>, s: State) returns (steps: seq<Step>, t: State)
    requires Warming(store, s) && s.consumers == [] && |s.unproduced| >= QUEUE_CAPACITY + 1 + SLOTS
    ensures Path(store, s, steps, t) && Jammed(t)
  {
    var p1, s1 := WarmUp(store, s);
    var p2, s2 := WarmUp(store, s1);
    var p3, s3 := WarmUp(store, s2);
    PathAppend(store, s, p1, s1, p2, s2);
    PathAppend(store, s, p1 + p2, s2, p3, s3);
    var s4 := Next(store, s3, Produce);
    var s5 := Next(store, s4, Take);
    PathStep(store, s3, Produce);
    PathStep(store, s4, Take);
    PathAppend(store, s, p1 + p2 + p3, s3, [Produce], s4);
    PathAppend(store, s, p1 + p2 + p3 + [Produce], s4, [Take], s5);
    var p6, s6 := FillQueue(store, s5, QUEUE_CAPACITY);
    PathAppend(store, s, p1 + p2 + p3 + [Produce] + [Take], s5, p6, s6);
    steps, t := p1 + p2 + p3 + [Produce] + [Take] + p6, s6;
  }

  ghost predicate LeadsToDeadlock(store: seq<Stored>, c: Criteria, steps: seq<Step>, s: State) {
    Path(store, Initial(c), steps, s) && Stuck(store, s)
  }

  /**
   A query can deadlock if and only if it asks for more than 10030 content
   topics and its requests leave work behind: the range is longer than a day,
   or the store holds a message, so that a page may end with a cursor.
   */
  lemma DeadlockIff(store: seq<Stored>, c: Criteria)
    ensures (exists steps, s :: LeadsToDeadlock(store, c, steps, s))
       <==> |c.topics| > 10030 && (Exceeds(c) || store != [])
  {
    ChunkCount(c.topics);
    if CanJam(store, c) {
      InitialLong(store, c, Chunks(c.topics));
      var steps, s := Jam(store, Initial(c));
      JammedIsStuck(store, s);
      assert LeadsToDeadlock(store, c, steps, s);
    } else {
      forall steps, s | Path(store, Initial(c), steps, s) ensures !LeadsToDeadlock(store, c, steps, s) {
        if !s.main.Completed? { var a := NoDeadlock(store, c, steps, s); }
      }
    }
  }
}
