/**
 HistoryRetriever.Query as a step machine: a producer, a queue of 1000 places,
 a main loop, consumers limited by a semaphore of three, and the wait group
 that decides when everything is done (waku/v2/api/history/history.go). The
 store node is any faithful pager over a fixed list of stored messages.
 */
module HistoryRetriever {
  import opened Wrappers
  import opened HistoryWindows

  const QUEUE_CAPACITY: nat := 1000
  const SLOTS: nat := 3

  /** A request to make: the criteria left, and how far the current window has been read. */
  datatype Work = Work(criteria: Criteria, cursor: Option<nat>)

  /** A consumer goroutine, by what it does next. */
  datatype Consumer =
    | Querying(work: Work)
    | Adding(work: Work)
    | Requeueing(work: Work)
    | Finishing
    | Releasing

  datatype Main = Selecting | Holding(work: Work) | Completed

  datatype State = State(
    unproduced: seq<Work>, queue: seq<Work>, main: Main, consumers: seq<Consumer>, waitGroup: int,
    handed: multiset<Stored>, skipped: multiset<Stored>)

  datatype Step =
    | Produce
    | Take
    | Spawn
    | Page(consumer: nat, page: seq<Stored>, next: Option<nat>, more: bool)
    | AddWork(consumer: nat)
    | Requeue(consumer: nat)
    | Done(consumer: nat)
    | Release(consumer: nat)
    | Complete

  // ---------- requests ----------

  function From(w: Work): nat {
    if w.cursor.Some? then w.cursor.value else 0
  }

  /** A page holds the matches up to some later position, or all the rest. */
  predicate FaithfulPage(store: seq<Stored>, w: Work, page: seq<Stored>, next: Option<nat>) {
    && From(w) <= |store|
    && if next.Some?
       then From(w) < next.value <= |store| && page == Select(store[From(w)..next.value], Windowed(w.criteria))
       else page == Select(store[From(w)..], Windowed(w.criteria))
  }

  /** The work to queue after a page, if any. */
  function AfterPage(w: Work, next: Option<nat>): Option<Work> {
    if next.None? && !Exceeds(w.criteria) then None
    else if next.None? then Some(Work(Earlier(w.criteria), None))
    else Some(Work(w.criteria, next))
  }

  /** The work that a consumer queues: none when the callback says stop. */
  function FollowUpWork(w: Work, next: Option<nat>, more: bool): Option<Work> {
    if more then AfterPage(w, next) else None
  }

  /** Everything that a work item will still hand over. */
  function Owed(store: seq<Stored>, w: Work): multiset<Stored>
    requires From(w) <= |store|
    decreases Span(w.criteria)
  {
    multiset(Select(store[From(w)..], Windowed(w.criteria)))
    + (if Exceeds(w.criteria) then Owed(store, Work(Earlier(w.criteria), None)) else multiset{})
  }

  // ---------- the steps ----------

  predicate Enabled(store: seq<Stored>, s: State, a: Step) {
    match a
    case Produce => s.unproduced != [] && |s.queue| < QUEUE_CAPACITY
    case Take => s.main.Selecting? && s.queue != []
    case Spawn => s.main.Holding? && |s.consumers| < SLOTS
    case Page(i, page, next, more) =>
      i < |s.consumers| && s.consumers[i].Querying? && FaithfulPage(store, s.consumers[i].work, page, next)
    case AddWork(i) => i < |s.consumers| && s.consumers[i].Adding?
    case Requeue(i) => i < |s.consumers| && s.consumers[i].Requeueing? && |s.queue| < QUEUE_CAPACITY
    case Done(i) => i < |s.consumers| && s.consumers[i].Finishing?
    case Release(i) => i < |s.consumers| && s.consumers[i].Releasing?
    case Complete => s.main.Selecting? && s.unproduced == [] && s.waitGroup == 0
  }

  function Set(s: State, i: nat, c: Consumer): State
    requires i < |s.consumers|
  {
    s.(consumers := s.consumers[..i] + [c] + s.consumers[i + 1..])
  }

  function Next(store: seq<Stored>, s: State, a: Step): State
    requires Enabled(store, s, a)
  {
    match a
    case Produce => s.(unproduced := s.unproduced[1..], queue := s.queue + [s.unproduced[0]])
    case Take => s.(queue := s.queue[1..], main := Holding(s.queue[0]))
    case Spawn => s.(main := Selecting, consumers := s.consumers + [Querying(s.main.work)])
    case Page(i, page, next, more) => Paged(store, s, i, page, next, more)
    case AddWork(i) => Set(s, i, Requeueing(s.consumers[i].work)).(waitGroup := s.waitGroup + 1)
    case Requeue(i) => Set(s, i, Finishing).(queue := s.queue + [s.consumers[i].work])
    case Done(i) => Set(s, i, Releasing).(waitGroup := s.waitGroup - 1)
    case Release(i) => s.(consumers := s.consumers[..i] + s.consumers[i + 1..])
    case Complete => s.(main := Completed)
  }

  /** The page is handed over; the callback may ask to stop this batch. */
  function Paged(store: seq<Stored>, s: State, i: nat, page: seq<Stored>, next: Option<nat>, more: bool): State
    requires Enabled(store, s, Page(i, page, next, more))
  {
    var w := s.consumers[i].work;
    var after, left := FollowUpWork(w, next, more), AfterPage(w, next);
    var s1 := s.(handed := s.handed + multiset(page));
    if after.Some? then Set(s1, i, Adding(after.value))
    else if left.None? then Set(s1, i, Finishing)
    else Set(s1, i, Finishing).(skipped := s1.skipped + OwedFrom(store, left.value))
  }

  function OwedFrom(store: seq<Stored>, w: Work): multiset<Stored> {
    if From(w) <= |store| then Owed(store, w) else multiset{}
  }

  function InitialWork(c: Criteria, batch: seq<string>): Work {
    Work(c.(topics := batch), None)
  }

  function InitialWorks(c: Criteria, batches: seq<seq<string>>): seq<Work> {
    if batches == [] then [] else [InitialWork(c, batches[0])] + InitialWorks(c, batches[1..])
  }

  function Initial(c: Criteria): State {
    var works := InitialWorks(c, Chunks(c.topics));
    State(works, [], Selecting, [], |works|, multiset{}, multiset{})
  }

  // ---------- unfinished work ----------

  /** A weight per work item, a load per consumer; every account below is a sum of these. */
  type Weight = Work -> nat
  type Load = Consumer -> nat

  function Sum(f: Weight, ws: seq<Work>): nat {
    if ws == [] then 0 else Sum(f, ws[..|ws| - 1]) + f(ws[|ws| - 1])
  }

  function Loads(g: Load, cs: seq<Consumer>): nat {
    if cs == [] then 0 else Loads(g, cs[..|cs| - 1]) + g(cs[|cs| - 1])
  }

  predicate Carries(c: Consumer) {
    c.Querying? || c.Adding? || c.Requeueing?
  }

  function CarriedWeight(f: Weight, c: Consumer): nat {
    if Carries(c) then f(c.work) else 0
  }

  /** The weight of the work that a consumer carries. */
  function Carried(f: Weight): Load {
    (c: Consumer) => CarriedWeight(f, c)
  }

  function HeldWeight(f: Weight, m: Main): nat {
    if m.Holding? then f(m.work) else 0
  }

  /** The weight of all unfinished work, wherever it is. */
  function Total(f: Weight, s: State): nat {
    Sum(f, s.unproduced) + Sum(f, s.queue) + HeldWeight(f, s.main) + Loads(Carried(f), s.consumers)
  }

  lemma {:induction false} SumAppend(f: Weight, a: seq<Work>, b: seq<Work>)
    ensures Sum(f, a + b) == Sum(f, a) + Sum(f, b)
  {
    if b == [] {
      assert a + b == a;
    } else {
      assert (a + b)[..|a + b| - 1] == a + b[..|b| - 1];
      SumAppend(f, a, b[..|b| - 1]);
    }
  }

  lemma SumOne(f: Weight, w: Work)
    ensures Sum(f, [w]) == f(w)
  {
    assert [w][..0] == [];
  }

  lemma SumHead(f: Weight, ws: seq<Work>)
    requires ws != []
    ensures Sum(f, ws) == f(ws[0]) + Sum(f, ws[1..])
  {
    assert ws == [ws[0]] + ws[1..];
    SumAppend(f, [ws[0]], ws[1..]);
    SumOne(f, ws[0]);
  }

  lemma {:induction false} LoadsAppend(g: Load, a: seq<Consumer>, b: seq<Consumer>)
    ensures Loads(g, a + b) == Loads(g, a) + Loads(g, b)
  {
    if b == [] {
      assert a + b == a;
    } else {
      assert (a + b)[..|a + b| - 1] == a + b[..|b| - 1];
      LoadsAppend(g, a, b[..|b| - 1]);
    }
  }

  /** One consumer among others. */
  lemma LoadsAround(g: Load, a: seq<Consumer>, c: Consumer, b: seq<Consumer>)
    ensures Loads(g, a + [c] + b) == Loads(g, a) + g(c) + Loads(g, b)
  {
    LoadsAppend(g, a, [c]);
    LoadsAppend(g, a + [c], b);
    assert [c][..0] == [];
  }

  /** What a consumer becomes by a step, when it stays. */
  function Advanced(s: State, a: Step): Consumer
    requires (a.Page? || a.AddWork? || a.Requeue? || a.Done?) && a.consumer < |s.consumers|
    requires (a.Page? ==> s.consumers[a.consumer].Querying?) && (a.AddWork? ==> s.consumers[a.consumer].Adding?)
  {
    match a
    case Page(i, _, next, more) =>
      if LeftNothing(s, a) then Finishing else Adding(AfterPage(s.consumers[i].work, next).value)
    case AddWork(i) => Requeueing(s.consumers[i].work)
    case Requeue(_) => Finishing
    case Done(_) => Releasing
  }

  /** The page finishes its item, or the callback stops it. */
  predicate LeftNothing(s: State, a: Step)
    requires a.Page? && a.consumer < |s.consumers| && s.consumers[a.consumer].Querying?
  {
    FollowUpWork(s.consumers[a.consumer].work, a.next, a.more).None?
  }

  lemma NextConsumers(store: seq<Stored>, s: State, a: Step)
    requires (a.Page? || a.AddWork? || a.Requeue? || a.Done?) && Enabled(store, s, a)
    ensures Next(store, s, a).consumers == s.consumers[..a.consumer] + [Advanced(s, a)] + s.consumers[a.consumer + 1..]
  {
  }

  lemma AdvanceLoads(g: Load, store: seq<Stored>, s: State, a: Step)
    requires (a.Page? || a.AddWork? || a.Requeue? || a.Done?) && Enabled(store, s, a)
    ensures Loads(g, Next(store, s, a).consumers)
         == Loads(g, s.consumers) - g(s.consumers[a.consumer]) + g(Advanced(s, a))
    ensures |Next(store, s, a).consumers| == |s.consumers|
  {
    var i := a.consumer;
    var before, c, after := s.consumers[..i], s.consumers[i], s.consumers[i + 1..];
    assert s.consumers == before + [c] + after;
    NextConsumers(store, s, a);
    LoadsAround(g, before, c, after);
    LoadsAround(g, before, Advanced(s, a), after);
  }

  lemma ReleaseLoads(g: Load, s: State, i: nat)
    requires i < |s.consumers|
    ensures Loads(g, s.consumers[..i] + s.consumers[i + 1..]) == Loads(g, s.consumers) - g(s.consumers[i])
  {
    var before, c, after := s.consumers[..i], s.consumers[i], s.consumers[i + 1..];
    assert s.consumers == before + [c] + after;
    LoadsAround(g, before, c, after);
    LoadsAppend(g, before, after);
  }

  /** The change of any consumer account by any step. */
  lemma StepLoads(g: Load, store: seq<Stored>, s: State, a: Step)
    requires Enabled(store, s, a)
    ensures Loads(g, Next(store, s, a).consumers)
         == Loads(g, s.consumers) + (match a
                                     case Spawn => g(Querying(s.main.work))
                                     case Release(i) => -(g(s.consumers[i]) as int)
                                     case Page(_, _, _, _) => g(Advanced(s, a)) - g(s.consumers[a.consumer])
                                     case AddWork(i) => g(Advanced(s, a)) - g(s.consumers[i])
                                     case Requeue(i) => g(Advanced(s, a)) - g(s.consumers[i])
                                     case Done(i) => g(Advanced(s, a)) - g(s.consumers[i])
                                     case _ => 0)
  {
    if a.Page? || a.AddWork? || a.Requeue? || a.Done? {
      AdvanceLoads(g, store, s, a);
    } else if a.Spawn? {
      LoadsAround(g, s.consumers, Querying(s.main.work), []);
      assert s.consumers + [Querying(s.main.work)] + [] == s.consumers + [Querying(s.main.work)];
    } else if a.Release? {
      ReleaseLoads(g, s, a.consumer);
    }
  }

  /** The weight of what a page leaves of its item. */
  function LeftWeight(f: Weight, s: State, a: Step): nat
    requires a.Page? && a.consumer < |s.consumers| && s.consumers[a.consumer].Querying?
  {
    if LeftNothing(s, a) then 0 else f(AfterPage(s.consumers[a.consumer].work, a.next).value)
  }

  lemma ProduceTotal(f: Weight, store: seq<Stored>, s: State)
    requires Enabled(store, s, Produce)
    ensures Total(f, Next(store, s, Produce)) == Total(f, s)
  {
    SumHead(f, s.unproduced);
    SumAppend(f, s.queue, [s.unproduced[0]]);
    SumOne(f, s.unproduced[0]);
  }

  lemma TakeTotal(f: Weight, store: seq<Stored>, s: State)
    requires Enabled(store, s, Take)
    ensures Total(f, Next(store, s, Take)) == Total(f, s)
  {
    SumHead(f, s.queue);
  }

  lemma SpawnTotal(f: Weight, store: seq<Stored>, s: State)
    requires Enabled(store, s, Spawn)
    ensures Total(f, Next(store, s, Spawn)) == Total(f, s)
  {
    StepLoads(Carried(f), store, s, Spawn);
  }

  lemma PageTotal(f: Weight, store: seq<Stored>, s: State, a: Step)
    requires a.Page? && Enabled(store, s, a)
    ensures Total(f, Next(store, s, a)) == Total(f, s) - f(s.consumers[a.consumer].work) + LeftWeight(f, s, a)
  {
    AdvanceLoads(Carried(f), store, s, a);
    var c := s.consumers[a.consumer];
    assert Carried(f)(c) == f(c.work) && Carried(f)(Advanced(s, a)) == LeftWeight(f, s, a);
  }

  lemma RequeueTotal(f: Weight, store: seq<Stored>, s: State, i: nat)
    requires Enabled(store, s, Requeue(i))
    ensures Total(f, Next(store, s, Requeue(i))) == Total(f, s)
  {
    AdvanceLoads(Carried(f), store, s, Requeue(i));
    SumAppend(f, s.queue, [s.consumers[i].work]);
    SumOne(f, s.consumers[i].work);
  }

  lemma ConsumerTotal(f: Weight, store: seq<Stored>, s: State, a: Step)
    requires (a.AddWork? || a.Done?) && Enabled(store, s, a)
    ensures Total(f, Next(store, s, a)) == Total(f, s)
  {
    AdvanceLoads(Carried(f), store, s, a);
  }

  /** Steps only move work around, except that a page replaces its item by what is left of it. */
  lemma StepTotal(f: Weight, store: seq<Stored>, s: State, a: Step)
    requires Enabled(store, s, a)
    ensures Total(f, Next(store, s, a))
         == if a.Page? then Total(f, s) - f(s.consumers[a.consumer].work) + LeftWeight(f, s, a) else Total(f, s)
  {
    match a {
      case Produce => ProduceTotal(f, store, s);
      case Take => TakeTotal(f, store, s);
      case Spawn => SpawnTotal(f, store, s);
      case Page(_, _, _, _) => PageTotal(f, store, s, a);
      case Requeue(i) => RequeueTotal(f, store, s, i);
      case AddWork(_) => ConsumerTotal(f, store, s, a);
      case Done(_) => ConsumerTotal(f, store, s, a);
      case Release(i) => ReleaseLoads(Carried(f), s, i);
      case Complete =>
    }
  }

  /** A page after which the callback says stop takes its item out, whatever the page left. */
  lemma StopTotal(f: Weight, store: seq<Stored>, s: State, a: Step)
    requires a.Page? && !a.more && Enabled(store, s, a)
    ensures Total(f, Next(store, s, a)) == Total(f, s) - f(s.consumers[a.consumer].work)
  {
    PageTotal(f, store, s, a);
  }

  /** What a step puts at the end of the queue, and what it takes from its front. */
  function QueuedBy(store: seq<Stored>, s: State, a: Step): seq<Work>
    requires Enabled(store, s, a)
  {
    match a
    case Produce => [s.unproduced[0]]
    case Requeue(i) => [s.consumers[i].work]
    case _ => []
  }

  function TakenBy(store: seq<Stored>, s: State, a: Step): seq<Work>
    requires Enabled(store, s, a)
  {
    if a.Take? then [Next(store, s, a).main.work] else []
  }

  /** Work is taken in the order in which it was queued. */
  lemma QueueInOrder(store: seq<Stored>, s: State, a: Step)
    requires Enabled(store, s, a)
    ensures s.queue + QueuedBy(store, s, a) == TakenBy(store, s, a) + Next(store, s, a).queue
  {
  }

  /** A consumer's load is part of the sum. */
  lemma {:induction false} LoadIncluded(g: Load, cs: seq<Consumer>, i: nat)
    requires i < |cs|
    ensures g(cs[i]) <= Loads(g, cs)
  {
    if i < |cs| - 1 { LoadIncluded(g, cs[..|cs| - 1], i); }
  }

  // ---------- the wait group ----------

  const ONE: Weight := (w: Work) => 1

  /** Consumers that count in the wait group beyond the work they carry. */
  const EXTRA: Load := (c: Consumer) => if c.Requeueing? || c.Finishing? then 1 else 0

  /** The number of unfinished work items. */
  function Count(s: State): nat {
    Total(ONE, s)
  }

  ghost predicate Counted(s: State) {
    && s.waitGroup == Count(s) + Loads(EXTRA, s.consumers)
    && |s.consumers| <= SLOTS
  }

  /** A consumer that goes on is counted as what it becomes. */
  lemma AdvanceCounted(store: seq<Stored>, s: State, a: Step)
    requires (a.Page? || a.AddWork? || a.Requeue? || a.Done?) && Counted(s) && Enabled(store, s, a)
    ensures Counted(Next(store, s, a))
  {
    StepTotal(ONE, store, s, a);
    AdvanceLoads(EXTRA, store, s, a);
  }

  lemma SpawnCounted(store: seq<Stored>, s: State)
    requires Counted(s) && Enabled(store, s, Spawn)
    ensures Counted(Next(store, s, Spawn))
  {
    SpawnTotal(ONE, store, s);
    StepLoads(EXTRA, store, s, Spawn);
  }

  lemma StepCounted(store: seq<Stored>, s: State, a: Step)
    requires Counted(s) && Enabled(store, s, a)
    ensures Counted(Next(store, s, a))
  {
    if a.Page? || a.AddWork? || a.Requeue? || a.Done? {
      AdvanceCounted(store, s, a);
    } else if a.Spawn? {
      SpawnCounted(store, s);
    } else {
      StepTotal(ONE, store, s, a);
      if a.Release? {
        ReleaseLoads(EXTRA, s, a.consumer);
      }
    }
  }

  /** Once the wait group is at zero, no page is fetched and it stays there. */
  lemma ZeroIsFinal(store: seq<Stored>, s: State, a: Step)
    requires Counted(s) && s.waitGroup == 0 && Enabled(store, s, a)
    ensures a.Release? || a.Complete?
  {
    if a.Page? || a.AddWork? || a.Requeue? || a.Done? {
      LoadIncluded(EXTRA, s.consumers, a.consumer);
      LoadIncluded(Carried(ONE), s.consumers, a.consumer);
    } else if a.Produce? {
      SumHead(ONE, s.unproduced);
    } else if a.Take? {
      SumHead(ONE, s.queue);
    }
  }
}
