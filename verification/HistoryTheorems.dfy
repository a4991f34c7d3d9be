/**
 Properties of every run of the history retriever: what is handed over and how
 often, what the wait group says, and that the run ends.
 */
module HistoryTheorems {
  import opened Wrappers
  import opened HistoryWindows
  import opened HistoryRetriever

  /** A run: the steps lead from one state to the other. */
  ghost predicate Path(store: seq<Stored>, s: State, steps: seq<Step>, t: State)
    decreases |steps|
  {
    if steps == [] then s == t
    else Enabled(store, s, steps[0]) && Path(store, Next(store, s, steps[0]), steps[1..], t)
  }

  // ---------- nothing lost ----------

  /** A page and what follows it hand over what was owed. */
  lemma PageOwed(store: seq<Stored>, w: Work, page: seq<Stored>, next: Option<nat>)
    requires FaithfulPage(store, w, page, next)
    ensures var after := AfterPage(w, next);
            && (after.Some? ==> From(after.value) <= |store|)
            && Owed(store, w) == multiset(page) + (if after.Some? then Owed(store, after.value) else multiset{})
  {
    var c := Windowed(w.criteria);
    if next.Some? {
      assert store[From(w)..] == store[From(w)..next.value] + store[next.value..];
      SelectAppend(store[From(w)..next.value], store[next.value..], c);
      assert multiset(Select(store[From(w)..], c)) == multiset(page) + multiset(Select(store[next.value..], c));
    }
  }

  function OwedWeight(store: seq<Stored>, m: Stored): Weight {
    (w: Work) => OwedFrom(store, w)[m]
  }

  /** How often `m` has been or will be handed over, or was given up by the callback. */
  function Accounted(store: seq<Stored>, m: Stored, s: State): nat {
    s.handed[m] + s.skipped[m] + Total(OwedWeight(store, m), s)
  }

  lemma PageHands(store: seq<Stored>, s: State, a: Step, m: Stored)
    requires a.Page? && Enabled(store, s, a)
    ensures var n, left := Next(store, s, a), AfterPage(s.consumers[a.consumer].work, a.next);
            && n.handed[m] == s.handed[m] + multiset(a.page)[m]
            && n.skipped[m] == s.skipped[m] + if left.Some? && !a.more then OwedFrom(store, left.value)[m] else 0
  {
  }

  lemma StepAccounted(store: seq<Stored>, m: Stored, s: State, a: Step)
    requires Enabled(store, s, a)
    ensures Accounted(store, m, Next(store, s, a)) == Accounted(store, m, s)
  {
    StepTotal(OwedWeight(store, m), store, s, a);
    if a.Page? {
      PageOwed(store, s.consumers[a.consumer].work, a.page, a.next);
      PageHands(store, s, a, m);
    }
  }

  // ---------- pages advance ----------

  /** An upper bound on the pages that an item still takes. */
  function PagesLeft(store: seq<Stored>, w: Work): nat {
    if From(w) <= |store| then WindowCount(w.criteria) * (|store| + 1) - From(w) else 0
  }

  lemma PageAdvances(store: seq<Stored>, w: Work, page: seq<Stored>, next: Option<nat>)
    requires FaithfulPage(store, w, page, next)
    ensures PagesLeft(store, w) >= 1
    ensures AfterPage(w, next).Some? ==> PagesLeft(store, AfterPage(w, next).value) < PagesLeft(store, w)
  {
    OneWindowLess(WindowCount(w.criteria), |store| + 1);
  }

  lemma OneWindowLess(n: nat, l: nat)
    requires n >= 1
    ensures n * l >= l && (n - 1) * l == n * l - l
  {
  }

  function PageWeight(store: seq<Stored>): Weight {
    (w: Work) => PagesLeft(store, w)
  }

  /** Steps a consumer takes beyond the pages of its work. */
  const STAGE: Load := (c: Consumer) =>
    match c
    case Querying(_) => 0
    case Adding(_) => 6
    case Requeueing(_) => 5
    case Finishing => 2
    case Releasing => 1

  function Measure(store: seq<Stored>, s: State): nat {
    7 * Total(PageWeight(store), s) + 3 * |s.unproduced| + 2 * |s.queue| + Loads(STAGE, s.consumers)
    + (match s.main case Selecting => 1 case Holding(_) => 2 case Completed => 0)
  }

  lemma PageDecreases(store: seq<Stored>, s: State, a: Step)
    requires a.Page? && Enabled(store, s, a)
    ensures Measure(store, Next(store, s, a)) < Measure(store, s)
  {
    StepTotal(PageWeight(store), store, s, a);
    AdvanceLoads(STAGE, store, s, a);
    PageAdvances(store, s.consumers[a.consumer].work, a.page, a.next);
  }

  lemma StepDecreases(store: seq<Stored>, s: State, a: Step)
    requires Enabled(store, s, a)
    ensures Measure(store, Next(store, s, a)) < Measure(store, s)
  {
    if a.Page? {
      PageDecreases(store, s, a);
    } else {
      StepTotal(PageWeight(store), store, s, a);
      StepLoads(STAGE, store, s, a);
    }
  }

  /** Every run ends: it has at most as many steps as the measure of its first state. */
  lemma {:induction false} Terminates(store: seq<Stored>, s: State, steps: seq<Step>, t: State)
    requires Path(store, s, steps, t)
    ensures |steps| <= Measure(store, s)
    decreases |steps|
  {
    if steps != [] {
      StepDecreases(store, s, steps[0]);
      Terminates(store, Next(store, s, steps[0]), steps[1..], t);
    }
  }

  // ---------- invariants along runs ----------

  function BatchWeight(batch: seq<string>): Weight {
    (w: Work) => if w.criteria.topics == batch then 1 else 0
  }

  function BadCursor(store: seq<Stored>): Weight {
    (w: Work) => if From(w) <= |store| then 0 else 1
  }

  ghost predicate Inv(store: seq<Stored>, c: Criteria, s: State) {
    && Counted(s)
    && Count(s) <= |Chunks(c.topics)|
    && Total(BadCursor(store), s) == 0
    && (forall batch :: Total(BatchWeight(batch), s) <= Total(BatchWeight(batch), Initial(c)))
    && (forall m :: Accounted(store, m, s) == Total(OwedWeight(store, m), Initial(c)))
  }

  lemma StepCount(store: seq<Stored>, s: State, a: Step)
    requires Enabled(store, s, a)
    ensures Count(Next(store, s, a)) <= Count(s)
  {
    StepTotal(ONE, store, s, a);
  }

  lemma StepCursors(store: seq<Stored>, s: State, a: Step)
    requires Enabled(store, s, a) && Total(BadCursor(store), s) == 0
    ensures Total(BadCursor(store), Next(store, s, a)) == 0
  {
    StepTotal(BadCursor(store), store, s, a);
    if a.Page? {
      PageOwed(store, s.consumers[a.consumer].work, a.page, a.next);
    }
  }

  lemma StepBatch(store: seq<Stored>, s: State, a: Step, batch: seq<string>)
    requires Enabled(store, s, a)
    ensures Total(BatchWeight(batch), Next(store, s, a)) <= Total(BatchWeight(batch), s)
  {
    StepTotal(BatchWeight(batch), store, s, a);
  }

  lemma StepInv(store: seq<Stored>, c: Criteria, s: State, a: Step)
    requires Inv(store, c, s) && Enabled(store, s, a)
    ensures Inv(store, c, Next(store, s, a))
  {
    StepCounted(store, s, a);
    StepCount(store, s, a);
    StepCursors(store, s, a);
    forall batch ensures Total(BatchWeight(batch), Next(store, s, a)) <= Total(BatchWeight(batch), Initial(c)) {
      StepBatch(store, s, a, batch);
    }
    forall m ensures Accounted(store, m, Next(store, s, a)) == Total(OwedWeight(store, m), Initial(c)) {
      StepAccounted(store, m, s, a);
    }
  }

  lemma {:induction false} InitialSums(store: seq<Stored>, c: Criteria, batches: seq<seq<string>>)
    ensures |InitialWorks(c, batches)| == |batches|
    ensures Sum(ONE, InitialWorks(c, batches)) == |batches|
    ensures Sum(BadCursor(store), InitialWorks(c, batches)) == 0
  {
    if batches != [] {
      InitialSums(store, c, batches[1..]);
      var works := InitialWorks(c, batches);
      assert works[1..] == InitialWorks(c, batches[1..]);
      SumHead(ONE, works);
      SumHead(BadCursor(store), works);
    }
  }

  lemma InitialInv(store: seq<Stored>, c: Criteria)
    ensures Inv(store, c, Initial(c))
  {
    InitialSums(store, c, Chunks(c.topics));
  }

  lemma {:induction false} PathInv(store: seq<Stored>, c: Criteria, s: State, steps: seq<Step>, t: State)
    requires Inv(store, c, s) && Path(store, s, steps, t)
    ensures Inv(store, c, t)
    decreases |steps|
  {
    if steps != [] {
      StepInv(store, c, s, steps[0]);
      PathInv(store, c, Next(store, s, steps[0]), steps[1..], t);
    }
  }

  lemma ReachableInv(store: seq<Stored>, c: Criteria, steps: seq<Step>, s: State)
    requires Path(store, Initial(c), steps, s)
    ensures Inv(store, c, s)
  {
    InitialInv(store, c);
    PathInv(store, c, Initial(c), steps, s);
  }

  // ---------- handed over exactly once, or twice on a window edge ----------

  /** A fresh item owes each stored message once per window that contains it. */
  lemma {:induction false} OwedByWindows(store: seq<Stored>, c: Criteria, m: Stored)
    ensures Owed(store, Work(c, None))[m] == if TopicMatches(c, m) then multiset(store)[m] * Visits(c, m) else 0
    decreases Span(c)
  {
    assert store[0..] == store;
    SelectCount(store, Windowed(c), m);
    if Exceeds(c) {
      OwedByWindows(store, Earlier(c), m);
      OneMoreVisit(multiset(store)[m], Visits(Earlier(c), m));
    }
  }

  lemma OneMoreVisit(count: nat, visits: nat)
    ensures count * (1 + visits) == count + count * visits
  {
  }

  lemma {:induction false} VisitsIgnoreTopics(c: Criteria, d: Criteria, m: Stored)
    requires c.start == d.start && c.end == d.end
    ensures Visits(c, m) == Visits(d, m)
    decreases Span(c)
  {
    if Exceeds(c) { VisitsIgnoreTopics(Earlier(c), Earlier(d), m); }
  }

  lemma {:induction false} OwedByBatches(store: seq<Stored>, c: Criteria, batches: seq<seq<string>>, m: Stored)
    ensures Sum(OwedWeight(store, m), InitialWorks(c, batches))
         == if m.pubsub == c.pubsub then BatchesWith(batches, m.topic) * (multiset(store)[m] * Visits(c, m)) else 0
  {
    if batches != [] {
      OwedByBatches(store, c, batches[1..], m);
      var works := InitialWorks(c, batches);
      assert works[1..] == InitialWorks(c, batches[1..]);
      SumHead(OwedWeight(store, m), works);
      OwedByWindows(store, works[0].criteria, m);
      VisitsIgnoreTopics(works[0].criteria, c, m);
      var x := multiset(store)[m] * Visits(c, m);
      assert (1 + BatchesWith(batches[1..], m.topic)) * x == x + BatchesWith(batches[1..], m.topic) * x;
    }
  }

  /** How often a query hands over each copy of a stored message. */
  function Copies(c: Criteria, m: Stored): nat {
    if !Matches(c, m) then 0 else if OnEdge(c, m) then 2 else 1
  }

  lemma InitiallyOwed(store: seq<Stored>, c: Criteria, m: Stored)
    requires NoRepeats(c.topics)
    ensures Total(OwedWeight(store, m), Initial(c)) == multiset(store)[m] * Copies(c, m)
  {
    OwedByBatches(store, c, Chunks(c.topics), m);
    OneBatchPerTopic(c.topics, m.topic);
    VisitsClosed(c, m);
    CopiesMultiply(BatchesWith(Chunks(c.topics), m.topic), multiset(store)[m], Visits(c, m));
    assert Total(OwedWeight(store, m), Initial(c)) == Sum(OwedWeight(store, m), InitialWorks(c, Chunks(c.topics)));
    assert Copies(c, m) == if TopicMatches(c, m) then Visits(c, m) else 0;
  }

  lemma CopiesMultiply(batches: nat, stored: nat, visits: nat)
    requires batches <= 1
    ensures batches * (stored * visits) == if batches == 1 then stored * visits else 0
  {
  }

  lemma {:induction false} SumOfOnes(ws: seq<Work>)
    ensures Sum(ONE, ws) == |ws|
  {
    if ws != [] { SumOfOnes(ws[..|ws| - 1]); }
  }

  lemma {:induction false} NoneCarried(f: Weight, cs: seq<Consumer>)
    requires Loads(Carried(ONE), cs) == 0
    ensures Loads(Carried(f), cs) == 0
  {
    if cs != [] {
      NoneCarried(f, cs[..|cs| - 1]);
      assert Carried(ONE)(cs[|cs| - 1]) == 0;
    }
  }

  /** With no unfinished work every account of unfinished work is empty. */
  lemma NothingUnfinished(f: Weight, s: State)
    requires Count(s) == 0
    ensures Total(f, s) == 0 && s.unproduced == [] && s.queue == [] && !s.main.Holding?
    ensures forall i :: 0 <= i < |s.consumers| ==> !Carries(s.consumers[i])
  {
    SumOfOnes(s.unproduced);
    SumOfOnes(s.queue);
    NoneCarried(f, s.consumers);
    forall i | 0 <= i < |s.consumers| ensures !Carries(s.consumers[i]) {
      LoadIncluded(Carried(ONE), s.consumers, i);
    }
  }

  /**
   When the wait group reaches zero and the callback never stopped a batch,
   every stored message that matches was handed over once, the ones on an
   inner window edge twice, and no other message at all.
   */
  lemma HandedOverExactly(store: seq<Stored>, c: Criteria, steps: seq<Step>, s: State, m: Stored)
    requires NoRepeats(c.topics) && Path(store, Initial(c), steps, s)
    requires s.waitGroup == 0 && s.skipped == multiset{}
    ensures s.handed[m] == multiset(store)[m] * Copies(c, m)
  {
    ReachableInv(store, c, steps, s);
    InitiallyOwed(store, c, m);
    assert Accounted(store, m, s) == Total(OwedWeight(store, m), Initial(c));
    NothingUnfinished(OwedWeight(store, m), s);
  }

  /** Whatever the callback says, nothing is ever handed over more often than that. */
  lemma NeverTooOften(store: seq<Stored>, c: Criteria, steps: seq<Step>, s: State, m: Stored)
    requires NoRepeats(c.topics) && Path(store, Initial(c), steps, s)
    ensures s.handed[m] <= multiset(store)[m] * Copies(c, m)
  {
    ReachableInv(store, c, steps, s);
    InitiallyOwed(store, c, m);
    assert Accounted(store, m, s) == Total(OwedWeight(store, m), Initial(c));
  }

  // ---------- stopping ----------

  /** Work that asks for a topic. */
  function TopicWeight(topic: string): Weight {
    (w: Work) => if topic in w.criteria.topics then 1 else 0
  }

  lemma StepTopic(store: seq<Stored>, s: State, a: Step, topic: string)
    requires Enabled(store, s, a)
    ensures Total(TopicWeight(topic), Next(store, s, a)) <= Total(TopicWeight(topic), s)
  {
    StepTotal(TopicWeight(topic), store, s, a);
  }

  lemma {:induction false} PathTopic(store: seq<Stored>, s: State, steps: seq<Step>, t: State, topic: string)
    requires Path(store, s, steps, t)
    ensures Total(TopicWeight(topic), t) <= Total(TopicWeight(topic), s)
    decreases |steps|
  {
    if steps != [] {
      StepTopic(store, s, steps[0], topic);
      PathTopic(store, Next(store, s, steps[0]), steps[1..], t, topic);
    }
  }

  lemma {:induction false} InitialTopic(c: Criteria, batches: seq<seq<string>>, topic: string)
    ensures Sum(TopicWeight(topic), InitialWorks(c, batches)) == BatchesWith(batches, topic)
  {
    if batches != [] {
      InitialTopic(c, batches[1..], topic);
      var works := InitialWorks(c, batches);
      assert works[1..] == InitialWorks(c, batches[1..]);
      SumHead(TopicWeight(topic), works);
    }
  }

  /** A page holds messages of the topics it was asked for only. */
  lemma PageTopics(store: seq<Stored>, w: Work, page: seq<Stored>, next: Option<nat>, m: Stored)
    requires FaithfulPage(store, w, page, next) && m in page
    ensures m.topic in w.criteria.topics
  {
    var from := if next.Some? then store[From(w)..next.value] else store[From(w)..];
    SelectCount(from, Windowed(w.criteria), m);
    assert m in multiset(page);
  }

  /** With no work left that asks for its topic, a message is not handed over any more. */
  lemma {:induction false} NoneHandedOver(store: seq<Stored>, s: State, steps: seq<Step>, t: State, m: Stored)
    requires Path(store, s, steps, t) && Total(TopicWeight(m.topic), s) == 0
    ensures t.handed[m] == s.handed[m]
    decreases |steps|
  {
    if steps != [] {
      var a, n := steps[0], Next(store, s, steps[0]);
      StepTopic(store, s, a, m.topic);
      if a.Page? {
        LoadIncluded(Carried(TopicWeight(m.topic)), s.consumers, a.consumer);
        if m in a.page { PageTopics(store, s.consumers[a.consumer].work, a.page, a.next, m); }
      }
      NoneHandedOver(store, n, steps[1..], t, m);
    }
  }

  /**
   In every run: when the callback says stop after a page, no message of any
   topic of that batch is handed over again.
   */
  lemma StopIsFinal(store: seq<Stored>, c: Criteria, before: seq<Step>, s: State, a: Step, after: seq<Step>, t: State,
                    m: Stored)
    requires NoRepeats(c.topics) && Path(store, Initial(c), before, s)
    requires a.Page? && !a.more && Enabled(store, s, a) && Path(store, Next(store, s, a), after, t)
    requires m.topic in s.consumers[a.consumer].work.criteria.topics
    ensures t.handed[m] == Next(store, s, a).handed[m]
  {
    PathTopic(store, Initial(c), before, s, m.topic);
    InitialTopic(c, Chunks(c.topics), m.topic);
    OneBatchPerTopic(c.topics, m.topic);
    StopTotal(TopicWeight(m.topic), store, s, a);
    NoneHandedOver(store, Next(store, s, a), after, t, m);
  }

  // ---------- the wait group and the queue ----------

  lemma {:induction false} EqualBatches(c: Criteria, batches: seq<seq<string>>, batch: seq<string>)
    requires batch != []
    ensures Sum(BatchWeight(batch), InitialWorks(c, batches)) <= BatchesWith(batches, batch[0])
  {
    if batches != [] {
      EqualBatches(c, batches[1..], batch);
      var works := InitialWorks(c, batches);
      assert works[1..] == InitialWorks(c, batches[1..]);
      SumHead(BatchWeight(batch), works);
    }
  }

  /** At every moment each batch of topics has at most one unfinished work item. */
  lemma OneItemPerBatch(store: seq<Stored>, c: Criteria, steps: seq<Step>, s: State, batch: seq<string>)
    requires NoRepeats(c.topics) && Path(store, Initial(c), steps, s) && batch != []
    ensures Total(BatchWeight(batch), s) <= 1
  {
    ReachableInv(store, c, steps, s);
    EqualBatches(c, Chunks(c.topics), batch);
    OneBatchPerTopic(c.topics, batch[0]);
  }

  lemma QueueBelowCount(s: State)
    ensures |s.queue| <= Count(s)
  {
    SumOfOnes(s.queue);
  }

  /**
   The wait group is never negative, at zero nothing is unproduced, queued,
   held or being requested and nothing but cleaning up can happen, and the queue
   never holds more than one item per batch.
   */
  lemma WaitGroupSound(store: seq<Stored>, c: Criteria, steps: seq<Step>, s: State)
    requires Path(store, Initial(c), steps, s)
    ensures s.waitGroup >= 0
    ensures s.waitGroup == 0 ==> s.unproduced == [] && s.queue == [] && !s.main.Holding?
    ensures s.waitGroup == 0 ==> forall i :: 0 <= i < |s.consumers| ==> s.consumers[i].Releasing?
    ensures s.waitGroup == 0 ==> forall a :: Enabled(store, s, a) ==> a.Release? || a.Complete?
    ensures |s.queue| <= (|c.topics| + BATCH - 1) / BATCH
  {
    ReachableInv(store, c, steps, s);
    ChunkCount(c.topics);
    QueueBelowCount(s);
    if s.waitGroup == 0 {
      NothingUnfinished(ONE, s);
      forall i | 0 <= i < |s.consumers| ensures s.consumers[i].Releasing? {
        LoadIncluded(EXTRA, s.consumers, i);
      }
      forall a | Enabled(store, s, a) ensures a.Release? || a.Complete? {
        ZeroIsFinal(store, s, a);
      }
    }
  }
}
