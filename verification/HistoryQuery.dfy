/**
 The whole of HistoryRetriever.Query, driven by an arbitrary scheduler of its
 goroutines and an arbitrary faithful store node.
 */
module HistoryQuery {
  import opened Wrappers
  import opened HistoryWindows
  import opened HistoryRetriever
  import opened HistoryTheorems
  import opened HistoryDeadlock

  /** One consumer after its page: the work it queues again, if any. */
  method FollowUp(w: Work, next: Option<nat>, more: bool) returns (newWork: Option<Work>)
    ensures newWork == FollowUpWork(w, next, more)
  {
    var timeStart, timeEnd := w.criteria.start, w.criteria.end;
    var exceeds24h := false;
    if timeStart.Some? && timeEnd.Some? && timeEnd.value - timeStart.value > DAY {
      timeStart := Some(timeEnd.value - DAY);
      exceeds24h := true;
    }
    if !more {
      return None;
    }
    if next.None? && !exceeds24h {
      return None;
    }
    var criteria := w.criteria;
    if next.None? && exceeds24h {
      criteria := criteria.(end := timeStart);
    }
    newWork := Some(Work(criteria, next));
  }

  ghost predicate CanStep(store: seq<Stored>, s: State) {
    exists a :: Enabled(store, s, a)
  }

  /** The scheduler runs something whenever something can run. */
  ghost predicate NeverIdle(store: seq<Stored>, schedule: State -> Step) {
    forall s :: CanStep(store, s) ==> Enabled(store, s, schedule(s))
  }

  ghost predicate AlwaysContinues(schedule: State -> Step) {
    forall s :: schedule(s).Page? ==> schedule(s).more
  }

  /**
   Under every scheduler, and with a callback that always continues, a query of
   at most 10030 topics, or of any number over at most a day of an empty store,
   completes and has handed over exactly the matches.
   */
  method Query(store: seq<Stored>, c: Criteria, schedule: State -> Step) returns (final: State)
    requires NoRepeats(c.topics) && !CanJam(store, c)
    requires NeverIdle(store, schedule) && AlwaysContinues(schedule)
    ensures final.main.Completed?
    ensures forall m :: final.handed[m] == multiset(store)[m] * Copies(c, m)
  {
    ChunkCount(c.topics);
    final := Initial(c);
    ghost var steps: seq<Step> := [];
    while !final.main.Completed?
      invariant Path(store, Initial(c), steps, final)
      invariant final.skipped == multiset{}
      invariant final.main.Completed? ==> final.waitGroup == 0
      decreases Measure(store, final)
    {
      ghost var possible := NoDeadlock(store, c, steps, final);
      assert CanStep(store, final);
      var a := schedule(final);
      StepDecreases(store, final, a);
      PathStep(store, final, a);
      PathAppend(store, Initial(c), steps, final, [a], Next(store, final, a));
      steps := steps + [a];
      final := Next(store, final, a);
    }
    forall m ensures final.handed[m] == multiset(store)[m] * Copies(c, m) {
      HandedOverExactly(store, c, steps, final, m);
    }
  }
}
