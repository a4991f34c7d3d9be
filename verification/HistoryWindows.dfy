/**
 How the history retriever cuts a query into batches of topics and 24 hour
 windows, and how often that visits each stored message
 (waku/v2/api/history/history.go). Times are nanoseconds.
 */
module HistoryWindows {
  import opened Wrappers

  datatype Stored = Stored(id: string, pubsub: string, topic: string, time: int)

  datatype Criteria = Criteria(pubsub: string, topics: seq<string>, start: Option<int>, end: Option<int>)

  const DAY: int := 86_400_000_000_000
  const BATCH: nat := 10

  // ---------- batches ----------

  /** The topic list in runs of ten. */
  function Chunks(topics: seq<string>): seq<seq<string>> {
    if |topics| == 0 then []
    else if |topics| <= BATCH then [topics]
    else [topics[..BATCH]] + Chunks(topics[BATCH..])
  }

  lemma {:induction false} ChunkCount(topics: seq<string>)
    ensures |Chunks(topics)| == (|topics| + BATCH - 1) / BATCH
  {
    if |topics| > BATCH { ChunkCount(topics[BATCH..]); }
  }

  /** The producer's loop. */
  method MakeBatches(topics: seq<string>) returns (batches: seq<seq<string>>)
    ensures batches == Chunks(topics)
  {
    batches := [];
    var i := 0;
    while i < |topics|
      invariant 0 <= i
      invariant batches + (if i < |topics| then Chunks(topics[i..]) else []) == Chunks(topics)
    {
      var j := i + BATCH;
      if j > |topics| {
        j := |topics|;
      }
      assert i + BATCH < |topics| ==>
        topics[i..][BATCH..] == topics[i + BATCH..] && topics[i..][..BATCH] == topics[i..j];
      assert i + BATCH >= |topics| ==> topics[i..] == topics[i..j];
      batches := batches + [topics[i..j]];
      i := i + BATCH;
    }
  }

  ghost predicate NoRepeats(topics: seq<string>) {
    forall i, j :: 0 <= i < j < |topics| ==> topics[i] != topics[j]
  }

  /** How many batches ask for a topic. */
  function BatchesWith(batches: seq<seq<string>>, topic: string): nat {
    if batches == [] then 0 else (if topic in batches[0] then 1 else 0) + BatchesWith(batches[1..], topic)
  }

  /** A requested topic is in exactly one batch, any other in none. */
  lemma {:induction false} OneBatchPerTopic(topics: seq<string>, topic: string)
    requires NoRepeats(topics)
    ensures BatchesWith(Chunks(topics), topic) == if topic in topics then 1 else 0
  {
    if |topics| > BATCH {
      OneBatchPerTopic(topics[BATCH..], topic);
      assert topics == topics[..BATCH] + topics[BATCH..];
      var c := Chunks(topics);
      assert c[1..] == Chunks(topics[BATCH..]);
    } else if topics != [] {
      var c := Chunks(topics);
      assert c[1..] == [];
    }
  }

  // ---------- windows ----------

  /** The range is longer than a day, so only its last day is asked for. */
  predicate Exceeds(c: Criteria) {
    c.start.Some? && c.end.Some? && c.end.value - c.start.value > DAY
  }

  /** The criteria actually sent to the store node. */
  function Windowed(c: Criteria): Criteria {
    if Exceeds(c) then c.(start := Some(c.end.value - DAY)) else c
  }

  /** The criteria left when a window of an exceeding range is finished. */
  function Earlier(c: Criteria): Criteria
    requires Exceeds(c)
  {
    c.(end := Some(c.end.value - DAY))
  }

  function Span(c: Criteria): nat {
    if Exceeds(c) then c.end.value - c.start.value else 0
  }

  function WindowCount(c: Criteria): nat
    decreases Span(c)
  {
    if Exceeds(c) then 1 + WindowCount(Earlier(c)) else 1
  }

  /** One window at least, and otherwise the length divided by a day, rounded up. */
  lemma {:induction false} WindowCountClosed(c: Criteria)
    ensures WindowCount(c)
         == if Exceeds(c) then (c.end.value - c.start.value + DAY - 1) / DAY else 1
    decreases Span(c)
  {
    if Exceeds(c) {
      WindowCountClosed(Earlier(c));
    }
  }

  predicate TopicMatches(c: Criteria, m: Stored) {
    m.pubsub == c.pubsub && m.topic in c.topics
  }

  predicate TimeMatches(c: Criteria, m: Stored) {
    (c.start.Some? ==> c.start.value <= m.time) && (c.end.Some? ==> m.time <= c.end.value)
  }

  predicate Matches(c: Criteria, m: Stored) {
    TopicMatches(c, m) && TimeMatches(c, m)
  }

  /** How many of the windows contain the time of a message. */
  function Visits(c: Criteria, m: Stored): nat
    decreases Span(c)
  {
    (if TimeMatches(Windowed(c), m) then 1 else 0) + (if Exceeds(c) then Visits(Earlier(c), m) else 0)
  }

  /** The time is a whole number of days before the end, strictly inside the range. */
  predicate OnEdge(c: Criteria, m: Stored) {
    c.start.Some? && c.end.Some? && c.start.value < m.time < c.end.value && (c.end.value - m.time) % DAY == 0
  }

  /** A message in range is visited once, and twice when it lies on a window edge. */
  lemma {:induction false} VisitsClosed(c: Criteria, m: Stored)
    ensures Visits(c, m) == if !TimeMatches(c, m) then 0 else if OnEdge(c, m) then 2 else 1
    decreases Span(c)
  {
    if Exceeds(c) {
      VisitsClosed(Earlier(c), m);
      var back := c.end.value - m.time;
      assert (back - DAY) % DAY == back % DAY;
    }
  }

  // ---------- what the store node selects ----------

  function Select(s: seq<Stored>, c: Criteria): seq<Stored> {
    if s == [] then []
    else
      var r := Select(s[..|s| - 1], c);
      if Matches(c, s[|s| - 1]) then r + [s[|s| - 1]] else r
  }

  lemma {:induction false} SelectAppend(a: seq<Stored>, b: seq<Stored>, c: Criteria)
    ensures Select(a + b, c) == Select(a, c) + Select(b, c)
  {
    if b == [] {
      assert a + b == a;
    } else {
      assert (a + b)[..|a + b| - 1] == a + b[..|b| - 1];
      SelectAppend(a, b[..|b| - 1], c);
    }
  }

  lemma {:induction false} SelectCount(s: seq<Stored>, c: Criteria, m: Stored)
    ensures multiset(Select(s, c))[m] == if Matches(c, m) then multiset(s)[m] else 0
  {
    if s != [] {
      SelectCount(s[..|s| - 1], c, m);
      assert s == s[..|s| - 1] + [s[|s| - 1]];
    }
  }
}
