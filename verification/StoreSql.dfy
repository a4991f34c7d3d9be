/**
 How the message store compiles a history query to SQL
 (waku/persistence/store.go, prepareQuerySQL and handleQueryCursor): conditions
 with numbered placeholders, and the parameters they stand for.
 */
module StoreSql {
  import opened GoTypes
  import opened Wrappers

  /** A row of the message table. */
  datatype Row = Row(
    id: Bytes, messageHash: Bytes, storedAt: Int64, timestamp: Int64,
    contentTopic: Bytes, pubsubTopic: Bytes, payload: Bytes, version: nat)

  datatype Index = Index(digest: Bytes, receiverTime: Int64, senderTime: Int64, pubsubTopic: Bytes)

  datatype Query = Query(
    pubsubTopic: Bytes, contentFilters: seq<Bytes>, startTime: Int64, endTime: Int64,
    cursor: Option<Index>, pageSize: nat, backward: bool)

  // ---------- statements ----------

  datatype Param = Text(text: Bytes) | Number(number: Int64) | Blob(blob: Bytes) | Count(count: nat)

  /** A condition of the WHERE clause; every number is a placeholder `$k`. */
  datatype Cond =
    | PubsubIs(k: nat)
    | TopicIn(ks: seq<nat>)
    | KeyAfter(k: nat, k2: nat)
    | KeyBefore(k: nat, k2: nat)
    | StoredFrom(k: nat)
    | StoredBelow(k: nat)

  datatype Statement = Statement(conds: seq<Cond>, descending: bool, limit: nat)

  /** The comparison of row values `(t1, id1) < (t2, id2)`. */
  predicate KeyLess(t1: int, id1: Bytes, t2: int, id2: Bytes) {
    t1 < t2 || (t1 == t2 && Less(id1, id2))
  }

  predicate IsText(params: seq<Param>, k: nat, text: Bytes) {
    1 <= k <= |params| && params[k - 1] == Text(text)
  }

  predicate IsNumber(params: seq<Param>, k: nat) {
    1 <= k <= |params| && params[k - 1].Number?
  }

  predicate IsKey(params: seq<Param>, k: nat, k2: nat) {
    IsNumber(params, k) && 1 <= k2 <= |params| && params[k2 - 1].Blob?
  }

  predicate Eval(c: Cond, params: seq<Param>, row: Row) {
    match c
    case PubsubIs(k) => IsText(params, k, row.pubsubTopic)
    case TopicIn(ks) => exists i :: 0 <= i < |ks| && IsText(params, ks[i], row.contentTopic)
    case KeyAfter(k, k2) =>
      IsKey(params, k, k2) && KeyLess(params[k - 1].number, params[k2 - 1].blob, row.storedAt, row.id)
    case KeyBefore(k, k2) =>
      IsKey(params, k, k2) && KeyLess(row.storedAt, row.id, params[k - 1].number, params[k2 - 1].blob)
    case StoredFrom(k) => IsNumber(params, k) && row.storedAt >= params[k - 1].number
    case StoredBelow(k) => IsNumber(params, k) && row.storedAt < params[k - 1].number
  }

  predicate Holds(conds: seq<Cond>, params: seq<Param>, row: Row) {
    forall i :: 0 <= i < |conds| ==> Eval(conds[i], params, row)
  }

  // ---------- building the statement ----------

  datatype Building = Building(conds: seq<Cond>, params: seq<Param>)

  function Plus(b: Building, c: Cond, more: seq<Param>): Building {
    Building(b.conds + [c], b.params + more)
  }

  function WithPubsub(b: Building, q: Query): Building {
    if q.pubsubTopic == [] then b else Plus(b, PubsubIs(|b.params| + 1), [Text(q.pubsubTopic)])
  }

  function NonEmpty(topics: seq<Bytes>): seq<Bytes> {
    if topics == [] then []
    else
      var r := NonEmpty(topics[..|topics| - 1]);
      if topics[|topics| - 1] == [] then r else r + [topics[|topics| - 1]]
  }

  function Texts(topics: seq<Bytes>): seq<Param> {
    seq(|topics|, i requires 0 <= i < |topics| => Text(topics[i]))
  }

  function From(n: nat, count: nat): seq<nat> {
    seq(count, i requires 0 <= i < count => n + i)
  }

  function WithTopics(b: Building, q: Query): Building {
    if q.contentFilters == [] then b
    else
      var topics := NonEmpty(q.contentFilters);
      Plus(b, TopicIn(From(|b.params| + 1, |topics|)), Texts(topics))
  }

  function WithCursor(b: Building, q: Query): Building {
    if q.cursor.None? then b
    else
      var n := |b.params|;
      Plus(b, if q.backward then KeyBefore(n + 1, n + 2) else KeyAfter(n + 1, n + 2),
           [Number(q.cursor.value.receiverTime), Blob(q.cursor.value.digest)])
  }

  function WithStart(b: Building, q: Query): Building {
    if q.startTime != 0 && (q.cursor.None? || q.backward)
    then Plus(b, StoredFrom(|b.params| + 1), [Number(q.startTime)]) else b
  }

  function WithEnd(b: Building, q: Query): Building {
    if q.endTime != 0 && (q.cursor.None? || !q.backward)
    then Plus(b, StoredBelow(|b.params| + 1), [Number(Wrap64(q.endTime + 1))]) else b
  }

  function Built(q: Query): Building {
    WithEnd(WithStart(WithCursor(WithTopics(WithPubsub(Building([], []), q), q), q), q), q)
  }

  /** The order and the limit, one more than the page size. */
  function WithLimit(b: Building, q: Query): (Statement, seq<Param>) {
    (Statement(b.conds, q.backward, |b.params| + 1), b.params + [Count(q.pageSize + 1)])
  }

  function Compiled(q: Query): (Statement, seq<Param>) {
    WithLimit(Built(q), q)
  }

  // ---------- placeholders ----------

  function Placeholders(c: Cond): seq<nat> {
    match c
    case PubsubIs(k) => [k]
    case TopicIn(ks) => ks
    case KeyAfter(k, k2) => [k, k2]
    case KeyBefore(k, k2) => [k, k2]
    case StoredFrom(k) => [k]
    case StoredBelow(k) => [k]
  }

  function AllPlaceholders(conds: seq<Cond>): seq<nat> {
    if conds == [] then [] else AllPlaceholders(conds[..|conds| - 1]) + Placeholders(conds[|conds| - 1])
  }

  /** The placeholders read `$1, $2, ...`, one per parameter. */
  ghost predicate Numbered(b: Building) {
    AllPlaceholders(b.conds) == From(1, |b.params|)
  }

  lemma PlusNumbered(b: Building, c: Cond, more: seq<Param>)
    requires Numbered(b) && Placeholders(c) == From(|b.params| + 1, |more|)
    ensures Numbered(Plus(b, c, more))
  {
    assert (b.conds + [c])[..|b.conds|] == b.conds;
    assert From(1, |b.params|) + From(|b.params| + 1, |more|) == From(1, |b.params| + |more|);
  }

  lemma TopicsNumbered(b: Building, q: Query)
    requires Numbered(b)
    ensures Numbered(WithTopics(b, q))
  {
    var topics := NonEmpty(q.contentFilters);
    PlusNumbered(b, TopicIn(From(|b.params| + 1, |topics|)), Texts(topics));
  }

  lemma CursorNumbered(b: Building, q: Query)
    requires Numbered(b)
    ensures Numbered(WithCursor(b, q))
  {
    if q.cursor.Some? {
      var n := |b.params|;
      PlusNumbered(b, if q.backward then KeyBefore(n + 1, n + 2) else KeyAfter(n + 1, n + 2),
                   [Number(q.cursor.value.receiverTime), Blob(q.cursor.value.digest)]);
    }
  }

  lemma TimesNumbered(b: Building, q: Query)
    requires Numbered(b)
    ensures Numbered(WithStart(b, q)) && Numbered(WithEnd(b, q))
  {
    PlusNumbered(b, StoredFrom(|b.params| + 1), [Number(q.startTime)]);
    PlusNumbered(b, StoredBelow(|b.params| + 1), [Number(Wrap64(q.endTime + 1))]);
  }

  lemma BuiltNumbered(q: Query)
    ensures Numbered(Built(q))
  {
    var b0 := Building([], []);
    PlusNumbered(b0, PubsubIs(1), [Text(q.pubsubTopic)]);
    var b1 := WithPubsub(b0, q);
    assert Numbered(b1);
    TopicsNumbered(b1, q);
    CursorNumbered(WithTopics(b1, q), q);
    TimesNumbered(WithCursor(WithTopics(b1, q), q), q);
    TimesNumbered(WithStart(WithCursor(WithTopics(b1, q), q), q), q);
  }

  lemma LimitInOrder(b: Building, q: Query)
    requires Numbered(b)
    ensures var (stmt, params) := WithLimit(b, q);
            && AllPlaceholders(stmt.conds) + [stmt.limit] == From(1, |params|)
            && params[stmt.limit - 1] == Count(q.pageSize + 1)
  {
    var n := |b.params|;
    assert From(1, n) + [n + 1] == From(1, n + 1);
  }

  /** Read from left to right, the statement uses each parameter once, in order; the limit is the last. */
  lemma PlaceholdersInOrder(q: Query)
    ensures var (stmt, params) := Compiled(q);
            && AllPlaceholders(stmt.conds) + [stmt.limit] == From(1, |params|)
            && params[stmt.limit - 1] == Count(q.pageSize + 1)
  {
    BuiltNumbered(q);
    LimitInOrder(Built(q), q);
  }

  // ---------- meaning ----------

  ghost predicate Placed(conds: seq<Cond>, n: nat) {
    forall i, j :: 0 <= i < |conds| && 0 <= j < |Placeholders(conds[i])| ==> Placeholders(conds[i])[j] <= n
  }

  /** More parameters do not change what earlier conditions mean. */
  lemma EvalStable(c: Cond, params: seq<Param>, more: seq<Param>, row: Row)
    requires forall j :: 0 <= j < |Placeholders(c)| ==> Placeholders(c)[j] <= |params|
    ensures Eval(c, params + more, row) == Eval(c, params, row)
  {
    if c.TopicIn? {
      forall i | 0 <= i < |c.ks|
        ensures IsText(params + more, c.ks[i], row.contentTopic) == IsText(params, c.ks[i], row.contentTopic)
      {
        assert Placeholders(c)[i] == c.ks[i];
      }
    } else {
      assert Placeholders(c)[0] == c.k <= |params|;
      if c.KeyAfter? || c.KeyBefore? { assert Placeholders(c)[1] == c.k2 <= |params|; }
    }
  }

  lemma HoldsStable(conds: seq<Cond>, params: seq<Param>, more: seq<Param>, row: Row)
    requires Placed(conds, |params|)
    ensures Holds(conds, params + more, row) == Holds(conds, params, row)
  {
    forall i | 0 <= i < |conds| ensures Eval(conds[i], params + more, row) == Eval(conds[i], params, row) {
      EvalStable(conds[i], params, more, row);
    }
  }

  /** One more condition with its own parameters restricts the rows by exactly that condition. */
  lemma PlusHolds(b: Building, c: Cond, more: seq<Param>, row: Row)
    requires Placed(b.conds, |b.params|)
    requires forall j :: 0 <= j < |Placeholders(c)| ==> Placeholders(c)[j] <= |b.params| + |more|
    ensures var r := Plus(b, c, more);
            && Placed(r.conds, |r.params|)
            && (Holds(r.conds, r.params, row) <==> Holds(b.conds, b.params, row) && Eval(c, r.params, row))
  {
    var r := Plus(b, c, more);
    HoldsStable(b.conds, b.params, more, row);
    assert r.conds[|b.conds|] == c;
    assert forall i :: 0 <= i < |b.conds| ==> r.conds[i] == b.conds[i];
    if Holds(r.conds, r.params, row) {
      assert Holds(b.conds, r.params, row);
    }
  }

  predicate PubsubPart(q: Query, row: Row) {
    q.pubsubTopic == [] || row.pubsubTopic == q.pubsubTopic
  }

  predicate TopicPart(q: Query, row: Row) {
    q.contentFilters == [] || (row.contentTopic != [] && row.contentTopic in q.contentFilters)
  }

  predicate CursorPart(q: Query, row: Row) {
    q.cursor.None?
    || (if q.backward then KeyLess(row.storedAt, row.id, q.cursor.value.receiverTime, q.cursor.value.digest)
        else KeyLess(q.cursor.value.receiverTime, q.cursor.value.digest, row.storedAt, row.id))
  }

  /** The time bounds that the statement keeps. */
  predicate KeptStart(q: Query, row: Row) {
    q.startTime == 0 || (q.cursor.Some? && !q.backward) || row.storedAt >= q.startTime
  }

  predicate KeptEnd(q: Query, row: Row) {
    q.endTime == 0 || (q.cursor.Some? && q.backward) || row.storedAt < Wrap64(q.endTime + 1)
  }

  lemma {:induction false} NonEmptyMember(topics: seq<Bytes>, t: Bytes)
    ensures t in NonEmpty(topics) <==> t != [] && t in topics
  {
    if topics != [] {
      NonEmptyMember(topics[..|topics| - 1], t);
      assert topics == topics[..|topics| - 1] + [topics[|topics| - 1]];
    }
  }

  lemma TopicsMean(b: Building, q: Query, row: Row)
    requires Placed(b.conds, |b.params|)
    ensures var r := WithTopics(b, q);
            && Placed(r.conds, |r.params|)
            && (Holds(r.conds, r.params, row) <==> Holds(b.conds, b.params, row) && TopicPart(q, row))
  {
    if q.contentFilters != [] {
      var topics := NonEmpty(q.contentFilters);
      var c := TopicIn(From(|b.params| + 1, |topics|));
      var r := WithTopics(b, q);
      PlusHolds(b, c, Texts(topics), row);
      NonEmptyMember(q.contentFilters, row.contentTopic);
      assert forall i :: 0 <= i < |topics| ==> r.params[c.ks[i] - 1] == Text(topics[i]);
      if row.contentTopic in topics {
        var i :| 0 <= i < |topics| && topics[i] == row.contentTopic;
        assert IsText(r.params, c.ks[i], row.contentTopic);
      }
    }
  }

  lemma CursorMeans(b: Building, q: Query, row: Row)
    requires Placed(b.conds, |b.params|)
    ensures var r := WithCursor(b, q);
            && Placed(r.conds, |r.params|)
            && (Holds(r.conds, r.params, row) <==> Holds(b.conds, b.params, row) && CursorPart(q, row))
  {
    if q.cursor.Some? {
      var n := |b.params|;
      PlusHolds(b, if q.backward then KeyBefore(n + 1, n + 2) else KeyAfter(n + 1, n + 2),
                [Number(q.cursor.value.receiverTime), Blob(q.cursor.value.digest)], row);
    }
  }

  lemma StartMeans(b: Building, q: Query, row: Row)
    requires Placed(b.conds, |b.params|)
    ensures var r := WithStart(b, q);
            && Placed(r.conds, |r.params|)
            && (Holds(r.conds, r.params, row) <==> Holds(b.conds, b.params, row) && KeptStart(q, row))
  {
    PlusHolds(b, StoredFrom(|b.params| + 1), [Number(q.startTime)], row);
  }

  lemma EndMeans(b: Building, q: Query, row: Row)
    requires Placed(b.conds, |b.params|)
    ensures var r := WithEnd(b, q);
            && Placed(r.conds, |r.params|)
            && (Holds(r.conds, r.params, row) <==> Holds(b.conds, b.params, row) && KeptEnd(q, row))
  {
    PlusHolds(b, StoredBelow(|b.params| + 1), [Number(Wrap64(q.endTime + 1))], row);
  }

  lemma PubsubMeans(q: Query, row: Row)
    ensures var r := WithPubsub(Building([], []), q);
            Placed(r.conds, |r.params|) && (Holds(r.conds, r.params, row) <==> PubsubPart(q, row))
  {
    PlusHolds(Building([], []), PubsubIs(1), [Text(q.pubsubTopic)], row);
  }

  predicate Passes(q: Query, row: Row) {
    PubsubPart(q, row) && TopicPart(q, row) && CursorPart(q, row) && KeptStart(q, row) && KeptEnd(q, row)
  }

  /** What a building selects. */
  ghost predicate Selects(b: Building, row: Row, part: bool) {
    Placed(b.conds, |b.params|) && (Holds(b.conds, b.params, row) <==> part)
  }

  lemma ContentMeans(q: Query, row: Row)
    ensures Selects(WithCursor(WithTopics(WithPubsub(Building([], []), q), q), q), row,
                    PubsubPart(q, row) && TopicPart(q, row) && CursorPart(q, row))
  {
    var b1 := WithPubsub(Building([], []), q);
    PubsubMeans(q, row);
    TopicsMean(b1, q, row);
    CursorMeans(WithTopics(b1, q), q, row);
  }

  lemma TimesMean(b: Building, q: Query, row: Row, part: bool)
    requires Selects(b, row, part)
    ensures Selects(WithEnd(WithStart(b, q), q), row, part && KeptStart(q, row) && KeptEnd(q, row))
  {
    StartMeans(b, q, row);
    EndMeans(WithStart(b, q), q, row);
  }

  predicate Chosen(compiled: (Statement, seq<Param>), row: Row) {
    Holds(compiled.0.conds, compiled.1, row)
  }

  lemma LimitMeans(b: Building, q: Query, row: Row, part: bool)
    requires Selects(b, row, part)
    ensures Chosen(WithLimit(b, q), row) <==> part
  {
    HoldsStable(b.conds, b.params, [Count(q.pageSize + 1)], row);
  }

  lemma BuiltMeans(q: Query, row: Row)
    ensures Selects(Built(q), row, Passes(q, row))
  {
    ContentMeans(q, row);
    TimesMean(WithCursor(WithTopics(WithPubsub(Building([], []), q), q), q), q, row,
              PubsubPart(q, row) && TopicPart(q, row) && CursorPart(q, row));
  }

  /** The compiled WHERE clause selects exactly the rows that pass all five parts. */
  lemma CompiledMeans(q: Query, row: Row)
    ensures Chosen(Compiled(q), row) <==> Passes(q, row)
  {
    BuiltMeans(q, row);
    LimitMeans(Built(q), q, row, Passes(q, row));
  }

  // ---------- the intended time range ----------

  /** Inclusive bounds, zero meaning none. */
  predicate InRange(q: Query, row: Row) {
    (q.startTime == 0 || q.startTime <= row.storedAt) && (q.endTime == 0 || row.storedAt <= q.endTime)
  }

  predicate Intended(q: Query, row: Row) {
    PubsubPart(q, row) && TopicPart(q, row) && CursorPart(q, row) && InRange(q, row)
  }

  /**
   The end is not the largest 64-bit time, and the cursor is on the right side
   of the bound that is dropped for it (or beyond the other bound).
   */
  predicate BoundsFit(q: Query) {
    if q.cursor.None? then q.endTime != MAX_INT64
    else
      var t := q.cursor.value.receiverTime;
      if q.backward then q.endTime == 0 || t <= q.endTime || (q.startTime != 0 && t < q.startTime)
      else q.endTime != MAX_INT64 && (q.startTime == 0 || q.startTime <= t || (q.endTime != 0 && q.endTime < t))
  }

  predicate KeptRange(q: Query, row: Row) {
    CursorPart(q, row) && KeptStart(q, row) && KeptEnd(q, row)
  }

  /** A row at a given time and id. */
  function Probe(t: Int64, id: Bytes): Row {
    Row(id, [], t, t, [], [], [], 0)
  }

  lemma {:induction false} LongerIsGreater(id: Bytes)
    ensures Less(id, id + [0])
  {
    if id != [] {
      LongerIsGreater(id[1..]);
      assert (id + [0])[1..] == id[1..] + [0];
    }
  }

  /** A row that the statement treats differently from the intended range. */
  function Witness(q: Query): Row {
    if q.cursor.None? then Probe(MAX_INT64, [])
    else if q.backward then Probe(q.cursor.value.receiverTime, [])
    else if q.endTime == MAX_INT64 then Probe(MAX_INT64, q.cursor.value.digest + [0])
    else Probe(q.cursor.value.receiverTime, q.cursor.value.digest + [0])
  }

  /**
   The time bounds and the cursor mean the inclusive range beyond the cursor,
   for every row, if and only if the bounds fit the cursor.
   */
  lemma RangeExact(q: Query)
    requires q.cursor.Some? ==> q.cursor.value.digest != []
    ensures (forall row :: KeptRange(q, row) == (CursorPart(q, row) && InRange(q, row))) <==> BoundsFit(q)
  {
    if !BoundsFit(q) {
      var row := Witness(q);
      if q.cursor.Some? { LongerIsGreater(q.cursor.value.digest); }
      assert KeptRange(q, row) != (CursorPart(q, row) && InRange(q, row));
    }
  }

  /** Then the statement selects exactly the rows that the query intends. */
  lemma CompiledIsIntended(q: Query, row: Row)
    requires BoundsFit(q) && (q.cursor.Some? ==> q.cursor.value.digest != [])
    ensures Chosen(Compiled(q), row) <==> Intended(q, row)
  {
    CompiledMeans(q, row);
    RangeExact(q);
    assert KeptRange(q, row) == (CursorPart(q, row) && InRange(q, row));
  }
}
