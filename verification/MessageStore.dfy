/**
 The DBStore object (waku/persistence/store.go): the table that Put extends, the
 statement built step by step with its parameter counter, and Query with its
 cut and its reversal in place.
 */
module MessageStore {
  import opened GoTypes
  import opened Wrappers
  import opened StoreSql
  import opened StorePaging
  import opened StoreTheorems

  /** What is stored of an envelope. */
  datatype Envelope = Envelope(
    messageHash: Bytes, timestamp: Int64, receiverTime: Int64,
    contentTopic: Bytes, pubsubTopic: Bytes, payload: Bytes, version: nat)

  function Stored(sha: Digest, e: Envelope): Row {
    Row(sha(e.contentTopic, e.payload), e.messageHash,
        if e.timestamp == 0 then e.receiverTime else e.timestamp,
        e.timestamp, e.contentTopic, e.pubsubTopic, e.payload, e.version)
  }

  /** What GetStoredMessage makes of a row; an absent timestamp or version is zero. */
  datatype StoredMessage = StoredMessage(
    id: Bytes, pubsubTopic: Bytes, receiverTime: Int64,
    contentTopic: Bytes, payload: Bytes, timestamp: Int64, version: nat)

  function Retrieved(r: Row): StoredMessage {
    StoredMessage(r.id, r.pubsubTopic, r.storedAt, r.contentTopic, r.payload, r.timestamp, r.version)
  }

  /**
   A stored message is retrieved with its topics, payload, timestamp and
   version; its receiver time is its timestamp, or when it has none the time it
   was received; and it is found by the hash of its envelope.
   */
  lemma StoredIsRetrieved(sha: Digest, e: Envelope)
    ensures var r := Retrieved(Stored(sha, e));
            && r.pubsubTopic == e.pubsubTopic && r.contentTopic == e.contentTopic && r.payload == e.payload
            && r.timestamp == e.timestamp && r.version == e.version
            && r.receiverTime == (if e.timestamp != 0 then e.timestamp else e.receiverTime)
            && r.id == sha(e.contentTopic, e.payload)
    ensures Stored(sha, e).messageHash == e.messageHash
  {
  }

  /** The message hash is the primary key. */
  ghost predicate DistinctHashes(table: seq<Row>) {
    forall i, j :: 0 <= i < j < |table| ==> table[i].messageHash != table[j].messageHash
  }

  // ---------- rows that paging loses ----------

  /** Everything, oldest first, one row at a time. */
  const ONE_BY_ONE: Query := Query([], [], 0, 0, None, 1, false)

  lemma {:induction false} KeepsEverything(s: seq<Row>)
    ensures Keep(s, PassesBy(ONE_BY_ONE)) == s
  {
    if s != [] {
      assert PassesBy(ONE_BY_ONE)(s[0]);
      KeepsEverything(s[1..]);
    }
  }

  /** Two rows are returned in the order of the database, whatever the order they were stored in. */
  lemma TwoSorted(a: Row, b: Row)
    requires RowLess(a, b)
    ensures Sort([b, a], false) == [a, b] && Sort([a, b], false) == [a, b]
  {
    RowLessAsymmetric(a, b);
    assert [b, a][1..] == [a] && [a][1..] == [] && [a, b][1..] == [b] && [b][1..] == [];
    assert Sort([a], false) == InsertRow([], a, false) == [a];
    assert Sort([b], false) == InsertRow([], b, false) == [b];
    assert InsertRow([a], b, false) == [a] + InsertRow([a][1..], b, false);
    assert InsertRow([b], a, false) == [a] + [b];
  }

  lemma NothingBeyond(a: Row, b: Row)
    requires !Beyond(false, a, b)
    ensures Rest([a, b], false, Some(a)) == []
  {
    LessIrreflexive(a.id);
    var p := BeyondRow(false, a);
    assert !p(a) && !p(b);
    assert [a, b][1..] == [b] && [b][1..] == [];
    assert Keep([b], p) == [];
  }

  /** A row that comes second and whose key is not past that of the first is never returned. */
  lemma SecondIsLost(sha: Digest, table: seq<Row>, a: Row, b: Row)
    requires Digests(sha, table) && Sort(table, false) == [a, b] && !Beyond(false, a, b)
    ensures Plain(table, ONE_BY_ONE) == [a, b]
    ensures Advances(Store(sha, table), table) && Follow(Store(sha, table), table, ONE_BY_ONE) == [a]
  {
    KeepsEverything(table);
    SelectedIsPlainIff(table, ONE_BY_ONE);
    StoreAdvances(sha, table);
    FollowScans(sha, table, Store(sha, table), ONE_BY_ONE, 1);
    assert ONE_BY_ONE.(pageSize := 1) == ONE_BY_ONE;
    NothingBeyond(a, b);
    ScanUnfold([a, b], false, None, 1, [a, b]);
    ScanUnfold([a, b], false, Some(a), 1, []);
  }

  /**
   A message without a timestamp that arrived after another message was sent:
   it is the whole of the paged result, and the other message is never returned.
   */
  lemma ZeroTimestampBreaks(sha: Digest, e1: Envelope, e2: Envelope)
    requires e2.timestamp == 0 < e1.timestamp < e2.receiverTime
    requires sha(e1.contentTopic, e1.payload) != [] && sha(e2.contentTopic, e2.payload) != []
    ensures var table := [Stored(sha, e1), Stored(sha, e2)];
            && Plain(table, ONE_BY_ONE) == [Stored(sha, e2), Stored(sha, e1)]
            && Advances(Store(sha, table), table)
            && Follow(Store(sha, table), table, ONE_BY_ONE) == [Stored(sha, e2)]
  {
    var b, a := Stored(sha, e1), Stored(sha, e2);
    TwoSorted(a, b);
    SecondIsLost(sha, [b, a], a, b);
  }

  /**
   The same message on two pubsub topics: the rows have different hashes but
   the same key, and only the first topic's row is ever returned.
   */
  lemma TwoTopicsBreak(sha: Digest, e1: Envelope, e2: Envelope)
    requires e1.timestamp == e2.timestamp != 0 && e1.contentTopic == e2.contentTopic && e1.payload == e2.payload
    requires Less(e1.pubsubTopic, e2.pubsubTopic) && e1.messageHash != e2.messageHash
    requires sha(e1.contentTopic, e1.payload) != []
    ensures var table := [Stored(sha, e1), Stored(sha, e2)];
            && Plain(table, ONE_BY_ONE) == [Stored(sha, e1), Stored(sha, e2)]
            && Advances(Store(sha, table), table)
            && Follow(Store(sha, table), table, ONE_BY_ONE) == [Stored(sha, e1)]
  {
    var a, b := Stored(sha, e1), Stored(sha, e2);
    LessIrreflexive(a.id);
    LessIrreflexive(a.pubsubTopic);
    TwoSorted(a, b);
    SecondIsLost(sha, [a, b], a, b);
  }

  // ---------- reversal in place ----------

  lemma {:induction false} ReverseSnoc(s: seq<Row>, x: Row)
    ensures Reverse(s + [x]) == [x] + Reverse(s)
  {
    if s == [] {
      assert s + [x] == [x];
      assert Reverse([x]) == Reverse([x][1..]) + [x];
    } else {
      assert (s + [x])[1..] == s[1..] + [x];
      ReverseSnoc(s[1..], x);
    }
  }

  lemma ReverseHead(s: seq<Row>)
    requires s != []
    ensures Reverse(s) == Reverse(s[1..]) + [s[0]]
  {
  }

  /** Swapping the ends reverses the outside; the inside is still to be reversed. */
  lemma SwapEnds(s: seq<Row>, first: Row, mid: seq<Row>, last: Row)
    requires s == [first] + mid + [last]
    ensures Reverse(s) == [last] + Reverse(mid) + [first]
  {
    ReverseHead(s);
    assert s[1..] == mid + [last];
    ReverseSnoc(mid, last);
  }

  /** The rows that a half finished reversal stands for. */
  function HalfReversed(s: seq<Row>, i: nat, j: nat): seq<Row>
    requires i <= j <= |s|
  {
    s[..i] + Reverse(s[i..j]) + s[j..]
  }

  lemma SwapStep(s: seq<Row>, i: nat, j: nat)
    requires i < j < |s|
    ensures HalfReversed(s[i := s[j]][j := s[i]], i + 1, j) == HalfReversed(s, i, j + 1)
  {
    var t, inner := s[i := s[j]][j := s[i]], s[i..j + 1];
    var mid, was := t[i + 1..j], inner[1..j - i];
    SwapEnds(inner, s[i], was, s[j]);
    forall k | 0 <= k < |mid| ensures mid[k] == was[k] {
      assert t[i + 1 + k] == s[i + 1 + k];
    }
    assert mid == was;
    assert t[..i + 1] == s[..i] + [inner[|inner| - 1]];
    assert t[j..] == [inner[0]] + s[j + 1..];
  }

  lemma AlmostReversed(s: seq<Row>, i: nat, j: nat)
    requires i <= j <= |s| && j <= i + 1
    ensures HalfReversed(s, i, j) == s
  {
    var inner := s[i..j];
    if inner != [] {
      assert inner == [inner[0]] && Reverse(inner[1..]) == [];
    }
    assert Reverse(inner) == inner;
    assert s[..i] + inner + s[j..] == s;
  }

  class DBStore {
    const sha: Digest
    var table: seq<Row>

    constructor (sha: Digest)
      ensures table == [] && this.sha == sha
    {
      this.sha := sha;
      table := [];
    }

    predicate HasHash(h: Bytes)
      reads this
    {
      exists i :: 0 <= i < |table| && table[i].messageHash == h
    }

    /** Inserting fails when the message hash, the primary key, is taken. */
    method Put(e: Envelope) returns (ok: bool)
      modifies this
      ensures ok == !old(HasHash(e.messageHash))
      ensures HasHash(e.messageHash)
      ensures old(DistinctHashes(table)) ==> DistinctHashes(table)
      ensures table == if ok then old(table) + [Stored(sha, e)] else old(table)
      ensures old(Digests(sha, table)) && sha(e.contentTopic, e.payload) != [] ==> Digests(sha, table)
    {
      var i := 0;
      while i < |table|
        invariant 0 <= i <= |table|
        invariant forall j :: 0 <= j < i ==> table[j].messageHash != e.messageHash
      {
        if table[i].messageHash == e.messageHash {
          return false;
        }
        i := i + 1;
      }
      var storedAt := e.timestamp;
      if storedAt == 0 {
        storedAt := e.receiverTime;
      }
      var row := Row(sha(e.contentTopic, e.payload), e.messageHash, storedAt, e.timestamp,
                     e.contentTopic, e.pubsubTopic, e.payload, e.version);
      table := table + [row];
      assert table[|table| - 1].messageHash == e.messageHash;
      ok := true;
    }

    /** The conditions for topics, written with a running parameter counter. */
    method TopicConditions(q: Query) returns (conds: seq<Cond>, params: seq<Param>, paramCnt: nat)
      ensures Building(conds, params) == WithTopics(WithPubsub(Building([], []), q), q) && paramCnt == |params|
    {
      conds, params, paramCnt := [], [], 0;
      if q.pubsubTopic != [] {
        paramCnt := paramCnt + 1;
        conds := conds + [PubsubIs(paramCnt)];
        params := params + [Text(q.pubsubTopic)];
      }
      assert Building(conds, params) == WithPubsub(Building([], []), q);
      if |q.contentFilters| != 0 {
        var places;
        places, params, paramCnt := TopicPlaces(q.contentFilters, params);
        conds := conds + [TopicIn(places)];
      }
    }

    /** The loop that adds a parameter for every content topic that is not empty. */
    method TopicPlaces(filters: seq<Bytes>, first: seq<Param>)
      returns (places: seq<nat>, params: seq<Param>, paramCnt: nat)
      ensures params == first + Texts(NonEmpty(filters))
      ensures places == From(|first| + 1, |NonEmpty(filters)|) && paramCnt == |params|
    {
      places, params, paramCnt := [], first, |first|;
      var i := 0;
      while i < |filters|
        invariant 0 <= i <= |filters|
        invariant params == first + Texts(NonEmpty(filters[..i]))
        invariant places == From(|first| + 1, |NonEmpty(filters[..i])|)
        invariant paramCnt == |params|
      {
        var topics, t := filters[..i], filters[i];
        assert filters[..i + 1][..i] == topics;
        if t != [] {
          paramCnt := paramCnt + 1;
          places := places + [paramCnt];
          params := params + [Text(t)];
          assert Texts(NonEmpty(topics) + [t]) == Texts(NonEmpty(topics)) + [Text(t)];
        }
        i := i + 1;
      }
      assert filters[..i] == filters;
    }

    /** handleQueryCursor, after the cursor was found to exist. */
    method CursorConditions(q: Query, conds0: seq<Cond>, params0: seq<Param>)
      returns (conds: seq<Cond>, params: seq<Param>, paramCnt: nat)
      ensures Building(conds, params) == WithEnd(WithStart(WithCursor(Building(conds0, params0), q), q), q)
      ensures paramCnt == |params|
    {
      conds, params, paramCnt := conds0, params0, |params0|;
      var usesCursor := false;
      if q.cursor.Some? {
        usesCursor := true;
        var past := if q.backward then KeyBefore(paramCnt + 1, paramCnt + 2) else KeyAfter(paramCnt + 1, paramCnt + 2);
        conds := conds + [past];
        paramCnt := paramCnt + 2;
        params := params + [Number(q.cursor.value.receiverTime), Blob(q.cursor.value.digest)];
      }
      if q.startTime != 0 && (!usesCursor || q.backward) {
        paramCnt := paramCnt + 1;
        conds := conds + [StoredFrom(paramCnt)];
        params := params + [Number(q.startTime)];
      }
      if q.endTime != 0 && (!usesCursor || !q.backward) {
        paramCnt := paramCnt + 1;
        conds := conds + [StoredBelow(paramCnt)];
        params := params + [Number(Wrap64(q.endTime + 1))];
      }
    }

    method PrepareQuerySQL(q: Query) returns (compiled: Option<(Statement, seq<Param>)>)
      ensures compiled.None? <==> !CursorKnown(table, q)
      ensures compiled.Some? ==> compiled.value == Compiled(q)
    {
      var conds, params, paramCnt := TopicConditions(q);
      if q.cursor.Some? {
        var found := exists i :: 0 <= i < |table| && Names(q.cursor.value, table[i]);
        if !found {
          return None;
        }
      }
      conds, params, paramCnt := CursorConditions(q, conds, params);
      paramCnt := paramCnt + 1;
      params := params + [Count(q.pageSize + 1)];
      compiled := Some((Statement(conds, q.backward, paramCnt), params));
    }

    /** The loop that swaps the ends of a backward page. */
    method ReversePage(page: seq<Row>) returns (result: seq<Row>)
      ensures result == Reverse(page)
    {
      result := page;
      var i, j := 0, |result| - 1;
      assert result[..0] + Reverse(result[0..|result|]) + result[|result|..] == Reverse(page) by {
        assert result[0..|result|] == page;
      }
      while i < j
        invariant |result| == |page| && 0 <= i <= j + 1 && i + j == |result| - 1
        invariant HalfReversed(result, i, j + 1) == Reverse(page)
      {
        SwapStep(result, i, j);
        result := result[i := result[j]][j := result[i]];
        i, j := i + 1, j - 1;
      }
      AlmostReversed(result, i, j + 1);
    }

    method Query(q: Query) returns (a: Answer)
      ensures a == Answered(sha, table, q)
    {
      var compiled := PrepareQuerySQL(q);
      if compiled.None? {
        return InvalidCursor;
      }
      var result := Execute(table, compiled.value);
      var cursor: Option<Index> := None;
      if |result| != 0 {
        if |result| > q.pageSize {
          result := result[..q.pageSize];
          if |result| == 0 {
            return Crashed;
          }
          cursor := Some(IndexOf(sha, result[|result| - 1]));
        }
      }
      if q.backward {
        result := ReversePage(result);
      }
      a := Found(cursor, result);
    }
  }
}
