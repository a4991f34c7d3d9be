/**
 Paging through the message store with cursors (waku/persistence/store.go,
 Query): each page is one statement, and the cursor is rebuilt from the last
 row of the page (waku/v2/protocol/envelope.go).
 */
module StorePaging {
  import opened GoTypes
  import opened Wrappers
  import opened StoreSql

  // ---------- the order of the result ----------

  /** ORDER BY timestamp, id, pubsubTopic, storedAt. */
  predicate RowLess(a: Row, b: Row) {
    if a.timestamp != b.timestamp then a.timestamp < b.timestamp
    else if a.id != b.id then Less(a.id, b.id)
    else if a.pubsubTopic != b.pubsubTopic then Less(a.pubsubTopic, b.pubsubTopic)
    else a.storedAt < b.storedAt
  }

  predicate Precedes(backward: bool, a: Row, b: Row) {
    if backward then RowLess(b, a) else RowLess(a, b)
  }

  /** Two rows have a place before or after each other unless they agree in all four columns. */
  lemma RowLessTotal(a: Row, b: Row)
    ensures !RowLess(a, b) && !RowLess(b, a)
       <==> a.timestamp == b.timestamp && a.id == b.id && a.pubsubTopic == b.pubsubTopic && a.storedAt == b.storedAt
  {
    LessTotal(a.id, b.id);
    LessTotal(a.pubsubTopic, b.pubsubTopic);
  }

  lemma RowLessAcross(a: Row, b: Row, c: Row)
    requires RowLess(a, b) && !RowLess(c, b)
    ensures RowLess(a, c)
  {
    LessTotal(b.id, c.id);
    LessTotal(b.pubsubTopic, c.pubsubTopic);
    if Less(a.id, b.id) && Less(b.id, c.id) { LessTransitive(a.id, b.id, c.id); }
    if Less(a.pubsubTopic, b.pubsubTopic) && Less(b.pubsubTopic, c.pubsubTopic) {
      LessTransitive(a.pubsubTopic, b.pubsubTopic, c.pubsubTopic);
    }
    LessIrreflexive(a.id);
    LessIrreflexive(a.pubsubTopic);
  }

  lemma RowLessIrreflexive(a: Row)
    ensures !RowLess(a, a)
  {
    LessIrreflexive(a.id);
  }

  lemma RowLessAsymmetric(a: Row, b: Row)
    requires RowLess(a, b)
    ensures !RowLess(b, a)
  {
    if Less(b.id, a.id) && Less(a.id, b.id) { LessTransitive(a.id, b.id, a.id); LessIrreflexive(a.id); }
    if Less(b.pubsubTopic, a.pubsubTopic) && Less(a.pubsubTopic, b.pubsubTopic) {
      LessTransitive(a.pubsubTopic, b.pubsubTopic, a.pubsubTopic);
      LessIrreflexive(a.pubsubTopic);
    }
  }

  lemma PrecedesAcross(backward: bool, x: Row, a: Row, k: Row)
    requires Precedes(backward, x, a) && !Precedes(backward, k, a)
    ensures Precedes(backward, x, k)
  {
    if backward {
      // a < x, and a is not below k
      if !RowLess(k, x) {
        if RowLess(a, x) { RowLessAcross(a, x, k); }
      }
    } else {
      RowLessAcross(x, a, k);
    }
  }

  // ---------- filtering and sorting ----------

  function Keep(s: seq<Row>, p: Row -> bool): seq<Row> {
    if s == [] then [] else (if p(s[0]) then [s[0]] else []) + Keep(s[1..], p)
  }

  function InsertRow(l: seq<Row>, x: Row, backward: bool): seq<Row> {
    if l == [] then [x]
    else if Precedes(backward, x, l[0]) then [x] + l
    else [l[0]] + InsertRow(l[1..], x, backward)
  }

  /** The rows in the order of the statement. */
  function Sort(s: seq<Row>, backward: bool): seq<Row> {
    if s == [] then [] else InsertRow(Sort(s[1..], backward), s[0], backward)
  }

  ghost predicate Sorted(l: seq<Row>, backward: bool) {
    forall i, j :: 0 <= i < j < |l| ==> !Precedes(backward, l[j], l[i])
  }

  lemma {:induction false} KeepMember(s: seq<Row>, p: Row -> bool, x: Row)
    ensures x in Keep(s, p) <==> x in s && p(x)
  {
    if s != [] {
      KeepMember(s[1..], p, x);
      assert s == [s[0]] + s[1..];
    }
  }

  lemma {:induction false} InsertMember(l: seq<Row>, x: Row, backward: bool)
    ensures multiset(InsertRow(l, x, backward)) == multiset(l) + multiset{x}
  {
    if l != [] && !Precedes(backward, x, l[0]) {
      InsertMember(l[1..], x, backward);
      assert l == [l[0]] + l[1..];
    }
  }

  lemma {:induction false} SortMember(s: seq<Row>, backward: bool)
    ensures multiset(Sort(s, backward)) == multiset(s)
  {
    if s != [] {
      SortMember(s[1..], backward);
      InsertMember(Sort(s[1..], backward), s[0], backward);
      assert s == [s[0]] + s[1..];
    }
  }

  lemma InSort(s: seq<Row>, backward: bool, x: Row)
    ensures x in Sort(s, backward) <==> x in s
  {
    SortMember(s, backward);
    assert x in Sort(s, backward) <==> x in multiset(Sort(s, backward));
    assert x in s <==> x in multiset(s);
  }

  lemma {:induction false} InsertedOrThere(l: seq<Row>, x: Row, backward: bool, j: nat)
    requires j < |InsertRow(l, x, backward)|
    ensures InsertRow(l, x, backward)[j] == x || InsertRow(l, x, backward)[j] in l
  {
    if l != [] && !Precedes(backward, x, l[0]) && j > 0 {
      InsertedOrThere(l[1..], x, backward, j - 1);
    }
  }

  lemma {:induction false} InsertSorted(l: seq<Row>, x: Row, backward: bool)
    requires Sorted(l, backward)
    ensures Sorted(InsertRow(l, x, backward), backward)
  {
    if l != [] {
      var r := InsertRow(l, x, backward);
      if Precedes(backward, x, l[0]) {
        forall j | 0 < j < |r| ensures !Precedes(backward, r[j], x) {
          PrecedesIrreflexive(backward, l[0]);
          PrecedesAcross(backward, x, l[0], r[j]);
          PrecedesAsymmetric(backward, x, r[j]);
        }
      } else {
        InsertSorted(l[1..], x, backward);
        forall j | 0 < j < |r| ensures !Precedes(backward, r[j], l[0]) {
          InsertedOrThere(l[1..], x, backward, j - 1);
        }
      }
    }
  }

  lemma PrecedesIrreflexive(backward: bool, a: Row)
    ensures !Precedes(backward, a, a)
  {
    RowLessIrreflexive(a);
  }

  lemma PrecedesAsymmetric(backward: bool, a: Row, b: Row)
    requires Precedes(backward, a, b)
    ensures !Precedes(backward, b, a)
  {
    if backward { RowLessAsymmetric(b, a); } else { RowLessAsymmetric(a, b); }
  }

  lemma {:induction false} SortSorted(s: seq<Row>, backward: bool)
    ensures Sorted(Sort(s, backward), backward)
  {
    if s != [] {
      SortSorted(s[1..], backward);
      InsertSorted(Sort(s[1..], backward), s[0], backward);
    }
  }

  lemma {:induction false} InsertThenKeep(l: seq<Row>, x: Row, backward: bool, p: Row -> bool)
    requires Sorted(l, backward)
    ensures Keep(InsertRow(l, x, backward), p) == if p(x) then InsertRow(Keep(l, p), x, backward) else Keep(l, p)
  {
    var r := InsertRow(l, x, backward);
    if l == [] || Precedes(backward, x, l[0]) {
      assert r[1..] == l;
      var k := Keep(l, p);
      if k != [] {
        KeepMember(l, p, k[0]);
        var j :| 0 <= j < |l| && l[j] == k[0];
        PrecedesIrreflexive(backward, l[0]);
        PrecedesAcross(backward, x, l[0], k[0]);
      }
    } else {
      assert r[1..] == InsertRow(l[1..], x, backward);
      InsertThenKeep(l[1..], x, backward, p);
      var k := Keep(l[1..], p);
      assert ([l[0]] + k)[1..] == k;
      assert [] + k == k;
    }
  }

  /** Filtering before or after sorting is the same. */
  lemma {:induction false} SortThenKeep(s: seq<Row>, backward: bool, p: Row -> bool)
    ensures Keep(Sort(s, backward), p) == Sort(Keep(s, p), backward)
  {
    if s != [] {
      SortThenKeep(s[1..], backward, p);
      SortSorted(s[1..], backward);
      InsertThenKeep(Sort(s[1..], backward), s[0], backward, p);
      var k := Keep(s[1..], p);
      assert ([s[0]] + k)[1..] == k;
      assert [] + k == k;
    }
  }

  lemma {:induction false} KeepKeep(s: seq<Row>, p: Row -> bool, q: Row -> bool, both: Row -> bool)
    requires forall r :: r in s ==> (both(r) <==> p(r) && q(r))
    ensures Keep(Keep(s, p), q) == Keep(s, both)
  {
    if s != [] {
      forall r | r in s[1..] ensures r in s {}
      KeepKeep(s[1..], p, q, both);
      assert s[0] in s;
      var k := Keep(s[1..], p);
      assert ([s[0]] + k)[1..] == k;
      assert [] + k == k;
    }
  }

  lemma {:induction false} KeepFewer(s: seq<Row>, p: Row -> bool, q: Row -> bool)
    requires forall r :: r in s && q(r) ==> p(r)
    ensures |Keep(s, q)| <= |Keep(s, p)|
    ensures (exists r :: r in s && p(r) && !q(r)) ==> |Keep(s, q)| < |Keep(s, p)|
  {
    if s != [] {
      assert s[0] in s;
      forall r | r in s[1..] ensures r in s {}
      KeepFewer(s[1..], p, q);
      if r :| r in s && p(r) && !q(r) { assert r == s[0] || r in s[1..]; }
    }
  }

  // ---------- one page ----------

  /** The digest of a content topic and a payload. */
  type Digest = (Bytes, Bytes) -> Bytes

  /** The ids in the table are digests, as Put stores them. */
  ghost predicate Digests(sha: Digest, table: seq<Row>) {
    forall r :: r in table ==> r.id == sha(r.contentTopic, r.payload) && r.id != []
  }

  /** The cursor that names a row, rebuilt from its message. */
  function IndexOf(sha: Digest, r: Row): Index {
    Index(sha(r.contentTopic, r.payload), r.storedAt, r.timestamp, r.pubsubTopic)
  }

  /** `Crashed` is a panic in the source. */
  datatype Answer = InvalidCursor | Crashed | Found(cursor: Option<Index>, rows: seq<Row>)

  predicate Names(cursor: Index, r: Row) {
    r.storedAt == cursor.receiverTime && r.id == cursor.digest
  }

  /** A cursor names a row exactly when the row is neither before nor after it. */
  lemma NamesIff(c: Index, r: Row)
    ensures Names(c, r)
       <==> (&& !KeyLess(c.receiverTime, c.digest, r.storedAt, r.id)
             && !KeyLess(r.storedAt, r.id, c.receiverTime, c.digest))
  {
    LessTotal(c.digest, r.id);
    LessIrreflexive(r.id);
  }

  /** The cursor rebuilt from a stored row names it, and carries its sender's time and its topic. */
  lemma IndexNames(sha: Digest, table: seq<Row>, r: Row)
    requires Digests(sha, table) && r in table
    ensures var c := IndexOf(sha, r); Names(c, r) && c.senderTime == r.timestamp && c.pubsubTopic == r.pubsubTopic
  {
  }

  function ChosenBy(compiled: (Statement, seq<Param>)): Row -> bool {
    (r: Row) => Chosen(compiled, r)
  }

  function Take(s: seq<Row>, n: nat): seq<Row> {
    if |s| <= n then s else s[..n]
  }

  function Reverse(s: seq<Row>): seq<Row> {
    if s == [] then [] else Reverse(s[1..]) + [s[0]]
  }

  function LimitOf(compiled: (Statement, seq<Param>)): nat {
    var (stmt, params) := compiled;
    if 1 <= stmt.limit <= |params| && params[stmt.limit - 1].Count? then params[stmt.limit - 1].count else 0
  }

  lemma CompiledLimit(b: Building, q: Query)
    ensures LimitOf(WithLimit(b, q)) == q.pageSize + 1
  {
  }

  /** What the database returns for a statement. */
  function Execute(table: seq<Row>, compiled: (Statement, seq<Param>)): seq<Row> {
    Take(Sort(Keep(table, ChosenBy(compiled)), compiled.0.descending), LimitOf(compiled))
  }

  /** Cuts the extra row off, and names the last row left, which a page of no rows does not have. */
  function Cut(sha: Digest, rows: seq<Row>, q: Query): Answer {
    if q.pageSize == 0 && rows != [] then Crashed
    else
      var page := Take(rows, q.pageSize);
      Found(if |rows| > q.pageSize then Some(IndexOf(sha, page[|page| - 1])) else None,
            if q.backward then Reverse(page) else page)
  }

  /** The cursor of the query, if it has one, names a row. */
  predicate CursorKnown(table: seq<Row>, q: Query) {
    q.cursor.None? || exists i :: 0 <= i < |table| && Names(q.cursor.value, table[i])
  }

  function Answered(sha: Digest, table: seq<Row>, q: Query): Answer {
    if !CursorKnown(table, q) then InvalidCursor else Cut(sha, Execute(table, Compiled(q)), q)
  }

  // ---------- following the cursors ----------

  function PastCursor(q: Query): Row -> bool {
    (r: Row) => CursorPart(q, r)
  }

  function Remaining(table: seq<Row>, q: Query): nat {
    |Keep(table, PastCursor(q))|
  }

  lemma KeyLessTransitive(t1: int, id1: Bytes, t2: int, id2: Bytes, t3: int, id3: Bytes)
    requires KeyLess(t1, id1, t2, id2) && KeyLess(t2, id2, t3, id3)
    ensures KeyLess(t1, id1, t3, id3)
  {
    if t1 == t2 == t3 { LessTransitive(id1, id2, id3); }
  }

  lemma ExecuteMember(table: seq<Row>, compiled: (Statement, seq<Param>), r: Row)
    requires r in Execute(table, compiled)
    ensures r in table && Chosen(compiled, r)
  {
    var kept := Keep(table, ChosenBy(compiled));
    assert r in Sort(kept, compiled.0.descending);
    InSort(kept, compiled.0.descending, r);
    KeepMember(table, ChosenBy(compiled), r);
  }

  lemma CutEnd(sha: Digest, rows: seq<Row>, q: Query) returns (r: Row)
    requires Cut(sha, rows, q).Found? && Cut(sha, rows, q).cursor.Some?
    ensures r in rows && Cut(sha, rows, q).cursor == Some(IndexOf(sha, r))
  {
    r := rows[q.pageSize - 1];
  }

  /** The last row of a full page is in the table and past the old cursor. */
  lemma PageEnd(sha: Digest, table: seq<Row>, q: Query) returns (r: Row)
    requires Answered(sha, table, q).Found? && Answered(sha, table, q).cursor.Some?
    ensures r in table && CursorPart(q, r)
    ensures Answered(sha, table, q).cursor == Some(IndexOf(sha, r))
  {
    r := CutEnd(sha, Execute(table, Compiled(q)), q);
    ExecuteMember(table, Compiled(q), r);
    CompiledMeans(q, r);
  }

  /** A returned cursor leaves fewer rows to visit. */
  lemma CursorAdvances(sha: Digest, table: seq<Row>, q: Query)
    requires Digests(sha, table)
    requires Answered(sha, table, q).Found? && Answered(sha, table, q).cursor.Some?
    ensures Remaining(table, q.(cursor := Answered(sha, table, q).cursor)) < Remaining(table, q)
  {
    var r := PageEnd(sha, table, q);
    var q' := q.(cursor := Some(IndexOf(sha, r)));
    forall x | x in table && PastCursor(q')(x) ensures PastCursor(q)(x) {
      if q.cursor.Some? {
        var c := q.cursor.value;
        if q.backward {
          KeyLessTransitive(x.storedAt, x.id, r.storedAt, r.id, c.receiverTime, c.digest);
        } else {
          KeyLessTransitive(c.receiverTime, c.digest, r.storedAt, r.id, x.storedAt, x.id);
        }
      }
    }
    LessIrreflexive(r.id);
    assert PastCursor(q)(r) && !PastCursor(q')(r);
    KeepFewer(table, PastCursor(q), PastCursor(q'));
  }

  /** A store, as its clients see it. */
  type Asker = Query -> Answer

  ghost predicate Advances(ask: Asker, table: seq<Row>) {
    forall q :: ask(q).Found? && ask(q).cursor.Some? ==>
      Remaining(table, q.(cursor := ask(q).cursor)) < Remaining(table, q)
  }

  /**
   A client that asks with each returned cursor until none is returned. Forward
   pages are appended, backward pages are put in front.
   */
  function Follow(ask: Asker, ghost table: seq<Row>, q: Query): seq<Row>
    requires Advances(ask, table)
    decreases Remaining(table, q)
  {
    var a := ask(q);
    if !a.Found? then []
    else if a.cursor.None? then a.rows
    else
      var rest := Follow(ask, table, q.(cursor := a.cursor));
      if q.backward then rest + a.rows else a.rows + rest
  }

  /** This store. */
  function Store(sha: Digest, table: seq<Row>): Asker {
    (q: Query) => Answered(sha, table, q)
  }

  lemma StoreAdvances(sha: Digest, table: seq<Row>)
    requires Digests(sha, table)
    ensures Advances(Store(sha, table), table)
  {
    var ask := Store(sha, table);
    forall q | ask(q).Found? && ask(q).cursor.Some?
      ensures Remaining(table, q.(cursor := ask(q).cursor)) < Remaining(table, q)
    {
      CursorAdvances(sha, table, q);
    }
  }
}
