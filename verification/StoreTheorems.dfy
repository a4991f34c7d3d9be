/**
 Paging with cursors against plain filtering and sorting: what following the
 cursors yields, and exactly when that is the whole sorted result.
 */
module StoreTheorems {
  import opened GoTypes
  import opened Wrappers
  import opened StoreSql
  import opened StorePaging

  /** The rows that a query is after: its topics and its time range, beyond its cursor. */
  function Wanted(q: Query): Row -> bool {
    (r: Row) => Intended(q, r)
  }

  /** The plain result: all wanted rows, sorted in the direction of the query. */
  function Plain(table: seq<Row>, q: Query): seq<Row> {
    Sort(Keep(table, Wanted(q)), q.backward)
  }

  /** The rows that the statement for the query selects. */
  function PassesBy(q: Query): Row -> bool {
    (r: Row) => Passes(q, r)
  }

  function Selected(table: seq<Row>, q: Query): seq<Row> {
    Sort(Keep(table, PassesBy(q)), q.backward)
  }

  /** `r` comes after `c` for the cursor condition of this direction. */
  predicate Beyond(backward: bool, c: Row, r: Row) {
    if backward then KeyLess(r.storedAt, r.id, c.storedAt, c.id) else KeyLess(c.storedAt, c.id, r.storedAt, r.id)
  }

  function BeyondRow(backward: bool, c: Row): Row -> bool {
    (r: Row) => Beyond(backward, c, r)
  }

  /** What is left of a result after a cursor. */
  function Rest(all: seq<Row>, backward: bool, c: Option<Row>): seq<Row> {
    if c.None? then all else Keep(all, BeyondRow(backward, c.value))
  }

  /** (storedAt, id) moves strictly in the direction of the query along the result. */
  ghost predicate KeysAdvance(all: seq<Row>, backward: bool) {
    forall i, j :: 0 <= i < j < |all| ==> Beyond(backward, all[i], all[j])
  }

  /** Pages cut from a list by skipping to the rows beyond the last one. */
  function Scan(all: seq<Row>, backward: bool, c: Option<Row>, size: nat): seq<Row>
    requires size >= 1
    decreases |Rest(all, backward, c)|
  {
    var rest := Rest(all, backward, c);
    if |rest| <= size then rest
    else
      ScanAdvances(all, backward, c, rest[size - 1]);
      rest[..size] + Scan(all, backward, Some(rest[size - 1]), size)
  }

  lemma BeyondTransitive(backward: bool, a: Row, b: Row, c: Row)
    requires Beyond(backward, a, b) && Beyond(backward, b, c)
    ensures Beyond(backward, a, c)
  {
    if backward {
      KeyLessTransitive(c.storedAt, c.id, b.storedAt, b.id, a.storedAt, a.id);
    } else {
      KeyLessTransitive(a.storedAt, a.id, b.storedAt, b.id, c.storedAt, c.id);
    }
  }

  lemma ScanAdvances(all: seq<Row>, backward: bool, c: Option<Row>, r: Row)
    requires r in Rest(all, backward, c)
    ensures |Rest(all, backward, Some(r))| < |Rest(all, backward, c)|
  {
    LessIrreflexive(r.id);
    if c.None? {
      KeepFewer(all, (x: Row) => true, BeyondRow(backward, r));
      KeepEverything(all);
      assert r in all && !BeyondRow(backward, r)(r);
    } else {
      KeepMember(all, BeyondRow(backward, c.value), r);
      forall x | x in all && BeyondRow(backward, r)(x) ensures BeyondRow(backward, c.value)(x) {
        BeyondTransitive(backward, c.value, r, x);
      }
      assert r in all && BeyondRow(backward, c.value)(r) && !BeyondRow(backward, r)(r);
      KeepFewer(all, BeyondRow(backward, c.value), BeyondRow(backward, r));
    }
  }

  lemma {:induction false} KeepEverything(s: seq<Row>)
    ensures Keep(s, (x: Row) => true) == s
  {
    if s != [] { KeepEverything(s[1..]); }
  }

  // ---------- when skipping by key is the same as going on ----------

  lemma {:induction false} KeepSuffix(all: seq<Row>, p: Row -> bool, k: nat)
    requires k <= |all|
    requires forall i :: 0 <= i < |all| ==> (p(all[i]) <==> k <= i)
    ensures Keep(all, p) == all[k..]
  {
    if all != [] {
      var t := all[1..];
      forall i | 0 <= i < |t| ensures p(t[i]) <==> (if k == 0 then 0 else k - 1) <= i {
        assert t[i] == all[i + 1];
      }
      KeepSuffix(t, p, if k == 0 then 0 else k - 1);
      assert p(all[0]) <==> k == 0;
    }
  }

  lemma RestIsSuffix(all: seq<Row>, backward: bool, k: nat)
    requires 1 <= k <= |all| && KeysAdvance(all, backward)
    ensures Rest(all, backward, Some(all[k - 1])) == all[k..]
  {
    var p := BeyondRow(backward, all[k - 1]);
    LessIrreflexive(all[k - 1].id);
    forall i | 0 <= i < |all| ensures p(all[i]) <==> k <= i {
      if i < k - 1 && Beyond(backward, all[k - 1], all[i]) {
        BeyondTransitive(backward, all[k - 1], all[i], all[k - 1]);
      }
    }
    KeepSuffix(all, p, k);
  }

  /** Skipping to the rows beyond any row leaves exactly what follows it. */
  ghost predicate RestsAreSuffixes(all: seq<Row>, backward: bool) {
    forall k :: 0 <= k < |all| ==> Rest(all, backward, Some(all[k])) == all[k + 1..]
  }

  function Before(all: seq<Row>, k: nat): Option<Row>
    requires k <= |all|
  {
    if k == 0 then None else Some(all[k - 1])
  }

  lemma ScanUnfold(all: seq<Row>, backward: bool, c: Option<Row>, size: nat, rest: seq<Row>)
    requires size >= 1 && rest == Rest(all, backward, c)
    ensures Scan(all, backward, c, size)
         == if |rest| <= size then rest else rest[..size] + Scan(all, backward, Some(rest[size - 1]), size)
  {
  }

  lemma SuffixCut(all: seq<Row>, k: nat, size: nat)
    requires size >= 1 && k + size <= |all|
    ensures all[k..][..size] + all[k + size..] == all[k..] && Some(all[k..][size - 1]) == Before(all, k + size)
  {
  }

  lemma {:induction false} ScanSuffix(all: seq<Row>, backward: bool, k: nat, size: nat)
    requires size >= 1 && k <= |all| && RestsAreSuffixes(all, backward)
    ensures Scan(all, backward, Before(all, k), size) == all[k..]
    decreases |all| - k
  {
    var rest := all[k..];
    assert Rest(all, backward, Before(all, k)) == rest;
    ScanUnfold(all, backward, Before(all, k), size, rest);
    if |rest| > size {
      ScanSuffix(all, backward, k + size, size);
      SuffixCut(all, k, size);
    }
  }

  /** Pages of one row always advance, whatever the list. */
  lemma {:induction false} SingleSteps(all: seq<Row>, backward: bool, c: Option<Row>)
    ensures KeysAdvance(Scan(all, backward, c, 1), backward)
    ensures c.Some? ==> forall i :: 0 <= i < |Scan(all, backward, c, 1)| ==>
              Beyond(backward, c.value, Scan(all, backward, c, 1)[i])
    decreases |Rest(all, backward, c)|
  {
    var rest := Rest(all, backward, c);
    forall r | r in rest && c.Some? ensures Beyond(backward, c.value, r) {
      KeepMember(all, BeyondRow(backward, c.value), r);
    }
    if |rest| > 1 {
      var r := rest[0];
      ScanAdvances(all, backward, c, r);
      SingleSteps(all, backward, Some(r));
      var tail := Scan(all, backward, Some(r), 1);
      assert rest[..1] == [r] && Scan(all, backward, c, 1) == [r] + tail;
      if c.Some? {
        forall i | 0 <= i < |tail| ensures Beyond(backward, c.value, tail[i]) {
          BeyondTransitive(backward, c.value, r, tail[i]);
        }
      }
    }
  }

  ghost predicate ScansWell(all: seq<Row>, backward: bool, size: nat) {
    size >= 1 ==> Scan(all, backward, None, size) == all
  }

  /** Every page size yields the whole list if and only if its keys advance. */
  lemma ScanIff(all: seq<Row>, backward: bool)
    ensures (forall size :: ScansWell(all, backward, size)) <==> KeysAdvance(all, backward)
  {
    if KeysAdvance(all, backward) {
      forall k | 0 <= k < |all| ensures Rest(all, backward, Some(all[k])) == all[k + 1..] {
        RestIsSuffix(all, backward, k + 1);
      }
      forall size | size >= 1 ensures ScansWell(all, backward, size) {
        ScanSuffix(all, backward, 0, size);
        assert all[0..] == all;
      }
    } else {
      SingleSteps(all, backward, None);
      assert !ScansWell(all, backward, 1);
    }
  }

  // ---------- following cursors is scanning what the first statement selects ----------

  /** The query itself, or the one that continues after row `c`. */
  function At(sha: Digest, q: Query, c: Option<Row>): Query {
    if c.None? then q else q.(cursor := Some(IndexOf(sha, c.value)))
  }

  lemma {:induction false} KeepCongruent(s: seq<Row>, p: Row -> bool, q: Row -> bool)
    requires forall r :: r in s ==> (p(r) <==> q(r))
    ensures Keep(s, p) == Keep(s, q)
  {
    if s != [] {
      assert s[0] in s;
      forall r | r in s[1..] ensures r in s {}
      KeepCongruent(s[1..], p, q);
    }
  }

  lemma InSelected(table: seq<Row>, q: Query, r: Row)
    ensures r in Selected(table, q) <==> r in table && Passes(q, r)
  {
    InSort(Keep(table, PassesBy(q)), q.backward, r);
    KeepMember(table, PassesBy(q), r);
  }

  lemma InPlain(table: seq<Row>, q: Query, r: Row)
    ensures r in Plain(table, q) <==> r in table && Intended(q, r)
  {
    InSort(Keep(table, Wanted(q)), q.backward, r);
    KeepMember(table, Wanted(q), r);
  }

  /** Beyond a selected row, the bounds that the next statement drops are implied, and so is the old cursor. */
  lemma PassesAt(sha: Digest, q: Query, c: Row, r: Row)
    requires Passes(q, c) && c.id == sha(c.contentTopic, c.payload)
    ensures Passes(At(sha, q, Some(c)), r) <==> Passes(q, r) && Beyond(q.backward, c, r)
  {
    if q.cursor.Some? && Beyond(q.backward, c, r) {
      var k := q.cursor.value;
      if q.backward {
        KeyLessTransitive(r.storedAt, r.id, c.storedAt, c.id, k.receiverTime, k.digest);
      } else {
        KeyLessTransitive(k.receiverTime, k.digest, c.storedAt, c.id, r.storedAt, r.id);
      }
    }
  }

  lemma ChosenAt(sha: Digest, table: seq<Row>, q: Query, c: Option<Row>, r: Row)
    requires Digests(sha, table) && (c.Some? ==> c.value in Selected(table, q))
    ensures Chosen(Compiled(At(sha, q, c)), r) <==> Passes(q, r) && (c.None? || Beyond(q.backward, c.value, r))
  {
    CompiledMeans(At(sha, q, c), r);
    if c.Some? {
      InSelected(table, q, c.value);
      PassesAt(sha, q, c.value, r);
    }
  }

  /** The database returns the rest of what was selected, up to one row more than the page. */
  lemma PageRows(sha: Digest, table: seq<Row>, q: Query, c: Option<Row>)
    requires Digests(sha, table) && (c.Some? ==> c.value in Selected(table, q))
    ensures Execute(table, Compiled(At(sha, q, c))) == Take(Rest(Selected(table, q), q.backward, c), q.pageSize + 1)
  {
    var compiled := Compiled(At(sha, q, c));
    forall r | r in table
      ensures ChosenBy(compiled)(r) <==> PassesBy(q)(r) && (c.None? || Beyond(q.backward, c.value, r))
    {
      ChosenAt(sha, table, q, c, r);
    }
    if c.None? {
      KeepCongruent(table, ChosenBy(compiled), PassesBy(q));
    } else {
      KeepKeep(table, PassesBy(q), BeyondRow(q.backward, c.value), ChosenBy(compiled));
      SortThenKeep(Keep(table, PassesBy(q)), q.backward, BeyondRow(q.backward, c.value));
    }
    CompiledLimit(Built(At(sha, q, c)), At(sha, q, c));
  }

  lemma AnswerAt(sha: Digest, table: seq<Row>, q: Query, c: Option<Row>)
    requires Digests(sha, table) && CursorKnown(table, q) && (c.Some? ==> c.value in Selected(table, q))
    ensures Answered(sha, table, At(sha, q, c))
         == Cut(sha, Take(Rest(Selected(table, q), q.backward, c), q.pageSize + 1), At(sha, q, c))
  {
    PageRows(sha, table, q, c);
    if c.Some? {
      InSelected(table, q, c.value);
      var i :| 0 <= i < |table| && table[i] == c.value;
      assert Names(IndexOf(sha, c.value), table[i]);
    }
  }

  lemma {:induction false} ReverseAppend(a: seq<Row>, b: seq<Row>)
    ensures Reverse(a + b) == Reverse(b) + Reverse(a)
  {
    if a == [] {
      assert a + b == b;
    } else {
      assert (a + b)[1..] == a[1..] + b;
      ReverseAppend(a[1..], b);
    }
  }

  function Oriented(s: seq<Row>, backward: bool): seq<Row> {
    if backward then Reverse(s) else s
  }

  lemma RestIsPart(all: seq<Row>, backward: bool, c: Option<Row>, r: Row)
    requires r in Rest(all, backward, c)
    ensures r in all
  {
    if c.Some? { KeepMember(all, BeyondRow(backward, c.value), r); }
  }

  /** Cutting a page from one row too many. */
  lemma CutRest(sha: Digest, rest: seq<Row>, q: Query)
    requires q.pageSize >= 1
    ensures Cut(sha, Take(rest, q.pageSize + 1), q)
         == if |rest| <= q.pageSize then Found(None, Oriented(rest, q.backward))
            else Found(Some(IndexOf(sha, rest[q.pageSize - 1])), Oriented(rest[..q.pageSize], q.backward))
  {
    if |rest| > q.pageSize {
      assert Take(Take(rest, q.pageSize + 1), q.pageSize) == rest[..q.pageSize];
    }
  }

  /** A store whose page after row `c` is cut from the rest of `all`. */
  ghost predicate CutsRest(ask: Asker, sha: Digest, q: Query, all: seq<Row>) {
    forall c: Option<Row> :: (c.Some? ==> c.value in all) ==>
      ask(At(sha, q, c)) == Cut(sha, Take(Rest(all, q.backward, c), q.pageSize + 1), At(sha, q, c))
  }

  /** One round of a client that collects with `follow`. */
  ghost predicate CollectsAt(follow: Query -> seq<Row>, ask: Asker, q: Query) {
    ask(q).Found? ==>
      follow(q) == if ask(q).cursor.None? then ask(q).rows
                   else if q.backward then follow(q.(cursor := ask(q).cursor)) + ask(q).rows
                   else ask(q).rows + follow(q.(cursor := ask(q).cursor))
  }

  ghost predicate Collects(follow: Query -> seq<Row>, ask: Asker) {
    forall q :: CollectsAt(follow, ask, q)
  }

  lemma FollowCollects(ask: Asker, table: seq<Row>)
    requires Advances(ask, table)
    ensures Collects((q: Query) => Follow(ask, table, q), ask)
  {
  }

  /** One page that `scan` cuts off a list. */
  ghost predicate CutsPageAt(scan: Option<Row> -> seq<Row>, all: seq<Row>, backward: bool, size: nat, c: Option<Row>) {
    var rest := Rest(all, backward, c);
    size >= 1 && scan(c) == if |rest| <= size then rest else rest[..size] + scan(Some(rest[size - 1]))
  }

  ghost predicate CutsPages(scan: Option<Row> -> seq<Row>, all: seq<Row>, backward: bool, size: nat) {
    forall c :: CutsPageAt(scan, all, backward, size, c)
  }

  lemma ScanCutsPages(all: seq<Row>, backward: bool, size: nat)
    requires size >= 1
    ensures CutsPages((c: Option<Row>) => Scan(all, backward, c, size), all, backward, size)
  {
    var scan := (c: Option<Row>) => Scan(all, backward, c, size);
    forall c: Option<Row> ensures CutsPageAt(scan, all, backward, size, c) {
      ScanUnfold(all, backward, c, size, Rest(all, backward, c));
    }
  }

  /** A full page and what the client collects after it are the page and the scan after it. */
  lemma JoinPages(page: seq<Row>, scan: seq<Row>, more: seq<Row>, backward: bool)
    requires more == Oriented(scan, backward)
    ensures Oriented(page + scan, backward)
         == if backward then more + Oriented(page, backward) else Oriented(page, backward) + more
  {
    ReverseAppend(page, scan);
  }

  /** The store's answer after row `c` of `all`: the last page, or a full one with a cursor. */
  lemma AnswerAfter(ask: Asker, sha: Digest, q: Query, all: seq<Row>, c: Option<Row>, rest: seq<Row>)
    requires q.pageSize >= 1 && CutsRest(ask, sha, q, all)
    requires (c.Some? ==> c.value in all) && rest == Rest(all, q.backward, c)
    ensures ask(At(sha, q, c))
         == if |rest| <= q.pageSize then Found(None, Oriented(rest, q.backward))
            else Found(Some(IndexOf(sha, rest[q.pageSize - 1])), Oriented(rest[..q.pageSize], q.backward))
  {
    CutRest(sha, rest, At(sha, q, c));
  }

  /** What the client collects from a full page on. */
  lemma CollectsMore(follow: Query -> seq<Row>, ask: Asker, sha: Digest, q: Query, c: Option<Row>, last: Row,
                     page: seq<Row>)
    requires Collects(follow, ask) && ask(At(sha, q, c)) == Found(Some(IndexOf(sha, last)), page)
    ensures var more := follow(At(sha, q, Some(last)));
            follow(At(sha, q, c)) == if q.backward then more + page else page + more
  {
    assert CollectsAt(follow, ask, At(sha, q, c));
    assert At(sha, q, c).(cursor := Some(IndexOf(sha, last))) == At(sha, q, Some(last));
  }

  lemma {:induction false} CollectsPages(follow: Query -> seq<Row>, scan: Option<Row> -> seq<Row>, ask: Asker,
                                         sha: Digest, q: Query, all: seq<Row>, c: Option<Row>)
    requires q.pageSize >= 1 && Collects(follow, ask) && CutsPages(scan, all, q.backward, q.pageSize)
    requires CutsRest(ask, sha, q, all) && (c.Some? ==> c.value in all)
    ensures follow(At(sha, q, c)) == Oriented(scan(c), q.backward)
    decreases |Rest(all, q.backward, c)|
  {
    var size, rest := q.pageSize, Rest(all, q.backward, c);
    AnswerAfter(ask, sha, q, all, c, rest);
    assert CutsPageAt(scan, all, q.backward, size, c);
    if |rest| <= size {
      assert CollectsAt(follow, ask, At(sha, q, c));
    } else {
      var last, page := rest[size - 1], rest[..size];
      RestIsPart(all, q.backward, c, last);
      ScanAdvances(all, q.backward, c, last);
      CollectsPages(follow, scan, ask, sha, q, all, Some(last));
      CollectsMore(follow, ask, sha, q, c, last, Oriented(page, q.backward));
      JoinPages(page, scan(Some(last)), follow(At(sha, q, Some(last))), q.backward);
    }
  }

  /** Following the cursors collects the scan. */
  lemma FollowIsScan(ask: Asker, table: seq<Row>, sha: Digest, q: Query, all: seq<Row>, c: Option<Row>)
    requires Advances(ask, table) && q.pageSize >= 1 && CutsRest(ask, sha, q, all) && (c.Some? ==> c.value in all)
    ensures Follow(ask, table, At(sha, q, c)) == Oriented(Scan(all, q.backward, c, q.pageSize), q.backward)
  {
    FollowCollects(ask, table);
    ScanCutsPages(all, q.backward, q.pageSize);
    CollectsPages((x: Query) => Follow(ask, table, x), (x: Option<Row>) => Scan(all, q.backward, x, q.pageSize),
                  ask, sha, q, all, c);
  }

  lemma {:induction false} ReverseInjective(a: seq<Row>, b: seq<Row>)
    requires Reverse(a) == Reverse(b)
    ensures a == b
  {
    ReverseLength(a);
    ReverseLength(b);
    if a != [] {
      var ra, rb := Reverse(a[1..]), Reverse(b[1..]);
      ReverseLength(a[1..]);
      ReverseLength(b[1..]);
      assert (ra + [a[0]])[..|ra|] == ra && (rb + [b[0]])[..|rb|] == rb;
      assert (ra + [a[0]])[|ra|] == a[0] && (rb + [b[0]])[|rb|] == b[0];
      ReverseInjective(a[1..], b[1..]);
      assert a == [a[0]] + a[1..] && b == [b[0]] + b[1..];
    }
  }

  lemma {:induction false} ReverseLength(a: seq<Row>)
    ensures |Reverse(a)| == |a|
  {
    if a != [] { ReverseLength(a[1..]); }
  }

  /** Pages of this size yield these rows, oldest row first. */
  ghost predicate PagesWell(ask: Asker, table: seq<Row>, q: Query, size: nat, all: seq<Row>)
    requires Advances(ask, table)
  {
    size >= 1 ==> Follow(ask, table, q.(pageSize := size)) == Oriented(all, q.backward)
  }

  lemma StoreCutsRest(sha: Digest, table: seq<Row>, q: Query)
    requires Digests(sha, table) && CursorKnown(table, q)
    ensures CutsRest(Store(sha, table), sha, q, Selected(table, q))
  {
    var ask, all := Store(sha, table), Selected(table, q);
    forall c: Option<Row> | c.Some? ==> c.value in all
      ensures ask(At(sha, q, c)) == Cut(sha, Take(Rest(all, q.backward, c), q.pageSize + 1), At(sha, q, c))
    {
      AnswerAt(sha, table, q, c);
    }
  }

  lemma SameSelected(table: seq<Row>, q: Query, q': Query)
    requires q' == q.(pageSize := q'.pageSize)
    ensures Selected(table, q') == Selected(table, q)
  {
    KeepCongruent(table, PassesBy(q'), PassesBy(q));
  }

  lemma FollowScans(sha: Digest, table: seq<Row>, ask: Asker, q: Query, size: nat)
    requires Digests(sha, table) && CursorKnown(table, q) && size >= 1
    requires Advances(ask, table) && ask == Store(sha, table)
    ensures Follow(ask, table, q.(pageSize := size))
         == Oriented(Scan(Selected(table, q), q.backward, None, size), q.backward)
  {
    var qs := q.(pageSize := size);
    SameSelected(table, q, qs);
    StoreCutsRest(sha, table, qs);
    FollowIsScan(ask, table, sha, qs, Selected(table, q), None);
  }

  lemma OrientedInjective(a: seq<Row>, b: seq<Row>, backward: bool)
    ensures Oriented(a, backward) == Oriented(b, backward) <==> a == b
  {
    if backward && Reverse(a) == Reverse(b) { ReverseInjective(a, b); }
  }

  /**
   Following the cursors yields exactly the rows that the first statement
   selects, each once and in order, for every page size, if and only if
   (storedAt, id) advances strictly along them.
   */
  lemma PagingSelectedIff(sha: Digest, table: seq<Row>, q: Query)
    requires Digests(sha, table) && CursorKnown(table, q)
    ensures Advances(Store(sha, table), table)
    ensures (forall size :: PagesWell(Store(sha, table), table, q, size, Selected(table, q)))
       <==> KeysAdvance(Selected(table, q), q.backward)
  {
    var ask, all := Store(sha, table), Selected(table, q);
    StoreAdvances(sha, table);
    forall size ensures PagesWell(ask, table, q, size, all) <==> ScansWell(all, q.backward, size) {
      if size >= 1 {
        FollowScans(sha, table, ask, q, size);
        OrientedInjective(Scan(all, q.backward, None, size), all, q.backward);
      }
    }
    ScanIff(all, q.backward);
  }

  /** On this table the bounds that the statement keeps mean the intended range. */
  ghost predicate SelectsIntended(table: seq<Row>, q: Query) {
    forall r :: r in table ==> (Passes(q, r) <==> Intended(q, r))
  }

  lemma SelectedIsPlainIff(table: seq<Row>, q: Query)
    ensures Selected(table, q) == Plain(table, q) <==> SelectsIntended(table, q)
  {
    if SelectsIntended(table, q) {
      KeepCongruent(table, PassesBy(q), Wanted(q));
    }
    if Selected(table, q) == Plain(table, q) {
      forall r | r in table ensures Passes(q, r) <==> Intended(q, r) {
        InSelected(table, q, r);
        InPlain(table, q, r);
      }
    }
  }

  /** One page that is large enough holds everything that was selected. */
  lemma LargePage(sha: Digest, table: seq<Row>, ask: Asker, q: Query, all: seq<Row>)
    requires Digests(sha, table) && Advances(ask, table) && ask == Store(sha, table) && CursorKnown(table, q)
    requires PagesWell(ask, table, q, |Selected(table, q)| + 1, all)
    ensures Selected(table, q) == all
  {
    var got := Selected(table, q);
    FollowScans(sha, table, ask, q, |got| + 1);
    ScanUnfold(got, q.backward, None, |got| + 1, got);
    OrientedInjective(got, all, q.backward);
  }

  /**
   For every query with or without a cursor: following the cursors yields
   exactly the intended rows, each once and in order, for every page size, if
   and only if the statement selects them on this table and (storedAt, id)
   advances strictly along them. A cursor that names no row is refused.
   */
  lemma PagingIff(sha: Digest, table: seq<Row>, q: Query)
    requires Digests(sha, table)
    ensures Advances(Store(sha, table), table)
    ensures CursorKnown(table, q) ==>
      ((forall size :: PagesWell(Store(sha, table), table, q, size, Plain(table, q)))
        <==> SelectsIntended(table, q) && KeysAdvance(Plain(table, q), q.backward))
    ensures !CursorKnown(table, q) ==> Store(sha, table)(q) == InvalidCursor
  {
    var ask := Store(sha, table);
    StoreAdvances(sha, table);
    if CursorKnown(table, q) {
      PagingSelectedIff(sha, table, q);
      SelectedIsPlainIff(table, q);
      if forall size :: PagesWell(ask, table, q, size, Plain(table, q)) {
        LargePage(sha, table, ask, q, Plain(table, q));
      }
    }
  }

  /** The bounds fit the cursor: then the statement selects the intended rows of every table. */
  lemma FittingBoundsSelect(sha: Digest, table: seq<Row>, q: Query)
    requires Digests(sha, table) && CursorKnown(table, q) && BoundsFit(q)
    ensures SelectsIntended(table, q)
  {
    forall r | r in table ensures Passes(q, r) <==> Intended(q, r) {
      CompiledMeans(q, r);
      CompiledIsIntended(q, r);
    }
  }

  /** An end at the greatest 64-bit time wraps around: nothing is selected, except backward from a cursor. */
  lemma GreatestEndSelectsNothing(table: seq<Row>, q: Query)
    requires q.endTime == MAX_INT64 && (q.cursor.None? || !q.backward)
    ensures Selected(table, q) == []
  {
    var all := Selected(table, q);
    if all != [] {
      InSelected(table, q, all[0]);
    }
  }

  // ---------- tables on which paging is right ----------

  predicate SameKey(a: Row, b: Row) {
    a.storedAt == b.storedAt && a.id == b.id
  }

  ghost predicate DistinctKeys(s: seq<Row>) {
    forall i, j :: 0 <= i < j < |s| ==> !SameKey(s[i], s[j])
  }

  /** Every message carried a timestamp, which Put then stores twice. */
  ghost predicate Timestamped(s: seq<Row>) {
    forall i :: 0 <= i < |s| ==> s[i].storedAt == s[i].timestamp
  }

  lemma {:induction false} KeepDistinct(s: seq<Row>, p: Row -> bool)
    requires DistinctKeys(s) && Timestamped(s)
    ensures DistinctKeys(Keep(s, p)) && Timestamped(Keep(s, p))
  {
    if s != [] {
      var t := s[1..];
      KeepDistinct(t, p);
      forall r | r in Keep(t, p) ensures !SameKey(s[0], r) {
        KeepMember(t, p, r);
      }
    }
  }

  lemma {:induction false} InsertDistinct(l: seq<Row>, x: Row, backward: bool)
    requires DistinctKeys(l) && Timestamped(l) && x.storedAt == x.timestamp && forall r :: r in l ==> !SameKey(x, r)
    ensures DistinctKeys(InsertRow(l, x, backward)) && Timestamped(InsertRow(l, x, backward))
  {
    if l != [] && !Precedes(backward, x, l[0]) {
      var t := l[1..];
      forall r | r in t ensures r in l {}
      InsertDistinct(t, x, backward);
      InsertMember(t, x, backward);
      var u := InsertRow(t, x, backward);
      forall j | 0 <= j < |u| ensures !SameKey(l[0], u[j]) {
        assert u[j] in multiset(u);
        assert u[j] == x || u[j] in t;
        assert l[0] in l;
      }
    }
  }

  lemma {:induction false} SortDistinct(s: seq<Row>, backward: bool)
    requires DistinctKeys(s) && Timestamped(s)
    ensures DistinctKeys(Sort(s, backward)) && Timestamped(Sort(s, backward))
  {
    if s != [] {
      var t := s[1..];
      SortDistinct(t, backward);
      forall r | r in Sort(t, backward) ensures !SameKey(s[0], r) {
        InSort(t, backward, r);
      }
      InsertDistinct(Sort(t, backward), s[0], backward);
    }
  }

  lemma SortedAdvances(l: seq<Row>, backward: bool)
    requires Sorted(l, backward) && DistinctKeys(l) && Timestamped(l)
    ensures KeysAdvance(l, backward)
  {
    forall i, j | 0 <= i < j < |l| ensures Beyond(backward, l[i], l[j]) {
      assert !Precedes(backward, l[j], l[i]) && !SameKey(l[i], l[j]);
      LessTotal(l[i].id, l[j].id);
    }
  }

  lemma SortAdvances(kept: seq<Row>, backward: bool)
    requires DistinctKeys(kept) && Timestamped(kept)
    ensures KeysAdvance(Sort(kept, backward), backward)
  {
    SortDistinct(kept, backward);
    SortSorted(kept, backward);
    SortedAdvances(Sort(kept, backward), backward);
  }

  lemma {:induction false} ReverseAt(s: seq<Row>, i: nat)
    requires i < |s|
    ensures |Reverse(s)| == |s| && Reverse(s)[i] == s[|s| - 1 - i]
  {
    ReverseLength(s);
    ReverseLength(s[1..]);
    if i < |s| - 1 { ReverseAt(s[1..], i); }
  }

  lemma ReverseAdvances(s: seq<Row>)
    requires KeysAdvance(s, true)
    ensures KeysAdvance(Reverse(s), false)
  {
    var r := Reverse(s);
    ReverseLength(s);
    forall i, j | 0 <= i < j < |r| ensures Beyond(false, r[i], r[j]) {
      ReverseAt(s, i);
      ReverseAt(s, j);
      assert Beyond(true, s[|s| - 1 - j], s[|s| - 1 - i]);
    }
  }

  lemma {:induction false} ReverseMultiset(s: seq<Row>)
    ensures multiset(Reverse(s)) == multiset(s)
  {
    if s != [] {
      ReverseMultiset(s[1..]);
      assert s == [s[0]] + s[1..];
    }
  }

  lemma SameFirst(a: seq<Row>, b: seq<Row>)
    requires KeysAdvance(a, false) && KeysAdvance(b, false) && a != [] && b != [] && a[0] in b && b[0] in a
    ensures a[0] == b[0]
  {
    var i :| 0 <= i < |b| && b[i] == a[0];
    var j :| 0 <= j < |a| && a[j] == b[0];
    if i > 0 && j > 0 {
      BeyondTransitive(false, a[0], b[0], a[0]);
      LessIrreflexive(a[0].id);
    }
  }

  lemma TailMultiset(s: seq<Row>)
    requires s != []
    ensures multiset(s[1..]) == multiset(s) - multiset{s[0]}
  {
    assert s == [s[0]] + s[1..];
  }

  /** Rows in strictly advancing order are determined by which rows they are. */
  lemma {:induction false} AdvancingUnique(a: seq<Row>, b: seq<Row>)
    requires KeysAdvance(a, false) && KeysAdvance(b, false) && multiset(a) == multiset(b)
    ensures a == b
  {
    assert |multiset(a)| == |a| && |multiset(b)| == |b|;
    if a != [] {
      assert a[0] in multiset(a) && b[0] in multiset(b);
      SameFirst(a, b);
      TailMultiset(a);
      TailMultiset(b);
      AdvancingUnique(a[1..], b[1..]);
      assert a == [a[0]] + a[1..] && b == [b[0]] + b[1..];
    }
  }

  /** Sorting backward and reversing is sorting forward. */
  lemma BothDirections(kept: seq<Row>, backward: bool)
    requires DistinctKeys(kept) && Timestamped(kept)
    ensures Oriented(Sort(kept, backward), backward) == Sort(kept, false)
  {
    if backward {
      SortAdvances(kept, true);
      SortAdvances(kept, false);
      ReverseAdvances(Sort(kept, true));
      ReverseMultiset(Sort(kept, true));
      SortMember(kept, true);
      SortMember(kept, false);
      AdvancingUnique(Reverse(Sort(kept, true)), Sort(kept, false));
    }
  }

  /**
   When every message had a timestamp and no two rows share (storedAt, id),
   following the cursors in either direction, from the start or from a cursor,
   with any page size, yields the wanted rows sorted from oldest to newest.
   */
  lemma PagingRefinesSort(sha: Digest, table: seq<Row>, q: Query)
    requires Digests(sha, table) && DistinctKeys(table) && Timestamped(table)
    requires CursorKnown(table, q) && BoundsFit(q) && q.pageSize >= 1
    ensures Advances(Store(sha, table), table)
    ensures Follow(Store(sha, table), table, q) == Sort(Keep(table, Wanted(q)), false)
  {
    var kept := Keep(table, Wanted(q));
    KeepDistinct(table, Wanted(q));
    SortAdvances(kept, q.backward);
    FittingBoundsSelect(sha, table, q);
    PagingIff(sha, table, q);
    BothDirections(kept, q.backward);
    assert PagesWell(Store(sha, table), table, q, q.pageSize, Plain(table, q));
    assert q.(pageSize := q.pageSize) == q;
  }
}
