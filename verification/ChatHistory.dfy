/**
 The bounded, sorted message history of one chat node
 (examples/chat2-reliable/reliability.go, addToMessageHistory).
 */
module ChatHistory {
  import opened GoTypes

  type Id = Bytes

  /** The bloom filter a message carries: absent, unreadable, or a set of bits. */
  datatype BloomField = NoBloom | Unreadable | Bits(bits: set<nat>)

  datatype Message = Message(sender: Bytes, id: Id, ts: Int32, causal: seq<Id>, bloom: BloomField, content: Bytes)

  const MAX_HISTORY: nat := 100

  /** The history order: Lamport timestamp, ties broken by message id. */
  predicate Before(a: Message, b: Message) {
    a.ts < b.ts || (a.ts == b.ts && Less(a.id, b.id))
  }

  /** Puts `m` in front of the first message that it is before. */
  function Insert(h: seq<Message>, m: Message): seq<Message> {
    if h == [] then [m]
    else if Before(m, h[0]) then [m] + h
    else [h[0]] + Insert(h[1..], m)
  }

  lemma {:induction false} InsertAdds(h: seq<Message>, m: Message)
    ensures multiset(Insert(h, m)) == multiset(h) + multiset{m}
    ensures |Insert(h, m)| == |h| + 1
  {
    if h != [] && !Before(m, h[0]) {
      InsertAdds(h[1..], m);
      assert h == [h[0]] + h[1..];
    }
  }

  /** Keeps the last MAX_HISTORY messages. */
  function Trim(h: seq<Message>): (r: seq<Message>) {
    if |h| > MAX_HISTORY then h[|h| - MAX_HISTORY..] else h
  }

  function AddToHistory(h: seq<Message>, m: Message): seq<Message> {
    Trim(Insert(h, m))
  }

  /** The history after adding `adds` one by one. */
  function AddAll(h: seq<Message>, adds: seq<Message>): seq<Message>
    decreases |adds|
  {
    if adds == [] then h else AddAll(AddToHistory(h, adds[0]), adds[1..])
  }

  ghost predicate Sorted(h: seq<Message>) {
    forall i, j :: 0 <= i < j < |h| ==> !Before(h[j], h[i])
  }

  /** Equal ids mean equal messages. */
  ghost predicate SameIdSameMessage(s: multiset<Message>) {
    forall x, y :: x in s && y in s && x.id == y.id ==> x == y
  }

  /** Everything in `out` is at most everything in `h`. */
  ghost predicate Below(out: multiset<Message>, h: seq<Message>) {
    forall x, y :: x in out && y in h ==> !Before(y, x)
  }

  /**
   Reference definition, independent of insertion: `h` is sorted, holds as many
   of `adds` as fit, and everything left out is at most everything kept.
   */
  ghost predicate IsGreatest(h: seq<Message>, adds: multiset<Message>) {
    && Sorted(h)
    && multiset(h) <= adds
    && |h| == (if |adds| <= MAX_HISTORY then |adds| else MAX_HISTORY)
    && Below(adds - multiset(h), h)
  }

  lemma NotBeforeTransitive(a: Message, b: Message, c: Message)
    requires !Before(b, a) && !Before(c, b)
    ensures !Before(c, a)
  {
    LessTotal(a.id, b.id);
    LessTotal(b.id, c.id);
    if Less(c.id, a.id) && Less(a.id, b.id) { LessTransitive(c.id, a.id, b.id); }
    if Less(c.id, a.id) && Less(b.id, c.id) { LessTransitive(b.id, c.id, a.id); }
    LessIrreflexive(a.id);
  }

  lemma BeforeAsymmetric(a: Message, b: Message)
    requires Before(a, b)
    ensures !Before(b, a)
  {
    if a.ts == b.ts && Less(b.id, a.id) {
      LessTransitive(a.id, b.id, a.id);
      LessIrreflexive(a.id);
    }
  }

  lemma SameKey(a: Message, b: Message)
    requires !Before(a, b) && !Before(b, a)
    ensures a.ts == b.ts && a.id == b.id
  {
    LessTotal(a.id, b.id);
  }

  lemma {:induction false} InsertSorted(h: seq<Message>, m: Message)
    requires Sorted(h)
    ensures Sorted(Insert(h, m))
  {
    if h != [] {
      var r := Insert(h, m);
      InsertAdds(h, m);
      InsertAdds(h[1..], m);
      if Before(m, h[0]) {
        forall j | 0 < j < |r| ensures !Before(r[j], r[0]) {
          BeforeAsymmetric(m, h[0]);
          NoneBeforeFirst(h, r[j]);
          NotBeforeTransitive(m, h[0], r[j]);
        }
      } else {
        InsertSorted(h[1..], m);
        forall j | 0 < j < |r| ensures !Before(r[j], r[0]) {
          assert r[j] in multiset(Insert(h[1..], m));
          assert r[j] in h[1..] || r[j] == m;
        }
      }
    }
  }

  lemma HeadAndTail(g: seq<Message>)
    requires g != []
    ensures multiset(g) == multiset{g[0]} + multiset(g[1..])
    ensures multiset(g[1..]) == multiset(g) - multiset{g[0]}
  {
    assert g == [g[0]] + g[1..];
  }

  lemma DroppedIsLeast(g: seq<Message>, h: seq<Message>, m: Message, out: multiset<Message>)
    requires |h| == MAX_HISTORY && Sorted(g) && |g| == |h| + 1 && multiset(g) == multiset(h) + multiset{m}
    requires Below(out, h)
    ensures Below(out + multiset{g[0]}, g[1..])
  {
    var r := g[1..];
    assert g == [g[0]] + r;
    forall x, y | x in out + multiset{g[0]} && y in r ensures !Before(y, x) {
      var j :| 0 <= j < |r| && r[j] == y;
      assert !Before(g[j + 1], g[0]);
      assert g[0] in multiset(g) && y in multiset(g);
      if x != g[0] {
        // `m` is either dropped itself, or above an old message that is above `x`
        if g[0] in h {
          NotBeforeTransitive(x, g[0], y);
        } else {
          assert g[0] == m;
          HeadAndTail(g);
          assert multiset(r) == multiset(h);
          assert y in multiset(h);
        }
      }
    }
  }

  lemma DroppedTogether(adds: multiset<Message>, h: multiset<Message>, out: multiset<Message>,
                        r: multiset<Message>, m: Message, least: Message)
    requires adds == h + out && h + multiset{m} == multiset{least} + r
    ensures r <= adds + multiset{m} && adds + multiset{m} - r == out + multiset{least}
  {
    assert adds + multiset{m} == (h + multiset{m}) + out == r + (out + multiset{least});
  }

  lemma InsertIntoFull(h: seq<Message>, adds: multiset<Message>, m: Message)
    requires IsGreatest(h, adds) && |h| == MAX_HISTORY
    ensures IsGreatest(AddToHistory(h, m), adds + multiset{m})
  {
    var g := Insert(h, m);
    var out := adds - multiset(h);
    InsertSorted(h, m);
    InsertAdds(h, m);
    DroppedIsLeast(g, h, m, out);
    HeadAndTail(g);
    DroppedTogether(adds, multiset(h), out, multiset(g[1..]), m, g[0]);
    assert |multiset(h)| <= |adds|;
  }

  lemma InsertIntoRoomy(h: seq<Message>, adds: multiset<Message>, m: Message)
    requires IsGreatest(h, adds) && |h| < MAX_HISTORY
    ensures IsGreatest(AddToHistory(h, m), adds + multiset{m})
  {
    InsertSorted(h, m);
    InsertAdds(h, m);
    EqualSizeContained(multiset(h), adds);
  }

  lemma InsertKeepsGreatest(h: seq<Message>, adds: multiset<Message>, m: Message)
    requires IsGreatest(h, adds)
    ensures IsGreatest(AddToHistory(h, m), adds + multiset{m})
  {
    if |h| == MAX_HISTORY { InsertIntoFull(h, adds, m); } else { InsertIntoRoomy(h, adds, m); }
  }

  /** Adding in any order keeps exactly the greatest messages, sorted. */
  lemma {:induction false} AddAllIsGreatest(h: seq<Message>, before: multiset<Message>, adds: seq<Message>,
                                            all: multiset<Message>)
    requires IsGreatest(h, before) && all == before + multiset(adds)
    ensures IsGreatest(AddAll(h, adds), all)
    decreases |adds|
  {
    if adds == [] {
      assert all == before;
    } else {
      InsertKeepsGreatest(h, before, adds[0]);
      HeadAndTail(adds);
      AddAllIsGreatest(AddToHistory(h, adds[0]), before + multiset{adds[0]}, adds[1..], all);
    }
  }

  /** After any additions: the greatest hundred, from the lowest timestamp up, equal ones by ascending id. */
  lemma HistoryIsGreatest(adds: seq<Message>)
    ensures IsGreatest(AddAll([], adds), multiset(adds))
    ensures var h := AddAll([], adds);
            forall i, j :: 0 <= i < j < |h| ==> h[i].ts < h[j].ts || (h[i].ts == h[j].ts && !Less(h[j].id, h[i].id))
    ensures |AddAll([], adds)| == if |adds| <= 100 then |adds| else 100
  {
    AddAllIsGreatest([], multiset{}, adds, multiset(adds));
  }

  lemma EqualSizeContained(a: multiset<Message>, b: multiset<Message>)
    requires a <= b && |a| == |b|
    ensures a == b
  {
    assert b == a + (b - a);
    assert |b| == |a| + |b - a|;
  }

  lemma NoneBeforeFirst(a: seq<Message>, x: Message)
    requires Sorted(a) && x in a
    ensures !Before(x, a[0])
  {
    var j :| 0 <= j < |a| && a[j] == x;
    if j == 0 { LessIrreflexive(a[0].id); }
  }

  lemma {:induction false} SortedUnique(a: seq<Message>, b: seq<Message>)
    requires Sorted(a) && Sorted(b) && multiset(a) == multiset(b) && SameIdSameMessage(multiset(a))
    ensures a == b
    decreases |a|
  {
    assert |multiset(a)| == |a| && |multiset(b)| == |b|;
    if a != [] {
      assert a[0] in multiset(a) && b[0] in multiset(b);
      NoneBeforeFirst(a, b[0]);
      NoneBeforeFirst(b, a[0]);
      SameKey(a[0], b[0]);
      HeadAndTail(a);
      HeadAndTail(b);
      SortedUnique(a[1..], b[1..]);
    }
  }

  /** The reference definition determines the history. */
  lemma GreatestUnique(h1: seq<Message>, h2: seq<Message>, adds: multiset<Message>)
    requires IsGreatest(h1, adds) && IsGreatest(h2, adds) && SameIdSameMessage(adds)
    ensures h1 == h2
  {
    var m1, m2 := multiset(h1), multiset(h2);
    assert |m1| == |h1| && |m2| == |h2|;
    if m1 != m2 {
      if m1 <= m2 { EqualSizeContained(m1, m2); }
      if m2 <= m1 { EqualSizeContained(m2, m1); }
      var x :| x in m1 && m1[x] > m2[x];
      var y :| y in m2 && m2[y] > m1[y];
      assert x in adds - m2 && y in h2;
      assert y in adds - m1 && x in h1;
      SameKey(x, y);
      assert false;
    }
    SortedUnique(h1, h2);
  }

  /** The history does not depend on the order of arrival. */
  lemma ArrivalOrderIrrelevant(adds1: seq<Message>, adds2: seq<Message>)
    requires multiset(adds1) == multiset(adds2) && SameIdSameMessage(multiset(adds1))
    ensures AddAll([], adds1) == AddAll([], adds2)
  {
    HistoryIsGreatest(adds1);
    HistoryIsGreatest(adds2);
    GreatestUnique(AddAll([], adds1), AddAll([], adds2), multiset(adds1));
  }

  /** Adding one more after a sequence of additions. */
  lemma {:induction false} AddAllSnoc(h: seq<Message>, adds: seq<Message>, m: Message)
    ensures AddAll(h, adds + [m]) == AddToHistory(AddAll(h, adds), m)
    decreases |adds|
  {
    if adds == [] {
      assert adds + [m] == [m];
      assert AddAll(h, [m]) == AddAll(AddToHistory(h, m), [m][1..]);
    } else {
      assert (adds + [m])[1..] == adds[1..] + [m];
      AddAllSnoc(AddToHistory(h, adds[0]), adds[1..], m);
    }
  }

  lemma {:induction false} AddAllAppend(h: seq<Message>, a: seq<Message>, b: seq<Message>)
    ensures AddAll(h, a + b) == AddAll(AddAll(h, a), b)
    decreases |a|
  {
    if a == [] {
      assert a + b == b;
    } else {
      assert (a + b)[1..] == a[1..] + b;
      AddAllAppend(AddToHistory(h, a[0]), a[1..], b);
    }
  }
}
