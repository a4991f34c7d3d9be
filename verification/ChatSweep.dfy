/**
 Repeating the buffer sweep (processBufferedMessages): exactly when it empties
 the incoming buffer, and how many rounds that takes.
 */
module ChatSweep {
  import opened ChatHistory
  import opened ChatNode
  import opened ChatDelivery

  function Sweeps(n: Node, k: nat): Node
    decreases k
  {
    if k == 0 then n else Sweeps(Swept(n), k - 1)
  }

  /** A dependency is in the history, or buffered with content to show. */
  ghost predicate Obtainable(n: Node, d: Id) {
    HasId(n.history, d) || exists b :: b in n.incoming && b.content != [] && b.id == d
  }

  ghost predicate AllObtainable(n: Node) {
    forall m, d :: m in n.incoming && d in m.causal ==> Obtainable(n, d)
  }

  /** Every dependency of every buffered message is in the history or itself buffered. */
  ghost predicate NothingMissing(n: Node) {
    forall m, d :: m in n.incoming && d in m.causal ==> HasId(n.history, d) || HasId(n.incoming, d)
  }

  /** An order in which dependencies come first. */
  type Rank = Message -> nat

  /** Among buffered messages with content, dependencies have smaller ranks. */
  ghost predicate Ranked(buffer: seq<Message>, rank: Rank) {
    forall m, b :: m in buffer && b in buffer && m.content != [] && b.content != [] && b.id in m.causal
               ==> rank(b) < rank(m)
  }

  /** The history has room for everything buffered. */
  ghost predicate Room(n: Node) {
    |n.history| + |Content(n.incoming)| <= MAX_HISTORY
  }

  // ---------- additions that are not trimmed ----------

  lemma {:induction false} AddAllWithRoom(h: seq<Message>, adds: seq<Message>)
    requires |h| + |adds| <= MAX_HISTORY
    ensures |AddAll(h, adds)| == |h| + |adds|
    ensures multiset(AddAll(h, adds)) == multiset(h) + multiset(adds)
    decreases |adds|
  {
    if adds != [] {
      InsertAdds(h, adds[0]);
      AddAllWithRoom(AddToHistory(h, adds[0]), adds[1..]);
      HeadAndTail(adds);
    }
  }

  lemma {:induction false} AddAllOnlyAdds(h: seq<Message>, adds: seq<Message>)
    ensures multiset(AddAll(h, adds)) <= multiset(h) + multiset(adds)
    decreases |adds|
  {
    if adds != [] {
      var g := Insert(h, adds[0]);
      var t := AddToHistory(h, adds[0]);
      InsertAdds(h, adds[0]);
      if |g| > MAX_HISTORY {
        assert g == g[..|g| - MAX_HISTORY] + t;
        assert multiset(g) == multiset(g[..|g| - MAX_HISTORY]) + multiset(t);
      }
      assert multiset(t) <= multiset(h) + multiset{adds[0]};
      AddAllOnlyAdds(t, adds[1..]);
      HeadAndTail(adds);
      assert multiset(t) + multiset(adds[1..]) <= multiset(h) + multiset(adds);
    }
  }

  lemma HasIdMultiset(s: seq<Message>, m: Message)
    requires m in multiset(s)
    ensures HasId(s, m.id)
  {
    assert m in s;
  }

  // ---------- one sweep ----------

  lemma SweptBuffer(n: Node, m: Message)
    ensures m in Swept(n).incoming <==> m in n.incoming && !Ready(n.history, m)
  {
    ReadyMember(n.history, n.incoming, m);
  }

  lemma ShownMember(n: Node, m: Message)
    ensures m in Content(ReadyOf(n.history, n.incoming)) <==> m in n.incoming && m.content != [] && Ready(n.history, m)
  {
    ContentMember(ReadyOf(n.history, n.incoming), m);
    ReadyMember(n.history, n.incoming, m);
  }

  lemma SweptHistory(n: Node, d: Id)
    requires Room(n)
    requires HasId(n.history, d) || exists b :: b in n.incoming && b.content != [] && b.id == d && Ready(n.history, b)
    ensures HasId(Swept(n).history, d)
  {
    var shown := Content(ReadyOf(n.history, n.incoming));
    ShownFits(n);
    AddAllWithRoom(n.history, shown);
    if i :| 0 <= i < |n.history| && n.history[i].id == d {
      assert n.history[i] in multiset(n.history);
      HasIdMultiset(Swept(n).history, n.history[i]);
    } else {
      var b :| b in n.incoming && b.content != [] && b.id == d && Ready(n.history, b);
      ShownMember(n, b);
      assert b in multiset(shown);
      HasIdMultiset(Swept(n).history, b);
    }
  }

  lemma ShownFits(n: Node)
    ensures |Content(n.incoming)|
         == |Content(ReadyOf(n.history, n.incoming))| + |Content(WaitingOf(n.history, n.incoming))|
  {
    SweepSplits(n.history, n.incoming);
    assert |multiset(Content(n.incoming))| == |Content(n.incoming)|;
    assert |multiset(Content(ReadyOf(n.history, n.incoming)))| == |Content(ReadyOf(n.history, n.incoming))|;
    assert |multiset(Content(WaitingOf(n.history, n.incoming)))| == |Content(WaitingOf(n.history, n.incoming))|;
  }

  lemma SweptKeeps(n: Node, rank: Rank)
    requires AllObtainable(n) && Ranked(n.incoming, rank) && Room(n)
    ensures AllObtainable(Swept(n)) && Ranked(Swept(n).incoming, rank) && Room(Swept(n))
  {
    var s := Swept(n);
    forall m | m in s.incoming ensures m in n.incoming { SweptBuffer(n, m); }
    ShownFits(n);
    AddAllWithRoom(n.history, Content(ReadyOf(n.history, n.incoming)));
    forall m, d | m in s.incoming && d in m.causal ensures Obtainable(s, d) {
      assert Obtainable(n, d);
      if HasId(n.history, d) {
        SweptHistory(n, d);
      } else {
        var b :| b in n.incoming && b.content != [] && b.id == d;
        SweptBuffer(n, b);
        if Ready(n.history, b) { SweptHistory(n, d); }
      }
    }
  }

  /** A nonempty list has a message of the least rank. */
  lemma {:induction false} Earliest(s: seq<Message>, rank: Rank) returns (m: Message)
    requires s != []
    ensures m in s && forall b :: b in s ==> rank(m) <= rank(b)
  {
    m := s[|s| - 1];
    if |s| > 1 {
      var e := Earliest(s[..|s| - 1], rank);
      if rank(e) < rank(m) { m := e; }
      assert s == s[..|s| - 1] + [s[|s| - 1]];
    }
  }

  lemma SomeReady(n: Node, rank: Rank) returns (m: Message)
    requires AllObtainable(n) && Ranked(n.incoming, rank) && n.incoming != []
    ensures m in n.incoming && Ready(n.history, m)
  {
    m := n.incoming[0];
    if Content(n.incoming) != [] {
      m := Earliest(Content(n.incoming), rank);
      ContentMember(n.incoming, m);
    }
    forall d | d in m.causal ensures HasId(n.history, d) {
      assert Obtainable(n, d);
      if b :| b in n.incoming && b.content != [] && b.id == d {
        ContentMember(n.incoming, b);
      }
    }
    AllPresentIsReady(n.history, m.causal);
  }

  lemma {:induction false} SplitSizes(history: seq<Message>, buffer: seq<Message>)
    ensures |buffer| == |ReadyOf(history, buffer)| + |WaitingOf(history, buffer)|
  {
    if buffer != [] { SplitSizes(history, buffer[..|buffer| - 1]); }
  }

  lemma SweepShrinks(n: Node, rank: Rank)
    requires AllObtainable(n) && Ranked(n.incoming, rank) && n.incoming != []
    ensures |Swept(n).incoming| < |n.incoming|
  {
    var m := SomeReady(n, rank);
    ReadyMember(n.history, n.incoming, m);
    SplitSizes(n.history, n.incoming);
  }

  // ---------- repeated sweeps ----------

  lemma {:induction false} ObtainableEmpties(n: Node, rank: Rank, k: nat)
    requires AllObtainable(n) && Ranked(n.incoming, rank) && Room(n) && |n.incoming| <= k
    ensures Sweeps(n, k).incoming == []
    decreases k
  {
    if k > 0 {
      SweptKeeps(n, rank);
      if n.incoming != [] {
        SweepShrinks(n, rank);
      } else {
        SplitSizes(n.history, n.incoming);
      }
      ObtainableEmpties(Swept(n), rank, k - 1);
    }
  }

  lemma {:induction false} EmptiedWasObtainable(n: Node, k: nat)
    requires Sweeps(n, k).incoming == []
    ensures AllObtainable(n)
    decreases k
  {
    if k > 0 {
      var s := Swept(n);
      EmptiedWasObtainable(s, k - 1);
      forall m, d | m in n.incoming && d in m.causal ensures Obtainable(n, d) {
        SweptBuffer(n, m);
        if Ready(n.history, m) {
          ReadyHasAll(n.history, m.causal, d);
        } else {
          assert Obtainable(s, d);
          EarlierObtainable(n, d);
        }
      }
    }
  }

  lemma EarlierObtainable(n: Node, d: Id)
    requires Obtainable(Swept(n), d)
    ensures Obtainable(n, d)
  {
    var s, shown := Swept(n), Content(ReadyOf(n.history, n.incoming));
    AddAllOnlyAdds(n.history, shown);
    if i :| 0 <= i < |s.history| && s.history[i].id == d {
      assert s.history[i] in multiset(s.history);
      if s.history[i] in multiset(n.history) {
        HasIdMultiset(n.history, s.history[i]);
      } else {
        assert s.history[i] in multiset(shown);
        ShownMember(n, s.history[i]);
      }
    } else {
      var b :| b in s.incoming && b.content != [] && b.id == d;
      SweptBuffer(n, b);
    }
  }

  /**
   With room in the history, sweeping as often as there are buffered messages
   empties the buffer if and only if every dependency is in the history or
   buffered with content.
   */
  lemma SweepsEmptyIffObtainable(n: Node, rank: Rank)
    requires Ranked(n.incoming, rank) && Room(n)
    ensures Sweeps(n, |n.incoming|).incoming == [] <==> AllObtainable(n)
  {
    if AllObtainable(n) { ObtainableEmpties(n, rank, |n.incoming|); }
    if Sweeps(n, |n.incoming|).incoming == [] { EmptiedWasObtainable(n, |n.incoming|); }
  }

  /** A message with a dependency that is neither in the history nor buffered with content waits for ever. */
  lemma {:induction false} UnobtainableWaits(n: Node, m: Message, d: Id, k: nat)
    requires m in n.incoming && d in m.causal && !Obtainable(n, d)
    ensures m in Sweeps(n, k).incoming
    decreases k
  {
    if k > 0 {
      SweptBuffer(n, m);
      if Ready(n.history, m) { ReadyHasAll(n.history, m.causal, d); }
      if Obtainable(Swept(n), d) { EarlierObtainable(n, d); }
      UnobtainableWaits(Swept(n), m, d, k - 1);
    }
  }
}
