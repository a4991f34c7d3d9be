/**
 The rolling bloom filter of a chat node
 (examples/chat2-reliable/rolling_bloom_filter.go). Times are nanoseconds. The
 positions an id sets are an arbitrary function of the id, so two ids may
 collide: false positives exist, false negatives must not.
 */
module RollingBloom {
  import opened ChatHistory

  type Hash = Id -> set<nat>

  datatype Stamp = Stamp(id: Id, time: int)

  datatype Filter = Filter(bits: set<nat>, messages: seq<Stamp>)

  /** One hour. */
  const WINDOW: int := 3_600_000_000_000

  const EMPTY: Filter := Filter({}, [])

  predicate Tests(hash: Hash, f: Filter, id: Id) {
    hash(id) <= f.bits
  }

  function Added(hash: Hash, f: Filter, id: Id, now: int): Filter {
    Filter(f.bits + hash(id), f.messages + [Stamp(id, now)])
  }

  /** The stamps strictly after the cutoff, in order. */
  function KeepAfter(s: seq<Stamp>, cutoff: int): seq<Stamp> {
    if s == [] then []
    else
      var r := KeepAfter(s[..|s| - 1], cutoff);
      if s[|s| - 1].time > cutoff then r + [s[|s| - 1]] else r
  }

  function BitsOf(hash: Hash, s: seq<Stamp>): set<nat> {
    if s == [] then {} else BitsOf(hash, s[..|s| - 1]) + hash(s[|s| - 1].id)
  }

  lemma {:induction false} KeptExactly(s: seq<Stamp>, cutoff: int, e: Stamp)
    ensures e in KeepAfter(s, cutoff) <==> e in s && e.time > cutoff
  {
    if s != [] {
      KeptExactly(s[..|s| - 1], cutoff, e);
      assert s == s[..|s| - 1] + [s[|s| - 1]];
    }
  }

  lemma {:induction false} BitsOfMember(hash: Hash, s: seq<Stamp>, e: Stamp)
    requires e in s
    ensures hash(e.id) <= BitsOf(hash, s)
  {
    if e != s[|s| - 1] {
      assert s == s[..|s| - 1] + [s[|s| - 1]];
      BitsOfMember(hash, s[..|s| - 1], e);
    }
  }

  function Cleaned(hash: Hash, f: Filter, now: int): Filter {
    var kept := KeepAfter(f.messages, now - WINDOW);
    Filter(BitsOf(hash, kept), kept)
  }

  lemma KeepOneMore(hash: Hash, s: seq<Stamp>, m: Stamp, cutoff: int)
    ensures KeepAfter(s + [m], cutoff) == KeepAfter(s, cutoff) + (if m.time > cutoff then [m] else [])
    ensures forall kept: seq<Stamp> :: BitsOf(hash, kept + [m]) == BitsOf(hash, kept) + hash(m.id)
  {
    assert (s + [m])[..|s|] == s;
    forall kept: seq<Stamp> ensures BitsOf(hash, kept + [m]) == BitsOf(hash, kept) + hash(m.id) {
      assert (kept + [m])[..|kept|] == kept;
    }
  }

  /** The bits are exactly those of the remembered ids. */
  ghost predicate Coherent(hash: Hash, f: Filter) {
    f.bits == BitsOf(hash, f.messages)
  }

  lemma AddedCoherent(hash: Hash, f: Filter, id: Id, now: int)
    requires Coherent(hash, f)
    ensures Coherent(hash, Added(hash, f, id, now))
  {
    var s := f.messages + [Stamp(id, now)];
    assert s[..|s| - 1] == f.messages;
  }

  // ---------- whole runs ----------

  datatype Op = Add(id: Id, time: int) | Clean(time: int)

  function Run(hash: Hash, ops: seq<Op>): Filter {
    if ops == [] then EMPTY
    else
      var f := Run(hash, ops[..|ops| - 1]);
      match ops[|ops| - 1]
      case Add(id, time) => Added(hash, f, id, time)
      case Clean(time) => Cleaned(hash, f, time)
  }

  /** No clean after operation `i` came a full window after it or later. */
  ghost predicate Survives(ops: seq<Op>, i: nat)
    requires i < |ops|
  {
    forall j :: i < j < |ops| && ops[j].Clean? ==> ops[j].time - ops[i].time < WINDOW
  }

  lemma {:induction false} RunCoherent(hash: Hash, ops: seq<Op>)
    ensures Coherent(hash, Run(hash, ops))
  {
    if ops != [] {
      RunCoherent(hash, ops[..|ops| - 1]);
      if ops[|ops| - 1].Add? {
        AddedCoherent(hash, Run(hash, ops[..|ops| - 1]), ops[|ops| - 1].id, ops[|ops| - 1].time);
      }
    }
  }

  ghost predicate SurvivingAdd(ops: seq<Op>, i: nat, e: Stamp) {
    i < |ops| && ops[i] == Add(e.id, e.time) && Survives(ops, i)
  }

  lemma {:induction false} RememberedSurvived(hash: Hash, ops: seq<Op>, e: Stamp) returns (i: nat)
    requires e in Run(hash, ops).messages
    ensures SurvivingAdd(ops, i, e)
  {
    var n := |ops| - 1;
    var f := Run(hash, ops[..n]);
    if ops[n].Clean? {
      KeptExactly(f.messages, ops[n].time - WINDOW, e);
    }
    if e in f.messages {
      i := RememberedSurvived(hash, ops[..n], e);
    } else {
      i := n;
    }
  }

  lemma {:induction false} SurvivorRemembered(hash: Hash, ops: seq<Op>, i: nat, e: Stamp)
    requires SurvivingAdd(ops, i, e)
    ensures e in Run(hash, ops).messages
  {
    var n := |ops| - 1;
    var f := Run(hash, ops[..n]);
    if i < n {
      assert SurvivingAdd(ops[..n], i, e);
      SurvivorRemembered(hash, ops[..n], i, e);
      if ops[n].Clean? {
        KeptExactly(f.messages, ops[n].time - WINDOW, e);
      }
    }
  }

  /** Exactly the additions that survived every later clean are remembered. */
  lemma RememberedIffSurvives(hash: Hash, ops: seq<Op>, e: Stamp)
    ensures e in Run(hash, ops).messages <==> exists i :: SurvivingAdd(ops, i, e)
  {
    if e in Run(hash, ops).messages {
      var i := RememberedSurvived(hash, ops, e);
    }
    if i :| SurvivingAdd(ops, i, e) {
      SurvivorRemembered(hash, ops, i, e);
    }
  }

  lemma {:induction false} BitsOfIff(hash: Hash, s: seq<Stamp>, b: nat)
    ensures b in BitsOf(hash, s) <==> exists e :: e in s && b in hash(e.id)
  {
    if s != [] {
      var pre, last := s[..|s| - 1], s[|s| - 1];
      BitsOfIff(hash, pre, b);
      assert s == pre + [last];
    }
  }

  /** Some addition that survived every later clean sets this bit. */
  ghost predicate SetByAdd(hash: Hash, ops: seq<Op>, b: nat) {
    exists i, e :: SurvivingAdd(ops, i, e) && b in hash(e.id)
  }

  /** An id tests true exactly when each of its bits is set by a surviving addition. */
  lemma TestsIff(hash: Hash, ops: seq<Op>, id: Id)
    ensures Tests(hash, Run(hash, ops), id) <==> forall b :: b in hash(id) ==> SetByAdd(hash, ops, b)
  {
    var f := Run(hash, ops);
    RunCoherent(hash, ops);
    forall b: nat ensures b in f.bits <==> SetByAdd(hash, ops, b) {
      BitsOfIff(hash, f.messages, b);
      if e :| e in f.messages && b in hash(e.id) {
        var i := RememberedSurvived(hash, ops, e);
      }
      if i, e :| SurvivingAdd(ops, i, e) && b in hash(e.id) {
        SurvivorRemembered(hash, ops, i, e);
      }
    }
  }

  ghost predicate Monotone(ops: seq<Op>) {
    forall i, j :: 0 <= i < j < |ops| ==> ops[i].time <= ops[j].time
  }

  /**
   With a monotone clock an id tests true at every moment less than a window
   after it was added, whatever is added and cleaned in between.
   */
  lemma NoFalseNegatives(hash: Hash, ops: seq<Op>, i: nat, now: int)
    requires Monotone(ops) && i < |ops| && ops[i].Add?
    requires ops[|ops| - 1].time <= now < ops[i].time + WINDOW
    ensures Tests(hash, Run(hash, ops), ops[i].id)
  {
    RunCoherent(hash, ops);
    var e := Stamp(ops[i].id, ops[i].time);
    SurvivorRemembered(hash, ops, i, e);
    BitsOfMember(hash, Run(hash, ops).messages, e);
  }

  /** The bound is sharp: a clean exactly one window later forgets the id. */
  lemma ForgottenAtWindow(id: Id, t: int)
    ensures var ops := [Add(id, t), Clean(t + WINDOW)];
            Monotone(ops) && !Tests((x: Id) => {0}, Run((x: Id) => {0}, ops), id)
  {
    var hash: Hash := (x: Id) => {0};
    var ops := [Add(id, t), Clean(t + WINDOW)];
    var first := [Add(id, t)];
    assert ops[..1] == first && first[..0] == [];
    assert Run(hash, first) == Added(hash, EMPTY, id, t);
    assert KeepAfter([Stamp(id, t)], t) == [];
  }

  class RollingBloomFilter {
    const hash: Hash
    var filter: set<nat>
    var messages: seq<Stamp>

    constructor (hash: Hash)
      ensures View() == EMPTY && this.hash == hash
    {
      this.hash := hash;
      filter := {};
      messages := [];
    }

    function View(): Filter
      reads this
    {
      Filter(filter, messages)
    }

    method Add(messageId: Id, now: int)
      modifies this
      ensures View() == Added(hash, old(View()), messageId, now)
    {
      filter := filter + hash(messageId);
      messages := messages + [Stamp(messageId, now)];
    }

    method Test(messageId: Id) returns (r: bool)
      ensures r == Tests(hash, View(), messageId)
    {
      r := hash(messageId) <= filter;
    }

    method Clean(now: int)
      modifies this
      ensures View() == Cleaned(hash, old(View()), now)
    {
      var cutoff := now - WINDOW;
      var newMessages: seq<Stamp> := [];
      var newFilter: set<nat> := {};
      var i := 0;
      while i < |messages|
        invariant 0 <= i <= |messages|
        invariant messages == old(messages)
        invariant newMessages == KeepAfter(messages[..i], cutoff)
        invariant newFilter == BitsOf(hash, newMessages)
      {
        var m := messages[i];
        KeepOneMore(hash, messages[..i], m, cutoff);
        assert messages[..i + 1] == messages[..i] + [m];
        if m.time > cutoff {
          newMessages := newMessages + [m];
          newFilter := newFilter + hash(m.id);
        }
        i := i + 1;
      }
      assert messages[..i] == messages;
      messages := newMessages;
      filter := newFilter;
    }
  }
}
