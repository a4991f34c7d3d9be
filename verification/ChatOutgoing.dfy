/**
 What happens to a message in the outgoing buffer, over any run: it stays until
 it is acknowledged or dropped after five resends, and the resends are more
 than the acknowledgement timeout apart.
 */
module ChatOutgoing {
  import opened ChatHistory
  import opened RollingBloom
  import opened ChatNode

  predicate InBuffer(out: seq<Unack>, id: Id) {
    exists i :: 0 <= i < |out| && out[i].msg.id == id
  }

  ghost predicate Distinct(out: seq<Unack>) {
    forall i, j :: 0 <= i < j < |out| ==> out[i].msg.id != out[j].msg.id
  }

  /** The received message shows that its sender has seen `id`. */
  predicate Acknowledges(hash: Hash, m: Message, id: Id) {
    id in m.causal || (m.bloom.Bits? && hash(id) <= m.bloom.bits)
  }

  // ---------- the removal loops are order-preserving filters ----------

  function Without(out: seq<Unack>, ids: seq<Id>): seq<Unack> {
    if out == [] then []
    else
      var r := Without(out[..|out| - 1], ids);
      if out[|out| - 1].msg.id in ids then r else r + [out[|out| - 1]]
  }

  function Unacked(hash: Hash, out: seq<Unack>, m: Message): seq<Unack> {
    if out == [] then []
    else
      var r := Unacked(hash, out[..|out| - 1], m);
      if Acknowledges(hash, m, out[|out| - 1].msg.id) then r else r + [out[|out| - 1]]
  }

  lemma {:induction false} RemoveFirstSnoc(out: seq<Unack>, u: Unack, id: Id)
    ensures RemoveFirst(out + [u], id)
         == if InBuffer(out, id) then RemoveFirst(out, id) + [u] else if u.msg.id == id then out else out + [u]
  {
    if out == [] {
      assert out + [u] == [u];
    } else if out[0].msg.id == id {
      assert (out + [u])[1..] == out[1..] + [u];
    } else {
      assert (out + [u])[1..] == out[1..] + [u];
      RemoveFirstSnoc(out[1..], u, id);
      assert InBuffer(out, id) <==> InBuffer(out[1..], id) by {
        if i :| 0 <= i < |out| && out[i].msg.id == id { assert out[1..][i - 1].msg.id == id; }
        if i :| 0 <= i < |out[1..]| && out[1..][i].msg.id == id { assert out[i + 1].msg.id == id; }
      }
      assert [out[0]] + (out[1..] + [u]) == out + [u];
      assert [out[0]] + out[1..] == out;
      if InBuffer(out, id) {
        assert [out[0]] + (RemoveFirst(out[1..], id) + [u]) == ([out[0]] + RemoveFirst(out[1..], id)) + [u];
      }
    }
  }

  lemma {:induction false} WithoutMember(out: seq<Unack>, ids: seq<Id>, u: Unack)
    ensures u in Without(out, ids) <==> u in out && u.msg.id !in ids
  {
    if out != [] {
      WithoutMember(out[..|out| - 1], ids, u);
      assert out == out[..|out| - 1] + [out[|out| - 1]];
    }
  }

  lemma WithoutBuffer(out: seq<Unack>, ids: seq<Id>, id: Id)
    ensures InBuffer(Without(out, ids), id) <==> InBuffer(out, id) && id !in ids
  {
    var r := Without(out, ids);
    if i :| 0 <= i < |r| && r[i].msg.id == id {
      WithoutMember(out, ids, r[i]);
    }
    if i :| 0 <= i < |out| && out[i].msg.id == id {
      WithoutMember(out, ids, out[i]);
    }
  }

  /** Removing one more id from the filtered buffer. */
  lemma {:induction false} RemoveOneMore(out: seq<Unack>, ids: seq<Id>, id: Id)
    requires Distinct(out)
    ensures RemoveFirst(Without(out, ids), id) == Without(out, ids + [id])
  {
    if out != [] {
      var pre, u := out[..|out| - 1], out[|out| - 1];
      RemoveOneMore(pre, ids, id);
      var r := Without(pre, ids);
      WithoutBuffer(pre, ids, id);
      if u.msg.id !in ids {
        RemoveFirstSnoc(r, u, id);
        if u.msg.id == id {
          WithoutNothing(pre, ids, id);
        } else if !InBuffer(r, id) {
          RemoveFirstAbsent(r, id);
        }
      }
    }
  }

  lemma {:induction false} RemoveFirstAbsent(out: seq<Unack>, id: Id)
    requires !InBuffer(out, id)
    ensures RemoveFirst(out, id) == out
  {
    if out != [] {
      assert out[0].msg.id != id;
      assert forall i :: 0 <= i < |out[1..]| ==> out[1..][i] == out[i + 1];
      RemoveFirstAbsent(out[1..], id);
    }
  }

  lemma {:induction false} WithoutNothing(out: seq<Unack>, ids: seq<Id>, id: Id)
    requires !InBuffer(out, id)
    ensures Without(out, ids + [id]) == Without(out, ids)
  {
    if out != [] {
      assert out[|out| - 1].msg.id != id;
      WithoutNothing(out[..|out| - 1], ids, id);
    }
  }

  lemma {:induction false} RemoveEachIsFilter(out: seq<Unack>, ids: seq<Id>)
    requires Distinct(out)
    ensures RemoveEach(out, ids) == Without(out, ids)
  {
    if ids == [] {
      WithoutEmpty(out);
    } else {
      var n := |ids| - 1;
      RemoveEachIsFilter(out, ids[..n]);
      RemoveOneMore(out, ids[..n], ids[n]);
      assert ids == ids[..n] + [ids[n]];
    }
  }

  lemma {:induction false} WithoutEmpty(out: seq<Unack>)
    ensures Without(out, []) == out
  {
    if out != [] {
      WithoutEmpty(out[..|out| - 1]);
    }
  }

  lemma {:induction false} TestedAfterWithout(hash: Hash, out: seq<Unack>, m: Message)
    requires m.bloom.Bits?
    ensures RemoveTested(hash, Without(out, m.causal), m.bloom.bits) == Unacked(hash, out, m)
  {
    if out != [] {
      var pre, u := out[..|out| - 1], out[|out| - 1];
      TestedAfterWithout(hash, pre, m);
      var r := Without(pre, m.causal);
      assert (r + [u])[..|r|] == r;
    }
  }

  lemma {:induction false} WithoutIsUnacked(hash: Hash, out: seq<Unack>, m: Message)
    requires !m.bloom.Bits?
    ensures Without(out, m.causal) == Unacked(hash, out, m)
  {
    if out != [] { WithoutIsUnacked(hash, out[..|out| - 1], m); }
  }

  /** Both removal loops together drop exactly the acknowledged entries, keeping the order. */
  lemma AcksAreFilter(hash: Hash, out: seq<Unack>, m: Message)
    requires Distinct(out)
    ensures AfterAcks(hash, out, m) == Unacked(hash, out, m)
  {
    RemoveEachIsFilter(out, m.causal);
    if m.bloom.Bits? { TestedAfterWithout(hash, out, m); } else { WithoutIsUnacked(hash, out, m); }
  }

  lemma {:induction false} UnackedMember(hash: Hash, out: seq<Unack>, m: Message, u: Unack)
    ensures u in Unacked(hash, out, m) <==> u in out && !Acknowledges(hash, m, u.msg.id)
  {
    if out != [] {
      UnackedMember(hash, out[..|out| - 1], m, u);
      assert out == out[..|out| - 1] + [out[|out| - 1]];
    }
  }

  lemma {:induction false} UnackedDistinct(hash: Hash, out: seq<Unack>, m: Message)
    requires Distinct(out)
    ensures Distinct(Unacked(hash, out, m))
  {
    if out != [] {
      var pre, u := out[..|out| - 1], out[|out| - 1];
      UnackedDistinct(hash, pre, m);
      var r := Unacked(hash, pre, m);
      forall i | 0 <= i < |r| ensures r[i].msg.id != u.msg.id {
        UnackedMember(hash, pre, m, r[i]);
      }
    }
  }

  // ---------- the journal ----------

  /** When `id` was queued and then resent, in order. */
  function Times(journal: seq<Event>, id: Id): seq<int> {
    if journal == [] then []
    else
      var r := Times(journal[..|journal| - 1], id);
      var e := journal[|journal| - 1];
      if (e.Queued? || e.Resent?) && e.id == id then r + [e.time] else r
  }

  ghost predicate Spread(times: seq<int>) {
    forall k :: 0 <= k < |times| - 1 ==> times[k + 1] - times[k] > ACK_TIMEOUT
  }

  /** Attempts and send time of an entry agree with what the journal says. */
  ghost predicate Agrees(u: Unack, journal: seq<Event>) {
    var times := Times(journal, u.msg.id);
    |times| == u.attempts + 1 && times[u.attempts] == u.sendTime && u.attempts <= MAX_RESENDS
  }

  /** The message was acknowledged, or dropped after five resends and another timeout. */
  ghost predicate SettledBy(e: Event, journal: seq<Event>, id: Id) {
    && e in journal && e.id == id
    && (e.Acked? || (e.Dropped? && var times := Times(journal, id);
                     |times| == MAX_RESENDS + 1 && e.time - times[MAX_RESENDS] > ACK_TIMEOUT))
  }

  ghost predicate Settled(journal: seq<Event>, id: Id) {
    exists e :: SettledBy(e, journal, id)
  }

  /** Every acknowledgement was caused by a message that this node let in. */
  ghost predicate Justified(hash: Hash, journal: seq<Event>, intake: seq<Arrival>) {
    forall e :: e in journal && e.Acked? ==>
      Acknowledges(hash, e.cause, e.id) && exists a :: a in intake && a.msg == e.cause
  }

  ghost predicate Tracked(hash: Hash, out: seq<Unack>, journal: seq<Event>, intake: seq<Arrival>) {
    && Distinct(out)
    && (forall u :: u in out ==> Agrees(u, journal))
    && (forall id :: Spread(Times(journal, id)) && |Times(journal, id)| <= MAX_RESENDS + 1)
    && (forall id :: Times(journal, id) != [] && !InBuffer(out, id) ==> Settled(journal, id))
    && Justified(hash, journal, intake)
  }

  lemma {:induction false} TimesAppend(a: seq<Event>, b: seq<Event>, id: Id)
    ensures Times(a + b, id) == Times(a, id) + Times(b, id)
  {
    if b == [] {
      assert a + b == a;
    } else {
      var n := |b| - 1;
      assert (a + b)[..|a + b| - 1] == a + b[..n];
      TimesAppend(a, b[..n], id);
    }
  }

  /** Settled messages stay settled while nothing more is sent for them. */
  lemma SettledStays(a: seq<Event>, b: seq<Event>, id: Id)
    requires Settled(a, id) && Times(b, id) == []
    ensures Settled(a + b, id)
  {
    TimesAppend(a, b, id);
    var e :| SettledBy(e, a, id);
    assert SettledBy(e, a + b, id);
  }

  // ---------- acknowledgements ----------

  lemma {:induction false} AckEventsTimes(before: seq<Unack>, after: seq<Unack>, cause: Message, id: Id)
    ensures Times(AckEvents(before, after, cause), id) == []
  {
    if before != [] {
      var pre, u := before[..|before| - 1], before[|before| - 1];
      AckEventsTimes(pre, after, cause, id);
      var r := AckEvents(pre, after, cause);
      assert (r + [Acked(u.msg.id, cause)])[..|r|] == r;
    }
  }

  lemma {:induction false} AckEventsSound(before: seq<Unack>, after: seq<Unack>, cause: Message, e: Event)
    requires e in AckEvents(before, after, cause)
    ensures e.Acked? && e.cause == cause && exists u :: u in before && u !in after && u.msg.id == e.id
  {
    if before != [] {
      var pre, u := before[..|before| - 1], before[|before| - 1];
      assert u in before;
      if e in AckEvents(pre, after, cause) {
        AckEventsSound(pre, after, cause, e);
        assert before == pre + [u];
      }
    }
  }

  lemma {:induction false} AckEventsComplete(before: seq<Unack>, after: seq<Unack>, cause: Message, u: Unack)
    requires u in before && u !in after
    ensures Acked(u.msg.id, cause) in AckEvents(before, after, cause)
  {
    var pre, x := before[..|before| - 1], before[|before| - 1];
    assert before == pre + [x];
    if u in pre {
      AckEventsComplete(pre, after, cause, u);
    }
  }

  lemma AckEventsExact(before: seq<Unack>, after: seq<Unack>, cause: Message, id: Id)
    ensures Times(AckEvents(before, after, cause), id) == []
    ensures forall e :: e in AckEvents(before, after, cause) ==>
              e.Acked? && e.cause == cause && exists u :: u in before && u !in after && u.msg.id == e.id
    ensures forall u :: u in before && u !in after ==> Acked(u.msg.id, cause) in AckEvents(before, after, cause)
  {
    AckEventsTimes(before, after, cause, id);
    forall e | e in AckEvents(before, after, cause)
      ensures e.Acked? && e.cause == cause && exists u :: u in before && u !in after && u.msg.id == e.id
    {
      AckEventsSound(before, after, cause, e);
    }
    forall u | u in before && u !in after ensures Acked(u.msg.id, cause) in AckEvents(before, after, cause) {
      AckEventsComplete(before, after, cause, u);
    }
  }

  lemma ReviewedTracked(hash: Hash, out: seq<Unack>, journal: seq<Event>, intake: seq<Arrival>, m: Message)
    requires Tracked(hash, out, journal, intake) && exists a :: a in intake && a.msg == m
    ensures var after := AfterAcks(hash, out, m);
            Tracked(hash, after, journal + AckEvents(out, after, m), intake)
  {
    var after := AfterAcks(hash, out, m);
    var more := AckEvents(out, after, m);
    var all := journal + more;
    AcksAreFilter(hash, out, m);
    UnackedDistinct(hash, out, m);
    forall id ensures Times(all, id) == Times(journal, id) {
      AckEventsExact(out, after, m, id);
      TimesAppend(journal, more, id);
    }
    forall u | u in after ensures Agrees(u, all) {
      UnackedMember(hash, out, m, u);
    }
    forall id | Times(all, id) != [] && !InBuffer(after, id) ensures Settled(all, id) {
      AckEventsExact(out, after, m, id);
      if InBuffer(out, id) {
        var i :| 0 <= i < |out| && out[i].msg.id == id;
        assert out[i] !in after;
        assert SettledBy(Acked(id, m), all, id);
      } else {
        SettledStays(journal, more, id);
      }
    }
    AckEventsExact(out, after, m, m.id);
    forall e | e in more ensures e.Acked? && Acknowledges(hash, e.cause, e.id) && e.cause == m {
      var u :| u in out && u !in after && u.msg.id == e.id;
      UnackedMember(hash, out, m, u);
    }
  }

  // ---------- queueing and resending ----------

  lemma QueuedTracked(hash: Hash, out: seq<Unack>, journal: seq<Event>, intake: seq<Arrival>, m: Message, now: int)
    requires Tracked(hash, out, journal, intake) && Times(journal, m.id) == []
    ensures Tracked(hash, out + [Unack(m, now, 0)], journal + [Queued(m.id, now)], intake)
  {
    var ev := [Queued(m.id, now)];
    var all := journal + ev;
    var after := out + [Unack(m, now, 0)];
    forall id ensures Times(all, id) == Times(journal, id) + (if id == m.id then [now] else []) {
      TimesAppend(journal, ev, id);
      assert ev[..0] == [];
    }
    forall u | u in out ensures u.msg.id != m.id && Agrees(u, all) {
      assert Agrees(u, journal);
    }
    forall id | Times(all, id) != [] && !InBuffer(after, id) ensures Settled(all, id) {
      assert after[|out|].msg.id == m.id;
      assert forall i :: 0 <= i < |out| ==> after[i] == out[i];
      assert ev[..0] == [];
      SettledStays(journal, ev, id);
    }
  }

  /** What one tick does to one entry. */
  function TickOne(u: Unack, now: int): seq<Unack> {
    if !Expired(u, now) then [u]
    else if u.attempts < MAX_RESENDS then [Unack(u.msg, now, u.attempts + 1)]
    else []
  }

  function TickOneEvent(u: Unack, now: int): seq<Event> {
    if !Expired(u, now) then []
    else if u.attempts < MAX_RESENDS then [Resent(u.msg.id, now)]
    else [Dropped(u.msg.id, now)]
  }

  /** A tick handles the entries one after the other. */
  lemma TickSnoc(pre: seq<Unack>, x: Unack, now: int)
    ensures TickOut(pre + [x], now) == TickOut(pre, now) + TickOne(x, now)
    ensures TickEvents(pre + [x], now) == TickEvents(pre, now) + TickOneEvent(x, now)
  {
    assert (pre + [x])[..|pre|] == pre;
  }

  lemma {:induction false} TickKeepsEntry(out: seq<Unack>, now: int, u: Unack)
    requires u in out
    ensures forall v :: v in TickOne(u, now) ==> v in TickOut(out, now)
    ensures forall e :: e in TickOneEvent(u, now) ==> e in TickEvents(out, now)
  {
    var pre, x := out[..|out| - 1], out[|out| - 1];
    assert out == pre + [x];
    TickSnoc(pre, x, now);
    if u != x { TickKeepsEntry(pre, now, u); }
  }

  /** What a tick writes down for the id of an entry. */
  lemma {:induction false} TickTimes(out: seq<Unack>, now: int, u: Unack)
    requires Distinct(out) && u in out
    ensures Times(TickEvents(out, now), u.msg.id) == Times(TickOneEvent(u, now), u.msg.id)
  {
    var pre, x := out[..|out| - 1], out[|out| - 1];
    assert out == pre + [x];
    TickSnoc(pre, x, now);
    TimesAppend(TickEvents(pre, now), TickOneEvent(x, now), u.msg.id);
    if u == x {
      forall i | 0 <= i < |pre| ensures pre[i].msg.id != u.msg.id { assert pre[i] == out[i]; }
      TickAbsent(pre, now, u.msg.id);
    } else {
      TickTimes(pre, now, u);
      assert x.msg.id != u.msg.id;
      TickAbsent([x], now, u.msg.id);
      TickSnoc([], x, now);
      assert [] + [x] == [x];
    }
  }

  lemma TickEntry(out: seq<Unack>, now: int, u: Unack)
    requires Distinct(out) && u in out
    ensures Times(TickEvents(out, now), u.msg.id) == (if Expired(u, now) && u.attempts < MAX_RESENDS then [now] else [])
  {
    TickTimes(out, now, u);
    assert TickOneEvent(u, now) != [] ==> TickOneEvent(u, now)[..0] == [];
  }

  /** After a tick no entry is overdue. */
  lemma {:induction false} TickLeavesFresh(out: seq<Unack>, now: int, v: Unack)
    requires v in TickOut(out, now)
    ensures !Expired(v, now)
  {
    if v in TickOut(out[..|out| - 1], now) { TickLeavesFresh(out[..|out| - 1], now, v); }
  }

  /**
   What a tick does to an entry: one that is not overdue stays; an overdue one is
   resent while it has attempts left, and dropped otherwise.
   */
  lemma TickResends(out: seq<Unack>, now: int, u: Unack)
    requires Distinct(out) && u in out
    ensures now - u.sendTime <= ACK_TIMEOUT ==> u in TickOut(out, now)
    ensures now - u.sendTime > ACK_TIMEOUT && u.attempts < MAX_RESENDS ==>
      Unack(u.msg, now, u.attempts + 1) in TickOut(out, now) && Resent(u.msg.id, now) in TickEvents(out, now)
    ensures now - u.sendTime > ACK_TIMEOUT && u.attempts >= MAX_RESENDS ==>
      !InBuffer(TickOut(out, now), u.msg.id) && Dropped(u.msg.id, now) in TickEvents(out, now)
  {
    TickKeepsEntry(out, now, u);
    if Expired(u, now) {
      assert TickOneEvent(u, now)[0] in TickOneEvent(u, now);
      if u.attempts < MAX_RESENDS {
        assert TickOne(u, now)[0] in TickOne(u, now);
      } else if i :| 0 <= i < |TickOut(out, now)| && TickOut(out, now)[i].msg.id == u.msg.id {
        var x := TickOrigin(out, now, TickOut(out, now)[i]);
      }
    } else {
      assert TickOne(u, now)[0] in TickOne(u, now);
    }
  }

  lemma {:induction false} TickAbsent(out: seq<Unack>, now: int, id: Id)
    requires forall i :: 0 <= i < |out| ==> out[i].msg.id != id
    ensures Times(TickEvents(out, now), id) == []
  {
    if out != [] {
      var pre, x := out[..|out| - 1], out[|out| - 1];
      TickAbsent(pre, now, id);
      assert out == pre + [x];
      TickSnoc(pre, x, now);
      TimesAppend(TickEvents(pre, now), TickOneEvent(x, now), id);
      assert TickOneEvent(x, now) != [] ==> TickOneEvent(x, now)[..0] == [];
    }
  }

  /** Every entry after a tick comes from one before it. */
  lemma {:induction false} TickOrigin(out: seq<Unack>, now: int, v: Unack) returns (u: Unack)
    requires v in TickOut(out, now)
    ensures u in out && TickOne(u, now) == [v]
  {
    var pre, x := out[..|out| - 1], out[|out| - 1];
    assert TickOut(out, now) == TickOut(pre, now) + TickOne(x, now);
    if v in TickOut(pre, now) {
      u := TickOrigin(pre, now, v);
    } else {
      u := x;
    }
  }

  lemma {:induction false} TickDistinct(out: seq<Unack>, now: int)
    requires Distinct(out)
    ensures Distinct(TickOut(out, now))
  {
    if out != [] {
      var pre, x := out[..|out| - 1], out[|out| - 1];
      TickDistinct(pre, now);
      var r := TickOut(pre, now);
      forall i | 0 <= i < |r| ensures r[i].msg.id != x.msg.id {
        var u := TickOrigin(pre, now, r[i]);
      }
    }
  }

  lemma {:induction false} TickEventsKinds(out: seq<Unack>, now: int, e: Event)
    requires e in TickEvents(out, now)
    ensures e.Resent? || e.Dropped?
  {
    var pre, x := out[..|out| - 1], out[|out| - 1];
    assert TickEvents(out, now) == TickEvents(pre, now) + TickOneEvent(x, now);
    if e in TickEvents(pre, now) { TickEventsKinds(pre, now, e); }
  }

  /** A tick that drops an entry settles its message. */
  lemma TickSettles(out: seq<Unack>, journal: seq<Event>, now: int, u: Unack)
    requires Distinct(out) && u in out && Agrees(u, journal) && TickOne(u, now) == []
    ensures Settled(journal + TickEvents(out, now), u.msg.id)
  {
    TickEntry(out, now, u);
    TickKeepsEntry(out, now, u);
    TimesAppend(journal, TickEvents(out, now), u.msg.id);
    var e := Dropped(u.msg.id, now);
    assert e in TickOneEvent(u, now);
    assert SettledBy(e, journal + TickEvents(out, now), u.msg.id);
  }

  /** The entry of `id`, if any, after a tick agrees with the longer journal; a missing one is settled. */
  lemma TickedId(out: seq<Unack>, journal: seq<Event>, now: int, u: Unack)
    requires Distinct(out) && u in out && Agrees(u, journal) && Spread(Times(journal, u.msg.id))
    ensures var all := journal + TickEvents(out, now);
            && Spread(Times(all, u.msg.id)) && |Times(all, u.msg.id)| <= MAX_RESENDS + 1
            && (forall v :: v in TickOne(u, now) ==> Agrees(v, all))
            && (TickOne(u, now) == [] ==> Settled(all, u.msg.id))
  {
    TickEntry(out, now, u);
    TimesAppend(journal, TickEvents(out, now), u.msg.id);
    if TickOne(u, now) == [] {
      TickSettles(out, journal, now, u);
    }
  }

  lemma TickedTracked(hash: Hash, out: seq<Unack>, journal: seq<Event>, intake: seq<Arrival>, now: int)
    requires Tracked(hash, out, journal, intake)
    ensures Tracked(hash, TickOut(out, now), journal + TickEvents(out, now), intake)
  {
    var after, all := TickOut(out, now), journal + TickEvents(out, now);
    TickDistinct(out, now);
    forall v | v in after ensures Agrees(v, all) {
      var u := TickOrigin(out, now, v);
      TickedId(out, journal, now, u);
    }
    forall id
      ensures Spread(Times(all, id)) && |Times(all, id)| <= MAX_RESENDS + 1
      ensures Times(all, id) != [] && !InBuffer(after, id) ==> Settled(all, id)
    {
      if i :| 0 <= i < |out| && out[i].msg.id == id {
        TickedId(out, journal, now, out[i]);
        TickKeepsEntry(out, now, out[i]);
        if TickOne(out[i], now) != [] { assert TickOne(out[i], now)[0] in after; }
      } else {
        TickAbsent(out, now, id);
        TimesAppend(journal, TickEvents(out, now), id);
        if Settled(journal, id) { SettledStays(journal, TickEvents(out, now), id); }
      }
    }
    forall e | e in TickEvents(out, now) ensures !e.Acked? {
      TickEventsKinds(out, now, e);
    }
  }
}
