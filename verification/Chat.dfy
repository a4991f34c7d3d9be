/**
 The Chat object with its buffers updated in place
 (examples/chat2-reliable/reliability.go and chat.go). Every method is proved
 against the function of ChatNode that says what the handler does.
 */
module Chat {
  import opened GoTypes
  import opened Wrappers
  import opened ChatHistory
  import opened RollingBloom
  import opened ChatNode
  import opened ChatOutgoing

  // ---------- loops against the recursive definitions ----------

  lemma {:induction false} InsertPosition(h: seq<Message>, m: Message, i: nat)
    requires i <= |h| && (forall j :: 0 <= j < i ==> !Before(m, h[j])) && (i < |h| ==> Before(m, h[i]))
    ensures Insert(h, m) == h[..i] + [m] + h[i..]
  {
    if h != [] && i > 0 {
      InsertPosition(h[1..], m, i - 1);
      assert h[..i] == [h[0]] + h[1..][..i - 1];
      assert h[i..] == h[1..][i - 1..];
    }
  }

  lemma {:induction false} RemovePosition(out: seq<Unack>, id: Id, i: nat)
    requires i <= |out| && (forall j :: 0 <= j < i ==> out[j].msg.id != id) && (i < |out| ==> out[i].msg.id == id)
    ensures RemoveFirst(out, id) == if i < |out| then out[..i] + out[i + 1..] else out
  {
    if out != [] && i > 0 {
      RemovePosition(out[1..], id, i - 1);
      if i < |out| {
        assert out[..i] == [out[0]] + out[1..][..i - 1];
        assert out[i + 1..] == out[1..][i..];
      }
    }
  }

  lemma {:induction false} RecentPrefix(h: seq<Message>, n: nat, k: nat)
    requires k <= |h| && k <= n
    ensures Recent(h, n) == Recent(h, k) + Recent(h[..|h| - k], n - k)
  {
    if h == [] || k == 0 {
      assert h[..|h| - k] == h;
    } else {
      RecentPrefix(h[..|h| - 1], n - 1, k - 1);
      assert h[..|h| - 1][..|h| - 1 - (k - 1)] == h[..|h| - k];
    }
  }

  lemma RecentOneMore(h: seq<Message>, k: nat)
    requires k < |h|
    ensures Recent(h, k + 1) == Recent(h, k) + [h[|h| - 1 - k].id]
  {
    RecentPrefix(h, k + 1, k);
    var rest := h[..|h| - k];
    assert Recent(rest, 1) == [rest[|rest| - 1].id] + Recent(rest[..|rest| - 1], 0);
  }

  /** Replacing and removing the entry at the loop index. */
  lemma AtIndex<T>(done: seq<T>, rest: seq<T>, x: T)
    requires rest != []
    ensures (done + rest)[|done|] == rest[0]
    ensures (done + rest)[|done| := x] == done + [x] + rest[1..]
    ensures (done + rest)[..|done|] + (done + rest)[|done| + 1..] == done + rest[1..]
  {
  }

  class Chat {
    const sender: Bytes
    const bloomFilter: RollingBloomFilter
    var lamportTimestamp: Int32
    var outgoingBuffer: seq<Unack>
    var incomingBuffer: seq<Message>
    var messageHistory: seq<Message>
    /** The lines shown by the user interface. */
    var displayed: seq<Message>
    /** How often missing messages were asked for. */
    var requests: nat
    ghost var intake: seq<Arrival>
    ghost var journal: seq<Event>

    constructor (sender: Bytes, hash: Hash)
      ensures View() == INITIAL && this.sender == sender && bloomFilter.hash == hash && fresh(bloomFilter)
    {
      this.sender := sender;
      bloomFilter := new RollingBloomFilter(hash);
      lamportTimestamp := 0;
      outgoingBuffer, incomingBuffer, messageHistory, displayed := [], [], [], [];
      requests, intake, journal := 0, [], [];
    }

    ghost function View(): Node
      reads this, bloomFilter
    {
      Node(lamportTimestamp, bloomFilter.View(), outgoingBuffer, incomingBuffer, messageHistory,
           displayed, intake, journal, requests)
    }

    method IncLamportTimestamp(now: int)
      modifies this`lamportTimestamp
      ensures lamportTimestamp == Incremented(old(lamportTimestamp), now)
    {
      var seconds := Wrap32(now / SECOND);
      var next := Wrap32(lamportTimestamp + 1);
      lamportTimestamp := if seconds > next then seconds else next;
    }

    method UpdateLamportTimestamp(ts: Int32)
      modifies this`lamportTimestamp
      ensures lamportTimestamp == Max32(ts, old(lamportTimestamp))
    {
      lamportTimestamp := if ts > lamportTimestamp then ts else lamportTimestamp;
    }

    method GetRecentMessageIDs(n: nat) returns (result: seq<Id>)
      ensures result == Recent(messageHistory, n)
    {
      result := [];
      var i := |messageHistory| - 1;
      while i >= 0 && |result| < n
        invariant -1 <= i < |messageHistory|
        invariant |result| == |messageHistory| - 1 - i <= n
        invariant result == Recent(messageHistory, |result|)
      {
        RecentOneMore(messageHistory, |result|);
        result := result + [messageHistory[i].id];
        i := i - 1;
      }
      RecentPrefix(messageHistory, n, |result|);
      assert i < 0 ==> messageHistory[..|messageHistory| - |result|] == [];
    }

    method CheckCausalDependencies(msg: Message) returns (missing: seq<Id>)
      ensures missing == Missing(messageHistory, msg.causal)
    {
      var seen: set<Id> := {};
      var i := 0;
      while i < |messageHistory|
        invariant 0 <= i <= |messageHistory|
        invariant forall d :: d in seen <==> HasId(messageHistory[..i], d)
      {
        assert messageHistory[..i + 1] == messageHistory[..i] + [messageHistory[i]];
        assert forall d :: HasId(messageHistory[..i + 1], d)
                      <==> HasId(messageHistory[..i], d) || d == messageHistory[i].id by {
          OneMoreId(messageHistory[..i], messageHistory[i]);
        }
        seen := seen + {messageHistory[i].id};
        i := i + 1;
      }
      assert messageHistory[..i] == messageHistory;
      missing := [];
      i := 0;
      while i < |msg.causal|
        invariant 0 <= i <= |msg.causal|
        invariant missing == Missing(messageHistory, msg.causal[..i])
      {
        assert msg.causal[..i + 1][..i] == msg.causal[..i];
        if msg.causal[i] !in seen {
          missing := missing + [msg.causal[i]];
        }
        i := i + 1;
      }
      assert msg.causal[..i] == msg.causal;
    }

    static lemma OneMoreId(s: seq<Message>, m: Message)
      ensures forall d :: HasId(s + [m], d) <==> HasId(s, d) || d == m.id
    {
      var t := s + [m];
      forall d ensures HasId(t, d) <==> HasId(s, d) || d == m.id {
        if i :| 0 <= i < |s| && s[i].id == d { assert t[i].id == d; }
        if i :| 0 <= i < |t| && t[i].id == d { assert i < |s| ==> s[i].id == d; }
        assert t[|s|].id == m.id;
      }
    }

    method AddToMessageHistory(msg: Message)
      modifies this`messageHistory
      ensures messageHistory == AddToHistory(old(messageHistory), msg)
    {
      var insertIndex := |messageHistory|;
      var i := 0;
      while i < |messageHistory|
        invariant 0 <= i <= |messageHistory| && insertIndex == |messageHistory|
        invariant messageHistory == old(messageHistory)
        invariant forall j :: 0 <= j < i ==> !Before(msg, messageHistory[j])
      {
        var existing := messageHistory[i];
        if existing.ts > msg.ts {
          insertIndex := i;
          break;
        } else if existing.ts == msg.ts {
          if Less(msg.id, existing.id) {
            insertIndex := i;
            break;
          }
        }
        i := i + 1;
      }
      InsertPosition(messageHistory, msg, insertIndex);
      if insertIndex == |messageHistory| {
        messageHistory := messageHistory + [msg];
      } else {
        messageHistory := messageHistory[..insertIndex + 1] + messageHistory[insertIndex..];
        messageHistory := messageHistory[insertIndex := msg];
      }
      assert messageHistory == Insert(old(messageHistory), msg);
      if |messageHistory| > MAX_HISTORY {
        messageHistory := messageHistory[|messageHistory| - MAX_HISTORY..];
      }
    }

    method RemoveByIds(ids: seq<Id>)
      modifies this`outgoingBuffer
      ensures outgoingBuffer == RemoveEach(old(outgoingBuffer), ids)
    {
      var k := 0;
      while k < |ids|
        invariant 0 <= k <= |ids|
        invariant outgoingBuffer == RemoveEach(old(outgoingBuffer), ids[..k])
      {
        var i := 0;
        while i < |outgoingBuffer| && outgoingBuffer[i].msg.id != ids[k]
          invariant 0 <= i <= |outgoingBuffer|
          invariant forall j :: 0 <= j < i ==> outgoingBuffer[j].msg.id != ids[k]
        {
          i := i + 1;
        }
        RemovePosition(outgoingBuffer, ids[k], i);
        assert ids[..k + 1][..k] == ids[..k];
        if i < |outgoingBuffer| {
          outgoingBuffer := outgoingBuffer[..i] + outgoingBuffer[i + 1..];
        }
        k := k + 1;
      }
      assert ids[..k] == ids;
    }

    method RemoveByFilter(bits: set<nat>)
      modifies this`outgoingBuffer
      ensures outgoingBuffer == RemoveTested(bloomFilter.hash, old(outgoingBuffer), bits)
    {
      ghost var start := outgoingBuffer;
      ghost var j := 0;
      var i := 0;
      while i < |outgoingBuffer|
        invariant 0 <= j <= |start|
        invariant i == |RemoveTested(bloomFilter.hash, start[..j], bits)|
        invariant outgoingBuffer == RemoveTested(bloomFilter.hash, start[..j], bits) + start[j..]
        decreases |outgoingBuffer| - i
      {
        assert start[..j + 1][..j] == start[..j] && outgoingBuffer[i] == start[j];
        if bloomFilter.hash(outgoingBuffer[i].msg.id) <= bits {
          outgoingBuffer := outgoingBuffer[..i] + outgoingBuffer[i + 1..];
        } else {
          i := i + 1;
        }
        j := j + 1;
      }
      assert start[..j] == start;
    }

    method ReviewAckStatus(msg: Message)
      modifies this`outgoingBuffer, this`journal
      ensures outgoingBuffer == AfterAcks(bloomFilter.hash, old(outgoingBuffer), msg)
      ensures journal == old(journal) + AckEvents(old(outgoingBuffer), outgoingBuffer, msg)
    {
      RemoveByIds(msg.causal);
      if msg.bloom.Bits? {
        RemoveByFilter(msg.bloom.bits);
      }
      journal := journal + AckEvents(old(outgoingBuffer), outgoingBuffer, msg);
    }

    method CheckUnacknowledgedMessages(now: int)
      modifies this`outgoingBuffer, this`journal
      ensures outgoingBuffer == TickOut(old(outgoingBuffer), now)
      ensures journal == old(journal) + TickEvents(old(outgoingBuffer), now)
    {
      // The buffer is what became of the entries visited so far, then the others.
      ghost var visited: seq<Unack>, rest: seq<Unack> := [], outgoingBuffer;
      var i := 0;
      while i < |outgoingBuffer|
        invariant visited + rest == old(outgoingBuffer)
        invariant i == |TickOut(visited, now)|
        invariant outgoingBuffer == TickOut(visited, now) + rest
        invariant journal == old(journal) + TickEvents(visited, now)
        decreases |rest|
      {
        var unack := outgoingBuffer[i];
        AtIndex(TickOut(visited, now), rest, Unack(unack.msg, now, unack.attempts + 1));
        TickSnoc(visited, unack, now);
        assert visited + [unack] + rest[1..] == visited + rest;
        assert rest == [unack] + rest[1..];
        if now - unack.sendTime > ACK_TIMEOUT {
          if unack.attempts < MAX_RESENDS {
            journal := journal + [Resent(unack.msg.id, now)];
            outgoingBuffer := outgoingBuffer[i := Unack(unack.msg, now, unack.attempts + 1)];
            i := i + 1;
          } else {
            outgoingBuffer := outgoingBuffer[..i] + outgoingBuffer[i + 1..];
            journal := journal + [Dropped(unack.msg.id, now)];
          }
        } else {
          i := i + 1;
        }
        visited, rest := visited + [unack], rest[1..];
        assert journal == old(journal) + TickEvents(visited, now);
      }
      assert rest == [] && visited == old(outgoingBuffer);
    }

    method AddAllToHistory(msgs: seq<Message>)
      modifies this`messageHistory
      ensures messageHistory == AddAll(old(messageHistory), msgs)
    {
      var i := 0;
      while i < |msgs|
        invariant 0 <= i <= |msgs|
        invariant AddAll(messageHistory, msgs[i..]) == AddAll(old(messageHistory), msgs)
      {
        assert msgs[i..][1..] == msgs[i + 1..];
        AddToMessageHistory(msgs[i]);
        i := i + 1;
      }
    }

    method ProcessBufferedMessages()
      modifies this`incomingBuffer, this`displayed, this`messageHistory
      ensures View() == Swept(old(View()))
    {
      var remaining: seq<Message> := [];
      var processed: seq<Message> := [];
      var i := 0;
      while i < |incomingBuffer|
        invariant 0 <= i <= |incomingBuffer|
        invariant incomingBuffer == old(incomingBuffer) && messageHistory == old(messageHistory)
        invariant remaining == WaitingOf(messageHistory, incomingBuffer[..i])
        invariant processed == Content(ReadyOf(messageHistory, incomingBuffer[..i]))
        invariant displayed == old(displayed) + processed
      {
        var msg := incomingBuffer[i];
        assert incomingBuffer[..i + 1][..i] == incomingBuffer[..i];
        ghost var ready := ReadyOf(messageHistory, incomingBuffer[..i]);
        assert (ready + [msg])[..|ready|] == ready;
        var missing := CheckCausalDependencies(msg);
        if |missing| == 0 {
          if msg.content != [] {
            displayed := displayed + [msg];
            processed := processed + [msg];
          }
        } else {
          remaining := remaining + [msg];
        }
        i := i + 1;
      }
      assert incomingBuffer[..i] == incomingBuffer;
      incomingBuffer := remaining;
      AddAllToHistory(processed);
    }

    method SendMessage(line: Bytes, id: Id, now: int, outcome: Outcome)
      modifies this, bloomFilter
      ensures View() == Sent(bloomFilter.hash, old(View()), sender, id, now, line, outcome)
    {
      IncLamportTimestamp(now);
      if outcome.MarshalFailed? {
        return;
      }
      var recent := GetRecentMessageIDs(CAUSAL_LENGTH);
      var msg := Message(sender, id, lamportTimestamp, recent, Bits(bloomFilter.filter), line);
      outgoingBuffer := outgoingBuffer + [Unack(msg, now, 0)];
      journal := journal + [Queued(id, now)];
      if outcome.PublishFailed? {
        return;
      }
      bloomFilter.Add(id, now);
      AddToMessageHistory(msg);
      displayed := displayed + [msg];
      intake := intake + [Arrival(msg, now, true)];
    }

    method SendSyncMessage(id: Id) returns (msg: Message)
      ensures msg == SyncMessage(View(), sender, id)
    {
      var recent := GetRecentMessageIDs(CAUSAL_LENGTH);
      msg := Message(sender, id, lamportTimestamp, recent, Bits(bloomFilter.filter), []);
    }

    /** Bloom filter, Lamport clock and acknowledgements of a message that is let in. */
    method Accept(msg: Message, now: int)
      modifies this, bloomFilter
      ensures View() == Accepted(bloomFilter.hash, old(View()), msg, now)
    {
      bloomFilter.Add(msg.id, now);
      UpdateLamportTimestamp(msg.ts);
      intake := intake + [Arrival(msg, now, false)];
      ReviewAckStatus(msg);
    }

    method ProcessReceivedMessage(msg: Message, fetch: Fetch, ghost universe: set<Message>)
      requires msg in universe && AnswersIn(fetch, universe)
      modifies this, bloomFilter
      ensures View() == Received(bloomFilter.hash, old(View()), msg, fetch, universe)
      decreases |Unseen(bloomFilter.hash, bloomFilter.View(), universe)|, 0, 0
    {
      var seen := bloomFilter.Test(msg.id);
      if seen {
        return;
      }
      var now := fetch.time(requests);
      AcceptedShrinksUnseen(bloomFilter.hash, View(), msg, now, universe);
      Accept(msg, now);
      var missing := CheckCausalDependencies(msg);
      if |missing| == 0 {
        if msg.content != [] {
          displayed := displayed + [msg];
          AddToMessageHistory(msg);
        }
        ProcessBufferedMessages();
      } else {
        RequestMissingMessages(missing, fetch, universe);
        incomingBuffer := incomingBuffer + [msg];
      }
    }

    /** The loop over the missing dependencies. */
    method RequestMissingMessages(deps: seq<Id>, fetch: Fetch, ghost universe: set<Message>)
      requires AnswersIn(fetch, universe)
      modifies this, bloomFilter
      ensures View() == FetchedAll(bloomFilter.hash, old(View()), deps, fetch, universe)
      decreases |Unseen(bloomFilter.hash, bloomFilter.View(), universe)|, 2, |deps|
    {
      if deps == [] {
        return;
      }
      RequestMissingMessage(deps[0], fetch, universe);
      UnseenMonotone(bloomFilter.hash, old(bloomFilter.View()), bloomFilter.View(), universe);
      RequestMissingMessages(deps[1..], fetch, universe);
    }

    method RequestMissingMessage(id: Id, fetch: Fetch, ghost universe: set<Message>)
      requires AnswersIn(fetch, universe)
      modifies this, bloomFilter
      ensures View() == FetchedOne(bloomFilter.hash, old(View()), id, fetch, universe)
      decreases |Unseen(bloomFilter.hash, bloomFilter.View(), universe)|, 1, 0
    {
      var answer := AskPeers(requests, id, fetch);
      requests := requests + 1;
      assert View() == Asked(old(View()));
      assert bloomFilter.View() == old(bloomFilter.View());
      if answer.Some? {
        ProcessReceivedMessage(answer.value, fetch, universe);
      }
    }

    /** Asks the peers up to five times. */
    method AskPeers(request: nat, id: Id, fetch: Fetch) returns (answer: Option<Message>)
      ensures answer == Answer(fetch, request, id, 0)
    {
      var retry := 0;
      while retry < MAX_RETRIES
        invariant 0 <= retry <= MAX_RETRIES
        invariant Answer(fetch, request, id, retry) == Answer(fetch, request, id, 0)
      {
        answer := fetch.answer(request, id, retry);
        if answer.Some? {
          return;
        }
        retry := retry + 1;
      }
      answer := None;
    }
  }
}
