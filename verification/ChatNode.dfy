/**
 One chat node as a value, and what each handler of the reliability protocol
 does to it (examples/chat2-reliable/reliability.go). Handlers are atomic.

 Beside the fields of the source, a node carries the observations that the
 properties speak about: the lines shown to the user (`displayed`), every
 message let in with its time (`intake`), what happened to the messages in the
 outgoing buffer (`journal`), and how many times missing messages were asked for
 (`requests`), which tells one request from another.
 */
module ChatNode {
  import opened GoTypes
  import opened Wrappers
  import opened ChatHistory
  import opened RollingBloom

  datatype Unack = Unack(msg: Message, sendTime: int, attempts: nat)

  /** A message let in: received past the bloom filter, or published by this node. */
  datatype Arrival = Arrival(msg: Message, time: int, own: bool)

  datatype Event =
    | Queued(id: Id, time: int)
    | Resent(id: Id, time: int)
    | Dropped(id: Id, time: int)
    | Acked(id: Id, cause: Message)

  datatype Node = Node(
    clock: Int32, filter: Filter,
    outgoing: seq<Unack>, incoming: seq<Message>, history: seq<Message>,
    displayed: seq<Message>, intake: seq<Arrival>, journal: seq<Event>, requests: nat)

  const INITIAL: Node := Node(0, EMPTY, [], [], [], [], [], [], 0)

  const SECOND: int := 1_000_000_000
  const ACK_TIMEOUT: int := 5 * SECOND
  const MAX_RESENDS: nat := 5
  const MAX_RETRIES: nat := 5
  const CAUSAL_LENGTH: nat := 10

  // ---------- Lamport clock ----------

  function Max32(a: Int32, b: Int32): Int32 {
    if a > b then a else b
  }

  function Incremented(clock: Int32, now: int): Int32 {
    Max32(Wrap32(now / SECOND), Wrap32(clock + 1))
  }

  /**
   Incrementing moves the clock forward exactly when it is not at its maximum. It
   never stays behind the time, and goes past the time by one step only.
   */
  lemma IncrementIsStrict(clock: Int32, now: int)
    ensures Incremented(clock, now) > clock <==> clock != MAX_INT32
    ensures Incremented(clock, now) >= Wrap32(now / SECOND)
    ensures Incremented(clock, now) > Wrap32(now / SECOND) && clock != MAX_INT32 ==>
              Incremented(clock, now) == clock + 1
  {
  }

  // ---------- causal dependencies ----------

  predicate HasId(s: seq<Message>, id: Id) {
    exists i :: 0 <= i < |s| && s[i].id == id
  }

  function Missing(history: seq<Message>, deps: seq<Id>): seq<Id> {
    if deps == [] then []
    else
      var r := Missing(history, deps[..|deps| - 1]);
      if HasId(history, deps[|deps| - 1]) then r else r + [deps[|deps| - 1]]
  }

  predicate Ready(history: seq<Message>, m: Message) {
    Missing(history, m.causal) == []
  }

  /** The ids of the last `n` messages, newest first. */
  function Recent(history: seq<Message>, n: nat): seq<Id> {
    if history == [] || n == 0 then []
    else [history[|history| - 1].id] + Recent(history[..|history| - 1], n - 1)
  }

  // ---------- incoming buffer ----------

  function Content(s: seq<Message>): seq<Message> {
    if s == [] then []
    else
      var r := Content(s[..|s| - 1]);
      if s[|s| - 1].content != [] then r + [s[|s| - 1]] else r
  }

  /** The buffered messages whose dependencies are all in the history. */
  function ReadyOf(history: seq<Message>, buffer: seq<Message>): seq<Message> {
    if buffer == [] then []
    else
      var r := ReadyOf(history, buffer[..|buffer| - 1]);
      if Ready(history, buffer[|buffer| - 1]) then r + [buffer[|buffer| - 1]] else r
  }

  function WaitingOf(history: seq<Message>, buffer: seq<Message>): seq<Message> {
    if buffer == [] then []
    else
      var r := WaitingOf(history, buffer[..|buffer| - 1]);
      if Ready(history, buffer[|buffer| - 1]) then r else r + [buffer[|buffer| - 1]]
  }

  /** processBufferedMessages. */
  function Swept(n: Node): Node {
    var shown := Content(ReadyOf(n.history, n.incoming));
    n.(incoming := WaitingOf(n.history, n.incoming),
       displayed := n.displayed + shown,
       history := AddAll(n.history, shown))
  }

  // ---------- outgoing buffer ----------

  function RemoveFirst(out: seq<Unack>, id: Id): seq<Unack> {
    if out == [] then []
    else if out[0].msg.id == id then out[1..]
    else [out[0]] + RemoveFirst(out[1..], id)
  }

  function RemoveEach(out: seq<Unack>, ids: seq<Id>): seq<Unack> {
    if ids == [] then out else RemoveFirst(RemoveEach(out, ids[..|ids| - 1]), ids[|ids| - 1])
  }

  function RemoveTested(hash: Hash, out: seq<Unack>, bits: set<nat>): seq<Unack> {
    if out == [] then []
    else
      var r := RemoveTested(hash, out[..|out| - 1], bits);
      if hash(out[|out| - 1].msg.id) <= bits then r else r + [out[|out| - 1]]
  }

  function AfterAcks(hash: Hash, out: seq<Unack>, m: Message): seq<Unack> {
    var r := RemoveEach(out, m.causal);
    if m.bloom.Bits? then RemoveTested(hash, r, m.bloom.bits) else r
  }

  /** One acknowledgement per entry that is gone. */
  function AckEvents(before: seq<Unack>, after: seq<Unack>, cause: Message): seq<Event> {
    if before == [] then []
    else
      var r := AckEvents(before[..|before| - 1], after, cause);
      if before[|before| - 1] in after then r else r + [Acked(before[|before| - 1].msg.id, cause)]
  }

  /** reviewAckStatus. */
  function Reviewed(hash: Hash, n: Node, m: Message): Node {
    var after := AfterAcks(hash, n.outgoing, m);
    n.(outgoing := after, journal := n.journal + AckEvents(n.outgoing, after, m))
  }

  predicate Expired(u: Unack, now: int) {
    now - u.sendTime > ACK_TIMEOUT
  }

  function TickOut(out: seq<Unack>, now: int): seq<Unack> {
    if out == [] then []
    else
      var r := TickOut(out[..|out| - 1], now);
      var u := out[|out| - 1];
      if !Expired(u, now) then r + [u]
      else if u.attempts < MAX_RESENDS then r + [Unack(u.msg, now, u.attempts + 1)]
      else r
  }

  function TickEvents(out: seq<Unack>, now: int): seq<Event> {
    if out == [] then []
    else
      var r := TickEvents(out[..|out| - 1], now);
      var u := out[|out| - 1];
      if !Expired(u, now) then r
      else if u.attempts < MAX_RESENDS then r + [Resent(u.msg.id, now)]
      else r + [Dropped(u.msg.id, now)]
  }

  /** checkUnacknowledgedMessages. */
  function Ticked(n: Node, now: int): Node {
    n.(outgoing := TickOut(n.outgoing, now), journal := n.journal + TickEvents(n.outgoing, now))
  }

  // ---------- sending ----------

  datatype Outcome = MarshalFailed | PublishFailed | Published

  function NewMessage(n: Node, sender: Bytes, id: Id, clock: Int32, line: Bytes): Message {
    Message(sender, id, clock, Recent(n.history, CAUSAL_LENGTH), Bits(n.filter.bits), line)
  }

  /** The message that SendMessage builds. */
  function ChatMessage(n: Node, sender: Bytes, id: Id, now: int, line: Bytes): Message {
    NewMessage(n, sender, id, Incremented(n.clock, now), line)
  }

  /** The message that sendSyncMessage builds; the node does not change. */
  function SyncMessage(n: Node, sender: Bytes, id: Id): Message {
    NewMessage(n, sender, id, n.clock, [])
  }

  /** SendMessage. */
  function Sent(hash: Hash, n: Node, sender: Bytes, id: Id, now: int, line: Bytes, outcome: Outcome): Node {
    var m := ChatMessage(n, sender, id, now, line);
    var n1 := n.(clock := m.ts);
    if outcome.MarshalFailed? then n1
    else
      var n2 := n1.(outgoing := n1.outgoing + [Unack(m, now, 0)], journal := n1.journal + [Queued(id, now)]);
      if outcome.PublishFailed? then n2
      else n2.(filter := Added(hash, n2.filter, id, now),
               history := AddToHistory(n2.history, m),
               displayed := n2.displayed + [m],
               intake := n2.intake + [Arrival(m, now, true)])
  }

  // ---------- receiving ----------

  /**
   What happens around a receive: the answer to the k-th attempt of a request,
   and the time at which the node goes on after so many requests. Requests are
   numbered over the whole life of a node, so no two need have the same answer.
   */
  datatype Fetch = Fetch(answer: (nat, Id, nat) -> Option<Message>, time: nat -> int)

  /** The first answer among the attempts from `k` on. */
  function Answer(fetch: Fetch, request: nat, id: Id, k: nat): (r: Option<Message>)
    ensures r.None? <==> forall j :: k <= j < MAX_RETRIES ==> fetch.answer(request, id, j).None?
    ensures r.Some? ==> exists j :: k <= j < MAX_RETRIES && r == fetch.answer(request, id, j)
                                 && forall i :: k <= i < j ==> fetch.answer(request, id, i).None?
    decreases MAX_RETRIES - k
  {
    if k >= MAX_RETRIES then None
    else if fetch.answer(request, id, k).Some? then fetch.answer(request, id, k)
    else Answer(fetch, request, id, k + 1)
  }

  /** Letting a message in: bloom filter, clock, acknowledgements. */
  function Accepted(hash: Hash, n: Node, m: Message, now: int): Node {
    Reviewed(hash,
             n.(filter := Added(hash, n.filter, m.id, now),
                clock := Max32(m.ts, n.clock),
                intake := n.intake + [Arrival(m, now, false)]),
             m)
  }

  function Delivered(n: Node, m: Message): Node {
    if m.content == [] then n
    else n.(displayed := n.displayed + [m], history := AddToHistory(n.history, m))
  }

  function Held(n: Node, m: Message): Node {
    n.(incoming := n.incoming + [m])
  }

  ghost predicate AnswersIn(fetch: Fetch, universe: set<Message>) {
    forall r, id, k :: fetch.answer(r, id, k).Some? ==> fetch.answer(r, id, k).value in universe
  }

  /** The next request has been made. */
  function Asked(n: Node): Node {
    n.(requests := n.requests + 1)
  }

  ghost function Unseen(hash: Hash, f: Filter, universe: set<Message>): set<Message> {
    set m | m in universe && !Tests(hash, f, m.id)
  }

  /** Letting an unseen message in leaves strictly fewer messages unseen. */
  lemma AcceptedShrinksUnseen(hash: Hash, n: Node, m: Message, now: int, universe: set<Message>)
    requires m in universe && !Tests(hash, n.filter, m.id)
    ensures |Unseen(hash, Accepted(hash, n, m, now).filter, universe)| < |Unseen(hash, n.filter, universe)|
  {
    var before := Unseen(hash, n.filter, universe);
    var after := Unseen(hash, Accepted(hash, n, m, now).filter, universe);
    assert after <= before - {m};
    SubsetSize(after, before - {m});
  }

  lemma SubsetSize(a: set<Message>, b: set<Message>)
    requires a <= b
    ensures |a| <= |b|
  {
    assert b == a + (b - a);
    assert |b| == |a| + |b - a|;
  }

  lemma UnseenMonotone(hash: Hash, f: Filter, g: Filter, universe: set<Message>)
    requires f.bits <= g.bits
    ensures |Unseen(hash, g, universe)| <= |Unseen(hash, f, universe)|
  {
    SubsetSize(Unseen(hash, g, universe), Unseen(hash, f, universe));
  }

  /**
   processReceivedMessage. It recurses through the missing dependencies; every
   call that gets past the bloom filter leaves fewer messages of the universe
   unseen, so the recursion ends whatever the dependencies claim.
   */
  ghost function Received(hash: Hash, n: Node, m: Message, fetch: Fetch, universe: set<Message>): (r: Node)
    requires m in universe && AnswersIn(fetch, universe)
    ensures n.filter.bits <= r.filter.bits && n.requests <= r.requests
    decreases |Unseen(hash, n.filter, universe)|, 0, 0
  {
    if Tests(hash, n.filter, m.id) then n
    else
      AcceptedShrinksUnseen(hash, n, m, fetch.time(n.requests), universe);
      var n1 := Accepted(hash, n, m, fetch.time(n.requests));
      if Ready(n1.history, m) then Swept(Delivered(n1, m))
      else Held(FetchedAll(hash, n1, Missing(n1.history, m.causal), fetch, universe), m)
  }

  /** requestMissingMessage. */
  ghost function FetchedOne(hash: Hash, n: Node, dep: Id, fetch: Fetch, universe: set<Message>): (r: Node)
    requires AnswersIn(fetch, universe)
    ensures n.filter.bits <= r.filter.bits && n.requests <= r.requests
    decreases |Unseen(hash, n.filter, universe)|, 1, 0
  {
    var answer := Answer(fetch, n.requests, dep, 0);
    if answer.Some? then Received(hash, Asked(n), answer.value, fetch, universe) else Asked(n)
  }

  /** requestMissingMessage for each of `deps` in turn. */
  ghost function FetchedAll(hash: Hash, n: Node, deps: seq<Id>, fetch: Fetch, universe: set<Message>): (r: Node)
    requires AnswersIn(fetch, universe)
    ensures n.filter.bits <= r.filter.bits && n.requests <= r.requests
    decreases |Unseen(hash, n.filter, universe)|, 2, |deps|
  {
    if deps == [] then n
    else
      var n1 := FetchedOne(hash, n, deps[0], fetch, universe);
      UnseenMonotone(hash, n.filter, n1.filter, universe);
      FetchedAll(hash, n1, deps[1..], fetch, universe)
  }
}
