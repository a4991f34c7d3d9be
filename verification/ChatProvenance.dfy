/**
 Where the messages of a run come from: every message was built in exactly one
 step, by one node, from what that node had shown and seen before; and its
 dependencies were built earlier.
 */
module ChatProvenance {
  import opened ChatHistory
  import opened RollingBloom
  import opened ChatNode
  import opened ChatDelivery
  import opened ChatSystem

  /** The step builds this message and hands it to the network. */
  ghost predicate Builds(w: World, t: Timed, m: Message) {
    && Enabled(w, t.action, t.now)
    && match t.action
       case Send(i, sender, id, line, outcome) =>
         !outcome.MarshalFailed? && m == ChatMessage(w.nodes[i], sender, id, t.now, line)
       case Sync(i, sender, id) => m == SyncMessage(w.nodes[i], sender, id)
       case _ => false
  }

  lemma {:induction false} CreatedGrows(hash: Hash, worlds: seq<World>, steps: seq<Timed>, j: nat, k: nat)
    requires IsRun(hash, worlds, steps) && j <= k < |worlds|
    ensures worlds[j].created.chats <= worlds[k].created.chats && worlds[j].created.syncs <= worlds[k].created.syncs
    ensures worlds[j].names == worlds[k].names
    decreases k - j
  {
    if j < k {
      CreatedGrows(hash, worlds, steps, j, k - 1);
      assert IsStep(hash, worlds[k - 1], steps[k - 1], worlds[k]);
    }
  }

  /** Every message was built in some earlier step. */
  lemma {:induction false} BuiltAt(hash: Hash, worlds: seq<World>, steps: seq<Timed>, k: nat, m: Message)
    returns (j: nat)
    requires IsRun(hash, worlds, steps) && k < |worlds| && m in worlds[k].created.All()
    ensures j < k && Builds(worlds[j], steps[j], m)
  {
    if k > 0 {
      assert IsStep(hash, worlds[k - 1], steps[k - 1], worlds[k]);
      if m in worlds[k - 1].created.All() {
        j := BuiltAt(hash, worlds, steps, k - 1, m);
      } else {
        j := k - 1;
      }
    }
  }

  /** It did not exist before the step that built it, whose id was fresh. */
  lemma BuiltBefore(hash: Hash, worlds: seq<World>, steps: seq<Timed>, j: nat, k: nat, m: Message)
    requires IsRun(hash, worlds, steps) && j < |steps| && k < |worlds|
    requires Builds(worlds[j], steps[j], m) && m in worlds[k].created.All()
    ensures j < k
  {
    if k <= j {
      CreatedGrows(hash, worlds, steps, k, j);
    }
  }

  /** The step that built a message. */
  ghost function BuiltIn(worlds: seq<World>, steps: seq<Timed>, m: Message): nat
    requires |worlds| == |steps| + 1
  {
    if exists j :: 0 <= j < |steps| && Builds(worlds[j], steps[j], m)
    then var j: nat :| j < |steps| && Builds(worlds[j], steps[j], m); j
    else 0
  }

  /** What a message names in its causal history was shown by the node that built it, before it did. */
  lemma NamedWasShown(hash: Hash, worlds: seq<World>, steps: seq<Timed>, j: nat, m: Message, d: Id) returns (x: Message)
    requires IsRun(hash, worlds, steps) && j < |steps| && Builds(worlds[j], steps[j], m) && d in m.causal
    ensures x.id == d && x in worlds[j].nodes[steps[j].action.node].displayed && x in worlds[j].created.chats
  {
    RunKeeps(hash, worlds, steps, j, false);
    var n := worlds[j].nodes[steps[j].action.node];
    assert Inv(hash, n, [], worlds[j].created, worlds[j].now, false);
    x := RecentMember(n.history, CAUSAL_LENGTH, d);
    HistoryShown(n.displayed, x);
  }

  /** Dependencies are built first, whatever the clocks do. */
  lemma DependencyBuiltFirst(hash: Hash, worlds: seq<World>, steps: seq<Timed>, k: nat, m: Message, b: Message)
    requires IsRun(hash, worlds, steps) && k < |worlds|
    requires m in worlds[k].created.All() && b in worlds[k].created.All() && b.id in m.causal
    ensures BuiltIn(worlds, steps, b) < BuiltIn(worlds, steps, m)
  {
    var j0 := BuiltAt(hash, worlds, steps, k, m);
    var i0 := BuiltAt(hash, worlds, steps, k, b);
    var j, i := BuiltIn(worlds, steps, m), BuiltIn(worlds, steps, b);
    BuiltBefore(hash, worlds, steps, j, k, m);
    var x := NamedWasShown(hash, worlds, steps, j, m, b.id);
    CreatedGrows(hash, worlds, steps, j, k);
    RunKeeps(hash, worlds, steps, k, false);
    assert x == b;
    BuiltBefore(hash, worlds, steps, i, j, b);
  }
}
