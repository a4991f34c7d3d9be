/**
 From topic names to relay shards and back (waku/v2/protocol/shard.go): the
 topics of a record, whether a record contains a topic, and the grouping of a
 list of topics into one record per cluster.
 */
module ShardTopics {
  import opened Wrappers
  import opened ShardCodec
  import opened PubsubTopic

  // ---------- membership ----------

  method ContainsAnyShard(rs: RelayShards, cluster: Uint16, indexes: seq<Uint16>) returns (found: bool)
    ensures found <==> rs.clusterId == cluster && exists i :: i in rs.shardIds && i in indexes
  {
    if rs.clusterId != cluster {
      return false;
    }
    for i := 0 to |rs.shardIds|
      invariant forall x :: x in rs.shardIds[..i] ==> x !in indexes
    {
      for j := 0 to |indexes|
        invariant rs.shardIds[i] !in indexes[..j]
      {
        if rs.shardIds[i] == indexes[j] {
          assert rs.shardIds[i] in rs.shardIds && rs.shardIds[i] in indexes;
          return true;
        }
      }
    }
    return false;
  }

  /** The record has the shard that the string names. */
  predicate Accepts(rs: RelayShards, topic: string) {
    Parsed(topic).Ok? && Parsed(topic).value.cluster == rs.clusterId && Parsed(topic).value.shard in rs.shardIds
  }

  lemma DefaultHasNoPrefix()
    ensures !HasPrefix(DEFAULT_TOPIC)
  {
    assert DEFAULT_TOPIC[8] != PREFIX[8];
  }

  lemma BarePrefix(topic: string)
    requires HasPrefix(topic) && |topic| < 11
    ensures topic == PREFIX
  {
  }

  /** The bare prefix panics; every other string is accepted exactly when it parses to a member. */
  method ContainsTopic(rs: RelayShards, topic: string) returns (r: Result<bool, TopicError>)
    ensures topic == PREFIX ==> r == Err(SliceOutOfRange)
    ensures topic != PREFIX ==> r == Ok(Accepts(rs, topic))
  {
    DefaultHasNoPrefix();
    var t := ToWakuPubsubTopic(topic);
    if t == Err(SliceOutOfRange) {
      BarePrefix(topic);
      return Err(SliceOutOfRange);
    }
    if t.Err? || t.value.Default? {
      return Ok(false);
    }
    var id := t.value.id;
    var found := ContainsAnyShard(rs, id.cluster, [id.shard]);
    r := Ok(found);
  }

  function TopicsOf(rs: RelayShards, n: nat): seq<string>
    requires n <= |rs.shardIds|
  {
    if n == 0 then [] else TopicsOf(rs, n - 1) + [Print(Shard(rs.clusterId, rs.shardIds[n - 1]))]
  }

  method Topics(rs: RelayShards) returns (topics: seq<string>)
    ensures topics == TopicsOf(rs, |rs.shardIds|)
  {
    topics := [];
    for k := 0 to |rs.shardIds|
      invariant topics == TopicsOf(rs, k)
    {
      topics := topics + [Print(Shard(rs.clusterId, rs.shardIds[k]))];
    }
  }

  // ---------- grouping ----------

  predicate Names(topic: string, c: Uint16, s: Uint16) {
    Parsed(topic) == Ok(Shard(c, s))
  }

  /** Some topic of the list parses to shard s of cluster c. */
  predicate Named(topics: seq<string>, c: Uint16, s: Uint16) {
    exists k :: 0 <= k < |topics| && Names(topics[k], c, s)
  }

  /** Some record of the list has shard s of cluster c. */
  predicate Listed(records: seq<RelayShards>, c: Uint16, s: Uint16) {
    exists k :: 0 <= k < |records| && records[k].clusterId == c && s in records[k].shardIds
  }

  predicate OnePerCluster(records: seq<RelayShards>) {
    forall i, j :: 0 <= i < j < |records| ==> records[i].clusterId != records[j].clusterId
  }

  /** The error of the first topic that has the prefix and does not parse. */
  function FirstError(topics: seq<string>): Option<TopicError> {
    if topics == [] then None
    else
      var e := FirstError(topics[..|topics| - 1]);
      var t := topics[|topics| - 1];
      if e.Some? then e
      else if HasPrefix(t) && Parsed(t).Err? then Some(Parsed(t).error)
      else None
  }

  ghost predicate TooLarge(topics: seq<string>) {
    exists c: Uint16, s: Uint16 :: Named(topics, c, s) && s > MAX_SHARD_INDEX
  }

  /** What TopicsToRelayShards may answer; the order of records and of their ids is free. */
  ghost predicate Groups(topics: seq<string>, r: Result<seq<RelayShards>, TopicError>) {
    if FirstError(topics).Some? then r == Err(FirstError(topics).value)
    else if TooLarge(topics) then r == Err(ShardTooLarge)
    else
      && r.Ok?
      && OnePerCluster(r.value)
      && (forall k :: 0 <= k < |r.value| ==> r.value[k].shardIds != [] && NoRepeats(r.value[k].shardIds))
      && (forall c, s :: Listed(r.value, c, s) <==> Named(topics, c, s))
  }

  lemma NamedSnoc(topics: seq<string>, t: string, c: Uint16, s: Uint16)
    ensures Named(topics + [t], c, s) <==> Named(topics, c, s) || Names(t, c, s)
  {
    var all := topics + [t];
    if Named(topics, c, s) {
      var k :| 0 <= k < |topics| && Names(topics[k], c, s);
      assert Names(all[k], c, s);
    }
    if Names(t, c, s) {
      assert Names(all[|topics|], c, s);
    }
  }

  type Dict = map<Uint16, set<Uint16>>

  predicate InDict(dict: Dict, c: Uint16, s: Uint16) {
    c in dict && s in dict[c]
  }

  function ShardsIn(dict: Dict, c: Uint16): set<Uint16> {
    if c in dict then dict[c] else {}
  }

  ghost predicate Collects(dict: Dict, topics: seq<string>) {
    && (forall c :: c in dict ==> dict[c] != {})
    && (forall c, s :: InDict(dict, c, s) <==> Named(topics, c, s))
  }

  lemma CollectsSnoc(dict: Dict, topics: seq<string>, t: string, id: Shard)
    requires Collects(dict, topics) && Parsed(t) == Ok(id)
    ensures Collects(dict[id.cluster := ShardsIn(dict, id.cluster) + {id.shard}], topics + [t])
  {
    var now := dict[id.cluster := ShardsIn(dict, id.cluster) + {id.shard}];
    forall c, s ensures InDict(now, c, s) <==> Named(topics + [t], c, s) {
      NamedSnoc(topics, t, c, s);
      assert InDict(dict, c, s) <==> Named(topics, c, s);
    }
  }

  lemma CollectsSkip(dict: Dict, topics: seq<string>, t: string)
    requires Collects(dict, topics) && !HasPrefix(t)
    ensures Collects(dict, topics + [t])
  {
    forall c, s ensures InDict(dict, c, s) <==> Named(topics + [t], c, s) {
      NamedSnoc(topics, t, c, s);
      assert InDict(dict, c, s) <==> Named(topics, c, s);
    }
  }

  /** The first loop: a set of shards for every cluster, or the first error. */
  method Collect(topics: seq<string>) returns (r: Result<Dict, TopicError>)
    ensures FirstError(topics).Some? ==> r == Err(FirstError(topics).value)
    ensures FirstError(topics).None? ==> r.Ok? && Collects(r.value, topics)
  {
    var dict: Dict := map[];
    for k := 0 to |topics|
      invariant Collects(dict, topics[..k]) && FirstError(topics[..k]).None?
    {
      var t := topics[k];
      assert topics[..k + 1] == topics[..k] + [t];
      if !HasPrefix(t) {
        CollectsSkip(dict, topics[..k], t);
        continue;
      }
      var ps := new StaticShardingPubsubTopic();
      var err := ps.Parse(t);
      if err.Some? {
        FirstErrorStays(topics, k + 1);
        return Err(err.value);
      }
      var shardIds := ShardsIn(dict, ps.clusterId);
      CollectsSnoc(dict, topics[..k], t, Shard(ps.clusterId, ps.shardId));
      dict := dict[ps.clusterId := shardIds + {ps.shardId}];
    }
    assert topics[..|topics|] == topics;
    r := Ok(dict);
  }

  lemma {:induction false} FirstErrorStays(topics: seq<string>, k: nat)
    requires k <= |topics| && FirstError(topics[..k]).Some?
    ensures FirstError(topics) == FirstError(topics[..k])
    decreases |topics| - k
  {
    if k == |topics| {
      assert topics[..k] == topics;
    } else {
      assert topics[..k + 1][..k] == topics[..k];
      FirstErrorStays(topics, k + 1);
    }
  }

  /** Records for the clusters seen so far: one each, with exactly the collected shards. */
  ghost predicate Covers(records: seq<RelayShards>, dict: Dict, clusters: set<Uint16>) {
    && OnePerCluster(records)
    && (forall k :: 0 <= k < |records| ==>
          && records[k].clusterId in dict && records[k].clusterId in clusters
          && SetOf(records[k].shardIds) == dict[records[k].clusterId]
          && NoRepeats(records[k].shardIds))
    && (forall c :: c in clusters ==> exists k :: 0 <= k < |records| && records[k].clusterId == c)
  }

  lemma CoversSnoc(records: seq<RelayShards>, dict: Dict, clusters: set<Uint16>, rs: RelayShards)
    requires Covers(records, dict, clusters) && rs.clusterId in dict && rs.clusterId !in clusters
    requires SetOf(rs.shardIds) == dict[rs.clusterId] && NoRepeats(rs.shardIds)
    ensures Covers(records + [rs], dict, clusters + {rs.clusterId})
  {
    var all := records + [rs];
    forall c | c in clusters + {rs.clusterId} ensures exists k :: 0 <= k < |all| && all[k].clusterId == c {
      if c == rs.clusterId {
        assert all[|records|].clusterId == c;
      } else {
        var k :| 0 <= k < |records| && records[k].clusterId == c;
        assert all[k].clusterId == c;
      }
    }
  }

  lemma CoversListed(records: seq<RelayShards>, dict: Dict, c: Uint16, s: Uint16)
    requires Covers(records, dict, dict.Keys)
    ensures Listed(records, c, s) <==> InDict(dict, c, s)
  {
    if Listed(records, c, s) {
      var k :| 0 <= k < |records| && records[k].clusterId == c && s in records[k].shardIds;
      assert s in SetOf(records[k].shardIds);
    }
    if InDict(dict, c, s) {
      var k :| 0 <= k < |records| && records[k].clusterId == c;
      assert s in SetOf(records[k].shardIds);
    }
  }

  ghost predicate DictTooLarge(dict: Dict) {
    exists c: Uint16, s: Uint16 :: InDict(dict, c, s) && s > MAX_SHARD_INDEX
  }

  /** The second loop: a record for every cluster. */
  method MakeRecords(dict: Dict) returns (r: Result<seq<RelayShards>, TopicError>)
    requires forall c :: c in dict ==> dict[c] != {}
    ensures DictTooLarge(dict) ==> r == Err(ShardTooLarge)
    ensures !DictTooLarge(dict) ==> r.Ok? && Covers(r.value, dict, dict.Keys)
  {
    var records: seq<RelayShards> := [];
    var rest := dict.Keys;
    while rest != {}
      invariant rest <= dict.Keys
      invariant Covers(records, dict, dict.Keys - rest)
      invariant forall c: Uint16, s: Uint16 :: c !in rest && InDict(dict, c, s) ==> s <= MAX_SHARD_INDEX
      decreases |rest|
    {
      var c :| c in rest;
      var idx := KeysOf(dict[c]);
      EmptySet(idx);
      var rs := NewRelayShards(c, idx);
      if rs.Err? {
        var s :| s in idx && s > MAX_SHARD_INDEX;
        assert s in SetOf(idx);
        assert InDict(dict, c, s);
        return Err(ShardTooLarge);
      }
      CoversSnoc(records, dict, dict.Keys - rest, rs.value);
      assert dict.Keys - rest + {c} == dict.Keys - (rest - {c});
      forall s: Uint16 | InDict(dict, c, s) ensures s <= MAX_SHARD_INDEX {
        assert s in SetOf(idx);
      }
      records := records + [rs.value];
      rest := rest - {c};
    }
    assert dict.Keys - {} == dict.Keys;
    r := Ok(records);
  }

  method TopicsToRelayShards(topics: seq<string>) returns (r: Result<seq<RelayShards>, TopicError>)
    ensures Groups(topics, r)
  {
    var collected := Collect(topics);
    if collected.Err? {
      return Err(collected.error);
    }
    var dict := collected.value;
    r := MakeRecords(dict);
    TooLargeAgrees(dict, topics);
    if r.Ok? {
      RecordsGroup(r.value, dict, topics);
    }
  }

  lemma TooLargeAgrees(dict: Dict, topics: seq<string>)
    requires Collects(dict, topics)
    ensures DictTooLarge(dict) <==> TooLarge(topics)
  {
    if DictTooLarge(dict) {
      var c: Uint16, s: Uint16 :| InDict(dict, c, s) && s > MAX_SHARD_INDEX;
      assert Named(topics, c, s);
    }
    if TooLarge(topics) {
      var c: Uint16, s: Uint16 :| Named(topics, c, s) && s > MAX_SHARD_INDEX;
      assert InDict(dict, c, s);
    }
  }

  lemma RecordsGroup(records: seq<RelayShards>, dict: Dict, topics: seq<string>)
    requires Collects(dict, topics) && Covers(records, dict, dict.Keys)
    requires FirstError(topics).None? && !TooLarge(topics)
    ensures Groups(topics, Ok(records))
  {
    forall k | 0 <= k < |records| ensures records[k].shardIds != [] {
      EmptySet(records[k].shardIds);
    }
    forall c, s ensures Listed(records, c, s) <==> Named(topics, c, s) {
      CoversListed(records, dict, c, s);
      assert InDict(dict, c, s) <==> Named(topics, c, s);
    }
  }

  // ---------- printing and regrouping ----------

  function AllTopics(records: seq<RelayShards>): seq<string> {
    if records == [] then []
    else
      var last := records[|records| - 1];
      AllTopics(records[..|records| - 1]) + TopicsOf(last, |last.shardIds|)
  }

  predicate AllParse(topics: seq<string>) {
    forall k :: 0 <= k < |topics| ==> Parsed(topics[k]).Ok?
  }

  lemma NamedAppend(a: seq<string>, b: seq<string>, c: Uint16, s: Uint16)
    ensures Named(a + b, c, s) <==> Named(a, c, s) || Named(b, c, s)
  {
    if Named(a, c, s) {
      var k :| 0 <= k < |a| && Names(a[k], c, s);
      assert Names((a + b)[k], c, s);
    }
    if Named(b, c, s) {
      var k :| 0 <= k < |b| && Names(b[k], c, s);
      assert Names((a + b)[|a| + k], c, s);
    }
  }

  lemma {:induction false} TopicsName(rs: RelayShards, n: nat, c: Uint16, s: Uint16)
    requires n <= |rs.shardIds|
    ensures Named(TopicsOf(rs, n), c, s) <==> c == rs.clusterId && s in rs.shardIds[..n]
    ensures AllParse(TopicsOf(rs, n))
    decreases n
  {
    if n > 0 {
      TopicsName(rs, n - 1, c, s);
      var id := Shard(rs.clusterId, rs.shardIds[n - 1]);
      PrintBack(id);
      NamedSnoc(TopicsOf(rs, n - 1), Print(id), c, s);
      assert rs.shardIds[..n] == rs.shardIds[..n - 1] + [rs.shardIds[n - 1]];
    }
  }

  lemma ListedSnoc(records: seq<RelayShards>, rs: RelayShards, c: Uint16, s: Uint16)
    ensures Listed(records + [rs], c, s) <==> Listed(records, c, s) || (c == rs.clusterId && s in rs.shardIds)
  {
    var all := records + [rs];
    if Listed(records, c, s) {
      var k :| 0 <= k < |records| && records[k].clusterId == c && s in records[k].shardIds;
      assert all[k].clusterId == c && s in all[k].shardIds;
    }
    if c == rs.clusterId && s in rs.shardIds {
      assert all[|records|] == rs;
    }
  }

  lemma {:induction false} AllTopicsName(records: seq<RelayShards>, c: Uint16, s: Uint16)
    ensures Named(AllTopics(records), c, s) <==> Listed(records, c, s)
    ensures AllParse(AllTopics(records))
    decreases |records|
  {
    if records != [] {
      var front, last := records[..|records| - 1], records[|records| - 1];
      AllTopicsName(front, c, s);
      TopicsName(last, |last.shardIds|, c, s);
      NamedAppend(AllTopics(front), TopicsOf(last, |last.shardIds|), c, s);
      ListedSnoc(front, last, c, s);
      assert front + [last] == records && last.shardIds[..|last.shardIds|] == last.shardIds;
    }
  }

  lemma {:induction false} ParsingHasNoError(topics: seq<string>)
    requires AllParse(topics)
    ensures FirstError(topics).None?
    decreases |topics|
  {
    if topics != [] {
      ParsingHasNoError(topics[..|topics| - 1]);
    }
  }

  predicate AllRecordsValid(records: seq<RelayShards>) {
    forall k :: 0 <= k < |records| ==> AllValid(records[k].shardIds)
  }

  /** Printing keeps every id, so grouping meets one that is too large exactly when a record has one. */
  lemma PrintedInRange(records: seq<RelayShards>)
    ensures TooLarge(AllTopics(records)) <==> !AllRecordsValid(records)
  {
    forall c: Uint16, s: Uint16 ensures Named(AllTopics(records), c, s) <==> Listed(records, c, s) {
      AllTopicsName(records, c, s);
    }
    if !AllRecordsValid(records) {
      var k :| 0 <= k < |records| && !AllValid(records[k].shardIds);
      var s :| s in records[k].shardIds && s > MAX_SHARD_INDEX;
      assert Listed(records, records[k].clusterId, s);
      assert Named(AllTopics(records), records[k].clusterId, s);
    }
  }

  /** The clusters that some id belongs to. */
  function UsedClusters(records: seq<RelayShards>): set<Uint16> {
    set k | 0 <= k < |records| && records[k].shardIds != [] :: records[k].clusterId
  }

  /**
   Printing the topics of any records and grouping them again succeeds if and
   only if no id is past 1023. It gives the same shards of the same clusters,
   in one record for each cluster that has any.
   */
  lemma Regrouped(records: seq<RelayShards>, r: Result<seq<RelayShards>, TopicError>)
    requires Groups(AllTopics(records), r)
    ensures r.Ok? <==> AllRecordsValid(records)
    ensures r.Err? ==> r.error == ShardTooLarge
    ensures r.Ok? ==> OnePerCluster(r.value) && forall c, s :: Listed(r.value, c, s) <==> Listed(records, c, s)
    ensures r.Ok? ==> |r.value| == |UsedClusters(records)|
  {
    AllTopicsName(records, 0, 0);
    ParsingHasNoError(AllTopics(records));
    PrintedInRange(records);
    forall c, s ensures Named(AllTopics(records), c, s) <==> Listed(records, c, s) {
      AllTopicsName(records, c, s);
    }
    if r.Ok? {
      SameClusters(records, r.value);
      ClusterCount(r.value);
    }
  }

  lemma UsedIffListed(a: seq<RelayShards>, c: Uint16)
    ensures c in UsedClusters(a) <==> exists s :: Listed(a, c, s)
  {
    if c in UsedClusters(a) {
      var k :| 0 <= k < |a| && a[k].shardIds != [] && a[k].clusterId == c;
      assert Listed(a, c, a[k].shardIds[0]);
    }
    if s :| Listed(a, c, s) {
      var k :| 0 <= k < |a| && a[k].clusterId == c && s in a[k].shardIds;
      assert a[k].clusterId in UsedClusters(a);
    }
  }

  lemma SameClusters(a: seq<RelayShards>, b: seq<RelayShards>)
    requires forall k :: 0 <= k < |b| ==> b[k].shardIds != []
    requires forall c, s :: Listed(a, c, s) <==> Listed(b, c, s)
    ensures UsedClusters(a) == Clusters(b)
  {
    assert Clusters(b) == UsedClusters(b);
    forall c: Uint16 ensures c in UsedClusters(a) <==> c in UsedClusters(b) {
      UsedIffListed(a, c);
      UsedIffListed(b, c);
    }
  }

  /**
   When no cluster appears twice, a record comes back with its set of ids if
   and only if it has any; when none is empty, there are as many as before.
   */
  lemma RegroupedRecord(records: seq<RelayShards>, r: Result<seq<RelayShards>, TopicError>, i: nat)
    requires OnePerCluster(records) && i < |records|
    requires Groups(AllTopics(records), r) && r.Ok?
    ensures (exists j :: 0 <= j < |r.value| && SameRecord(r.value[j], records[i])) <==> records[i].shardIds != []
    ensures (forall k :: 0 <= k < |records| ==> records[k].shardIds != []) ==> |r.value| == |records|
  {
    Regrouped(records, r);
    PrintedInRange(records);
    if records[i].shardIds != [] {
      MatchingRecord(records, r.value, i);
    } else if j :| 0 <= j < |r.value| && SameRecord(r.value[j], records[i]) {
      EmptySet(records[i].shardIds);
      EmptySet(r.value[j].shardIds);
    }
    if forall k :: 0 <= k < |records| ==> records[k].shardIds != [] {
      assert UsedClusters(records) == Clusters(records);
      ClusterCount(records);
    }
  }

  predicate SameRecord(a: RelayShards, b: RelayShards) {
    a.clusterId == b.clusterId && SetOf(a.shardIds) == SetOf(b.shardIds)
  }

  ghost predicate SameShards(a: seq<RelayShards>, b: seq<RelayShards>) {
    && OnePerCluster(a) && OnePerCluster(b)
    && (forall c, s :: Listed(a, c, s) <==> Listed(b, c, s))
  }

  lemma ListedAt(a: seq<RelayShards>, i: nat, s: Uint16)
    requires OnePerCluster(a) && i < |a|
    ensures Listed(a, a[i].clusterId, s) <==> s in a[i].shardIds
  {
    if Listed(a, a[i].clusterId, s) {
      var k :| 0 <= k < |a| && a[k].clusterId == a[i].clusterId && s in a[k].shardIds;
      assert k == i;
    }
  }

  lemma MatchingRecord(a: seq<RelayShards>, b: seq<RelayShards>, i: nat)
    requires SameShards(a, b) && i < |a| && a[i].shardIds != []
    ensures exists j :: 0 <= j < |b| && SameRecord(b[j], a[i])
  {
    var c := a[i].clusterId;
    ListedAt(a, i, a[i].shardIds[0]);
    assert Listed(b, c, a[i].shardIds[0]);
    var j :| 0 <= j < |b| && b[j].clusterId == c;
    forall s: Uint16 ensures s in SetOf(b[j].shardIds) <==> s in SetOf(a[i].shardIds) {
      ListedAt(a, i, s);
      ListedAt(b, j, s);
      assert Listed(a, c, s) <==> Listed(b, c, s);
    }
    assert SameRecord(b[j], a[i]);
  }

  function Clusters(a: seq<RelayShards>): set<Uint16> {
    set k | 0 <= k < |a| :: a[k].clusterId
  }

  lemma {:induction false} ClusterCount(a: seq<RelayShards>)
    requires OnePerCluster(a)
    ensures |Clusters(a)| == |a|
    decreases |a|
  {
    if a != [] {
      var front, last := a[..|a| - 1], a[|a| - 1];
      ClusterCount(front);
      assert forall k :: 0 <= k < |front| ==> front[k] == a[k];
      forall c ensures c in Clusters(a) <==> c in Clusters(front) + {last.clusterId} {
        if c in Clusters(front) {
          var k :| 0 <= k < |front| && front[k].clusterId == c;
          assert a[k].clusterId == c;
        }
        if c == last.clusterId { assert a[|a| - 1].clusterId == c; }
      }
      assert Clusters(a) == Clusters(front) + {last.clusterId};
    }
  }
}
