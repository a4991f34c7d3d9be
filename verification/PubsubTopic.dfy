/**
 Static-sharding pubsub topic names (waku/v2/protocol/pubsub_topic.go), the
 form "/waku/2/rs/<cluster>/<shard>" of RFC 23/WAKU2-TOPICS. A character of a
 string stands for one byte of a Go string.
 */
module PubsubTopic {
  import opened Wrappers
  import opened ShardCodec

  const DEFAULT_TOPIC: string := "/waku/2/default-waku/proto"
  const PREFIX: string := "/waku/2/rs"

  datatype TopicError =
    | NotWakuPubsubTopic
    | InvalidStructure
    | InvalidShardedTopicPrefix
    | MissingClusterIndex
    | MissingShardNumber
    | InvalidNumberFormat
    | ShardTooLarge
    | SliceOutOfRange // a panic in the source

  datatype Shard = Shard(cluster: Uint16, shard: Uint16)

  // ---------- decimal numbers ----------

  predicate IsDigit(c: char) {
    '0' <= c <= '9'
  }

  function DigitOf(c: char): (d: nat)
    requires IsDigit(c)
    ensures d < 10
  {
    c as int - '0' as int
  }

  function CharOf(d: nat): (c: char)
    requires d < 10
    ensures IsDigit(c) && DigitOf(c) == d
  {
    ('0' as int + d) as char
  }

  predicate AllDigits(s: string) {
    forall i :: 0 <= i < |s| ==> IsDigit(s[i])
  }

  function Value(s: string): nat
    requires AllDigits(s)
  {
    if s == "" then 0 else 10 * Value(s[..|s| - 1]) + DigitOf(s[|s| - 1])
  }

  function Decimal(n: nat): (s: string)
    ensures s != "" && AllDigits(s)
  {
    if n < 10 then [CharOf(n)] else Decimal(n / 10) + [CharOf(n % 10)]
  }

  /** Reading a printed number gives the number. */
  lemma {:induction false} DecimalBack(n: nat)
    ensures Value(Decimal(n)) == n
  {
    if n < 10 {
      assert Value([CharOf(n)][..0]) == 0;
    } else {
      DecimalBack(n / 10);
      assert Decimal(n)[..|Decimal(n)| - 1] == Decimal(n / 10);
    }
  }

  /** What strconv.ParseUint accepts in base 10 with 16 bits: any digits, leading zeros too, up to 65535. */
  function Number(s: string): Option<Uint16> {
    if s != "" && AllDigits(s) && Value(s) < 0x1_0000 then Some(Value(s)) else None
  }

  lemma {:induction false} ValueGrows(s: string, k: nat)
    requires AllDigits(s) && k <= |s|
    ensures Value(s[..k]) <= Value(s)
    decreases |s| - k
  {
    if k == |s| {
      assert s[..k] == s;
    } else {
      assert s[..k + 1][..k] == s[..k];
      ValueGrows(s, k + 1);
    }
  }

  method ParseUint16(s: string) returns (r: Option<Uint16>)
    ensures r == Number(s)
  {
    if s == "" {
      return None;
    }
    var n: nat := 0;
    for k := 0 to |s|
      invariant AllDigits(s[..k]) && n == Value(s[..k]) && n < 0x1_0000
    {
      if !IsDigit(s[k]) {
        return None;
      }
      assert s[..k + 1][..k] == s[..k];
      n := 10 * n + DigitOf(s[k]);
      if n >= 0x1_0000 {
        if AllDigits(s) { ValueGrows(s, k + 1); }
        return None;
      }
    }
    assert s[..|s|] == s;
    r := Some(n);
  }

  // ---------- splitting ----------

  /** strings.Split on '/'. */
  function Split(s: string): (parts: seq<string>)
    ensures |parts| >= 1
  {
    if s == "" then [""]
    else if s[0] == '/' then [""] + Split(s[1..])
    else var rest := Split(s[1..]); [[s[0]] + rest[0]] + rest[1..]
  }

  lemma {:induction false} SplitNone(s: string)
    requires '/' !in s
    ensures Split(s) == [s]
  {
    if s != "" {
      SplitNone(s[1..]);
      assert [s[0]] + s[1..] == s;
    }
  }

  lemma {:induction false} SplitAt(a: string, b: string)
    requires '/' !in a
    ensures Split(a + "/" + b) == [a] + Split(b)
  {
    var s := a + "/" + b;
    if a == "" {
      assert s[1..] == b;
    } else {
      assert s[1..] == a[1..] + "/" + b;
      SplitAt(a[1..], b);
      assert [a[0]] + a[1..] == a;
    }
  }

  lemma {:induction false} SplitOne(s: string)
    requires |Split(s)| == 1
    ensures Split(s)[0] == s && '/' !in s
  {
    if s != "" {
      SplitOne(s[1..]);
      assert s == [s[0]] + s[1..];
    }
  }

  /** Two parts are the two sides of the one '/' in the string. */
  lemma {:induction false} SplitTwo(s: string)
    requires |Split(s)| == 2
    ensures s == Split(s)[0] + "/" + Split(s)[1] && '/' !in Split(s)[0] && '/' !in Split(s)[1]
  {
    var rest := Split(s[1..]);
    if s[0] == '/' {
      SplitOne(s[1..]);
      assert s == "" + "/" + s[1..];
    } else {
      SplitTwo(s[1..]);
      assert s == [s[0]] + (rest[0] + "/" + rest[1]) == ([s[0]] + rest[0]) + "/" + rest[1];
    }
  }

  // ---------- topics ----------

  predicate HasPrefix(topic: string) {
    PREFIX <= topic
  }

  function Print(t: Shard): string {
    PREFIX + "/" + Decimal(t.cluster) + "/" + Decimal(t.shard)
  }

  /** The numbers of the two parts, the cluster's looked at first. */
  function ParseParts(clusterPart: string, shardPart: string): Result<Shard, TopicError> {
    if clusterPart == "" then Err(MissingClusterIndex)
    else if Number(clusterPart).None? then Err(InvalidNumberFormat)
    else if shardPart == "" then Err(MissingShardNumber)
    else if Number(shardPart).None? then Err(InvalidNumberFormat)
    else Ok(Shard(Number(clusterPart).value, Number(shardPart).value))
  }

  /** The character after the prefix is skipped unseen; without one the slice is out of range. */
  function Parsed(topic: string): Result<Shard, TopicError> {
    if !HasPrefix(topic) then Err(InvalidShardedTopicPrefix)
    else if |topic| < 11 then Err(SliceOutOfRange)
    else
      var parts := Split(topic[11..]);
      if |parts| != 2 then Err(InvalidStructure) else ParseParts(parts[0], parts[1])
  }

  /** The receiver of Parse, which writes it only when the whole topic is in order. */
  class StaticShardingPubsubTopic {
    var clusterId: Uint16
    var shardId: Uint16

    constructor ()
      ensures clusterId == 0 && shardId == 0
    {
      clusterId := 0;
      shardId := 0;
    }

    method Parse(topic: string) returns (err: Option<TopicError>)
      modifies this
      ensures err.None? <==> Parsed(topic).Ok?
      ensures err.None? ==> Parsed(topic).value == Shard(clusterId, shardId)
      ensures err.Some? ==> Parsed(topic).error == err.value && unchanged(this)
    {
      if !HasPrefix(topic) {
        return Some(InvalidShardedTopicPrefix);
      }
      if |topic| < 11 {
        return Some(SliceOutOfRange);
      }
      var parts := Split(topic[11..]);
      if |parts| != 2 {
        return Some(InvalidStructure);
      }
      if parts[0] == "" {
        return Some(MissingClusterIndex);
      }
      var cluster := ParseUint16(parts[0]);
      if cluster.None? {
        return Some(InvalidNumberFormat);
      }
      if parts[1] == "" {
        return Some(MissingShardNumber);
      }
      var shard := ParseUint16(parts[1]);
      if shard.None? {
        return Some(InvalidNumberFormat);
      }
      shardId := shard.value;
      clusterId := cluster.value;
      return None;
    }
  }

  lemma NoSlash(n: nat)
    ensures '/' !in Decimal(n)
  {
  }

  /** Parsing a printed topic gives back its cluster and shard. */
  lemma PrintBack(t: Shard)
    ensures HasPrefix(Print(t)) && Parsed(Print(t)) == Ok(t)
  {
    var a, b := Decimal(t.cluster), Decimal(t.shard);
    assert Print(t)[11..] == a + "/" + b;
    NoSlash(t.cluster);
    NoSlash(t.shard);
    SplitAt(a, b);
    SplitNone(b);
    DecimalBack(t.cluster);
    DecimalBack(t.shard);
  }

  /** The prefix, any one character, digits of a cluster, a slash, and digits of a shard. */
  ghost predicate Spells(topic: string, t: Shard, skipped: char, a: string, b: string) {
    topic == PREFIX + [skipped] + a + "/" + b && Number(a) == Some(t.cluster) && Number(b) == Some(t.shard)
  }

  /** Exactly these strings parse. */
  lemma ParsesIff(topic: string, t: Shard)
    ensures Parsed(topic) == Ok(t) <==> exists c, a, b :: Spells(topic, t, c, a, b)
  {
    if Parsed(topic) == Ok(t) {
      var rest := topic[11..];
      SplitTwo(rest);
      var parts := Split(rest);
      assert topic == PREFIX + [topic[10]] + rest;
      assert Spells(topic, t, topic[10], parts[0], parts[1]);
    }
    if c, a, b :| Spells(topic, t, c, a, b) {
      SpelledParses(topic, t, c, a, b);
    }
  }

  lemma SpelledParses(topic: string, t: Shard, c: char, a: string, b: string)
    requires Spells(topic, t, c, a, b)
    ensures Parsed(topic) == Ok(t)
  {
    assert topic[11..] == a + "/" + b;
    SplitAt(a, b);
    SplitNone(b);
  }

  function Slashes(s: string): nat {
    if s == "" then 0 else (if s[0] == '/' then 1 else 0) + Slashes(s[1..])
  }

  /** Splitting gives one part more than there are slashes. */
  lemma {:induction false} SplitCount(s: string)
    ensures |Split(s)| == Slashes(s) + 1
  {
    if s != "" { SplitCount(s[1..]); }
  }

  /**
   Which error a string gives: the missing prefix first; then the shape, which
   is one slash after the skipped character; then the cluster, absent or no
   16-bit number; then the shard likewise.
   */
  lemma ParseErrors(topic: string, skipped: char, a: string, b: string)
    ensures !HasPrefix(topic) <==> Parsed(topic) == Err(InvalidShardedTopicPrefix)
    ensures topic == PREFIX <==> Parsed(topic) == Err(SliceOutOfRange)
    ensures HasPrefix(topic) && |topic| > 10 ==>
      (Slashes(topic[11..]) != 1 <==> Parsed(topic) == Err(InvalidStructure))
    ensures topic == PREFIX + [skipped] + a + "/" + b && '/' !in a && '/' !in b ==>
      && (a == "" <==> Parsed(topic) == Err(MissingClusterIndex))
      && (a != "" && Number(a).Some? && b == "" <==> Parsed(topic) == Err(MissingShardNumber))
      && ((a != "" && Number(a).None?) || (Number(a).Some? && b != "" && Number(b).None?)
          <==> Parsed(topic) == Err(InvalidNumberFormat))
  {
    if HasPrefix(topic) && |topic| > 10 { SplitCount(topic[11..]); }
    if topic == PREFIX + [skipped] + a + "/" + b && '/' !in a && '/' !in b {
      assert topic[11..] == a + "/" + b;
      SplitAt(a, b);
      SplitNone(b);
    }
  }

  datatype Topic = Default | Sharded(id: Shard)

  function ToWakuPubsubTopic(topic: string): Result<Topic, TopicError> {
    if topic == DEFAULT_TOPIC then Ok(Default)
    else if HasPrefix(topic) then
      var p := Parsed(topic);
      if p.Ok? then Ok(Sharded(p.value)) else Err(p.error)
    else Err(NotWakuPubsubTopic)
  }
}
