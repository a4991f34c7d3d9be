/**
 Relay shards and their two wire forms (waku/v2/protocol/shard.go): the list
 of shard ids, and the 128-byte bit vector in which bit `i % 8` of byte `i / 8`
 stands for shard i. Ids are 16-bit numbers.
 */
module ShardCodec {
  import opened GoTypes
  import opened Wrappers

  const MAX_SHARD_INDEX: int := 1023

  type Uint16 = x: int | 0 <= x < 0x1_0000

  datatype Error =
    | InvalidShard
    | InvalidShardCount
    | Expected130Bytes
    | InsufficientData
    | LengthMismatch
    | IndexOutOfRange // a panic in the source

  datatype RelayShards = RelayShards(clusterId: Uint16, shardIds: seq<Uint16>)

  function SetOf(ids: seq<Uint16>): set<Uint16> {
    set i | i in ids
  }

  predicate NoRepeats(ids: seq<Uint16>) {
    forall i, j :: 0 <= i < j < |ids| ==> ids[i] != ids[j]
  }

  predicate Ascending(ids: seq<Uint16>) {
    forall i, j :: 0 <= i < j < |ids| ==> ids[i] < ids[j]
  }

  predicate AllValid(ids: seq<Uint16>) {
    forall i :: i in ids ==> i <= MAX_SHARD_INDEX
  }

  // ---------- NewRelayShards ----------

  /** What NewRelayShards may answer: the ids come back once each, in no particular order. */
  predicate Made(cluster: Uint16, ids: seq<Uint16>, r: Result<RelayShards, Error>) {
    if !AllValid(ids) then r == Err(InvalidShard)
    else if ids == [] then r == Err(InvalidShardCount)
    else r.Ok? && r.value.clusterId == cluster && NoRepeats(r.value.shardIds) && SetOf(r.value.shardIds) == SetOf(ids)
  }

  method NewRelayShards(cluster: Uint16, ids: seq<Uint16>) returns (r: Result<RelayShards, Error>)
    ensures Made(cluster, ids, r)
  {
    var seen: set<Uint16> := {};
    for k := 0 to |ids|
      invariant seen == SetOf(ids[..k])
      invariant AllValid(ids[..k])
    {
      if ids[k] > MAX_SHARD_INDEX {
        assert ids[k] in ids;
        return Err(InvalidShard);
      }
      assert ids[..k + 1] == ids[..k] + [ids[k]];
      seen := seen + {ids[k]};
    }
    assert ids[..|ids|] == ids;
    if seen == {} {
      EmptySet(ids);
      return Err(InvalidShardCount);
    }
    var unique := KeysOf(seen);
    r := Ok(RelayShards(cluster, unique));
  }

  lemma EmptySet(ids: seq<Uint16>)
    ensures SetOf(ids) == {} <==> ids == []
  {
    if ids != [] {
      assert ids[0] in SetOf(ids);
    }
  }

  /** The keys of a Go map, in whatever order it gives them. */
  method KeysOf(keys: set<Uint16>) returns (unique: seq<Uint16>)
    ensures NoRepeats(unique) && SetOf(unique) == keys
  {
    unique := [];
    var rest := keys;
    while rest != {}
      invariant SetOf(unique) + rest == keys && SetOf(unique) !! rest
      invariant NoRepeats(unique)
      decreases |rest|
    {
      var i :| i in rest;
      SnocUnique(unique, i);
      rest := rest - {i};
      unique := unique + [i];
    }
  }

  lemma SnocUnique(s: seq<Uint16>, x: Uint16)
    requires NoRepeats(s) && x !in SetOf(s)
    ensures NoRepeats(s + [x]) && SetOf(s + [x]) == SetOf(s) + {x}
  {
    forall i | 0 <= i < |s| ensures s[i] != x {
      assert s[i] in SetOf(s);
    }
  }

  // ---------- bits ----------

  /** 1 << pos. */
  function Weight(pos: nat): (w: nat)
    ensures w > 0
  {
    if pos == 0 then 1 else 2 * Weight(pos - 1)
  }

  /** n & (1 << pos) > 0: binary digit `pos` of n is 1. */
  predicate HasBit(n: nat, pos: nat) {
    if pos == 0 then n % 2 == 1 else HasBit(n / 2, pos - 1)
  }

  /** n | (1 << pos). */
  function SetBit(n: nat, pos: nat): nat {
    if HasBit(n, pos) then n else n + Weight(pos)
  }

  lemma SetBitHalf(n: nat, p: nat)
    requires p > 0
    ensures SetBit(n, p) / 2 == SetBit(n / 2, p - 1) && SetBit(n, p) % 2 == n % 2
  {
  }

  /** Setting a bit sets that bit and no other. */
  lemma {:induction false} SetBitSets(n: nat, p: nat, q: nat)
    ensures HasBit(SetBit(n, p), q) <==> HasBit(n, q) || p == q
    decreases p
  {
    if p == 0 {
      assert SetBit(n, 0) / 2 == n / 2 && SetBit(n, 0) % 2 == 1;
    } else {
      SetBitHalf(n, p);
      if q > 0 {
        SetBitSets(n / 2, p - 1, q - 1);
      }
    }
  }

  /** A number of k binary digits stays one when one of them is set. */
  lemma {:induction false} SetBitFits(n: nat, p: nat, k: nat)
    requires p < k && n < Weight(k)
    ensures SetBit(n, p) < Weight(k)
    decreases p
  {
    if p == 0 {
      assert SetBit(n, 0) / 2 == n / 2;
    } else {
      SetBitHalf(n, p);
      SetBitFits(n / 2, p - 1, k - 1);
    }
  }

  /** A number below 1 << k is its k lowest bits. */
  lemma {:induction false} BitsDetermine(a: nat, b: nat, k: nat)
    requires a < Weight(k) && b < Weight(k)
    requires forall p: nat :: p < k ==> (HasBit(a, p) <==> HasBit(b, p))
    ensures a == b
    decreases k
  {
    if k > 0 {
      assert HasBit(a, 0) <==> HasBit(b, 0);
      forall p: nat | p < k - 1 ensures HasBit(a / 2, p) <==> HasBit(b / 2, p) {
        assert HasBit(a, p + 1) <==> HasBit(b, p + 1);
      }
      BitsDetermine(a / 2, b / 2, k - 1);
    }
  }

  // ---------- 16-bit numbers in network byte order ----------

  function BigEndian(x: Uint16): Bytes {
    [x / 256, x % 256]
  }

  function FromBigEndian(high: Byte, low: Byte): Uint16 {
    high * 256 + low
  }

  /** Network byte order: numbers compare as their encodings do, from the first byte on. */
  lemma NetworkOrder(x: Uint16, y: Uint16)
    ensures var a, b := BigEndian(x), BigEndian(y);
            x < y <==> a[0] < b[0] || (a[0] == b[0] && a[1] < b[1])
  {
    assert x == 256 * (x / 256) + x % 256 && y == 256 * (y / 256) + y % 256;
  }

  lemma HeaderBack(high: Byte, low: Byte)
    ensures BigEndian(FromBigEndian(high, low)) == [high, low]
  {
    var x := FromBigEndian(high, low);
    assert x / 256 == high && x % 256 == low;
  }

  // ---------- the bit vector ----------

  /** Is bit i of the vector on? */
  predicate BitAt(vec: Bytes, i: nat)
    requires |vec| == 128 && i < 1024
  {
    HasBit(vec[i / 8], i % 8)
  }

  lemma ByteWeight()
    ensures Weight(8) == 256
  {
    assert Weight(4) == 16;
  }

  /** Byte k of the vector of a list of ids, from its lowest `n` bits. */
  function ByteOf(ids: seq<Uint16>, k: nat, n: nat): Byte
    requires n <= 8
  {
    if n == 0 then 0
    else
      var b := ByteOf(ids, k, n - 1);
      ByteWeight(); SetBitFits(b, n - 1, 8);
      if 8 * k + n - 1 in ids then SetBit(b, n - 1) else b
  }

  lemma {:induction false} NoBits(p: nat)
    ensures !HasBit(0, p)
  {
    if p > 0 {
      NoBits(p - 1);
    }
  }

  lemma {:induction false} ByteOfBits(ids: seq<Uint16>, k: nat, n: nat, p: nat)
    requires n <= 8
    ensures HasBit(ByteOf(ids, k, n), p) <==> p < n && 8 * k + p in ids
    decreases n
  {
    if n == 0 {
      NoBits(p);
    } else {
      ByteOfBits(ids, k, n - 1, p);
      SetBitSets(ByteOf(ids, k, n - 1), n - 1, p);
    }
  }

  function Vector(ids: seq<Uint16>): Bytes {
    seq(128, k requires 0 <= k < 128 => ByteOf(ids, k, 8))
  }

  /** The ids below n whose bit is on, in ascending order. */
  function IdsBelow(vec: Bytes, n: nat): seq<Uint16>
    requires |vec| == 128 && n <= 1024
  {
    if n == 0 then []
    else IdsBelow(vec, n - 1) + if BitAt(vec, n - 1) then [n - 1] else []
  }

  lemma {:induction false} IdsBelowAre(vec: Bytes, n: nat)
    requires |vec| == 128 && n <= 1024
    ensures Ascending(IdsBelow(vec, n))
    ensures forall i: Uint16 :: i in IdsBelow(vec, n) <==> i < n && BitAt(vec, i)
  {
    if n > 0 {
      IdsBelowAre(vec, n - 1);
      var before := IdsBelow(vec, n - 1);
      assert forall i :: 0 <= i < |before| ==> before[i] in before;
    }
  }

  lemma VectorBits(ids: seq<Uint16>, i: nat)
    requires i < 1024
    ensures BitAt(Vector(ids), i) <==> i in ids
  {
    assert 8 * (i / 8) + i % 8 == i;
    ByteOfBits(ids, i / 8, 8, i % 8);
  }

  predicate SameVector(a: Bytes, b: Bytes) {
    |a| == |b| == 128 && forall i :: 0 <= i < 1024 ==> (BitAt(a, i) <==> BitAt(b, i))
  }

  lemma VectorDetermined(a: Bytes, b: Bytes)
    requires SameVector(a, b)
    ensures a == b
  {
    forall k | 0 <= k < 128 ensures a[k] == b[k] {
      forall p: nat | p < 8 ensures HasBit(a[k], p) <==> HasBit(b[k], p) {
        var i := 8 * k + p;
        assert i / 8 == k && i % 8 == p;
        assert BitAt(a, i) <==> BitAt(b, i);
      }
      ByteWeight();
      BitsDetermine(a[k], b[k], 8);
    }
  }

  /** The wire form: the cluster in network byte order, then the vector. */
  function BitVectorOf(rs: RelayShards): Bytes {
    BigEndian(rs.clusterId) + Vector(rs.shardIds)
  }

  lemma {:induction false} ByteOfOne(id: Uint16, k: nat, n: nat)
    requires n <= 8
    ensures ByteOf([id], k, n) == if 8 * k <= id < 8 * k + n then Weight(id - 8 * k) else 0
    decreases n
  {
    if n > 0 {
      ByteOfOne(id, k, n - 1);
      NoBits(n - 1);
    }
  }

  /** A single shard is one bit: the one of weight 2^(id % 8) in byte id / 8 of the vector, counted from its front. */
  lemma OneShard(cluster: Uint16, id: Uint16, k: nat)
    requires id <= MAX_SHARD_INDEX && k < 128
    ensures |BitVectorOf(RelayShards(cluster, [id]))| == 130
    ensures BitVectorOf(RelayShards(cluster, [id]))[2 + k] == if k == id / 8 then Weight(id % 8) else 0
  {
    ByteOfOne(id, k, 8);
    assert Vector([id])[k] == ByteOf([id], k, 8);
    assert id == 8 * (id / 8) + id % 8;
  }

  function FromBitVectorOf(buf: Bytes): Result<RelayShards, Error> {
    if |buf| != 130 then Err(Expected130Bytes)
    else Ok(RelayShards(FromBigEndian(buf[0], buf[1]), IdsBelow(buf[2..], 1024)))
  }

  /** An id past 1023 indexes outside the vector. */
  method BitVector(rs: RelayShards) returns (r: Result<Bytes, Error>)
    ensures r == if AllValid(rs.shardIds) then Ok(BitVectorOf(rs)) else Err(IndexOutOfRange)
  {
    var ids := rs.shardIds;
    var vec := new Byte[128](_ => 0);
    forall i | 0 <= i < 1024 ensures !BitAt(vec[..], i) { NoBits(i % 8); }
    for k := 0 to |ids|
      invariant forall i: Uint16 :: i < 1024 ==> (BitAt(vec[..], i) <==> i in ids[..k])
      invariant AllValid(ids[..k])
    {
      var index := ids[k];
      assert index in ids;
      if index / 8 >= vec.Length {
        return Err(IndexOutOfRange);
      }
      ghost var before := vec[..];
      ByteWeight();
      SetBitFits(vec[index / 8], index % 8, 8);
      vec[index / 8] := SetBit(vec[index / 8], index % 8);
      assert vec[..] == before[index / 8 := SetBit(before[index / 8], index % 8)];
      assert ids[..k + 1] == ids[..k] + [index];
      forall i: Uint16 | i < 1024 ensures BitAt(vec[..], i) <==> i in ids[..k + 1] {
        BitStored(before, index, i);
      }
    }
    assert ids[..|ids|] == ids;
    forall i | 0 <= i < 1024 ensures BitAt(vec[..], i) <==> BitAt(Vector(ids), i) {
      VectorBits(ids, i);
    }
    VectorDetermined(vec[..], Vector(ids));
    r := Ok(BigEndian(rs.clusterId) + vec[..]);
  }

  /** Storing bit x changes the answer for x and for no other bit. */
  lemma BitStored(vec: Bytes, x: nat, i: nat)
    requires |vec| == 128 && x < 1024 && i < 1024
    requires SetBit(vec[x / 8], x % 8) < 256
    ensures BitAt(vec[x / 8 := SetBit(vec[x / 8], x % 8)], i) <==> BitAt(vec, i) || i == x
  {
    SetBitSets(vec[x / 8], x % 8, i % 8);
  }

  lemma NextId(vec: Bytes, i: nat, j: nat)
    requires |vec| == 128 && i < 128 && j < 8
    ensures IdsBelow(vec, 8 * i + j + 1) == IdsBelow(vec, 8 * i + j) + if HasBit(vec[i], j) then [8 * i + j] else []
  {
    assert (8 * i + j) / 8 == i && (8 * i + j) % 8 == j;
  }

  method FromBitVector(buf: Bytes) returns (r: Result<RelayShards, Error>)
    ensures r == FromBitVectorOf(buf)
  {
    if |buf| != 130 {
      return Err(Expected130Bytes);
    }
    var vec := buf[2..];
    var ids: seq<Uint16> := [];
    for i := 0 to 128
      invariant ids == IdsBelow(vec, 8 * i)
    {
      for j := 0 to 8
        invariant ids == IdsBelow(vec, 8 * i + j)
      {
        NextId(vec, i, j);
        if HasBit(vec[i], j) {
          ids := ids + [j + 8 * i];
        }
      }
    }
    r := Ok(RelayShards(FromBigEndian(buf[0], buf[1]), ids));
  }

  /** Decoding what was encoded gives the same cluster and the same ids, ascending and once each. */
  lemma BitVectorRoundTrip(rs: RelayShards)
    requires AllValid(rs.shardIds)
    ensures var r := FromBitVectorOf(BitVectorOf(rs));
            && r.Ok? && r.value.clusterId == rs.clusterId
            && Ascending(r.value.shardIds) && SetOf(r.value.shardIds) == SetOf(rs.shardIds)
  {
    var ids := rs.shardIds;
    assert BitVectorOf(rs)[2..] == Vector(ids);
    IdsBelowAre(Vector(ids), 1024);
    var back := IdsBelow(Vector(ids), 1024);
    forall i: Uint16 ensures i in SetOf(back) <==> i in SetOf(ids) {
      if i < 1024 { VectorBits(ids, i); }
    }
  }

  /** Every buffer of 130 bytes decodes to valid ids ... */
  lemma FromBitVectorValid(buf: Bytes)
    requires |buf| == 130
    ensures FromBitVectorOf(buf).Ok? && AllValid(FromBitVectorOf(buf).value.shardIds)
  {
    IdsBelowAre(buf[2..], 1024);
  }

  /** ... and is the encoding of what it decodes to. */
  lemma BitVectorOnto(buf: Bytes)
    requires |buf| == 130
    ensures BitVectorOf(FromBitVectorOf(buf).value) == buf
  {
    var vec := buf[2..];
    var ids := IdsBelow(vec, 1024);
    IdsBelowAre(vec, 1024);
    forall i | 0 <= i < 1024 ensures BitAt(Vector(ids), i) <==> BitAt(vec, i) {
      VectorBits(ids, i);
    }
    VectorDetermined(Vector(ids), vec);
    HeaderBack(buf[0], buf[1]);
    assert buf == [buf[0], buf[1]] + vec;
  }

  /** Two records share an encoding exactly when they have the same cluster and the same set of ids. */
  lemma BitVectorInjective(a: RelayShards, b: RelayShards)
    requires AllValid(a.shardIds) && AllValid(b.shardIds)
    ensures BitVectorOf(a) == BitVectorOf(b) <==> a.clusterId == b.clusterId && SetOf(a.shardIds) == SetOf(b.shardIds)
  {
    BitVectorRoundTrip(a);
    BitVectorRoundTrip(b);
    if a.clusterId == b.clusterId && SetOf(a.shardIds) == SetOf(b.shardIds) {
      forall i | 0 <= i < 1024 ensures BitAt(Vector(a.shardIds), i) <==> BitAt(Vector(b.shardIds), i) {
        VectorBits(a.shardIds, i);
        VectorBits(b.shardIds, i);
        assert i in SetOf(a.shardIds) <==> i in SetOf(b.shardIds);
      }
      VectorDetermined(Vector(a.shardIds), Vector(b.shardIds));
    }
  }

  // ---------- the shard list ----------

  function Words(ids: seq<Uint16>): Bytes {
    if ids == [] then [] else Words(ids[..|ids| - 1]) + BigEndian(ids[|ids| - 1])
  }

  /** Cluster, the number of ids cut to one byte, and the ids. */
  function ShardListOf(rs: RelayShards): Bytes {
    BigEndian(rs.clusterId) + [|rs.shardIds| % 256] + Words(rs.shardIds)
  }

  /** The ids that bytes 3 onward hold. */
  function ReadWords(buf: Bytes, n: nat): (ids: seq<Uint16>)
    requires |buf| == 3 + 2 * n
    ensures |ids| == n && forall i :: 0 <= i < n ==> ids[i] == FromBigEndian(buf[3 + 2 * i], buf[4 + 2 * i])
  {
    seq(n, i requires 0 <= i < n => FromBigEndian(buf[3 + 2 * i], buf[4 + 2 * i]))
  }

  /** What FromShardList may answer. */
  predicate ListDecodes(buf: Bytes, r: Result<RelayShards, Error>) {
    if |buf| < 3 then r == Err(InsufficientData)
    else
      var length: nat := buf[2];
      if |buf| != 3 + 2 * length then r == Err(LengthMismatch)
      else Made(FromBigEndian(buf[0], buf[1]), ReadWords(buf, length), r)
  }

  method ShardList(rs: RelayShards) returns (r: Bytes)
    ensures r == ShardListOf(rs)
  {
    r := BigEndian(rs.clusterId);
    r := r + [|rs.shardIds| % 256];
    for k := 0 to |rs.shardIds|
      invariant r == BigEndian(rs.clusterId) + [|rs.shardIds| % 256] + Words(rs.shardIds[..k])
    {
      assert rs.shardIds[..k + 1][..k] == rs.shardIds[..k];
      r := r + BigEndian(rs.shardIds[k]);
    }
    assert rs.shardIds[..|rs.shardIds|] == rs.shardIds;
  }

  method FromShardList(buf: Bytes) returns (r: Result<RelayShards, Error>)
    ensures ListDecodes(buf, r)
  {
    if |buf| < 3 {
      return Err(InsufficientData);
    }
    var cluster := FromBigEndian(buf[0], buf[1]);
    var length: nat := buf[2];
    if |buf| != 3 + 2 * length {
      return Err(LengthMismatch);
    }
    var ids := new Uint16[length];
    for i := 0 to length
      invariant forall k :: 0 <= k < i ==> ids[k] == FromBigEndian(buf[3 + 2 * k], buf[4 + 2 * k])
    {
      ids[i] := FromBigEndian(buf[3 + 2 * i], buf[4 + 2 * i]);
    }
    assert ids[..] == ReadWords(buf, length);
    r := NewRelayShards(cluster, ids[..]);
  }

  lemma {:induction false} WordsAt(ids: seq<Uint16>, i: nat)
    requires i < |ids|
    ensures |Words(ids)| == 2 * |ids|
    ensures Words(ids)[2 * i] == ids[i] / 256 && Words(ids)[2 * i + 1] == ids[i] % 256
    decreases |ids|
  {
    var front := ids[..|ids| - 1];
    if |ids| > 1 {
      WordsAt(front, if i < |front| then i else 0);
    }
  }

  lemma WordsLength(ids: seq<Uint16>)
    ensures |Words(ids)| == 2 * |ids|
  {
    if ids != [] {
      WordsAt(ids, 0);
    }
  }

  /**
   What comes back from an encoded list, for every record: the same cluster and
   the same set of ids when there are 1 to 255 of them and none is past 1023,
   and one particular error otherwise.
   */
  lemma ShardListRoundTrip(rs: RelayShards, r: Result<RelayShards, Error>)
    requires ListDecodes(ShardListOf(rs), r)
    ensures if |rs.shardIds| > 255 then r == Err(LengthMismatch)
            else if !AllValid(rs.shardIds) then r == Err(InvalidShard)
            else if rs.shardIds == [] then r == Err(InvalidShardCount)
            else && r.Ok? && r.value.clusterId == rs.clusterId
                 && NoRepeats(r.value.shardIds) && SetOf(r.value.shardIds) == SetOf(rs.shardIds)
  {
    var ids := rs.shardIds;
    var buf := ShardListOf(rs);
    WordsLength(ids);
    if |ids| <= 255 {
      assert buf[2] == |ids|;
      forall i | 0 <= i < |ids| ensures ReadWords(buf, |ids|)[i] == ids[i] {
        WordsAt(ids, i);
      }
      assert ReadWords(buf, |ids|) == ids;
    }
  }
}
