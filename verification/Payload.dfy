/**
 Version 1 payload framing (waku/v2/payload/waku_payload.go; the ABNF and
 Padding sections of 26/WAKU2-PAYLOAD): flags, a size field of one to three
 bytes, data, padding and an optional signature of 65 bytes. Ciphers and
 signatures are arbitrary functions; the laws needed of them are named.
 */
module Payload {
  import opened GoTypes
  import opened Wrappers

  datatype Error =
    | UnsupportedVersion | UnsupportedKind | KeyRequired | InvalidKey | RandomFailed | SignFailed
    | InvalidLength | InvalidSignature | DecryptFailed | Panic

  const SIGNATURE_LENGTH: nat := 65
  const PAD_LIMIT: nat := 256
  const NONCE_LENGTH: nat := 12
  const KEY_LENGTH: nat := 32

  type PrivateKey = nat
  type PublicKey = nat

  datatype Kind = Symmetric | Asymmetric | NoKind

  datatype KeyInfo = KeyInfo(kind: Kind, symKey: Option<Bytes>, pubKey: PublicKey, privKey: Option<PrivateKey>)

  datatype Decoded = Decoded(data: Bytes, padding: Bytes, pubKey: Option<PublicKey>, signature: Bytes)

  /** Primitives from the crypto libraries. */
  datatype Crypto = Crypto(
    seal: (Bytes, Bytes, Bytes) -> Bytes,
    open: (Bytes, Bytes, Bytes) -> Option<Bytes>,
    encryptTo: (PublicKey, Bytes, Bytes) -> Option<Bytes>,
    decryptWith: (PrivateKey, Bytes) -> Option<Bytes>,
    publicOf: PrivateKey -> PublicKey,
    sign: (PrivateKey, Bytes) -> Option<Bytes>,
    recover: (Bytes, Bytes) -> Option<PublicKey>)

  /** Opening undoes sealing, and decrypting with a private key undoes encrypting to its public key. */
  ghost predicate CiphersInvert(c: Crypto) {
    && (forall key, nonce, plain :: c.open(key, nonce, c.seal(key, nonce, plain)) == Some(plain))
    && (forall priv, plain, random :: c.encryptTo(c.publicOf(priv), plain, random).Some? ==>
          c.decryptWith(priv, c.encryptTo(c.publicOf(priv), plain, random).value) == Some(plain))
  }

  /** Signatures have 65 bytes, and the signer's public key can be recovered from them. */
  ghost predicate SignaturesRecover(c: Crypto) {
    forall priv, message :: c.sign(priv, message).Some? ==>
      |c.sign(priv, message).value| == SIGNATURE_LENGTH
      && c.recover(message, c.sign(priv, message).value) == Some(c.publicOf(priv))
  }

  // ---------- numbers ----------

  function FieldSize(n: nat): nat {
    if n >= 256 then 1 + FieldSize(n / 256) else 1
  }

  function LittleEndian(n: nat, k: nat): Bytes {
    if k == 0 then [] else [n % 256] + LittleEndian(n / 256, k - 1)
  }

  function FromLittleEndian(b: Bytes): nat {
    if b == [] then 0 else b[0] + 256 * FromLittleEndian(b[1..])
  }

  lemma {:induction false} LittleEndianLength(n: nat, k: nat)
    ensures |LittleEndian(n, k)| == k
  {
    if k > 0 { LittleEndianLength(n / 256, k - 1); }
  }

  lemma FieldSizeBounds(n: nat)
    ensures FieldSize(n) <= 3 <==> n < 0x100_0000
    ensures FieldSize(n) == 4 <==> 0x100_0000 <= n < 0x1_0000_0000
    ensures FieldSize(n) >= 1
  {
    var a := n / 256;
    var b := a / 256;
    var c := b / 256;
    assert c >= 256 ==> FieldSize(c) >= 2;
  }

  /** The size field holds the size. */
  lemma {:induction false} FieldHolds(n: nat)
    ensures FromLittleEndian(LittleEndian(n, FieldSize(n))) == n
  {
    var k := FieldSize(n);
    assert LittleEndian(n, k)[1..] == LittleEndian(n / 256, k - 1);
    if n >= 256 {
      FieldHolds(n / 256);
    }
  }

  lemma MoveDigit(mul: int, digit: int, rest: int)
    ensures mul * (digit + 256 * rest) == digit * mul + (mul * 256) * rest
  {
  }

  method BytesToUintLittleEndian(b: Bytes) returns (res: nat)
    ensures res == FromLittleEndian(b)
  {
    res := 0;
    var mul := 1;
    var i := 0;
    while i < |b|
      invariant 0 <= i <= |b|
      invariant res + mul * FromLittleEndian(b[i..]) == FromLittleEndian(b)
    {
      assert b[i..][1..] == b[i + 1..];
      MoveDigit(mul, b[i], FromLittleEndian(b[i + 1..]));
      res := res + b[i] * mul;
      mul := mul * 256;
      i := i + 1;
    }
  }

  method GetSizeOfPayloadSizeField(payload: Bytes) returns (s: nat)
    ensures s == FieldSize(|payload|)
  {
    s := 1;
    var i := |payload|;
    while i >= 256
      invariant i >= 0 && s + FieldSize(i) - 1 == FieldSize(|payload|)
    {
      s := s + 1;
      i := i / 256;
    }
  }

  // ---------- flags ----------

  predicate IsSigned(flags: Byte) {
    (flags / 4) % 2 == 1
  }

  function WithSignedFlag(flags: Byte): Byte {
    if IsSigned(flags) then flags else flags + 4
  }

  function SizeBits(flags: Byte): nat {
    flags % 4
  }

  // ---------- framing ----------

  predicate OnlyZeros(b: Bytes) {
    forall i :: 0 <= i < |b| ==> b[i] == 0
  }

  predicate Integral(b: Bytes, size: nat) {
    |b| == size && !(size > 3 && OnlyZeros(b))
  }

  /** Room left to the next multiple of 256 after flags, size, data and signature. */
  function PaddingSize(n: nat, signed: bool): nat {
    var raw := 1 + FieldSize(n) + n + (if signed then SIGNATURE_LENGTH else 0);
    PAD_LIMIT - raw % PAD_LIMIT
  }

  /** The caller's padding, or `random` bytes of the size that is asked for. */
  function Padding(data: Bytes, padding: Bytes, signed: bool, random: nat -> Bytes): Option<Bytes> {
    if padding != [] then Some(padding)
    else
      var size := PaddingSize(|data|, signed);
      if Integral(random(size), size) then Some(random(size)) else None
  }

  function SizeField(n: nat): Option<Bytes> {
    LittleEndianLength(n % 0x1_0000_0000, 4);
    if FieldSize(n) <= 4 then Some(LittleEndian(n % 0x1_0000_0000, 4)[..FieldSize(n)]) else None
  }

  function V1Data(data: Bytes, padding: Bytes, signed: bool, random: nat -> Bytes): Result<Bytes, Error> {
    if SizeField(|data|).None? then Err(Panic)
    else
      var pad := Padding(data, padding, signed, random);
      if pad.None? then Err(RandomFailed)
      else Ok([FieldSize(|data|)] + SizeField(|data|).value + data + pad.value)
  }

  function Sign(c: Crypto, frame: Bytes, priv: PrivateKey): Result<Bytes, Error>
    requires frame != []
  {
    if IsSigned(frame[0]) then Ok(frame)
    else
      var flagged := [WithSignedFlag(frame[0])] + frame[1..];
      var sig := c.sign(priv, flagged);
      if sig.None? then Err(SignFailed) else Ok(flagged + sig.value)
  }

  /** The plaintext that is encrypted. */
  function Framed(c: Crypto, data: Bytes, padding: Bytes, priv: Option<PrivateKey>,
                  random: nat -> Bytes): Result<Bytes, Error> {
    var frame := V1Data(data, padding, priv.Some?, random);
    if frame.Err? then frame
    else if priv.None? then frame
    else Sign(c, frame.value, priv.value)
  }

  // ---------- parsing ----------

  function Parse(c: Crypto, input: Bytes): Result<Decoded, Error> {
    if |input| < 1 then Err(InvalidLength)
    else if !IsSigned(input[0]) then ParseBody(input, |input|, None, [])
    else if |input| - SIGNATURE_LENGTH <= 1 then Err(InvalidLength)
    else
      var end := |input| - SIGNATURE_LENGTH;
      var pub := c.recover(input[..end], input[end..]);
      if pub.None? then Err(InvalidSignature) else ParseBody(input, end, pub, input[end..])
  }

  function ParseBody(input: Bytes, end: nat, pub: Option<PublicKey>, signature: Bytes): Result<Decoded, Error>
    requires 1 <= end <= |input|
  {
    var k := SizeBits(input[0]);
    if k == 0 then Ok(Decoded([], input[1..end], pub, signature))
    else if end < 1 + k then Err(InvalidLength)
    else
      var size := FromLittleEndian(input[1..1 + k]);
      if 1 + k + size > end then Err(InvalidLength)
      else Ok(Decoded(input[1 + k..1 + k + size], input[1 + k + size..end], pub, signature))
  }

  /** The parts of a frame put together. */
  function Assembled(flags: Byte, size: Bytes, data: Bytes, padding: Bytes, signature: Bytes): Bytes {
    [flags] + size + data + padding + signature
  }

  ghost predicate PartsAgree(flags: Byte, size: Bytes, data: Bytes, padding: Bytes, signature: Bytes) {
    && |size| == SizeBits(flags)
    && |data| == FromLittleEndian(size)
    && |signature| == (if IsSigned(flags) then SIGNATURE_LENGTH else 0)
  }

  lemma BodySplits(input: Bytes, end: nat, pub: Option<PublicKey>, signature: Bytes)
    requires 1 <= end <= |input| && ParseBody(input, end, pub, signature).Ok?
    ensures var d := ParseBody(input, end, pub, signature).value;
            var k := SizeBits(input[0]);
            && k < end && d.signature == signature
            && input[..end] == [input[0]] + input[1..1 + k] + d.data + d.padding
            && |d.data| == FromLittleEndian(input[1..1 + k])
  {
  }

  /** Whatever the parser accepts is its parts put together, with nothing lost. */
  lemma ParseSplits(c: Crypto, input: Bytes) returns (flags: Byte, size: Bytes)
    requires Parse(c, input).Ok?
    ensures var d := Parse(c, input).value;
            && input == Assembled(flags, size, d.data, d.padding, d.signature)
            && PartsAgree(flags, size, d.data, d.padding, d.signature)
  {
    flags := input[0];
    var d := Parse(c, input).value;
    var end := |input| - |d.signature|;
    BodySplits(input, end, d.pubKey, d.signature);
    size := input[1..1 + SizeBits(flags)];
    assert input == input[..end] + d.signature;
  }

  lemma ParseBodyAssembled(flags: Byte, size: Bytes, data: Bytes, padding: Bytes, signature: Bytes,
                           pub: Option<PublicKey>)
    requires PartsAgree(flags, size, data, padding, signature)
    ensures var input := Assembled(flags, size, data, padding, signature);
            ParseBody(input, |input| - |signature|, pub, signature) == Ok(Decoded(data, padding, pub, signature))
  {
    var input := Assembled(flags, size, data, padding, signature);
    var k := |size|;
    assert input[1..1 + k] == size;
    assert input[1 + k..1 + k + |data|] == data;
    assert input[1 + k + |data|..|input| - |signature|] == padding;
    if k == 0 { assert data == []; }
  }

  /** Parts that agree, put together, parse to those parts. */
  lemma ParseAssembled(c: Crypto, flags: Byte, size: Bytes, data: Bytes, padding: Bytes, signature: Bytes)
    requires PartsAgree(flags, size, data, padding, signature)
    requires IsSigned(flags) ==>
      |size| + |data| + |padding| > 0 && c.recover([flags] + size + data + padding, signature).Some?
    ensures var pub := if IsSigned(flags) then c.recover([flags] + size + data + padding, signature) else None;
            Parse(c, Assembled(flags, size, data, padding, signature)) == Ok(Decoded(data, padding, pub, signature))
  {
    var input := Assembled(flags, size, data, padding, signature);
    var end := |input| - |signature|;
    assert input[..end] == [flags] + size + data + padding && input[end..] == signature;
    ParseBodyAssembled(flags, size, data, padding, signature,
                       if IsSigned(flags) then c.recover(input[..end], signature) else None);
    if !IsSigned(flags) { assert signature == []; }
  }

  /** A frame that the parser should accept: agreeing parts, and a signature that names somebody if there is one. */
  ghost predicate IsFrame(c: Crypto, input: Bytes, flags: Byte, size: Bytes, data: Bytes, padding: Bytes,
                          signature: Bytes) {
    && input == Assembled(flags, size, data, padding, signature)
    && PartsAgree(flags, size, data, padding, signature)
    && (IsSigned(flags) ==>
          |size| + |data| + |padding| > 0 && c.recover([flags] + size + data + padding, signature).Some?)
  }

  /** The parser accepts exactly these frames. */
  lemma ParseOkIff(c: Crypto, input: Bytes)
    ensures Parse(c, input).Ok? <==> exists f, size, data, pad, sig :: IsFrame(c, input, f, size, data, pad, sig)
  {
    if Parse(c, input).Ok? {
      var flags, size := ParseSplits(c, input);
      AcceptedIsFrame(c, input, flags, size);
    }
    if f, size, data, pad, sig :| IsFrame(c, input, f, size, data, pad, sig) {
      ParseAssembled(c, f, size, data, pad, sig);
    }
  }

  lemma AcceptedIsFrame(c: Crypto, input: Bytes, flags: Byte, size: Bytes)
    requires Parse(c, input).Ok?
    requires var d := Parse(c, input).value;
             && input == Assembled(flags, size, d.data, d.padding, d.signature)
             && PartsAgree(flags, size, d.data, d.padding, d.signature)
    ensures var d := Parse(c, input).value; IsFrame(c, input, flags, size, d.data, d.padding, d.signature)
  {
    var d := Parse(c, input).value;
    var end := |input| - |d.signature|;
    assert input[..end] == [flags] + size + d.data + d.padding && input[end..] == d.signature;
  }

  // ---------- round trip ----------

  lemma SmallField(n: nat)
    requires n < 0x100_0000
    ensures SizeField(n) == Some(LittleEndian(n, FieldSize(n))) && 1 <= FieldSize(n) <= 3
    ensures |LittleEndian(n, FieldSize(n))| == FieldSize(n)
  {
    FieldSizeBounds(n);
    assert n % 0x1_0000_0000 == n;
    FieldPrefix(n, FieldSize(n));
  }

  lemma FieldPrefix(n: nat, k: nat)
    requires k <= 4
    ensures |LittleEndian(n, 4)| == 4 && LittleEndian(n, 4)[..k] == LittleEndian(n, k) && |LittleEndian(n, k)| == k
  {
    LittleEndianLength(n, k);
    LittleEndianPrefix(n, k, 4);
  }

  lemma {:induction false} LittleEndianPrefix(n: nat, j: nat, k: nat)
    requires j <= k
    ensures |LittleEndian(n, k)| == k && LittleEndian(n, k)[..j] == LittleEndian(n, j)
  {
    LittleEndianLength(n, k);
    if j > 0 {
      LittleEndianPrefix(n / 256, j - 1, k - 1);
      assert LittleEndian(n, k)[..j] == [n % 256] + LittleEndian(n / 256, k - 1)[..j - 1];
    }
  }

  /** The padding that a successful framing used. */
  function PadUsed(data: Bytes, padding: Bytes, signed: bool, random: nat -> Bytes): Bytes {
    var pad := Padding(data, padding, signed, random);
    if pad.Some? then pad.value else []
  }

  lemma RoundTripUnsigned(c: Crypto, data: Bytes, padding: Bytes, random: nat -> Bytes)
    requires |data| < 0x100_0000 && Framed(c, data, padding, None, random).Ok?
    ensures var r := Parse(c, Framed(c, data, padding, None, random).value);
            r == Ok(Decoded(data, PadUsed(data, padding, false, random), None, []))
  {
    SmallField(|data|);
    FieldHolds(|data|);
    var k := FieldSize(|data|);
    var size := LittleEndian(|data|, k);
    var pad := PadUsed(data, padding, false, random);
    ParseAssembled(c, k, size, data, pad, []);
    assert Assembled(k, size, data, pad, []) == [k] + size + data + pad;
  }

  lemma SignedFrame(c: Crypto, data: Bytes, padding: Bytes, priv: PrivateKey, random: nat -> Bytes) returns (sig: Bytes)
    requires |data| < 0x100_0000 && Framed(c, data, padding, Some(priv), random).Ok?
    ensures var k := FieldSize(|data|);
            var size, pad := LittleEndian(|data|, k), PadUsed(data, padding, true, random);
            && k < 4
            && c.sign(priv, [k + 4] + size + data + pad) == Some(sig)
            && Framed(c, data, padding, Some(priv), random).value == Assembled(k + 4, size, data, pad, sig)
  {
    SmallField(|data|);
    var k := FieldSize(|data|);
    var frame := [k] + LittleEndian(|data|, k) + data + PadUsed(data, padding, true, random);
    assert V1Data(data, padding, true, random) == Ok(frame);
    var flagged := [k + 4] + LittleEndian(|data|, k) + data + PadUsed(data, padding, true, random);
    assert [WithSignedFlag(frame[0])] + frame[1..] == flagged;
    sig := c.sign(priv, flagged).value;
  }

  /** The signature is the end of the plaintext, and is the key's signature of the rest of it. */
  ghost predicate CarriesSignature(c: Crypto, priv: Option<PrivateKey>, frame: Bytes, signature: Bytes) {
    match priv
    case None => signature == []
    case Some(key) =>
      && |frame| >= SIGNATURE_LENGTH
      && frame == frame[..|frame| - SIGNATURE_LENGTH] + signature
      && c.sign(key, frame[..|frame| - SIGNATURE_LENGTH]) == Some(signature)
  }

  lemma RoundTripSigned(c: Crypto, data: Bytes, padding: Bytes, priv: PrivateKey, random: nat -> Bytes)
    requires SignaturesRecover(c) && |data| < 0x100_0000 && Framed(c, data, padding, Some(priv), random).Ok?
    ensures var r := Parse(c, Framed(c, data, padding, Some(priv), random).value);
            && r.Ok? && r.value.data == data && r.value.padding == PadUsed(data, padding, true, random)
            && CarriesSignature(c, Some(priv), Framed(c, data, padding, Some(priv), random).value, r.value.signature)
            && r.value.pubKey == Some(c.publicOf(priv))
  {
    var sig := SignedFrame(c, data, padding, priv, random);
    SmallField(|data|);
    FieldHolds(|data|);
    var k := FieldSize(|data|);
    var size, pad := LittleEndian(|data|, k), PadUsed(data, padding, true, random);
    ParseAssembled(c, k + 4, size, data, pad, sig);
    var frame := Assembled(k + 4, size, data, pad, sig);
    assert frame[..|frame| - SIGNATURE_LENGTH] == [k + 4] + size + data + pad;
  }

  /** Data below 2^24 bytes survives framing and parsing, with its padding, the signature made, and the signer. */
  lemma RoundTrip(c: Crypto, data: Bytes, padding: Bytes, priv: Option<PrivateKey>, random: nat -> Bytes)
    requires SignaturesRecover(c) && |data| < 0x100_0000
    requires Framed(c, data, padding, priv, random).Ok?
    ensures var r := Parse(c, Framed(c, data, padding, priv, random).value);
            && r.Ok? && r.value.data == data
            && r.value.padding == PadUsed(data, padding, priv.Some?, random)
            && (padding != [] ==> r.value.padding == padding)
            && CarriesSignature(c, priv, Framed(c, data, padding, priv, random).value, r.value.signature)
            && r.value.pubKey == (if priv.Some? then Some(c.publicOf(priv.value)) else None)
  {
    match priv
    case None => RoundTripUnsigned(c, data, padding, random);
    case Some(key) => RoundTripSigned(c, data, padding, key, random);
  }

  /** Larger data never survives: its size field is four bytes, which sets the signature flag, or does not exist. */
  lemma LargeDataLost(c: Crypto, data: Bytes, padding: Bytes, priv: Option<PrivateKey>, random: nat -> Bytes)
    requires |data| >= 0x100_0000
    ensures var f := Framed(c, data, padding, priv, random);
            f.Ok? ==> Parse(c, f.value).Ok? ==> Parse(c, f.value).value.data == []
    ensures |data| >= 0x1_0000_0000 ==> Framed(c, data, padding, priv, random) == Err(Panic)
  {
    FieldSizeBounds(|data|);
  }

  /** Framing and parsing give the data back if and only if it has fewer than 2^24 bytes. */
  lemma RoundTripIff(c: Crypto, data: Bytes, padding: Bytes, priv: Option<PrivateKey>, random: nat -> Bytes)
    requires SignaturesRecover(c) && Framed(c, data, padding, priv, random).Ok?
    ensures var r := Parse(c, Framed(c, data, padding, priv, random).value);
            r.Ok? && r.value.data == data <==> |data| < 0x100_0000
  {
    if |data| < 0x100_0000 {
      RoundTrip(c, data, padding, priv, random);
    } else {
      LargeDataLost(c, data, padding, priv, random);
    }
  }

  /**
   Generated padding has 1 to 256 bytes. It fills the plaintext to a multiple of
   256 unless the data is so large that its size field passes for the signature
   flag, so that room is left for a signature that is not made.
   */
  lemma GeneratedPadding(c: Crypto, data: Bytes, priv: Option<PrivateKey>, random: nat -> Bytes)
    requires SignaturesRecover(c) && Framed(c, data, [], priv, random).Ok?
    ensures 1 <= |PadUsed(data, [], priv.Some?, random)| <= PAD_LIMIT
    ensures PadUsed(data, [], priv.Some?, random) == random(|PadUsed(data, [], priv.Some?, random)|)
    ensures |Framed(c, data, [], priv, random).value| % PAD_LIMIT == 0 <==> priv.None? || |data| < 0x100_0000
  {
    FieldSizeBounds(|data|);
    LittleEndianLength(|data| % 0x1_0000_0000, 4);
    var k, pad := FieldSize(|data|), PadUsed(data, [], priv.Some?, random);
    var frame := [k] + SizeField(|data|).value + data + pad;
    assert V1Data(data, [], priv.Some?, random) == Ok(frame);
    assert |frame| == 1 + k + |data| + |pad|;
    if priv.Some? && |data| < 0x100_0000 {
      var flagged := [WithSignedFlag(frame[0])] + frame[1..];
      assert c.sign(priv.value, flagged).Some?;
    }
    var signature := if priv.Some? then SIGNATURE_LENGTH else 0;
    FillsUp(1 + k + |data|, signature);
  }

  lemma FillsUp(raw: nat, signature: nat)
    requires signature < PAD_LIMIT
    ensures var pad := PAD_LIMIT - (raw + signature) % PAD_LIMIT;
            && 1 <= pad <= PAD_LIMIT
            && (raw + pad + signature) % PAD_LIMIT == 0
            && ((raw + pad) % PAD_LIMIT == 0 <==> signature == 0)
  {
    var q := (raw + signature) / PAD_LIMIT;
    var pad := PAD_LIMIT - (raw + signature) % PAD_LIMIT;
    assert raw + pad + signature == (q + 1) * PAD_LIMIT;
    if signature > 0 {
      assert raw + pad == q * PAD_LIMIT + (PAD_LIMIT - signature);
      assert (raw + pad) % PAD_LIMIT == PAD_LIMIT - signature;
    }
  }

  // ---------- encoding and decoding messages ----------

  function Encrypted(c: Crypto, key: KeyInfo, plain: Bytes, nonce: Bytes): Result<Bytes, Error> {
    match key.kind
    case Symmetric =>
      if key.symKey.None? || !Integral(key.symKey.value, KEY_LENGTH) then Err(InvalidKey)
      else if !Integral(nonce, NONCE_LENGTH) then Err(RandomFailed)
      else Ok(c.seal(key.symKey.value, nonce, plain) + nonce)
    case Asymmetric =>
      var r := c.encryptTo(key.pubKey, plain, nonce);
      if r.None? then Err(InvalidKey) else Ok(r.value)
    case NoKind => Err(UnsupportedKind)
  }

  function Encode(c: Crypto, data: Bytes, padding: Bytes, key: KeyInfo, version: nat, random: nat -> Bytes,
                  nonce: Bytes): Result<Bytes, Error> {
    if version == 0 then Ok(data)
    else if version != 1 then Err(UnsupportedVersion)
    else
      var plain := Framed(c, data, padding, key.privKey, random);
      if plain.Err? then plain else Encrypted(c, key, plain.value, nonce)
  }

  function Decrypted(c: Crypto, key: KeyInfo, payload: Bytes): Result<Bytes, Error> {
    match key.kind
    case Symmetric =>
      if key.symKey.None? then Err(KeyRequired)
      else if |payload| < NONCE_LENGTH then Err(DecryptFailed)
      else
        var at := |payload| - NONCE_LENGTH;
        var r := c.open(key.symKey.value, payload[at..], payload[..at]);
        if r.None? then Err(DecryptFailed) else Ok(r.value)
    case Asymmetric =>
      if key.privKey.None? then Err(KeyRequired)
      else
        var r := c.decryptWith(key.privKey.value, payload);
        if r.None? then Err(DecryptFailed) else Ok(r.value)
    case NoKind => Err(UnsupportedKind)
  }

  function Decode(c: Crypto, payload: Bytes, key: KeyInfo, version: nat): Result<Decoded, Error> {
    if version == 0 then Ok(Decoded(payload, [], None, []))
    else if version != 1 then Err(UnsupportedVersion)
    else
      var plain := Decrypted(c, key, payload);
      if plain.Err? then Err(plain.error) else Parse(c, plain.value)
  }

  /** The receiver holds the key that the sender encrypted for. */
  ghost predicate KeysMatch(c: Crypto, sender: KeyInfo, receiver: KeyInfo) {
    && sender.kind == receiver.kind
    && (sender.kind.Symmetric? ==> sender.symKey == receiver.symKey)
    && (sender.kind.Asymmetric? ==> receiver.privKey.Some? && sender.pubKey == c.publicOf(receiver.privKey.value))
  }

  lemma DecryptUndoesEncrypt(c: Crypto, sender: KeyInfo, receiver: KeyInfo, plain: Bytes, nonce: Bytes)
    requires CiphersInvert(c) && KeysMatch(c, sender, receiver) && Encrypted(c, sender, plain, nonce).Ok?
    ensures Decrypted(c, receiver, Encrypted(c, sender, plain, nonce).value) == Ok(plain)
  {
    if sender.kind.Symmetric? {
      var sealed := c.seal(sender.symKey.value, nonce, plain);
      var payload := sealed + nonce;
      var at := |payload| - NONCE_LENGTH;
      assert payload[at..] == nonce && payload[..at] == sealed;
    }
  }

  /** In every supported version, decoding what was encoded returns the data, if and only if it fits. */
  lemma DecodeEncodeIff(c: Crypto, data: Bytes, padding: Bytes, sender: KeyInfo, receiver: KeyInfo, version: nat,
                        random: nat -> Bytes, nonce: Bytes)
    requires CiphersInvert(c) && SignaturesRecover(c) && KeysMatch(c, sender, receiver)
    requires Encode(c, data, padding, sender, version, random, nonce).Ok?
    ensures var d := Decode(c, Encode(c, data, padding, sender, version, random, nonce).value, receiver, version);
            && (d.Ok? && d.value.data == data <==> version == 0 || |data| < 0x100_0000)
            && (version == 1 && |data| < 0x100_0000 ==>
                  && d.value.padding == PadUsed(data, padding, sender.privKey.Some?, random)
                  && CarriesSignature(c, sender.privKey, Framed(c, data, padding, sender.privKey, random).value,
                                      d.value.signature)
                  && d.value.pubKey == (if sender.privKey.Some? then Some(c.publicOf(sender.privKey.value)) else None))
  {
    if version == 1 {
      var plain := Framed(c, data, padding, sender.privKey, random).value;
      DecryptUndoesEncrypt(c, sender, receiver, plain, nonce);
      RoundTripIff(c, data, padding, sender.privKey, random);
      if |data| < 0x100_0000 { RoundTrip(c, data, padding, sender.privKey, random); }
    }
  }

  // ---------- when encoding succeeds ----------

  /** Padding is given, or the random source gives the bytes that are asked for. */
  predicate CanPad(data: Bytes, padding: Bytes, signed: bool, random: nat -> Bytes) {
    padding != [] || Integral(random(PaddingSize(|data|, signed)), PaddingSize(|data|, signed))
  }

  /** There is nothing to sign, or the key signs the flagged frame. */
  ghost predicate CanSign(c: Crypto, data: Bytes, padding: Bytes, priv: Option<PrivateKey>, random: nat -> Bytes) {
    priv.None? || |data| >= 0x100_0000
    || (var k := FieldSize(|data|);
        && k <= 3
        && var flagged := [k + 4] + LittleEndian(|data|, k) + data + PadUsed(data, padding, true, random);
           c.sign(priv.value, flagged).Some?)
  }

  function PlainUsed(c: Crypto, data: Bytes, padding: Bytes, priv: Option<PrivateKey>, random: nat -> Bytes): Bytes {
    var plain := Framed(c, data, padding, priv, random);
    if plain.Ok? then plain.value else []
  }

  /** A symmetric key and a nonce that are sound, or a public key that takes the plaintext. */
  predicate CanEncrypt(c: Crypto, key: KeyInfo, plain: Bytes, nonce: Bytes) {
    match key.kind
    case Symmetric =>
      && key.symKey.Some? && |key.symKey.value| == 32 && !OnlyZeros(key.symKey.value)
      && |nonce| == 12 && !OnlyZeros(nonce)
    case Asymmetric => c.encryptTo(key.pubKey, plain, nonce).Some?
    case NoKind => false
  }

  lemma FramedOkIff(c: Crypto, data: Bytes, padding: Bytes, priv: Option<PrivateKey>, random: nat -> Bytes)
    ensures Framed(c, data, padding, priv, random).Ok?
       <==> (&& |data| < 0x1_0000_0000
             && CanPad(data, padding, priv.Some?, random)
             && CanSign(c, data, padding, priv, random))
  {
    FieldSizeBounds(|data|);
    var frame := V1Data(data, padding, priv.Some?, random);
    if frame.Ok? && priv.Some? && |data| < 0x100_0000 {
      SmallField(|data|);
      var k := FieldSize(|data|);
      var rest := LittleEndian(|data|, k) + data + PadUsed(data, padding, true, random);
      assert frame.value == [k] + LittleEndian(|data|, k) + data + PadUsed(data, padding, true, random);
      assert [WithSignedFlag(k)] + frame.value[1..]
          == [k + 4] + LittleEndian(|data|, k) + data + PadUsed(data, padding, true, random);
    }
  }

  /**
   Encoding succeeds exactly for version 0, and for version 1 when the data is
   below 2^32 bytes, padding and signature can be made, and the key can encrypt.
   */
  lemma EncodeOkIff(c: Crypto, data: Bytes, padding: Bytes, key: KeyInfo, version: nat, random: nat -> Bytes,
                    nonce: Bytes)
    ensures Encode(c, data, padding, key, version, random, nonce).Ok?
       <==> (|| version == 0
             || (&& version == 1 && |data| < 0x1_0000_0000
                 && CanPad(data, padding, key.privKey.Some?, random)
                 && CanSign(c, data, padding, key.privKey, random)
                 && CanEncrypt(c, key, PlainUsed(c, data, padding, key.privKey, random), nonce)))
  {
    FramedOkIff(c, data, padding, key.privKey, random);
  }

  /** Decoding succeeds exactly for version 0, and for version 1 when the key opens the payload to a frame. */
  lemma DecodeOkIff(c: Crypto, payload: Bytes, key: KeyInfo, version: nat)
    ensures Decode(c, payload, key, version).Ok?
       <==> (|| version == 0
             || (version == 1 && exists plain :: Opens(c, key, payload, plain) && Parse(c, plain).Ok?))
  {
    if version == 1 && Decrypted(c, key, payload).Ok? {
      assert Opens(c, key, payload, Decrypted(c, key, payload).value);
    }
  }

  /** The key turns the payload into this plaintext; a symmetric payload ends with its nonce. */
  ghost predicate Opens(c: Crypto, key: KeyInfo, payload: Bytes, plain: Bytes) {
    match key.kind
    case Symmetric =>
      && key.symKey.Some? && |payload| >= 12
      && c.open(key.symKey.value, payload[|payload| - 12..], payload[..|payload| - 12]) == Some(plain)
    case Asymmetric => key.privKey.Some? && c.decryptWith(key.privKey.value, payload) == Some(plain)
    case NoKind => false
  }

  // ---------- the buffers as the source builds and scans them ----------

  /** PutUint32. */
  method PutUint32(n: nat) returns (field: Bytes)
    ensures field == LittleEndian(n % 0x1_0000_0000, 4)
  {
    var v := n % 0x1_0000_0000;
    field := [v % 256, v / 0x100 % 256, v / 0x1_0000 % 256, v / 0x100_0000 % 256];
    assert field == LittleEndian(v, 4) by {
      assert v / 256 / 256 == v / 0x1_0000 && v / 256 / 256 / 256 == v / 0x100_0000;
      assert LittleEndian(v / 0x100_0000, 1) == [v / 0x100_0000 % 256] + LittleEndian(v / 0x100_0000 / 256, 0);
      assert LittleEndian(v / 0x1_0000, 2) == [v / 0x1_0000 % 256] + LittleEndian(v / 0x100_0000, 1);
      assert LittleEndian(v / 0x100, 3) == [v / 0x100 % 256] + LittleEndian(v / 0x1_0000, 2);
    }
  }

  /** v1Data with addPayloadSizeField and appendPadding. */
  method BuildV1Data(data: Bytes, padding: Bytes, signed: bool, random: nat -> Bytes) returns (r: Result<Bytes, Error>)
    ensures r == V1Data(data, padding, signed, random)
  {
    var result: Bytes := [0];
    var fieldSize := GetSizeOfPayloadSizeField(data);
    var field := PutUint32(|data|);
    LittleEndianLength(|data| % 0x1_0000_0000, 4);
    if fieldSize > 4 {
      return Err(Panic);
    }
    field := field[..fieldSize];
    result := result + field;
    result := result[0 := result[0] + fieldSize];
    assert result == [fieldSize] + field;
    result := result + data;
    if |padding| != 0 {
      result := result + padding;
      return Ok(result);
    }
    var rawSize := 1 + fieldSize + |data|;
    if signed {
      rawSize := rawSize + SIGNATURE_LENGTH;
    }
    var paddingSize := PAD_LIMIT - rawSize % PAD_LIMIT;
    var pad := random(paddingSize);
    if !Integral(pad, paddingSize) {
      return Err(RandomFailed);
    }
    result := result + pad;
    r := Ok(result);
  }

  method ValidateAndParse(c: Crypto, input: Bytes) returns (r: Result<Decoded, Error>)
    ensures r == Parse(c, input)
  {
    var end := |input|;
    if end < 1 {
      return Err(InvalidLength);
    }
    var msg := Decoded([], [], None, []);
    if IsSigned(input[0]) {
      end := end - SIGNATURE_LENGTH;
      if end <= 1 {
        return Err(InvalidLength);
      }
      msg := msg.(signature := input[end..end + SIGNATURE_LENGTH]);
      assert msg.signature == input[end..];
      msg := msg.(pubKey := c.recover(input[..|input| - SIGNATURE_LENGTH], msg.signature));
      if msg.pubKey.None? {
        return Err(InvalidSignature);
      }
    }
    var beg := 1;
    var payloadSize := 0;
    var sizeOfPayloadSizeField := input[0] % 4;
    if sizeOfPayloadSizeField != 0 {
      if end < beg + sizeOfPayloadSizeField {
        return Err(InvalidLength);
      }
      payloadSize := BytesToUintLittleEndian(input[beg..beg + sizeOfPayloadSizeField]);
      beg := beg + sizeOfPayloadSizeField;
      if beg + payloadSize > end {
        return Err(InvalidLength);
      }
      msg := msg.(data := input[beg..beg + payloadSize]);
    }
    beg := beg + payloadSize;
    msg := msg.(padding := input[beg..end]);
    r := Ok(msg);
  }
}
