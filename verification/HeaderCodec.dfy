/** The bytes a block header is hashed from (core/chain/block.go). */
module HeaderCodec {
  import opened Wrappers
  import opened ChainTypes
  import opened Arithmetic
  import opened Codec

  function HeaderBytes(h: Header): string {
    U32(h.version, Str(h.chainId, U64(h.height, I64(h.timeUnix,
      h.prev + (h.stateRoot + (h.txRoot + U32(h.bits, U64(h.nonce, ""))))))))
  }

  predicate FitsHeader(h: Header) {
    && h.version < TwoTo32 && Short(h.chainId) && h.height < TwoTo64 && FitsI64(h.timeUnix)
    && |h.prev| == |h.stateRoot| == |h.txRoot| == 32
    && h.bits < TwoTo32 && h.nonce < TwoTo64
  }

  // ----- reading it back -----

  function GetHash(b: string): Parsed<Hash> { if |b| < 32 then Fail else Got(b[..32], b[32..]) }

  function GetLinks(b: string): Option<(Hash, Hash, Hash, nat, nat)> {
    match GetHash(b) case Fail => None case Got(prev, b1) =>
    match GetHash(b1) case Fail => None case Got(stateRoot, b2) =>
    match GetHash(b2) case Fail => None case Got(txRoot, b3) =>
    match GetU32(b3) case Fail => None case Got(bits, b4) =>
    match GetNumber(8, b4) case Fail => None case Got(nonce, b5) =>
    if b5 == "" then Some((prev, stateRoot, txRoot, bits, nonce)) else None
  }

  function DecodeHeader(b: string): Option<Header> {
    match GetU32(b) case Fail => None case Got(version, b1) =>
    match GetStr(b1) case Fail => None case Got(chainId, b2) =>
    match GetNumber(8, b2) case Fail => None case Got(height, b3) =>
    match GetI64(b3) case Fail => None case Got(timeUnix, b4) =>
    match GetLinks(b4) case None => None case Some((prev, stateRoot, txRoot, bits, nonce)) =>
    Some(Header(version, chainId, height, timeUnix, prev, stateRoot, txRoot, bits, nonce))
  }

  lemma HashBack(h: Hash, rest: string)
    requires |h| == 32
    ensures GetHash(h + rest) == Got(h, rest)
  {
    assert (h + rest)[..32] == h && (h + rest)[32..] == rest;
  }

  lemma LinksBack(h: Header)
    requires FitsHeader(h)
    ensures GetLinks(h.prev + (h.stateRoot + (h.txRoot + U32(h.bits, U64(h.nonce, "")))))
            == Some((h.prev, h.stateRoot, h.txRoot, h.bits, h.nonce))
  {
    var b4 := U64(h.nonce, "");
    var b3 := U32(h.bits, b4);
    var b2 := h.txRoot + b3;
    HashBack(h.prev, h.stateRoot + b2);
    HashBack(h.stateRoot, b2);
    HashBack(h.txRoot, b3);
    U32Back(h.bits, b4);
    U64Back(h.nonce, "");
  }

  /** A decoder inverts the header bytes. */
  lemma HeaderRoundTrip(h: Header)
    requires FitsHeader(h)
    ensures DecodeHeader(HeaderBytes(h)) == Some(h)
  {
    var b4 := h.prev + (h.stateRoot + (h.txRoot + U32(h.bits, U64(h.nonce, ""))));
    var b3 := I64(h.timeUnix, b4);
    var b2 := U64(h.height, b3);
    var b1 := Str(h.chainId, b2);
    U32Back(h.version, b1);
    StrBack(h.chainId, b2);
    U64Back(h.height, b3);
    I64Back(h.timeUnix, b4);
    LinksBack(h);
  }

  /** So distinct headers are hashed from distinct bytes: header hashes collide only where the
      hash function itself does. */
  lemma HeaderBytesIff(a: Header, b: Header)
    requires FitsHeader(a) && FitsHeader(b)
    ensures HeaderBytes(a) == HeaderBytes(b) <==> a == b
  {
    HeaderRoundTrip(a);
    HeaderRoundTrip(b);
  }

  /** The bytes hashed are the fields in the order version, chain id after its length, height, time,
      parent, state root, transaction root, bits and nonce. */
  lemma HeaderLayout(h: Header)
    ensures HeaderBytes(h) == LittleEndian(4, h.version) + LengthThen(h.chainId) + LittleEndian(8, h.height) + Signed64(h.timeUnix)
                              + h.prev + h.stateRoot + h.txRoot + LittleEndian(4, h.bits) + LittleEndian(8, h.nonce)
  {
    var r7 := LittleEndian(8, h.nonce);
    assert U64(h.nonce, "") == r7;
    var r6 := LittleEndian(4, h.bits) + r7;
    var r5, r4 := h.txRoot + r6, h.stateRoot + (h.txRoot + r6);
    var r3 := h.prev + r4;
    var r2 := I64(h.timeUnix, r3);
    var r1 := U64(h.height, r2);
    SignedAlike(h.timeUnix, r3);
    StrAlike(h.chainId, r1);
    var whole := HeaderBytes(h);
    var f1 := LittleEndian(4, h.version) + LengthThen(h.chainId);
    var f2 := f1 + LittleEndian(8, h.height);
    var f3 := f2 + Signed64(h.timeUnix);
    var f4 := f3 + h.prev;
    var f5 := f4 + h.stateRoot;
    var f6 := f5 + h.txRoot;
    TwoFields(LittleEndian(4, h.version), LengthThen(h.chainId), whole, r1);
    TwoFields(f1, LittleEndian(8, h.height), whole, r2);
    TwoFields(f2, Signed64(h.timeUnix), whole, r3);
    TwoFields(f3, h.prev, whole, r4);
    TwoFields(f4, h.stateRoot, whole, r5);
    TwoFields(f5, h.txRoot, whole, r6);
    TwoFields(f6, LittleEndian(4, h.bits), whole, r7);
  }
}
