/** Canonical transaction bytes (core/chain/codec.go). Bytes are characters; every part of the
    encoding is a function of what follows it, so that it can be read off from the front. */
module Codec {
  import opened Wrappers
  import opened ChainTypes
  import opened Arithmetic

  const TwoTo32: nat := 0x1_0000_0000
  const TwoTo63: int := 0x8000_0000_0000_0000

  // ----- numbers, little endian -----

  function LittleEndian(n: nat, v: nat): (b: string)
    ensures |b| == n
    decreases n
  {
    if n == 0 then "" else [(v % 256) as char] + LittleEndian(n - 1, v / 256)
  }

  // Conversions to fixed width keep the low bits.
  function U32(v: nat, rest: string): string { LittleEndian(4, v) + rest }

  function U64(v: nat, rest: string): string { LittleEndian(8, v) + rest }

  function I64(v: int, rest: string): string { LittleEndian(8, v % TwoTo64) + rest }

  // Length first, then the bytes.
  function Str(s: string, rest: string): string { U32(|s|, s + rest) }

  // ----- transactions -----

  function Out(o: TxOut, rest: string): string {
    I64(o.amount, Str(o.asset, Str(o.address, Str(o.p, Str(o.r, Str(o.tag, Str(o.encMemo, U32(o.policyBits, rest))))))))
  }

  function Outs(outs: seq<TxOut>, rest: string): string {
    if outs == [] then rest else Out(outs[0], Outs(outs[1..], rest))
  }

  function ClaimBody(c: OtapClaim, rest: string): string {
    Str(c.p, Str(c.r, Str(c.tag, Str(c.to, I64(c.amount, Str(c.claimSig, rest))))))
  }

  function ClaimBytes(claim: Option<OtapClaim>, sigs: bool, rest: string): string {
    match claim
    case None => [0 as char] + rest
    case Some(c) => [1 as char] + ClaimBody(if sigs then c else c.(claimSig := ""), rest)
  }

  function TailBytes(tx: Tx, sigs: bool): string {
    U32(|tx.outputs|, Outs(tx.outputs, ClaimBytes(tx.claim, sigs, Str(if sigs then tx.sig else "", ""))))
  }

  const DomainTag := "RSVTX1"

  function Canonical(tx: Tx, sigs: bool): string {
    DomainTag + U32(tx.version, Str(tx.txType, Str(tx.from, Str(tx.pubKey,
      U64(tx.nonce, I64(tx.fee, Str(tx.gasAsset, TailBytes(tx, sigs))))))))
  }

  function SigningBytes(tx: Tx): string { Canonical(tx, false) }

  // ----- a decoder -----

  datatype Parsed<+T> = Fail | Got(value: T, rest: string)

  function GetNumber(n: nat, b: string): Parsed<nat>
    decreases n
  {
    if n == 0 then Got(0, b)
    else if b == "" then Fail
    else match GetNumber(n - 1, b[1..])
         case Fail => Fail
         case Got(v, rest) => Got(v * 256 + b[0] as int, rest)
  }

  function GetU32(b: string): Parsed<nat> { GetNumber(4, b) }

  function GetI64(b: string): Parsed<int> {
    match GetNumber(8, b)
    case Fail => Fail
    case Got(v, rest) => Got(if v >= TwoTo63 then v - TwoTo64 else v, rest)
  }

  function GetStr(b: string): Parsed<string> {
    match GetU32(b)
    case Fail => Fail
    case Got(n, rest) => if n <= |rest| then Got(rest[..n], rest[n..]) else Fail
  }

  function GetOut(b: string): Parsed<TxOut> {
    match GetI64(b) case Fail => Fail case Got(amount, b1) =>
    match GetStr(b1) case Fail => Fail case Got(asset, b2) =>
    match GetStr(b2) case Fail => Fail case Got(address, b3) =>
    match GetStr(b3) case Fail => Fail case Got(p, b4) =>
    match GetStr(b4) case Fail => Fail case Got(r, b5) =>
    match GetStr(b5) case Fail => Fail case Got(tag, b6) =>
    match GetStr(b6) case Fail => Fail case Got(encMemo, b7) =>
    match GetU32(b7) case Fail => Fail case Got(policyBits, b8) =>
    Got(TxOut(amount, asset, address, p, r, tag, encMemo, policyBits), b8)
  }

  function GetOuts(n: nat, b: string): Parsed<seq<TxOut>>
    decreases n
  {
    if n == 0 then Got([], b)
    else match GetOut(b) case Fail => Fail case Got(o, b1) =>
         match GetOuts(n - 1, b1) case Fail => Fail case Got(outs, b2) => Got([o] + outs, b2)
  }

  function GetClaimBody(b: string): Parsed<OtapClaim> {
    match GetStr(b) case Fail => Fail case Got(p, b1) =>
    match GetStr(b1) case Fail => Fail case Got(r, b2) =>
    match GetStr(b2) case Fail => Fail case Got(tag, b3) =>
    match GetStr(b3) case Fail => Fail case Got(to, b4) =>
    match GetI64(b4) case Fail => Fail case Got(amount, b5) =>
    match GetStr(b5) case Fail => Fail case Got(sig, b6) =>
    Got(OtapClaim(p, r, tag, to, amount, sig), b6)
  }

  function GetClaim(b: string): Parsed<Option<OtapClaim>> {
    if b == "" then Fail
    else if b[0] == 0 as char then Got(None, b[1..])
    else match GetClaimBody(b[1..]) case Fail => Fail case Got(c, b1) => Got(Some(c), b1)
  }

  // Outputs, claim and signature; nothing may follow.
  function GetTail(b: string): Option<(seq<TxOut>, Option<OtapClaim>, string)> {
    match GetU32(b) case Fail => None case Got(n, b1) =>
    match GetOuts(n, b1) case Fail => None case Got(outs, b2) =>
    match GetClaim(b2) case Fail => None case Got(claim, b3) =>
    match GetStr(b3) case Fail => None case Got(sig, b4) =>
    if b4 == "" then Some((outs, claim, sig)) else None
  }

  function Decode(b: string): Option<Tx> {
    if |b| < 6 || b[..6] != DomainTag then None else
    match GetU32(b[6..]) case Fail => None case Got(version, b1) =>
    match GetStr(b1) case Fail => None case Got(txType, b2) =>
    match GetStr(b2) case Fail => None case Got(from, b3) =>
    match GetStr(b3) case Fail => None case Got(pubKey, b4) =>
    match GetNumber(8, b4) case Fail => None case Got(nonce, b5) =>
    match GetI64(b5) case Fail => None case Got(fee, b6) =>
    match GetStr(b6) case Fail => None case Got(gasAsset, b7) =>
    match GetTail(b7) case None => None case Some((outs, claim, sig)) =>
    Some(Tx(version, txType, from, pubKey, sig, nonce, fee, gasAsset, outs, claim, ""))
  }

  // ----- what fits the fixed widths -----

  predicate Short(s: string) { |s| < TwoTo32 }

  predicate FitsI64(v: int) { -TwoTo63 <= v < TwoTo63 }

  predicate FitsOut(o: TxOut) {
    && FitsI64(o.amount) && o.policyBits < TwoTo32
    && Short(o.asset) && Short(o.address) && Short(o.p) && Short(o.r) && Short(o.tag) && Short(o.encMemo)
  }

  predicate FitsClaim(c: OtapClaim) {
    FitsI64(c.amount) && Short(c.p) && Short(c.r) && Short(c.tag) && Short(c.to) && Short(c.claimSig)
  }

  predicate Fits(tx: Tx) {
    && tx.version < TwoTo32 && tx.nonce < TwoTo64 && FitsI64(tx.fee) && |tx.outputs| < TwoTo32
    && Short(tx.txType) && Short(tx.from) && Short(tx.pubKey) && Short(tx.gasAsset) && Short(tx.sig)
    && (forall i :: 0 <= i < |tx.outputs| ==> FitsOut(tx.outputs[i]))
    && (tx.claim.Some? ==> FitsClaim(tx.claim.value))
  }

  // ----- each part is read back -----

  lemma {:induction false} NumberBack(n: nat, v: nat, rest: string)
    requires v < Shl(1, n)
    ensures GetNumber(n, LittleEndian(n, v) + rest) == Got(v, rest)
    decreases n
  {
    if n == 0 {
      assert LittleEndian(n, v) + rest == rest;
    } else {
      var tail := LittleEndian(n - 1, v / 256);
      var b := LittleEndian(n, v) + rest;
      assert b[1..] == tail + rest;
      NumberBack(n - 1, v / 256, rest);
    }
  }

  lemma U32Back(v: nat, rest: string)
    requires v < TwoTo32
    ensures GetU32(U32(v, rest)) == Got(v, rest)
  {
    assert Shl(1, 4) == TwoTo32;
    NumberBack(4, v, rest);
  }

  lemma U64Back(v: nat, rest: string)
    requires v < TwoTo64
    ensures GetNumber(8, U64(v, rest)) == Got(v, rest)
  {
    SmallShifts();
    NumberBack(8, v, rest);
  }

  lemma I64Back(v: int, rest: string)
    requires FitsI64(v)
    ensures GetI64(I64(v, rest)) == Got(v, rest)
  {
    TwosComplement(v);
    U64Back(v % TwoTo64, rest);
  }

  lemma TwosComplement(v: int)
    requires FitsI64(v)
    ensures v % TwoTo64 == if v < 0 then v + TwoTo64 else v
  {
  }

  lemma StrBack(s: string, rest: string)
    requires Short(s)
    ensures GetStr(Str(s, rest)) == Got(s, rest)
  {
    U32Back(|s|, s + rest);
    assert (s + rest)[..|s|] == s && (s + rest)[|s|..] == rest;
  }

  lemma OutBack(o: TxOut, rest: string)
    requires FitsOut(o)
    ensures GetOut(Out(o, rest)) == Got(o, rest)
  {
    var b7 := U32(o.policyBits, rest);
    var b6 := Str(o.encMemo, b7);
    var b5 := Str(o.tag, b6);
    var b4 := Str(o.r, b5);
    var b3 := Str(o.p, b4);
    var b2 := Str(o.address, b3);
    var b1 := Str(o.asset, b2);
    I64Back(o.amount, b1);
    StrBack(o.asset, b2);
    StrBack(o.address, b3);
    StrBack(o.p, b4);
    StrBack(o.r, b5);
    StrBack(o.tag, b6);
    StrBack(o.encMemo, b7);
    U32Back(o.policyBits, rest);
  }

  lemma {:induction false} OutsBack(outs: seq<TxOut>, rest: string)
    requires forall i :: 0 <= i < |outs| ==> FitsOut(outs[i])
    ensures GetOuts(|outs|, Outs(outs, rest)) == Got(outs, rest)
    decreases |outs|
  {
    if outs != [] {
      var o, more := outs[0], outs[1..];
      OutsBack(more, rest);
      OutThenOuts(o, more, rest, Outs(more, rest));
      assert outs == [o] + more;
    }
  }

  lemma OutThenOuts(o: TxOut, more: seq<TxOut>, rest: string, tail: string)
    requires FitsOut(o) && GetOuts(|more|, tail) == Got(more, rest)
    ensures GetOuts(|more| + 1, Out(o, tail)) == Got([o] + more, rest)
  {
    OutBack(o, tail);
    GetOneMore(Out(o, tail), o, tail, more, rest);
  }

  lemma GetOneMore(b: string, o: TxOut, tail: string, outs: seq<TxOut>, rest: string)
    requires GetOut(b) == Got(o, tail) && GetOuts(|outs|, tail) == Got(outs, rest)
    ensures GetOuts(|outs| + 1, b) == Got([o] + outs, rest)
  {
  }

  // What the encoding keeps: everything but the memo, and the signatures only if asked.
  function KeptClaim(claim: Option<OtapClaim>, sigs: bool): Option<OtapClaim> {
    match claim case None => None case Some(c) => Some(if sigs then c else c.(claimSig := ""))
  }

  function Kept(tx: Tx, sigs: bool): Tx {
    tx.(memo := "", sig := if sigs then tx.sig else "", claim := KeptClaim(tx.claim, sigs))
  }

  lemma ClaimBodyBack(c: OtapClaim, rest: string)
    requires FitsClaim(c)
    ensures GetClaimBody(ClaimBody(c, rest)) == Got(c, rest)
  {
    var b5 := Str(c.claimSig, rest);
    var b4 := I64(c.amount, b5);
    var b3 := Str(c.to, b4);
    var b2 := Str(c.tag, b3);
    var b1 := Str(c.r, b2);
    StrBack(c.p, b1);
    StrBack(c.r, b2);
    StrBack(c.tag, b3);
    StrBack(c.to, b4);
    I64Back(c.amount, b5);
    StrBack(c.claimSig, rest);
  }

  lemma ClaimBack(claim: Option<OtapClaim>, sigs: bool, rest: string)
    requires claim.Some? ==> FitsClaim(claim.value)
    ensures GetClaim(ClaimBytes(claim, sigs, rest)) == Got(KeptClaim(claim, sigs), rest)
  {
    match claim
    case None => assert ([0 as char] + rest)[1..] == rest;
    case Some(c) =>
      var kept := if sigs then c else c.(claimSig := "");
      var body := ClaimBody(kept, rest);
      ClaimBodyBack(kept, rest);
      Flagged(body, kept, rest);
  }

  lemma Flagged(body: string, c: OtapClaim, rest: string)
    requires GetClaimBody(body) == Got(c, rest)
    ensures GetClaim([1 as char] + body) == Got(Some(c), rest)
  {
    assert ([1 as char] + body)[1..] == body;
  }

  lemma TailBack(tx: Tx, sigs: bool)
    requires Fits(tx)
    ensures GetTail(TailBytes(tx, sigs)) == Some((tx.outputs, KeptClaim(tx.claim, sigs), if sigs then tx.sig else ""))
  {
    var sig := if sigs then tx.sig else "";
    var b3 := Str(sig, "");
    var b2 := ClaimBytes(tx.claim, sigs, b3);
    var b1 := Outs(tx.outputs, b2);
    U32Back(|tx.outputs|, b1);
    OutsBack(tx.outputs, b2);
    ClaimBack(tx.claim, sigs, b3);
    StrBack(sig, "");
    GetInTurn(TailBytes(tx, sigs), b1, b2, b3, tx.outputs, KeptClaim(tx.claim, sigs), sig);
  }

  lemma GetInTurn(b: string, b1: string, b2: string, b3: string, outs: seq<TxOut>, claim: Option<OtapClaim>, sig: string)
    requires GetU32(b) == Got(|outs|, b1) && GetOuts(|outs|, b1) == Got(outs, b2)
    requires GetClaim(b2) == Got(claim, b3) && GetStr(b3) == Got(sig, "")
    ensures GetTail(b) == Some((outs, claim, sig))
  {
  }

  /** The decoder inverts the canonical encoding of every transaction that fits its widths. */
  lemma RoundTrip(tx: Tx, sigs: bool)
    requires Fits(tx)
    ensures Decode(Canonical(tx, sigs)) == Some(Kept(tx, sigs))
  {
    var b7 := TailBytes(tx, sigs);
    var b6 := Str(tx.gasAsset, b7);
    var b5 := I64(tx.fee, b6);
    var b4 := U64(tx.nonce, b5);
    var b3 := Str(tx.pubKey, b4);
    var b2 := Str(tx.from, b3);
    var b1 := Str(tx.txType, b2);
    var b0 := U32(tx.version, b1);
    assert Canonical(tx, sigs)[..6] == DomainTag && Canonical(tx, sigs)[6..] == b0;
    U32Back(tx.version, b1);
    StrBack(tx.txType, b2);
    StrBack(tx.from, b3);
    StrBack(tx.pubKey, b4);
    U64Back(tx.nonce, b5);
    I64Back(tx.fee, b6);
    StrBack(tx.gasAsset, b7);
    TailBack(tx, sigs);
  }

  lemma SigningBytesIgnore(tx: Tx)
    ensures SigningBytes(tx) == SigningBytes(Kept(tx, false))
  {
    var kept := Kept(tx, false);
    assert ClaimBytes(tx.claim, false, Str("", "")) == ClaimBytes(kept.claim, false, Str("", ""));
  }

  /** Two transactions sign the same bytes exactly when they agree in every field but the memo
      and the two signatures. */
  lemma SigningBytesIff(a: Tx, b: Tx)
    requires Fits(a) && Fits(b)
    ensures SigningBytes(a) == SigningBytes(b) <==> Kept(a, false) == Kept(b, false)
  {
    RoundTrip(a, false);
    RoundTrip(b, false);
    SigningBytesIgnore(a);
    SigningBytesIgnore(b);
  }

  // ----- the encoder as the source runs it, appending to a buffer -----

  // `todo` is what is still to come after this part; the whole stays the same.
  method Append(buf: string, part: string, ghost todo: string) returns (r: string)
    ensures r == buf + part
    ensures r + todo == buf + (part + todo)
  {
    r := buf + part;
    assert r + todo == buf + (part + todo);
  }

  method PutString(buf: string, s: string, ghost todo: string) returns (r: string)
    ensures r + todo == buf + Str(s, todo)
  {
    r := Append(buf, LittleEndian(4, |s|), s + todo);
    r := Append(r, s, todo);
  }

  method PutOut(buf: string, o: TxOut, ghost todo: string) returns (r: string)
    ensures r + todo == buf + Out(o, todo)
  {
    ghost var b7 := U32(o.policyBits, todo);
    ghost var b6 := Str(o.encMemo, b7);
    ghost var b5 := Str(o.tag, b6);
    ghost var b4 := Str(o.r, b5);
    ghost var b3 := Str(o.p, b4);
    ghost var b2 := Str(o.address, b3);
    ghost var b1 := Str(o.asset, b2);
    r := Append(buf, LittleEndian(8, o.amount % TwoTo64), b1);
    r := PutString(r, o.asset, b2);
    r := PutString(r, o.address, b3);
    r := PutString(r, o.p, b4);
    r := PutString(r, o.r, b5);
    r := PutString(r, o.tag, b6);
    r := PutString(r, o.encMemo, b7);
    r := Append(r, LittleEndian(4, o.policyBits), todo);
  }

  method PutClaim(buf: string, claim: Option<OtapClaim>, sigs: bool, ghost todo: string) returns (r: string)
    ensures r + todo == buf + ClaimBytes(claim, sigs, todo)
  {
    if claim.None? {
      r := Append(buf, [0 as char], todo);
      return;
    }
    var c := if sigs then claim.value else claim.value.(claimSig := "");
    ghost var b5 := Str(c.claimSig, todo);
    ghost var b4 := I64(c.amount, b5);
    ghost var b3 := Str(c.to, b4);
    ghost var b2 := Str(c.tag, b3);
    ghost var b1 := Str(c.r, b2);
    r := Append(buf, [1 as char], Str(c.p, b1));
    r := PutString(r, c.p, b1);
    r := PutString(r, c.r, b2);
    r := PutString(r, c.tag, b3);
    r := PutString(r, c.to, b4);
    r := Append(r, LittleEndian(8, c.amount % TwoTo64), b5);
    r := PutString(r, c.claimSig, todo);
  }

  method PutTail(buf: string, tx: Tx, sigs: bool) returns (r: string)
    ensures r == buf + TailBytes(tx, sigs)
  {
    var sig := if sigs then tx.sig else "";
    ghost var b3 := Str(sig, "");
    ghost var b2 := ClaimBytes(tx.claim, sigs, b3);
    r := Append(buf, LittleEndian(4, |tx.outputs|), Outs(tx.outputs, b2));
    assert tx.outputs[0..] == tx.outputs;
    for i := 0 to |tx.outputs|
      invariant r + Outs(tx.outputs[i..], b2) == buf + TailBytes(tx, sigs)
    {
      assert tx.outputs[i..][1..] == tx.outputs[i + 1..];
      r := PutOut(r, tx.outputs[i], Outs(tx.outputs[i + 1..], b2));
    }
    r := PutClaim(r, tx.claim, sigs, b3);
    r := PutString(r, sig, "");
    assert r + "" == r;
  }

  method CanonicalTxBytes(tx: Tx, sigs: bool) returns (r: string)
    ensures r == Canonical(tx, sigs)
  {
    ghost var b7 := TailBytes(tx, sigs);
    ghost var b6 := Str(tx.gasAsset, b7);
    ghost var b5 := I64(tx.fee, b6);
    ghost var b4 := U64(tx.nonce, b5);
    ghost var b3 := Str(tx.pubKey, b4);
    ghost var b2 := Str(tx.from, b3);
    ghost var b1 := Str(tx.txType, b2);
    r := Append("", DomainTag, U32(tx.version, b1));
    r := Append(r, LittleEndian(4, tx.version), b1);
    r := PutString(r, tx.txType, b2);
    r := PutString(r, tx.from, b3);
    r := PutString(r, tx.pubKey, b4);
    r := Append(r, LittleEndian(8, tx.nonce), b5);
    r := Append(r, LittleEndian(8, tx.fee % TwoTo64), b6);
    r := PutString(r, tx.gasAsset, b7);
    r := PutTail(r, tx, sigs);
  }

  // ----- the layout, field after field -----

  /** Numbers start with their low byte. */
  lemma LowByteFirst()
    ensures LittleEndian(4, 0x04030201) == [1 as char, 2 as char, 3 as char, 4 as char]
  {
    assert LittleEndian(1, 4) == [4 as char] + LittleEndian(0, 0);
    assert LittleEndian(2, 0x0403) == [3 as char] + LittleEndian(1, 4);
    assert LittleEndian(3, 0x040302) == [2 as char] + LittleEndian(2, 0x0403);
  }

  function LengthThen(s: string): string { LittleEndian(4, |s|) + s }

  function Signed64(v: int): string { LittleEndian(8, v % TwoTo64) }

  function FlatOut(o: TxOut): string {
    Signed64(o.amount) + LengthThen(o.asset) + LengthThen(o.address) + LengthThen(o.p) + LengthThen(o.r)
    + LengthThen(o.tag) + LengthThen(o.encMemo) + LittleEndian(4, o.policyBits)
  }

  // What each output contributes, one after the other.
  function Joined(f: TxOut -> string, outs: seq<TxOut>): string {
    if outs == [] then "" else Joined(f, outs[..|outs| - 1]) + f(outs[|outs| - 1])
  }

  function FlatOuts(outs: seq<TxOut>): string { Joined(FlatOut, outs) }

  function FlatClaim(c: OtapClaim, sigs: bool): string {
    LengthThen(c.p) + LengthThen(c.r) + LengthThen(c.tag) + LengthThen(c.to) + Signed64(c.amount)
    + LengthThen(if sigs then c.claimSig else "")
  }

  function FlatHead(tx: Tx): string {
    "RSVTX1" + LittleEndian(4, tx.version) + LengthThen(tx.txType) + LengthThen(tx.from) + LengthThen(tx.pubKey)
    + LittleEndian(8, tx.nonce) + Signed64(tx.fee) + LengthThen(tx.gasAsset)
  }

  function FlatTail(tx: Tx, sigs: bool): string {
    LittleEndian(4, |tx.outputs|) + FlatOuts(tx.outputs)
    + (match tx.claim case None => [0 as char] case Some(c) => [1 as char] + FlatClaim(c, sigs))
    + LengthThen(if sigs then tx.sig else "")
  }

  lemma SignedAlike(v: int, rest: string)
    ensures I64(v, rest) == Signed64(v) + rest
  {
  }

  lemma StrAlike(s: string, rest: string)
    ensures Str(s, rest) == LengthThen(s) + rest
  {
    assert LittleEndian(4, |s|) + (s + rest) == LittleEndian(4, |s|) + s + rest;
  }

  lemma Assoc(a: string, b: string, c: string)
    ensures a + (b + c) == a + b + c
  {
  }

  // Two fields in front of the rest, as one.
  lemma TwoFields(a: string, b: string, whole: string, rest: string)
    requires whole == a + (b + rest)
    ensures whole == a + b + rest
  {
    Assoc(a, b, rest);
  }

  lemma OutAlike(o: TxOut, rest: string)
    ensures Out(o, rest) == FlatOut(o) + rest
  {
    var r7 := U32(o.policyBits, rest);
    var r6 := Str(o.encMemo, r7);
    var r5 := Str(o.tag, r6);
    var r4 := Str(o.r, r5);
    var r3 := Str(o.p, r4);
    var r2 := Str(o.address, r3);
    var r1 := Str(o.asset, r2);
    StrAlike(o.encMemo, r7);
    StrAlike(o.tag, r6);
    StrAlike(o.r, r5);
    StrAlike(o.p, r4);
    StrAlike(o.address, r3);
    StrAlike(o.asset, r2);
    SignedAlike(o.amount, r1);
    var f1 := Signed64(o.amount) + LengthThen(o.asset);
    var f2 := f1 + LengthThen(o.address);
    var f3 := f2 + LengthThen(o.p);
    var f4 := f3 + LengthThen(o.r);
    var f5 := f4 + LengthThen(o.tag);
    var f6 := f5 + LengthThen(o.encMemo);
    var whole := Out(o, rest);
    TwoFields(Signed64(o.amount), LengthThen(o.asset), whole, r2);
    TwoFields(f1, LengthThen(o.address), whole, r3);
    TwoFields(f2, LengthThen(o.p), whole, r4);
    TwoFields(f3, LengthThen(o.r), whole, r5);
    TwoFields(f4, LengthThen(o.tag), whole, r6);
    TwoFields(f5, LengthThen(o.encMemo), whole, r7);
    TwoFields(f6, LittleEndian(4, o.policyBits), whole, rest);
  }

  lemma {:induction false} JoinedCons(f: TxOut -> string, outs: seq<TxOut>)
    requires outs != []
    ensures Joined(f, outs) == f(outs[0]) + Joined(f, outs[1..])
    decreases |outs|
  {
    var n, rest := |outs| - 1, outs[1..];
    if n == 0 {
      assert outs[..0] == [] && rest == [];
    } else {
      JoinedCons(f, outs[..n]);
      assert outs[..n][1..] == rest[..n - 1] && rest[n - 1] == outs[n];
      Assoc(f(outs[0]), Joined(f, rest[..n - 1]), f(outs[n]));
    }
  }

  lemma {:induction false} OutsAlike(outs: seq<TxOut>, rest: string)
    ensures Outs(outs, rest) == FlatOuts(outs) + rest
    decreases |outs|
  {
    if outs != [] {
      OutsAlike(outs[1..], rest);
      OutAlike(outs[0], Outs(outs[1..], rest));
      JoinedCons(FlatOut, outs);
      Assoc(FlatOut(outs[0]), FlatOuts(outs[1..]), rest);
    }
  }

  lemma ClaimAlike(c: OtapClaim, sigs: bool, rest: string)
    ensures ClaimBody(if sigs then c else c.(claimSig := ""), rest) == FlatClaim(c, sigs) + rest
  {
    var sig := if sigs then c.claimSig else "";
    var r5 := Str(sig, rest);
    var r4 := I64(c.amount, r5);
    var r3 := Str(c.to, r4);
    var r2 := Str(c.tag, r3);
    var r1 := Str(c.r, r2);
    StrAlike(sig, rest);
    SignedAlike(c.amount, r5);
    StrAlike(c.to, r4);
    StrAlike(c.tag, r3);
    StrAlike(c.r, r2);
    StrAlike(c.p, r1);
    var whole := Str(c.p, r1);
    var f1 := LengthThen(c.p) + LengthThen(c.r);
    var f2 := f1 + LengthThen(c.tag);
    var f3 := f2 + LengthThen(c.to);
    var f4 := f3 + Signed64(c.amount);
    TwoFields(LengthThen(c.p), LengthThen(c.r), whole, r2);
    TwoFields(f1, LengthThen(c.tag), whole, r3);
    TwoFields(f2, LengthThen(c.to), whole, r4);
    TwoFields(f3, Signed64(c.amount), whole, r5);
    TwoFields(f4, LengthThen(sig), whole, rest);
  }

  lemma TailAlike(tx: Tx, sigs: bool)
    ensures TailBytes(tx, sigs) == FlatTail(tx, sigs)
  {
    var sig := if sigs then tx.sig else "";
    var last := Str(sig, "");
    StrAlike(sig, "");
    assert last == LengthThen(sig);
    var mark := match tx.claim case None => [0 as char] case Some(c) => [1 as char] + FlatClaim(c, sigs);
    if tx.claim.Some? {
      ClaimAlike(tx.claim.value, sigs, last);
      Assoc([1 as char], FlatClaim(tx.claim.value, sigs), last);
    }
    assert ClaimBytes(tx.claim, sigs, last) == mark + last;
    OutsAlike(tx.outputs, mark + last);
    var n, outs := LittleEndian(4, |tx.outputs|), FlatOuts(tx.outputs);
    TwoFields(n, outs, TailBytes(tx, sigs), mark + last);
    TwoFields(n + outs, mark, TailBytes(tx, sigs), last);
  }

  /** The canonical bytes are the domain tag and the fields in the order version, type, sender, key,
      nonce, fee, gas asset, outputs, claim, signature: strings after their length, a mark before the
      claim, and signatures left empty for signing. */
  lemma CanonicalLayout(tx: Tx, sigs: bool)
    ensures Canonical(tx, sigs) == FlatHead(tx) + FlatTail(tx, sigs)
  {
    TailAlike(tx, sigs);
    var tail := FlatTail(tx, sigs);
    var r6 := Str(tx.gasAsset, tail);
    var r5 := I64(tx.fee, r6);
    var r4 := U64(tx.nonce, r5);
    var r3 := Str(tx.pubKey, r4);
    var r2 := Str(tx.from, r3);
    var r1 := Str(tx.txType, r2);
    StrAlike(tx.gasAsset, tail);
    SignedAlike(tx.fee, r6);
    StrAlike(tx.pubKey, r4);
    StrAlike(tx.from, r3);
    StrAlike(tx.txType, r2);
    var whole := Canonical(tx, sigs);
    var f1 := "RSVTX1" + LittleEndian(4, tx.version);
    var f2 := f1 + LengthThen(tx.txType);
    var f3 := f2 + LengthThen(tx.from);
    var f4 := f3 + LengthThen(tx.pubKey);
    var f5 := f4 + LittleEndian(8, tx.nonce);
    var f6 := f5 + Signed64(tx.fee);
    TwoFields("RSVTX1", LittleEndian(4, tx.version), whole, r1);
    TwoFields(f1, LengthThen(tx.txType), whole, r2);
    TwoFields(f2, LengthThen(tx.from), whole, r3);
    TwoFields(f3, LengthThen(tx.pubKey), whole, r4);
    TwoFields(f4, LittleEndian(8, tx.nonce), whole, r5);
    TwoFields(f5, Signed64(tx.fee), whole, r6);
    TwoFields(f6, LengthThen(tx.gasAsset), whole, tail);
  }
}
