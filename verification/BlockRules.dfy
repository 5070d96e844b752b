/** Block rules that do not depend on any ledger (core/node/limits_validate.go and
    ValidateBlockBasic). Signature schemes are predicates supplied by the environment. */
module BlockRules {
  import opened Wrappers
  import opened ChainTypes

  datatype FeeMode = Normal | Defense | Containment

  datatype FeeParams = FeeParams(baseFeeMin: int, perByte: int, otapMultiplier: int, mode: FeeMode)

  datatype Config = Config(
    issuance: bool, blockReward: int, fees: FeeParams,
    maxBlockTxs: int, maxBlockBytes: int, maxTxOutputs: int,
    validateForkState: bool, maxReplayBlocks: nat,
    sigOk: Tx -> bool, claimSigOk: Tx -> bool)

  // ----- fees -----

  predicate HasOtapOutput(tx: Tx) { exists i :: 0 <= i < |tx.outputs| && tx.outputs[i].p != "" && tx.outputs[i].r != "" }

  function SizeHint(tx: Tx): nat { 180 + 80 * |tx.outputs| }

  function EstimateFee(size: nat, isOtap: bool, p: FeeParams): int {
    var plain := p.baseFeeMin + p.perByte * size;
    var otap := if isOtap && p.otapMultiplier > 1 then plain * p.otapMultiplier else plain;
    var fee := match p.mode case Normal => otap case Defense => otap * 2 case Containment => otap * 4;
    if fee < p.baseFeeMin then p.baseFeeMin else fee
  }

  // ----- the rules -----

  predicate SpendOk(cfg: Config, tx: Tx) {
    && tx.txType != Coinbase
    && tx.fee >= EstimateFee(SizeHint(tx), HasOtapOutput(tx), cfg.fees)
    && tx.from != "" && tx.pubKey != "" && tx.sig != ""
    && tx.from == tx.pubKey
    && cfg.sigOk(tx)
    && (tx.txType == Claim ==>
          && tx.claim.Some? && tx.claim.value.p != "" && tx.claim.value.to == tx.from
          && tx.claim.value.claimSig != "" && cfg.claimSigOk(tx))
  }

  predicate CoinbaseOk(cfg: Config, tx: Tx) {
    tx.txType == Coinbase && |tx.outputs| == 1 && tx.outputs[0].amount == cfg.blockReward
  }

  // Transactions before this index are coinbases.
  function FirstSpend(cfg: Config): nat { if cfg.issuance then 1 else 0 }

  predicate BasicOk(cfg: Config, txs: seq<Tx>) {
    && (cfg.issuance ==> |txs| > 0 && CoinbaseOk(cfg, txs[0]))
    && forall i :: FirstSpend(cfg) <= i < |txs| ==> SpendOk(cfg, txs[i])
  }

  function BlockSize(txs: seq<Tx>): nat {
    if txs == [] then 256 else BlockSize(txs[..|txs| - 1]) + 128 + 64 * |txs[|txs| - 1].outputs|
  }

  predicate LimitsOk(cfg: Config, txs: seq<Tx>) {
    && (cfg.maxBlockTxs > 0 ==> |txs| <= cfg.maxBlockTxs)
    && (cfg.maxBlockBytes > 0 ==> BlockSize(txs) <= cfg.maxBlockBytes)
    && (cfg.maxTxOutputs > 0 ==> forall i :: 0 <= i < |txs| ==> |txs[i].outputs| <= cfg.maxTxOutputs)
  }

  method CheckSpend(cfg: Config, tx: Tx) returns (r: Option<string>)
    ensures r.None? <==> SpendOk(cfg, tx)
  {
    if tx.txType == Coinbase { return Some("coinbase forbidden in non-first position"); }
    var isOtap := false;
    for i := 0 to |tx.outputs|
      invariant isOtap <==> exists k :: 0 <= k < i && tx.outputs[k].p != "" && tx.outputs[k].r != ""
    {
      if tx.outputs[i].p != "" && tx.outputs[i].r != "" { isOtap := true; break; }
    }
    if tx.fee < EstimateFee(SizeHint(tx), isOtap, cfg.fees) { return Some("tx fee below policy"); }
    if tx.from == "" || tx.pubKey == "" || tx.sig == "" { return Some("missing tx signature"); }
    if tx.from != tx.pubKey { return Some("from/pub mismatch"); }
    if !cfg.sigOk(tx) { return Some("bad tx signature"); }
    if tx.txType == Claim {
      if tx.claim.None? || tx.claim.value.p == "" || tx.claim.value.to == "" { return Some("bad otap_claim"); }
      if tx.claim.value.to != tx.from { return Some("claim_to must equal from"); }
      if tx.claim.value.claimSig == "" { return Some("missing claim_sig"); }
      if !cfg.claimSigOk(tx) { return Some("bad claim signature"); }
    }
    return None;
  }

  /** Accepts exactly the blocks with one well-formed coinbase in front when issuance is on,
      none when it is off, and properly signed, fee-paying spends everywhere else. */
  method ValidateBlockBasic(cfg: Config, b: Block) returns (r: Option<string>)
    ensures r.None? <==> BasicOk(cfg, b.txs)
  {
    var txs := b.txs;
    if cfg.issuance {
      if |txs| == 0 { return Some("missing coinbase"); }
      if txs[0].txType != Coinbase { return Some("coinbase must be first"); }
      for i := 1 to |txs|
        invariant forall k :: 1 <= k < i ==> txs[k].txType != Coinbase
      {
        if txs[i].txType == Coinbase { return Some("multiple coinbase"); }
      }
      if |txs[0].outputs| != 1 { return Some("coinbase must have exactly 1 output"); }
      if txs[0].outputs[0].amount != cfg.blockReward { return Some("bad coinbase amount"); }
    } else {
      for i := 0 to |txs|
        invariant forall k :: 0 <= k < i ==> txs[k].txType != Coinbase
      {
        if txs[i].txType == Coinbase { return Some("coinbase disabled"); }
      }
    }
    for i := 0 to |txs|
      invariant forall k :: FirstSpend(cfg) <= k < i ==> SpendOk(cfg, txs[k])
    {
      if cfg.issuance && i == 0 { continue; }
      var e := CheckSpend(cfg, txs[i]);
      if e.Some? { return e; }
    }
    return None;
  }

  method ValidateLimits(cfg: Config, b: Block) returns (r: Option<string>)
    ensures r.None? <==> LimitsOk(cfg, b.txs)
  {
    var txs := b.txs;
    if cfg.maxBlockTxs > 0 && |txs| > cfg.maxBlockTxs { return Some("too_many_txs"); }
    var size := 256 + |txs| * 128;
    for i := 0 to |txs|
      invariant size == BlockSize(txs[..i]) + (|txs| - i) * 128
    {
      assert txs[..i + 1][..i] == txs[..i];
      size := size + |txs[i].outputs| * 64;
    }
    assert txs[..|txs|] == txs;
    if cfg.maxBlockBytes > 0 && size > cfg.maxBlockBytes { return Some("block_too_large"); }
    for i := 0 to |txs|
      invariant cfg.maxTxOutputs > 0 ==> forall k :: 0 <= k < i ==> |txs[k].outputs| <= cfg.maxTxOutputs
    {
      if cfg.maxTxOutputs > 0 && |txs[i].outputs| > cfg.maxTxOutputs { return Some("tx_too_many_outputs"); }
    }
    return None;
  }

  // ----- fees and sizes, in closed form -----

  // How many times the plain fee is asked for.
  function Factor(isOtap: bool, p: FeeParams): int {
    (if isOtap && p.otapMultiplier >= 2 then p.otapMultiplier else 1)
    * (if p.mode == Containment then 4 else if p.mode == Defense then 2 else 1)
  }

  /** The policy fee is the base fee plus the fee per byte of 180 bytes and 80 for each output, times
      the multiplier for one-time outputs, twice that in defense and four times in containment; with
      fees that are not negative it is never below the base fee. */
  lemma FeePolicy(tx: Tx, p: FeeParams)
    requires p.baseFeeMin >= 0 && p.perByte >= 0
    ensures EstimateFee(SizeHint(tx), HasOtapOutput(tx), p) ==
            (p.baseFeeMin + p.perByte * (180 + 80 * |tx.outputs|)) * Factor(HasOtapOutput(tx), p)
    ensures EstimateFee(SizeHint(tx), HasOtapOutput(tx), p) >= p.baseFeeMin
  {
    var plain, n := p.baseFeeMin + p.perByte * SizeHint(tx), if HasOtapOutput(tx) && p.otapMultiplier >= 2 then p.otapMultiplier else 1;
    assert p.perByte * SizeHint(tx) >= 0;
    AtLeastOnce(plain, n);
    var k := if p.mode == Containment then 4 else if p.mode == Defense then 2 else 1;
    assert plain * n * k == plain * (n * k);
  }

  lemma AtLeastOnce(x: int, n: int)
    requires x >= 0 && n >= 1
    ensures x * n >= x
  {
    assert x * n - x == x * (n - 1);
  }

  function OutputCount(txs: seq<Tx>): nat { if txs == [] then 0 else |txs[0].outputs| + OutputCount(txs[1..]) }

  lemma {:induction false} OutputCountLast(txs: seq<Tx>)
    requires txs != []
    ensures OutputCount(txs) == OutputCount(txs[..|txs| - 1]) + |txs[|txs| - 1].outputs|
    decreases |txs|
  {
    var n := |txs| - 1;
    if n > 0 {
      OutputCountLast(txs[1..]);
      assert txs[..n][1..] == txs[1..][..n - 1];
    }
  }

  /** A block's estimated size is 256 bytes, 128 for each transaction and 64 for each output. */
  lemma {:induction false} BlockSizeIs(txs: seq<Tx>)
    ensures BlockSize(txs) == 256 + 128 * |txs| + 64 * OutputCount(txs)
    decreases |txs|
  {
    if txs != [] {
      BlockSizeIs(txs[..|txs| - 1]);
      OutputCountLast(txs);
    }
  }
}
