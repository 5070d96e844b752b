/** Transactions, headers and blocks (core/chain/tx.go, core/chain/block.go).
    A Go string or byte slice is a Dafny string with one character per byte. */
module ChainTypes {
  import opened Wrappers

  type Id = string
  type Hash = string

  datatype TxOut = TxOut(
    amount: int, asset: string, address: Id,
    p: string, r: string, tag: string, encMemo: string, policyBits: nat)

  datatype OtapClaim = OtapClaim(
    p: string, r: string, tag: string, to: Id, amount: int, claimSig: string)

  datatype Tx = Tx(
    version: nat, txType: string, from: Id, pubKey: string, sig: string,
    nonce: nat, fee: int, gasAsset: string,
    outputs: seq<TxOut>, claim: Option<OtapClaim>, memo: string)

  datatype Header = Header(
    version: nat, chainId: string, height: nat, timeUnix: int,
    prev: Hash, stateRoot: Hash, txRoot: Hash, bits: nat, nonce: nat)

  datatype Block = Block(header: Header, txs: seq<Tx>)

  // A height together with the hash of the block at that height.
  datatype Tip = Tip(height: nat, hash: Hash)

  const Coinbase := "coinbase"
  const Claim := "otap_claim"

  function Bucket(p: string): Id { "otap:" + p }
}
