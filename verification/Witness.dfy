/** An environment in which the assumptions of the theorems hold: a header hash without any
    collision whose every value meets every positive target, and rules that let every signed
    spend pass. Headers are numbered one to one, and a header's hash is that many zero bytes. */
module Witness {
  import opened Wrappers
  import opened ChainTypes
  import opened LedgerSpec
  import opened BlockRules
  import opened Pow
  import opened StateReplay
  import opened NodeTypes

  // ----- numbering headers one to one -----

  function Pair(a: nat, b: nat): (n: nat)
    ensures n > 0
    decreases a
  {
    if a == 0 then 2 * b + 1 else 2 * Pair(a - 1, b)
  }

  lemma {:induction false} PairInjective(a: nat, b: nat, c: nat, d: nat)
    requires Pair(a, b) == Pair(c, d)
    ensures a == c && b == d
    decreases a
  {
    if a > 0 && c > 0 { PairInjective(a - 1, b, c - 1, d); }
  }

  function OfInt(z: int): nat { if z >= 0 then 2 * z else -2 * z - 1 }

  function OfString(s: string): nat { if s == "" then 0 else Pair(s[0] as int, OfString(s[1..])) }

  lemma {:induction false} OfStringInjective(s: string, t: string)
    requires OfString(s) == OfString(t)
    ensures s == t
    decreases |s|
  {
    if s != "" && t != "" {
      PairInjective(s[0] as int, OfString(s[1..]), t[0] as int, OfString(t[1..]));
      OfStringInjective(s[1..], t[1..]);
      assert s == [s[0]] + s[1..] && t == [t[0]] + t[1..];
    }
  }

  function OfLinks(h: Header): nat {
    Pair(OfString(h.prev), Pair(OfString(h.stateRoot), Pair(OfString(h.txRoot), Pair(h.bits, h.nonce))))
  }

  function OfHeader(h: Header): nat {
    Pair(h.version, Pair(OfString(h.chainId), Pair(h.height, Pair(OfInt(h.timeUnix), OfLinks(h)))))
  }

  lemma OfLinksInjective(a: Header, b: Header)
    requires OfLinks(a) == OfLinks(b)
    ensures a.prev == b.prev && a.stateRoot == b.stateRoot && a.txRoot == b.txRoot && a.bits == b.bits && a.nonce == b.nonce
  {
    var a2, b2 := Pair(a.bits, a.nonce), Pair(b.bits, b.nonce);
    var a1, b1 := Pair(OfString(a.txRoot), a2), Pair(OfString(b.txRoot), b2);
    PairInjective(OfString(a.prev), Pair(OfString(a.stateRoot), a1), OfString(b.prev), Pair(OfString(b.stateRoot), b1));
    PairInjective(OfString(a.stateRoot), a1, OfString(b.stateRoot), b1);
    PairInjective(OfString(a.txRoot), a2, OfString(b.txRoot), b2);
    PairInjective(a.bits, a.nonce, b.bits, b.nonce);
    OfStringInjective(a.prev, b.prev);
    OfStringInjective(a.stateRoot, b.stateRoot);
    OfStringInjective(a.txRoot, b.txRoot);
  }

  lemma OfHeaderInjective(a: Header, b: Header)
    requires OfHeader(a) == OfHeader(b)
    ensures a == b
  {
    var a3, b3 := Pair(OfInt(a.timeUnix), OfLinks(a)), Pair(OfInt(b.timeUnix), OfLinks(b));
    var a2, b2 := Pair(a.height, a3), Pair(b.height, b3);
    PairInjective(a.version, Pair(OfString(a.chainId), a2), b.version, Pair(OfString(b.chainId), b2));
    PairInjective(OfString(a.chainId), a2, OfString(b.chainId), b2);
    PairInjective(a.height, a3, b.height, b3);
    PairInjective(OfInt(a.timeUnix), OfLinks(a), OfInt(b.timeUnix), OfLinks(b));
    OfStringInjective(a.chainId, b.chainId);
    OfLinksInjective(a, b);
  }

  // ----- the environment -----

  function Zeros(n: nat): (h: Hash)
    ensures |h| == n
  {
    seq(n, _ => 0 as char)
  }

  function ZeroHashOf(h: Header): Hash { Zeros(OfHeader(h)) }

  function Rules(): Config {
    Config(false, 0, FeeParams(0, 0, 1, Normal), 0, 0, 0, false, 0, _ => true, _ => true)
  }

  function Bench(allocs: seq<Allocation>): Env {
    Env(Rules(), "c", allocs, ZeroHashOf, (_, _, _) => None)
  }

  /** There is an environment without collisions. */
  lemma BenchCollisionFree(allocs: seq<Allocation>)
    ensures CollisionFree(Bench(allocs))
  {
    forall a: Header, b: Header | ZeroHashOf(a) == ZeroHashOf(b) ensures a == b {
      assert |ZeroHashOf(a)| == |ZeroHashOf(b)|;
      OfHeaderInjective(a, b);
    }
  }

  lemma BenchMeetsTarget(h: Header, bits: nat)
    requires CompactToBig(bits) > 0
    ensures MeetsTarget(ZeroHashOf(h), bits)
  {
    ZeroHash(OfHeader(h));
  }

  // Headers of light and of heavy blocks.
  function Head(height: nat, prev: Hash, bits: nat, nonce: nat): Header {
    Header(1, "c", height, 0, prev, "", "", bits, nonce)
  }

  function Light(): nat { HardBits(1) }

  function Heavy(): nat { EasyBits(1) }

  lemma WorkOfBits()
    ensures CompactToBig(Light()) > 0 && Work64(Light()) == 1
    ensures CompactToBig(Heavy()) > 0 && Work64(Heavy()) == 255
  {
    HardWork(1);
    EasyWork(1);
  }

  // A transfer of one unit from "a" to "b" that pays no fee.
  function Pay(n: nat): Tx {
    Tx(1, "transfer", "a", "a", "s", n, 0, "", [TxOut(1, "", "b", "", "", "", "", 0)], None, "")
  }

  function Funds(): seq<Allocation> { [Allocation("a", 10)] }

  lemma PayIsFine(n: nat)
    ensures BasicOk(Rules(), [Pay(n)]) && LimitsOk(Rules(), [Pay(n)]) && BasicOk(Rules(), []) && LimitsOk(Rules(), [])
  {
    assert SpendOk(Rules(), Pay(n));
  }

  lemma PayRuns(l: Ledger, n: nat)
    requires n == NonceOf(l.nonce, "a") + 1 && Balance(l.bal, "a") >= 1
    ensures RunTxs(l, [Pay(n)]).Ok? && DbTxs(l, [Pay(n)]).ledger.nonce == l.nonce["a" := n]
    ensures Balance(l.bal, "b") >= 0 ==> DbTxs(l, [Pay(n)]).ok && Balance(DbTxs(l, [Pay(n)]).ledger.bal, "b") >= 0
    ensures Balance(l.bal, "b") >= 0 ==> Balance(DbTxs(l, [Pay(n)]).ledger.bal, "a") == Balance(l.bal, "a") - 1
  {
    var pay := Pay(n);
    assert pay.outputs[1..] == [] && [pay][1..] == [];
    assert OutTotal(pay.outputs) == 1 + OutTotal(pay.outputs[1..]);
    assert StepTx(l, pay).Ok?;
    assert RunTxs(StepTx(l, pay).value, [pay][1..]).Ok?;
    var e := SetNonceIn(AddBal(l, "a", -1).ledger, "a", n);
    var credited := AddBal(e, "b", 1);
    assert DbTx(l, pay) == DbCredits(e, pay.outputs);
    if credited.ok { assert DbCredits(credited.ledger, pay.outputs[1..]) == credited; }
    assert DbCredits(e, pay.outputs) == credited;
    if credited.ok { assert DbTxs(credited.ledger, [pay][1..]) == credited; }
    assert DbTxs(l, [pay]) == credited;
  }

  lemma PayOutOfTurn(l: Ledger)
    requires NonceOf(l.nonce, "a") == 0
    ensures RunTxs(l, [Pay(2)]).Err?
  {
    assert StepTx(l, Pay(2)).Err?;
  }

  lemma PayUnfunded(l: Ledger)
    requires Balance(l.bal, "a") == 0
    ensures !DbTxs(l, [Pay(1)]).ok && RunTxs(l, [Pay(1)]).Err?
  {
    var pay := Pay(1);
    assert pay.outputs[1..] == [];
    assert OutTotal(pay.outputs) == 1 + OutTotal(pay.outputs[1..]);
    assert !DbTx(l, pay).ok && StepTx(l, pay).Err?;
  }

  lemma GenesisFunds()
    ensures Genesis(Funds()) == Ledger(map["a" := 10], map[])
    ensures DistinctAddresses(Funds())
  {
    assert Funds()[..0] == [];
    assert Genesis(Funds()[..0]) == Ledger(map[], map[]);
  }
}
