/** The in-memory chain of fake mode: packages/blockchain/src/fake-blockchain-adapter.ts.
    Block height follows the clock, and every transfer is filed twice. */
module FakeBlockchain {
  import opened Common
  import opened BlockchainScan
  import opened PaymentConfirm

  /** The two indices over the same transfers. */
  datatype Chain = Chain(
    genesis: int, blockTimeMs: nat,
    byTxHash: map<string, Transfer>, byBlock: map<nat, seq<Transfer>>)
  {
    /** `blockTimeMs` is positive; the division rounds down, also before genesis. */
    function CurrentBlock(now: int): nat
      requires blockTimeMs > 0
    {
      var n := (now - genesis) / blockTimeMs;
      if n < 0 then 0 else n
    }

    function AtBlock(b: nat): seq<Transfer> {
      if b in byBlock then byBlock[b] else []
    }

    /** Transfers of blocks `from` to `to`, in block order. */
    function Between(from: nat, to: int): seq<Transfer>
      decreases (to)
    {
      if to < from then [] else Between(from, to - 1) + AtBlock(to)
    }

    function Confirmations(txHash: string, now: int): Reply
      requires blockTimeMs > 0
    {
      if txHash !in byTxHash then NotFound
      else
        var depth := CurrentBlock(now) - byTxHash[txHash].blockNumber;
        Found(if depth < 0 then 0 else depth)
    }

    /** The indices list the same transfers, each under its own hash and block. */
    ghost predicate Valid() {
      && blockTimeMs > 0
      && (forall h :: h in byTxHash ==> byTxHash[h].txHash == h && byTxHash[h] in AtBlock(byTxHash[h].blockNumber))
      && (forall b: nat, t :: t in AtBlock(b) ==> t.blockNumber == b && t.txHash in byTxHash && byTxHash[t.txHash] == t)
      && (forall b: nat :: Distinct(AtBlock(b)))
    }

    function File(t: Transfer): Chain {
      this.(byTxHash := byTxHash[t.txHash := t], byBlock := byBlock[t.blockNumber := AtBlock(t.blockNumber) + [t]])
    }
  }

  /** Filing appends to one block and leaves the others alone. */
  lemma FiledBlocks(c: Chain, t: Transfer)
    ensures forall b: nat :: c.File(t).AtBlock(b) == if b == t.blockNumber then c.AtBlock(b) + [t] else c.AtBlock(b)
    ensures forall b: nat, x :: x in c.File(t).AtBlock(b) <==> x in c.AtBlock(b) || (b == t.blockNumber && x == t)
  {
    var block := c.AtBlock(t.blockNumber);
    assert forall x :: x in block + [t] <==> x in block || x == t;
  }

  lemma FileKeepsIndices(c: Chain, t: Transfer)
    requires c.Valid() && t.txHash !in c.byTxHash
    ensures var c' := c.File(t);
      && (forall h :: h in c'.byTxHash ==> c'.byTxHash[h].txHash == h && c'.byTxHash[h] in c'.AtBlock(c'.byTxHash[h].blockNumber))
      && (forall b: nat, x :: x in c'.AtBlock(b) ==> x.blockNumber == b && x.txHash in c'.byTxHash && c'.byTxHash[x.txHash] == x)
  {
    FiledBlocks(c, t);
  }

  lemma FileKeepsDistinct(c: Chain, t: Transfer)
    requires c.Valid() && t.txHash !in c.byTxHash
    ensures forall b: nat :: Distinct(c.File(t).AtBlock(b))
  {
    FiledBlocks(c, t);
    forall b: nat ensures Distinct(c.File(t).AtBlock(b)) {
      assert t !in c.AtBlock(t.blockNumber) && Distinct(c.AtBlock(b));
    }
  }

  lemma FileKeepsValid(c: Chain, t: Transfer)
    requires c.Valid() && t.txHash !in c.byTxHash
    ensures c.File(t).Valid()
    ensures forall b: nat :: c.File(t).AtBlock(b) == if b == t.blockNumber then c.AtBlock(b) + [t] else c.AtBlock(b)
  {
    FiledBlocks(c, t);
    FileKeepsIndices(c, t);
    FileKeepsDistinct(c, t);
  }

  /** A ranged scan returns exactly the filed transfers of the range, none twice. */
  lemma {:induction false} BetweenMeans(c: Chain, from: nat, to: int)
    requires c.Valid()
    ensures forall t :: t in c.Between(from, to) <==> from <= t.blockNumber <= to && t in c.AtBlock(t.blockNumber)
    ensures Distinct(c.Between(from, to))
    decreases (to)
  {
    if from <= to {
      BetweenMeans(c, from, to - 1);
      var lo, hi := c.Between(from, to - 1), c.AtBlock(to);
      forall t: Transfer ensures t in lo + hi <==> from <= t.blockNumber <= to && t in c.AtBlock(t.blockNumber) {
        assert t in hi ==> t.blockNumber == to;
      }
      forall i, j | 0 <= i < j < |lo + hi| ensures (lo + hi)[i] != (lo + hi)[j] {
        if i < |lo| && j >= |lo| {
          assert lo[i] in lo && hi[j - |lo|] in hi;
        }
      }
    }
  }

  /** Adjacent ranges join without loss or repetition. */
  lemma {:induction false} BetweenJoins(c: Chain, from: nat, mid: nat, to: int)
    requires from <= mid + 1 && mid <= to
    ensures c.Between(from, to) == c.Between(from, mid) + c.Between(mid + 1, to)
    decreases (to)
  {
    if mid < to {
      BetweenJoins(c, from, mid, to - 1);
    }
  }

  /** Block `b` is the current one for exactly one block time, starting `b` block times
      after genesis; before genesis it is block 0. */
  lemma BlockClock(c: Chain, b: nat, now: int)
    requires c.blockTimeMs > 0
    ensures c.CurrentBlock(now) >= b <==> b == 0 || now >= c.genesis + b * c.blockTimeMs
  {
    var a, d := now - c.genesis, c.blockTimeMs;
    var n := a / d;
    assert a == d * n + a % d;
    if n < b {
      MultiplesApart(d, n, b);
    } else if b < n {
      MultiplesApart(d, b, n);
    }
    assert b * d == d * b;
  }

  /** A transfer has at least n confirmations exactly when n more blocks were due. */
  lemma ConfirmationsAccrue(c: Chain, t: Transfer, n: nat, now: int)
    requires c.Valid() && t in c.AtBlock(t.blockNumber)
    ensures c.Confirmations(t.txHash, now).Found?
    ensures c.Confirmations(t.txHash, now).confirmations >= n <==>
            n == 0 || now >= c.genesis + (t.blockNumber + n) * c.blockTimeMs
  {
    BlockClock(c, t.blockNumber + n, now);
  }

  /** The adapter finds exactly the hashes that were filed, and says how many blocks were
      added since, none for a clock that went back. */
  lemma AnswersMean(c: Chain, h: string, now: int)
    requires c.blockTimeMs > 0
    ensures c.Confirmations(h, now) == NotFound <==> h !in c.byTxHash
    ensures c.Confirmations(h, now) != RpcError
    ensures h in c.byTxHash ==>
      var b, n := c.byTxHash[h].blockNumber, c.Confirmations(h, now).confirmations;
      if c.CurrentBlock(now) < b then n == 0 else b + n == c.CurrentBlock(now)
  {
  }

  /** Seen through either index a transfer is the same, and its confirmations never
      drop while the clock runs forward. */
  lemma ConfirmationsGrow(c: Chain, t: Transfer, now: int, later: int)
    requires c.Valid() && t in c.AtBlock(t.blockNumber) && now <= later
    ensures c.Confirmations(t.txHash, now).Found? && c.Confirmations(t.txHash, later).Found?
    ensures c.Confirmations(t.txHash, now).confirmations <= c.Confirmations(t.txHash, later).confirmations
    ensures c.CurrentBlock(now) <= c.CurrentBlock(later)
  {
    HeightGrows(c, now, later);
  }

  lemma HeightGrows(c: Chain, now: int, later: int)
    requires c.blockTimeMs > 0 && now <= later
    ensures c.CurrentBlock(now) <= c.CurrentBlock(later)
  {
    DivisionIsMonotone(now - c.genesis, later - c.genesis, c.blockTimeMs);
  }

  lemma DivisionIsMonotone(a: int, b: int, d: nat)
    requires a <= b && d > 0
    ensures a / d <= b / d
  {
    var q, r := a / d, b / d;
    assert a == d * q + a % d && b == d * r + b % d;
    if r < q {
      MultiplesApart(d, r, q);
    }
  }

  lemma {:induction false} MultiplesApart(d: nat, r: int, q: int)
    requires r < q
    ensures d * r + d <= d * q
    decreases q - r
  {
    var q1 := q - 1;
    assert d * q == d * q1 + d;
    if r < q1 {
      MultiplesApart(d, r, q1);
    }
  }

  class FakeBlockchainAdapter {
    const blockTimeMs: nat
    const genesis: int
    var transfersByTxHash: map<string, Transfer>
    var transfersByBlock: map<nat, seq<Transfer>>

    function State(): Chain
      reads this
    {
      Chain(genesis, blockTimeMs, transfersByTxHash, transfersByBlock)
    }

    constructor (blockTimeMs: nat, now: int)
      requires blockTimeMs > 0
      ensures State() == Chain(now, blockTimeMs, map[], map[]) && State().Valid()
    {
      this.blockTimeMs, this.genesis := blockTimeMs, now;
      transfersByTxHash, transfersByBlock := map[], map[];
    }

    /** `txHash` stands for the random hash: no transfer has it yet. */
    method SimulatePayment(txHash: string, network: string, token: string, fromAddress: string, toAddress: string,
                           amount: nat, now: int)
      returns (t: Transfer)
      requires State().Valid() && txHash !in transfersByTxHash
      modifies this
      ensures t == Transfer(txHash, network, token, fromAddress, toAddress, amount, old(State()).CurrentBlock(now))
      ensures State() == old(State()).File(t) && State().Valid()
    {
      FileKeepsValid(State(), Transfer(txHash, network, token, fromAddress, toAddress, amount, State().CurrentBlock(now)));
      t := Transfer(txHash, network, token, fromAddress, toAddress, amount, State().CurrentBlock(now));
      transfersByTxHash := transfersByTxHash[txHash := t];
      var atBlock := if t.blockNumber in transfersByBlock then transfersByBlock[t.blockNumber] else [];
      atBlock := atBlock + [t];
      transfersByBlock := transfersByBlock[t.blockNumber := atBlock];
    }

    method GetTokenTransfers(fromBlock: nat, toBlock: int) returns (transfers: seq<Transfer>)
      ensures transfers == State().Between(fromBlock, toBlock)
    {
      transfers := [];
      var block := fromBlock;
      while block <= toBlock
        invariant fromBlock <= block && (block <= toBlock + 1 || block == fromBlock)
        invariant transfers == State().Between(fromBlock, block - 1)
        decreases toBlock - block
      {
        if block in transfersByBlock {
          transfers := transfers + transfersByBlock[block];
        }
        block := block + 1;
      }
    }
  }
}
