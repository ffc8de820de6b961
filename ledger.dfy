/** The in-memory ledger engine: chain, mempool, difficulty and cumulative
    issuance, with mining, fork choice and transaction admission. */
module Ledger {
  import opened LedgerTypes
  import opened RewardSchedule
  import opened Balances

  /** Header of the genesis block created at time `now`. */
  function GenesisHeader(now: string): Header
  {
    Header(0, now, 0, Zeros(64), [], None)
  }

  /** Read-only copy of the engine's state. */
  datatype State = State(chain: seq<Block>, pending: seq<Tx>, difficulty: int,
                         totalIssued: real, maxSupply: real, baseReward: real)

  /** Outcome of a submission. */
  datatype SubmitResult =
    | Accepted(pendingCount: nat)
    | InvalidAmount
    | InsufficientBalance(balance: real)

  class Blockchain {
    var chain: seq<Block>
    var pending: seq<Tx>
    const difficulty: int
    var totalIssued: real
    /** The block hash: a deterministic function of a header. */
    const hasher: Header -> Digest

    ghost predicate Valid()
      reads this
    {
      |chain| > 0
    }

    /** Starts a ledger holding only the genesis block, stamped `now`. */
    constructor (hasher: Header -> Digest, now: string, difficulty: int := DefaultDifficulty)
      ensures Valid()
      ensures |chain| == 1 && chain[0].hash == hasher(chain[0].header)
      ensures chain[0].header.index == 0 && chain[0].header.nonce == 0
      ensures chain[0].header.timestamp == now && chain[0].header.miner == None
      ensures chain[0].header.transactions == []
      ensures |chain[0].header.previousHash| == 64
      ensures forall i :: 0 <= i < 64 ==> chain[0].header.previousHash[i] == '0'
      ensures pending == [] && totalIssued == 0.0
      ensures this.difficulty == difficulty && this.hasher == hasher
      ensures totalIssued == Issued(chain)
    {
      this.hasher := hasher;
      this.difficulty := difficulty;
      pending := [];
      totalIssued := 0.0;
      var genesis := GenesisHeader(now);
      chain := [Block(genesis, hasher(genesis))];
    }

    /** The tip of the chain. */
    function LastBlock(): (b: Block)
      reads this
      requires Valid()
      ensures b in chain && b == chain[|chain| - 1]
    {
      chain[|chain| - 1]
    }

    /** Appends `tx` to the mempool without any check. */
    method AddTransaction(tx: Tx)
      requires Valid()
      modifies this`pending
      ensures Valid()
      ensures pending == old(pending) + [tx]
    {
      pending := pending + [tx];
    }

    /** Spendable balance of `key`: sealed credits minus sealed debits,
        minus every pending debit. */
    method ComputeBalance(key: string) returns (bal: real)
      ensures bal == Balance(chain, pending, key)
    {
      bal := 0.0;
      for i := 0 to |chain|
        invariant bal == Sealed(chain[..i], key)
      {
        var txs := chain[i].header.transactions;
        for j := 0 to |txs|
          invariant bal == Sealed(chain[..i], key) + Net(txs[..j], key)
        {
          var t := txs[j];
          assert txs[..j + 1][..j] == txs[..j];
          if t.recipient == key {
            bal := bal + t.amount;
          }
          if t.sender == key {
            bal := bal - t.amount;
          }
        }
        assert txs[..|txs|] == txs;
        assert chain[..i + 1][..i] == chain[..i];
      }
      assert chain[..|chain|] == chain;
      for j := 0 to |pending|
        invariant bal == Sealed(chain, key) - Outgoing(pending[..j], key)
      {
        assert pending[..j + 1][..j] == pending[..j];
        if pending[j].sender == key {
          bal := bal - pending[j].amount;
        }
      }
      assert pending[..|pending|] == pending;
    }

    /** Subsidy of the next block before the supply clamp. */
    method CurrentReward() returns (reward: real)
      ensures reward == Reward(totalIssued)
      ensures 0.0 < reward <= BaseReward
    {
      var count := 0;
      for n := 1 to 64
        invariant count == n - 1
        invariant CountFrom(totalIssued, n) == Halvings(totalIssued)
      {
        if totalIssued >= Threshold(n) {
          count := n;
        } else {
          break;
        }
      }
      reward := BaseReward / (Pow2(count) as real);
      RewardBounds(totalIssued);
    }

    /** Transactions the next mined block would carry. */
    ghost function NextTransactions(miner: string, now: string): seq<Tx>
      reads this
    {
      [Coinbase(miner, ClampedReward(totalIssued), now)] + pending
    }

    /** Header hashed by trial `nonce` of the next mining search. */
    ghost function NextTrial(miner: string, now: string, clock: nat -> string, nonce: nat): Header
      reads this
      requires Valid()
    {
      TrialHeader(|chain|, LastBlock().hash, NextTransactions(miner, now), miner, clock, nonce)
    }

    /** Seals the mempool into a new block by trying nonces 0, 1, ... up to
        `maxTries`; trial `n` is stamped `clock(n)`. On success the block is
        appended, issuance grows by the clamped reward and the mempool is
        emptied; a search that runs out of tries changes nothing. */
    method MineBlock(miner: string, now: string, clock: nat -> string, maxTries: nat)
      returns (mined: Option<Block>)
      requires Valid()
      modifies this
      ensures Valid()
      ensures mined.None? ==>
        chain == old(chain) && pending == old(pending) && totalIssued == old(totalIssued)
      ensures mined.None? ==> forall n :: 0 <= n < maxTries ==>
        !StartsWith(hasher(old(NextTrial(miner, now, clock, n))), TargetPrefix(difficulty))
      ensures mined.None? ==> ToDict() == old(ToDict())
      ensures mined.Some? ==> chain == old(chain) + [mined.value]
      ensures mined.Some? ==> LastBlock() == mined.value
      ensures mined.Some? ==> pending == []
      ensures mined.Some? ==> totalIssued == old(totalIssued) + ClampedReward(old(totalIssued))
      ensures mined.Some? ==>
        var h := mined.value.header;
        && 0 <= h.nonce < maxTries
        && h == old(NextTrial(miner, now, clock, h.nonce))
        && h.index == |old(chain)|
        && h.previousHash == old(LastBlock().hash)
        && h.transactions == [Coinbase(miner, ClampedReward(old(totalIssued)), now)] + old(pending)
        && h.miner == Some(miner)
        && mined.value.hash == hasher(h)
        && StartsWith(mined.value.hash, TargetPrefix(difficulty))
        && forall n :: 0 <= n < h.nonce ==>
             !StartsWith(hasher(old(NextTrial(miner, now, clock, n))), TargetPrefix(difficulty))
      ensures old(totalIssued) <= MaxSupply ==> totalIssued <= MaxSupply
      ensures mined.Some? && old(totalIssued) == old(Issued(chain))
              && (forall i :: 0 <= i < |old(pending)| ==> old(pending)[i].sender != System)
              ==> totalIssued == Issued(chain)
    {
      var reward := CurrentReward();
      if totalIssued + reward > MaxSupply {
        reward := if MaxSupply - totalIssued > 0.0 then MaxSupply - totalIssued else 0.0;
      }
      assert reward == ClampedReward(totalIssued);
      ClampKeepsSupply(totalIssued);
      var coinbase := Coinbase(miner, reward, now);
      var transactions := [coinbase] + pending;
      var index := |chain|;
      var previousHash := LastBlock().hash;
      var target := TargetPrefix(difficulty);
      var found: Option<Block> := None;
      var nonce := 0;
      while nonce < maxTries
        invariant 0 <= nonce <= maxTries
        invariant found.None?
        invariant forall n :: 0 <= n < nonce ==>
          !StartsWith(hasher(TrialHeader(index, previousHash, transactions, miner, clock, n)), target)
      {
        var header := TrialHeader(index, previousHash, transactions, miner, clock, nonce);
        var h := hasher(header);
        if StartsWith(h, target) {
          found := Some(Block(header, h));
          break;
        }
        nonce := nonce + 1;
      }
      mined := found;
      if found.Some? {
        if forall i :: 0 <= i < |pending| ==> pending[i].sender != System {
          MinedIssuance(chain, pending, found.value, coinbase);
        }
        chain := chain + [found.value];
        totalIssued := totalIssued + reward;
        pending := [];
      }
    }

    /** Snapshot of the state for observers. */
    function ToDict(): (s: State)
      reads this
      ensures s.chain == chain && s.pending == pending && s.difficulty == difficulty
      ensures s.totalIssued == totalIssued
      ensures s.maxSupply == MaxSupply && s.baseReward == BaseReward
    {
      State(chain, pending, difficulty, totalIssued, MaxSupply, BaseReward)
    }

    /** Longest chain wins: adopts `other` exactly when it is non-empty and
        strictly longer, then recomputes issuance from it and empties the
        mempool. No block of `other` is checked. */
    method ReplaceChainIfLonger(other: seq<Block>) returns (replaced: bool)
      requires Valid()
      modifies this
      ensures Valid()
      ensures replaced <==> |other| > 0 && |other| > |old(chain)|
      ensures replaced ==> chain == other && pending == [] && totalIssued == Issued(other)
      ensures replaced ==> LastBlock() == other[|other| - 1]
      ensures !replaced ==> ToDict() == old(ToDict())
      ensures !replaced ==>
        chain == old(chain) && pending == old(pending) && totalIssued == old(totalIssued)
    {
      if |other| == 0 {
        return false;
      }
      if |other| > |chain| {
        chain := other;
        var total := 0.0;
        for i := 0 to |chain|
          invariant total == Issued(chain[..i])
        {
          var txs := chain[i].header.transactions;
          for j := 0 to |txs|
            invariant total == Issued(chain[..i]) + SystemIssued(txs[..j])
          {
            assert txs[..j + 1][..j] == txs[..j];
            if txs[j].sender == System {
              total := total + txs[j].amount;
            }
          }
          assert txs[..|txs|] == txs;
          assert chain[..i + 1][..i] == chain[..i];
        }
        assert chain[..|chain|] == chain;
        totalIssued := total;
        pending := [];
        return true;
      }
      return false;
    }
  }

  /** Admission of a submitted transaction: a non-positive amount is
      refused, then a sender whose spendable balance is below the amount;
      otherwise the transaction joins the end of the mempool. The timestamp
      falls back to `now` when none (or an empty one) is given. */
  method Submit(ledger: Blockchain, sender: string, recipient: string, amount: real,
                signature: Option<string>, timestamp: Option<string>, now: string)
    returns (result: SubmitResult)
    requires ledger.Valid()
    modifies ledger
    ensures ledger.Valid()
    ensures ledger.chain == old(ledger.chain) && ledger.totalIssued == old(ledger.totalIssued)
    ensures amount <= 0.0 ==> result == InvalidAmount
    ensures amount > 0.0 && old(Balance(ledger.chain, ledger.pending, sender)) < amount ==>
      result == InsufficientBalance(old(Balance(ledger.chain, ledger.pending, sender)))
    ensures amount > 0.0 && old(Balance(ledger.chain, ledger.pending, sender)) >= amount ==>
      result == Accepted(|old(ledger.pending)| + 1)
    ensures result.Accepted? ==> ledger.pending == old(ledger.pending) + [Tx(sender, recipient, amount,
      signature, if timestamp.Some? && timestamp.value != "" then timestamp.value else now)]
    ensures !result.Accepted? ==> ledger.pending == old(ledger.pending)
    ensures !result.Accepted? ==> ledger.ToDict() == old(ledger.ToDict())
    ensures result.Accepted? ==> Balance(ledger.chain, ledger.pending, sender) >= 0.0
  {
    if amount <= 0.0 {
      return InvalidAmount;
    }
    var bal := ledger.ComputeBalance(sender);
    if bal < amount {
      return InsufficientBalance(bal);
    }
    var stamp := if timestamp.Some? && timestamp.value != "" then timestamp.value else now;
    var tx := Tx(sender, recipient, amount, signature, stamp);
    PendingAppendBalance(ledger.chain, ledger.pending, tx, sender);
    ledger.AddTransaction(tx);
    result := Accepted(|ledger.pending|);
  }
}
