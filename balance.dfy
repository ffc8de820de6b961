/** Balances and issuance as folds over the sealed chain and the mempool.
    Every fold runs left to right, in the order the engine's loops do. */
module Balances {
  import opened LedgerTypes

  /** What one transaction does to the balance of `key`: credited as
      recipient, debited as sender (both, and so nothing, for a self-transfer). */
  function TxNet(t: Tx, key: string): real
  {
    (if t.recipient == key then t.amount else 0.0)
      - (if t.sender == key then t.amount else 0.0)
  }

  function Net(txs: seq<Tx>, key: string): real
  {
    if txs == [] then 0.0
    else Net(txs[..|txs| - 1], key) + TxNet(txs[|txs| - 1], key)
  }

  /** Balance of `key` over the sealed blocks alone. */
  function Sealed(chain: seq<Block>, key: string): real
  {
    if chain == [] then 0.0
    else Sealed(chain[..|chain| - 1], key) + Net(chain[|chain| - 1].header.transactions, key)
  }

  /** Sum of the amounts `key` sends. */
  function Outgoing(txs: seq<Tx>, key: string): real
  {
    if txs == [] then 0.0
    else Outgoing(txs[..|txs| - 1], key)
         + (if txs[|txs| - 1].sender == key then txs[|txs| - 1].amount else 0.0)
  }

  /** Sum of the amounts `key` receives. */
  function Incoming(txs: seq<Tx>, key: string): real
  {
    if txs == [] then 0.0
    else Incoming(txs[..|txs| - 1], key)
         + (if txs[|txs| - 1].recipient == key then txs[|txs| - 1].amount else 0.0)
  }

  /** Spendable balance: sealed history minus everything `key` has pending
      as sender. Pending incoming amounts are not counted. */
  function Balance(chain: seq<Block>, pending: seq<Tx>, key: string): real
  {
    Sealed(chain, key) - Outgoing(pending, key)
  }

  /** Sum of the amounts of the transactions sent by SYSTEM. */
  function SystemIssued(txs: seq<Tx>): real
  {
    Outgoing(txs, System)
  }

  /** Cumulative issuance recomputed from a chain. */
  function Issued(chain: seq<Block>): real
  {
    if chain == [] then 0.0
    else Issued(chain[..|chain| - 1]) + SystemIssued(chain[|chain| - 1].header.transactions)
  }

  lemma {:induction false} NetAppend(a: seq<Tx>, b: seq<Tx>, key: string)
    ensures Net(a + b, key) == Net(a, key) + Net(b, key)
    decreases |b|
  {
    if b != [] {
      var b' := b[..|b| - 1];
      assert (a + b)[..|a + b| - 1] == a + b';
      NetAppend(a, b', key);
    } else {
      assert a + b == a;
    }
  }

  lemma {:induction false} OutgoingAppend(a: seq<Tx>, b: seq<Tx>, key: string)
    ensures Outgoing(a + b, key) == Outgoing(a, key) + Outgoing(b, key)
    decreases |b|
  {
    if b != [] {
      var b' := b[..|b| - 1];
      assert (a + b)[..|a + b| - 1] == a + b';
      OutgoingAppend(a, b', key);
    } else {
      assert a + b == a;
    }
  }

  /** The net effect of a batch is what it brings in minus what it sends out. */
  lemma {:induction false} NetIsIncomingMinusOutgoing(txs: seq<Tx>, key: string)
    ensures Net(txs, key) == Incoming(txs, key) - Outgoing(txs, key)
    decreases |txs|
  {
    if txs != [] {
      NetIsIncomingMinusOutgoing(txs[..|txs| - 1], key);
    }
  }

  /** A batch with no SYSTEM sender issues nothing. */
  lemma {:induction false} NoSystemSenderIssuesNothing(txs: seq<Tx>)
    requires forall i :: 0 <= i < |txs| ==> txs[i].sender != System
    ensures SystemIssued(txs) == 0.0
    decreases |txs|
  {
    if txs != [] {
      NoSystemSenderIssuesNothing(txs[..|txs| - 1]);
    }
  }

  /** Admitting a transaction lowers its sender's spendable balance by its
      amount and leaves every other balance as it was. */
  lemma PendingAppendBalance(chain: seq<Block>, pending: seq<Tx>, t: Tx, key: string)
    ensures Balance(chain, pending + [t], key)
            == Balance(chain, pending, key) - (if t.sender == key then t.amount else 0.0)
  {
    assert (pending + [t])[..|pending|] == pending;
  }

  /** Sealing `[coinbase] + pending` as the next block keeps every pending
      debit, adds the pending credits and the coinbase's effect. */
  lemma MinedBalance(chain: seq<Block>, pending: seq<Tx>, b: Block, coinbase: Tx, key: string)
    requires b.header.transactions == [coinbase] + pending
    ensures Balance(chain + [b], [], key)
            == Balance(chain, pending, key) + TxNet(coinbase, key) + Incoming(pending, key)
  {
    assert (chain + [b])[..|chain|] == chain;
    NetAppend([coinbase], pending, key);
    assert [coinbase][..0] == [];
    NetIsIncomingMinusOutgoing(pending, key);
  }

  /** Sealing `[coinbase] + pending` raises the recomputed issuance by the
      coinbase amount, provided no pending transaction names SYSTEM as sender. */
  lemma MinedIssuance(chain: seq<Block>, pending: seq<Tx>, b: Block, coinbase: Tx)
    requires b.header.transactions == [coinbase] + pending
    requires coinbase.sender == System
    requires forall i :: 0 <= i < |pending| ==> pending[i].sender != System
    ensures Issued(chain + [b]) == Issued(chain) + coinbase.amount
  {
    assert (chain + [b])[..|chain|] == chain;
    OutgoingAppend([coinbase], pending, System);
    assert [coinbase][..0] == [];
    NoSystemSenderIssuesNothing(pending);
  }

  /** Transfer round trip from an empty mempool: once admitted, the sender
      sees `amount` less and the recipient nothing more; once sealed, the
      sender is down by `amount` and the recipient up by it. */
  lemma TransferRoundTrip(chain: seq<Block>, t: Tx, coinbase: Tx, b: Block)
    requires b.header.transactions == [coinbase, t]
    requires t.sender != t.recipient
    requires coinbase.sender != t.sender && coinbase.sender != t.recipient
    requires coinbase.recipient != t.sender && coinbase.recipient != t.recipient
    ensures Balance(chain, [t], t.sender) == Balance(chain, [], t.sender) - t.amount
    ensures Balance(chain, [t], t.recipient) == Balance(chain, [], t.recipient)
    ensures Balance(chain + [b], [], t.sender) == Balance(chain, [], t.sender) - t.amount
    ensures Balance(chain + [b], [], t.recipient) == Balance(chain, [], t.recipient) + t.amount
  {
    assert [coinbase, t] == [coinbase] + [t];
    PendingAppendBalance(chain, [], t, t.sender);
    PendingAppendBalance(chain, [], t, t.recipient);
    MinedBalance(chain, [t], b, coinbase, t.sender);
    MinedBalance(chain, [t], b, coinbase, t.recipient);
    assert [t][..0] == [];
  }

  /** Admission preserves solvency: if the sender can cover the amount, no
      account that was not overdrawn becomes overdrawn. */
  lemma AdmissionKeepsSolvent(chain: seq<Block>, pending: seq<Tx>, t: Tx, key: string)
    requires t.amount > 0.0
    requires Balance(chain, pending, t.sender) >= t.amount
    requires Balance(chain, pending, key) >= 0.0
    ensures Balance(chain, pending + [t], key) >= 0.0
  {
    PendingAppendBalance(chain, pending, t, key);
  }
}
