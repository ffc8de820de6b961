# Single-node ledger engine, modelled in Dafny

This project models the in-memory ledger of a small proof-of-work coin
(`app.py`). The `Blockchain` object owns four pieces of state: the sealed
`chain`, the mempool `pending`, the `difficulty` and the running
`total_issued`. Its operations are:

- a genesis constructor;
- a balance fold over the sealed and pending transactions;
- a halving-schedule subsidy;
- a proof-of-work mining step that pays a clamped coinbase;
- a "longest chain wins" replacement.

The admission checks of the transaction-submission route are modelled as
well.

Files and modules:

- `types.dfy` (`LedgerTypes`): transactions, headers, blocks, the
  constants (`SYSTEM`, cap 21,000,000, base reward 50, default difficulty
  3) and the hash-prefix test.
- `reward.dfy` (`RewardSchedule`): the halving-threshold scan as a
  function, the supply clamp, and lemmas about both.
- `balance.dfy` (`Balances`): balances and issuance as left folds, in
  the order the engine's loops visit transactions, and lemmas about
  admitting and sealing transactions.
- `ledger.dfy` (`Ledger`): the `Blockchain` class and the `Submit`
  admission method. Every loop of the source is a loop here, proved
  against the fold or scan function that specifies it.

Modelling choices:

- The block hash is a function `hasher: Header -> Digest`, where a digest
  is any 64-character string. It is given to the constructor and kept as
  a constant of the ledger. A `Header` holds every block field except the
  hash, so a hash is never part of its own input.
- Wall-clock readings are parameters. `now` stamps the genesis block, the
  coinbase and submissions without a timestamp. `clock(n)` is the time
  read when trying nonce `n`.
- Amounts are exact `real`s.
- The nonce search tries at most `maxTries` nonces. A search that finds
  nothing returns `None` and changes nothing.

What the code does not do, and the model does not add:

- Chain replacement checks only the length of the candidate. It checks
  no hash, previous hash or proof of work.
- No signature is verified. A submitted signature is only carried into
  the transaction.
- A mined block's index is the chain length, not the tip's index plus one.
  The two differ only for chains adopted from a peer.
- Mining does not re-check the tip before it appends.

Issuance after mining: `MineBlock` adds the clamped reward to
`totalIssued`. `Issued(chain)` recounts every transaction whose sender is
`SYSTEM`. The two stay equal only if no pending transaction names
`SYSTEM` as its sender. Submission does not reserve that name, so the
model proves the equality under that condition only.

## Model

| member | source | states |
|---|---|---|
| `Ledger.Blockchain.constructor` | app.py:27-43 | Yields the chain holding only the genesis block. That block has index 0, nonce 0, the given timestamp, a previous hash of 64 `'0'` characters, no transactions and no miner, and its hash is `hasher` of its header. The mempool is empty, issuance is 0 and equals the recount of the chain. |
| `Ledger.Blockchain.LastBlock` | app.py:45-46 | The tip of the non-empty chain. After a successful `MineBlock` it is the block just mined; after an adopting `ReplaceChainIfLonger` it is the candidate's last block (both stated in those methods' contracts). |
| `Ledger.Blockchain.AddTransaction` | app.py:48-50 | Appends exactly the given transaction to the end of the mempool. Nothing else changes. |
| `Ledger.Blockchain.ComputeBalance` | app.py:52-68 | The nested loops return `Balance(chain, pending, key)`: sealed credits minus sealed debits of `key`, minus every pending debit of `key`. Pending credits are not counted. |
| `Ledger.Blockchain.CurrentReward` | app.py:70-82 | The threshold scan with its early exit returns `BaseReward / 2^Halvings(totalIssued)`. That value is in (0, BaseReward]. |
| `Ledger.Blockchain.MineBlock` | app.py:84-125 | On success it appends exactly one block to the old chain. The block has index = old length, previous hash = old tip's hash, transactions = coinbase(SYSTEM → miner, clamped reward) followed by the old mempool, and miner = the caller. Its hash is `hasher` of its header and starts with `difficulty` zeros, and its nonce is the first that works. The mempool becomes empty and issuance grows by exactly the clamped reward. The cap is kept, and so is issuance = recount when no pending sender is SYSTEM. The new tip is the mined block. A search that fails changes nothing (the snapshot is the old one), and no nonce it tried works. |
| `Ledger.Blockchain.ToDict` | app.py:127-135 | The snapshot carries the current chain, mempool, difficulty and issuance, plus the cap and the base reward. A refused `Submit`, a failed `MineBlock` and a refused `ReplaceChainIfLonger` each leave it equal to the snapshot before the call (stated in those methods' contracts). |
| `Ledger.Blockchain.ReplaceChainIfLonger` | app.py:137-152 | Returns true iff the candidate is non-empty and strictly longer than the chain, so a chain of equal length (the current one included) is refused. On true the chain becomes the candidate, the mempool empties and issuance is the recount of SYSTEM amounts in the candidate. On true the new tip is the candidate's last block. On false nothing changes and the snapshot is the old one. |
| `Ledger.Submit` | app.py:187-211 | A non-positive amount is refused as an invalid amount. A sender whose spendable balance is below the amount is refused, with that balance reported. Otherwise the mempool grows by exactly the one transaction, at its end, and the pending count is reported. A refusal leaves the mempool and the whole snapshot unchanged. The chain and issuance never change, and an admitted sender is left with a non-negative balance. |
| `RewardSchedule.HalvingsIsLargest` | app.py:72-79 | The halving count is at most 63. Every threshold `cap*(1-2^-j)` with j ≤ count has been reached, and the next one, if any, has not. The count is therefore the largest such n, and 0 when the first threshold is not reached. |
| `RewardSchedule.CountFromIsLargest` | app.py:74-79 | The same property for the scan started at any n whose earlier thresholds are all reached. |
| `RewardSchedule.HalvingsBeforeFirstThreshold` | app.py:72-80 | Below the first threshold there is no halving and the reward is the base reward. |
| `RewardSchedule.ThresholdsRise` | app.py:75 | The thresholds rise strictly with n and all stay below the cap. |
| `RewardSchedule.RewardBounds` | app.py:80-82 | The subsidy is positive and at most the base reward. |
| `RewardSchedule.RewardNonIncreasing` | app.py:70-82 | More cumulative issuance never gives a larger subsidy. |
| `RewardSchedule.ClampKeepsSupply` | app.py:86-89 | The clamped reward is non-negative and at most the unclamped one. From issuance ≤ cap, adding it stays ≤ cap. |
| `RewardSchedule.ClampedRewardPositiveIff` | app.py:86-89 | The paid reward is positive exactly when issuance is below the cap. |
| `Balances.NetIsIncomingMinusOutgoing` | app.py:55-63 | The per-transaction credit/debit loop over a batch equals its credits minus its debits. |
| `Balances.PendingAppendBalance` | app.py:64-67 | Appending a transaction to the mempool lowers its sender's balance by its amount and changes no other balance. |
| `Balances.MinedBalance` | app.py:52-68 | Sealing `[coinbase] + pending` keeps every balance's pending debits. It adds the pending credits and the coinbase's effect. |
| `Balances.MinedIssuance` | app.py:143-148 | Sealing `[coinbase] + pending` raises the recounted issuance by exactly the coinbase amount, when no pending sender is SYSTEM. |
| `Balances.TransferRoundTrip` | app.py:196-209 | From an empty mempool, admitting a transfer shows the sender `amount` less and the recipient nothing more. Sealing it leaves the sender down by `amount` and the recipient up by `amount`. |
| `Balances.AdmissionKeepsSolvent` | app.py:198-209 | If the sender covers the amount, admission leaves no previously solvent account overdrawn. |

## Left out

- `hash_block`: SHA-256 over sorted-key JSON is not modelled. The hash is an arbitrary deterministic function from a header to a 64-character string.
- `now_iso`: wall-clock time is not modelled. Timestamps are parameters.
- Ledger.Blockchain.MineBlock: the source searches nonces forever. The model stops after `maxTries` nonces and then reports failure with the state unchanged, because a search with no bound has no termination argument.
- Floating point: amounts are exact reals. The `str(amount)`/`float(...)` round trip and the 1e-9 slack of the balance check are not modelled, so the check is exact.
- Non-finite amounts: amounts are finite reals, so NaN is excluded. The source parses a submitted amount with `float(...)`, which accepts `"nan"`. Both comparisons against NaN are false, so the source admits such a transaction. After that the sender's balance is NaN, and every later amount from that sender passes the balance check. Once the block is sealed, the recipient's balance is NaN too. The solvency promises of `Ledger.Submit` and `Balances.AdmissionKeepsSolvent` hold only for finite amounts.
- Untyped peer data: blocks and transactions are typed records. Missing keys read with defaults, non-list payloads, and `None` senders or recipients are not modelled.
- The Flask routes, request parsing, page rendering and `app.run` (the HTTP façade). `api_submit_tx` is modelled only through its admission logic, and the mining route's check for a miner key is not modelled.
- The `reset_pending` route is not modelled. It is a façade route outside the `Blockchain` class.
- The event stream, the subscriber list, its lock and `broadcast_chain_update` are not modelled. They are concurrent queue fan-out and I/O.
- Concurrency: every operation is modelled as running on its own, with no interleaving.
