/** Values shared by the whole ledger: transactions, block headers, blocks,
    the engine's constants and the proof-of-work prefix test. */
module LedgerTypes {

  datatype Option<T> = None | Some(value: T)

  /** The reserved sender of coinbase transactions. */
  const System: string := "SYSTEM"
  /** Hard cap on cumulative issuance. */
  const MaxSupply: real := 21000000.0
  /** Subsidy of a block before any halving. */
  const BaseReward: real := 50.0
  /** Difficulty used when the engine is built without one. */
  const DefaultDifficulty: int := 3

  /** A string of `n` zero characters. */
  function Zeros(n: nat): (s: string)
    ensures |s| == n
    ensures forall i :: 0 <= i < n ==> s[i] == '0'
  {
    seq(n, _ => '0')
  }

  /** A hex digest: exactly 64 characters. */
  type Digest = s: string | |s| == 64 witness Zeros(64)

  /** A transaction; amounts are exact reals. */
  datatype Tx = Tx(sender: string, recipient: string, amount: real,
                   signature: Option<string>, timestamp: string)

  /** Every field of a block that goes into its hash. */
  datatype Header = Header(index: int, timestamp: string, nonce: int,
                           previousHash: string, transactions: seq<Tx>,
                           miner: Option<string>)

  /** A block: its header and the hash recorded for it. Blocks received
      from a peer carry whatever hash the peer wrote. */
  datatype Block = Block(header: Header, hash: string)

  /** Coinbase transaction crediting `miner` with `reward`. */
  function Coinbase(miner: string, reward: real, now: string): Tx
  {
    Tx(System, miner, reward, None, now)
  }

  predicate StartsWith(s: string, prefix: string)
  {
    |prefix| <= |s| && s[..|prefix|] == prefix
  }

  /** The required hash prefix; a negative difficulty asks for no zeros. */
  function TargetPrefix(difficulty: int): (p: string)
    ensures |p| == (if difficulty < 0 then 0 else difficulty)
    ensures forall i :: 0 <= i < |p| ==> p[i] == '0'
  {
    Zeros(if difficulty < 0 then 0 else difficulty)
  }

  /** The header hashed for trial number `nonce` of a mining search. */
  function TrialHeader(index: int, previousHash: string, txs: seq<Tx>,
                       miner: string, clock: nat -> string, nonce: nat): Header
  {
    Header(index, clock(nonce), nonce, previousHash, txs, Some(miner))
  }
}
