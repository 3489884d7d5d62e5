/**
 * The Verification helper of utility/verification.py: the object-based
 * version of the ledger's checks. Nothing here changes state. The wallet's
 * signature check and the node's balance lookup are passed in as functions,
 * as the source passes get_balance.
 */
module Verification {
  import opened Wrappers
  import opened PyBuiltins
  import opened HashUtil

  /** A Transaction object: sender, recipient, signature, amount. */
  datatype Transaction = Transaction(sender: string, recipient: string, signature: string, amount: real)

  /** A Block object: index, previous_hash, transactions, proof, timestamp. */
  datatype Block = Block(index: nat, previousHash: string, transactions: seq<Transaction>, proof: nat, timestamp: real)

  type ObjectHasher = Hasher<Block, Transaction>

  /** The two checks verify_chain makes on block i. */
  predicate BlockValidAt(hs: ObjectHasher, chain: seq<Block>, i: nat)
    requires 1 <= i < |chain|
  {
    && chain[i].previousHash == hs.hashBlock(chain[i - 1])
    && ValidProof(hs, DropLast(chain[i].transactions), chain[i].previousHash, chain[i].proof)
  }

  /**
   * The index at which the scan of verify_chain, started at `from`, returns
   * False: the first block with a broken link or a failing proof.
   */
  function FirstInvalidBlock(hs: ObjectHasher, chain: seq<Block>, from: nat): (r: Option<nat>)
    requires 1 <= from
    ensures r.Some? ==> from <= r.value < |chain| && !BlockValidAt(hs, chain, r.value)
    ensures r.Some? ==> forall j :: from <= j < r.value ==> BlockValidAt(hs, chain, j)
    ensures r.None? <==> forall j :: from <= j < |chain| ==> BlockValidAt(hs, chain, j)
    decreases |chain| - from
  {
    if from >= |chain| then None
    else if chain[from].previousHash != hs.hashBlock(chain[from - 1]) then Some(from)
    else if !ValidProof(hs, DropLast(chain[from].transactions), chain[from].previousHash, chain[from].proof) then Some(from)
    else FirstInvalidBlock(hs, chain, from + 1)
  }

  /** Verification.verify_chain: block 0 is skipped; every later block must pass. */
  function VerifyChain(hs: ObjectHasher, chain: seq<Block>): (r: bool)
    ensures r <==> forall i :: 1 <= i < |chain| ==> BlockValidAt(hs, chain, i)
    ensures |chain| <= 1 ==> r
  {
    FirstInvalidBlock(hs, chain, 1).None?
  }

  /**
   * Replacing a block that has a successor with one that hashes differently
   * makes verify_chain fail, at that block or at the next one; when the
   * replaced block is the unchecked first one, exactly at block 1.
   */
  lemma TamperingIsDetected(hs: ObjectHasher, chain: seq<Block>, k: nat, b: Block)
    requires VerifyChain(hs, chain)
    requires k + 1 < |chain|
    requires hs.hashBlock(b) != hs.hashBlock(chain[k])
    ensures !VerifyChain(hs, chain[k := b])
    ensures FirstInvalidBlock(hs, chain[k := b], 1) == Some(k + 1)
         || (1 <= k && FirstInvalidBlock(hs, chain[k := b], 1) == Some(k))
    ensures k == 0 ==> FirstInvalidBlock(hs, chain[k := b], 1) == Some(1)
  {
    var chain' := chain[k := b];
    assert BlockValidAt(hs, chain, k + 1);
    assert !BlockValidAt(hs, chain', k + 1);
    forall j | 1 <= j < k
      ensures BlockValidAt(hs, chain', j)
    {
      assert BlockValidAt(hs, chain, j);
      assert chain'[j] == chain[j] && chain'[j - 1] == chain[j - 1];
    }
  }

  /**
   * Verification.verify_transaction. The `sender` slot is never read; with
   * check_funds the sender's balance must cover the amount, and the wallet's
   * signature check must pass either way.
   */
  function VerifyTransaction(
    transaction: Transaction,
    getBalance: string -> real,
    walletVerify: Transaction -> bool,
    sender: Option<bool> := None,
    checkFunds: bool := true): (r: bool)
    ensures r <==> walletVerify(transaction) && (checkFunds ==> transaction.amount <= getBalance(transaction.sender))
  {
    if checkFunds then
      transaction.amount <= getBalance(transaction.sender) && walletVerify(transaction)
    else
      walletVerify(transaction)
  }

  /**
   * Verification.verify_transactions. Its positional False fills the
   * `sender` slot, not check_funds, so every open transaction is still
   * funds-checked as well as signature-checked.
   */
  function VerifyTransactions(
    openTransactions: seq<Transaction>,
    getBalance: string -> real,
    walletVerify: Transaction -> bool): (r: bool)
    ensures r <==> forall i :: 0 <= i < |openTransactions| ==>
                     && walletVerify(openTransactions[i])
                     && openTransactions[i].amount <= getBalance(openTransactions[i].sender)
    ensures openTransactions == [] ==> r
  {
    forall i | 0 <= i < |openTransactions| :: VerifyTransaction(openTransactions[i], getBalance, walletVerify, Some(false))
  }

  /**
   * verify_transactions as its call evidently means it: check_funds=False,
   * so only the signatures are checked; the ensures mentions no balance, so
   * the answer is the same whatever get_balance returns.
   */
  function VerifySignatures(
    openTransactions: seq<Transaction>,
    getBalance: string -> real,
    walletVerify: Transaction -> bool): (r: bool)
    ensures r <==> forall i :: 0 <= i < |openTransactions| ==> walletVerify(openTransactions[i])
  {
    forall i | 0 <= i < |openTransactions| ::
      VerifyTransaction(openTransactions[i], getBalance, walletVerify, checkFunds := false)
  }

  /**
   * A correctly signed transaction whose amount exceeds the sender's
   * balance fails verify_transactions as written, and passes the
   * signature-only check the call was meant to make.
   */
  lemma PositionalFalseStillChecksFunds(walletVerify: Transaction -> bool, getBalance: string -> real, tx: Transaction)
    requires walletVerify(tx)
    requires getBalance(tx.sender) < tx.amount
    ensures !VerifyTransactions([tx], getBalance, walletVerify)
    ensures VerifySignatures([tx], getBalance, walletVerify)
  {
    assert [tx][0] == tx;
  }
}
