/**
 * The procedural ledger of blockchain.py. Its module-level state (the
 * chain, the pool of open transactions and the set of participants) is the
 * class `Ledger`; everything the source computes without changing that
 * state is a function over the chain and the pool.
 */
module Blockchain {
  import opened Wrappers
  import opened PyBuiltins
  import opened HashUtil

  const MiningReward: real := 10.0
  const Owner: string := "Varun Vats"
  const MiningSender: string := "MINING"

  /** A transaction dict: sender, recipient, amount (a Python float). */
  datatype Tx = Tx(sender: string, recipient: string, amount: real)

  /** A block dict: previous_hash, index, transactions, proof. */
  datatype Block = Block(previousHash: string, index: nat, transactions: seq<Tx>, proof: nat)

  type LedgerHasher = Hasher<Block, Tx>

  /** The hard-coded first block the ledger starts from. */
  const Genesis: Block := Block("", 0, [], 100)

  /** The transaction mine_block appends to pay the miner. */
  const RewardTx: Tx := Tx(MiningSender, Owner, MiningReward)

  /** get_last_blockchain_value: None on an empty chain, else the last block. */
  function LastBlock(chain: seq<Block>): (r: Option<Block>)
    ensures r.None? <==> |chain| == 0
    ensures r.Some? ==> r.value == chain[|chain| - 1]
  {
    if |chain| < 1 then None else Some(chain[|chain| - 1])
  }

  // ---------------------------------------------------------------------
  // Proof of work

  /** p is the nonce proof_of_work finds: it passes, and every smaller nonce fails. */
  ghost predicate IsLeastProof(hs: LedgerHasher, transactions: seq<Tx>, lastHash: string, p: nat)
  {
    && ValidProof(hs, transactions, lastHash, p)
    && forall q: nat :: q < p ==> !ValidProof(hs, transactions, lastHash, q)
  }

  /** Some nonce passes, so the search of proof_of_work ends. */
  ghost predicate SomeProofPasses(hs: LedgerHasher, transactions: seq<Tx>, lastHash: string)
  {
    exists p: nat :: ValidProof(hs, transactions, lastHash, p)
  }

  // ---------------------------------------------------------------------
  // Balances

  datatype Role = AsSender | AsRecipient

  function Party(tx: Tx, role: Role): string
  {
    match role
    case AsSender => tx.sender
    case AsRecipient => tx.recipient
  }

  /**
   * [tx['amount'] for tx in txs if tx[role] == p]: one entry per
   * transaction in which p plays the role, so its sum is p's flow.
   */
  function Amounts(txs: seq<Tx>, role: Role, p: string): (r: seq<real>)
    ensures |r| <= |txs|
    ensures Sum(r) == Flow(txs, role, p)
  {
    if txs == [] then []
    else
      var head := if Party(txs[0], role) == p then [txs[0].amount] else [];
      var rest := Amounts(txs[1..], role, p);
      assert head == [] ==> head + rest == rest;
      assert head != [] ==> (head + rest)[0] == txs[0].amount && (head + rest)[1..] == rest;
      head + rest
  }

  /** [[...] for block in blockchain]: block i's list sums to p's flow in block i. */
  function AmountsPerBlock(chain: seq<Block>, role: Role, p: string): (r: seq<seq<real>>)
    ensures |r| == |chain|
    ensures forall i :: 0 <= i < |chain| ==> Sum(r[i]) == Flow(chain[i].transactions, role, p)
  {
    seq(|chain|, i requires 0 <= i < |chain| => Amounts(chain[i].transactions, role, p))
  }

  /** sum(xs, start): start, then each element added in list order. */
  function SumFrom(start: real, xs: seq<real>): real
    decreases |xs|
  {
    if xs == [] then start else SumFrom(start + xs[0], xs[1..])
  }

  lemma {:induction false} SumFromShift(start: real, xs: seq<real>)
    ensures SumFrom(start, xs) == start + SumFrom(0.0, xs)
    decreases |xs|
  {
    if xs != [] {
      SumFromShift(start + xs[0], xs[1..]);
      SumFromShift(0.0 + xs[0], xs[1..]);
    }
  }

  /** Python's sum() of a list of amounts: the running total from 0, left to right. */
  function Sum(xs: seq<real>): (r: real)
    ensures r == SumFrom(0.0, xs)
  {
    if xs == [] then 0.0
    else
      SumFromShift(0.0 + xs[0], xs[1..]);
      xs[0] + Sum(xs[1..])
  }

  /** The sums of a list of lists, added up. */
  function TotalOfSums(lists: seq<seq<real>>): real
  {
    if lists == [] then 0.0 else Sum(lists[0]) + TotalOfSums(lists[1..])
  }

  /**
   * functools.reduce(lambda s, l: s + sum(l) if len(l) > 0 else s + 0, lists, acc):
   * the left fold adds every list's sum to acc, empty lists included as 0.
   */
  function ReduceSums(acc: real, lists: seq<seq<real>>): (r: real)
    ensures r == acc + TotalOfSums(lists)
    decreases |lists|
  {
    if lists == [] then acc
    else ReduceSums(if |lists[0]| > 0 then acc + Sum(lists[0]) else acc + 0.0, lists[1..])
  }

  /**
   * get_balance: the reduce over what p received in each committed block,
   * minus the reduce over what p sent in each committed block and in the
   * pool. It is the net flow over the whole history: received in committed
   * blocks, minus sent in committed blocks and in the pool.
   */
  function Balance(chain: seq<Block>, pool: seq<Tx>, p: string): (r: real)
    ensures r == Flow(Committed(chain), AsRecipient, p) - Flow(Committed(chain) + pool, AsSender, p)
  {
    var txSender := AmountsPerBlock(chain, AsSender, p) + [Amounts(pool, AsSender, p)];
    var txRecipient := AmountsPerBlock(chain, AsRecipient, p);
    TotalPerBlock(chain, AsRecipient, p);
    TotalPerBlock(chain, AsSender, p);
    TotalOfSumsAppend(AmountsPerBlock(chain, AsSender, p), Amounts(pool, AsSender, p));
    FlowAppend(Committed(chain), pool, AsSender, p);
    ReduceSums(0.0, txRecipient) - ReduceSums(0.0, txSender)
  }

  /** Every committed transaction, block by block, in chain order. */
  function Committed(chain: seq<Block>): seq<Tx>
  {
    if chain == [] then [] else chain[0].transactions + Committed(chain[1..])
  }

  /** The total amount of the transactions in which p plays the given role. */
  function Flow(txs: seq<Tx>, role: Role, p: string): real
  {
    if txs == [] then 0.0
    else (if Party(txs[0], role) == p then txs[0].amount else 0.0) + Flow(txs[1..], role, p)
  }

  lemma {:induction false} FlowAppend(a: seq<Tx>, b: seq<Tx>, role: Role, p: string)
    ensures Flow(a + b, role, p) == Flow(a, role, p) + Flow(b, role, p)
  {
    if a == [] {
      assert a + b == b;
    } else {
      assert (a + b)[1..] == a[1..] + b;
      FlowAppend(a[1..], b, role, p);
    }
  }

  lemma {:induction false} CommittedAppend(chain: seq<Block>, b: Block)
    ensures Committed(chain + [b]) == Committed(chain) + b.transactions
  {
    if chain == [] {
      assert [] + [b] == [b];
      assert Committed([b][1..]) == [];
    } else {
      assert (chain + [b])[1..] == chain[1..] + [b];
      CommittedAppend(chain[1..], b);
    }
  }

  /** The per-block sums of a chain add up to the flow over all its committed transactions. */
  lemma {:induction false} TotalPerBlock(chain: seq<Block>, role: Role, p: string)
    ensures TotalOfSums(AmountsPerBlock(chain, role, p)) == Flow(Committed(chain), role, p)
    decreases |chain|
  {
    if chain != [] {
      assert AmountsPerBlock(chain, role, p)[1..] == AmountsPerBlock(chain[1..], role, p);
      TotalPerBlock(chain[1..], role, p);
      FlowAppend(chain[0].transactions, Committed(chain[1..]), role, p);
    }
  }

  lemma {:induction false} TotalOfSumsAppend(lists: seq<seq<real>>, last: seq<real>)
    ensures TotalOfSums(lists + [last]) == TotalOfSums(lists) + Sum(last)
  {
    if lists == [] {
      assert [] + [last] == [last];
      assert [last][1..] == [];
    } else {
      assert (lists + [last])[1..] == lists[1..] + [last];
      TotalOfSumsAppend(lists[1..], last);
    }
  }

  /** A pending transaction debits its sender at once and never credits its recipient. */
  lemma PendingDebitsOnlySender(chain: seq<Block>, pool: seq<Tx>, t: Tx, p: string)
    ensures Balance(chain, pool + [t], p)
         == Balance(chain, pool, p) - (if t.sender == p then t.amount else 0.0)
  {
    var c := Committed(chain);
    assert Balance(chain, pool, p) == Flow(c, AsRecipient, p) - Flow(c + pool, AsSender, p);
    assert Balance(chain, pool + [t], p) == Flow(c, AsRecipient, p) - Flow(c + (pool + [t]), AsSender, p);
    assert c + (pool + [t]) == (c + pool) + [t];
    FlowAppend(c + pool, [t], AsSender, p);
    assert [t][1..] == [];
  }

  // ---------------------------------------------------------------------
  // Transaction checks

  /** verify_transaction: the amount is covered by the sender's current balance. */
  function VerifyTransaction(chain: seq<Block>, pool: seq<Tx>, tx: Tx): (r: bool)
    ensures r <==> tx.amount <= Flow(Committed(chain), AsRecipient, tx.sender)
                                 - Flow(Committed(chain) + pool, AsSender, tx.sender)
  {
    tx.amount <= Balance(chain, pool, tx.sender)
  }

  /**
   * verify_transactions: every open transaction passes verify_transaction
   * against the balance of the WHOLE pool, its own amount included.
   */
  function VerifyTransactions(chain: seq<Block>, pool: seq<Tx>): (r: bool)
    ensures r <==> forall i :: 0 <= i < |pool| ==>
                     pool[i].amount <= Flow(Committed(chain), AsRecipient, pool[i].sender)
                                       - Flow(Committed(chain) + pool, AsSender, pool[i].sender)
    ensures pool == [] ==> r
  {
    forall i | 0 <= i < |pool| :: VerifyTransaction(chain, pool, pool[i])
  }

  /**
   * The pool as add_transaction builds it: each transaction was covered by
   * its sender's balance at the moment it was admitted, that is, against
   * the pool of the transactions before it.
   */
  ghost predicate PoolAdmissible(chain: seq<Block>, pool: seq<Tx>)
  {
    forall i :: 0 <= i < |pool| ==> VerifyTransaction(chain, pool[..i], pool[i])
  }

  /** Admitting a transaction keeps the pool admissible, and only an admitted one does. */
  lemma PoolAdmissibleAppend(chain: seq<Block>, pool: seq<Tx>, t: Tx)
    ensures PoolAdmissible(chain, pool + [t])
        <==> PoolAdmissible(chain, pool) && VerifyTransaction(chain, pool, t)
  {
    var pool' := pool + [t];
    assert pool'[..|pool|] == pool;
    forall i | 0 <= i < |pool|
      ensures pool'[..i] == pool[..i] && pool'[i] == pool[i]
    {
    }
  }

  /** No admitted transaction took its sender below zero. */
  lemma AdmittedSendersStaySolvent(chain: seq<Block>, pool: seq<Tx>, i: nat)
    requires PoolAdmissible(chain, pool)
    requires i < |pool|
    ensures Balance(chain, pool[..i + 1], pool[i].sender) >= 0.0
  {
    assert VerifyTransaction(chain, pool[..i], pool[i]);
    assert pool[..i + 1] == pool[..i] + [pool[i]];
    PendingDebitsOnlySender(chain, pool[..i], pool[i], pool[i].sender);
  }

  /**
   * verify_transactions as written reports a pool that add_transaction
   * admitted as invalid: the owner, holding one mining reward, spends all of it.
   */
  lemma FullSpendFailsRecheck()
    ensures var chain := [Genesis, Block("h", 1, [RewardTx], 0)];
            var pool := [Tx(Owner, "B", MiningReward)];
            PoolAdmissible(chain, pool) && !VerifyTransactions(chain, pool)
  {
    var chain := [Genesis, Block("h", 1, [RewardTx], 0)];
    var pool := [Tx(Owner, "B", MiningReward)];
    assert Committed(chain) == [RewardTx] by {
      assert chain[1..] == [chain[1]];
      assert chain[1..][1..] == [];
      assert Committed(chain[1..]) == [RewardTx] + Committed([]);
      assert Committed(chain) == [] + Committed(chain[1..]);
    }
    assert [RewardTx][1..] == [];
    assert Flow([RewardTx], AsRecipient, Owner) == MiningReward;
    assert Flow([RewardTx], AsSender, Owner) == 0.0;
    assert pool[..0] == [];
    assert [RewardTx] + [] == [RewardTx];
    assert VerifyTransaction(chain, pool[..0], pool[0]);
    assert PoolAdmissible(chain, pool);
    assert [RewardTx] + pool == [RewardTx, pool[0]];
    assert [RewardTx, pool[0]][1..] == pool;
    assert pool[1..] == [];
    assert Flow([RewardTx] + pool, AsSender, Owner) == MiningReward;
    assert !VerifyTransaction(chain, pool, pool[0]);
  }

  // ---------------------------------------------------------------------
  // Mining and chain validity

  /** The block mine_block appends after finding `proof`. */
  function MinedBlock(hs: LedgerHasher, chain: seq<Block>, pool: seq<Tx>, proof: nat): (b: Block)
    requires |chain| >= 1
    ensures b.index == |chain|
    ensures b.previousHash == hs.hashBlock(chain[|chain| - 1])
    ensures |b.transactions| == |pool| + 1
    ensures DropLast(b.transactions) == pool && b.transactions[|pool|] == RewardTx
    ensures b.proof == proof
  {
    DropLastOfAppend(pool, RewardTx);
    Block(hs.hashBlock(chain[|chain| - 1]), |chain|, pool + [RewardTx], proof)
  }

  /** The checks verify_chain makes on block i: its hash link and its proof of work. */
  predicate BlockValidAt(hs: LedgerHasher, chain: seq<Block>, i: nat)
    requires 1 <= i < |chain|
  {
    && chain[i].previousHash == hs.hashBlock(chain[i - 1])
    && ValidProof(hs, DropLast(chain[i].transactions), chain[i].previousHash, chain[i].proof)
  }

  /** Every block after the first is linked to its predecessor and carries a valid proof. */
  predicate ChainValid(hs: LedgerHasher, chain: seq<Block>): (r: bool)
    ensures |chain| <= 1 ==> r
  {
    forall i :: 1 <= i < |chain| ==> BlockValidAt(hs, chain, i)
  }

  /** Appending the block mine_block builds from a valid nonce keeps the chain valid. */
  lemma MinedBlockKeepsChainValid(hs: LedgerHasher, chain: seq<Block>, pool: seq<Tx>, proof: nat)
    requires |chain| >= 1
    requires ChainValid(hs, chain)
    requires ValidProof(hs, pool, hs.hashBlock(chain[|chain| - 1]), proof)
    ensures ChainValid(hs, chain + [MinedBlock(hs, chain, pool, proof)])
  {
    var b := MinedBlock(hs, chain, pool, proof);
    var chain' := chain + [b];
    forall i | 1 <= i < |chain'|
      ensures BlockValidAt(hs, chain', i)
    {
      if i < |chain| {
        assert chain'[i] == chain[i] && chain'[i - 1] == chain[i - 1];
        assert BlockValidAt(hs, chain, i);
      }
    }
  }

  /** Replacing any block but the last with one that hashes differently breaks the next link. */
  lemma TamperingBreaksChain(hs: LedgerHasher, chain: seq<Block>, k: nat, b: Block)
    requires ChainValid(hs, chain)
    requires k + 1 < |chain|
    requires hs.hashBlock(b) != hs.hashBlock(chain[k])
    ensures !ChainValid(hs, chain[k := b])
  {
    var chain' := chain[k := b];
    assert BlockValidAt(hs, chain, k + 1);
    assert !BlockValidAt(hs, chain', k + 1);
  }

  /**
   * Mining and then clearing the pool: p keeps its balance, gains what the
   * pool paid it, and the owner gains the reward.
   */
  lemma MiningSettlesPool(hs: LedgerHasher, chain: seq<Block>, pool: seq<Tx>, proof: nat, p: string)
    requires |chain| >= 1
    ensures Balance(chain + [MinedBlock(hs, chain, pool, proof)], [], p)
         == Balance(chain, pool, p) + Flow(pool, AsRecipient, p)
            + (if p == Owner then MiningReward else 0.0)
            - (if p == MiningSender then MiningReward else 0.0)
  {
    var b := MinedBlock(hs, chain, pool, proof);
    var c := Committed(chain);
    CommittedAppend(chain, b);
    assert c + b.transactions + [] == c + (pool + [RewardTx]);
    assert c + (pool + [RewardTx]) == (c + pool) + [RewardTx];
    FlowAppend(c, pool + [RewardTx], AsRecipient, p);
    FlowAppend(pool, [RewardTx], AsRecipient, p);
    FlowAppend(c + pool, [RewardTx], AsSender, p);
    assert [RewardTx][1..] == [];
  }

  /** With nothing committed, nobody holds anything. */
  lemma GenesisBalance(p: string)
    ensures Balance([Genesis], [], p) == 0.0
  {
    assert [Genesis][1..] == [];
    assert Committed([Genesis]) == [];
  }

  /**
   * The owner's walk through the ledger: with nothing committed a transfer
   * of 50 is refused; one mined block pays 10; a transfer of 5 is admitted
   * and mined; the recipient then holds 5, the owner 15, and the chain is valid.
   */
  lemma OwnerScenario(hs: LedgerHasher, p1: nat, p2: nat, chain1: seq<Block>, chain2: seq<Block>)
    requires chain1 == [Genesis] + [MinedBlock(hs, [Genesis], [], p1)]
    requires chain2 == chain1 + [MinedBlock(hs, chain1, [Tx(Owner, "B", 5.0)], p2)]
    requires ValidProof(hs, [], hs.hashBlock(Genesis), p1)
    requires ValidProof(hs, [Tx(Owner, "B", 5.0)], hs.hashBlock(chain1[1]), p2)
    ensures !VerifyTransaction([Genesis], [], Tx(Owner, "B", 50.0))
    ensures Balance(chain1, [], Owner) == 10.0
    ensures VerifyTransaction(chain1, [], Tx(Owner, "B", 5.0))
    ensures Balance(chain2, [], "B") == 5.0
    ensures Balance(chain2, [], Owner) == 15.0
    ensures ChainValid(hs, chain2)
  {
    var t := Tx(Owner, "B", 5.0);
    assert Owner != MiningSender && Owner != "B" && "B" != MiningSender;
    GenesisBalance(Owner);
    GenesisBalance("B");
    assert Flow([], AsRecipient, Owner) == 0.0 && Flow([], AsRecipient, "B") == 0.0;
    MiningSettlesPool(hs, [Genesis], [], p1, Owner);
    MiningSettlesPool(hs, [Genesis], [], p1, "B");
    assert Balance(chain1, [], Owner) == 10.0;
    assert Balance(chain1, [], "B") == 0.0;
    assert [] + [t] == [t];
    PendingDebitsOnlySender(chain1, [], t, Owner);
    PendingDebitsOnlySender(chain1, [], t, "B");
    assert [t][1..] == [];
    assert Flow([t], AsRecipient, "B") == 5.0;
    assert Flow([t], AsRecipient, Owner) == 0.0;
    MiningSettlesPool(hs, chain1, [t], p2, Owner);
    MiningSettlesPool(hs, chain1, [t], p2, "B");
    MinedBlockKeepsChainValid(hs, [Genesis], [], p1);
    MinedBlockKeepsChainValid(hs, chain1, [t], p2);
  }

  // ---------------------------------------------------------------------
  // The module-level state

  /** blockchain, open_transactions and participants, with the hashing they are checked by. */
  class Ledger {
    const hasher: LedgerHasher
    var chain: seq<Block>
    var openTransactions: seq<Tx>
    var participants: set<string>

    /** The chain always holds at least the genesis block. */
    ghost predicate Valid()
      reads this
    {
      |chain| >= 1
    }

    /** Some nonce passes against the current pool and chain tip, so proof_of_work stops. */
    ghost predicate ProofExists()
      reads this
      requires Valid()
    {
      SomeProofPasses(hasher, openTransactions, hasher.hashBlock(chain[|chain| - 1]))
    }

    /** The state load_data falls back to: the genesis block, an empty pool, the owner. */
    constructor (hasher: LedgerHasher)
      ensures Valid()
      ensures this.hasher == hasher
      ensures chain == [Genesis] && openTransactions == [] && participants == {Owner}
    {
      this.hasher := hasher;
      chain := [Genesis];
      openTransactions := [];
      participants := {Owner};
    }

    /** proof_of_work: count up from 0 until valid_proof passes against the tip's hash. */
    method ProofOfWork() returns (proof: nat)
      requires Valid() && ProofExists()
      ensures IsLeastProof(hasher, openTransactions, hasher.hashBlock(chain[|chain| - 1]), proof)
    {
      var lastHashedBlock := hasher.hashBlock(LastBlock(chain).value);
      ghost var passing: nat :| ValidProof(hasher, openTransactions, lastHashedBlock, passing);
      proof := 0;
      while !ValidProof(hasher, openTransactions, lastHashedBlock, proof)
        invariant proof <= passing
        invariant forall q: nat :: q < proof ==> !ValidProof(hasher, openTransactions, lastHashedBlock, q)
        decreases passing - proof
      {
        proof := proof + 1;
      }
    }

    /**
     * add_transaction: admit (sender, recipient, amount) when the sender's
     * balance covers it; otherwise change nothing.
     */
    method AddTransaction(recipient: string, sender: string := Owner, amount: real := 1.0) returns (ok: bool)
      requires Valid()
      modifies this
      ensures Valid()
      ensures ok == VerifyTransaction(old(chain), old(openTransactions), Tx(sender, recipient, amount))
      ensures ok ==> openTransactions == old(openTransactions) + [Tx(sender, recipient, amount)]
      ensures ok ==> participants == old(participants) + {sender, recipient}
      ensures ok ==> Balance(chain, openTransactions, sender)
                     == Balance(old(chain), old(openTransactions), sender) - amount
      ensures ok ==> Balance(chain, openTransactions, sender) >= 0.0
      ensures !ok ==> openTransactions == old(openTransactions) && participants == old(participants)
      ensures chain == old(chain)
      ensures PoolAdmissible(old(chain), old(openTransactions)) ==> PoolAdmissible(chain, openTransactions)
    {
      var transaction := Tx(sender, recipient, amount);
      PoolAdmissibleAppend(chain, openTransactions, transaction);
      PendingDebitsOnlySender(chain, openTransactions, transaction, sender);
      if VerifyTransaction(chain, openTransactions, transaction) {
        openTransactions := openTransactions + [transaction];
        participants := participants + {sender};
        participants := participants + {recipient};
        return true;
      }
      return false;
    }

    /**
     * mine_block: find the nonce, then append a block holding the open
     * transactions followed by the reward. The pool itself is left alone.
     */
    method MineBlock() returns (ok: bool)
      requires Valid() && ProofExists()
      modifies this
      ensures Valid() && ok
      ensures chain == old(chain) + [MinedBlock(hasher, old(chain), old(openTransactions), chain[|chain| - 1].proof)]
      ensures IsLeastProof(hasher, old(openTransactions), hasher.hashBlock(old(chain)[|old(chain)| - 1]),
                           chain[|chain| - 1].proof)
      ensures openTransactions == old(openTransactions) && participants == old(participants)
      ensures ChainValid(hasher, old(chain)) ==> ChainValid(hasher, chain)
    {
      var lastBlock := LastBlock(chain).value;
      var hashedBlock := hasher.hashBlock(lastBlock);
      var proof := ProofOfWork();
      var copiedTransactions := openTransactions + [RewardTx];
      var block := Block(hashedBlock, |chain|, copiedTransactions, proof);
      if ChainValid(hasher, chain) {
        MinedBlockKeepsChainValid(hasher, chain, openTransactions, proof);
      }
      chain := chain + [block];
      return true;
    }

    /** Menu choice 3: mine, and on success empty the pool. */
    method MineAndClearPool()
      requires Valid() && ProofExists()
      modifies this
      ensures Valid()
      ensures chain == old(chain) + [MinedBlock(hasher, old(chain), old(openTransactions), chain[|chain| - 1].proof)]
      ensures IsLeastProof(hasher, old(openTransactions), hasher.hashBlock(old(chain)[|old(chain)| - 1]),
                           chain[|chain| - 1].proof)
      ensures openTransactions == [] && participants == old(participants)
      ensures ChainValid(hasher, old(chain)) ==> ChainValid(hasher, chain)
      ensures forall p :: Balance(chain, openTransactions, p)
                          == Balance(old(chain), old(openTransactions), p)
                             + Flow(old(openTransactions), AsRecipient, p)
                             + (if p == Owner then MiningReward else 0.0)
                             - (if p == MiningSender then MiningReward else 0.0)
    {
      var ok := MineBlock();
      if ok {
        openTransactions := [];
      }
      forall p: string
        ensures Balance(chain, openTransactions, p)
                == Balance(old(chain), old(openTransactions), p)
                   + Flow(old(openTransactions), AsRecipient, p)
                   + (if p == Owner then MiningReward else 0.0)
                   - (if p == MiningSender then MiningReward else 0.0)
      {
        MiningSettlesPool(hasher, old(chain), old(openTransactions), chain[|chain| - 1].proof, p);
      }
    }

    /** verify_chain: scan blocks 1.. and stop at the first broken link or failing proof. */
    method VerifyChain() returns (ok: bool)
      ensures ok == ChainValid(hasher, chain)
    {
      var index := 0;
      while index < |chain|
        invariant 0 <= index <= |chain|
        invariant forall i :: 1 <= i < index ==> BlockValidAt(hasher, chain, i)
      {
        if index != 0 {
          var block := chain[index];
          if block.previousHash != hasher.hashBlock(chain[index - 1]) {
            assert !BlockValidAt(hasher, chain, index);
            return false;
          }
          if !ValidProof(hasher, DropLast(block.transactions), block.previousHash, block.proof) {
            assert !BlockValidAt(hasher, chain, index);
            return false;
          }
        }
        index := index + 1;
      }
      return true;
    }
  }
}
