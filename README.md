# Proof-of-work ledger, modelled in Dafny

This project models the ledger engine of a small single-node proof-of-work
blockchain written in Python, in two forms the repository carries side by
side:

- **`blockchain.py`**, the procedural ledger. Its module-level state is the
  chain of blocks, the pool of open transactions and the set of
  participants. Here that state is the class `Blockchain.Ledger`; the
  operations that change it (`add_transaction`, `mine_block`, and the menu's
  "mine, then empty the pool") are its methods. The loops `proof_of_work`
  and `verify_chain` are methods with loop invariants. The expression-only
  parts (`get_last_blockchain_value`, `valid_proof`, `get_balance`,
  `verify_transaction`, `verify_transactions`) are functions over the chain
  and the pool.
- **`utility/verification.py`**, the `Verification` helper of the
  object-based version: chain validity, the per-transaction funds and
  signature check, the whole-pool check and the proof predicate. All of it
  is pure, so it is the module `Verification` of functions and lemmas.

Three things stay opaque. The block hash (`hash_block`), the SHA-256 hex
digest of a string (`hash_string_256`) and Python's `str()` of a list of
transactions are the function-valued fields of a `HashUtil.Hasher`. The
wallet's signature check and the node's balance lookup are function
parameters. Every property below therefore holds for every hash function
and every signature scheme.

User-entered amounts are Python floats (blockchain.py:164), as is
`add_transaction`'s default of 1.0, while `MINING_REWARD` is the int 10
(blockchain.py:9). Here every amount is an exact `real`, so
`MiningReward` is `10.0`. The int/float difference shows only in the
`str()` and JSON renderings, which are opaque here. The owner is `"Varun Vats"`, and the reward
transaction's sender is `"MINING"`. Python's `s[:-1]`, `s[:2]` and
`str(proof)` are written out in `PyBuiltins`, with Python's behaviour on
short inputs.

The main results:

- `get_balance` equals an independent flat definition: received over committed
  blocks, minus sent over committed blocks and the pool. A pending
  transaction debits its sender at once and never credits its recipient.
- `add_transaction` accepts exactly when the sender's balance covers the
  amount. On acceptance it appends that one transaction and registers both
  names. The sender's balance then drops by the amount and stays
  non-negative, even when sender and recipient coincide. On rejection
  nothing changes.
- `proof_of_work` returns the least passing nonce.
- `mine_block` appends exactly one block. That block has the right index,
  link and transactions (the pool, then the reward), and chain validity is
  preserved.
- `verify_chain` returns exactly "every block after the first is linked and
  proved". Tampering with a block that has a successor, by replacing it with
  one that hashes differently, is detected.

Where the intended design and `blockchain.py` differ, the model follows the
code, except for the block hash (see "## Left out"):

- In `blockchain.py`, `mine_block` neither re-checks signatures nor empties
  the pool; the menu loop empties it (blockchain.py:243-245).
- Transactions there carry no signature, and `verify_transaction` checks funds only.
- The reward transaction is counted by `get_balance` like any other, so
  `"MINING"`'s balance falls by 10 per block.
- Blocks carry no timestamp there.

## Model

| member | source | states |
|---|---|---|
| `Blockchain.LastBlock` | blockchain.py:92-96 | None exactly when the chain is empty; otherwise the last block, which `Ledger.ProofOfWork` and `Ledger.MineBlock` hash as the tip (blockchain.py:110, 170) |
| `HashUtil.ValidProof` | blockchain.py:99-104 | true iff the digest of str(transactions) + last_hash + str(proof) is at least two characters long and starts with "00"; a shorter digest fails. Verification.valid_proof (utility/verification.py:38-45) is the same check over the ordered-dict rendering and is this member too |
| `Blockchain.Ledger.ProofOfWork` | blockchain.py:107-113 | the returned nonce passes valid_proof against the pool and the tip's hash, and every smaller nonce fails |
| `Blockchain.TotalPerBlock` | blockchain.py:123-124 | the per-block amount lists of the whole chain sum to p's total flow over all committed transactions, block by block in chain order |
| `Blockchain.TotalOfSumsAppend` | blockchain.py:127 | appending the pool's list to the per-block lists adds its sum to the total |
| `Blockchain.Amounts` | blockchain.py:125-126 | the list comprehension over a transaction list keeps at most one amount per transaction, and its sum is the total p sent (or received) in that list |
| `Blockchain.AmountsPerBlock` | blockchain.py:123-124 | one list per block, and list i sums to the total p sent (or received) in block i |
| `Blockchain.Sum` | blockchain.py:129 | Python's sum() of one list of amounts equals the running total from 0, adding the elements left to right (also blockchain.py:135) |
| `Blockchain.ReduceSums` | blockchain.py:128-131 | the functools.reduce starting at acc returns acc plus the sum of every list's sum; empty lists add 0 |
| `Blockchain.Balance` | blockchain.py:121-138 | get_balance(p) = amounts received by p in committed blocks - amounts sent by p in committed blocks and in the pool |
| `Blockchain.PendingDebitsOnlySender` | blockchain.py:123-138 | appending a transaction to the pool lowers its sender's balance by its amount and changes no other balance; the recipient is not credited |
| `Blockchain.GenesisBalance` | blockchain.py:66-73 | on the genesis-only chain with an empty pool every balance is 0 |
| `Blockchain.VerifyTransaction` | blockchain.py:116-118 | true iff the amount is at most the sender's received-minus-sent total, with the pool counted as sent |
| `Blockchain.Ledger.constructor` | blockchain.py:11-14 | starts from the genesis block (index 0, empty previous hash, no transactions, proof 100), an empty pool and the owner as the only participant |
| `Blockchain.Ledger.AddTransaction` | blockchain.py:141-157 | returns True iff amount <= get_balance(sender). On True the pool gains exactly Tx(sender, recipient, amount) at its end, participants gain both names, and the sender's balance drops by amount and stays >= 0. On False pool and participants are unchanged; the chain never changes. Keeps the pool admissible |
| `Blockchain.PoolAdmissibleAppend` | blockchain.py:141-157 | a pool stays admissible (each transaction covered by its sender's balance against the transactions before it) iff the appended transaction passes verify_transaction |
| `Blockchain.AdmittedSendersStaySolvent` | blockchain.py:151-152 | in an admissible pool no transaction took its sender's balance below zero at its admission |
| `Blockchain.VerifyTransactions` | blockchain.py:216-218 | true iff every pending transaction's amount is covered by its sender's balance with the whole pool, itself included, counted as sent; true on an empty pool |
| `Blockchain.FullSpendFailsRecheck` | blockchain.py:216-218 | a pool that add_transaction admitted (the owner spending the whole reward) fails verify_transactions |
| `Blockchain.MinedBlock` | blockchain.py:173-183 | the mined block has index len(chain), previous_hash = hash of the old last block, the given proof, and transactions whose [:-1] is the pool and whose last is the reward MINING -> owner, 10 |
| `Blockchain.Ledger.MineBlock` | blockchain.py:168-185 | returns True and appends exactly one block, built from the old pool and the least passing nonce; earlier blocks, the pool and participants are untouched; a valid chain stays valid |
| `Blockchain.Ledger.MineAndClearPool` | blockchain.py:243-245 | appends the block mined from the old pool with the least passing nonce; after mining the pool is empty, and each balance moves by what the pool paid that participant, plus the reward for the owner and minus it for "MINING" |
| `Blockchain.MiningSettlesPool` | blockchain.py:171-184 | Balance(chain + [mined block], [], p) = Balance(chain, pool, p) + received by p in the pool + reward if p is the owner - reward if p is "MINING" |
| `Blockchain.ChainValid` | blockchain.py:202-213 | a chain of at most one block is valid, since block 0 is never inspected |
| `Blockchain.Ledger.VerifyChain` | blockchain.py:202-213 | returns True iff every block i >= 1 has previous_hash == hash_block(chain[i-1]) and valid_proof(transactions[:-1], previous_hash, proof) |
| `Blockchain.MinedBlockKeepsChainValid` | blockchain.py:168-185 | if the chain was valid and the nonce passes against the pool and the tip's hash, the chain with the mined block appended is valid |
| `Blockchain.TamperingBreaksChain` | blockchain.py:255-262 | replacing a block that has a successor with one that hashes differently makes verify_chain fail |
| `Blockchain.OwnerScenario` | blockchain.py:232-245 | from genesis: a transfer of 50 is refused; one mined block gives the owner 10; a transfer of 5 is admitted; after the second block B holds 5, the owner 15, and the chain is valid |
| `PyBuiltins.Str` | blockchain.py:101 | str(proof) is a non-empty string of decimal digits, one character long exactly when proof < 10; with `StrValue` and `StrNoLeadingZero` it is the unique decimal spelling |
| `PyBuiltins.StrNoLeadingZero` | blockchain.py:101 | str(proof) starts with '0' only when proof is 0 |
| `PyBuiltins.StrValue` | blockchain.py:101 | the digits of str(proof) spell proof back, read most significant first |
| `PyBuiltins.Prefix` | blockchain.py:104 | s[0:2] has length min(2, len(s)) and is a prefix of s |
| `PyBuiltins.DropLast` | blockchain.py:209 | s[:-1] is [] on an empty list and otherwise s without its last element |
| `Verification.FirstInvalidBlock` | utility/verification.py:16-25 | the scan stops at the first block i >= 1 with a broken hash link or a failing proof over transactions[:-1]; all blocks before it pass; None iff all pass |
| `Verification.VerifyChain` | utility/verification.py:13-26 | True iff every block after the first is linked to its predecessor and passes valid_proof; True for any chain of length <= 1 |
| `Verification.TamperingIsDetected` | utility/verification.py:14-26 | replacing a block that has a successor with one that hashes differently makes verify_chain fail at that block or the next; for block 0, exactly at block 1 |
| `Verification.VerifyTransaction` | utility/verification.py:28-36 | the wallet signature check is always required; the funds check amount <= get_balance(sender) is required exactly when check_funds; the `sender` slot is ignored |
| `Verification.VerifyTransactions` | utility/verification.py:7-11 | true iff every open transaction is signature-valid AND covered by get_balance(sender): the positional False binds to `sender`, so funds are still checked; true on an empty pool |
| `Verification.PositionalFalseStillChecksFunds` | utility/verification.py:10-11 | a correctly signed transaction exceeding its sender's balance fails verify_transactions as written, and passes the signature-only check |
| `Verification.VerifySignatures` | utility/verification.py:10 | the pool check with check_funds=False: true iff every open transaction's signature verifies |

## Findings

| source | as written | input that shows it | evidently intended | confidence | as-written member | corrected member |
|---|---|---|---|---|---|---|
| blockchain.py:216-218 | every pending transaction is checked against get_balance(sender), which already deducts that same transaction from the pool | chain [genesis, a block paying the owner the 10 reward], pool [owner -> B, 10.0], admitted by add_transaction; verify_transactions returns False | a pool built by accepted add_transaction calls is reported valid: each transaction is checked against the transactions admitted before it (`PoolAdmissible`, kept by `Ledger.AddTransaction`) | medium, not executed | `Blockchain.FullSpendFailsRecheck` | `Blockchain.PoolAdmissibleAppend` |
| utility/verification.py:10 | `cls.verify_transaction(tx, get_balance, False)` puts False into the `sender` parameter, so check_funds stays True | one correctly signed transaction whose amount exceeds get_balance(sender); verify_transactions returns False | check_funds=False: only signatures are re-checked | high, not executed | `Verification.PositionalFalseStillChecksFunds` | `Verification.VerifySignatures` |

## Left out

- Persistence is not modelled: `load_data`, `save_data`, `load_data_with_pickle` and `save_data_with_pickle` (blockchain.py:17-89) are file I/O with JSON and pickle. The model starts from the genesis fallback of `load_data`, and the `save_data` calls after a change are dropped.
- The interactive menu loop, `get_transaction_value`, `get_user_choice` and `print_blockchain_elements` are console I/O. Only two parts of the loop are kept: emptying the pool after mining (`Ledger.MineAndClearPool`) and the "hack" branch, as the lemma `TamperingBreaksChain`.
- The hack block also omits the `proof` key. A model block always has every field, so that detail is not captured.
- node.py and the object-based `Blockchain` class it imports are not part of this model, and neither are peer broadcast and accepting blocks from peers.
- Hashing is not modelled concretely: SHA-256, the sorted-key JSON dump and Python's `str()` rendering are the fields of `HashUtil.Hasher`, left uninterpreted.
- The modelled block hash is total and depends only on the block's contents. `blockchain.py` imports `hash_block` from the top-level hash_util.py (blockchain.py:7). That `hash_block` (hash_util.py:10-13) reads `block.__dict__` at hash_util.py:12, which the dict blocks of `blockchain.py` do not have, so as written it raises AttributeError. `mine_block` (blockchain.py:171) therefore fails from the first call, and `verify_chain` (blockchain.py:207) fails on any chain of two or more blocks. Every member that hashes a block models the intended hash, not these failures: `Ledger.ProofOfWork`, `Ledger.MineBlock`, `Ledger.MineAndClearPool`, `Ledger.VerifyChain`, `MinedBlock`, `ChainValid`, `MinedBlockKeepsChainValid`, `MiningSettlesPool`, `TamperingBreaksChain` and `OwnerScenario`.
- The object-based version hashes with `utility/hash_util.py` (imported at utility/verification.py:1). Its `hash_block` renders each transaction as `str(tx.to_ordered_dict)`, the bound method, not called (utility/hash_util.py:14). That string embeds `repr(tx)`, so what the digest reflects depends on `Transaction.__repr__`, which is not part of this model. `Verification.VerifyChain`, `Verification.FirstInvalidBlock` and `Verification.TamperingIsDetected` assume a block hash determined by the block's contents.
- `Wallet.verify_transaction` (RSA signatures) and the node's `get_balance` are function parameters of the `Verification` members. Whether the wallet exempts reward transactions is therefore not modelled.
- Floating-point rounding of amounts is not modelled; amounts are exact reals.
- `print` inside `verify_chain` and `hash_block` is output only and is dropped.
- Blockchain.Ledger.ProofOfWork: requires that some nonce passes, because with an opaque hash termination cannot be proved. The source loops forever when none does.
- Blockchain.Ledger.MineBlock: requires a passing nonce, for the same reason. It also requires a non-empty chain (`Ledger.Valid`). On an empty chain the source's `hash_block(None)` raises, and no operation of the model empties the chain.
- Verification.Block: the block class of the object-based version is defined outside the modelled files (block.py). Its fields (index, previous_hash, transactions, proof, timestamp) are taken from what `verify_chain` reads plus the timestamp the blocks carry, and its hash is opaque.
