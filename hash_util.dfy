/**
 * The hashing collaborator. The source hashes a block with SHA-256 over a
 * sorted-key JSON dump and hashes proof-of-work guesses built from Python's
 * str() of a list of transactions. None of these is pinned down here: a
 * `Hasher` carries them as functions, so every property proved about the
 * ledger holds for every choice of hash and rendering.
 */
module HashUtil {
  import opened PyBuiltins

  /**
   * hashBlock: hash_block(block), a hex digest of a block.
   * hashString256: hash_string_256(s), the hex SHA-256 digest of s.
   * render: str(...) of a list of transactions.
   */
  datatype Hasher<-B, -T> = Hasher(
    hashBlock: B -> string,
    hashString256: string -> string,
    render: seq<T> -> string)

  /** The fixed difficulty: the hex digest begins with two zero digits. */
  predicate StartsWithTwoZeros(digest: string)
  {
    |digest| >= 2 && digest[0] == '0' && digest[1] == '0'
  }

  /**
   * valid_proof (and Verification.valid_proof): hash the rendered
   * transactions + last_hash + str(proof), then compare the digest's first
   * two characters with "00" as Python's slice does.
   */
  function ValidProof<B, T>(hs: Hasher<B, T>, transactions: seq<T>, lastHash: string, proof: nat): (r: bool)
    ensures r <==> StartsWithTwoZeros(hs.hashString256(hs.render(transactions) + lastHash + Str(proof)))
  {
    var guessHash := hs.hashString256(hs.render(transactions) + lastHash + Str(proof));
    Prefix(guessHash, 2) == "00"
  }
}
