/**
 * One block of the simulated ledger (src/block.js): its fields, the digest
 * over them, proof-of-work mining and the payload update.
 *
 * The digest is SHA-256 of `index + timestamp + JSON.stringify(data) +
 * previousHash + nonce`.  The model takes it as a parameter `sha` of type
 * `HashFn` and assumes nothing about it: every property below holds for
 * any hash function at all, collisions included.
 */
module Blocks {
  import opened Wrappers
  import opened Payload

  type HashFn = (int, string, Record, string, nat) -> string

  /** `s.startsWith(prefix)` */
  predicate StartsWith(s: string, prefix: string) {
    |prefix| <= |s| && s[..|prefix|] == prefix
  }

  /**
   * `nonce` is a JavaScript number: `nonce++` is exact up to 2^53 and stops
   * growing there (2^53 + 1 rounds back to 2^53), so the search can reach
   * the nonces 0 through 2^53 and no others.
   */
  const MaxSafeNonce: nat := 0x20_0000_0000_0000

  /** `mineBlock` searches for this prefix whatever difficulty it is asked for. */
  const MinePrefix: string := "0000"

  /** The state of one `Block` object at one moment. */
  datatype BlockValue = BlockValue(
    index: int,
    timestamp: string,
    data: Record,
    previousHash: string,
    nonce: nat,
    hash: string,
    miningTime: Option<real>)

  /** `calculateHash()`: the digest of the five hashed fields of `b`. */
  function Digest(sha: HashFn, b: BlockValue): string {
    sha(b.index, b.timestamp, b.data, b.previousHash, b.nonce)
  }

  /** The content `b` is hashed over, taken with `nonce`, meets the mining prefix. */
  predicate Solves(sha: HashFn, b: BlockValue, nonce: nat) {
    StartsWith(sha(b.index, b.timestamp, b.data, b.previousHash, nonce), MinePrefix)
  }

  /** `nonce` is the first one a search upward from 0 finds for `b`'s content. */
  ghost predicate LeastSolution(sha: HashFn, b: BlockValue, nonce: nat) {
    Solves(sha, b, nonce) && forall m: nat :: m < nonce ==> !Solves(sha, b, m)
  }

  /** A freshly constructed block. */
  function Created(sha: HashFn, index: int, timestamp: string, data: Record, previousHash: string): (b: BlockValue)
    ensures b.nonce == 0 && b.miningTime == None && b.hash == Digest(sha, b)
    ensures b.index == index && b.timestamp == timestamp && b.data == data && b.previousHash == previousHash
  {
    BlockValue(index, timestamp, data, previousHash, 0, sha(index, timestamp, data, previousHash, 0), None)
  }

  /**
   * `updateData(newData)`: the hash is recomputed while the nonce still holds
   * its old value, and only then is the nonce reset to 0.
   */
  function Updated(sha: HashFn, b: BlockValue, newData: Record): BlockValue {
    var b' := b.(data := newData);
    b'.(hash := Digest(sha, b'), nonce := 0, miningTime := None)
  }

  /** The block after a search that stopped at `nonce` and took `elapsed` ms. */
  function Mined(sha: HashFn, b: BlockValue, nonce: nat, elapsed: real): BlockValue {
    var b' := b.(nonce := nonce);
    b'.(hash := Digest(sha, b'), miningTime := Some(elapsed))
  }

  /** The digest reads the five hashed fields and nothing else. */
  lemma DigestReadsOnlyHashedFields(sha: HashFn, b: BlockValue, h: string, t: Option<real>)
    ensures Digest(sha, b.(hash := h, miningTime := t)) == Digest(sha, b)
  {
  }

  /**
   * After `updateData` the stored hash agrees with the digest of the
   * block's current fields exactly when the old nonce and nonce 0 hash alike
   * over the new data.
   */
  lemma UpdatedHashIsStale(sha: HashFn, b: BlockValue, newData: Record)
    ensures var u := Updated(sha, b, newData);
      u.data == newData && u.nonce == 0 && u.miningTime == None &&
      u.index == b.index && u.timestamp == b.timestamp && u.previousHash == b.previousHash &&
      u.hash == sha(b.index, b.timestamp, newData, b.previousHash, b.nonce) &&
      (u.hash == Digest(sha, u) <==>
         sha(b.index, b.timestamp, newData, b.previousHash, b.nonce) == sha(b.index, b.timestamp, newData, b.previousHash, 0))
  {
  }

  /** A hash function and block for which the stored hash disagrees with the current fields. */
  lemma UpdatedHashCanDisagree()
    ensures var sha: HashFn := (i, t, d, p, n) => if n == 0 then "a" else "b";
      var b := BlockValue(1, "t", [], "0", 7, "x", None);
      Updated(sha, b, []).hash != Digest(sha, Updated(sha, b, []))
  {
  }

  /** Whatever nonce a block held before, mining its content ends on the same nonce. */
  lemma LeastSolutionUnique(sha: HashFn, b: BlockValue, n1: nat, n2: nat)
    requires LeastSolution(sha, b, n1) && LeastSolution(sha, b, n2)
    ensures n1 == n2
  {
  }

  /** A mined block carries a hash that is consistent with its fields and meets the prefix. */
  lemma MinedIsConsistent(sha: HashFn, b: BlockValue, nonce: nat, elapsed: real)
    requires Solves(sha, b, nonce)
    ensures var m := Mined(sha, b, nonce, elapsed);
      m.hash == Digest(sha, m) && StartsWith(m.hash, MinePrefix) && m.miningTime.Some? &&
      m.index == b.index && m.timestamp == b.timestamp && m.data == b.data && m.previousHash == b.previousHash
  {
  }

  class Block {
    var index: int
    var timestamp: string
    var data: Record
    var previousHash: string
    var nonce: nat
    var hash: string
    var miningTime: Option<real>

    /** The block's current state as a value. */
    function Value(): BlockValue
      reads this
    {
      BlockValue(index, timestamp, data, previousHash, nonce, hash, miningTime)
    }

    /** `new Block(index, timestamp, data, previousHash = "")` */
    constructor (sha: HashFn, index: int, timestamp: string, data: Record, previousHash: string := "")
      ensures Value() == Created(sha, index, timestamp, data, previousHash)
    {
      this.index := index;
      this.timestamp := timestamp;
      this.data := data;
      this.previousHash := previousHash;
      this.nonce := 0;
      new;
      hash := CalculateHash(sha);
      miningTime := None;
    }

    /** `calculateHash()`: reads the fields, changes nothing. */
    function CalculateHash(sha: HashFn): string
      reads this
    {
      Digest(sha, Value())
    }

    /**
     * `mineBlock()`: restart at nonce 0 and count upward until the hash starts
     * with "0000".  The source loops forever when no nonce up to 2^53 works
     * (beyond it the counter no longer grows); the model asks for such a
     * nonce (`bound`).  `startTime` and `endTime` are the two clock readings
     * around the search.
     */
    method MineBlock(sha: HashFn, startTime: real, endTime: real, ghost bound: nat)
      requires bound <= MaxSafeNonce && Solves(sha, Value(), bound)
      modifies this
      ensures LeastSolution(sha, old(Value()), nonce)
      ensures Value() == Mined(sha, old(Value()), nonce, endTime - startTime)
    {
      nonce := 0;
      hash := CalculateHash(sha);
      while !StartsWith(hash, MinePrefix)
        invariant index == old(index) && timestamp == old(timestamp)
        invariant data == old(data) && previousHash == old(previousHash)
        invariant hash == CalculateHash(sha)
        invariant nonce <= bound
        invariant forall m: nat :: m < nonce ==> !Solves(sha, old(Value()), m)
        decreases bound - nonce
      {
        nonce := nonce + 1;
        hash := CalculateHash(sha);
      }
      miningTime := Some(endTime - startTime);
    }

    /** `updateData(newData)`: new payload, proof of work invalidated. */
    method UpdateData(sha: HashFn, newData: Record)
      modifies this
      ensures Value() == Updated(sha, old(Value()), newData)
      ensures data == newData && nonce == 0 && miningTime == None
      ensures hash == sha(index, timestamp, newData, previousHash, old(nonce))
      ensures index == old(index) && timestamp == old(timestamp) && previousHash == old(previousHash)
    {
      data := newData;
      hash := CalculateHash(sha);
      nonce := 0;
      miningTime := None;
    }
  }
}
