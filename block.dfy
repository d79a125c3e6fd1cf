/**
 * A block of the ledger (block.rs): a creation time, the hash of the block it
 * extends, its own hash and its height. Blocks are values; the two constructors
 * take the clock reading as a parameter instead of reading the system clock.
 *
 * SHA-256 itself is not modelled. It enters as a parameter of type `Sha256`: any
 * function from the hashed text to 64 lowercase hexadecimal characters (what
 * `format!("{:x}", ...)` prints for a 32-byte digest). Nothing else about it is
 * assumed, in particular not that it is free of collisions.
 */
module Blocks {
  import opened Text

  /** The width of a printed SHA-256 digest: 32 bytes, two hex characters each. */
  const DigestLength: nat := 64

  predicate IsLowerHexDigit(c: char) {
    '0' <= c <= '9' || 'a' <= c <= 'f'
  }

  predicate IsHexDigest(s: string) {
    |s| == DigestLength && forall i :: 0 <= i < |s| ==> IsLowerHexDigit(s[i])
  }

  /** A function of the right shape exists; it only witnesses that `Sha256` is inhabited. */
  function ZeroDigest(input: string): string {
    seq(DigestLength, _ => '0')
  }

  /** SHA-256 over a text, printed as lowercase hex. */
  type Sha256 = f: string -> string | forall s :: IsHexDigest(f(s)) witness ZeroDigest

  datatype Block = Block(timestamp: nat, prevBlockHash: string, hash: string, height: nat)

  /** The previous hash of every genesis block: `"0".repeat(64)`. */
  const GenesisPrevHash: string := Repeat('0', 64)

  lemma GenesisPrevHashShape()
    ensures |GenesisPrevHash| == 64
    ensures forall i :: 0 <= i < |GenesisPrevHash| ==> GenesisPrevHash[i] == '0'
    ensures IsHexDigest(GenesisPrevHash)
  {
  }

  /** The text fed to the hasher: the decimal timestamp, then the previous hash, with no separator. */
  function HashInput(timestamp: nat, prevBlockHash: string): string {
    NatToDecimal(timestamp) + prevBlockHash
  }

  /** `calculate_hash`: depends on the timestamp and the previous hash only. */
  function CalculateHash(sha: Sha256, timestamp: nat, prevBlockHash: string): (r: string)
    ensures IsHexDigest(r)
    ensures |r| == |GenesisPrevHash|
  {
    sha(HashInput(timestamp, prevBlockHash))
  }

  /** A block whose stored hash is the one its timestamp and previous hash give. */
  predicate IsSealed(sha: Sha256, b: Block) {
    b.hash == CalculateHash(sha, b.timestamp, b.prevBlockHash)
  }

  /** `new_block`, at clock reading `now`. */
  function NewBlock(sha: Sha256, now: nat, prevBlockHash: string, height: nat): (b: Block)
    ensures b.timestamp == now && b.prevBlockHash == prevBlockHash && b.height == height
    ensures IsSealed(sha, b) && IsHexDigest(b.hash)
  {
    Block(now, prevBlockHash, CalculateHash(sha, now, prevBlockHash), height)
  }

  /** `genesis_block`, at clock reading `now`. */
  function GenesisBlock(sha: Sha256, now: nat): (b: Block)
    ensures b.timestamp == now && b.prevBlockHash == GenesisPrevHash && b.height == 0
    ensures IsSealed(sha, b) && IsHexDigest(b.hash)
  {
    Block(now, GenesisPrevHash, CalculateHash(sha, now, GenesisPrevHash), 0)
  }

  /** The height is not hashed: changing it keeps a sealed block sealed, with the same hash. */
  lemma HeightNotHashed(sha: Sha256, b: Block, height: nat)
    requires IsSealed(sha, b)
    ensures IsSealed(sha, b.(height := height))
  {
  }

  /**
   * When the previous hashes have the same length (as printed digests always
   * do), the hashed text determines both inputs: two different (timestamp,
   * previous hash) pairs are never fed to the digest as the same text.
   */
  lemma HashInputInjective(t1: nat, p1: string, t2: nat, p2: string)
    requires |p1| == |p2|
    requires HashInput(t1, p1) == HashInput(t2, p2)
    ensures t1 == t2 && p1 == p2
  {
    var d1, d2 := NatToDecimal(t1), NatToDecimal(t2);
    var s := HashInput(t1, p1);
    assert d1 == s[..|d1|] && d2 == s[..|d2|];
    assert p1 == s[|d1|..] && p2 == s[|d2|..];
    DecimalInjective(t1, t2);
  }

  /**
   * Without a separator, pairs with previous hashes of different lengths can be
   * fed to the digest as the same text, so they receive the same hash.
   */
  lemma HashInputAmbiguous(sha: Sha256)
    ensures HashInput(1, "23") == HashInput(12, "3")
    ensures CalculateHash(sha, 1, "23") == CalculateHash(sha, 12, "3")
  {
    assert NatToDecimal(1) == "1";
    assert NatToDecimal(12) == NatToDecimal(1) + [DigitChar(2)] == "12";
  }
}
