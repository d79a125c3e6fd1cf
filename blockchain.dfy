/**
 * The chain of blocks (src/blockchain.rs). `ChainValid` is what `is_valid`
 * decides: from index 1 on, every block names its predecessor's hash and
 * carries the hash its own timestamp and previous hash give. Block 0 and the
 * heights are not examined, and `add_block` looks only at the previous hash.
 */
module Ledger {
  import opened Options
  import opened Blocks

  /** The condition `is_valid` checks at index `i`. */
  predicate LinkOk(sha: Sha256, bs: seq<Block>, i: int)
    requires 1 <= i < |bs|
  {
    bs[i].prevBlockHash == bs[i - 1].hash && IsSealed(sha, bs[i])
  }

  predicate ChainValid(sha: Sha256, bs: seq<Block>) {
    forall i :: 1 <= i < |bs| ==> LinkOk(sha, bs, i)
  }

  /** The condition under which `add_block` accepts `b` on top of `bs`. */
  predicate Extends(bs: seq<Block>, b: Block) {
    |bs| > 0 && b.prevBlockHash == bs[|bs| - 1].hash
  }

  /** The empty chain and every one-block chain pass `is_valid`, whatever that block holds. */
  lemma ShortChainsValid(sha: Sha256, bs: seq<Block>)
    requires |bs| <= 1
    ensures ChainValid(sha, bs)
  {
  }

  /**
   * Appending to a valid non-empty chain gives a valid chain exactly when the
   * new block names the tip's hash and is sealed.
   */
  lemma AppendValidIff(sha: Sha256, bs: seq<Block>, b: Block)
    requires ChainValid(sha, bs) && |bs| > 0
    ensures ChainValid(sha, bs + [b]) <==> Extends(bs, b) && IsSealed(sha, b)
  {
    var cs := bs + [b];
    if Extends(bs, b) && IsSealed(sha, b) {
      forall i | 1 <= i < |cs| ensures LinkOk(sha, cs, i) {
        if i < |bs| {
          assert LinkOk(sha, bs, i);
        } else {
          assert cs[i] == b && cs[i - 1] == bs[|bs| - 1];
        }
      }
    }
    if ChainValid(sha, cs) {
      assert LinkOk(sha, cs, |bs|);
    }
  }

  /** Every prefix of a valid chain is valid. */
  lemma PrefixValid(sha: Sha256, bs: seq<Block>, k: nat)
    requires ChainValid(sha, bs) && k <= |bs|
    ensures ChainValid(sha, bs[..k])
  {
    forall i | 1 <= i < k ensures LinkOk(sha, bs[..k], i) {
      assert LinkOk(sha, bs, i);
    }
  }

  /** Changing the previous hash stored in block `i >= 1` of a valid chain makes it invalid. */
  lemma TamperedLinkDetected(sha: Sha256, bs: seq<Block>, i: nat, p: string)
    requires ChainValid(sha, bs) && 1 <= i < |bs|
    requires p != bs[i].prevBlockHash
    ensures !ChainValid(sha, bs[i := bs[i].(prevBlockHash := p)])
  {
    assert LinkOk(sha, bs, i);
    var cs := bs[i := bs[i].(prevBlockHash := p)];
    assert cs[i - 1] == bs[i - 1];
    assert !LinkOk(sha, cs, i);
  }

  /**
   * Changing the timestamp stored in block `i >= 1` is detected whenever the
   * digest of the new timestamp differs from the stored hash. (That it does
   * differ is what SHA-256 is trusted for; the model does not assume it.)
   */
  lemma TamperedTimestampDetected(sha: Sha256, bs: seq<Block>, i: nat, t: nat)
    requires 1 <= i < |bs|
    requires CalculateHash(sha, t, bs[i].prevBlockHash) != bs[i].hash
    ensures !ChainValid(sha, bs[i := bs[i].(timestamp := t)])
  {
    var cs := bs[i := bs[i].(timestamp := t)];
    assert !LinkOk(sha, cs, i);
  }

  /**
   * Block 0 is never examined: any block with the same hash can replace it,
   * whatever its timestamp, previous hash or height, and the chain stays valid.
   */
  lemma GenesisNotChecked(sha: Sha256, bs: seq<Block>, g: Block)
    requires ChainValid(sha, bs) && |bs| > 0
    requires g.hash == bs[0].hash
    ensures ChainValid(sha, bs[0 := g])
  {
    var cs := bs[0 := g];
    forall i | 1 <= i < |cs| ensures LinkOk(sha, cs, i) {
      assert LinkOk(sha, bs, i);
    }
  }

  /** Heights are never examined: any block may carry any height in a valid chain. */
  lemma HeightsNotChecked(sha: Sha256, bs: seq<Block>, i: nat, h: nat)
    requires ChainValid(sha, bs) && i < |bs|
    ensures ChainValid(sha, bs[i := bs[i].(height := h)])
  {
    var cs := bs[i := bs[i].(height := h)];
    forall j | 1 <= j < |cs| ensures LinkOk(sha, cs, j) {
      assert LinkOk(sha, bs, j);
    }
  }

  /**
   * Delivering the block just appended a second time is rejected, unless the
   * block's hash equals its own previous hash.
   */
  lemma RedeliveryRejected(bs: seq<Block>, b: Block)
    requires Extends(bs, b)
    ensures Extends(bs + [b], b) <==> b.hash == b.prevBlockHash
  {
  }

  /**
   * `add_block` does not recompute the hash: a block naming the tip but carrying
   * any hash other than the one its timestamp and previous hash give is
   * accepted, and the chain it joins no longer passes `is_valid`.
   */
  lemma ForgedBlockAccepted(sha: Sha256, bs: seq<Block>, timestamp: nat, h: string, height: nat)
    requires |bs| > 0
    requires h != CalculateHash(sha, timestamp, bs[|bs| - 1].hash)
    ensures var forged := Block(timestamp, bs[|bs| - 1].hash, h, height);
      Extends(bs, forged) && !ChainValid(sha, bs + [forged])
  {
    var forged := Block(timestamp, bs[|bs| - 1].hash, h, height);
    assert !LinkOk(sha, bs + [forged], |bs|);
  }

  /** A block made on the tip by `new_block` is accepted and keeps a valid chain valid. */
  lemma NewBlockOnTipAccepted(sha: Sha256, bs: seq<Block>, now: nat, height: nat)
    requires |bs| > 0
    ensures var b := NewBlock(sha, now, bs[|bs| - 1].hash, height);
      Extends(bs, b) && (ChainValid(sha, bs) ==> ChainValid(sha, bs + [b]))
  {
    var b := NewBlock(sha, now, bs[|bs| - 1].hash, height);
    if ChainValid(sha, bs) {
      AppendValidIff(sha, bs, b);
    }
  }

  class Blockchain {
    /** The digest every block of this chain is checked against. */
    const sha: Sha256
    var blocks: seq<Block>

    /** `new`: a chain holding one genesis block made at clock reading `now`. */
    constructor New(sha: Sha256, now: nat)
      ensures this.sha == sha
      ensures blocks == [GenesisBlock(sha, now)]
      ensures ChainValid(sha, blocks)
    {
      this.sha := sha;
      blocks := [GenesisBlock(sha, now)];
    }

    /** The struct literal `Blockchain { blocks: data }`, before any check. */
    constructor Wrap(sha: Sha256, data: seq<Block>)
      ensures this.sha == sha && blocks == data
    {
      this.sha := sha;
      blocks := data;
    }

    /**
     * `from_blocks`: the chain over `data` if it passes `is_valid`; `None`
     * where the source panics.
     */
    static method FromBlocks(sha: Sha256, data: seq<Block>) returns (r: Option<Blockchain>)
      ensures r.Some? <==> ChainValid(sha, data)
      ensures r.Some? ==> fresh(r.value) && r.value.sha == sha && r.value.blocks == data
    {
      var blockchain := new Blockchain.Wrap(sha, data);
      var valid := blockchain.IsValid();
      if !valid {
        return None;
      }
      return Some(blockchain);
    }

    /** `get_last_block`. */
    function GetLastBlock(): (r: Option<Block>)
      reads this
      ensures r.None? <==> blocks == []
      ensures r.Some? ==> r.value == blocks[|blocks| - 1]
    {
      if blocks == [] then None else Some(blocks[|blocks| - 1])
    }

    /** `add_block`: appends `block` when it names the tip's hash, otherwise changes nothing. */
    method AddBlock(block: Block) returns (added: bool)
      modifies this`blocks
      ensures added == Extends(old(blocks), block)
      ensures blocks == if added then old(blocks) + [block] else old(blocks)
    {
      var last := GetLastBlock();
      if last.Some? {
        if block.prevBlockHash != last.value.hash {
          return false;
        }
        blocks := blocks + [block];
        return true;
      } else {
        return false;
      }
    }

    /** `is_valid`: walks indices 1 .. |blocks| - 1 and stops at the first bad one. */
    method IsValid() returns (valid: bool)
      ensures valid == ChainValid(sha, blocks)
    {
      var i := 1;
      while i < |blocks|
        invariant 1 <= i
        invariant forall j :: 1 <= j < i && j < |blocks| ==> LinkOk(sha, blocks, j)
      {
        var current := blocks[i];
        var previous := blocks[i - 1];
        if current.prevBlockHash != previous.hash {
          assert !LinkOk(sha, blocks, i);
          return false;
        }
        var recalculatedHash := CalculateHash(sha, current.timestamp, current.prevBlockHash);
        if current.hash != recalculatedHash {
          assert !LinkOk(sha, blocks, i);
          return false;
        }
        i := i + 1;
      }
      return true;
    }
  }
}
