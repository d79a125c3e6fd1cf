/**
 * The demonstration program (example.rs) as a client of the chain: a genesis
 * block and three blocks made on the tip, written out as one JSON document,
 * read back and rebuilt with `from_blocks`. The file system is modelled as
 * giving back what was written; the block-inspection prompt that follows is I/O.
 */
module Example {
  import opened Options
  import opened Serde
  import Blocks
  import opened Ledger

  type Block = Blocks.Block

  /** Steps 1 and 2: a genesis block and three blocks made on the tip; `clock` holds the four readings. */
  method BuildChain(sha: Blocks.Sha256, clock: seq<nat>) returns (blockchain: Blockchain)
    requires |clock| == 4
    ensures fresh(blockchain) && blockchain.sha == sha
    ensures |blockchain.blocks| == 4 && ChainValid(sha, blockchain.blocks)
    ensures blockchain.blocks[0] == Blocks.GenesisBlock(sha, clock[0])
    ensures forall i :: 0 <= i < 4 ==>
      blockchain.blocks[i].height == i && blockchain.blocks[i].timestamp == clock[i]
  {
    blockchain := new Blockchain.New(sha, clock[0]);
    for i := 1 to 4
      invariant blockchain.sha == sha
      invariant |blockchain.blocks| == i && ChainValid(sha, blockchain.blocks)
      invariant blockchain.blocks[0] == Blocks.GenesisBlock(sha, clock[0])
      invariant forall j :: 0 <= j < i ==>
        blockchain.blocks[j].height == j && blockchain.blocks[j].timestamp == clock[j]
    {
      ghost var before := blockchain.blocks;
      var prevHash := blockchain.GetLastBlock().value.hash;
      var newBlock := Blocks.NewBlock(sha, clock[i], prevHash, i);
      NewBlockOnTipAccepted(sha, before, clock[i], i);
      var added := blockchain.AddBlock(newBlock);
      assert added && blockchain.blocks == before + [newBlock];
    }
  }

  /** Steps 4 to 6: the chain saved as JSON, read back and rebuilt; `from_blocks` accepts it. */
  method ExampleRun(sha: Blocks.Sha256, codec: Codec<seq<Block>, string>, clock: seq<nat>)
    returns (loaded: Option<Blockchain>)
    requires Lossless(codec) && |clock| == 4
    ensures loaded.Some?
    ensures |loaded.value.blocks| == 4 && ChainValid(sha, loaded.value.blocks)
    ensures loaded.value.blocks[0] == Blocks.GenesisBlock(sha, clock[0])
    ensures forall i :: 0 <= i < 4 ==>
      loaded.value.blocks[i].height == i && loaded.value.blocks[i].timestamp == clock[i]
  {
    var blockchain := BuildChain(sha, clock);
    var blockchainJson := codec.encode(blockchain.blocks);
    var loadedBlocks := codec.decode(blockchainJson);
    assert loadedBlocks == Some(blockchain.blocks);
    loaded := Blockchain.FromBlocks(sha, loadedBlocks.value);
  }
}
