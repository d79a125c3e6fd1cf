# A hash-linked ledger and its gossip node, in Dafny

This project models the core of a small peer-to-peer blockchain node written in Rust. It covers:

- **Blocks** (`block.dfy`, module `Blocks`). A block holds a timestamp, the hash of the block it extends, its own hash and its height. `new_block` and `genesis_block` seal a block with `calculate_hash`: SHA-256 over the decimal text of the timestamp followed by the previous hash, printed as 64 lowercase hex characters.
- **The chain** (`blockchain.dfy`, module `Ledger`). `Blockchain` is a class whose one mutable field is `blocks: seq<Block>`; the digest function its blocks are checked against is held as a constant `sha` of the chain. It has `new`, the validating `from_blocks`, `add_block`, `get_last_block` and the `is_valid` loop. `ChainValid` is the predicate `is_valid` decides, and `IsValid` is proved against it.
- **The gossip protocol** (`network.dfy`, module `Network`). This covers the `NetworkMessage` sum type, the no-peer guard of `broadcast_message`, and the dispatch in `handle_event`. `handle_event` decodes an incoming message, passes an announced block to `add_block`, answers a chain request with one serialised entry per block, and ignores everything else.
- **The node** (`node.dfy`, module `App`). This is main.rs: start-up, the command dispatch (Add Block / List Peers / List Blockchain / unknown), and the event loop. The loop is modelled as a `Node` object that owns its `Blockchain` and its `Swarm`.
- **The demonstration program** (`example.dfy`, module `Example`). It makes genesis plus three blocks, saves and reloads them, and `from_blocks` accepts the result.
- **Helpers.** `text.dfy` holds the Rust string functions the core uses: `to_string` on integers, `repeat`, `starts_with` and `trim`. `serde.dfy` holds the serialisation interface and `options.dfy` the `Option` type.

**Abstractions.**

- **SHA-256.** The digest is a parameter of type `Blocks.Sha256`. That type admits any function from text to a 64-character lowercase hex string. No other property is assumed, in particular not freedom from collisions.
- **serde_json.** The library is a `Serde.Codec`: an encoder plus a decoder that returns `Option`. `Lossless(c)`, meaning decoding an encoding gives the value back, is required only where a lemma relies on it.
- **The clock.** Clock readings are parameters (`now`, `clock`).
- **gossipsub.** Whether gossipsub accepts a publish is a parameter `publishOk`.
- **mDNS.** The peers mDNS has discovered are a field of `Swarm` that the model never changes.

**Where the code does less than a reader would expect.** The model follows the code. Five safeguards a blockchain node would usually have are missing:

- **`add_block` has no hash check.** There is no defensive re-check of a block's hash in `add_block`. The code compares only the previous hash. `Ledger.ForgedBlockAccepted` shows that a block with any hash other than the right one is accepted and that the chain it joins then fails `is_valid`. A `NewBlock` from any peer therefore can make the local chain invalid.
- **`is_valid` checks less.** There is no genesis check and no height check in `is_valid`. The code checks neither block 0 nor the heights (see `Ledger.GenesisNotChecked` and `Ledger.HeightsNotChecked`). It starts at index 1 and compares only previous hashes and recomputed hashes.
- **Announce before append.** A locally made block is not appended before it is announced. main.rs announces it first and appends it afterwards.
- **No height check on received blocks.** `add_block` never reads a block's height, so a peer can announce a block that names the tip and has height `usize::MAX`. It is accepted, and the next local Add Block computes `get_height() + 1` (main.rs:87), which panics in the debug build that `cargo run` makes. `App.PeerHeightCrashesNode` shows this run.
- **No reconciliation.** A received `ChainResponse` is ignored. Nothing reconciles chains.

## Model

| member | source | states |
|---|---|---|
| `Text.NatToDecimal` | block.rs:109 | the decimal text of a timestamp is non-empty, all digits, "0" exactly for 0, and has no leading zero |
| `Text.DecimalRoundTrip` | block.rs:109 | reading the decimal text back gives the number |
| `Text.DecimalInjective` | block.rs:109 | different timestamps have different decimal texts |
| `Text.Repeat` | block.rs:80 | `c.repeat(n)` has length n and every character is c |
| `Text.TrimStart` | main.rs:78 | the result is a suffix of the input, everything dropped is white space, and it does not start with white space |
| `Text.TrimEnd` | main.rs:78 | the result is a prefix of the input, everything dropped is white space, and it does not end with white space |
| `Text.TrimEmptyIff` | main.rs:78-79 | `trim` gives the empty string iff the input is white space only |
| `Blocks.GenesisPrevHashShape` | block.rs:80 | the genesis previous hash is 64 '0' characters and has the shape of a digest |
| `Blocks.CalculateHash` | block.rs:107-113 | every hash is 64 lowercase hex characters, the same length as the genesis sentinel |
| `Blocks.NewBlock` | block.rs:44-58 | stores the clock reading, the previous hash and the height as given, and its hash is the digest of that timestamp and previous hash |
| `Blocks.GenesisBlock` | block.rs:74-89 | height 0, the 64-zero previous hash, and the hash of that timestamp and sentinel |
| `Blocks.HeightNotHashed` | block.rs:107-113 | the height is not an input of the hash: changing it keeps a sealed block sealed |
| `Blocks.HashInputInjective` | block.rs:108-110 | with previous hashes of equal length, equal hashed texts mean equal timestamps and equal previous hashes |
| `Blocks.HashInputAmbiguous` | block.rs:108-110 | without a separator, (1, "23") and (12, "3") are hashed as the same text and get the same hash |
| `Ledger.ShortChainsValid` | src/blockchain.rs:159-160 | the empty chain and every one-block chain pass `is_valid` |
| `Ledger.AppendValidIff` | src/blockchain.rs:159-178 | appending to a valid non-empty chain keeps it valid iff the block names the tip's hash and is sealed |
| `Ledger.PrefixValid` | src/blockchain.rs:159-178 | every prefix of a valid chain is valid |
| `Ledger.TamperedLinkDetected` | src/blockchain.rs:164-168 | changing the previous hash of any block at index 1 or later makes a valid chain invalid |
| `Ledger.TamperedTimestampDetected` | src/blockchain.rs:170-175 | changing a timestamp at index 1 or later is detected whenever the new digest differs from the stored hash |
| `Ledger.GenesisNotChecked` | src/blockchain.rs:160-162 | block 0 can be replaced by any block with the same hash and the chain stays valid |
| `Ledger.HeightsNotChecked` | src/blockchain.rs:159-178 | any block may carry any height in a valid chain |
| `Ledger.RedeliveryRejected` | src/blockchain.rs:89-96 | once a block is appended, the same block is accepted again only if its hash equals its own previous hash |
| `Ledger.ForgedBlockAccepted` | src/blockchain.rs:89-101 | a block naming the tip whose hash is anything other than the digest of its timestamp and previous hash is accepted, and the chain then fails `is_valid`, whatever the chain was before |
| `Ledger.NewBlockOnTipAccepted` | src/blockchain.rs:89-101 | a `new_block` made on the tip's hash is accepted and keeps a valid chain valid |
| `Ledger.Blockchain.New` | src/blockchain.rs:30-35 | exactly one block, a genesis block, and the chain is valid |
| `Ledger.Blockchain.Wrap` | src/blockchain.rs:60 | the struct literal holds exactly the given blocks |
| `Ledger.Blockchain.FromBlocks` | src/blockchain.rs:59-65 | fails iff the data is not a valid chain; otherwise a fresh chain whose blocks are exactly the data |
| `Ledger.Blockchain.GetLastBlock` | src/blockchain.rs:138-140 | None iff the chain is empty, otherwise the last block |
| `Ledger.Blockchain.AddBlock` | src/blockchain.rs:89-106 | accepts iff the chain is non-empty and the block's previous hash is the tip's hash; on acceptance the blocks become old + [block], otherwise they are unchanged |
| `Ledger.Blockchain.IsValid` | src/blockchain.rs:159-178 | true iff, for every index from 1, the block names its predecessor's hash and carries the digest of its own timestamp and previous hash |
| `Network.Swarm.constructor` | src/network.rs:134-138 | a swarm starts with nothing published; its `discovered` argument is the set of peers found during the mDNS window of main.rs:54 |
| `Network.Swarm.Publish` | src/network.rs:176 | the payload is appended to what was published exactly when gossipsub accepts it |
| `Network.BroadcastMessage` | src/network.rs:163-180 | nothing is published when no peer is discovered; otherwise the encoded message is published if gossipsub accepts it |
| `Network.SerializeBlocks` | src/network.rs:238-241 | one serialised entry per block, in chain order |
| `Network.SerializeBlocksInjective` | src/network.rs:238-243 | with a lossless codec, the entries of a chain response determine the chain they were made from |
| `Network.ClassifyEncoded` | src/network.rs:216-249 | with lossless codecs, a payload encoding a message is dispatched by that message's variant, and a NewBlock carrying an encoded block dispatches that block |
| `Network.EventStepGrows` | src/network.rs:210-254 | an event never removes a block or a published payload; it panics exactly on a chain request whose answer is refused, and a panicking event changes nothing |
| `Network.HandleEvent` | src/network.rs:210-254 | the new chain, publish log and panic flag are those `EventStep` gives for the old state: an announced block changes the chain exactly as `add_block` would and publishes nothing; a chain request leaves the chain unchanged and publishes one `ChainResponse` of the serialised blocks, or panics when the publish is refused; an undecodable message or block, a `ChainResponse` and any non-gossip event change nothing |
| `App.ParseCommand` | main.rs:74-118 | commands are matched by prefix, in the order Add Block, List Peers, List Blockchain, then unknown; the Add Block payload is the trimmed rest of the line |
| `App.AddBlockPayloadEmptyIff` | main.rs:77-79 | an Add Block line has an empty payload iff the rest of the line is white space only |
| `App.BlockOnTip` | main.rs:82-88 | the new block names the tip's hash, has the tip's height + 1, carries the clock reading and is sealed |
| `App.AnnouncementAccepted` | main.rs:91-92 | with lossless codecs, an announcement is decoded by any peer to the very block made, and is accepted by a peer whose tip has the same hash |
| `App.AnnouncementRedeliveryRejected` | main.rs:85-95 | with lossless codecs, the same announcement delivered again after a peer appended its block is decoded to that block once more, and is rejected unless the new block's hash equals the old tip's hash |
| `App.Node.constructor` | main.rs:39-62 | start-up gives a chain holding only a genesis block, then broadcasts one `ChainRequest` if a peer was discovered and the publish is accepted |
| `App.Node.AddBlockOnTip` | main.rs:82-96 | the block made on the tip is announced, then appended; the append is always accepted, the chain grows by exactly that block, and a valid chain stays valid |
| `App.CommandStepSpec` | main.rs:76-97 | a command line panics exactly when it is an Add Block line with a payload and the chain is empty or its tip has height `usize::MAX`; a panicking line changes nothing; no line removes a block or a published payload, and every line keeps a valid chain valid |
| `App.StepGrows` | main.rs:71-124 | a turn of the loop never removes a block or a published payload, a panicking turn changes nothing, and a command line keeps a valid chain valid |
| `App.RunFromSnoc` | main.rs:65-125 | after a run without a panic, one more input is exactly one more turn from the state that run reached |
| `App.RunFromStopsAtPanic` | main.rs:65-125 | once a run has panicked, no later input is handled |
| `App.RunFromGrows` | main.rs:65-125 | a run never removes a block, and a run of command lines keeps a valid chain valid |
| `App.PeerHeightCrashesNode` | main.rs:87 | with lossless codecs, a peer's block that names the tip and has height `usize::MAX` is appended, and the Add Block line that follows panics with that block at the tip |
| `App.Node.HandleCommand` | main.rs:73-119 | the new chain, publish log and panic flag are those `CommandStep` gives: only Add Block with a non-empty payload does anything; it panics on a tip of height `usize::MAX`, and otherwise appends the block made on the tip from the clock (not the payload) and publishes its announcement through the peer guard; a valid chain stays valid |
| `App.Node.HandleInput` | main.rs:71-124 | one turn of the loop gives the new chain, publish log and panic flag that `Step` gives for the old state (a command line as `CommandStep`, a swarm event as `EventStep`); the chain stays non-empty |
| `App.Node.Run` | main.rs:65-125 | the loop is the fold `RunFrom`: the inputs before `stoppedAt` are handled without a panic and give the final chain and publish log; the input at `stoppedAt`, if any, panics and changes nothing; the chain is never empty and is only ever extended; a run of command lines keeps a valid chain valid |
| `Example.BuildChain` | example.rs:10-20 | genesis plus three blocks made on the tip give a valid chain of four whose heights are 0 to 3 |
| `Example.ExampleRun` | example.rs:8-41 | the saved and reloaded chain is accepted by `from_blocks` and is the chain that was built |

## Left out

- SHA-256 and hex formatting (block.rs:107-113). The digest is an arbitrary function with the right output shape. The hashed text is modelled as characters, not as UTF-8 bytes.
- Integer widths. Timestamps (`u128`) and heights (`usize`) are unbounded naturals. The one arithmetic on them that can overflow, the `get_height() + 1` of main.rs:87, is modelled as the panic of a debug build on a 64-bit target; a release build would wrap to 0 instead. `Block` values decoded from peers are not limited to heights up to `usize::MAX`.
- The system clock and its "Time went backwards" panic (block.rs:45-48, 75-78). Clock readings are parameters.
- serde_json (block.rs:127-149 and the calls in src/network.rs and main.rs). JSON is an abstract `Codec`. `Block::serialize` and `Block::deserialize` are not separate members because the core paths call serde_json directly. The panics of their `expect`s and of the serialising `unwrap`s are not modelled: serialising these types does not fail.
- Block getters (block.rs:156-185). They are the datatype's field selectors. `get_blocks` (src/blockchain.rs:121-123) is a read of the `blocks` field.
- libp2p: `init_network`, the gossipsub and mDNS configuration, the message-id hasher, `list_peers` and the `handle_mdns` discovery loop (src/network.rs:91-152, 187-200). These are foreign I/O. mDNS updating the discovered-peer set is not modelled either.
- Why gossipsub refuses a publish. It is the parameter `publishOk`.
- tokio (main.rs:45-62, 71-73, 123). The stdin reader, the discovery `timeout` and the `select!` race are left out. `Run` takes inputs in the order they were handled.
- All console output: the `println!` calls, "List Peers" and "List Blockchain".
- example.rs file writes and the block-inspection prompt (example.rs:28-63). The file is modelled as returning what was written.
- Reconciling a received `ChainResponse`. The source has none.
- App.Node.AddBlockOnTip: the order "announce, then append" is in its body, not its contract. A sequential model cannot observe the moment between the two steps. The contract says instead that the announced block extends the chain as it was before the append.
