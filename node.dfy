/**
 * The node (main.rs): start-up, the command lines typed by the user, and the
 * event loop that feeds commands and swarm events, one at a time, into the
 * node's own chain. Which of two ready sources `select!` picks is not
 * modelled: `Run` takes the events already in the order they were handled.
 */
module App {
  import opened Options
  import opened Text
  import Blocks
  import opened Ledger
  import opened Network

  const AddBlockPrefix: string := "Add Block"
  const ListPeersPrefix: string := "List Peers"
  const ListBlockchainPrefix: string := "List Blockchain"

  datatype Command =
    | AddBlockCommand(data: string)
    | ListPeersCommand
    | ListBlockchainCommand
    | UnknownCommand

  /**
   * The guards of the command `match`, tried in order: a line is an Add Block
   * command if it starts with "Add Block", whatever follows; the payload is the
   * trimmed rest of the line.
   */
  function ParseCommand(line: string): (c: Command)
    ensures c.AddBlockCommand? <==> StartsWith(line, AddBlockPrefix)
    ensures c.AddBlockCommand? ==> c.data == Trim(line[|AddBlockPrefix|..])
    ensures c.ListPeersCommand? <==>
      !StartsWith(line, AddBlockPrefix) && StartsWith(line, ListPeersPrefix)
    ensures c.ListBlockchainCommand? <==>
      !StartsWith(line, AddBlockPrefix) && !StartsWith(line, ListPeersPrefix)
      && StartsWith(line, ListBlockchainPrefix)
    ensures c.UnknownCommand? <==>
      !StartsWith(line, AddBlockPrefix) && !StartsWith(line, ListPeersPrefix)
      && !StartsWith(line, ListBlockchainPrefix)
  {
    if StartsWith(line, AddBlockPrefix) then AddBlockCommand(Trim(line[|AddBlockPrefix|..]))
    else if StartsWith(line, ListPeersPrefix) then ListPeersCommand
    else if StartsWith(line, ListBlockchainPrefix) then ListBlockchainCommand
    else UnknownCommand
  }

  /** An Add Block line carries a payload exactly when the rest of the line is not all white space. */
  lemma AddBlockPayloadEmptyIff(line: string)
    requires StartsWith(line, AddBlockPrefix)
    ensures ParseCommand(line).data == [] <==> AllWhitespace(line[|AddBlockPrefix|..])
  {
    TrimEmptyIff(line[|AddBlockPrefix|..]);
  }

  /** The block the Add Block command makes on top of `tip` at clock reading `now`. */
  function BlockOnTip(sha: Blocks.Sha256, tip: Block, now: nat): (b: Block)
    ensures b.prevBlockHash == tip.hash && b.height == tip.height + 1 && b.timestamp == now
    ensures Blocks.IsSealed(sha, b)
  {
    Blocks.NewBlock(sha, now, tip.hash, tip.height + 1)
  }

  /** The gossip payload announcing block `b`. */
  function Announcement(codecs: Codecs, b: Block): seq<Serde.Byte> {
    codecs.message.encode(NewBlock(codecs.block.encode(b)))
  }

  /**
   * An announcement made by a node whose tip is `tip`, received by any peer
   * whose chain ends in a block with the same hash, is decoded to the very block
   * that was made and is accepted by that peer's `add_block`.
   */
  lemma AnnouncementAccepted(sha: Blocks.Sha256, codecs: Codecs, tip: Block, now: nat,
                             peerBlocks: seq<Block>, source: Option<PeerId>)
    requires CodecsLossless(codecs)
    requires |peerBlocks| > 0 && peerBlocks[|peerBlocks| - 1].hash == tip.hash
    ensures var b := BlockOnTip(sha, tip, now);
      Classify(codecs, GossipMessage(source, Announcement(codecs, b))) == BlockAnnounced(b)
      && Extends(peerBlocks, b)
  {
    var b := BlockOnTip(sha, tip, now);
    ClassifyEncoded(codecs, source, NewBlock(codecs.block.encode(b)));
  }

  /**
   * A peer receiving the same announcement again, once it has appended the
   * block, decodes it to that block once more and rejects it: the block's own
   * hash is now the tip's, and the block names a different one unless its
   * digest equals its previous hash.
   */
  lemma AnnouncementRedeliveryRejected(sha: Blocks.Sha256, codecs: Codecs, tip: Block, now: nat,
                                       peerBlocks: seq<Block>, source: Option<PeerId>)
    requires CodecsLossless(codecs)
    requires |peerBlocks| > 0 && peerBlocks[|peerBlocks| - 1].hash == tip.hash
    ensures var b := BlockOnTip(sha, tip, now);
      Classify(codecs, GossipMessage(source, Announcement(codecs, b))) == BlockAnnounced(b)
      && (Extends(peerBlocks + [b], b) <==> b.hash == tip.hash)
  {
    var b := BlockOnTip(sha, tip, now);
    ClassifyEncoded(codecs, source, NewBlock(codecs.block.encode(b)));
    RedeliveryRejected(peerBlocks, b);
  }

  /** `usize::MAX` on a 64-bit target. */
  const UsizeMax: nat := 0xFFFF_FFFF_FFFF_FFFF

  /**
   * The `get_height() + 1` of the Add Block arm leaves `usize`. The node is
   * started with `cargo run`, a debug build, where that addition panics.
   */
  predicate HeightOverflows(tip: Block) {
    tip.height + 1 > UsizeMax
  }

  /**
   * One command line on state `s`, with `discovered` the peers the swarm knows.
   * Only an Add Block line with a non-empty payload does anything: it panics
   * when the chain is empty (the `unwrap` of `get_last_block`) or the tip's
   * height is `usize::MAX`; otherwise it appends a block made on the tip and
   * publishes its announcement through the peer guard.
   */
  function CommandStep(sha: Blocks.Sha256, codecs: Codecs, discovered: set<PeerId>, s: NodeState,
                       line: string, now: nat, publishOk: bool): Outcome
  {
    var command := ParseCommand(line);
    if !command.AddBlockCommand? || command.data == [] then Outcome(s, false)
    else if s.blocks == [] || HeightOverflows(s.blocks[|s.blocks| - 1]) then Outcome(s, true)
    else
      var b := BlockOnTip(sha, s.blocks[|s.blocks| - 1], now);
      Outcome(NodeState(s.blocks + [b],
                        if discovered != {} && publishOk then s.published + [Announcement(codecs, b)]
                        else s.published),
              false)
  }

  /** One thing the loop handles: a command line typed at clock reading `now`, or a swarm event. */
  datatype Input =
    | CommandLine(line: string, now: nat, publishOk: bool)
    | SwarmInput(event: SwarmEvent, publishOk: bool)

  predicate OnlyCommands(inputs: seq<Input>) {
    forall i :: 0 <= i < |inputs| ==> inputs[i].CommandLine?
  }

  /** One turn of the loop. */
  function Step(sha: Blocks.Sha256, codecs: Codecs, discovered: set<PeerId>, s: NodeState, input: Input): Outcome {
    match input
    case CommandLine(line, now, publishOk) => CommandStep(sha, codecs, discovered, s, line, now, publishOk)
    case SwarmInput(event, publishOk) => EventStep(codecs, s, event, publishOk)
  }

  /** The loop over `inputs` from state `s`: turn after turn, until the first turn that panics. */
  function RunFrom(sha: Blocks.Sha256, codecs: Codecs, discovered: set<PeerId>, s: NodeState,
                   inputs: seq<Input>): Outcome
    decreases |inputs|
  {
    if inputs == [] then Outcome(s, false)
    else
      var o := Step(sha, codecs, discovered, s, inputs[0]);
      if o.panicked then o else RunFrom(sha, codecs, discovered, o.state, inputs[1..])
  }

  /**
   * A command line panics exactly when it is an Add Block line with a payload
   * and the chain is empty or its tip has height `usize::MAX`; a panicking line
   * changes nothing, and every line keeps a valid chain valid.
   */
  lemma CommandStepSpec(sha: Blocks.Sha256, codecs: Codecs, discovered: set<PeerId>, s: NodeState,
                        line: string, now: nat, publishOk: bool)
    ensures var o := CommandStep(sha, codecs, discovered, s, line, now, publishOk);
      var command := ParseCommand(line);
      && (o.panicked <==> command.AddBlockCommand? && command.data != []
                          && (s.blocks == [] || HeightOverflows(s.blocks[|s.blocks| - 1])))
      && (o.panicked ==> o.state == s)
      && s.blocks <= o.state.blocks && s.published <= o.state.published
      && (ChainValid(sha, s.blocks) ==> ChainValid(sha, o.state.blocks))
  {
    var command := ParseCommand(line);
    if command.AddBlockCommand? && command.data != [] && s.blocks != []
       && !HeightOverflows(s.blocks[|s.blocks| - 1])
    {
      var tip := s.blocks[|s.blocks| - 1];
      NewBlockOnTipAccepted(sha, s.blocks, now, tip.height + 1);
    }
  }

  /**
   * Heights from peers are never checked, and a debug build panics on the next
   * local block: a peer announces a block that names the tip and has height
   * `usize::MAX`, the node appends it, and any Add Block line with a payload
   * typed next panics with that block still at the tip.
   */
  lemma PeerHeightCrashesNode(sha: Blocks.Sha256, codecs: Codecs, discovered: set<PeerId>, s: NodeState,
                              timestamp: nat, hash: string, source: Option<PeerId>, relayOk: bool,
                              line: string, now: nat, publishOk: bool)
    requires CodecsLossless(codecs) && s.blocks != []
    requires StartsWith(line, AddBlockPrefix) && !AllWhitespace(line[|AddBlockPrefix|..])
    ensures var b := Blocks.Block(timestamp, s.blocks[|s.blocks| - 1].hash, hash, UsizeMax);
      var inputs := [SwarmInput(GossipMessage(source, Announcement(codecs, b)), relayOk),
                     CommandLine(line, now, publishOk)];
      RunFrom(sha, codecs, discovered, s, inputs) == Outcome(NodeState(s.blocks + [b], s.published), true)
  {
    var b := Blocks.Block(timestamp, s.blocks[|s.blocks| - 1].hash, hash, UsizeMax);
    var inputs := [SwarmInput(GossipMessage(source, Announcement(codecs, b)), relayOk),
                   CommandLine(line, now, publishOk)];
    ClassifyEncoded(codecs, source, NewBlock(codecs.block.encode(b)));
    AddBlockPayloadEmptyIff(line);
    var after := NodeState(s.blocks + [b], s.published);
    assert Step(sha, codecs, discovered, s, inputs[0]) == Outcome(after, false);
    assert CommandStep(sha, codecs, discovered, after, line, now, publishOk) == Outcome(after, true);
    assert inputs[1..] == [inputs[1]];
  }

  /** A turn never removes a block or a published payload, and a panicking turn changes nothing. */
  lemma StepGrows(sha: Blocks.Sha256, codecs: Codecs, discovered: set<PeerId>, s: NodeState, input: Input)
    ensures var o := Step(sha, codecs, discovered, s, input);
      && s.blocks <= o.state.blocks && s.published <= o.state.published
      && (o.panicked ==> o.state == s)
      && (input.CommandLine? && ChainValid(sha, s.blocks) ==> ChainValid(sha, o.state.blocks))
  {
    match input {
      case CommandLine(line, now, publishOk) =>
        CommandStepSpec(sha, codecs, discovered, s, line, now, publishOk);
      case SwarmInput(event, publishOk) =>
        EventStepGrows(codecs, s, event, publishOk);
    }
  }

  /** Running one more input after a run that did not panic is one more turn. */
  lemma {:induction false} RunFromSnoc(sha: Blocks.Sha256, codecs: Codecs, discovered: set<PeerId>,
                                       s: NodeState, inputs: seq<Input>, input: Input)
    requires !RunFrom(sha, codecs, discovered, s, inputs).panicked
    ensures RunFrom(sha, codecs, discovered, s, inputs + [input])
      == Step(sha, codecs, discovered, RunFrom(sha, codecs, discovered, s, inputs).state, input)
    decreases |inputs|
  {
    if inputs == [] {
      assert [] + [input] == [input];
    } else {
      var o := Step(sha, codecs, discovered, s, inputs[0]);
      assert (inputs + [input])[0] == inputs[0];
      assert (inputs + [input])[1..] == inputs[1..] + [input];
      RunFromSnoc(sha, codecs, discovered, o.state, inputs[1..], input);
    }
  }

  /** Once a run has panicked, later inputs are never handled. */
  lemma {:induction false} RunFromStopsAtPanic(sha: Blocks.Sha256, codecs: Codecs, discovered: set<PeerId>,
                                               s: NodeState, inputs: seq<Input>, rest: seq<Input>)
    requires RunFrom(sha, codecs, discovered, s, inputs).panicked
    ensures RunFrom(sha, codecs, discovered, s, inputs + rest) == RunFrom(sha, codecs, discovered, s, inputs)
    decreases |inputs|
  {
    var o := Step(sha, codecs, discovered, s, inputs[0]);
    assert (inputs + rest)[0] == inputs[0];
    if !o.panicked {
      assert (inputs + rest)[1..] == inputs[1..] + rest;
      RunFromStopsAtPanic(sha, codecs, discovered, o.state, inputs[1..], rest);
    }
  }

  /** A run never removes a block, and a run of command lines keeps a valid chain valid. */
  lemma {:induction false} RunFromGrows(sha: Blocks.Sha256, codecs: Codecs, discovered: set<PeerId>,
                                        s: NodeState, inputs: seq<Input>)
    ensures var o := RunFrom(sha, codecs, discovered, s, inputs);
      && s.blocks <= o.state.blocks
      && (OnlyCommands(inputs) && ChainValid(sha, s.blocks) ==> ChainValid(sha, o.state.blocks))
    decreases |inputs|
  {
    if inputs != [] {
      var o := Step(sha, codecs, discovered, s, inputs[0]);
      StepGrows(sha, codecs, discovered, s, inputs[0]);
      if !o.panicked {
        RunFromGrows(sha, codecs, discovered, o.state, inputs[1..]);
        if OnlyCommands(inputs) {
          assert inputs[0].CommandLine?;
          assert forall i :: 0 <= i < |inputs[1..]| ==> inputs[1..][i] == inputs[i + 1];
        }
      }
    }
  }

  class Node {
    const sha: Blocks.Sha256
    const codecs: Codecs
    const chain: Blockchain
    const swarm: Swarm

    /** The chain is the node's own and is never empty, so `get_last_block().unwrap()` cannot fail. */
    ghost predicate Valid()
      reads this, chain
    {
      chain.sha == sha && chain.blocks != []
    }

    /**
     * Start-up: a fresh chain with a genesis block made at clock reading `now`,
     * then a `ChainRequest` broadcast once discovery has had its time.
     */
    constructor (sha: Blocks.Sha256, codecs: Codecs, now: nat, discovered: set<PeerId>, publishOk: bool)
      ensures Valid() && fresh(chain) && fresh(swarm)
      ensures this.sha == sha && this.codecs == codecs
      ensures chain.blocks == [Blocks.GenesisBlock(sha, now)] && ChainValid(sha, chain.blocks)
      ensures swarm.discovered == discovered
      ensures swarm.published ==
        if discovered != {} && publishOk then [codecs.message.encode(ChainRequest)] else []
    {
      this.sha := sha;
      this.codecs := codecs;
      swarm := new Swarm(discovered);
      chain := new Blockchain.New(sha, now);
      new;
      BroadcastMessage(swarm, codecs, ChainRequest, publishOk);
    }

    /**
     * The Add Block arm once the payload is known to be non-empty: make a block
     * on the tip, announce it through the peer guard, then append it. The append
     * always succeeds.
     */
    method AddBlockOnTip(now: nat, publishOk: bool) returns (newBlock: Block)
      requires Valid()
      modifies chain`blocks, swarm`published
      ensures Valid()
      ensures newBlock == BlockOnTip(sha, old(chain.blocks)[|old(chain.blocks)| - 1], now)
      ensures Extends(old(chain.blocks), newBlock)
      ensures chain.blocks == old(chain.blocks) + [newBlock]
      ensures swarm.published ==
        if swarm.discovered != {} && publishOk then old(swarm.published) + [Announcement(codecs, newBlock)]
        else old(swarm.published)
      ensures old(ChainValid(sha, chain.blocks)) ==> ChainValid(sha, chain.blocks)
    {
      var prevBlock := chain.GetLastBlock().value;
      newBlock := Blocks.NewBlock(sha, now, prevBlock.hash, prevBlock.height + 1);
      NewBlockOnTipAccepted(sha, chain.blocks, now, prevBlock.height + 1);
      var serializedBlock := codecs.block.encode(newBlock);
      BroadcastMessage(swarm, codecs, NewBlock(serializedBlock), publishOk);
      var added := chain.AddBlock(newBlock);
      assert added;
    }

    /** What the node's loop can change, read from the chain and the swarm. */
    function State(): NodeState
      reads this, chain, swarm
    {
      NodeState(chain.blocks, swarm.published)
    }

    /** One command line, proved to act as `CommandStep` says. */
    method HandleCommand(line: string, now: nat, publishOk: bool) returns (panicked: bool)
      requires Valid()
      modifies chain`blocks, swarm`published
      ensures Valid()
      ensures Outcome(State(), panicked) == CommandStep(sha, codecs, swarm.discovered, old(State()), line, now, publishOk)
      ensures old(ChainValid(sha, chain.blocks)) ==> ChainValid(sha, chain.blocks)
    {
      var command := ParseCommand(line);
      match command {
        case AddBlockCommand(data) =>
          if data != [] {
            var tip := chain.GetLastBlock().value;
            if tip.height + 1 > UsizeMax {
              return true;
            }
            var _ := AddBlockOnTip(now, publishOk);
          }
        case ListPeersCommand =>
        case ListBlockchainCommand =>
        case UnknownCommand =>
      }
      return false;
    }

    /** One turn of the loop, proved to act as `Step` says. */
    method HandleInput(input: Input) returns (panicked: bool)
      requires Valid()
      modifies chain`blocks, swarm`published
      ensures Valid()
      ensures Outcome(State(), panicked) == Step(sha, codecs, swarm.discovered, old(State()), input)
    {
      match input {
        case CommandLine(line, now, publishOk) =>
          panicked := HandleCommand(line, now, publishOk);
        case SwarmInput(event, publishOk) =>
          panicked := HandleEvent(event, swarm, codecs, chain, publishOk);
          EventStepGrows(codecs, old(State()), event, publishOk);
      }
    }

    /**
     * The event loop over a finite run of inputs, proved equal to `RunFrom`.
     * The first `stoppedAt` inputs are handled without a panic and give the
     * final state; the input at `stoppedAt`, if any, panics and changes nothing.
     * The chain is only ever extended, and a run of command lines keeps a valid
     * chain valid.
     */
    method Run(inputs: seq<Input>) returns (stoppedAt: nat)
      requires Valid()
      modifies chain`blocks, swarm`published
      ensures Valid()
      ensures stoppedAt <= |inputs|
      ensures RunFrom(sha, codecs, swarm.discovered, old(State()), inputs[..stoppedAt]) == Outcome(State(), false)
      ensures stoppedAt < |inputs| ==> Step(sha, codecs, swarm.discovered, State(), inputs[stoppedAt]) == Outcome(State(), true)
      ensures RunFrom(sha, codecs, swarm.discovered, old(State()), inputs) == Outcome(State(), stoppedAt < |inputs|)
      ensures old(chain.blocks) <= chain.blocks
      ensures OnlyCommands(inputs) && old(ChainValid(sha, chain.blocks)) ==> ChainValid(sha, chain.blocks)
    {
      ghost var start := State();
      var i := 0;
      assert inputs[..0] == [];
      while i < |inputs|
        invariant 0 <= i <= |inputs|
        invariant Valid()
        invariant RunFrom(sha, codecs, swarm.discovered, start, inputs[..i]) == Outcome(State(), false)
      {
        ghost var before := State();
        var panicked := HandleInput(inputs[i]);
        RunFromSnoc(sha, codecs, swarm.discovered, start, inputs[..i], inputs[i]);
        assert inputs[..i + 1] == inputs[..i] + [inputs[i]];
        if panicked {
          StepGrows(sha, codecs, swarm.discovered, before, inputs[i]);
          RunFromStopsAtPanic(sha, codecs, swarm.discovered, start, inputs[..i + 1], inputs[i + 1..]);
          assert inputs[..i + 1] + inputs[i + 1..] == inputs;
          RunFromGrows(sha, codecs, swarm.discovered, start, inputs);
          return i;
        }
        i := i + 1;
      }
      assert inputs[..i] == inputs;
      RunFromGrows(sha, codecs, swarm.discovered, start, inputs);
      return i;
    }
  }
}
