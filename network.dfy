/**
 * The gossip protocol between nodes (src/network.rs): the message type, the
 * guard in `broadcast_message` and the dispatch in `handle_event`.
 *
 * libp2p is seen through a `Swarm` holding what the node observes of it: the
 * peers mDNS has discovered and the payloads this node has published on the
 * topic, in order. Whether gossipsub accepts a publish is the library's
 * verdict and enters as the parameter `publishOk`.
 */
module Network {
  import opened Options
  import opened Serde
  import Blocks
  import opened Ledger

  type Block = Blocks.Block

  type PeerId = nat

  datatype NetworkMessage =
    | NewBlock(payload: string)
    | ChainRequest
    | ChainResponse(entries: seq<string>)

  /** What the swarm hands to `handle_event`: a gossip message, or any other swarm event. */
  datatype SwarmEvent =
    | GossipMessage(source: Option<PeerId>, data: seq<Byte>)
    | OtherSwarmEvent

  /** The two serde_json uses: blocks as JSON text, messages as JSON bytes. */
  datatype Codecs = Codecs(block: Codec<Block, string>, message: Codec<NetworkMessage, seq<Byte>>)

  ghost predicate CodecsLossless(codecs: Codecs) {
    Lossless(codecs.block) && Lossless(codecs.message)
  }

  class Swarm {
    var discovered: set<PeerId>
    var published: seq<seq<Byte>>

    constructor (discovered: set<PeerId>)
      ensures this.discovered == discovered && published == []
    {
      this.discovered := discovered;
      published := [];
    }

    /** `gossipsub.publish`: the payload goes out exactly when the library accepts it. */
    method Publish(data: seq<Byte>, publishOk: bool) returns (ok: bool)
      modifies this`published
      ensures ok == publishOk
      ensures published == if publishOk then old(published) + [data] else old(published)
    {
      if publishOk {
        published := published + [data];
      }
      return publishOk;
    }
  }

  /** `broadcast_message`: nothing is sent while no peer has been discovered. */
  method BroadcastMessage(swarm: Swarm, codecs: Codecs, msg: NetworkMessage, publishOk: bool)
    modifies swarm`published
    ensures swarm.published ==
      if swarm.discovered != {} && publishOk then old(swarm.published) + [codecs.message.encode(msg)]
      else old(swarm.published)
  {
    if swarm.discovered == {} {
      return;
    }
    var data := codecs.message.encode(msg);
    var _ := swarm.Publish(data, publishOk);
  }

  /** The `ChainRequest` answer's entries: `iter().map(serialize).collect()`. */
  function SerializeBlocks(c: Codec<Block, string>, bs: seq<Block>): (r: seq<string>)
    ensures |r| == |bs|
    ensures forall i :: 0 <= i < |bs| ==> r[i] == c.encode(bs[i])
  {
    if bs == [] then [] else [c.encode(bs[0])] + SerializeBlocks(c, bs[1..])
  }

  /** With a lossless codec, the entries of a `ChainResponse` determine the chain they came from. */
  lemma SerializeBlocksInjective(c: Codec<Block, string>, bs: seq<Block>, cs: seq<Block>)
    requires Lossless(c)
    requires SerializeBlocks(c, bs) == SerializeBlocks(c, cs)
    ensures bs == cs
  {
    forall i | 0 <= i < |bs| ensures bs[i] == cs[i] {
      EncodeInjective(c, bs[i], cs[i]);
    }
  }

  /** The payload published in answer to a `ChainRequest` when the chain is `bs`. */
  function ChainResponseFor(codecs: Codecs, bs: seq<Block>): seq<Byte> {
    codecs.message.encode(ChainResponse(SerializeBlocks(codecs.block, bs)))
  }

  /** What an incoming event turns out to be, after the two decoding steps of `handle_event`. */
  datatype Inbound =
    | BlockAnnounced(block: Block)
    | UndecodableBlock
    | ChainRequested
    | ChainResponded
    | UndecodableMessage
    | NotGossip

  function Classify(codecs: Codecs, event: SwarmEvent): Inbound {
    match event
    case OtherSwarmEvent => NotGossip
    case GossipMessage(_, data) =>
      match codecs.message.decode(data)
      case None => UndecodableMessage
      case Some(NewBlock(payload)) =>
        (match codecs.block.decode(payload)
         case None => UndecodableBlock
         case Some(b) => BlockAnnounced(b))
      case Some(ChainRequest) => ChainRequested
      case Some(ChainResponse(_)) => ChainResponded
  }

  /** Under lossless codecs, a gossip payload built from `msg` is classified by what `msg` is. */
  lemma ClassifyEncoded(codecs: Codecs, source: Option<PeerId>, msg: NetworkMessage)
    requires CodecsLossless(codecs)
    ensures var inbound := Classify(codecs, GossipMessage(source, codecs.message.encode(msg)));
      match msg
      case NewBlock(payload) =>
        forall b :: payload == codecs.block.encode(b) ==> inbound == BlockAnnounced(b)
      case ChainRequest => inbound == ChainRequested
      case ChainResponse(_) => inbound == ChainResponded
  {
    assert codecs.message.decode(codecs.message.encode(msg)) == Some(msg);
    if msg.NewBlock? {
      forall b | msg.payload == codecs.block.encode(b)
        ensures Classify(codecs, GossipMessage(source, codecs.message.encode(msg))) == BlockAnnounced(b)
      {
        assert codecs.block.decode(codecs.block.encode(b)) == Some(b);
      }
    }
  }

  /** What a turn of the node's loop can change: the local chain and the publish log. */
  datatype NodeState = NodeState(blocks: seq<Block>, published: seq<seq<Byte>>)

  /** The state after a turn, and whether that turn panicked. */
  datatype Outcome = Outcome(state: NodeState, panicked: bool)

  /**
   * `handle_event` on state `s`. An announced block goes through `add_block`; a
   * chain request is answered with one serialised entry per local block,
   * published directly (not through the peer guard), and a refused publish
   * panics (the `unwrap`). Everything else, a received `ChainResponse`
   * included, changes nothing.
   */
  function EventStep(codecs: Codecs, s: NodeState, event: SwarmEvent, publishOk: bool): Outcome {
    match Classify(codecs, event)
    case BlockAnnounced(b) =>
      Outcome(s.(blocks := if Extends(s.blocks, b) then s.blocks + [b] else s.blocks), false)
    case ChainRequested =>
      Outcome(s.(published := if publishOk then s.published + [ChainResponseFor(codecs, s.blocks)] else s.published),
              !publishOk)
    case _ => Outcome(s, false)
  }

  /**
   * An event never removes a block or a published payload; it panics exactly on
   * a chain request whose answer gossipsub refuses, and a panicking event
   * changes nothing.
   */
  lemma EventStepGrows(codecs: Codecs, s: NodeState, event: SwarmEvent, publishOk: bool)
    ensures var o := EventStep(codecs, s, event, publishOk);
      && s.blocks <= o.state.blocks && s.published <= o.state.published
      && (o.panicked <==> Classify(codecs, event) == ChainRequested && !publishOk)
      && (o.panicked ==> o.state == s)
  {
  }

  /** `handle_event`, proved to change the chain and the publish log as `EventStep` says. */
  method HandleEvent(event: SwarmEvent, swarm: Swarm, codecs: Codecs, chain: Blockchain, publishOk: bool)
    returns (panicked: bool)
    modifies swarm`published, chain`blocks
    ensures Outcome(NodeState(chain.blocks, swarm.published), panicked)
      == EventStep(codecs, NodeState(old(chain.blocks), old(swarm.published)), event, publishOk)
  {
    match event {
      case GossipMessage(_, data) =>
        var decoded := codecs.message.decode(data);
        if decoded.Some? {
          match decoded.value {
            case NewBlock(blockData) =>
              var block := codecs.block.decode(blockData);
              if block.None? {
                return false;
              }
              var _ := chain.AddBlock(block.value);
            case ChainRequest =>
              var serializedBlocks := SerializeBlocks(codecs.block, chain.blocks);
              var response := ChainResponse(serializedBlocks);
              var data := codecs.message.encode(response);
              var ok := swarm.Publish(data, publishOk);
              return !ok;
            case ChainResponse(_) =>
          }
        }
      case OtherSwarmEvent =>
    }
    return false;
  }
}
