/**
 The server as the source writes it: handlers that update the chain, the pool and the peer set
 in place and loop over blocks.  Each is proved to take the step that module Node describes.
 */
module Server {
  import opened Basics
  import opened Ledger
  import opened Node
  import N = Node
  import B = Blockchain
  import O = BlockObject
  import P = TxPool
  import PoolSpec

  lemma OneMore(blocks: seq<Block>, start: nat, i: nat)
    requires start <= i < |blocks|
    ensures blocks[start..i] + [blocks[i]] == blocks[start..i + 1]
  {
  }

  class Server {
    const scheme: Scheme
    const id: nat
    const links: seq<nat>
    const key: nat
    const chain: B.Blockchain
    const mempool: P.TxPool<Tx>
    var peers: map<nat, nat>
    var halted: bool

    ghost var log: Log

    ghost function Parts(): set<object>
      reads mempool.all.txns, mempool.pending.txns
    {
      ChainParts() + mempool.Footprint()
    }

    ghost function ChainParts(): set<object> {
      {this, chain, chain.headers, chain.contractState}
    }

    ghost predicate Valid()
      reads Parts()
    {
      && chain.Valid() && mempool.Valid()
      && chain.scheme == scheme && mempool.hash == TxHasher(scheme)
      && ChainParts() !! mempool.Footprint()
    }

    ghost function Now(): Node
      requires Valid()
      reads Parts()
    {
      Node(chain.Plain(), mempool.View(), peers, halted, log)
    }

    constructor (scheme: Scheme, id: nat, links: seq<nat>, key: nat)
      ensures Valid() && fresh(Parts())
      ensures this.scheme == scheme && this.id == id && this.links == links && this.key == key
      ensures Now() == NEW_NODE
    {
      hide B.Stored, B.Inverse, B.TxsIndexed;
      this.scheme, this.id, this.links, this.key := scheme, id, links, key;
      chain := new B.Blockchain(scheme, GENESIS);
      mempool := new P.TxPool(TxHasher(scheme), POOL_MAX);
      peers, halted := map[], false;
      log := Log([], [], [], false);
    }

    /** AddBlock on the server's chain; a panic halts the server. */
    method AddToChain(b: Block, origin: Origin) returns (st: AddStatus)
      requires Valid()
      modifies ChainParts()
      ensures Valid() && mempool.Footprint() == old(mempool.Footprint())
      ensures var r := AddBlock(scheme, old(Now()).chain, b, origin);
              st == r.status && Now() == After(old(Now()), r)
    {
      hide B.Stored, B.Inverse, B.TxsIndexed, AddBlock;
      st := chain.AddBlock(b, origin);
      if st == Crashed {
        halted := true;
      }
      log := log.(leaked := log.leaked || Leaked(st));
    }

    method LogAnnounced(b: Block)
      requires Valid()
      modifies `log
      ensures Valid() && Reaction(Now(), Broadcast(BlockMsg(b))) == Announce(old(Now()), b)
    {
      hide B.Stored, B.Inverse, B.TxsIndexed, AddBlock;
      log := log.(announced := log.announced + [b.header.height]);
    }

    method HandleTransaction(tx: Tx) returns (e: Effect)
      requires Valid()
      modifies Parts()
      ensures Valid() && fresh(Parts() - old(Parts()))
      ensures Reaction(Now(), e) == HandleTx(scheme, old(Now()), tx)
    {
      hide B.Stored, B.Inverse, B.TxsIndexed, PoolSpec.Add;
      if !TxVerifies(scheme, tx) {
        return Silent;
      }
      var answer := mempool.Add(tx);
      if answer != PoolSpec.Accepted {
        return Silent;
      }
      log := log.(accepted := log.accepted + [tx]);
      return Broadcast(TxMsg(tx));
    }

    method HandleBlock(b: Block) returns (e: Effect)
      requires Valid()
      modifies ChainParts()
      ensures Valid() && mempool.Footprint() == old(mempool.Footprint())
      ensures Reaction(Now(), e) == N.HandleBlock(scheme, id, old(Now()), b)
    {
      hide B.Stored, B.Inverse, B.TxsIndexed, AddBlock;
      RejectedChangesNothing(scheme, Now().chain, b, Wire);
      var st := AddToChain(b, Wire);
      if st == Added {
        LogAnnounced(b);
        e := Broadcast(BlockMsg(b));
      } else if st.Rejected? && st.verdict.OutOfSync? {
        e := RequestBlocks();
      } else {
        e := Silent;
      }
    }

    method RequestBlocks() returns (e: Effect)
      requires Valid()
      ensures e == Broadcast(GetBlocks(id, ToUInt32(Height(chain.blocks) + 1)))
    {
      var height: int := chain.headers.Height();
      return Broadcast(GetBlocks(id, ToUInt32(height + 1)));
    }

    method HandleGetBlocksRequest(requestor: nat, start: UInt32) returns (e: Effect)
      requires Valid()
      modifies this`halted
      ensures Valid()
      ensures Reaction(Now(), e) == HandleGetBlocks(old(Now()), requestor, start)
    {
      hide B.Stored, B.Inverse, B.TxsIndexed, Collect;
      if requestor !in peers {
        return Silent;
      }
      if chain.headers.Height() == TWO_32 - 1 {
        halted := true;
        return Silent;
      }
      var blocksToSend := CollectBlocks(start);
      return Send(peers[requestor], Blocks(blocksToSend));
    }

    /** The loop runs on a 32-bit counter; at the greatest height it would never end. */
    method CollectBlocks(start: UInt32) returns (bs: seq<Block>)
      requires Valid() && Height(chain.blocks) < TWO_32 - 1
      ensures bs == Collect(chain.blocks, start)
    {
      hide B.Stored, B.Inverse, B.TxsIndexed, BlockVerifies, TxsOf, PoolSpec.Empty, TxHasher;
      var height: int := chain.headers.Height();
      assert height == Height(chain.blocks) < |chain.blocks|;
      bs := [];
      var i := start;
      while i <= height
        invariant start <= i
        invariant start <= height ==> i <= height + 1 && bs == chain.blocks[start..i]
        invariant start > height ==> i == start && bs == []
        decreases height + 1 - i
      {
        var b := chain.GetBlockAt(i);
        OneMore(chain.blocks, start, i);
        bs := bs + [b.value];
        i := ToUInt32(i + 1);
      }
    }

    method HandleGetBlocksResponse(bs: seq<Block>) returns (e: Effect)
      requires Valid()
      modifies ChainParts()
      ensures Valid() && mempool.Footprint() == old(mempool.Footprint())
      ensures e == Silent && Now() == After(old(Now()), ApplyBlocks(scheme, old(Now()).chain, bs))
    {
      hide B.Stored, B.Inverse, B.TxsIndexed, AddBlock;
      e := Silent;
      for i := 0 to |bs|
        invariant Valid() && mempool.Footprint() == old(mempool.Footprint())
        invariant Now() == old(Now()).(chain := Now().chain)
        invariant ApplyBlocks(scheme, old(Now()).chain, bs) == ApplyBlocks(scheme, Now().chain, bs[i..])
      {
        assert bs[i..][1..] == bs[i + 1..];
        if bs[i].header.height > chain.headers.Height() {
          var st := AddToChain(bs[i], Wire);
          if st != Added {
            return;
          }
        }
      }
      assert bs[|bs|..] == [];
    }

    method HandleSubscribeRequest(requestor: nat, handle: nat) returns (e: Effect)
      modifies this`peers
      ensures peers == if handle in links then old(peers)[requestor := handle] else old(peers)
      ensures e == if handle in links then Send(handle, SubscribeResponse(id)) else Silent
    {
      if handle !in links {
        return Silent;
      }
      peers := peers[requestor := handle];
      return Send(handle, SubscribeResponse(id));
    }

    method HandleSubscribeResponse(provider: nat) returns (e: Effect)
      modifies this`peers
      ensures e == Silent && peers == if provider in links then old(peers)[provider := provider] else old(peers)
    {
      if provider in links {
        peers := peers[provider := provider];
      }
      return Silent;
    }

    /** Asks `leader` for its blocks; a missing connection is a nil pipe. */
    method Subscribe(leader: nat) returns (e: Effect)
      requires Valid()
      modifies this`halted
      ensures Valid() && Reaction(Now(), e) == N.SubscribeTo(id, links, old(Now()), leader)
    {
      hide B.Stored, B.Inverse, B.TxsIndexed;
      if leader !in links {
        halted := true;
        return Silent;
      }
      return Send(leader, SubscribeRequest(id, id));
    }

    method ProcessMessage(msg: Msg) returns (e: Effect)
      requires Valid()
      modifies Parts()
      ensures Valid() && fresh(Parts() - old(Parts()))
      ensures Reaction(Now(), e) == Handle(scheme, id, links, old(Now()), msg)
    {
      hide B.Stored, B.Inverse, B.TxsIndexed, AddBlock, ApplyBlocks, N.HandleBlock, HandleTx, HandleGetBlocks;
      match msg {
        case TxMsg(tx) => e := HandleTransaction(tx);
        case BlockMsg(b) => e := HandleBlock(b);
        case GetBlocks(requestor, start) => e := HandleGetBlocksRequest(requestor, start);
        case Blocks(bs) => e := HandleGetBlocksResponse(bs);
        case StatusRequest(_) =>
          var height := chain.headers.Height();
          e := Broadcast(StatusResponse(height));
        case StatusResponse(_) => e := Silent;
        case SubscribeRequest(requestor, handle) => e := HandleSubscribeRequest(requestor, handle);
        case SubscribeResponse(provider) => e := HandleSubscribeResponse(provider);
      }
    }

    /** The next block, with everything pending in it, signed. */
    method DraftBlock(timestamp: nat, nonce: nat) returns (b: Block)
      requires Valid()
      ensures b == Draft(scheme, Now(), key, timestamp, nonce)
    {
      hide B.Stored, B.Inverse, B.TxsIndexed, NewBlock, Sign;
      var tip := chain.headers.GetAt(chain.headers.Height());
      var txns := mempool.Pending();
      var block := new O.BlockObject.FromPrevHeader(scheme, tip.value, txns.buf[..txns.len], timestamp);
      block.Sign(key, nonce);
      b := Block(block.header, block.txs, block.validator, block.sig);
    }

    method ClearIntoBlock(b: Block)
      requires Valid()
      modifies Parts()
      ensures Valid() && fresh(Parts() - old(Parts()))
      ensures Now() == old(Now()).(pool := PoolSpec.ClearPending(old(Now()).pool),
                                   log := old(Now()).log.(made := old(Now()).log.made + [b]))
    {
      hide B.Stored, B.Inverse, B.TxsIndexed;
      log := log.(made := log.made + [b]);
      mempool.ClearPending();
    }

    method CreateNewBlock(timestamp: nat, nonce: nat) returns (e: Effect)
      requires Valid()
      modifies Parts()
      ensures Valid() && fresh(Parts() - old(Parts()))
      ensures Reaction(Now(), e) == Create(scheme, old(Now()), key, timestamp, nonce)
    {
      hide B.Stored, B.Inverse, B.TxsIndexed, AddBlock, Draft, PoolSpec.ClearPending;
      var block := DraftBlock(timestamp, nonce);
      var st := AddToChain(block, Local);
      if st != Added {
        return Silent;
      }
      ClearIntoBlock(block);
      LogAnnounced(block);
      return Broadcast(BlockMsg(block));
    }
  }
}
