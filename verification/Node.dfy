/**
 One server: how it reacts to each message and how it creates a block.

 A reaction is one atomic step.  It yields the new server and at most one outgoing message,
 broadcast to all connections or sent to one of them.  A server that panics, or falls into a loop
 without end, is halted.
 */
module Node {
  import opened Basics
  import opened Ledger
  import PoolSpec
  import VmSpec

  /** Decoded messages; servers are named by number. */
  datatype Msg =
    | TxMsg(tx: Tx)
    | BlockMsg(block: Block)
    | GetBlocks(requestor: nat, start: UInt32)
    | Blocks(blocks: seq<Block>)
    | StatusRequest(requestor: nat)
    | StatusResponse(height: UInt32)
    | SubscribeRequest(requestor: nat, handle: nat)
    | SubscribeResponse(provider: nat)

  /** What a server has done so far; no handler looks at it. */
  datatype Log = Log(
    accepted: seq<Tx>,      // transactions the pool accepted
    made: seq<Block>,       // blocks this server created
    announced: seq<UInt32>, // heights of the blocks it broadcast
    leaked: bool)           // some AddBlock failed after running transactions

  /** `peers` maps the name a subscriber gave to the connection that answers to it go to. */
  datatype Node = Node(chain: Chain, pool: PoolSpec.Pool<Tx>, peers: map<nat, nat>, halted: bool, log: Log)

  datatype Effect = Silent | Broadcast(msg: Msg) | Send(to: nat, msg: Msg)

  datatype Reaction = Reaction(node: Node, effect: Effect)

  const POOL_MAX: nat := 1000

  const NEW_NODE: Node := Node(FRESH, PoolSpec.Empty(POOL_MAX), map[], false, Log([], [], [], false))

  function TxHasher(s: Scheme): Tx -> Hash {
    t => TxHash(s, t)
  }

  function HandleTx(s: Scheme, n: Node, tx: Tx): Reaction {
    if !TxVerifies(s, tx) then Reaction(n, Silent) else
    var (pool, answer) := PoolSpec.Add(TxHasher(s), n.pool, tx);
    if answer != PoolSpec.Accepted then Reaction(n.(pool := pool), Silent) else
    Reaction(n.(pool := pool, log := n.log.(accepted := n.log.accepted + [tx])), Broadcast(TxMsg(tx)))
  }

  /** The server after a call of AddBlock. */
  function After(n: Node, r: AddResult): Node {
    n.(chain := r.chain, halted := n.halted || r.status == Crashed,
       log := n.log.(leaked := n.log.leaked || Leaked(r.status)))
  }

  function Announce(n: Node, b: Block): Reaction {
    Reaction(n.(log := n.log.(announced := n.log.announced + [b.header.height])), Broadcast(BlockMsg(b)))
  }

  /** A new block is passed on; a block too far ahead makes the server ask for what it lacks. */
  function HandleBlock(s: Scheme, self: nat, n: Node, b: Block): Reaction {
    var r := AddBlock(s, n.chain, b, Wire);
    var n' := After(n, r);
    match r.status
    case Added => Announce(n', b)
    case Rejected(v) =>
      if v.OutOfSync? then Reaction(n', Broadcast(GetBlocks(self, ToUInt32(Height(n.chain.blocks) + 1))))
      else Reaction(n', Silent)
    case _ => Reaction(n', Silent)
  }

  /** The blocks from `start` up to the height. */
  function Collect(blocks: seq<Block>, start: UInt32): seq<Block> {
    if start <= Height(blocks) < |blocks| then blocks[start..Height(blocks) + 1] else []
  }

  /** At the greatest height the collecting loop's counter wraps around and never passes it. */
  function HandleGetBlocks(n: Node, requestor: nat, start: UInt32): Reaction {
    if requestor !in n.peers then Reaction(n, Silent)
    else if Height(n.chain.blocks) == TWO_32 - 1 then Reaction(n.(halted := true), Silent)
    else Reaction(n, Send(n.peers[requestor], Blocks(Collect(n.chain.blocks, start))))
  }

  /** Adds the blocks at heights not present, stopping at the first that is refused. */
  function ApplyBlocks(s: Scheme, c: Chain, bs: seq<Block>): AddResult
    decreases |bs|
  {
    if bs == [] then AddResult(Added, c)
    else if HasBlockAt(c.blocks, bs[0].header.height) then ApplyBlocks(s, c, bs[1..])
    else
      var r := AddBlock(s, c, bs[0], Wire);
      if r.status != Added then r else ApplyBlocks(s, r.chain, bs[1..])
  }

  /** ProcessMessage; `links` are the connections of the server's transport. */
  function Handle(s: Scheme, self: nat, links: seq<nat>, n: Node, msg: Msg): Reaction {
    match msg
    case TxMsg(tx) => HandleTx(s, n, tx)
    case BlockMsg(b) => HandleBlock(s, self, n, b)
    case GetBlocks(requestor, start) => HandleGetBlocks(n, requestor, start)
    case Blocks(bs) => Reaction(After(n, ApplyBlocks(s, n.chain, bs)), Silent)
    case StatusRequest(_) => Reaction(n, Broadcast(StatusResponse(Height(n.chain.blocks))))
    case StatusResponse(_) => Reaction(n, Silent)
    case SubscribeRequest(requestor, handle) =>
      if handle !in links then Reaction(n, Silent)
      else Reaction(n.(peers := n.peers[requestor := handle]), Send(handle, SubscribeResponse(self)))
    case SubscribeResponse(provider) =>
      Reaction(if provider in links then n.(peers := n.peers[provider := provider]) else n, Silent)
  }

  /** Subscribe: without a connection to `leader` its missing pipe is dereferenced, which panics. */
  function SubscribeTo(self: nat, links: seq<nat>, n: Node, leader: nat): Reaction {
    if leader in links then Reaction(n, Send(leader, SubscribeRequest(self, self)))
    else Reaction(n.(halted := true), Silent)
  }

  /** The block a server would create now. */
  function Draft(s: Scheme, n: Node, key: nat, timestamp: nat, nonce: nat): Block
    requires n.chain.blocks != []
  {
    var blocks := n.chain.blocks;
    var tip := if Height(blocks) < |blocks| then Height(blocks) else 0;
    Sign(s, NewBlock(s, blocks[tip].header, n.pool.pending.list, timestamp), key, nonce)
  }

  /** createNewBlock: all pending transactions go into one block, and are cleared only if it is added. */
  function Create(s: Scheme, n: Node, key: nat, timestamp: nat, nonce: nat): Reaction
    requires n.chain.blocks != []
  {
    var b := Draft(s, n, key, timestamp, nonce);
    var r := AddBlock(s, n.chain, b, Local);
    var n' := After(n, r);
    if r.status != Added then Reaction(n', Silent) else
    Announce(n'.(pool := PoolSpec.ClearPending(n.pool), log := n'.log.(made := n.log.made + [b])), b)
  }

  // ---- What every server keeps, whatever messages it receives ----

  ghost predicate UniqueHashes(s: Scheme, blocks: seq<Block>) {
    forall i, j :: 0 <= i < j < |blocks| ==> HeaderHash(s, blocks[i].header) != HeaderHash(s, blocks[j].header)
  }

  ghost predicate ChainKept(s: Scheme, c: Chain, leaked: bool) {
    && Linked(s, c.blocks)
    && UniqueHashes(s, c.blocks)
    && c.blocks[0] == GENESIS
    && (!leaked ==> InStep(c))
  }

  ghost predicate PoolKept(s: Scheme, pool: PoolSpec.Pool<Tx>, made: seq<Block>, accepted: seq<Tx>) {
    && |pool.pending.list| <= pool.max == POOL_MAX
    && PoolSpec.WellIndexed(TxHasher(s), pool.pending)
    && (forall i :: 0 <= i < |pool.pending.list| ==> TxVerifies(s, pool.pending.list[i]))
    && TxsOf(made) + pool.pending.list == accepted
    && (forall i :: 0 <= i < |accepted| ==> TxVerifies(s, accepted[i]))
  }

  /** Increasing heights, all below that of the next block. */
  ghost predicate AnnouncedOnce(announced: seq<UInt32>, next: nat) {
    && (forall i, j :: 0 <= i < j < |announced| ==> announced[i] < announced[j])
    && (forall i :: 0 <= i < |announced| ==> announced[i] < next)
  }

  ghost predicate Kept(s: Scheme, n: Node) {
    && ChainKept(s, n.chain, n.log.leaked)
    && PoolKept(s, n.pool, n.log.made, n.log.accepted)
    && AnnouncedOnce(n.log.announced, |n.chain.blocks|)
  }

  lemma ChainNotEmpty(s: Scheme, n: Node)
    requires Kept(s, n)
    ensures n.chain.blocks != []
  {
  }

  lemma NewNodeKept(s: Scheme)
    ensures Kept(s, NEW_NODE)
  {
  }

  /** One AddBlock keeps the chain part, and only ever appends. */
  lemma AddKeepsChain(s: Scheme, c: Chain, leaked: bool, b: Block, origin: Origin)
    requires ChainKept(s, c, leaked)
    ensures var r := AddBlock(s, c, b, origin);
            && ChainKept(s, r.chain, leaked || Leaked(r.status))
            && c.blocks <= r.chain.blocks
            && (r.status == Added ==> r.chain.blocks == c.blocks + [b] && b.header.height == |c.blocks|)
            && (r.status != Added ==> r.chain.blocks == c.blocks)
  {
    AddKeepsLinked(s, c, b, origin);
    LeakedExactly(s, c, b, origin);
    if InStep(c) {
      AddKeepsInStep(s, c, b, origin);
    }
  }

  /** So does a whole response. */
  lemma {:induction false} ApplyKeepsChain(s: Scheme, c: Chain, leaked: bool, bs: seq<Block>)
    requires ChainKept(s, c, leaked)
    ensures var r := ApplyBlocks(s, c, bs);
            ChainKept(s, r.chain, leaked || Leaked(r.status)) && c.blocks <= r.chain.blocks
    decreases |bs|
  {
    hide ChainKept, AddBlock;
    if bs != [] {
      if HasBlockAt(c.blocks, bs[0].header.height) {
        ApplyKeepsChain(s, c, leaked, bs[1..]);
      } else {
        AddKeepsChain(s, c, leaked, bs[0], Wire);
        var r := AddBlock(s, c, bs[0], Wire);
        if r.status == Added {
          ApplyKeepsChain(s, r.chain, leaked, bs[1..]);
        }
      }
    }
  }

  lemma AnnounceOnce(announced: seq<UInt32>, next: UInt32)
    requires AnnouncedOnce(announced, next)
    ensures AnnouncedOnce(announced + [next], next + 1)
  {
  }

  lemma TxKept(s: Scheme, n: Node, tx: Tx)
    requires Kept(s, n)
    ensures Kept(s, HandleTx(s, n, tx).node)
    ensures HandleTx(s, n, tx).node.chain == n.chain
  {
    hide ChainKept;
    var hash := TxHasher(s);
    var (pool, answer) := PoolSpec.Add(hash, n.pool, tx);
    if TxVerifies(s, tx) && answer == PoolSpec.Accepted {
      PoolSpec.InsertKeepsIndex(hash, n.pool.pending, tx);
      assert TxsOf(n.log.made) + (n.pool.pending.list + [tx]) == n.log.accepted + [tx];
    }
  }

  lemma BlockKept(s: Scheme, self: nat, n: Node, b: Block)
    requires Kept(s, n)
    ensures Kept(s, HandleBlock(s, self, n, b).node)
    ensures n.chain.blocks <= HandleBlock(s, self, n, b).node.chain.blocks
  {
    hide ChainKept, AddBlock, PoolKept;
    AddKeepsChain(s, n.chain, n.log.leaked, b, Wire);
    if AddBlock(s, n.chain, b, Wire).status == Added {
      AnnounceOnce(n.log.announced, b.header.height);
    }
  }

  /** Every reaction to every message keeps everything, and never shortens or rewrites the chain. */
  lemma HandleKept(s: Scheme, self: nat, links: seq<nat>, n: Node, msg: Msg)
    requires Kept(s, n)
    ensures Kept(s, Handle(s, self, links, n, msg).node)
    ensures n.chain.blocks <= Handle(s, self, links, n, msg).node.chain.blocks
  {
    hide ChainKept, PoolKept, HandleTx, HandleBlock, ApplyBlocks;
    match msg
    case TxMsg(tx) => TxKept(s, n, tx);
    case BlockMsg(b) => BlockKept(s, self, n, b);
    case Blocks(bs) => ApplyKeepsChain(s, n.chain, n.log.leaked, bs);
    case _ =>
  }

  lemma SubscribeKept(s: Scheme, self: nat, links: seq<nat>, n: Node, leader: nat)
    requires Kept(s, n)
    ensures var n' := SubscribeTo(self, links, n, leader).node; Kept(s, n') && n'.chain == n.chain
  {
    hide ChainKept, PoolKept;
  }

  /** So does creating a block. */
  lemma CreateKept(s: Scheme, n: Node, key: nat, timestamp: nat, nonce: nat)
    requires Kept(s, n)
    ensures Kept(s, Create(s, n, key, timestamp, nonce).node)
    ensures n.chain.blocks <= Create(s, n, key, timestamp, nonce).node.chain.blocks
  {
    hide ChainKept, AddBlock, PoolKept, NewBlock, Sign;
    ChainNotEmpty(s, n);
    DraftTxs(s, n, key, timestamp, nonce);
    var b := Draft(s, n, key, timestamp, nonce);
    AddKeepsChain(s, n.chain, n.log.leaked, b, Local);
    MadeKeepsPool(s, n.pool, n.log.made, n.log.accepted, b);
    if AddBlock(s, n.chain, b, Local).status == Added {
      AnnounceOnce(n.log.announced, b.header.height);
    }
  }

  lemma DraftTxs(s: Scheme, n: Node, key: nat, timestamp: nat, nonce: nat)
    requires n.chain.blocks != []
    ensures Draft(s, n, key, timestamp, nonce).txs == n.pool.pending.list
  {
  }

  /** The pending transactions move into the block. */
  lemma MadeKeepsPool(s: Scheme, pool: PoolSpec.Pool<Tx>, made: seq<Block>, accepted: seq<Tx>, b: Block)
    requires PoolKept(s, pool, made, accepted) && b.txs == pool.pending.list
    ensures PoolKept(s, PoolSpec.ClearPending(pool), made + [b], accepted)
  {
    assert (made + [b])[..|made|] == made;
    assert TxsOf(made + [b]) + [] == accepted;
  }

  /**
   Exactly when a created block passes validation on its creator's chain: below the greatest
   height.  There the height of the draft wraps around to 0.
   */
  lemma DraftValid(s: Scheme, n: Node, key: nat, timestamp: nat, nonce: nat)
    requires Kept(s, n) && SignaturesVerify(s)
    ensures Validate(s, n.chain.blocks, Draft(s, n, key, timestamp, nonce)) == Accept
            <==> Height(n.chain.blocks) < TWO_32 - 1
  {
    hide InStep, UniqueHashes, PoolSpec.WellIndexed, TxsOf, AnnouncedOnce;
    var b := Draft(s, n, key, timestamp, nonce);
    var blocks := n.chain.blocks;
    ValidateLinked(s, blocks, b);
    SignedBlockVerifies(s, blocks[|blocks| - 1].header, n.pool.pending.list, key, timestamp, nonce);
    assert |blocks| == TWO_32 ==> b.header.height == 0;
  }

  /** The data hash is set before signing, so writing it again afterwards changes nothing. */
  lemma SignedBlockVerifies(s: Scheme, prev: Header, txs: seq<Tx>, key: nat, timestamp: nat, nonce: nat)
    requires SignaturesVerify(s) && forall i :: 0 <= i < |txs| ==> TxVerifies(s, txs[i])
    ensures var b := NewBlock(s, prev, txs, timestamp);
            BlockVerifies(s, Sign(s, b, key, nonce)) && Sign(s, b, key, nonce).header == b.header
  {
    var b := NewBlock(s, prev, txs, timestamp);
    assert s.verify(s.publicKey(key), s.headerBytes(b.header), s.sign(key, s.headerBytes(b.header), nonce));
  }

  // ---- Exactly what each kind of input does ----

  /**
   A transaction is taken in, and passed on, exactly if it is properly signed, fewer than 1000 are pending, and none
   of these has the digest of its data.  Nothing else changes.
   */
  lemma TxTakenExactly(s: Scheme, n: Node, tx: Tx)
    requires Kept(s, n)
    ensures var r, pending := HandleTx(s, n, tx), n.pool.pending.list;
            var take := tx.sig.Some? && s.verify(tx.from, tx.data, tx.sig.value) && |pending| < 1000
                        && forall i :: 0 <= i < |pending| ==> s.digest(pending[i].data) != s.digest(tx.data);
            var more := if take then [tx] else [];
            && r.node.pool.pending.list == pending + more
            && r.node == n.(pool := r.node.pool, log := n.log.(accepted := n.log.accepted + more))
            && r.effect == if take then Broadcast(TxMsg(tx)) else Silent
  {
    hide ChainKept, AnnouncedOnce, PoolSpec.Pruned;
    var hash, pending := TxHasher(s), n.pool.pending;
    PoolSpec.KnownExactly(hash, pending, tx);
    assert forall i :: 0 <= i < |pending.list| ==> hash(pending.list[i]) == s.digest(pending.list[i].data);
    assert n.log.accepted + [] == n.log.accepted;
  }

  /** The block continues the chain: next height, the tip's hash, and it verifies. */
  predicate Continues(s: Scheme, blocks: seq<Block>, b: Block)
    requires blocks != []
  {
    && b.header.height == |blocks|
    && b.header.prevHash == HeaderHash(s, blocks[|blocks| - 1].header)
    && BlockVerifies(s, b)
  }

  /**
   A block is appended, and passed on, exactly if it continues the chain, its transactions run and its hash is new.
   A block from further ahead triggers a request from the next height on, and nothing else does.  A
   server halts on a continuing block whose transactions fail, and on no other.  The pool and the peers stay.
   */
  lemma BlockTakenExactly(s: Scheme, self: nat, n: Node, b: Block)
    requires Kept(s, n)
    ensures n.chain.blocks != []
    ensures var r, blocks := HandleBlock(s, self, n, b), n.chain.blocks;
            var e, next := RunTxs(b.txs, n.chain.contract), Continues(s, blocks, b);
            var take := next && e.status == VmSpec.Ok && !HashTaken(s, blocks, b.header);
            && r.node.chain.blocks == blocks + (if take then [b] else [])
            && r.node.chain.contract == (if next then e.contract else n.chain.contract)
            && r.effect == (if take then Broadcast(BlockMsg(b))
                            else if b.header.height > |blocks| then Broadcast(GetBlocks(self, ToUInt32(|blocks|)))
                            else Silent)
            && r.node.halted == (n.halted || (next && e.status != VmSpec.Ok))
            && r.node.pool == n.pool && r.node.peers == n.peers
  {
    hide PoolKept, AnnouncedOnce, UniqueHashes, InStep, Validate, RunTxs, HashTaken, BlockVerifies;
    ValidateLinked(s, n.chain.blocks, b);
  }

  /**
   The block a server would create: on top of its tip, with all its pending transactions in order, signed with its key
   over a header that already has the digest of their encodings.
   */
  lemma DraftIs(s: Scheme, n: Node, key: nat, timestamp: nat, nonce: nat)
    requires Kept(s, n)
    ensures n.chain.blocks != []
    ensures var b, blocks := Draft(s, n, key, timestamp, nonce), n.chain.blocks;
            && b.txs == n.pool.pending.list
            && b.header.version == 1 && b.header.timestamp == timestamp
            && b.header.height == |blocks| % 4294967296
            && b.header.prevHash == s.digest(s.headerBytes(blocks[|blocks| - 1].header))
            && b.header.dataHash == s.digest(EncodeTxs(s, n.pool.pending.list))
            && b.validator == s.publicKey(key)
            && b.sig == Some(s.sign(key, s.headerBytes(b.header), nonce))
  {
    hide PoolKept, AnnouncedOnce, UniqueHashes, InStep, EncodeTxs;
    var blocks := n.chain.blocks;
    assert Height(blocks) == |blocks| - 1;
  }

  /**
   A server creates a block exactly if it is below the greatest height, the transactions run and the hash is new.  Only
   then are the pending transactions cleared; the history stays.  It halts exactly if the transactions panic: an error
   is reported, since a created block's transactions have their hasher.
   */
  lemma CreatedExactly(s: Scheme, n: Node, key: nat, timestamp: nat, nonce: nat)
    requires Kept(s, n) && SignaturesVerify(s)
    ensures n.chain.blocks != []
    ensures var r, b := Create(s, n, key, timestamp, nonce), Draft(s, n, key, timestamp, nonce);
            var blocks, pool := n.chain.blocks, n.pool;
            var e, next := RunTxs(pool.pending.list, n.chain.contract), |blocks| < 4294967296;
            var take := next && e.status == VmSpec.Ok && !HashTaken(s, blocks, b.header);
            && b.txs == pool.pending.list
            && r.node.chain.blocks == blocks + (if take then [b] else [])
            && r.node.chain.contract == (if next then e.contract else n.chain.contract)
            && r.node.pool == (if take then pool.(pending := PoolSpec.Ordered([], map[])) else pool)
            && r.effect == (if take then Broadcast(BlockMsg(b)) else Silent)
            && r.node.halted == (n.halted || (next && e.status == VmSpec.Panic))
            && r.node.peers == n.peers
            && r.node.log.made == n.log.made + (if take then [b] else [])
  {
    hide PoolKept, AnnouncedOnce, ChainKept, Validate, RunTxs, HashTaken, NewBlock, Sign;
    ChainNotEmpty(s, n);
    DraftTxs(s, n, key, timestamp, nonce);
    DraftValid(s, n, key, timestamp, nonce);
    HeightBelow(s, n);
    NeverUnchecked(s, n.chain.blocks, Draft(s, n, key, timestamp, nonce));
  }

  lemma HeightBelow(s: Scheme, n: Node)
    requires Kept(s, n)
    ensures Height(n.chain.blocks) < TWO_32 - 1 <==> |n.chain.blocks| < 4294967296
  {
    hide PoolKept, AnnouncedOnce, UniqueHashes, InStep;
  }

  /**
   A request for blocks is answered exactly if the requestor is a peer and there is room for another block.  The answer
   goes where that peer is reached and carries the blocks from the start on.  A peer's request halts a server with no
   room left, and no request does anything else.
   */
  lemma GetBlocksExactly(s: Scheme, self: nat, links: seq<nat>, n: Node, requestor: nat, start: UInt32)
    requires Kept(s, n)
    ensures var r, blocks := Handle(s, self, links, n, GetBlocks(requestor, start)), n.chain.blocks;
            var known, full := requestor in n.peers, |blocks| == 4294967296;
            && r.effect == (if known && !full then
                              Send(n.peers[requestor], Blocks(if start < |blocks| then blocks[start..] else []))
                            else Silent)
            && r.node == n.(halted := n.halted || (known && full))
  {
    hide PoolKept, AnnouncedOnce, UniqueHashes, InStep;
    var blocks := n.chain.blocks;
    assert Height(blocks) == |blocks| - 1;
    if start < |blocks| {
      assert blocks[start..|blocks|] == blocks[start..];
    }
  }

  /** A response changes the chain only, and is not answered; it halts the server exactly if an AddBlock panics. */
  lemma ResponseExactly(s: Scheme, self: nat, links: seq<nat>, n: Node, bs: seq<Block>)
    ensures var r, a := Handle(s, self, links, n, Blocks(bs)), ApplyBlocks(s, n.chain, bs);
            && r.node.chain == a.chain && r.node.halted == (n.halted || a.status == Crashed)
            && r.node.pool == n.pool && r.node.peers == n.peers && r.effect == Silent
  {
    hide ApplyBlocks;
  }

  /** One block of a response: nothing if its height is present, and AddBlock otherwise. */
  lemma OneApplied(s: Scheme, c: Chain, b: Block)
    requires Linked(s, c.blocks)
    ensures ApplyBlocks(s, c, []) == AddResult(Added, c)
    ensures ApplyBlocks(s, c, [b])
         == if b.header.height < |c.blocks| then AddResult(Added, c) else AddBlock(s, c, b, Wire)
  {
    hide AddBlock;
    assert [b][1..] == [];
  }

  /** Blocks are applied in turn; after a refusal none is. */
  lemma {:induction false} AppliedInTurn(s: Scheme, c: Chain, xs: seq<Block>, ys: seq<Block>)
    ensures ApplyBlocks(s, c, xs + ys)
         == var r := ApplyBlocks(s, c, xs); if r.status == Added then ApplyBlocks(s, r.chain, ys) else r
    decreases |xs|
  {
    hide AddBlock, HasBlockAt;
    if xs == [] {
      assert xs + ys == ys;
    } else {
      assert (xs + ys)[0] == xs[0] && (xs + ys)[1..] == xs[1..] + ys;
      if HasBlockAt(c.blocks, xs[0].header.height) {
        AppliedInTurn(s, c, xs[1..], ys);
      } else {
        AppliedInTurn(s, AddBlock(s, c, xs[0], Wire).chain, xs[1..], ys);
      }
    }
  }

  /** Transactions and blocks go to their handlers; a status request is answered to everyone with the height. */
  lemma OthersExactly(s: Scheme, self: nat, links: seq<nat>, n: Node, tx: Tx, b: Block, requestor: nat, h: UInt32)
    requires Kept(s, n)
    ensures 1 <= |n.chain.blocks| <= 4294967296
    ensures Handle(s, self, links, n, TxMsg(tx)) == HandleTx(s, n, tx)
    ensures Handle(s, self, links, n, BlockMsg(b)) == HandleBlock(s, self, n, b)
    ensures Handle(s, self, links, n, StatusRequest(requestor))
         == Reaction(n, Broadcast(StatusResponse(|n.chain.blocks| - 1)))
    ensures Handle(s, self, links, n, StatusResponse(h)) == Reaction(n, Silent)
  {
    hide PoolKept, AnnouncedOnce, UniqueHashes, InStep, HandleTx, HandleBlock;
  }

  /**
   Subscriptions: a request names a requestor and a handle.  If there is a connection to the handle, it is where the
   requestor is reached from then on, and the confirmation goes there.
   */
  lemma SubscriptionsExactly(s: Scheme, self: nat, links: seq<nat>, n: Node, who: nat, handle: nat)
    ensures Handle(s, self, links, n, SubscribeRequest(who, handle))
         == if handle in links then Reaction(n.(peers := n.peers[who := handle]), Send(handle, SubscribeResponse(self)))
            else Reaction(n, Silent)
    ensures Handle(s, self, links, n, SubscribeResponse(who))
         == Reaction(if who in links then n.(peers := n.peers[who := who]) else n, Silent)
    ensures SubscribeTo(self, links, n, who)
         == if who in links then Reaction(n, Send(who, SubscribeRequest(self, self)))
            else Reaction(n.(halted := true), Silent)
  {
  }
}
