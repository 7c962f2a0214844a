/**
 Runs in which exactly one server, `c`, creates blocks: every server then holds a prefix of
 the creator's chain, and a server that asks for what it lacks catches up.
 */
module SingleCreator {
  import opened Basics
  import opened Ledger
  import opened Node
  import opened Network
  import VmSpec

  /** Not about blocks, and not a subscription in another's name. */
  predicate Harmless(msg: Msg) {
    && !msg.BlockMsg? && !msg.GetBlocks? && !msg.Blocks?
    && (msg.SubscribeRequest? ==> msg.requestor == msg.handle)
  }

  /** Only server `c` creates blocks, and nobody forges messages about blocks. */
  predicate Permitted(st: Step, c: nat) {
    (st.CreateBlock? ==> st.at == c) && (st.Inject? ==> Harmless(st.packet.msg))
  }

  ghost predicate OnlyCreator(steps: seq<Step>, c: nat) {
    forall i :: 0 <= i < |steps| ==> Permitted(steps[i], c)
  }

  /** `b` is the block of chain `main` at its own height. */
  predicate On(main: seq<Block>, b: Block) {
    b.header.height < |main| && main[b.header.height] == b
  }

  /** A run of consecutive blocks of `main`. */
  ghost predicate Stretch(main: seq<Block>, bs: seq<Block>) {
    forall i :: 0 <= i < |bs| ==> On(main, bs[i]) && bs[i].header.height == bs[0].header.height + i
  }

  /** Blocks in flight are the creator's; requests and responses start no later than the asking server ends. */
  ghost predicate PacketOk(nodes: seq<Node>, main: seq<Block>, p: Packet) {
    match p.msg
    case BlockMsg(b) => On(main, b)
    case GetBlocks(r, start) => r < |nodes| ==> start <= |nodes[r].chain.blocks|
    case Blocks(bs) =>
      Stretch(main, bs) && (bs != [] && p.to < |nodes| ==> bs[0].header.height <= |nodes[p.to].chain.blocks|)
    case SubscribeRequest(r, handle) => r == handle
    case _ => true
  }

  /** Every peer is known under the name of its own connection. */
  ghost predicate PlainPeers(n: Node) {
    forall r :: r in n.peers ==> n.peers[r] == r
  }

  function Main(net: Net, c: nat): seq<Block>
    requires c < |net.nodes|
  {
    net.nodes[c].chain.blocks
  }

  ghost predicate Following(net: Net, c: nat) {
    && c < |net.nodes|
    && (forall i :: 0 <= i < |net.nodes| ==> net.nodes[i].chain.blocks <= Main(net, c))
    && (forall i :: 0 <= i < |net.nodes| ==> PlainPeers(net.nodes[i]))
    && (forall k :: 0 <= k < |net.flight| ==> PacketOk(net.nodes, Main(net, c), net.flight[k]))
  }

  // ---- Adding the creator's blocks ----

  lemma AddFollows(s: Scheme, c: Chain, b: Block, main: seq<Block>)
    requires Linked(s, c.blocks) && c.blocks <= main && On(main, b)
    ensures AddBlock(s, c, b, Wire).chain.blocks <= main
    ensures c.blocks <= AddBlock(s, c, b, Wire).chain.blocks
  {
    AddKeepsLinked(s, c, b, Wire);
  }

  lemma {:induction false} ApplyFollows(s: Scheme, c: Chain, bs: seq<Block>, main: seq<Block>)
    requires Linked(s, c.blocks) && c.blocks <= main && forall i :: 0 <= i < |bs| ==> On(main, bs[i])
    ensures ApplyBlocks(s, c, bs).chain.blocks <= main
    ensures c.blocks <= ApplyBlocks(s, c, bs).chain.blocks
    decreases |bs|
  {
    if bs != [] {
      if HasBlockAt(c.blocks, bs[0].header.height) {
        ApplyFollows(s, c, bs[1..], main);
      } else {
        AddFollows(s, c, bs[0], main);
        AddKeepsLinked(s, c, bs[0], Wire);
        ApplyFollows(s, AddBlock(s, c, bs[0], Wire).chain, bs[1..], main);
      }
    }
  }

  lemma NextValid(s: Scheme, blocks: seq<Block>, main: seq<Block>)
    requires Linked(s, main) && UniqueHashes(s, main)
    requires 1 <= |blocks| < |main| && blocks == main[..|blocks|]
    ensures Linked(s, blocks)
    ensures Validate(s, blocks, main[|blocks|]) == Accept && !HashTaken(s, blocks, main[|blocks|].header)
  {
    ValidateLinked(s, blocks, main[|blocks|]);
  }

  /** The next block of a chain that replays is always accepted by a server in step with a prefix of it. */
  lemma AddNext(s: Scheme, c: Chain, main: seq<Block>)
    requires Linked(s, main) && UniqueHashes(s, main) && Replay(main).status == VmSpec.Ok
    requires 1 <= |c.blocks| < |main| && c.blocks == main[..|c.blocks|] && InStep(c)
    ensures var r := AddBlock(s, c, main[|c.blocks|], Wire);
            r.status == Added && r.chain.blocks == main[..|c.blocks| + 1] && InStep(r.chain)
  {
    hide AddBlock, RunTxs, Replay, Validate, HashTaken, UniqueHashes;
    var b := main[|c.blocks|];
    NextValid(s, c.blocks, main);
    ReplayNext(main, |c.blocks|);
    AddAccepted(s, c, b, Wire);
    AddKeepsInStep(s, c, b, Wire);
  }

  /**
   Handling a response: a stretch of the creator's chain that starts no later than the own
   chain ends is applied completely, with every AddBlock succeeding.
   */
  lemma {:induction false} ApplyCatchesUp(s: Scheme, c: Chain, bs: seq<Block>, main: seq<Block>)
    requires Linked(s, main) && UniqueHashes(s, main) && Replay(main).status == VmSpec.Ok
    requires c.blocks != [] && c.blocks <= main && InStep(c)
    requires Stretch(main, bs) && (bs != [] ==> bs[0].header.height <= |c.blocks|)
    ensures var r := ApplyBlocks(s, c, bs);
            r.status == Added && InStep(r.chain) && r.chain.blocks == main[..Max(|c.blocks|, End(main, bs))]
    decreases |bs|
  {
    hide Linked, UniqueHashes, InStep, AddBlock, HasBlockAt, Replay, On;
    assert main[..|c.blocks|] == c.blocks;
    if bs != [] {
      hide Stretch, ApplyBlocks, End;
      StretchTail(main, bs);
      HasBlockInPrefix(s, c.blocks, main, bs[0].header.height);
      ApplyUnfolds(s, c, bs);
      if HasBlockAt(c.blocks, bs[0].header.height) {
        ApplyCatchesUp(s, c, bs[1..], main);
        assert Max(|c.blocks|, End(main, bs[1..])) == Max(|c.blocks|, End(main, bs));
      } else {
        AddNext(s, c, main);
        var c' := AddBlock(s, c, bs[0], Wire).chain;
        assert c'.blocks == main[..|c.blocks| + 1] <= main;
        ApplyCatchesUp(s, c', bs[1..], main);
        assert Max(|c'.blocks|, End(main, bs[1..])) == Max(|c.blocks|, End(main, bs));
      }
    }
  }

  lemma ApplyUnfolds(s: Scheme, c: Chain, bs: seq<Block>)
    requires bs != []
    ensures HasBlockAt(c.blocks, bs[0].header.height) ==> ApplyBlocks(s, c, bs) == ApplyBlocks(s, c, bs[1..])
    ensures !HasBlockAt(c.blocks, bs[0].header.height) && AddBlock(s, c, bs[0], Wire).status == Added ==>
              ApplyBlocks(s, c, bs) == ApplyBlocks(s, AddBlock(s, c, bs[0], Wire).chain, bs[1..])
  {
    hide AddBlock, HasBlockAt;
  }

  function Max(a: nat, b: nat): nat {
    if a >= b then a else b
  }

  /** One past the height of the last block of a stretch. */
  function End(main: seq<Block>, bs: seq<Block>): (n: nat)
    requires forall i :: 0 <= i < |bs| ==> On(main, bs[i])
    ensures n <= |main|
  {
    if bs == [] then 0 else
    assert On(main, bs[|bs| - 1]);
    bs[|bs| - 1].header.height + 1
  }

  lemma StretchTail(main: seq<Block>, bs: seq<Block>)
    requires Stretch(main, bs) && bs != []
    ensures On(main, bs[0])
    ensures Stretch(main, bs[1..])
    ensures bs[1..] != [] ==> bs[1..][0].header.height == bs[0].header.height + 1
    ensures End(main, bs) == if bs[1..] == [] then bs[0].header.height + 1 else End(main, bs[1..])
    ensures End(main, bs[1..]) == 0 || End(main, bs[1..]) > bs[0].header.height + 1
    ensures bs[1..] == [] ==> End(main, bs[1..]) == 0
  {
    assert forall i :: 0 <= i < |bs[1..]| ==> bs[1..][i] == bs[i + 1];
  }

  lemma HasBlockInPrefix(s: Scheme, blocks: seq<Block>, main: seq<Block>, h: UInt32)
    requires Linked(s, main) && blocks != [] && blocks <= main
    ensures HasBlockAt(blocks, h) <==> h < |blocks|
  {
  }

  function Longer(a: seq<Block>, b: seq<Block>): seq<Block> {
    if |a| >= |b| then a else b
  }

  // ---- One reaction ----

  lemma SuffixStretch(s: Scheme, blocks: seq<Block>, main: seq<Block>, start: nat)
    requires Linked(s, blocks) && blocks <= main && start < |blocks|
    ensures Stretch(main, blocks[start..]) && blocks[start..][0].header.height == start
  {
    var bs := blocks[start..];
    forall i | 0 <= i < |bs| ensures On(main, bs[i]) && bs[i].header.height == start + i {
      assert bs[i] == blocks[start + i] == main[start + i];
    }
  }

  lemma CollectStretch(s: Scheme, blocks: seq<Block>, main: seq<Block>, start: UInt32)
    requires Linked(s, blocks) && blocks <= main
    ensures Stretch(main, Collect(blocks, start))
    ensures Collect(blocks, start) == if start < |blocks| then blocks[start..] else []
    ensures Collect(blocks, start) != [] ==> Collect(blocks, start)[0].header.height == start
  {
    assert Height(blocks) == |blocks| - 1;
    if start < |blocks| {
      assert blocks[start..|blocks|] == blocks[start..];
      SuffixStretch(s, blocks, main, start);
    }
  }

  /** What a server sends in reply to a good packet is good again. */
  ghost predicate EffectOk(nodes: seq<Node>, main: seq<Block>, e: Effect) {
    match e
    case Silent => true
    case Broadcast(msg) => !msg.Blocks? && PacketOk(nodes, main, Packet(0, msg))
    case Send(to, msg) => PacketOk(nodes, main, Packet(to, msg))
  }

  lemma BlockFollows(s: Scheme, self: nat, nodes: seq<Node>, main: seq<Block>, b: Block)
    requires self < |nodes| && Kept(s, nodes[self]) && nodes[self].chain.blocks <= main && On(main, b)
    ensures var r := HandleBlock(s, self, nodes[self], b);
            r.node.chain.blocks <= main && r.node.peers == nodes[self].peers && EffectOk(nodes, main, r.effect)
  {
    hide AddBlock, On, Linked, UniqueHashes, InStep, PoolKept, AnnouncedOnce, Continues, RunTxs, HashTaken;
    var n := nodes[self];
    KeptLinked(s, n);
    AddFollows(s, n.chain, b, main);
    BlockTakenExactly(s, self, n, b);
  }

  lemma GetBlocksFollows(s: Scheme, nodes: seq<Node>, n: Node, main: seq<Block>, r: nat, start: UInt32)
    requires Linked(s, n.chain.blocks) && n.chain.blocks <= main
    requires PlainPeers(n) && (r < |nodes| ==> start <= |nodes[r].chain.blocks|)
    ensures var out := HandleGetBlocks(n, r, start);
            out.node.chain == n.chain && out.node.peers == n.peers && EffectOk(nodes, main, out.effect)
  {
    CollectStretch(s, n.chain.blocks, main, start);
  }

  lemma KeptLinked(s: Scheme, n: Node)
    requires Kept(s, n)
    ensures Linked(s, n.chain.blocks)
  {
  }

  lemma TxFollows(s: Scheme, n: Node, nodes: seq<Node>, main: seq<Block>, tx: Tx)
    ensures var r := HandleTx(s, n, tx);
            r.node.chain == n.chain && r.node.peers == n.peers && EffectOk(nodes, main, r.effect)
  {
  }

  lemma HandleFollows(cfg: Config, net: Net, c: nat, p: Packet)
    requires AllKept(cfg, net) && Following(net, c) && PacketOk(net.nodes, Main(net, c), p) && p.to < |net.nodes|
    ensures var r := Reply(cfg, net, p.to, p.msg);
            r.node.chain.blocks <= Main(net, c) && PlainPeers(r.node) && EffectOk(net.nodes, Main(net, c), r.effect)
  {
    hide Kept, HandleBlock, HandleGetBlocks, HandleTx, ApplyBlocks, Stretch, On, Linked;
    var s, n, main := cfg.scheme, net.nodes[p.to], Main(net, c);
    KeptLinked(s, n);
    match p.msg
    case TxMsg(tx) => TxFollows(s, n, net.nodes, main, tx);
    case BlockMsg(b) => BlockFollows(s, p.to, net.nodes, main, b);
    case GetBlocks(r, start) => GetBlocksFollows(s, net.nodes, n, main, r, start);
    case Blocks(bs) => BlocksFollow(s, n, main, bs);
    case _ =>
  }

  lemma BlocksFollow(s: Scheme, n: Node, main: seq<Block>, bs: seq<Block>)
    requires Linked(s, n.chain.blocks) && n.chain.blocks <= main && Stretch(main, bs)
    ensures After(n, ApplyBlocks(s, n.chain, bs)).chain.blocks <= main
  {
    ApplyFollows(s, n.chain, bs, main);
  }

  // ---- Packets ----

  lemma {:induction false} FanOnly(targets: seq<nat>, msg: Msg)
    ensures forall k :: 0 <= k < |Fan(targets, msg)| ==> Fan(targets, msg)[k].msg == msg
  {
    if targets != [] {
      FanOnly(targets[1..], msg);
    }
  }

  lemma EmitOk(nodes: seq<Node>, main: seq<Block>, links: seq<nat>, e: Effect)
    requires EffectOk(nodes, main, e)
    ensures forall k :: 0 <= k < |Emit(links, e)| ==> PacketOk(nodes, main, Emit(links, e)[k])
  {
    if e.Broadcast? {
      FanOnly(links, e.msg);
    }
  }

  /** Good packets stay good while chains grow. */
  lemma PacketGrows(nodes: seq<Node>, main: seq<Block>, nodes': seq<Node>, main': seq<Block>, p: Packet)
    requires PacketOk(nodes, main, p) && main <= main' && |nodes| == |nodes'|
    requires forall i :: 0 <= i < |nodes| ==> nodes[i].chain.blocks <= nodes'[i].chain.blocks
    ensures PacketOk(nodes', main', p)
  {
    match p.msg
    case BlockMsg(b) => assert On(main', b);
    case Blocks(bs) => assert forall i :: 0 <= i < |bs| ==> On(main', bs[i]);
    case _ =>
  }

  lemma ReactFollows(cfg: Config, net: Net, c: nat, i: nat, r: Reaction)
    requires Following(net, c) && i < |net.nodes| == |cfg.links|
    requires net.nodes[i].chain.blocks <= r.node.chain.blocks && PlainPeers(r.node)
    requires if i == c then true else r.node.chain.blocks <= Main(net, c)
    requires EffectOk(net.nodes, if i == c then r.node.chain.blocks else Main(net, c), r.effect)
    ensures Following(React(cfg, net, i, r), c)
  {
    var net' := React(cfg, net, i, r);
    var main, main' := Main(net, c), Main(net', c);
    var new_ := Emit(cfg.links[i], r.effect);
    EmitOk(net.nodes, main', cfg.links[i], r.effect);
    forall k | 0 <= k < |net'.flight| ensures PacketOk(net'.nodes, main', net'.flight[k]) {
      if k < |net.flight| {
        PacketGrows(net.nodes, main, net'.nodes, main', net.flight[k]);
      } else {
        assert net'.flight[k] == new_[k - |net.flight|];
        PacketGrows(net.nodes, main', net'.nodes, main', new_[k - |net.flight|]);
      }
    }
  }

  lemma CreateFollows(cfg: Config, net: Net, c: nat, timestamp: nat, nonce: nat)
    requires AllKept(cfg, net) && Following(net, c)
    ensures Following(React(cfg, net, c, Create(cfg.scheme, net.nodes[c], cfg.keys[c], timestamp, nonce)), c)
  {
    var s, n := cfg.scheme, net.nodes[c];
    var b := Draft(s, n, cfg.keys[c], timestamp, nonce);
    var r := Create(s, n, cfg.keys[c], timestamp, nonce);
    AddKeepsLinked(s, n.chain, b, Local);
    ReactFollows(cfg, net, c, c, r);
  }

  lemma WithoutFollows(net: Net, c: nat, k: nat)
    requires Following(net, c) && k < |net.flight|
    ensures Following(net.(flight := Without(net.flight, k)), c)
  {
  }

  lemma DeliverFollows(cfg: Config, net: Net, c: nat, k: nat)
    requires AllKept(cfg, net) && Following(net, c) && Enabled(net, Deliver(k))
    ensures Following(Apply(cfg, net, Deliver(k)), c)
  {
    var p := net.flight[k];
    WithoutFollows(net, c, k);
    assert PacketOk(net.nodes, Main(net, c), p);
    HandleFollows(cfg, net, c, p);
    HandleKept(cfg.scheme, p.to, cfg.links[p.to], net.nodes[p.to], p.msg);
    var r := Reply(cfg, net, p.to, p.msg);
    if p.to == c {
      assert r.node.chain.blocks == Main(net, c);
    }
    ReactFollows(cfg, net.(flight := Without(net.flight, k)), c, p.to, r);
  }

  lemma ApplyStepFollows(cfg: Config, net: Net, c: nat, st: Step)
    requires AllKept(cfg, net) && Following(net, c) && Permitted(st, c)
    ensures Sized(cfg, net)
    ensures Following(Apply(cfg, net, st), c)
  {
    AllKeptSized(cfg, net);
    hide Kept, PacketOk, EffectOk, Handle, HandleTx, Create, Emit, Following, SubscribeTo, Without;
    if Enabled(net, st) {
      match st
      case CreateBlock(i, timestamp, nonce) => CreateFollows(cfg, net, c, timestamp, nonce);
      case Deliver(k) => DeliverFollows(cfg, net, c, k);
      case Lose(k) => WithoutFollows(net, c, k);
      case Submit(i, tx) =>
        TxFollows(cfg.scheme, net.nodes[i], net.nodes, Main(net, c), tx);
        AskFollows(cfg, net, c, i, HandleTx(cfg.scheme, net.nodes[i], tx));
      case Subscribe(i, leader) =>
        RequestsFollow(net.nodes, Main(net, c), i, cfg.links[i], leader);
        AskFollows(cfg, net, c, i, SubscribeTo(i, cfg.links[i], net.nodes[i], leader));
      case AskStatus(i) =>
        RequestsFollow(net.nodes, Main(net, c), i, cfg.links[i], i);
        AskFollows(cfg, net, c, i, Reaction(net.nodes[i], Broadcast(StatusRequest(i))));
      case Inject(p) => InjectFollows(net, c, p);
    }
  }

  lemma RequestsFollow(nodes: seq<Node>, main: seq<Block>, i: nat, links: seq<nat>, leader: nat)
    requires i < |nodes|
    ensures var r := SubscribeTo(i, links, nodes[i], leader);
            r.node.chain == nodes[i].chain && r.node.peers == nodes[i].peers && EffectOk(nodes, main, r.effect)
    ensures EffectOk(nodes, main, Broadcast(StatusRequest(i)))
  {
  }

  lemma AskFollows(cfg: Config, net: Net, c: nat, i: nat, r: Reaction)
    requires Following(net, c) && i < |net.nodes| == |cfg.links|
    requires r.node.chain == net.nodes[i].chain && r.node.peers == net.nodes[i].peers
    requires EffectOk(net.nodes, Main(net, c), r.effect)
    ensures Following(React(cfg, net, i, r), c)
  {
    hide EffectOk, PacketOk;
    assert net.nodes[i].chain.blocks <= Main(net, c) && PlainPeers(net.nodes[i]);
    ReactFollows(cfg, net, c, i, r);
  }

  lemma InjectFollows(net: Net, c: nat, p: Packet)
    requires Following(net, c) && Harmless(p.msg)
    ensures Following(net.(flight := net.flight + [p]), c)
  {
  }

  lemma {:induction false} RunFollows(cfg: Config, net: Net, c: nat, steps: seq<Step>)
    requires AllKept(cfg, net) && Following(net, c) && OnlyCreator(steps, c)
    ensures Following(Run(cfg, net, steps), c)
  {
    if steps != [] {
      var init := steps[..|steps| - 1];
      RunFollows(cfg, net, c, init);
      hide Apply, Following;
      ApplyStepFollows(cfg, Run(cfg, net, init), c, steps[|steps| - 1]);
    }
  }

  lemma StartFollows(cfg: Config, c: nat)
    requires c < |cfg.links|
    ensures Following(Start(cfg), c) && Healthy(Start(cfg), c)
  {
  }

  // ---- A creator without failures ----

  /** As long as the creator has not leaked, no server has. */
  ghost predicate Healthy(net: Net, c: nat) {
    c < |net.nodes| && (!net.nodes[c].log.leaked ==>
      forall i :: 0 <= i < |net.nodes| ==> !net.nodes[i].log.leaked)
  }

  lemma BlockHealthy(s: Scheme, self: nat, n: Node, main: Chain, b: Block)
    requires ChainKept(s, n.chain, false) && ChainKept(s, main, false)
    requires n.chain.blocks <= main.blocks && On(main.blocks, b)
    requires !n.log.leaked
    ensures !HandleBlock(s, self, n, b).node.log.leaked
  {
    ValidateLinked(s, n.chain.blocks, b);
    if b.header.height == |n.chain.blocks| {
      AddNext(s, n.chain, main.blocks);
    }
  }

  lemma DeliverHealthy(cfg: Config, net: Net, c: nat, p: Packet)
    requires AllKept(cfg, net) && Following(net, c) && PacketOk(net.nodes, Main(net, c), p) && p.to < |net.nodes|
    requires !net.nodes[c].log.leaked && !net.nodes[p.to].log.leaked
    ensures !Reply(cfg, net, p.to, p.msg).node.log.leaked
  {
    hide HandleBlock, ApplyBlocks, On, Linked, UniqueHashes, HandleTx, Stretch;
    var s, n, main := cfg.scheme, net.nodes[p.to], Main(net, c);
    assert Kept(s, net.nodes[c]) && Kept(s, n);
    match p.msg
    case TxMsg(tx) => TxLeaksNothing(s, n, tx);
    case BlockMsg(b) => BlockHealthy(s, p.to, n, net.nodes[c].chain, b);
    case Blocks(bs) =>
      ChainNotEmpty(s, n);
      ApplyCatchesUp(s, n.chain, bs, main);
    case _ =>
  }

  lemma ReactHealthy(cfg: Config, net: Net, c: nat, i: nat, r: Reaction)
    requires Healthy(net, c) && i < |net.nodes| == |cfg.links|
    requires r.node.log.leaked ==> i == c || net.nodes[c].log.leaked || net.nodes[i].log.leaked
    requires net.nodes[i].log.leaked ==> r.node.log.leaked
    ensures Healthy(React(cfg, net, i, r), c)
  {
  }

  lemma SameNodesHealthy(net: Net, c: nat, flight: seq<Packet>)
    requires Healthy(net, c)
    ensures Healthy(net.(flight := flight), c)
  {
  }

  lemma LeaksStay(s: Scheme, self: nat, links: seq<nat>, n: Node, msg: Msg)
    ensures n.log.leaked ==> Handle(s, self, links, n, msg).node.log.leaked
  {
    hide AddBlock, ApplyBlocks;
  }

  lemma LeaksStayCreating(s: Scheme, n: Node, key: nat, timestamp: nat, nonce: nat)
    requires n.chain.blocks != []
    ensures n.log.leaked ==> Create(s, n, key, timestamp, nonce).node.log.leaked
  {
    hide AddBlock, Draft;
  }

  lemma TxLeaksNothing(s: Scheme, n: Node, tx: Tx)
    ensures HandleTx(s, n, tx).node.log.leaked == n.log.leaked
  {
  }

  lemma ApplyStepHealthy(cfg: Config, net: Net, c: nat, st: Step)
    requires AllKept(cfg, net) && Following(net, c) && Healthy(net, c) && Permitted(st, c)
    ensures Sized(cfg, net)
    ensures Healthy(Apply(cfg, net, st), c)
  {
    AllKeptSized(cfg, net);
    hide Kept, PacketOk, Handle, HandleTx, Create, Emit, Healthy;
    if Enabled(net, st) {
      match st
      case CreateBlock(i, timestamp, nonce) =>
        LeaksStayCreating(cfg.scheme, net.nodes[i], cfg.keys[i], timestamp, nonce);
        ReactHealthy(cfg, net, c, i, Create(cfg.scheme, net.nodes[i], cfg.keys[i], timestamp, nonce));
      case Deliver(k) =>
        var p := net.flight[k];
        if !net.nodes[c].log.leaked && !net.nodes[p.to].log.leaked {
          assert PacketOk(net.nodes, Main(net, c), p);
          DeliverHealthy(cfg, net, c, p);
        }
        LeaksStay(cfg.scheme, p.to, cfg.links[p.to], net.nodes[p.to], p.msg);
        SameNodesHealthy(net, c, Without(net.flight, k));
        ReactHealthy(cfg, net.(flight := Without(net.flight, k)), c, p.to, Reply(cfg, net, p.to, p.msg));
      case Lose(k) => SameNodesHealthy(net, c, Without(net.flight, k));
      case Submit(i, tx) =>
        TxLeaksNothing(cfg.scheme, net.nodes[i], tx);
        ReactHealthy(cfg, net, c, i, HandleTx(cfg.scheme, net.nodes[i], tx));
      case Subscribe(i, leader) => ReactHealthy(cfg, net, c, i, SubscribeTo(i, cfg.links[i], net.nodes[i], leader));
      case AskStatus(i) => ReactHealthy(cfg, net, c, i, Reaction(net.nodes[i], Broadcast(StatusRequest(i))));
      case Inject(p) => SameNodesHealthy(net, c, net.flight + [p]);
    }
  }

  lemma {:induction false} RunHealthy(cfg: Config, net: Net, c: nat, steps: seq<Step>)
    requires AllKept(cfg, net) && Following(net, c) && Healthy(net, c) && OnlyCreator(steps, c)
    ensures Healthy(Run(cfg, net, steps), c)
  {
    hide Kept, Following, Healthy, Apply;
    if steps != [] {
      var init := steps[..|steps| - 1];
      assert OnlyCreator(init, c) && Permitted(steps[|steps| - 1], c);
      RunFollows(cfg, net, c, init);
      RunHealthy(cfg, net, c, init);
      ApplyStepHealthy(cfg, Run(cfg, net, init), c, steps[|steps| - 1]);
    }
  }

  /**
   If the one creator never had a block fail after running its transactions, then no server did: every
   contract state is the replay of that server's blocks, itself a prefix of the creator's.
   */
  lemma CreatorDecides(cfg: Config, c: nat, steps: seq<Step>)
    requires |cfg.links| == |cfg.keys| && c < |cfg.links| && OnlyCreator(steps, c)
    ensures AllKept(cfg, Start(cfg))
    ensures var net := Run(cfg, Start(cfg), steps);
            !net.nodes[c].log.leaked ==>
              forall i :: 0 <= i < |net.nodes| ==> !net.nodes[i].log.leaked && InStep(net.nodes[i].chain)
  {
    hide Following, Run, Start, Linked, UniqueHashes, InStep, PoolKept, AnnouncedOnce;
    StartKept(cfg);
    StartFollows(cfg, c);
    RunHealthy(cfg, Start(cfg), c, steps);
    var net := Run(cfg, Start(cfg), steps);
    forall i | 0 <= i < |net.nodes| ensures Kept(cfg.scheme, net.nodes[i]) {}
  }

  /**
   Catch-up.  Server `q` answers a request for the blocks from `start` on; any run may follow
   before the answer reaches the server `r` that asked.  Handling it then makes `r`'s chain the
   longer of its own and the one `q` had when answering, every AddBlock on the way succeeding.
   */
  lemma CatchUp(cfg: Config, c: nat, before: seq<Step>, q: nat, r: nat, start: UInt32, after: seq<Step>)
    requires |cfg.links| == |cfg.keys| && c < |cfg.links| && q < |cfg.links| && r < |cfg.links|
    requires OnlyCreator(before, c) && OnlyCreator(after, c)
    ensures AllKept(cfg, Start(cfg))
    ensures var net := Run(cfg, Start(cfg), before);
            var net' := Run(cfg, net, after);
            start <= |net.nodes[r].chain.blocks| && !net'.nodes[c].log.leaked ==>
              var own := net'.nodes[r].chain;
              var res := ApplyBlocks(cfg.scheme, own, Collect(net.nodes[q].chain.blocks, start));
              && res.status == Added
              && res.chain.blocks == Longer(own.blocks, net.nodes[q].chain.blocks)
              && InStep(res.chain)
  {
    hide Kept, PacketOk, ApplyBlocks, Collect, InStep;
    StartKept(cfg);
    var net := Run(cfg, Start(cfg), before);
    var net' := Run(cfg, net, after);
    RunFollows(cfg, Start(cfg), c, before);
    RunFollows(cfg, net, c, after);
    RunHealthy(cfg, Start(cfg), c, before);
    RunHealthy(cfg, net, c, after);
    if start <= |net.nodes[r].chain.blocks| && !net'.nodes[c].log.leaked {
      CatchUpLater(cfg, c, net, q, r, start, net');
    }
  }

  lemma CatchUpLater(cfg: Config, c: nat, net: Net, q: nat, r: nat, start: UInt32, net': Net)
    requires AllKept(cfg, net) && AllKept(cfg, net') && Extends(net, net')
    requires Following(net, c) && Following(net', c) && Healthy(net', c) && !net'.nodes[c].log.leaked
    requires q < |net.nodes| && r < |net.nodes| && start <= |net.nodes[r].chain.blocks|
    ensures var own := net'.nodes[r].chain;
            var res := ApplyBlocks(cfg.scheme, own, Collect(net.nodes[q].chain.blocks, start));
            && res.status == Added
            && res.chain.blocks == Longer(own.blocks, net.nodes[q].chain.blocks)
            && InStep(res.chain)
  {
    assert Kept(cfg.scheme, net.nodes[q]) && Kept(cfg.scheme, net'.nodes[c]) && Kept(cfg.scheme, net'.nodes[r]);
    assert net.nodes[q].chain.blocks <= Main(net, c) <= Main(net', c);
    ResponseApplies(cfg.scheme, net'.nodes[r].chain, net.nodes[q].chain.blocks, Main(net', c), start);
  }

  lemma ResponseApplies(s: Scheme, own: Chain, provider: seq<Block>, main: seq<Block>, start: UInt32)
    requires Linked(s, main) && UniqueHashes(s, main) && Replay(main).status == VmSpec.Ok
    requires own.blocks != [] && own.blocks <= main && InStep(own)
    requires Linked(s, provider) && provider <= main && start <= |own.blocks|
    ensures var res := ApplyBlocks(s, own, Collect(provider, start));
            res.status == Added && res.chain.blocks == Longer(own.blocks, provider) && InStep(res.chain)
  {
    CollectStretch(s, provider, main, start);
    ApplyCatchesUp(s, own, Collect(provider, start), main);
    hide Linked, UniqueHashes, ApplyBlocks, Stretch;
    assert main[..|provider|] == provider && main[..|own.blocks|] == own.blocks;
    if start < |provider| {
      EndOfSuffix(s, provider, main, start);
    }
  }

  lemma EndOfSuffix(s: Scheme, blocks: seq<Block>, main: seq<Block>, start: nat)
    requires Linked(s, blocks) && blocks <= main && start < |blocks|
    ensures Stretch(main, blocks[start..]) && End(main, blocks[start..]) == |blocks|
  {
    SuffixStretch(s, blocks, main, start);
    assert blocks[start..][|blocks| - start - 1] == blocks[|blocks| - 1];
  }

  /** The same for a single delivery: any response in flight is applied completely when it arrives. */
  lemma DeliveredResponse(cfg: Config, c: nat, steps: seq<Step>, k: nat)
    requires |cfg.links| == |cfg.keys| && c < |cfg.links| && OnlyCreator(steps, c)
    ensures AllKept(cfg, Start(cfg))
    ensures var net := Run(cfg, Start(cfg), steps);
            Enabled(net, Deliver(k)) && net.flight[k].msg.Blocks? && !net.nodes[c].log.leaked ==>
              Sized(cfg, net) && Applied(cfg, net, c, k)
  {
    hide Kept, PacketOk, Applied, Apply;
    StartKept(cfg);
    RunFollows(cfg, Start(cfg), c, steps);
    RunHealthy(cfg, Start(cfg), c, steps);
    var net := Run(cfg, Start(cfg), steps);
    if Enabled(net, Deliver(k)) && net.flight[k].msg.Blocks? && !net.nodes[c].log.leaked {
      DeliverApplies(cfg, net, c, k);
    }
  }

  /** Delivering the response with number `k` brings its receiver to the end of the response, and does not halt it. */
  ghost predicate Applied(cfg: Config, net: Net, c: nat, k: nat)
    requires Sized(cfg, net) && c < |net.nodes| && Enabled(net, Deliver(k)) && net.flight[k].msg.Blocks?
  {
    var p := net.flight[k];
    var net' := Apply(cfg, net, Deliver(k));
    var main := Main(net, c);
    && (forall i :: 0 <= i < |p.msg.blocks| ==> On(main, p.msg.blocks[i]))
    && Live(net', p.to)
    && net'.nodes[p.to].chain.blocks == Longer(net.nodes[p.to].chain.blocks, main[..End(main, p.msg.blocks)])
  }

  lemma DeliverApplies(cfg: Config, net: Net, c: nat, k: nat)
    requires AllKept(cfg, net) && Following(net, c) && Healthy(net, c) && !net.nodes[c].log.leaked
    requires Enabled(net, Deliver(k)) && net.flight[k].msg.Blocks?
    ensures Sized(cfg, net) && Applied(cfg, net, c, k)
  {
    AllKeptSized(cfg, net);
    var p := net.flight[k];
    assert net.nodes[p.to].chain.blocks <= Main(net, c);
    assert PacketOk(net.nodes, Main(net, c), p);
    assert Kept(cfg.scheme, net.nodes[c]) && Kept(cfg.scheme, net.nodes[p.to]);
    ApplyCatchesUp(cfg.scheme, net.nodes[p.to].chain, p.msg.blocks, Main(net, c));
    hide Kept, ApplyBlocks, End;
  }
}
