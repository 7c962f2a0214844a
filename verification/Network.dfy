/**
 A network of servers and the messages in flight between them.

 A run is any sequence of steps.  A step that cannot happen, such as delivering to a halted
 server, leaves the network unchanged, so every sequence of steps is a run.
 */
module Network {
  import opened Basics
  import opened Ledger
  import opened Node
  import PoolSpec
  import VmSpec

  /** The server library, each server's connections, and its private key. */
  datatype Config = Config(scheme: Scheme, links: seq<seq<nat>>, keys: seq<nat>)

  datatype Packet = Packet(to: nat, msg: Msg)

  datatype Net = Net(nodes: seq<Node>, flight: seq<Packet>)

  datatype Step =
    | CreateBlock(at: nat, timestamp: nat, nonce: nat)
    | Deliver(k: nat)             // any packet in flight, in any order
    | Lose(k: nat)                // a failed send is only logged
    | Submit(at: nat, tx: Tx)     // a client's transaction
    | Subscribe(at: nat, leader: nat)
    | AskStatus(at: nat)
    | Inject(packet: Packet)      // a message that no modelled server sent

  function Fan(targets: seq<nat>, msg: Msg): seq<Packet> {
    if targets == [] then [] else [Packet(targets[0], msg)] + Fan(targets[1..], msg)
  }

  /** What a transport with these connections puts in flight. */
  function Emit(links: seq<nat>, e: Effect): seq<Packet> {
    match e
    case Silent => []
    case Broadcast(msg) => Fan(links, msg)
    case Send(to, msg) => if to in links then [Packet(to, msg)] else []
  }

  /** Server `i` becomes `r.node` and its message goes out. */
  function React(cfg: Config, net: Net, i: nat, r: Reaction): Net
    requires i < |net.nodes| && i < |cfg.links|
  {
    Net(net.nodes[i := r.node], net.flight + Emit(cfg.links[i], r.effect))
  }

  function Without<T>(s: seq<T>, k: nat): seq<T>
    requires k < |s|
  {
    s[..k] + s[k + 1..]
  }

  predicate Live(net: Net, i: nat) {
    i < |net.nodes| && !net.nodes[i].halted
  }

  predicate Sized(cfg: Config, net: Net) {
    |net.nodes| == |cfg.links| == |cfg.keys| && forall i :: 0 <= i < |net.nodes| ==> net.nodes[i].chain.blocks != []
  }

  predicate Enabled(net: Net, st: Step) {
    match st
    case CreateBlock(i, _, _) => Live(net, i)
    case Deliver(k) => k < |net.flight| && Live(net, net.flight[k].to)
    case Lose(k) => k < |net.flight|
    case Submit(i, _) => Live(net, i)
    case Subscribe(i, _) => Live(net, i)
    case AskStatus(i) => Live(net, i)
    case Inject(_) => true
  }

  function Reply(cfg: Config, net: Net, i: nat, msg: Msg): Reaction
    requires Sized(cfg, net) && i < |net.nodes|
  {
    Handle(cfg.scheme, i, cfg.links[i], net.nodes[i], msg)
  }

  function Apply(cfg: Config, net: Net, st: Step): Net
    requires Sized(cfg, net)
  {
    if !Enabled(net, st) then net else
    match st
    case CreateBlock(i, timestamp, nonce) =>
      React(cfg, net, i, Create(cfg.scheme, net.nodes[i], cfg.keys[i], timestamp, nonce))
    case Deliver(k) =>
      var p := net.flight[k];
      React(cfg, net.(flight := Without(net.flight, k)), p.to, Reply(cfg, net, p.to, p.msg))
    case Lose(k) => net.(flight := Without(net.flight, k))
    case Submit(i, tx) => React(cfg, net, i, HandleTx(cfg.scheme, net.nodes[i], tx))
    case Subscribe(i, leader) => React(cfg, net, i, SubscribeTo(i, cfg.links[i], net.nodes[i], leader))
    case AskStatus(i) => React(cfg, net, i, Reaction(net.nodes[i], Broadcast(StatusRequest(i))))
    case Inject(p) => net.(flight := net.flight + [p])
  }

  // ---- Every server of every run ----

  ghost predicate AllKept(cfg: Config, net: Net) {
    && |net.nodes| == |cfg.links| == |cfg.keys|
    && forall i :: 0 <= i < |net.nodes| ==> Kept(cfg.scheme, net.nodes[i])
  }

  /** All servers new, nothing in flight. */
  function Start(cfg: Config): Net {
    Net(seq(|cfg.links|, _ => NEW_NODE), [])
  }

  /** Chains only grow at their end. */
  ghost predicate Extends(old_: Net, new_: Net) {
    && |old_.nodes| == |new_.nodes|
    && forall i :: 0 <= i < |old_.nodes| ==> old_.nodes[i].chain.blocks <= new_.nodes[i].chain.blocks
  }

  lemma ReactKept(cfg: Config, net: Net, i: nat, r: Reaction)
    requires AllKept(cfg, net) && i < |net.nodes|
    requires Kept(cfg.scheme, r.node) && net.nodes[i].chain.blocks <= r.node.chain.blocks
    ensures AllKept(cfg, React(cfg, net, i, r)) && Extends(net, React(cfg, net, i, r))
  {
    hide Kept, Emit;
  }

  lemma AllKeptSized(cfg: Config, net: Net)
    requires AllKept(cfg, net)
    ensures Sized(cfg, net)
  {
    forall i | 0 <= i < |net.nodes| ensures net.nodes[i].chain.blocks != [] {
      assert Kept(cfg.scheme, net.nodes[i]);
    }
  }

  lemma ApplyKept(cfg: Config, net: Net, st: Step)
    requires AllKept(cfg, net)
    ensures Sized(cfg, net)
    ensures AllKept(cfg, Apply(cfg, net, st)) && Extends(net, Apply(cfg, net, st))
  {
    hide Kept, Handle, HandleTx, Create, Emit;
    AllKeptSized(cfg, net);
    if Enabled(net, st) {
      match st
      case CreateBlock(i, timestamp, nonce) =>
        CreateKept(cfg.scheme, net.nodes[i], cfg.keys[i], timestamp, nonce);
        ReactKept(cfg, net, i, Create(cfg.scheme, net.nodes[i], cfg.keys[i], timestamp, nonce));
      case Deliver(k) =>
        var p := net.flight[k];
        HandleKept(cfg.scheme, p.to, cfg.links[p.to], net.nodes[p.to], p.msg);
        ReactKept(cfg, net.(flight := Without(net.flight, k)), p.to, Reply(cfg, net, p.to, p.msg));
      case Submit(i, tx) =>
        TxKept(cfg.scheme, net.nodes[i], tx);
        ReactKept(cfg, net, i, HandleTx(cfg.scheme, net.nodes[i], tx));
      case Subscribe(i, leader) =>
        SubscribeKept(cfg.scheme, i, cfg.links[i], net.nodes[i], leader);
        ReactKept(cfg, net, i, SubscribeTo(i, cfg.links[i], net.nodes[i], leader));
      case _ =>
    }
  }

  /** The network after a run from `net`. */
  ghost function Run(cfg: Config, net: Net, steps: seq<Step>): (r: Net)
    requires AllKept(cfg, net)
    ensures AllKept(cfg, r)
    ensures Extends(net, r)
  {
    if steps == [] then net else
    var before := Run(cfg, net, steps[..|steps| - 1]);
    ApplyKept(cfg, before, steps[|steps| - 1]);
    Apply(cfg, before, steps[|steps| - 1])
  }

  lemma StartKept(cfg: Config)
    requires |cfg.links| == |cfg.keys|
    ensures AllKept(cfg, Start(cfg))
  {
    NewNodeKept(cfg.scheme);
  }

  /**
   Safety of every server in every run, whatever messages anyone injects: its chain is
   linked from the genesis with distinct hashes; unless an AddBlock of its own failed after running
   transactions, its contract state is the replay of its blocks; and it has broadcast a block
   at most once per height, in increasing order.  Every block but the genesis is signed, and so are all its
   transactions and all those its pool has accepted.
   */
  lemma EveryServer(cfg: Config, steps: seq<Step>, i: nat)
    requires |cfg.links| == |cfg.keys| && i < |cfg.links|
    ensures AllKept(cfg, Start(cfg))
    ensures var n := Run(cfg, Start(cfg), steps).nodes[i];
            && Linked(cfg.scheme, n.chain.blocks) && n.chain.blocks[0] == GENESIS
            && UniqueHashes(cfg.scheme, n.chain.blocks)
            && (!n.log.leaked ==> Replay(n.chain.blocks) == Execution(VmSpec.Ok, n.chain.contract))
            && (forall j, k :: 0 <= j < k < |n.log.announced| ==> n.log.announced[j] < n.log.announced[k])
    ensures var s, blocks := cfg.scheme, Run(cfg, Start(cfg), steps).nodes[i].chain.blocks;
            forall h :: 1 <= h < |blocks| ==>
              && blocks[h].sig.Some?
              && s.verify(blocks[h].validator, s.headerBytes(blocks[h].header), blocks[h].sig.value)
              && forall j :: 0 <= j < |blocks[h].txs| ==>
                   var t := blocks[h].txs[j]; t.sig.Some? && s.verify(t.from, t.data, t.sig.value)
    ensures var s, taken := cfg.scheme, Run(cfg, Start(cfg), steps).nodes[i].log.accepted;
            forall j :: 0 <= j < |taken| ==>
              taken[j].sig.Some? && s.verify(taken[j].from, taken[j].data, taken[j].sig.value)
  {
    hide Run, Start, PoolSpec.WellIndexed, TxsOf;
    StartKept(cfg);
    assert Kept(cfg.scheme, Run(cfg, Start(cfg), steps).nodes[i]);
  }

  /** The genesis is the same for all: version 1, height 0, a fixed time, no transactions, and zeros for hashes. */
  lemma GenesisIs()
    ensures GENESIS.header.version == 1 && GENESIS.header.height == 0 && GENESIS.header.timestamp == 1000000
    ensures |GENESIS.header.dataHash| == |GENESIS.header.prevHash| == 32
    ensures forall i :: 0 <= i < 32 ==> GENESIS.header.dataHash[i] == 0 && GENESIS.header.prevHash[i] == 0
    ensures GENESIS.txs == [] && GENESIS.sig == None
  {
  }

  /**
   Mempool conservation, in every run: the transactions of the blocks a server made, in order,
   followed by its pending list, are exactly the transactions its pool accepted, in order.
   */
  lemma NothingLostOrReordered(cfg: Config, steps: seq<Step>, i: nat)
    requires |cfg.links| == |cfg.keys| && i < |cfg.links|
    ensures AllKept(cfg, Start(cfg))
    ensures var n := Run(cfg, Start(cfg), steps).nodes[i];
            TxsOf(n.log.made) + n.pool.pending.list == n.log.accepted
  {
    StartKept(cfg);
    assert Kept(cfg.scheme, Run(cfg, Start(cfg), steps).nodes[i]);
  }

  /**
   In every reachable state, the block a server would create passes validation on its own chain
   if and only if its height is below 2^32 - 1.
   */
  lemma CreatedBlocksValid(cfg: Config, steps: seq<Step>, i: nat, timestamp: nat, nonce: nat)
    requires |cfg.links| == |cfg.keys| && i < |cfg.links| && SignaturesVerify(cfg.scheme)
    ensures AllKept(cfg, Start(cfg))
    ensures var n := Run(cfg, Start(cfg), steps).nodes[i];
            && Kept(cfg.scheme, n)
            && (Validate(cfg.scheme, n.chain.blocks, Draft(cfg.scheme, n, cfg.keys[i], timestamp, nonce)) == Accept
                <==> Height(n.chain.blocks) < TWO_32 - 1)
  {
    StartKept(cfg);
    var n := Run(cfg, Start(cfg), steps).nodes[i];
    assert Kept(cfg.scheme, n);
    DraftValid(cfg.scheme, n, cfg.keys[i], timestamp, nonce);
  }

  /** Two servers that never leaked and have the same blocks have the same contract state. */
  lemma SameBlocksSameContract(cfg: Config, steps: seq<Step>, i: nat, j: nat)
    requires |cfg.links| == |cfg.keys| && i < |cfg.links| && j < |cfg.links|
    ensures AllKept(cfg, Start(cfg))
    ensures var nodes := Run(cfg, Start(cfg), steps).nodes;
            !nodes[i].log.leaked && !nodes[j].log.leaked && nodes[i].chain.blocks == nodes[j].chain.blocks
            ==> nodes[i].chain.contract == nodes[j].chain.contract
  {
    EveryServer(cfg, steps, i);
    EveryServer(cfg, steps, j);
  }

  // ---- A run that leaks ----

  /** A transaction with the leaking bytecode, properly signed. */
  function LeakyTx(s: Scheme, key: nat, nonce: nat): Tx {
    Tx(LEAKY, s.publicKey(key), Some(s.sign(key, LEAKY, nonce)))
  }

  lemma LeakySubmitted(s: Scheme, key: nat, nonce: nat)
    requires SignaturesVerify(s)
    ensures var n := HandleTx(s, NEW_NODE, LeakyTx(s, key, nonce)).node;
            n.chain == FRESH && n.pool.pending.list == [LeakyTx(s, key, nonce)] && !n.halted
  {
    var tx := LeakyTx(s, key, nonce);
    assert s.verify(s.publicKey(key), LEAKY, s.sign(key, LEAKY, nonce));
    NewNodeKept(s);
    TxTakenExactly(s, NEW_NODE, tx);
  }

  lemma LeakyCreated(s: Scheme, n: Node, tx: Tx, key: nat, timestamp: nat, nonce: nat)
    requires Kept(s, n) && SignaturesVerify(s)
    requires n.chain == FRESH && n.pool.pending.list == [tx] && tx.data == LEAKY
    ensures var n' := Create(s, n, key, timestamp, nonce).node;
            n'.chain.blocks == [GENESIS] && !InStep(n'.chain) && n'.pool.pending.list == [tx] && n'.log.leaked
  {
    hide PoolKept, AddBlock, NewBlock, Sign, InStep;
    DraftTxs(s, n, key, timestamp, nonce);
    DraftValid(s, n, key, timestamp, nonce);
    FailedBlockLeaks(s, Draft(s, n, key, timestamp, nonce));
  }

  /**
   Two steps from the start are enough to lose replay: a client submits a signed transaction with the
   leaking bytecode, and the server creates a block.  The block is not added, the transaction stays pending, and the
   contract state is no longer what the chain produces.
   */
  lemma LeakReached(cfg: Config, i: nat, user: nat, r: nat, timestamp: nat, nonce: nat)
    requires |cfg.links| == |cfg.keys| && i < |cfg.links| && SignaturesVerify(cfg.scheme)
    ensures AllKept(cfg, Start(cfg))
    ensures var tx := LeakyTx(cfg.scheme, user, r);
            var n := Run(cfg, Start(cfg), [Submit(i, tx), CreateBlock(i, timestamp, nonce)]).nodes[i];
            n.chain.blocks == [GENESIS] && !InStep(n.chain) && n.pool.pending.list == [tx] && n.log.leaked
  {
    hide Kept, HandleTx, Create, InStep, LeakyTx;
    StartKept(cfg);
    var s, tx := cfg.scheme, LeakyTx(cfg.scheme, user, r);
    var a, b := Submit(i, tx), CreateBlock(i, timestamp, nonce);
    RunSnoc(cfg, Start(cfg), [], a);
    RunSnoc(cfg, Start(cfg), [a], b);
    assert [] + [a] == [a] && [a] + [b] == [a, b];
    LeakySubmitted(s, user, r);
    var n := HandleTx(s, NEW_NODE, tx).node;
    assert Run(cfg, Start(cfg), [a]).nodes[i] == n;
    assert Kept(s, n);
    assert LeakyTx(s, user, r).data == LEAKY by { LeakyData(s, user, r); }
    LeakyCreated(s, n, tx, cfg.keys[i], timestamp, nonce);
  }

  lemma LeakyData(s: Scheme, key: nat, nonce: nat)
    ensures LeakyTx(s, key, nonce).data == LEAKY
  {
  }

  /** A run with one more step. */
  lemma RunSnoc(cfg: Config, net: Net, steps: seq<Step>, st: Step)
    requires AllKept(cfg, net)
    ensures Sized(cfg, Run(cfg, net, steps))
    ensures Run(cfg, net, steps + [st]) == Apply(cfg, Run(cfg, net, steps), st)
  {
    hide Apply, Kept;
    AllKeptSized(cfg, Run(cfg, net, steps));
    assert (steps + [st])[..|steps|] == steps;
  }

  // ---- What goes out ----

  /** A broadcast puts one copy per connection in flight, in order; a message to one needs a connection to it. */
  lemma {:induction false} EmitExactly(links: seq<nat>, msg: Msg, to: nat)
    ensures Emit(links, Silent) == []
    ensures Emit(links, Send(to, msg)) == if to in links then [Packet(to, msg)] else []
    ensures var out := Emit(links, Broadcast(msg));
            |out| == |links| && forall k :: 0 <= k < |links| ==> out[k] == Packet(links[k], msg)
    decreases |links|
  {
    if links != [] {
      EmitExactly(links[1..], msg, to);
      var out := Emit(links, Broadcast(msg));
      forall k | 0 <= k < |links| ensures out[k] == Packet(links[k], msg) {
        if k > 0 { assert links[k] == links[1..][k - 1]; }
      }
    }
  }

  /** A running server reacts: it becomes what its reaction says, and the message goes out behind the others. */
  lemma ReactionsExactly(cfg: Config, net: Net, i: nat, t: nat, nonce: nat, k: nat, tx: Tx)
    requires Sized(cfg, net) && Live(net, i)
    ensures var r := Create(cfg.scheme, net.nodes[i], cfg.keys[i], t, nonce);
            Apply(cfg, net, CreateBlock(i, t, nonce))
            == Net(net.nodes[i := r.node], net.flight + Emit(cfg.links[i], r.effect))
    ensures var r := HandleTx(cfg.scheme, net.nodes[i], tx);
            Apply(cfg, net, Submit(i, tx)) == Net(net.nodes[i := r.node], net.flight + Emit(cfg.links[i], r.effect))
    ensures k < |net.flight| && net.flight[k].to == i ==>
              var r := Handle(cfg.scheme, i, cfg.links[i], net.nodes[i], net.flight[k].msg);
              Apply(cfg, net, Deliver(k))
              == Net(net.nodes[i := r.node], net.flight[..k] + net.flight[k + 1..] + Emit(cfg.links[i], r.effect))
  {
    hide Create, HandleTx, Handle, Emit;
  }

  /** A halted server is never heard of again: no step changes it. */
  lemma HaltedStays(cfg: Config, net: Net, st: Step, i: nat)
    requires Sized(cfg, net) && i < |net.nodes| && net.nodes[i].halted
    ensures Apply(cfg, net, st).nodes[i] == net.nodes[i]
    ensures st.Deliver? && st.k < |net.flight| && net.flight[st.k].to == i ==> Apply(cfg, net, st) == net
  {
    hide Create, HandleTx, Handle, Emit, SubscribeTo;
  }

  /** The steps that touch no chain: a loss, a status request to everyone, a message from outside. */
  lemma OtherStepsExactly(cfg: Config, net: Net, k: nat, i: nat, p: Packet)
    requires Sized(cfg, net)
    ensures k < |net.flight| ==> Apply(cfg, net, Lose(k)) == Net(net.nodes, net.flight[..k] + net.flight[k + 1..])
    ensures Live(net, i) ==>
              Apply(cfg, net, AskStatus(i)) == Net(net.nodes, net.flight + Fan(cfg.links[i], StatusRequest(i)))
    ensures Apply(cfg, net, Inject(p)) == Net(net.nodes, net.flight + [p])
  {
    hide Fan;
    if Live(net, i) { assert net.nodes[i := net.nodes[i]] == net.nodes; }
  }

  lemma OnlyGetBlocksAnswered(s: Scheme, self: nat, links: seq<nat>, n: Node, msg: Msg)
    requires Kept(s, n)
    ensures var e := Handle(s, self, links, n, msg).effect;
            e != Silent && e.msg.Blocks? ==>
              && msg.GetBlocks? && e.Send? && msg.requestor in n.peers && e.to == n.peers[msg.requestor]
  {
    hide Kept, AddBlock, ApplyBlocks, Collect, PoolSpec.Add, TxVerifies;
    if msg.GetBlocks? {
      GetBlocksExactly(s, self, links, n, msg.requestor, msg.start);
    }
  }

  /**
   Blocks are sent to peers only.  In every run, whatever is delivered to a server next, a response it puts in
   flight goes where one of its peers is reached: servers that have not subscribed are not served.
   */
  lemma OnlyPeersServed(cfg: Config, steps: seq<Step>, k: nat)
    requires |cfg.links| == |cfg.keys|
    ensures AllKept(cfg, Start(cfg))
    ensures var net := Run(cfg, Start(cfg), steps);
            && Sized(cfg, net)
            && (Enabled(net, Deliver(k)) ==>
                  var i, net' := net.flight[k].to, Apply(cfg, net, Deliver(k));
                  && |net.flight| - 1 <= |net'.flight|
                  && forall j :: |net.flight| - 1 <= j < |net'.flight| && net'.flight[j].msg.Blocks? ==>
                       net'.flight[j].to in net.nodes[i].peers.Values)
  {
    hide Kept, Handle, Emit, Run, Start;
    StartKept(cfg);
    var net := Run(cfg, Start(cfg), steps);
    AllKeptSized(cfg, net);
    if Enabled(net, Deliver(k)) {
      var p := net.flight[k];
      OnlyGetBlocksAnswered(cfg.scheme, p.to, cfg.links[p.to], net.nodes[p.to], p.msg);
      var e := Reply(cfg, net, p.to, p.msg).effect;
      if e != Silent {
        EmitExactly(cfg.links[p.to], e.msg, if e.Send? then e.to else 0);
      } else {
        EmitExactly(cfg.links[p.to], p.msg, 0);
      }
      var net' := Apply(cfg, net, Deliver(k));
      assert net'.flight == Without(net.flight, k) + Emit(cfg.links[p.to], e);
    }
  }
}
