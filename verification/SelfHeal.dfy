/** A server that is told of a block too far ahead gets what it lacks from a connected peer. */
module SelfHeal {
  import opened Basics
  import opened Ledger
  import opened Node
  import opened Network
  import opened SingleCreator

  lemma {:induction false} FanReaches(targets: seq<nat>, msg: Msg, t: nat) returns (k: nat)
    requires t in targets
    ensures k < |Fan(targets, msg)| && Fan(targets, msg)[k] == Packet(t, msg)
    decreases |targets|
  {
    if targets[0] == t {
      k := 0;
    } else {
      var i := FanReaches(targets[1..], msg, t);
      k := i + 1;
    }
  }

  /** `r` and `q` are connected, `r` has subscribed to `q`, and both are running. */
  ghost predicate Paired(cfg: Config, net: Net, r: nat, q: nat) {
    && |net.nodes| == |cfg.links|
    && r != q && Live(net, r) && Live(net, q)
    && q in cfg.links[r] && r in cfg.links[q]
    && r in net.nodes[q].peers && net.nodes[q].peers[r] == r
    && Height(net.nodes[q].chain.blocks) < TWO_32 - 1
  }

  /** First delivery: the block is out of sync, and a request goes out. */
  lemma Asks(cfg: Config, net: Net, k: nat, r: nat, q: nat) returns (k2: nat)
    requires AllKept(cfg, net) && Paired(cfg, net, r, q)
    requires k < |net.flight| && net.flight[k].to == r && net.flight[k].msg.BlockMsg?
    requires net.flight[k].msg.block.header.height > |net.nodes[r].chain.blocks|
    ensures Sized(cfg, net)
    ensures var net1 := Apply(cfg, net, Deliver(k));
            && net1.nodes == net.nodes
            && k2 < |net1.flight|
            && net1.flight[k2] == Packet(q, GetBlocks(r, |net.nodes[r].chain.blocks|))
  {
    hide UniqueHashes, InStep, RunTxs, PoolKept, HashTaken, BlockVerifies, Validate;
    hide HandleTx, HandleGetBlocks, ApplyBlocks;
    AllKeptSized(cfg, net);
    var n, b := net.nodes[r], net.flight[k].msg.block;
    assert Kept(cfg.scheme, n);
    ValidateLinked(cfg.scheme, n.chain.blocks, b);
    assert After(n, AddBlock(cfg.scheme, n.chain, b, Wire)) == n;
    var ask := GetBlocks(r, |n.chain.blocks|);
    assert Reply(cfg, net, r, net.flight[k].msg) == Reaction(n, Broadcast(ask));
    var i := FanReaches(cfg.links[r], ask, q);
    k2 := |net.flight| - 1 + i;
    assert net.nodes[r := n] == net.nodes;
  }

  /** Second delivery: the peer answers with its blocks. */
  lemma Answers(cfg: Config, net: Net, k: nat, r: nat, q: nat, start: UInt32)
    requires AllKept(cfg, net) && Paired(cfg, net, r, q)
    requires k < |net.flight| && net.flight[k] == Packet(q, GetBlocks(r, start))
    ensures Sized(cfg, net)
    ensures var net1 := Apply(cfg, net, Deliver(k));
            && net1.nodes == net.nodes
            && net1.flight == Without(net.flight, k) + [Packet(r, Blocks(Collect(net.nodes[q].chain.blocks, start)))]
  {
    hide Kept, Collect, HandleTx, HandleBlock, ApplyBlocks;
    AllKeptSized(cfg, net);
    assert net.nodes[q := net.nodes[q]] == net.nodes;
  }

  /** A block from too far ahead is in flight to `r`, which can ask `q`; the creator has not leaked. */
  ghost predicate Behind(cfg: Config, net: Net, c: nat, k: nat, r: nat, q: nat) {
    && c < |net.nodes| && !net.nodes[c].log.leaked && Paired(cfg, net, r, q)
    && k < |net.flight| && net.flight[k].to == r && net.flight[k].msg.BlockMsg?
    && net.flight[k].msg.block.header.height > |net.nodes[r].chain.blocks|
  }

  /** Delivering the block, then the request it triggers to `q`, then `q`'s answer. */
  lemma Heals(cfg: Config, c: nat, net: Net, k: nat, r: nat, q: nat) returns (k2: nat, k3: nat)
    requires AllKept(cfg, net) && Following(net, c) && Healthy(net, c) && Behind(cfg, net, c, k, r, q)
    ensures var net' := Run(cfg, net, [Deliver(k), Deliver(k2), Deliver(k3)]);
            && net'.nodes[r].chain.blocks == Longer(net.nodes[r].chain.blocks, net.nodes[q].chain.blocks)
            && Live(net', r)
  {
    hide Kept, Linked, UniqueHashes, InStep;
    k2 := Asks(cfg, net, k, r, q);
    var net1 := Apply(cfg, net, Deliver(k));
    ApplyKept(cfg, net, Deliver(k));
    var start: UInt32 := |net.nodes[r].chain.blocks|;
    Answers(cfg, net1, k2, r, q, start);
    var net2 := Apply(cfg, net1, Deliver(k2));
    ApplyKept(cfg, net1, Deliver(k2));
    k3 := |net2.flight| - 1;
    Receives(cfg, c, net, net2, k3, r, q, start);
    ThreeSteps(cfg, net, Deliver(k), Deliver(k2), Deliver(k3));
  }

  /**
   Self healing.  In every reachable state of every single-creator run whose creator has not leaked, whenever a
   block from too far ahead is in flight to `r`, three deliveries leave `r` running with the longer of
   its own chain and that of a peer `q`.
   */
  lemma HealsInEveryRun(cfg: Config, c: nat, steps: seq<Step>, k: nat, r: nat, q: nat) returns (k2: nat, k3: nat)
    requires |cfg.links| == |cfg.keys| && c < |cfg.links| && OnlyCreator(steps, c)
    ensures AllKept(cfg, Start(cfg))
    ensures var net := Run(cfg, Start(cfg), steps);
            var net' := Run(cfg, net, [Deliver(k), Deliver(k2), Deliver(k3)]);
            Behind(cfg, net, c, k, r, q) ==>
              && net'.nodes[r].chain.blocks == Longer(net.nodes[r].chain.blocks, net.nodes[q].chain.blocks)
              && Live(net', r)
  {
    hide Kept, Following, Healthy, Behind;
    StartKept(cfg);
    StartFollows(cfg, c);
    RunFollows(cfg, Start(cfg), c, steps);
    RunHealthy(cfg, Start(cfg), c, steps);
    k2, k3 := 0, 0;
    if Behind(cfg, Run(cfg, Start(cfg), steps), c, k, r, q) {
      k2, k3 := Heals(cfg, c, Run(cfg, Start(cfg), steps), k, r, q);
    }
  }

  /** Third delivery: the answer is applied. */
  lemma Receives(cfg: Config, c: nat, net: Net, net2: Net, k3: nat, r: nat, q: nat, start: UInt32)
    requires AllKept(cfg, net) && Following(net, c) && Healthy(net, c) && !net.nodes[c].log.leaked
    requires Paired(cfg, net, r, q) && start <= |net.nodes[r].chain.blocks|
    requires net2.nodes == net.nodes && k3 < |net2.flight|
    requires net2.flight[k3] == Packet(r, Blocks(Collect(net.nodes[q].chain.blocks, start)))
    ensures Sized(cfg, net2)
    ensures var net' := Apply(cfg, net2, Deliver(k3));
            && net'.nodes[r].chain.blocks == Longer(net.nodes[r].chain.blocks, net.nodes[q].chain.blocks)
            && Live(net', r)
  {
    hide Kept, PacketOk, ApplyBlocks, Collect, InStep, HandleTx, HandleBlock, HandleGetBlocks;
    assert AllKept(cfg, net2);
    AllKeptSized(cfg, net2);
    SameStateExtends(net);
    CatchUpLater(cfg, c, net, q, r, start, net);
  }

  lemma SameStateExtends(net: Net)
    ensures Extends(net, net)
  {
  }

  lemma ThreeSteps(cfg: Config, net: Net, a: Step, b: Step, d: Step)
    requires AllKept(cfg, net)
    ensures var n1 := Run(cfg, net, [a]);
            var n2 := Run(cfg, net, [a, b]);
            Sized(cfg, net) && Sized(cfg, n1) && Sized(cfg, n2)
            && n1 == Apply(cfg, net, a) && n2 == Apply(cfg, n1, b) && Run(cfg, net, [a, b, d]) == Apply(cfg, n2, d)
  {
    hide Apply, Kept, AllKept, Sized, Extends;
    RunSnoc(cfg, net, [], a);
    RunSnoc(cfg, net, [a], b);
    RunSnoc(cfg, net, [a, b], d);
    assert [] + [a] == [a] && [a] + [b] == [a, b] && [a, b] + [d] == [a, b, d];
  }
}
