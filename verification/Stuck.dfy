/**
 A transaction that cannot run is never dropped from the pool: pending transactions all go into one block, and are
 cleared only when it is added.  So one such transaction keeps its server from ever creating a block again.
 */
module Stuck {
  import opened Basics
  import opened Ledger
  import opened Node
  import opened Network
  import PoolSpec
  import VmSpec

  /** The program fails or panics on every contract state. */
  ghost predicate NeverRuns(data: Bytes) {
    forall st :: VmSpec.Run(VmSpec.DEFAULT, data, VmSpec.Machine([], st)).status != VmSpec.Ok
  }

  ghost predicate Blocked(n: Node) {
    exists k :: 0 <= k < |n.pool.pending.list| && NeverRuns(n.pool.pending.list[k].data)
  }

  /** A list with such a transaction in it does not run either, wherever it stands. */
  lemma {:induction false} ListNeverRuns(txs: seq<Tx>, k: nat, st: VmSpec.State)
    requires k < |txs| && NeverRuns(txs[k].data)
    ensures RunTxs(txs, st).status != VmSpec.Ok
    decreases |txs|
  {
    hide NeverRuns;
    var r := VmSpec.Run(VmSpec.DEFAULT, txs[0].data, VmSpec.Machine([], st));
    if k == 0 {
      assert r.status != VmSpec.Ok by { NotOk(txs[0].data, st); }
    } else if r.status == VmSpec.Ok {
      ListNeverRuns(txs[1..], k - 1, r.m.state);
    }
  }

  lemma NotOk(data: Bytes, st: VmSpec.State)
    requires NeverRuns(data)
    ensures VmSpec.Run(VmSpec.DEFAULT, data, VmSpec.Machine([], st)).status != VmSpec.Ok
  {
  }

  lemma CreateStuck(s: Scheme, n: Node, key: nat, timestamp: nat, nonce: nat)
    requires n.chain.blocks != [] && Blocked(n)
    ensures var r := Create(s, n, key, timestamp, nonce);
            r.node.pool == n.pool && r.node.log.made == n.log.made && r.effect == Silent
  {
    var b := Draft(s, n, key, timestamp, nonce);
    DraftTxs(s, n, key, timestamp, nonce);
    var k :| 0 <= k < |n.pool.pending.list| && NeverRuns(n.pool.pending.list[k].data);
    ListNeverRuns(b.txs, k, n.chain.contract);
    hide RunTxs, Validate, Draft, NeverRuns;
  }

  /** No message takes a pending transaction out of the pool, or makes a block. */
  lemma HandleStuck(s: Scheme, self: nat, links: seq<nat>, n: Node, msg: Msg)
    ensures var n' := Handle(s, self, links, n, msg).node;
            n.pool.pending.list <= n'.pool.pending.list && n'.log.made == n.log.made
  {
    hide AddBlock, ApplyBlocks, TxVerifies, PoolSpec.Pruned;
  }

  lemma TxStuck(s: Scheme, n: Node, tx: Tx)
    ensures var n' := HandleTx(s, n, tx).node;
            n.pool.pending.list <= n'.pool.pending.list && n'.log.made == n.log.made
  {
    hide TxVerifies, PoolSpec.Pruned;
  }

  lemma LongerBlocked(n: Node, n': Node)
    requires Blocked(n) && n.pool.pending.list <= n'.pool.pending.list
    ensures Blocked(n')
  {
    hide NeverRuns;
    var k :| 0 <= k < |n.pool.pending.list| && NeverRuns(n.pool.pending.list[k].data);
    assert n'.pool.pending.list[k] == n.pool.pending.list[k];
  }

  lemma StepStuck(cfg: Config, net: Net, i: nat, st: Step)
    requires Sized(cfg, net) && i < |net.nodes| && Blocked(net.nodes[i])
    ensures var n' := Apply(cfg, net, st).nodes[i];
            Blocked(n') && n'.log.made == net.nodes[i].log.made
  {
    hide Handle, HandleTx, Create, Emit, Blocked;
    var n' := Apply(cfg, net, st).nodes[i];
    if Enabled(net, st) {
      match st
      case CreateBlock(j, timestamp, nonce) =>
        if j == i { CreateStuck(cfg.scheme, net.nodes[i], cfg.keys[i], timestamp, nonce); }
      case Deliver(k) =>
        var p := net.flight[k];
        HandleStuck(cfg.scheme, p.to, cfg.links[p.to], net.nodes[p.to], p.msg);
      case Submit(j, tx) => TxStuck(cfg.scheme, net.nodes[j], tx);
      case _ =>
    }
    LongerBlocked(net.nodes[i], n');
  }

  /**
   Once a pending transaction can never run, no later run, whatever arrives in it, makes its server create a block: what
   the server has made stays the same for good.
   */
  lemma {:induction false} StuckForever(cfg: Config, net: Net, i: nat, steps: seq<Step>)
    requires AllKept(cfg, net) && i < |net.nodes| && Blocked(net.nodes[i])
    ensures var n := Run(cfg, net, steps).nodes[i];
            Blocked(n) && n.log.made == net.nodes[i].log.made
    decreases |steps|
  {
    hide Kept, Apply, Blocked;
    if steps != [] {
      var init := steps[..|steps| - 1];
      StuckForever(cfg, net, i, init);
      AllKeptSized(cfg, Run(cfg, net, init));
      StepStuck(cfg, Run(cfg, net, init), i, steps[|steps| - 1]);
    }
  }

  lemma LeakyNeverRuns()
    ensures NeverRuns(LEAKY)
  {
    forall st ensures VmSpec.Run(VmSpec.DEFAULT, LEAKY, VmSpec.Machine([], st)).status != VmSpec.Ok {
      LeakyRuns(st);
    }
  }

  /** One submitted transaction is enough: a server that accepts it as its first creates no block in any run. */
  lemma SubmittedIsStuck(cfg: Config, i: nat, user: nat, nonce: nat, steps: seq<Step>)
    requires |cfg.links| == |cfg.keys| && i < |cfg.links| && SignaturesVerify(cfg.scheme)
    ensures AllKept(cfg, Start(cfg))
    ensures var net := Run(cfg, Start(cfg), [Submit(i, LeakyTx(cfg.scheme, user, nonce))]);
            Run(cfg, net, steps).nodes[i].log.made == []
  {
    hide Kept, HandleTx, NeverRuns, LeakyTx;
    StartKept(cfg);
    var s, tx := cfg.scheme, LeakyTx(cfg.scheme, user, nonce);
    RunSnoc(cfg, Start(cfg), [], Submit(i, tx));
    assert [] + [Submit(i, tx)] == [Submit(i, tx)];
    LeakySubmitted(s, user, nonce);
    LeakyData(s, user, nonce);
    LeakyNeverRuns();
    TxStuck(s, NEW_NODE, tx);
    var net := Run(cfg, Start(cfg), [Submit(i, tx)]);
    assert net.nodes[i] == HandleTx(s, NEW_NODE, tx).node;
    assert net.nodes[i].pool.pending.list[0] == tx;
    StuckForever(cfg, net, i, steps);
  }
}
