/**
 What a network agrees on once it is quiet.  Blocks that a server learns from a response are never passed on, so
 only servers connected to the creator itself can count on ending up with its whole chain.
 */
module Quiet {
  import opened Basics
  import opened Ledger
  import opened Node
  import opened Network
  import opened SingleCreator
  import SelfHeal
  import VmSpec

  /** `i` and the creator are connected. */
  predicate Direct(cfg: Config, c: nat, i: nat) {
    c != i && c < |cfg.links| && i < |cfg.links| && i in cfg.links[c] && c in cfg.links[i]
  }

  predicate Level(net: Net, c: nat, i: nat) {
    c < |net.nodes| && i < |net.nodes| && net.nodes[i].chain.blocks == Main(net, c)
  }

  /** The message will bring `i` to the tip of `main`, or make it or the creator send one that will. */
  predicate Helps(main: seq<Block>, c: nat, i: nat, p: Packet)
    requires main != []
  {
    var tip := main[|main| - 1];
    || (p.to == i && p.msg.BlockMsg? && p.msg.block == tip)
    || (p.to == c && p.msg.GetBlocks? && p.msg.requestor == i)
    || (p.to == i && p.msg.Blocks? && p.msg.blocks != [] && p.msg.blocks[|p.msg.blocks| - 1] == tip)
  }

  /** `i` has the creator's whole chain, or help is on its way. */
  ghost predicate InTouch(net: Net, c: nat, i: nat) {
    && c < |net.nodes| && i < |net.nodes| && Main(net, c) != [] && i in net.nodes[c].peers
    && (Level(net, c, i) || exists k :: 0 <= k < |net.flight| && Helps(Main(net, c), c, i, net.flight[k]))
  }

  // ---- What a step leaves alone ----

  lemma PeersStay(s: Scheme, self: nat, links: seq<nat>, n: Node, msg: Msg)
    ensures n.peers.Keys <= Handle(s, self, links, n, msg).node.peers.Keys
  {
    hide AddBlock, ApplyBlocks, TxVerifies;
  }

  lemma PeersStayCreating(s: Scheme, n: Node, key: nat, timestamp: nat, nonce: nat)
    requires n.chain.blocks != []
    ensures Create(s, n, key, timestamp, nonce).node.peers == n.peers
  {
    hide AddBlock, Draft;
  }

  lemma PeersStayTx(s: Scheme, n: Node, tx: Tx)
    ensures HandleTx(s, n, tx).node.peers == n.peers
  {
  }

  /** No step makes a server forget a peer or that it leaked. */
  lemma StepRemembers(cfg: Config, net: Net, st: Step, i: nat)
    requires Sized(cfg, net) && i < |net.nodes|
    ensures var net' := Apply(cfg, net, st);
            && |net'.nodes| == |net.nodes|
            && net.nodes[i].peers.Keys <= net'.nodes[i].peers.Keys
            && (net.nodes[i].log.leaked ==> net'.nodes[i].log.leaked)
  {
    hide Handle, HandleTx, Create, Emit;
    if Enabled(net, st) {
      match st
      case CreateBlock(j, timestamp, nonce) =>
        PeersStayCreating(cfg.scheme, net.nodes[j], cfg.keys[j], timestamp, nonce);
        LeaksStayCreating(cfg.scheme, net.nodes[j], cfg.keys[j], timestamp, nonce);
      case Deliver(k) =>
        var p := net.flight[k];
        PeersStay(cfg.scheme, p.to, cfg.links[p.to], net.nodes[p.to], p.msg);
        LeaksStay(cfg.scheme, p.to, cfg.links[p.to], net.nodes[p.to], p.msg);
      case Submit(j, tx) =>
        PeersStayTx(cfg.scheme, net.nodes[j], tx);
        TxLeaksNothing(cfg.scheme, net.nodes[j], tx);
      case _ =>
    }
  }

  /** A creator handling messages about its own chain keeps that chain as it is. */
  lemma CreatorStands(cfg: Config, net: Net, c: nat, k: nat)
    requires AllKept(cfg, net) && Sized(cfg, net) && Following(net, c) && Enabled(net, Deliver(k))
    ensures Main(Apply(cfg, net, Deliver(k)), c) == Main(net, c)
  {
    hide Kept, Handle, PacketOk, Emit, Linked;
    var p := net.flight[k];
    if p.to == c {
      assert PacketOk(net.nodes, Main(net, c), p);
      HandleFollows(cfg, net, c, p);
      HandleKept(cfg.scheme, p.to, cfg.links[p.to], net.nodes[p.to], p.msg);
    }
  }

  // ---- Help stays on its way ----

  lemma StaysLevel(net: Net, net': Net, c: nat, i: nat)
    requires Level(net, c, i) && Extends(net, net') && Main(net', c) == Main(net, c)
    requires Following(net', c)
    ensures Level(net', c, i)
  {
    assert net'.nodes[i].chain.blocks <= Main(net', c);
  }

  /** A message not taken from flight is still there, whatever is added behind it. */
  lemma StillThere(flight: seq<Packet>, k: nat, j: nat, more: seq<Packet>)
    requires k < |flight| && j < |flight| && j != k
    ensures flight[j] in Without(flight, k) + more
  {
    var rest := Without(flight, k) + more;
    assert rest[if j < k then j else j - 1] == flight[j];
  }

  lemma FromMember(main: seq<Block>, c: nat, i: nat, p: Packet, flight: seq<Packet>)
    requires main != [] && p in flight && Helps(main, c, i, p)
    ensures exists k :: 0 <= k < |flight| && Helps(main, c, i, flight[k])
  {
    var k :| 0 <= k < |flight| && flight[k] == p;
  }

  // ---- Help arrives ----

  /** The tip arrives: it is the next block, or `i` asks the creator for what it lacks. */
  lemma TipArrives(cfg: Config, net: Net, c: nat, i: nat, k: nat)
    requires AllKept(cfg, net) && Sized(cfg, net) && Following(net, c) && Healthy(net, c) && !net.nodes[c].log.leaked
    requires Direct(cfg, c, i) && Enabled(net, Deliver(k)) && !Level(net, c, i)
    requires net.flight[k].to == i && net.flight[k].msg.BlockMsg?
    requires net.flight[k].msg.block == Main(net, c)[|Main(net, c)| - 1]
    ensures var net' := Apply(cfg, net, Deliver(k));
            || net'.nodes[i].chain.blocks == Main(net, c)
            || exists j :: 0 <= j < |net'.flight| && Helps(Main(net, c), c, i, net'.flight[j])
  {
    hide PacketOk, Linked, UniqueHashes, PoolKept, AnnouncedOnce, HandleBlock, AddBlock, Replay;
    var s, n, main := cfg.scheme, net.nodes[i], Main(net, c);
    var b := main[|main| - 1];
    assert Kept(s, n) && Kept(s, net.nodes[c]);
    TipHeight(s, main);
    BlockTakenExactly(s, i, n, b);
    assert n.chain.blocks <= main && |n.chain.blocks| < |main|;
    var r := HandleBlock(s, i, n, b);
    if b.header.height == |n.chain.blocks| {
      AddNextByBlock(s, i, n, main);
      assert main[..|main|] == main;
    } else {
      var ask := GetBlocks(i, ToUInt32(|n.chain.blocks|));
      assert r.effect == Broadcast(ask);
      var j := SelfHeal.FanReaches(cfg.links[i], ask, c);
      var net' := Apply(cfg, net, Deliver(k));
      assert net'.flight[|net.flight| - 1 + j] == Packet(c, ask);
    }
  }

  lemma TipHeight(s: Scheme, main: seq<Block>)
    requires Linked(s, main)
    ensures main[|main| - 1].header.height == |main| - 1
  {
  }

  lemma AddNextByBlock(s: Scheme, self: nat, n: Node, main: seq<Block>)
    requires Linked(s, main) && UniqueHashes(s, main) && Replay(main).status == VmSpec.Ok
    requires 1 <= |n.chain.blocks| < |main| && n.chain.blocks <= main && InStep(n.chain)
    ensures HandleBlock(s, self, n, main[|n.chain.blocks|]).node.chain.blocks == main[..|n.chain.blocks| + 1]
  {
    hide AddBlock, Linked, UniqueHashes, Replay;
    AddNext(s, n.chain, main);
  }

  /** The request arrives: the creator answers with all the blocks `i` lacks. */
  lemma RequestArrives(cfg: Config, net: Net, c: nat, i: nat, k: nat)
    requires AllKept(cfg, net) && Sized(cfg, net) && Following(net, c)
    requires Direct(cfg, c, i) && Enabled(net, Deliver(k)) && !Level(net, c, i)
    requires i in net.nodes[c].peers && |Main(net, c)| < TWO_32
    requires net.flight[k].to == c && net.flight[k].msg.GetBlocks? && net.flight[k].msg.requestor == i
    ensures var net' := Apply(cfg, net, Deliver(k));
            exists j :: 0 <= j < |net'.flight| && Helps(Main(net, c), c, i, net'.flight[j])
  {
    hide Kept, Linked, HandleTx, HandleBlock, HandleGetBlocks, ApplyBlocks, PlainPeers, Helps;
    var s, main, start := cfg.scheme, Main(net, c), net.flight[k].msg.start;
    assert Kept(s, net.nodes[c]);
    KeptLinked(s, net.nodes[c]);
    assert PacketOk(net.nodes, main, net.flight[k]) && PlainPeers(net.nodes[c]);
    assert net.nodes[i].chain.blocks <= main;
    RequestAnswered(s, net.nodes[c], i, start);
    var answer := Packet(i, Blocks(main[start..]));
    var net' := Apply(cfg, net, Deliver(k));
    assert net'.flight == Without(net.flight, k) + [answer];
    assert Helps(main, c, i, answer) by { AnswerHelps(main, c, i, start); }
    assert net'.flight[|net'.flight| - 1] == answer;
  }

  lemma RequestAnswered(s: Scheme, n: Node, i: nat, start: UInt32)
    requires Linked(s, n.chain.blocks) && |n.chain.blocks| < TWO_32 && PlainPeers(n) && i in n.peers
    requires start < |n.chain.blocks|
    ensures HandleGetBlocks(n, i, start) == Reaction(n, Send(i, Blocks(n.chain.blocks[start..])))
  {
    hide Stretch, On;
    CollectStretch(s, n.chain.blocks, n.chain.blocks, start);
    HeightOf(s, n.chain.blocks);
  }

  lemma AnswerHelps(main: seq<Block>, c: nat, i: nat, start: nat)
    requires start < |main|
    ensures Helps(main, c, i, Packet(i, Blocks(main[start..])))
  {
  }

  lemma HeightOf(s: Scheme, main: seq<Block>)
    requires Linked(s, main)
    ensures Height(main) == |main| - 1
  {
  }

  /** The response arrives and is applied to its end. */
  lemma ResponseArrives(cfg: Config, net: Net, c: nat, i: nat, k: nat)
    requires AllKept(cfg, net) && Sized(cfg, net) && Following(net, c) && Healthy(net, c) && !net.nodes[c].log.leaked
    requires i < |net.nodes| && Enabled(net, Deliver(k)) && net.flight[k].to == i && net.flight[k].msg.Blocks?
    requires net.flight[k].msg.blocks != []
    requires net.flight[k].msg.blocks[|net.flight[k].msg.blocks| - 1] == Main(net, c)[|Main(net, c)| - 1]
    ensures Apply(cfg, net, Deliver(k)).nodes[i].chain.blocks == Main(net, c)
  {
    hide Kept, Linked, Apply, PacketOk;
    var main := Main(net, c);
    assert Kept(cfg.scheme, net.nodes[c]);
    KeptLinked(cfg.scheme, net.nodes[c]);
    TipHeight(cfg.scheme, main);
    DeliverApplies(cfg, net, c, k);
    assert main[..|main|] == main;
    assert net.nodes[i].chain.blocks <= main;
  }

  // ---- Every step ----

  lemma DeliverKeepsTouch(cfg: Config, net: Net, c: nat, i: nat, k: nat)
    requires AllKept(cfg, net) && Sized(cfg, net) && Following(net, c) && Healthy(net, c) && !net.nodes[c].log.leaked
    requires Direct(cfg, c, i) && Enabled(net, Deliver(k)) && InTouch(net, c, i) && |Main(net, c)| < TWO_32
    ensures InTouch(Apply(cfg, net, Deliver(k)), c, i)
  {
    hide Kept, PacketOk, Reply, Emit, Linked, Healthy, Helps;
    var net', main := Apply(cfg, net, Deliver(k)), Main(net, c);
    StepRemembers(cfg, net, Deliver(k), c);
    CreatorStands(cfg, net, c, k);
    if Level(net, c, i) {
      ApplyKept(cfg, net, Deliver(k));
      ApplyStepFollows(cfg, net, c, Deliver(k));
      StaysLevel(net, net', c, i);
    } else {
      var j :| 0 <= j < |net.flight| && Helps(main, c, i, net.flight[j]);
      if j != k {
        var p := net.flight[k];
        StillThere(net.flight, k, j, Emit(cfg.links[p.to], Reply(cfg, net, p.to, p.msg).effect));
        FromMember(main, c, i, net.flight[j], net'.flight);
      } else {
        HelpArrives(cfg, net, c, i, k);
      }
    }
  }

  lemma HelpArrives(cfg: Config, net: Net, c: nat, i: nat, k: nat)
    requires AllKept(cfg, net) && Sized(cfg, net) && Following(net, c) && Healthy(net, c) && !net.nodes[c].log.leaked
    requires Direct(cfg, c, i) && Enabled(net, Deliver(k)) && !Level(net, c, i)
    requires i in net.nodes[c].peers && |Main(net, c)| < TWO_32 && Helps(Main(net, c), c, i, net.flight[k])
    ensures var net' := Apply(cfg, net, Deliver(k));
            || net'.nodes[i].chain.blocks == Main(net, c)
            || exists j :: 0 <= j < |net'.flight| && Helps(Main(net, c), c, i, net'.flight[j])
  {
    hide Kept, PacketOk, Apply, Linked, Healthy;
    if net.flight[k].msg.BlockMsg? {
      TipArrives(cfg, net, c, i, k);
    } else if net.flight[k].msg.GetBlocks? {
      RequestArrives(cfg, net, c, i, k);
    } else {
      ResponseArrives(cfg, net, c, i, k);
    }
  }

  /** A new block goes out to everyone the creator is connected to. */
  lemma CreateGivesTouch(cfg: Config, net: Net, c: nat, i: nat, timestamp: nat, nonce: nat)
    requires AllKept(cfg, net) && Sized(cfg, net) && Direct(cfg, c, i) && i in net.nodes[c].peers && Live(net, c)
    ensures var net' := Apply(cfg, net, CreateBlock(c, timestamp, nonce));
            || InTouch(net', c, i)
            || (Main(net', c) == Main(net, c) && (InTouch(net, c, i) ==> InTouch(net', c, i)))
  {
    hide Kept, AddBlock, Draft;
    var s, n := cfg.scheme, net.nodes[c];
    var net' := Apply(cfg, net, CreateBlock(c, timestamp, nonce));
    var b := Draft(s, n, cfg.keys[c], timestamp, nonce);
    assert Kept(s, n);
    KeptLinked(s, n);
    AddKeepsLinked(s, n.chain, b, Local);
    if AddBlock(s, n.chain, b, Local).status == Added {
      var j := SelfHeal.FanReaches(cfg.links[c], BlockMsg(b), i);
      assert net'.flight[|net.flight| + j] == Packet(i, BlockMsg(b));
    } else {
      assert net'.flight == net.flight;
    }
  }

  lemma FlightGrows(net: Net, net': Net, c: nat, i: nat, more: seq<Packet>)
    requires InTouch(net, c, i) && |net'.nodes| == |net.nodes| && net'.flight == net.flight + more
    requires Main(net', c) == Main(net, c) && net'.nodes[i].chain.blocks == net.nodes[i].chain.blocks
    requires net.nodes[c].peers.Keys <= net'.nodes[c].peers.Keys
    ensures InTouch(net', c, i)
  {
    hide Helps;
    if !Level(net, c, i) {
      var k :| 0 <= k < |net.flight| && Helps(Main(net, c), c, i, net.flight[k]);
      assert net'.flight[k] == net.flight[k];
    }
  }

  lemma StepKeepsTouch(cfg: Config, net: Net, c: nat, i: nat, st: Step)
    requires AllKept(cfg, net) && Sized(cfg, net) && Following(net, c) && Healthy(net, c) && !net.nodes[c].log.leaked
    requires Direct(cfg, c, i) && i in net.nodes[c].peers && |Main(net, c)| < TWO_32
    requires Permitted(st, c) && !st.Lose?
    ensures var net' := Apply(cfg, net, st);
            || InTouch(net', c, i)
            || (Main(net', c) == Main(net, c) && !InTouch(net, c, i))
  {
    hide Kept, PacketOk, Reply, HandleTx, Create, Emit, Healthy, InTouch, Following;
    if Enabled(net, st) {
      var net' := Apply(cfg, net, st);
      match st
      case CreateBlock(j, timestamp, nonce) => CreateGivesTouch(cfg, net, c, i, timestamp, nonce);
      case Deliver(k) =>
        if InTouch(net, c, i) {
          DeliverKeepsTouch(cfg, net, c, i, k);
        } else {
          CreatorStands(cfg, net, c, k);
        }
      case _ =>
        OthersKeepTouch(cfg, net, c, i, st);
    }
  }

  /** Steps that touch no chain and take nothing out of flight. */
  lemma OthersKeepTouch(cfg: Config, net: Net, c: nat, i: nat, st: Step)
    requires Sized(cfg, net) && c < |net.nodes| && i < |net.nodes| && Enabled(net, st)
    requires st.Submit? || st.Subscribe? || st.AskStatus? || st.Inject?
    ensures var net' := Apply(cfg, net, st);
            Main(net', c) == Main(net, c) && (InTouch(net, c, i) ==> InTouch(net', c, i))
  {
    hide HandleTx, Emit, InTouch;
    var net' := Apply(cfg, net, st);
    var more := match st {
      case Submit(j, tx) => Emit(cfg.links[j], HandleTx(cfg.scheme, net.nodes[j], tx).effect)
      case Subscribe(j, leader) => Emit(cfg.links[j], SubscribeTo(j, cfg.links[j], net.nodes[j], leader).effect)
      case AskStatus(j) => Emit(cfg.links[j], Broadcast(StatusRequest(j)))
      case Inject(p) => [p]
      case _ => []
    };
    if st.Submit? {
      TxLeavesChain(cfg.scheme, net.nodes[st.at], st.tx);
    }
    if InTouch(net, c, i) {
      FlightGrows(net, net', c, i, more);
    }
  }

  lemma TxLeavesChain(s: Scheme, n: Node, tx: Tx)
    ensures HandleTx(s, n, tx).node.chain == n.chain && HandleTx(s, n, tx).node.peers == n.peers
  {
  }

  // ---- Every run ----

  ghost predicate NoLosses(steps: seq<Step>) {
    forall k :: 0 <= k < |steps| ==> !steps[k].Lose?
  }

  /** A peer stays in touch, and comes into touch as soon as the creator adds a block. */
  lemma {:induction false} RunKeepsTouch(cfg: Config, net: Net, c: nat, i: nat, steps: seq<Step>)
    requires AllKept(cfg, net) && Following(net, c) && Healthy(net, c) && Direct(cfg, c, i) && i in net.nodes[c].peers
    requires OnlyCreator(steps, c) && NoLosses(steps)
    requires var end := Run(cfg, net, steps); !end.nodes[c].log.leaked && |Main(end, c)| < TWO_32
    ensures i in Run(cfg, net, steps).nodes[c].peers
    ensures InTouch(net, c, i) || |Main(Run(cfg, net, steps), c)| > |Main(net, c)| ==>
              InTouch(Run(cfg, net, steps), c, i)
    decreases |steps|
  {
    hide Kept, Following, Healthy, InTouch, Apply;
    if steps != [] {
      var init, last := steps[..|steps| - 1], steps[|steps| - 1];
      var mid := Run(cfg, net, init);
      assert OnlyCreator(init, c) && NoLosses(init) && Permitted(last, c) && !last.Lose?;
      ApplyKept(cfg, mid, last);
      StepRemembers(cfg, mid, last, c);
      RunKeepsTouch(cfg, net, c, i, init);
      RunFollows(cfg, net, c, init);
      RunHealthy(cfg, net, c, init);
      StepKeepsTouch(cfg, mid, c, i, last);
    }
  }

  // ---- At rest ----

  /** A run from the start, and a second run after it. */
  ghost function EndOf(cfg: Config, before: seq<Step>, after: seq<Step>): Net
    requires AllKept(cfg, Start(cfg))
  {
    Run(cfg, Run(cfg, Start(cfg), before), after)
  }

  /**
   A single-creator run in which `i` has become a peer of the creator.  In a second one no message is lost, and `i`
   was level before it or the creator adds a block in it.  At its end no message to either is in flight, and the
   creator has neither leaked nor reached the greatest height.
   */
  ghost predicate AtRest(cfg: Config, c: nat, i: nat, before: seq<Step>, after: seq<Step>) {
    && c < |cfg.links| && i < |cfg.links| && AllKept(cfg, Start(cfg))
    && OnlyCreator(before, c) && OnlyCreator(after, c) && NoLosses(after)
    && var net, end := Run(cfg, Start(cfg), before), EndOf(cfg, before, after);
       && i in net.nodes[c].peers
       && (Level(net, c, i) || |Main(end, c)| > |Main(net, c)|)
       && !end.nodes[c].log.leaked && Height(Main(end, c)) < TWO_32 - 1
       && forall k :: 0 <= k < |end.flight| ==> end.flight[k].to != i && end.flight[k].to != c
  }

  /** Agreement at rest: a server connected with the creator both ways then has its whole chain. */
  lemma QuietMeansLevel(cfg: Config, c: nat, i: nat, before: seq<Step>, after: seq<Step>)
    requires Direct(cfg, c, i) && AtRest(cfg, c, i, before, after)
    ensures Level(EndOf(cfg, before, after), c, i)
  {
    hide Kept, Following, Healthy, Linked;
    StartFollows(cfg, c);
    var net := Run(cfg, Start(cfg), before);
    var end := Run(cfg, net, after);
    RunFollows(cfg, Start(cfg), c, before);
    RunHealthy(cfg, Start(cfg), c, before);
    AllKeptSized(cfg, net);
    assert Kept(cfg.scheme, end.nodes[c]);
    KeptLinked(cfg.scheme, end.nodes[c]);
    HeightOf(cfg.scheme, Main(end, c));
    RunKeepsTouch(cfg, net, c, i, after);
  }
}
