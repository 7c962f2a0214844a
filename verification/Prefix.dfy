/**
 Prefix agreement with one creator, whatever else is forged: requests, subscriptions, statuses and transactions of
 any kind, and blocks as long as they are copies of the creator's own.
 */
module Prefix {
  import opened Basics
  import opened Ledger
  import opened Node
  import opened Network
  import opened SingleCreator

  /** Every block in the message is on `main`. */
  ghost predicate Carries(main: seq<Block>, msg: Msg) {
    && (msg.BlockMsg? ==> On(main, msg.block))
    && (msg.Blocks? ==> forall j :: 0 <= j < |msg.blocks| ==> On(main, msg.blocks[j]))
  }

  /** Chains are prefixes of the creator's, and blocks in flight are on it. */
  ghost predicate Prefixed(net: Net, c: nat) {
    && c < |net.nodes|
    && (forall i :: 0 <= i < |net.nodes| ==> net.nodes[i].chain.blocks <= Main(net, c))
    && (forall k :: 0 <= k < |net.flight| ==> Carries(Main(net, c), net.flight[k].msg))
  }

  /** Only `c` creates blocks, and an injected message carries only blocks that `c` has at that moment. */
  ghost predicate Genuine(cfg: Config, c: nat, steps: seq<Step>)
    requires AllKept(cfg, Start(cfg)) && c < |cfg.links|
    decreases |steps|
  {
    steps != [] ==>
      var init, last := steps[..|steps| - 1], steps[|steps| - 1];
      && Genuine(cfg, c, init)
      && (last.CreateBlock? ==> last.at == c)
      && (last.Inject? ==> Carries(Main(Run(cfg, Start(cfg), init), c), last.packet.msg))
  }

  // ---- One reaction ----

  ghost predicate Sends(main: seq<Block>, e: Effect) {
    e != Silent ==> Carries(main, e.msg)
  }

  lemma BlockPrefixed(s: Scheme, self: nat, n: Node, main: seq<Block>, b: Block)
    requires Kept(s, n) && n.chain.blocks <= main && On(main, b)
    ensures var r := HandleBlock(s, self, n, b); r.node.chain.blocks <= main && Sends(main, r.effect)
  {
    hide AddBlock, On, Linked, UniqueHashes, InStep, PoolKept, AnnouncedOnce, Continues, RunTxs, HashTaken;
    KeptLinked(s, n);
    AddFollows(s, n.chain, b, main);
    BlockTakenExactly(s, self, n, b);
  }

  lemma AnswerPrefixed(s: Scheme, n: Node, main: seq<Block>, r: nat, start: UInt32)
    requires Linked(s, n.chain.blocks) && n.chain.blocks <= main
    ensures var out := HandleGetBlocks(n, r, start); out.node.chain == n.chain && Sends(main, out.effect)
  {
    hide Linked, On;
    CollectStretch(s, n.chain.blocks, main, start);
  }

  lemma TxPrefixed(s: Scheme, n: Node, main: seq<Block>, tx: Tx)
    ensures var r := HandleTx(s, n, tx); r.node.chain == n.chain && Sends(main, r.effect)
  {
  }

  lemma HandlePrefixed(s: Scheme, self: nat, links: seq<nat>, n: Node, main: seq<Block>, msg: Msg)
    requires Kept(s, n) && n.chain.blocks <= main && Carries(main, msg)
    ensures var r := Handle(s, self, links, n, msg); r.node.chain.blocks <= main && Sends(main, r.effect)
  {
    hide Kept, HandleBlock, HandleGetBlocks, HandleTx, ApplyBlocks, On, Linked;
    KeptLinked(s, n);
    match msg
    case TxMsg(tx) => TxPrefixed(s, n, main, tx);
    case BlockMsg(b) => BlockPrefixed(s, self, n, main, b);
    case GetBlocks(r, start) => AnswerPrefixed(s, n, main, r, start);
    case Blocks(bs) => ApplyFollows(s, n.chain, bs, main);
    case _ =>
  }

  // ---- Every step ----

  lemma CarriesLonger(main: seq<Block>, main': seq<Block>, msg: Msg)
    requires Carries(main, msg) && main <= main'
    ensures Carries(main', msg)
  {
  }

  lemma EmitCarries(main: seq<Block>, links: seq<nat>, e: Effect)
    requires Sends(main, e)
    ensures forall k :: 0 <= k < |Emit(links, e)| ==> Carries(main, Emit(links, e)[k].msg)
  {
    hide Carries;
    if e.Broadcast? {
      FanOnly(links, e.msg);
    }
  }

  /** `main'` is the creator's chain after the reaction. */
  lemma ReactPrefixed(cfg: Config, net: Net, c: nat, i: nat, r: Reaction, main': seq<Block>)
    requires Prefixed(net, c) && i < |net.nodes| == |cfg.links|
    requires Main(net, c) <= main' && main' == (if i == c then r.node.chain.blocks else Main(net, c))
    requires r.node.chain.blocks <= main' && Sends(main', r.effect)
    ensures Prefixed(React(cfg, net, i, r), c)
  {
    hide Carries, Sends, Emit;
    var net' := React(cfg, net, i, r);
    EmitCarries(main', cfg.links[i], r.effect);
    forall k | 0 <= k < |net'.flight| ensures Carries(main', net'.flight[k].msg) {
      if k < |net.flight| {
        CarriesLonger(Main(net, c), main', net.flight[k].msg);
      } else {
        assert net'.flight[k] == Emit(cfg.links[i], r.effect)[k - |net.flight|];
      }
    }
  }

  lemma CreatePrefixed(cfg: Config, net: Net, c: nat, timestamp: nat, nonce: nat)
    requires AllKept(cfg, net) && Prefixed(net, c)
    ensures Sized(cfg, net)
    ensures Prefixed(React(cfg, net, c, Create(cfg.scheme, net.nodes[c], cfg.keys[c], timestamp, nonce)), c)
  {
    AllKeptSized(cfg, net);
    var s, n := cfg.scheme, net.nodes[c];
    var b := Draft(s, n, cfg.keys[c], timestamp, nonce);
    var r := Create(s, n, cfg.keys[c], timestamp, nonce);
    assert Kept(s, n);
    KeptLinked(s, n);
    AddKeepsLinked(s, n.chain, b, Local);
    hide Kept, AddBlock, Draft, Linked, Prefixed;
    ReactPrefixed(cfg, net, c, c, r, r.node.chain.blocks);
  }

  lemma DeliverPrefixed(cfg: Config, net: Net, c: nat, k: nat)
    requires AllKept(cfg, net) && Prefixed(net, c) && Enabled(net, Deliver(k))
    ensures Sized(cfg, net)
    ensures Prefixed(Apply(cfg, net, Deliver(k)), c)
  {
    hide Kept, Handle, Carries, Emit;
    AllKeptSized(cfg, net);
    var p := net.flight[k];
    HandlePrefixed(cfg.scheme, p.to, cfg.links[p.to], net.nodes[p.to], Main(net, c), p.msg);
    HandleKept(cfg.scheme, p.to, cfg.links[p.to], net.nodes[p.to], p.msg);
    ReactPrefixed(cfg, net.(flight := Without(net.flight, k)), c, p.to, Reply(cfg, net, p.to, p.msg), Main(net, c));
  }

  lemma StepPrefixed(cfg: Config, net: Net, c: nat, st: Step)
    requires AllKept(cfg, net) && Prefixed(net, c)
    requires (st.CreateBlock? ==> st.at == c) && (st.Inject? ==> Carries(Main(net, c), st.packet.msg))
    ensures Sized(cfg, net)
    ensures Prefixed(Apply(cfg, net, st), c)
  {
    AllKeptSized(cfg, net);
    hide Kept, Handle, HandleTx, Create, Emit, Carries, Prefixed, Sends, SubscribeTo;
    if Enabled(net, st) {
      var main := Main(net, c);
      match st
      case CreateBlock(i, timestamp, nonce) => CreatePrefixed(cfg, net, c, timestamp, nonce);
      case Deliver(k) => DeliverPrefixed(cfg, net, c, k);
      case Lose(k) => FlightPrefixed(net, c, Without(net.flight, k));
      case Submit(i, tx) =>
        ChainPrefixed(net, c, i);
        TxPrefixed(cfg.scheme, net.nodes[i], main, tx);
        ReactPrefixed(cfg, net, c, i, HandleTx(cfg.scheme, net.nodes[i], tx), main);
      case Subscribe(i, leader) =>
        ChainPrefixed(net, c, i);
        AsksPrefixed(main, i, cfg.links[i], net.nodes[i], leader);
        ReactPrefixed(cfg, net, c, i, SubscribeTo(i, cfg.links[i], net.nodes[i], leader), main);
      case AskStatus(i) =>
        ChainPrefixed(net, c, i);
        AsksPrefixed(main, i, cfg.links[i], net.nodes[i], i);
        ReactPrefixed(cfg, net, c, i, Reaction(net.nodes[i], Broadcast(StatusRequest(i))), main);
      case Inject(p) => FlightPrefixed(net, c, net.flight + [p]);
    }
  }

  lemma ChainPrefixed(net: Net, c: nat, i: nat)
    requires Prefixed(net, c) && i < |net.nodes|
    ensures c < |net.nodes| && net.nodes[i].chain.blocks <= Main(net, c)
  {
  }

  lemma FlightPrefixed(net: Net, c: nat, flight: seq<Packet>)
    requires Prefixed(net, c)
    requires forall p :: p in flight ==> p in net.flight || Carries(Main(net, c), p.msg)
    ensures Prefixed(net.(flight := flight), c)
  {
    hide Carries;
    forall k | 0 <= k < |flight| ensures Carries(Main(net, c), flight[k].msg) {
      assert flight[k] in flight;
    }
  }

  lemma AsksPrefixed(main: seq<Block>, i: nat, links: seq<nat>, n: Node, leader: nat)
    ensures var r := SubscribeTo(i, links, n, leader); r.node.chain == n.chain && Sends(main, r.effect)
    ensures Sends(main, Broadcast(StatusRequest(i)))
  {
  }

  // ---- Every run ----

  lemma {:induction false} RunPrefixed(cfg: Config, c: nat, steps: seq<Step>)
    requires AllKept(cfg, Start(cfg)) && c < |cfg.links| && Genuine(cfg, c, steps)
    ensures Prefixed(Run(cfg, Start(cfg), steps), c)
    decreases |steps|
  {
    hide Kept, Apply, Carries;
    if steps != [] {
      var init := steps[..|steps| - 1];
      RunPrefixed(cfg, c, init);
      StepPrefixed(cfg, Run(cfg, Start(cfg), init), c, steps[|steps| - 1]);
    }
  }

  /** Runs without forged messages about blocks are among these. */
  lemma {:induction false} OnlyCreatorIsGenuine(cfg: Config, c: nat, steps: seq<Step>)
    requires AllKept(cfg, Start(cfg)) && c < |cfg.links| && OnlyCreator(steps, c)
    ensures Genuine(cfg, c, steps)
    decreases |steps|
  {
    hide AllKept, Start, Run;
    if steps != [] {
      assert Permitted(steps[|steps| - 1], c);
      OnlyCreatorIsGenuine(cfg, c, steps[..|steps| - 1]);
    }
  }

  /**
   Prefix agreement.  In every run from the start in which only server `c` creates blocks and no forged message carries
   a block that is not its own, with messages lost or delivered in any order, every server's chain is a prefix of the
   creator's and every block in flight is the creator's block at that block's height.
   */
  lemma PrefixAgreement(cfg: Config, c: nat, steps: seq<Step>)
    requires AllKept(cfg, Start(cfg)) && c < |cfg.links| && Genuine(cfg, c, steps)
    ensures var net := Run(cfg, Start(cfg), steps);
            var main := net.nodes[c].chain.blocks;
            && (forall i :: 0 <= i < |net.nodes| ==> net.nodes[i].chain.blocks <= main)
            && (forall k :: 0 <= k < |net.flight| && net.flight[k].msg.BlockMsg? ==> On(main, net.flight[k].msg.block))
            && (forall k :: 0 <= k < |net.flight| && net.flight[k].msg.Blocks? ==>
                  forall j :: 0 <= j < |net.flight[k].msg.blocks| ==> On(main, net.flight[k].msg.blocks[j]))
  {
    hide Kept, Run, Start, On, Genuine;
    RunPrefixed(cfg, c, steps);
    var net := Run(cfg, Start(cfg), steps);
    forall k | 0 <= k < |net.flight| ensures Carries(Main(net, c), net.flight[k].msg) {}
  }
}
