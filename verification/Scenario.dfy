/**
 Runs in which a creator makes two blocks and the second arrives somewhere before the first, for every scheme
 whose signatures verify and whose hash tells the three headers involved apart.
 */
module Scenario {
  import opened Basics
  import opened Ledger
  import opened Node
  import opened Network
  import opened SingleCreator
  import opened Quiet
  import PoolSpec

  /** The creator's key, and the time and the signature's randomness of its two blocks. */
  datatype Draws = Draws(key: nat, t1: nat, n1: nat, t2: nat, n2: nat)

  function First(s: Scheme, d: Draws): Block {
    Sign(s, NewBlock(s, GENESIS.header, [], d.t1), d.key, d.n1)
  }

  function Second(s: Scheme, d: Draws): Block {
    Sign(s, NewBlock(s, First(s, d).header, [], d.t2), d.key, d.n2)
  }

  /** Signatures verify, and the genesis and the two blocks have different hashes. */
  ghost predicate Works(s: Scheme, d: Draws) {
    var g, a, b := HeaderHash(s, GENESIS.header), HeaderHash(s, First(s, d).header), HeaderHash(s, Second(s, d).header);
    SignaturesVerify(s) && g != a && g != b && a != b
  }

  /** A server with these blocks, peers, and made and announced blocks, and nothing pending. */
  function Srv(blocks: seq<Block>, peers: map<nat, nat>, made: seq<Block>, announced: seq<UInt32>): Node {
    Node(Chain(blocks, map[]), PoolSpec.Empty(POOL_MAX), peers, false, Log([], made, announced, false))
  }

  // ---- The two blocks ----

  lemma FirstIs(s: Scheme, d: Draws)
    requires Works(s, d)
    ensures var b := First(s, d);
            && b.txs == [] && b.header.height == 1 && b.header.prevHash == HeaderHash(s, GENESIS.header)
            && BlockVerifies(s, b)
  {
    SignedBlockVerifies(s, GENESIS.header, [], d.key, d.t1, d.n1);
  }

  lemma SecondIs(s: Scheme, d: Draws)
    requires Works(s, d)
    ensures var b := Second(s, d);
            && b.txs == [] && b.header.height == 2 && b.header.prevHash == HeaderHash(s, First(s, d).header)
            && BlockVerifies(s, b)
  {
    FirstIs(s, d);
    SignedBlockVerifies(s, First(s, d).header, [], d.key, d.t2, d.n2);
  }

  lemma OneLinked(s: Scheme)
    ensures Linked(s, [GENESIS])
  {
  }

  lemma TwoLinked(s: Scheme, d: Draws)
    requires Works(s, d)
    ensures Linked(s, [GENESIS, First(s, d)])
  {
    hide BlockVerifies, First;
    FirstIs(s, d);
  }

  lemma AddFirst(s: Scheme, d: Draws, origin: Origin)
    requires Works(s, d)
    ensures AddBlock(s, FRESH, First(s, d), origin) == AddResult(Added, Chain([GENESIS, First(s, d)], map[]))
  {
    hide BlockVerifies, First, AddBlock, Validate;
    FirstIs(s, d);
    OneLinked(s);
    ValidateLinked(s, [GENESIS], First(s, d));
    AddAccepted(s, FRESH, First(s, d), origin);
    assert [GENESIS] + [First(s, d)] == [GENESIS, First(s, d)];
  }

  lemma AddSecond(s: Scheme, d: Draws, origin: Origin)
    requires Works(s, d)
    ensures AddBlock(s, Chain([GENESIS, First(s, d)], map[]), Second(s, d), origin)
         == AddResult(Added, Chain([GENESIS, First(s, d), Second(s, d)], map[]))
  {
    hide BlockVerifies, First, Second, AddBlock, Validate;
    SecondIs(s, d);
    TwoLinked(s, d);
    var c := Chain([GENESIS, First(s, d)], map[]);
    ValidateLinked(s, c.blocks, Second(s, d));
    AddAccepted(s, c, Second(s, d), origin);
    assert c.blocks + [Second(s, d)] == [GENESIS, First(s, d), Second(s, d)];
  }

  // ---- Reactions ----

  lemma FirstMade(s: Scheme, d: Draws, peers: map<nat, nat>)
    requires Works(s, d)
    ensures Create(s, Srv([GENESIS], peers, [], []), d.key, d.t1, d.n1)
         == Reaction(Srv([GENESIS, First(s, d)], peers, [First(s, d)], [1]), Broadcast(BlockMsg(First(s, d))))
  {
    var n := Srv([GENESIS], peers, [], []);
    assert Draft(s, n, d.key, d.t1, d.n1) == First(s, d);
    hide AddBlock, Draft, First;
    FirstIs(s, d);
    AddFirst(s, d, Local);
  }

  lemma SecondMade(s: Scheme, d: Draws, peers: map<nat, nat>)
    requires Works(s, d)
    ensures var a, b := First(s, d), Second(s, d);
            Create(s, Srv([GENESIS, a], peers, [a], [1]), d.key, d.t2, d.n2)
            == Reaction(Srv([GENESIS, a, b], peers, [a, b], [1, 2]), Broadcast(BlockMsg(b)))
  {
    var a, b := First(s, d), Second(s, d);
    var n := Srv([GENESIS, a], peers, [a], [1]);
    assert Draft(s, n, d.key, d.t2, d.n2) == b;
    hide AddBlock, Draft, First, Second;
    SecondIs(s, d);
    AddSecond(s, d, Local);
    assert [a] + [b] == [a, b];
  }

  /** A server with only the genesis asks all its connections for blocks when the second block arrives. */
  lemma SecondTooEarly(s: Scheme, d: Draws, self: nat, links: seq<nat>, peers: map<nat, nat>)
    requires Works(s, d)
    ensures var n := Srv([GENESIS], peers, [], []);
            Handle(s, self, links, n, BlockMsg(Second(s, d))) == Reaction(n, Broadcast(GetBlocks(self, 1)))
  {
    SecondIs(s, d);
    hide First, Second, BlockVerifies;
    assert Validate(s, [GENESIS], Second(s, d)) == OutOfSync(2);
  }

  /** It takes the first block and passes it on. */
  lemma FirstTaken(s: Scheme, d: Draws, self: nat, links: seq<nat>, peers: map<nat, nat>)
    requires Works(s, d)
    ensures Handle(s, self, links, Srv([GENESIS], peers, [], []), BlockMsg(First(s, d)))
         == Reaction(Srv([GENESIS, First(s, d)], peers, [], [1]), Broadcast(BlockMsg(First(s, d))))
  {
    FirstIs(s, d);
    AddFirst(s, d, Wire);
    hide First, AddBlock;
  }

  /** Once it has both, the first is old news. */
  lemma FirstTooLate(s: Scheme, d: Draws, self: nat, links: seq<nat>, peers: map<nat, nat>)
    requires Works(s, d)
    ensures var n := Srv([GENESIS, First(s, d), Second(s, d)], peers, [], []);
            Handle(s, self, links, n, BlockMsg(First(s, d))) == Reaction(n, Silent)
  {
    FirstIs(s, d);
    hide First, Second, BlockVerifies;
    assert Validate(s, [GENESIS, First(s, d), Second(s, d)], First(s, d)) == AlreadyHas;
  }

  /** A response with both is applied, and nothing is said. */
  lemma BothApplied(s: Scheme, d: Draws, self: nat, links: seq<nat>, peers: map<nat, nat>)
    requires Works(s, d)
    ensures Handle(s, self, links, Srv([GENESIS], peers, [], []), Blocks([First(s, d), Second(s, d)]))
         == Reaction(Srv([GENESIS, First(s, d), Second(s, d)], peers, [], []), Silent)
  {
    var a, b := First(s, d), Second(s, d);
    FirstIs(s, d);
    SecondIs(s, d);
    AddFirst(s, d, Wire);
    AddSecond(s, d, Wire);
    hide First, Second, AddBlock;
    assert [a, b][1..] == [b] && [b][1..] == [];
    assert ApplyBlocks(s, Chain([GENESIS, a, b], map[]), []) == AddResult(Added, Chain([GENESIS, a, b], map[]));
    assert ApplyBlocks(s, Chain([GENESIS, a], map[]), [b]) == AddResult(Added, Chain([GENESIS, a, b], map[]));
  }

  // ---- Runs, step by step ----

  /** A run without losses in which only `c` creates blocks has led from `from` to `net`. */
  ghost predicate Reached(cfg: Config, c: nat, from: Net, steps: seq<Step>, net: Net) {
    AllKept(cfg, from) && Run(cfg, from, steps) == net && OnlyCreator(steps, c) && NoLosses(steps)
  }

  lemma NotMoved(cfg: Config, c: nat, from: Net)
    requires AllKept(cfg, from)
    ensures Reached(cfg, c, from, [], from)
  {
  }

  lemma Further(cfg: Config, c: nat, from: Net, steps: seq<Step>, net: Net, st: Step, next: Net)
    requires Reached(cfg, c, from, steps, net) && Permitted(st, c) && !st.Lose?
    requires Sized(cfg, net) && Apply(cfg, net, st) == next
    ensures Reached(cfg, c, from, steps + [st], next)
  {
    hide Apply, Kept, Permitted;
    RunSnoc(cfg, from, steps, st);
  }

  /** Message `k` is delivered, and its receiver reacts with `r`. */
  lemma Delivers(cfg: Config, c: nat, from: Net, steps: seq<Step>, net: Net, k: nat, r: Reaction, next: Net)
    requires Reached(cfg, c, from, steps, net) && Sized(cfg, net) && Enabled(net, Deliver(k))
    requires var p := net.flight[k];
             && Reply(cfg, net, p.to, p.msg) == r
             && next == Net(net.nodes[p.to := r.node], Without(net.flight, k) + Emit(cfg.links[p.to], r.effect))
    ensures Reached(cfg, c, from, steps + [Deliver(k)], next)
  {
    hide Reply, Emit, Reached;
    Further(cfg, c, from, steps, net, Deliver(k), next);
  }

  lemma Creates(cfg: Config, c: nat, from: Net, steps: seq<Step>, net: Net, t: nat, nonce: nat, r: Reaction, next: Net)
    requires Reached(cfg, c, from, steps, net) && Sized(cfg, net) && Live(net, c)
    requires Create(cfg.scheme, net.nodes[c], cfg.keys[c], t, nonce) == r
    requires next == Net(net.nodes[c := r.node], net.flight + Emit(cfg.links[c], r.effect))
    ensures Reached(cfg, c, from, steps + [CreateBlock(c, t, nonce)], next)
  {
    hide Create, Emit, Reached;
    Further(cfg, c, from, steps, net, CreateBlock(c, t, nonce), next);
  }
}
