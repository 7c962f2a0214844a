/**
 Quiet everywhere is not enough for servers further away: on a line of three the far end can be left behind for good,
 with nothing lost and nothing in flight, although its neighbour has the whole chain.  A block learned from a response
 is not passed on.
 */
module Line {
  import opened Basics
  import opened Ledger
  import opened Node
  import opened Network
  import opened SingleCreator
  import opened Quiet
  import opened Scenario

  /** The creator 0, server 1 in the middle, and server 2 at the far end. */
  function Cfg(s: Scheme, d: Draws): Config {
    Config(s, [[1], [0, 2], [1]], [d.key, d.key, d.key])
  }

  function Three(a: Node, b: Node, c: Node, flight: seq<Packet>): Net {
    Net([a, b, c], flight)
  }

  function Fresh(peers: map<nat, nat>): Node {
    Srv([GENESIS], peers, [], [])
  }

  /** The creator after its two blocks. */
  function Maker(s: Scheme, d: Draws): Node {
    Srv([GENESIS, First(s, d), Second(s, d)], map[1 := 1], [First(s, d), Second(s, d)], [1, 2])
  }

  /** The middle, with the genesis or with everything. */
  function Middle(blocks: seq<Block>): Node {
    Srv(blocks, map[0 := 0, 2 := 2], [], [])
  }

  /** The far end, from its subscription on. */
  function Far(): Node {
    Fresh(map[1 := 1])
  }

  /** A run from the start has led here. */
  ghost predicate Here(s: Scheme, d: Draws, steps: seq<Step>, net: Net) {
    Reached(Cfg(s, d), 0, Start(Cfg(s, d)), steps, net)
  }

  ghost predicate ThreeUp(net: Net) {
    && |net.nodes| == 3
    && forall i :: 0 <= i < 3 ==> net.nodes[i].chain.blocks != [] && !net.nodes[i].halted
  }

  // ---- Steps ----

  /** Delivery of message `k` to server `i`, which reacts with `r`. */
  lemma Hears(s: Scheme, d: Draws, steps: seq<Step>, net: Net, k: nat, i: nat, r: Reaction, out: seq<Packet>, next: Net)
    requires Here(s, d, steps, net) && ThreeUp(net) && k < |net.flight| && net.flight[k].to == i < 3
    requires Handle(s, i, Cfg(s, d).links[i], net.nodes[i], net.flight[k].msg) == r
    requires Emit(Cfg(s, d).links[i], r.effect) == out
    requires next.nodes == net.nodes[i := r.node] && next.flight == Without(net.flight, k) + out
    ensures Here(s, d, steps + [Deliver(k)], next)
  {
    hide Handle, Emit, Reached;
    Delivers(Cfg(s, d), 0, Start(Cfg(s, d)), steps, net, k, r, next);
  }

  lemma Asks(s: Scheme, d: Draws, steps: seq<Step>, net: Net, i: nat, leader: nat, next: Net)
    requires Here(s, d, steps, net) && ThreeUp(net) && i < 3 && leader in Cfg(s, d).links[i]
    requires next.nodes == net.nodes && next.flight == net.flight + [Packet(leader, SubscribeRequest(i, i))]
    ensures Here(s, d, steps + [Subscribe(i, leader)], next)
  {
    hide Reached;
    assert net.nodes[i := net.nodes[i]] == net.nodes;
    Further(Cfg(s, d), 0, Start(Cfg(s, d)), steps, net, Subscribe(i, leader), next);
  }

  lemma Makes(s: Scheme, d: Draws, steps: seq<Step>, net: Net, t: nat, nonce: nat, next: Node, b: Block, after: Net)
    requires Here(s, d, steps, net) && ThreeUp(net)
    requires Create(s, net.nodes[0], d.key, t, nonce) == Reaction(next, Broadcast(BlockMsg(b)))
    requires after.nodes == net.nodes[0 := next] && after.flight == net.flight + [Packet(1, BlockMsg(b))]
    ensures Here(s, d, steps + [CreateBlock(0, t, nonce)], after)
  {
    hide Create, Reached;
    FanOfOne(1, BlockMsg(b));
    Creates(Cfg(s, d), 0, Start(Cfg(s, d)), steps, net, t, nonce, Reaction(next, Broadcast(BlockMsg(b))), after);
  }

  lemma FanOfOne(t: nat, msg: Msg)
    ensures Fan([t], msg) == [Packet(t, msg)]
  {
    assert [t][1..] == [];
  }

  lemma FanOfTwo(t: nat, u: nat, msg: Msg)
    ensures Fan([t, u], msg) == [Packet(t, msg), Packet(u, msg)]
  {
    assert [t, u][1..] == [u];
    FanOfOne(u, msg);
  }

  // ---- Reactions to messages that carry no block ----

  lemma CreatorAnswers(s: Scheme, d: Draws)
    ensures Handle(s, 0, [1], Maker(s, d), GetBlocks(1, 1))
         == Reaction(Maker(s, d), Send(1, Blocks([First(s, d), Second(s, d)])))
  {
    hide First, Second;
    assert [GENESIS, First(s, d), Second(s, d)][1..3] == [First(s, d), Second(s, d)];
  }

  lemma FarEndAnswers(s: Scheme)
    ensures Handle(s, 2, [1], Far(), GetBlocks(1, 1)) == Reaction(Far(), Send(1, Blocks([])))
  {
  }

  lemma NothingApplied(s: Scheme)
    ensures Handle(s, 1, [0, 2], Middle([GENESIS]), Blocks([])) == Reaction(Middle([GENESIS]), Silent)
  {
  }

  lemma Accepts(s: Scheme, d: Draws, i: nat, n: Node, r: nat)
    requires i < 3 && r in Cfg(s, d).links[i]
    ensures Handle(s, i, Cfg(s, d).links[i], n, SubscribeRequest(r, r))
         == Reaction(n.(peers := n.peers[r := r]), Send(r, SubscribeResponse(i)))
    ensures Handle(s, i, Cfg(s, d).links[i], n, SubscribeResponse(r))
         == Reaction(n.(peers := n.peers[r := r]), Silent)
  {
  }

  // ---- The run ----

  /** Server `r` subscribes to `q`, which answers. */
  lemma Subscription(s: Scheme, d: Draws, steps: seq<Step>, net: Net, r: nat, q: nat, asked: Net, done: Net)
    requires Here(s, d, steps, net) && ThreeUp(net) && net.flight == []
    requires r < 3 && q < 3 && r != q && r in Cfg(s, d).links[q] && q in Cfg(s, d).links[r]
    requires asked == Net(net.nodes[q := net.nodes[q].(peers := net.nodes[q].peers[r := r])],
                          [Packet(r, SubscribeResponse(q))])
    requires done == Net(asked.nodes[r := net.nodes[r].(peers := net.nodes[r].peers[q := q])], [])
    ensures Here(s, d, steps + [Subscribe(r, q)] + [Deliver(0)] + [Deliver(0)], done)
  {
    hide Here, Handle;
    var start := net.(flight := [Packet(q, SubscribeRequest(r, r))]);
    Asks(s, d, steps, net, r, q, start);
    Accepts(s, d, q, net.nodes[q], r);
    Accepts(s, d, r, net.nodes[r], q);
    Hears(s, d, steps + [Subscribe(r, q)], start, 0, q,
          Reaction(net.nodes[q].(peers := net.nodes[q].peers[r := r]), Send(r, SubscribeResponse(q))),
          [Packet(r, SubscribeResponse(q))], asked);
    Hears(s, d, steps + [Subscribe(r, q)] + [Deliver(0)], asked, 0, r,
          Reaction(net.nodes[r].(peers := net.nodes[r].peers[q := q]), Silent), [], done);
  }

  lemma AtStart(s: Scheme, d: Draws)
    ensures Here(s, d, [], Three(Fresh(map[]), Fresh(map[]), Fresh(map[]), []))
  {
    StartKept(Cfg(s, d));
    NotMoved(Cfg(s, d), 0, Start(Cfg(s, d)));
    assert Start(Cfg(s, d)) == Three(Fresh(map[]), Fresh(map[]), Fresh(map[]), []);
  }

  /** The middle subscribes to the creator and the far end to the middle. */
  lemma BothSubscribed(s: Scheme, d: Draws) returns (steps: seq<Step>)
    ensures Here(s, d, steps, Three(Fresh(map[1 := 1]), Middle([GENESIS]), Far(), []))
  {
    hide Here;
    var n0 := Three(Fresh(map[]), Fresh(map[]), Fresh(map[]), []);
    var n1 := Three(Fresh(map[1 := 1]), Fresh(map[]), Fresh(map[]), [Packet(1, SubscribeResponse(0))]);
    var n2 := Three(Fresh(map[1 := 1]), Fresh(map[0 := 0]), Fresh(map[]), []);
    var n3 := Three(Fresh(map[1 := 1]), Middle([GENESIS]), Fresh(map[]), [Packet(2, SubscribeResponse(1))]);
    AtStart(s, d);
    Subscription(s, d, [], n0, 1, 0, n1, n2);
    steps := [] + [Subscribe(1, 0)] + [Deliver(0)] + [Deliver(0)];
    Subscription(s, d, steps, n2, 2, 1, n3, Three(Fresh(map[1 := 1]), Middle([GENESIS]), Far(), []));
    steps := steps + [Subscribe(2, 1)] + [Deliver(0)] + [Deliver(0)];
  }

  /** The creator makes two blocks. */
  lemma BothMade(s: Scheme, d: Draws, before: seq<Step>) returns (steps: seq<Step>)
    requires Works(s, d) && Here(s, d, before, Three(Fresh(map[1 := 1]), Middle([GENESIS]), Far(), []))
    ensures Here(s, d, steps, Three(Maker(s, d), Middle([GENESIS]), Far(),
                                    [Packet(1, BlockMsg(First(s, d))), Packet(1, BlockMsg(Second(s, d)))]))
  {
    hide Here, Create, First, Second, Works;
    var a, b := First(s, d), Second(s, d);
    FirstMade(s, d, map[1 := 1]);
    SecondMade(s, d, map[1 := 1]);
    var one := Srv([GENESIS, a], map[1 := 1], [a], [1]);
    var n0 := Three(Fresh(map[1 := 1]), Middle([GENESIS]), Far(), []);
    var n1 := Three(one, Middle([GENESIS]), Far(), [Packet(1, BlockMsg(a))]);
    var n2 := Three(Maker(s, d), Middle([GENESIS]), Far(), [Packet(1, BlockMsg(a)), Packet(1, BlockMsg(b))]);
    Makes(s, d, before, n0, d.t1, d.n1, one, a, n1);
    steps := before + [CreateBlock(0, d.t1, d.n1)];
    Makes(s, d, steps, n1, d.t2, d.n2, Maker(s, d), b, n2);
    steps := steps + [CreateBlock(0, d.t2, d.n2)];
  }

  /** The second block overtakes the first, and the middle asks both its neighbours; the far end has nothing for it. */
  lemma BothAsked(s: Scheme, d: Draws, before: seq<Step>) returns (steps: seq<Step>)
    requires Works(s, d)
    requires Here(s, d, before, Three(Maker(s, d), Middle([GENESIS]), Far(),
                                      [Packet(1, BlockMsg(First(s, d))), Packet(1, BlockMsg(Second(s, d)))]))
    ensures Here(s, d, steps, Three(Maker(s, d), Middle([GENESIS]), Far(),
                                    [Packet(1, BlockMsg(First(s, d))), Packet(0, GetBlocks(1, 1))]))
  {
    hide Here, Handle, First, Second, Works;
    var maker, mid := Maker(s, d), Middle([GENESIS]);
    var first, ask := Packet(1, BlockMsg(First(s, d))), GetBlocks(1, 1);
    SecondTooEarly(s, d, 1, [0, 2], map[0 := 0, 2 := 2]);
    FanOfTwo(0, 2, ask);
    FarEndAnswers(s);
    NothingApplied(s);
    var n0 := Three(maker, mid, Far(), [first, Packet(1, BlockMsg(Second(s, d)))]);
    var n1 := Three(maker, mid, Far(), [first, Packet(0, ask), Packet(2, ask)]);
    var n2 := Three(maker, mid, Far(), [first, Packet(0, ask), Packet(1, Blocks([]))]);
    var n3 := Three(maker, mid, Far(), [first, Packet(0, ask)]);
    Hears(s, d, before, n0, 1, 1, Reaction(mid, Broadcast(ask)), [Packet(0, ask), Packet(2, ask)], n1);
    steps := before + [Deliver(1)];
    Hears(s, d, steps, n1, 2, 2, Reaction(Far(), Send(1, Blocks([]))), [Packet(1, Blocks([]))], n2);
    steps := steps + [Deliver(2)];
    Hears(s, d, steps, n2, 2, 1, Reaction(mid, Silent), [], n3);
    steps := steps + [Deliver(2)];
  }

  /** The creator answers, and the middle catches up without a word. */
  lemma MiddleCaughtUp(s: Scheme, d: Draws, before: seq<Step>) returns (steps: seq<Step>)
    requires Works(s, d)
    requires Here(s, d, before, Three(Maker(s, d), Middle([GENESIS]), Far(),
                                      [Packet(1, BlockMsg(First(s, d))), Packet(0, GetBlocks(1, 1))]))
    ensures Here(s, d, steps, Three(Maker(s, d), Middle([GENESIS, First(s, d), Second(s, d)]), Far(), []))
  {
    hide Here, Handle, First, Second, Works;
    var maker, mid, end := Maker(s, d), Middle([GENESIS]), Middle([GENESIS, First(s, d), Second(s, d)]);
    var first, answer := Packet(1, BlockMsg(First(s, d))), Blocks([First(s, d), Second(s, d)]);
    CreatorAnswers(s, d);
    BothApplied(s, d, 1, [0, 2], map[0 := 0, 2 := 2]);
    FirstTooLate(s, d, 1, [0, 2], map[0 := 0, 2 := 2]);
    var n0 := Three(maker, mid, Far(), [first, Packet(0, GetBlocks(1, 1))]);
    var n1 := Three(maker, mid, Far(), [first, Packet(1, answer)]);
    var n2 := Three(maker, end, Far(), [first]);
    var n3 := Three(maker, end, Far(), []);
    Hears(s, d, before, n0, 1, 0, Reaction(maker, Send(1, answer)), [Packet(1, answer)], n1);
    steps := before + [Deliver(1)];
    Hears(s, d, steps, n1, 1, 1, Reaction(end, Silent), [], n2);
    steps := steps + [Deliver(1)];
    Hears(s, d, steps, n2, 0, 1, Reaction(end, Silent), [], n3);
    steps := steps + [Deliver(0)];
  }

  /**
   For every scheme there is a run of a single creator in which nothing is lost and at whose end nothing is in flight.
   The far end is connected to the middle both ways and among its peers, the middle has the creator's whole
   chain, and the far end still has only the genesis.
   */
  lemma FarEndLeftBehind(s: Scheme, d: Draws) returns (steps: seq<Step>)
    requires Works(s, d)
    ensures OnlyCreator(steps, 0) && NoLosses(steps) && AllKept(Cfg(s, d), Start(Cfg(s, d)))
    ensures var cfg := Cfg(s, d);
            var net := Run(cfg, Start(cfg), steps);
            && net.flight == [] && !net.nodes[0].log.leaked
            && 2 in cfg.links[1] && 1 in cfg.links[2] && 2 in net.nodes[1].peers
            && Level(net, 0, 1) && |Main(net, 0)| == 3
            && net.nodes[2].chain.blocks == [GENESIS]
  {
    hide Kept, First, Second, Works;
    steps := BothSubscribed(s, d);
    steps := BothMade(s, d, steps);
    steps := BothAsked(s, d, steps);
    steps := MiddleCaughtUp(s, d, steps);
  }
}
