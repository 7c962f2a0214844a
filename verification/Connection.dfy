/**
 Exactly which peers of the creator can count on having its whole chain at rest: those with a connection back to
 it.  One without can hear of the newest block too early, and its request for the others reaches nobody who has them.
 */
module Connection {
  import opened Basics
  import opened Ledger
  import opened Node
  import opened Network
  import opened SingleCreator
  import opened Quiet
  import opened Scenario

  /** No transport connects to itself or twice to the same other one. */
  predicate Proper(cfg: Config) {
    && |cfg.links| == |cfg.keys|
    && (forall j :: 0 <= j < |cfg.links| ==> j !in cfg.links[j])
    && (forall j, k, l :: 0 <= j < |cfg.links| && 0 <= k < l < |cfg.links[j]| ==> cfg.links[j][k] != cfg.links[j][l])
  }

  // ---- Messages in flight ----

  predicate NoneTo(flight: seq<Packet>, t: nat) {
    forall k :: 0 <= k < |flight| ==> flight[k].to != t
  }

  lemma {:induction false} FanAt(targets: seq<nat>, msg: Msg)
    ensures |Fan(targets, msg)| == |targets|
    ensures forall k :: 0 <= k < |targets| ==> Fan(targets, msg)[k] == Packet(targets[k], msg)
    decreases |targets|
  {
    if targets != [] {
      FanAt(targets[1..], msg);
      forall k | 0 <= k < |targets| ensures Fan(targets, msg)[k] == Packet(targets[k], msg) {
        if k > 0 { assert targets[k] == targets[1..][k - 1]; }
      }
    }
  }

  lemma FanMisses(targets: seq<nat>, msg: Msg, t: nat)
    requires t !in targets
    ensures NoneTo(Fan(targets, msg), t)
  {
    FanAt(targets, msg);
  }

  /** One message to each of different targets: without the one to `targets[j]` there is none to it. */
  lemma FanWithout(targets: seq<nat>, msg: Msg, j: nat)
    requires j < |targets| && forall k, l :: 0 <= k < l < |targets| ==> targets[k] != targets[l]
    ensures |Fan(targets, msg)| == |targets|
    ensures NoneTo(Without(Fan(targets, msg), j), targets[j])
    ensures forall t :: t !in targets ==> NoneTo(Without(Fan(targets, msg), j), t)
  {
    FanAt(targets, msg);
    var rest := Without(Fan(targets, msg), j);
    forall k | 0 <= k < |rest| ensures rest[k].to != targets[j] && rest[k].to in targets {
      assert rest[k] == Fan(targets, msg)[if k < j then k else k + 1];
    }
  }

  lemma WithoutLeft(a: seq<Packet>, b: seq<Packet>, j: nat)
    requires j < |a|
    ensures Without(a + b, j) == Without(a, j) + b
  {
  }

  lemma WithoutRight(a: seq<Packet>, b: seq<Packet>, j: nat)
    requires j < |b|
    ensures Without(a + b, |a| + j) == a + Without(b, j)
  {
  }

  // ---- The run ----

  /** The creator and the peer with these blocks, everyone else new. */
  function Pair(cfg: Config, c: nat, i: nat, creator: Node, peer: Node, flight: seq<Packet>): Net
    requires c < |cfg.links| && i < |cfg.links|
  {
    Net(Start(cfg).nodes[c := creator][i := peer], flight)
  }

  lemma PairSized(cfg: Config, c: nat, i: nat, creator: Node, peer: Node, flight: seq<Packet>)
    requires |cfg.links| == |cfg.keys| && c < |cfg.links| && i < |cfg.links|
    requires creator.chain.blocks != [] && peer.chain.blocks != []
    ensures Sized(cfg, Pair(cfg, c, i, creator, peer, flight))
  {
  }

  /** The creator is told that `i` provides blocks, and so takes it for a peer. */
  lemma Befriended(cfg: Config, c: nat, i: nat) returns (steps: seq<Step>)
    requires Proper(cfg) && c < |cfg.links| && i < |cfg.links| && c != i && i in cfg.links[c]
    ensures Reached(cfg, c, Start(cfg), steps, Pair(cfg, c, i, Srv([GENESIS], map[i := i], [], []), NEW_NODE, []))
  {
    var p := Packet(c, SubscribeResponse(i));
    var n0, n1 := Start(cfg), Start(cfg).(flight := [p]);
    var n2 := Pair(cfg, c, i, Srv([GENESIS], map[i := i], [], []), NEW_NODE, []);
    StartKept(cfg);
    NotMoved(cfg, c, n0);
    AllKeptSized(cfg, n0);
    Further(cfg, c, n0, [], n0, Inject(p), n1);
    assert Reply(cfg, n1, c, p.msg) == Reaction(Srv([GENESIS], map[i := i], [], []), Silent);
    assert n2.nodes == n1.nodes[c := Srv([GENESIS], map[i := i], [], [])];
    hide Reached;
    Delivers(cfg, c, n0, [] + [Inject(p)], n1, 0, Reaction(Srv([GENESIS], map[i := i], [], []), Silent), n2);
    steps := [] + [Inject(p)] + [Deliver(0)];
  }

  lemma StartNodes(cfg: Config)
    ensures |Start(cfg).nodes| == |cfg.links| && forall j :: 0 <= j < |cfg.links| ==> Start(cfg).nodes[j] == NEW_NODE
  {
  }

  lemma PairCreates(cfg: Config, c: nat, i: nat, from: Net, steps: seq<Step>, creator: Node, flight: seq<Packet>,
                    t: nat, nonce: nat, next: Node, b: Block)
    requires |cfg.links| == |cfg.keys| && c < |cfg.links| && i < |cfg.links| && c != i
    requires creator.chain.blocks != [] && !creator.halted
    requires Reached(cfg, c, from, steps, Pair(cfg, c, i, creator, NEW_NODE, flight))
    requires Create(cfg.scheme, creator, cfg.keys[c], t, nonce) == Reaction(next, Broadcast(BlockMsg(b)))
    ensures Reached(cfg, c, from, steps + [CreateBlock(c, t, nonce)],
                    Pair(cfg, c, i, next, NEW_NODE, flight + Fan(cfg.links[c], BlockMsg(b))))
  {
    hide Reached, Create, Fan, Start;
    StartNodes(cfg);
    var net := Pair(cfg, c, i, creator, NEW_NODE, flight);
    PairSized(cfg, c, i, creator, NEW_NODE, flight);
    var after := Pair(cfg, c, i, next, NEW_NODE, flight + Fan(cfg.links[c], BlockMsg(b)));
    assert after.nodes == net.nodes[c := next];
    Creates(cfg, c, from, steps, net, t, nonce, Reaction(next, Broadcast(BlockMsg(b))), after);
  }

  lemma PairDelivers(cfg: Config, c: nat, i: nat, from: Net, steps: seq<Step>, creator: Node, peer: Node,
                     flight: seq<Packet>, k: nat, next: Node, msg: Msg)
    requires |cfg.links| == |cfg.keys| && c < |cfg.links| && i < |cfg.links| && c != i
    requires creator.chain.blocks != [] && peer.chain.blocks != [] && !peer.halted
    requires Reached(cfg, c, from, steps, Pair(cfg, c, i, creator, peer, flight))
    requires k < |flight| && flight[k].to == i
    requires Handle(cfg.scheme, i, cfg.links[i], peer, flight[k].msg) == Reaction(next, Broadcast(msg))
    ensures Reached(cfg, c, from, steps + [Deliver(k)],
                    Pair(cfg, c, i, creator, next, Without(flight, k) + Fan(cfg.links[i], msg)))
  {
    hide Reached, Handle, Fan, Start, Without;
    StartNodes(cfg);
    var net := Pair(cfg, c, i, creator, peer, flight);
    PairSized(cfg, c, i, creator, peer, flight);
    var after := Pair(cfg, c, i, creator, next, Without(flight, k) + Fan(cfg.links[i], msg));
    assert after.nodes == net.nodes[i := next];
    Delivers(cfg, c, from, steps, net, k, Reaction(next, Broadcast(msg)), after);
  }

  /** The creator makes its two blocks and sends them to everyone it is connected to. */
  lemma TwoMade(cfg: Config, c: nat, i: nat, d: Draws, from: Net) returns (steps: seq<Step>)
    requires |cfg.links| == |cfg.keys| && c < |cfg.links| && i < |cfg.links| && c != i
    requires Works(cfg.scheme, d) && d.key == cfg.keys[c]
    requires AllKept(cfg, from) && from == Pair(cfg, c, i, Srv([GENESIS], map[i := i], [], []), NEW_NODE, [])
    ensures var a, b := First(cfg.scheme, d), Second(cfg.scheme, d);
            Reached(cfg, c, from, steps,
                    Pair(cfg, c, i, Srv([GENESIS, a, b], map[i := i], [a, b], [1, 2]), NEW_NODE,
                         Fan(cfg.links[c], BlockMsg(a)) + Fan(cfg.links[c], BlockMsg(b))))
  {
    hide Reached, First, Second, Create, Works, Fan, Start, Pair, AllKept;
    var s, links := cfg.scheme, cfg.links[c];
    var a, b := First(s, d), Second(s, d);
    var zero, one := Srv([GENESIS], map[i := i], [], []), Srv([GENESIS, a], map[i := i], [a], [1]);
    var two := Srv([GENESIS, a, b], map[i := i], [a, b], [1, 2]);
    FirstMade(s, d, map[i := i]);
    SecondMade(s, d, map[i := i]);
    NotMoved(cfg, c, from);
    PairCreates(cfg, c, i, from, [], zero, [], d.t1, d.n1, one, a);
    assert [] + Fan(links, BlockMsg(a)) == Fan(links, BlockMsg(a));
    steps := [] + [CreateBlock(c, d.t1, d.n1)];
    PairCreates(cfg, c, i, from, steps, one, Fan(links, BlockMsg(a)), d.t2, d.n2, two, b);
    steps := steps + [CreateBlock(c, d.t2, d.n2)];
  }

  /** What is left in flight after one of each kind was taken by `i`, which then spoke twice. */
  function Rest(cfg: Config, c: nat, i: nat, j: nat, a: Msg, b: Msg, ask: Msg): seq<Packet>
    requires c < |cfg.links| && i < |cfg.links|
    requires j < |Fan(cfg.links[c], a)| && j < |Fan(cfg.links[c], b)|
  {
    Without(Fan(cfg.links[c], a), j) + (Without(Fan(cfg.links[c], b), j) + Fan(cfg.links[i], ask))
    + Fan(cfg.links[i], a)
  }

  lemma RestMissesBoth(cfg: Config, c: nat, i: nat, j: nat, a: Msg, b: Msg, ask: Msg)
    requires Proper(cfg) && c < |cfg.links| && i < |cfg.links| && c != i && c !in cfg.links[i]
    requires j < |cfg.links[c]| && cfg.links[c][j] == i
    ensures |Fan(cfg.links[c], a)| == |Fan(cfg.links[c], b)| == |cfg.links[c]|
    ensures NoneTo(Rest(cfg, c, i, j, a, b, ask), c) && NoneTo(Rest(cfg, c, i, j, a, b, ask), i)
  {
    hide Fan, Without;
    FanWithout(cfg.links[c], a, j);
    FanWithout(cfg.links[c], b, j);
    FanMisses(cfg.links[i], ask, c);
    FanMisses(cfg.links[i], ask, i);
    FanMisses(cfg.links[i], a, c);
    FanMisses(cfg.links[i], a, i);
  }

  /** The second block reaches `i` first, and what it asks for reaches nobody who has it; then comes the first. */
  lemma Overtaken(cfg: Config, c: nat, i: nat, j: nat, d: Draws, from: Net, before: seq<Step>, creator: Node)
    returns (steps: seq<Step>)
    requires |cfg.links| == |cfg.keys| && c < |cfg.links| && i < |cfg.links| && c != i && Works(cfg.scheme, d)
    requires j < |cfg.links[c]| && cfg.links[c][j] == i && creator.chain.blocks != []
    requires var a, b := First(cfg.scheme, d), Second(cfg.scheme, d);
             Reached(cfg, c, from, before,
                     Pair(cfg, c, i, creator, NEW_NODE,
                          Fan(cfg.links[c], BlockMsg(a)) + Fan(cfg.links[c], BlockMsg(b))))
    ensures var a, b := BlockMsg(First(cfg.scheme, d)), BlockMsg(Second(cfg.scheme, d));
            && |Fan(cfg.links[c], a)| == |Fan(cfg.links[c], b)| == |cfg.links[c]|
            && Reached(cfg, c, from, steps,
                       Pair(cfg, c, i, creator, Srv([GENESIS, First(cfg.scheme, d)], map[], [], [1]),
                            Rest(cfg, c, i, j, a, b, GetBlocks(i, 1))))
  {
    hide Reached, First, Second, Handle, Works, Fan, Start, Without, Pair;
    var s, links := cfg.scheme, cfg.links[c];
    var a, b := First(s, d), Second(s, d);
    SecondTooEarly(s, d, i, cfg.links[i], map[]);
    FirstTaken(s, d, i, cfg.links[i], map[]);
    FanAt(links, BlockMsg(a));
    FanAt(links, BlockMsg(b));
    var fa, fb, asks := Fan(links, BlockMsg(a)), Fan(links, BlockMsg(b)), Fan(cfg.links[i], GetBlocks(i, 1));
    WithoutRight(fa, fb, j);
    WithoutLeft(fa, Without(fb, j) + asks, j);
    assert fa + Without(fb, j) + asks == fa + (Without(fb, j) + asks);
    PairDelivers(cfg, c, i, from, before, creator, NEW_NODE, fa + fb, |fa| + j, NEW_NODE, GetBlocks(i, 1));
    steps := before + [Deliver(|fa| + j)];
    PairDelivers(cfg, c, i, from, steps, creator, NEW_NODE, fa + (Without(fb, j) + asks), j,
                 Srv([GENESIS, a], map[], [], [1]), BlockMsg(a));
    steps := steps + [Deliver(j)];
  }

  /**
   The connection back is needed.  For every topology and scheme: if the creator is connected to `i` but not `i` to
   it, there is a run with everything agreement at rest asks for, at whose end `i` lacks the creator's last block.
   */
  lemma ConnectionNeeded(cfg: Config, c: nat, i: nat, d: Draws) returns (before: seq<Step>, after: seq<Step>)
    requires Proper(cfg) && c < |cfg.links| && i < |cfg.links| && c != i
    requires i in cfg.links[c] && c !in cfg.links[i]
    requires Works(cfg.scheme, d) && d.key == cfg.keys[c]
    ensures AtRest(cfg, c, i, before, after)
    ensures Level(Run(cfg, Start(cfg), before), c, i) && !Level(EndOf(cfg, before, after), c, i)
  {
    hide First, Second, Works, Start, Fan, Reached, AtRest, EndOf, Level, Rest;
    before := Befriended(cfg, c, i);
    var a, b := First(cfg.scheme, d), Second(cfg.scheme, d);
    var zero, two := Srv([GENESIS], map[i := i], [], []), Srv([GENESIS, a, b], map[i := i], [a, b], [1, 2]);
    var net := Pair(cfg, c, i, zero, NEW_NODE, []);
    ReachedKept(cfg, c, Start(cfg), before, net);
    var j :| 0 <= j < |cfg.links[c]| && cfg.links[c][j] == i;
    after := TwoMade(cfg, c, i, d, net);
    after := Overtaken(cfg, c, i, j, d, net, after, two);
    RestMissesBoth(cfg, c, i, j, BlockMsg(a), BlockMsg(b), GetBlocks(i, 1));
    var rest := Rest(cfg, c, i, j, BlockMsg(a), BlockMsg(b), GetBlocks(i, 1));
    RestIsAtRest(cfg, c, i, before, after, zero, two, Srv([GENESIS, a], map[], [], [1]), rest);
  }

  lemma ReachedKept(cfg: Config, c: nat, from: Net, steps: seq<Step>, net: Net)
    requires Reached(cfg, c, from, steps, net)
    ensures AllKept(cfg, net)
  {
    hide Kept;
  }

  lemma RestIsAtRest(cfg: Config, c: nat, i: nat, before: seq<Step>, after: seq<Step>, zero: Node, two: Node, one: Node,
                     flight: seq<Packet>)
    requires c < |cfg.links| && i < |cfg.links| && c != i
    requires var net := Pair(cfg, c, i, zero, NEW_NODE, []);
             && Reached(cfg, c, Start(cfg), before, net)
             && Reached(cfg, c, net, after, Pair(cfg, c, i, two, one, flight))
    requires zero.chain.blocks == [GENESIS] && i in zero.peers && |two.chain.blocks| == 3 && !two.log.leaked
    requires |one.chain.blocks| == 2 && NoneTo(flight, c) && NoneTo(flight, i)
    ensures AtRest(cfg, c, i, before, after)
    ensures Level(Run(cfg, Start(cfg), before), c, i) && !Level(EndOf(cfg, before, after), c, i)
  {
    hide Kept, Start, Run;
    StartNodes(cfg);
  }

  /** So, of the creator's connections, exactly those connected back to it are level whenever at rest as its peers. */
  lemma LevelIffConnected(cfg: Config, c: nat, i: nat, d: Draws)
    requires Proper(cfg) && c < |cfg.links| && i < |cfg.links| && c != i && i in cfg.links[c]
    requires Works(cfg.scheme, d) && d.key == cfg.keys[c]
    ensures AllKept(cfg, Start(cfg))
    ensures (forall before, after :: AtRest(cfg, c, i, before, after) ==> Level(EndOf(cfg, before, after), c, i))
            <==> c in cfg.links[i]
  {
    StartKept(cfg);
    hide AtRest, EndOf, Level, Works, Kept;
    if c in cfg.links[i] {
      forall before, after | AtRest(cfg, c, i, before, after) ensures Level(EndOf(cfg, before, after), c, i) {
        QuietMeansLevel(cfg, c, i, before, after);
      }
    } else {
      var before, after := ConnectionNeeded(cfg, c, i, d);
    }
  }
}
