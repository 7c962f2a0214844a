/**
 Gossip dies down.  Without new blocks and new submissions, only finitely many deliveries are
 possible, with a bound computed from the state they start in.
 */
module Gossip {
  import opened Basics
  import opened Ledger
  import opened Node
  import opened Network

  /** What a server can still take in: blocks up to the greatest height, and pending transactions. */
  function Room(n: Node): int {
    TWO_32 - |n.chain.blocks| + n.pool.max - |n.pool.pending.list|
  }

  /** Weight of a message in a network where no server has more than `d` connections. */
  function Weight(d: nat, msg: Msg): nat {
    match msg
    case BlockMsg(_) => 2 * d + 1
    case StatusRequest(_) => d + 1
    case GetBlocks(_, _) => 2
    case SubscribeRequest(_, _) => 2
    case _ => 1
  }

  function TotalRoom(nodes: seq<Node>): int {
    if nodes == [] then 0 else TotalRoom(nodes[..|nodes| - 1]) + Room(nodes[|nodes| - 1])
  }

  function TotalWeight(d: nat, flight: seq<Packet>): nat {
    if flight == [] then 0 else Weight(d, flight[0].msg) + TotalWeight(d, flight[1..])
  }

  /** One unit of room outweighs everything one reaction can send. */
  function Price(d: nat): nat {
    (d + 1) * (2 * d + 1) + 1
  }

  function Measure(d: nat, net: Net): int {
    Price(d) * TotalRoom(net.nodes) + TotalWeight(d, net.flight)
  }

  ghost predicate Degree(cfg: Config, d: nat) {
    forall i :: 0 <= i < |cfg.links| ==> |cfg.links[i]| <= d
  }

  // ---- Sums ----

  lemma {:induction false} WeightAppend(d: nat, a: seq<Packet>, b: seq<Packet>)
    ensures TotalWeight(d, a + b) == TotalWeight(d, a) + TotalWeight(d, b)
    decreases |a|
  {
    if a == [] {
      assert a + b == b;
    } else {
      assert (a + b)[1..] == a[1..] + b;
      WeightAppend(d, a[1..], b);
    }
  }

  lemma WeightWithout(d: nat, flight: seq<Packet>, k: nat)
    requires k < |flight|
    ensures TotalWeight(d, Without(flight, k)) == TotalWeight(d, flight) - Weight(d, flight[k].msg)
  {
    var tail := flight[k..];
    assert flight == flight[..k] + tail && tail[1..] == flight[k + 1..];
    WeightAppend(d, flight[..k], tail);
    WeightAppend(d, flight[..k], flight[k + 1..]);
  }

  lemma {:induction false} WeightFan(d: nat, targets: seq<nat>, msg: Msg)
    ensures TotalWeight(d, Fan(targets, msg)) == |targets| * Weight(d, msg)
    decreases |targets|
  {
    if targets != [] {
      var rest := Fan(targets[1..], msg);
      assert ([Packet(targets[0], msg)] + rest)[1..] == rest;
      WeightFan(d, targets[1..], msg);
      assert |targets| * Weight(d, msg) == Weight(d, msg) + |targets[1..]| * Weight(d, msg);
    }
  }

  lemma {:induction false} RoomUpdate(nodes: seq<Node>, i: nat, n: Node)
    requires i < |nodes|
    ensures TotalRoom(nodes[i := n]) == TotalRoom(nodes) - Room(nodes[i]) + Room(n)
    decreases |nodes|
  {
    var init := nodes[..|nodes| - 1];
    if i < |init| {
      RoomUpdate(init, i, n);
      assert nodes[i := n][..|nodes| - 1] == init[i := n];
    } else {
      assert nodes[i := n][..|nodes| - 1] == init;
    }
  }

  lemma {:induction false} RoomNatural(nodes: seq<Node>)
    requires forall i :: 0 <= i < |nodes| ==> Room(nodes[i]) >= 0
    ensures TotalRoom(nodes) >= 0
  {
    if nodes != [] {
      RoomNatural(nodes[..|nodes| - 1]);
    }
  }

  // ---- One delivery ----

  /**
   A reaction to a message either uses up room, or sends only messages which together weigh less than it did.
   */
  ghost predicate Cheaper(d: nat, n: Node, msg: Msg, r: Reaction) {
    && Room(r.node) <= Room(n)
    && (r.effect != Silent ==>
          || Cost(d, r.effect) < Weight(d, msg)
          || (Room(r.node) < Room(n) && Weight(d, r.effect.msg) <= 2 * d + 1))
  }

  /** The most an effect can add to the weight in flight. */
  function Cost(d: nat, e: Effect): nat {
    match e
    case Silent => 0
    case Send(_, msg) => Weight(d, msg)
    case Broadcast(msg) => d * Weight(d, msg)
  }

  lemma BlockCheaper(s: Scheme, d: nat, self: nat, n: Node, b: Block)
    requires Kept(s, n)
    ensures Cheaper(d, n, BlockMsg(b), HandleBlock(s, self, n, b))
  {
    hide AddBlock, Linked, UniqueHashes, InStep, AnnouncedOnce;
    BlockKept(s, self, n, b);
    AddKeepsChain(s, n.chain, n.log.leaked, b, Wire);
    LinkedSize(s, AddBlock(s, n.chain, b, Wire).chain.blocks);
  }

  lemma LinkedSize(s: Scheme, blocks: seq<Block>)
    requires Linked(s, blocks)
    ensures |blocks| <= TWO_32
  {
  }

  lemma BlocksCheaper(s: Scheme, d: nat, n: Node, bs: seq<Block>)
    requires Kept(s, n)
    ensures Room(After(n, ApplyBlocks(s, n.chain, bs))) <= Room(n)
  {
    ApplyKeepsChain(s, n.chain, n.log.leaked, bs);
  }

  lemma HandleCheaper(s: Scheme, d: nat, self: nat, links: seq<nat>, n: Node, msg: Msg)
    requires Kept(s, n)
    ensures Cheaper(d, n, msg, Handle(s, self, links, n, msg))
  {
    hide Kept, ApplyBlocks, HandleBlock;
    match msg
    case TxMsg(tx) =>
    case BlockMsg(b) => BlockCheaper(s, d, self, n, b);
    case Blocks(bs) => BlocksCheaper(s, d, n, bs);
    case _ =>
  }

  lemma EmitWeight(d: nat, links: seq<nat>, e: Effect)
    requires |links| <= d
    ensures TotalWeight(d, Emit(links, e)) <= Cost(d, e)
  {
    match e
    case Silent =>
    case Send(to, m) =>
      var p := [Packet(to, m)];
      assert p[1..] == [];
    case Broadcast(m) =>
      WeightFan(d, links, m);
      MulMonotone(|links|, d, Weight(d, m));
  }

  lemma MulMonotone(a: nat, b: nat, c: nat)
    requires a <= b
    ensures a * c <= b * c
  {
    assert b * c == a * c + (b - a) * c;
  }

  lemma Trade(price: nat, room: int, room': int, weight: int, weight': int, limit: nat)
    requires room' < room && weight' <= weight + limit && limit < price
    ensures price * room' + weight' < price * room + weight
  {
    assert price * room == price * room' + price * (room - room');
    MulMonotone(1, room - room', price);
  }

  lemma CostLimit(d: nat, e: Effect)
    requires e != Silent ==> Weight(d, e.msg) <= 2 * d + 1
    ensures Cost(d, e) <= (d + 1) * (2 * d + 1)
  {
    if e != Silent {
      MulMonotone(Weight(d, e.msg), 2 * d + 1, d);
    }
  }

  /** Taking a message off and reacting to it pays for what the reaction sends. */
  lemma ReactionPays(d: nat, nodes: seq<Node>, i: nat, msg: Msg, r: Reaction, others: nat, out: nat)
    requires i < |nodes| && Cheaper(d, nodes[i], msg, r) && out <= Cost(d, r.effect)
    ensures Price(d) * TotalRoom(nodes[i := r.node]) + others + out
          < Price(d) * TotalRoom(nodes) + others + Weight(d, msg)
  {
    var room, room' := TotalRoom(nodes), TotalRoom(nodes[i := r.node]);
    RoomUpdate(nodes, i, r.node);
    if room' < room {
      if Cost(d, r.effect) >= Weight(d, msg) {
        CostLimit(d, r.effect);
      }
      Trade(Price(d), room, room', others + Weight(d, msg), others + out, Price(d) - 1);
    }
  }

  lemma DeliverDecreases(cfg: Config, d: nat, net: Net, k: nat)
    requires AllKept(cfg, net) && Degree(cfg, d) && Enabled(net, Deliver(k))
    ensures Measure(d, Apply(cfg, net, Deliver(k))) < Measure(d, net)
  {
    var p := net.flight[k];
    var n, links := net.nodes[p.to], cfg.links[p.to];
    var r := Reply(cfg, net, p.to, p.msg);
    var less, out := Without(net.flight, k), Emit(links, r.effect);
    assert Kept(cfg.scheme, n);
    HandleCheaper(cfg.scheme, d, p.to, links, n, p.msg);
    EmitWeight(d, links, r.effect);
    WeightWithout(d, net.flight, k);
    WeightAppend(d, less, out);
    ReactionPays(d, net.nodes, p.to, p.msg, r, TotalWeight(d, less), TotalWeight(d, out));
  }

  lemma StepDecreases(cfg: Config, d: nat, net: Net, st: Step)
    requires AllKept(cfg, net) && Degree(cfg, d) && Enabled(net, st) && (st.Deliver? || st.Lose?)
    ensures Measure(d, Apply(cfg, net, st)) < Measure(d, net)
  {
    if st.Deliver? {
      DeliverDecreases(cfg, d, net, st.k);
    } else {
      WeightWithout(d, net.flight, st.k);
    }
  }

  lemma MeasureNatural(cfg: Config, d: nat, net: Net)
    requires AllKept(cfg, net)
    ensures Measure(d, net) >= 0
  {
    forall i | 0 <= i < |net.nodes| ensures Room(net.nodes[i]) >= 0 {
      assert Kept(cfg.scheme, net.nodes[i]);
    }
    RoomNatural(net.nodes);
    MulMonotone(0, TotalRoom(net.nodes), Price(d));
  }

  // ---- All deliveries ----

  /** Every step of the sequence is a delivery, or a loss, that really happens. */
  ghost predicate OnlyDeliveries(cfg: Config, net: Net, steps: seq<Step>)
    requires AllKept(cfg, net)
    decreases |steps|
  {
    steps != [] ==>
      var init, last := steps[..|steps| - 1], steps[|steps| - 1];
      OnlyDeliveries(cfg, net, init) && (last.Deliver? || last.Lose?) && Enabled(Run(cfg, net, init), last)
  }

  /**
   Quiescence.  From any state whose servers keep their invariants, with any messages at all in flight, a
   sequence of deliveries and losses cannot be longer than the measure of that state.
   */
  lemma {:induction false} GossipEnds(cfg: Config, d: nat, net: Net, steps: seq<Step>)
    requires AllKept(cfg, net) && Degree(cfg, d) && OnlyDeliveries(cfg, net, steps)
    ensures |steps| <= Measure(d, net) - Measure(d, Run(cfg, net, steps))
    ensures |steps| <= Measure(d, net)
    decreases |steps|
  {
    if steps != [] {
      var init, last := steps[..|steps| - 1], steps[|steps| - 1];
      var mid := Run(cfg, net, init);
      GossipEnds(cfg, d, net, init);
      StepDecreases(cfg, d, mid, last);
    }
    MeasureNatural(cfg, d, Run(cfg, net, steps));
  }

  /** What the log should gain from a reaction: the height of the block it broadcasts, if it does. */
  function Heights(e: Effect): seq<UInt32> {
    if e.Broadcast? && e.msg.BlockMsg? then [e.msg.block.header.height] else []
  }

  /** The broadcast log is complete: each step that broadcasts a block logs its height, and no other logs anything. */
  lemma BroadcastsLogged(s: Scheme, self: nat, links: seq<nat>, n: Node, msg: Msg, key: nat, timestamp: nat, nonce: nat)
    requires n.chain.blocks != []
    ensures var r := Handle(s, self, links, n, msg);
            r.node.log.announced == n.log.announced + Heights(r.effect)
    ensures var r := Create(s, n, key, timestamp, nonce);
            r.node.log.announced == n.log.announced + Heights(r.effect)
  {
    hide AddBlock, ApplyBlocks, Draft;
  }
}
