/** In-process transports that connect to each other by mutual recursion. */
module LocalTransport {

  class LocalTransport {
    const addr: string
    var peers: map<string, LocalTransport>

    constructor (addr: string)
      ensures this.addr == addr && peers == map[]
    {
      this.addr := addr;
      peers := map[];
    }

    predicate IsConnected(a: string)
      reads this
    {
      a in peers
    }

    /** Missing entries between this transport and `other`; each recursive call fills one. */
    ghost function Missing(other: LocalTransport): nat
      reads this, other
    {
      (if other.addr in peers then 0 else 1) + (if addr in other.peers then 0 else 1)
    }

    /**
     Records `other` and has it connect back, unless `other` is known already: then nothing
     happens, even if the way back is missing.
     */
    method Connect(other: LocalTransport)
      modifies this, other
      ensures peers == if other.addr in old(peers) then old(peers)
                       else if this == other then old(peers)[addr := this]
                       else old(peers)[other.addr := other]
      ensures other != this ==>
                other.peers == if other.addr in old(peers) || addr in old(other.peers) then old(other.peers)
                               else old(other.peers)[addr := this]
      decreases Missing(other)
    {
      if IsConnected(other.addr) {
        return;
      }
      peers := peers[other.addr := other];
      other.Connect(this);
    }
  }

  /** Distinct transports have distinct addresses. */
  ghost predicate DistinctAddresses(all: set<LocalTransport>)
  {
    forall a, b :: a in all && b in all && a != b ==> a.addr != b.addr
  }

  /** a knows b exactly if b knows a. */
  ghost predicate Symmetric(all: set<LocalTransport>)
    reads all
  {
    forall a, b :: a in all && b in all ==> (b.addr in a.peers <==> a.addr in b.peers)
  }

  /** One Connect keeps the relation symmetric, connects both ways, and forgets nothing. */
  method ConnectBoth(all: set<LocalTransport>, a: LocalTransport, b: LocalTransport)
    requires DistinctAddresses(all) && Symmetric(all) && a in all && b in all
    modifies all
    ensures Symmetric(all) && b.addr in a.peers && a.addr in b.peers
    ensures forall t, key :: t in all && key in old(t.peers) ==> key in t.peers
    ensures forall t, key :: t in all && key in t.peers && key !in old(t.peers) ==>
              (t == a && key == b.addr && t.peers[key] == b) || (t == b && key == a.addr && t.peers[key] == a)
  {
    assert b.addr in a.peers <==> a.addr in b.peers;
    a.Connect(b);
    forall x, y | x in all && y in all
      ensures y.addr in x.peers <==> x.addr in y.peers
    {
      assert old(y.addr in x.peers <==> x.addr in y.peers);
    }
  }

  /**
   Over every sequence of Connect calls among transports with distinct addresses the peer
   relation stays symmetric, and every pair asked for is connected at the end.
   */
  method ConnectAll(all: set<LocalTransport>, pairs: seq<(LocalTransport, LocalTransport)>)
    requires DistinctAddresses(all) && Symmetric(all)
    requires forall i :: 0 <= i < |pairs| ==> pairs[i].0 in all && pairs[i].1 in all
    modifies all
    ensures Symmetric(all)
    ensures forall i :: 0 <= i < |pairs| ==> pairs[i].1.addr in pairs[i].0.peers && pairs[i].0.addr in pairs[i].1.peers
  {
    for n := 0 to |pairs|
      invariant Symmetric(all)
      invariant forall i :: 0 <= i < n ==> pairs[i].1.addr in pairs[i].0.peers && pairs[i].0.addr in pairs[i].1.peers
    {
      ConnectBoth(all, pairs[n].0, pairs[n].1);
    }
  }
}
