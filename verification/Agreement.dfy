/** One header fixes the whole history below it, whoever created the blocks. */
module Agreement {
  import opened Ledger
  import Network

  /** No encoding is a prefix of the encoding of a different transaction. */
  ghost predicate PrefixFree(s: Scheme) {
    forall t, u :: s.txBytes(t) <= s.txBytes(u) ==> t == u
  }

  /** The digest does not collide on the headers, nor on the transaction encodings, of equal height. */
  ghost predicate NoCollision(s: Scheme, a: seq<Block>, b: seq<Block>) {
    forall i :: 0 <= i < |a| && i < |b| ==>
      && (HeaderHash(s, a[i].header) == HeaderHash(s, b[i].header) ==> a[i].header == b[i].header)
      && (DataHash(s, a[i].txs) == DataHash(s, b[i].txs) ==> EncodeTxs(s, a[i].txs) == EncodeTxs(s, b[i].txs))
  }

  lemma EncodingNotEmpty(s: Scheme, t: Tx)
    requires PrefixFree(s)
    ensures s.txBytes(t) != []
  {
    var u := t.(data := t.data + [0]);
    assert u.data != t.data;
    assert s.txBytes(t) == [] ==> s.txBytes(t) <= s.txBytes(u);
  }

  /** Concatenated prefix-free encodings decode in one way only. */
  lemma {:induction false} EncodingInjective(s: Scheme, xs: seq<Tx>, ys: seq<Tx>)
    requires PrefixFree(s) && EncodeTxs(s, xs) == EncodeTxs(s, ys)
    ensures xs == ys
    decreases |xs|
  {
    if xs == [] || ys == [] {
      if xs != [] { EncodingNotEmpty(s, xs[0]); }
      if ys != [] { EncodingNotEmpty(s, ys[0]); }
    } else {
      var ex, ey := s.txBytes(xs[0]), s.txBytes(ys[0]);
      var all := EncodeTxs(s, xs);
      assert ex == all[..|ex|] && ey == all[..|ey|];
      assert ex <= ey || ey <= ex;
      assert EncodeTxs(s, xs[1..]) == all[|ex|..] == EncodeTxs(s, ys[1..]);
      EncodingInjective(s, xs[1..], ys[1..]);
      assert xs == [xs[0]] + xs[1..] && ys == [ys[0]] + ys[1..];
    }
  }

  /**
   Hash-chain agreement.  Two linked chains with the same header at height `k` have the same
   headers at every height up to `k` and the same transactions in every block from 1 to `k`.
   */
  lemma {:induction false} SameHeaderSameHistory(s: Scheme, a: seq<Block>, b: seq<Block>, k: nat)
    requires Linked(s, a) && Linked(s, b) && k < |a| && k < |b|
    requires PrefixFree(s) && NoCollision(s, a, b)
    requires a[k].header == b[k].header
    ensures forall i :: 0 <= i <= k ==> a[i].header == b[i].header
    ensures forall i :: 1 <= i <= k ==> a[i].txs == b[i].txs
  {
    hide PrefixFree, EncodeTxs;
    if k > 0 {
      assert a[k].header.prevHash == HeaderHash(s, a[k - 1].header);
      assert b[k].header.prevHash == HeaderHash(s, b[k - 1].header);
      SameHeaderSameHistory(s, a, b, k - 1);
      assert BlockVerifies(s, a[k]) && BlockVerifies(s, b[k]);
      EncodingInjective(s, a[k].txs, b[k].txs);
    }
  }

  /** In every run, with any number of creators, this holds between any two servers. */
  lemma ServersAgree(cfg: Network.Config, steps: seq<Network.Step>, i: nat, j: nat, k: nat)
    requires |cfg.links| == |cfg.keys| && i < |cfg.links| && j < |cfg.links| && PrefixFree(cfg.scheme)
    ensures Network.AllKept(cfg, Network.Start(cfg))
    ensures var nodes := Network.Run(cfg, Network.Start(cfg), steps).nodes;
            var a, b := nodes[i].chain.blocks, nodes[j].chain.blocks;
            NoCollision(cfg.scheme, a, b) && k < |a| && k < |b| && a[k].header == b[k].header ==>
              && (forall h :: 0 <= h <= k ==> a[h].header == b[h].header)
              && (forall h :: 1 <= h <= k ==> a[h].txs == b[h].txs)
  {
    hide NoCollision, PrefixFree, Linked;
    Network.EveryServer(cfg, steps, i);
    Network.EveryServer(cfg, steps, j);
    var nodes := Network.Run(cfg, Network.Start(cfg), steps).nodes;
    var a, b := nodes[i].chain.blocks, nodes[j].chain.blocks;
    if NoCollision(cfg.scheme, a, b) && k < |a| && k < |b| && a[k].header == b[k].header {
      SameHeaderSameHistory(cfg.scheme, a, b, k);
    }
  }

  /** So two chains in step that share a header and have no blocks above it share their contract state. */
  lemma SameTipSameContract(s: Scheme, a: Chain, b: Chain)
    requires Linked(s, a.blocks) && Linked(s, b.blocks) && |a.blocks| == |b.blocks|
    requires PrefixFree(s) && NoCollision(s, a.blocks, b.blocks)
    requires a.blocks[|a.blocks| - 1].header == b.blocks[|b.blocks| - 1].header
    requires InStep(a) && InStep(b)
    ensures a.contract == b.contract
  {
    hide NoCollision, PrefixFree, Replay;
    SameHeaderSameHistory(s, a.blocks, b.blocks, |a.blocks| - 1);
    ReplayDependsOnTxs(a.blocks, b.blocks);
  }

  lemma {:induction false} ReplayDependsOnTxs(a: seq<Block>, b: seq<Block>)
    requires |a| == |b|
    requires forall i :: 1 <= i < |a| ==> a[i].txs == b[i].txs
    ensures Replay(a) == Replay(b)
  {
    if |a| > 1 {
      ReplayDependsOnTxs(a[..|a| - 1], b[..|b| - 1]);
    }
  }
}
