/** A block as the object the source builds: filled in step by step, signed, and hashed with a cache. */
module BlockObject {
  import opened Basics
  import opened Ledger

  class BlockObject {
    const scheme: Scheme
    var header: Header
    var txs: seq<Tx>
    var validator: Bytes
    var sig: Option<Bytes>
    var cache: Hash // all zeros while nothing is cached

    ghost function View(): Block
      reads this
    {
      Block(header, txs, validator, sig)
    }

    /** What is cached, if anything, is the hash of the header. */
    ghost predicate Coherent()
      reads this
    {
      cache != ZERO_HASH ==> cache == HeaderHash(scheme, header)
    }

    constructor FromPrevHeader(scheme: Scheme, prev: Header, txs: seq<Tx>, timestamp: nat)
      ensures this.scheme == scheme && View() == NewBlock(scheme, prev, txs, timestamp)
      ensures cache == ZERO_HASH && Coherent()
    {
      this.scheme, this.txs := scheme, txs;
      validator, sig, cache := [], None, ZERO_HASH;
      header := Header(1, ZERO_HASH, HeaderHash(scheme, prev), timestamp, ToUInt32(prev.height + 1));
      new;
      var dh := CalculateDataHash(scheme, txs);
      header := header.(dataHash := dh);
    }

    method AddTransaction(t: Tx)
      modifies `txs
      ensures View() == old(View()).(txs := old(txs) + [t])
    {
      txs := txs + [t];
    }

    /** Signing comes first and the data hash second; a hash cached earlier stays as it was. */
    method Sign(key: nat, nonce: nat)
      modifies `header, `sig, `validator
      ensures View() == Ledger.Sign(scheme, old(View()), key, nonce)
      ensures old(header).dataHash == DataHash(scheme, txs) ==> header == old(header)
    {
      sig := Some(scheme.sign(key, scheme.headerBytes(header), nonce));
      validator := scheme.publicKey(key);
      var dh := CalculateDataHash(scheme, txs);
      header := header.(dataHash := dh);
    }

    method Hash() returns (h: Hash)
      modifies `cache
      ensures h == cache == if old(cache) == ZERO_HASH then HeaderHash(scheme, header) else old(cache)
      ensures old(Coherent()) ==> Coherent() && h == HeaderHash(scheme, header)
    {
      if cache == ZERO_HASH {
        cache := HeaderHash(scheme, header);
      }
      h := cache;
    }

    method Verify() returns (ok: bool)
      ensures ok == BlockVerifies(scheme, View())
    {
      if sig.None? || !scheme.verify(validator, scheme.headerBytes(header), sig.value) {
        return false;
      }
      for i := 0 to |txs|
        invariant forall k :: 0 <= k < i ==> TxVerifies(scheme, txs[k])
      {
        if !TxVerifies(scheme, txs[i]) {
          return false;
        }
      }
      var dh := CalculateDataHash(scheme, txs);
      return dh == header.dataHash;
    }
  }

  /** Appends the encodings to a buffer one by one and digests the whole. */
  method CalculateDataHash(s: Scheme, txs: seq<Tx>) returns (h: Hash)
    ensures h == DataHash(s, txs)
  {
    var buf: Bytes := [];
    assert txs[0..] == txs && buf + EncodeTxs(s, txs) == EncodeTxs(s, txs);
    for i := 0 to |txs|
      invariant buf + EncodeTxs(s, txs[i..]) == EncodeTxs(s, txs)
    {
      assert txs[i..][1..] == txs[i + 1..];
      assert buf + (s.txBytes(txs[i]) + EncodeTxs(s, txs[i + 1..]))
          == buf + s.txBytes(txs[i]) + EncodeTxs(s, txs[i + 1..]);
      buf := buf + s.txBytes(txs[i]);
    }
    assert txs[|txs|..] == [] && buf + [] == buf;
    h := s.digest(buf);
  }

  /** A block built, signed and then hashed, as a server does it, verifies and has a coherent cache. */
  method BuildAndHash(s: Scheme, prev: Header, txs: seq<Tx>, timestamp: nat, key: nat, nonce: nat)
    returns (b: BlockObject, h: Hash)
    requires SignaturesVerify(s) && forall i :: 0 <= i < |txs| ==> TxVerifies(s, txs[i])
    ensures fresh(b) && b.Coherent() && h == HeaderHash(s, b.header) && BlockVerifies(s, b.View())
    ensures b.header == NewBlock(s, prev, txs, timestamp).header
  {
    b := new BlockObject.FromPrevHeader(s, prev, txs, timestamp);
    b.Sign(key, nonce);
    h := b.Hash();
    assert s.verify(s.publicKey(key), s.headerBytes(b.header), s.sign(key, s.headerBytes(b.header), nonce));
  }

  /** Different headers have different hashes, none of them all zeros, as far as these two are concerned. */
  ghost predicate TellsApart(s: Scheme, g: Header, h: Header) {
    HeaderHash(s, g) != ZERO_HASH && (g != h ==> HeaderHash(s, g) != HeaderHash(s, h))
  }

  /**
   The other order goes wrong: hash first, then add a transaction and sign.  Unless hashes collide, the cache
   is coherent afterwards exactly if the block's data hash was that of the longer list from the start.
   */
  method HashAddSign(b: BlockObject, t: Tx, key: nat, nonce: nat) returns (h: Hash)
    requires b.cache == ZERO_HASH
    modifies b
    ensures h == HeaderHash(b.scheme, old(b.header))
    ensures b.header == old(b.header).(dataHash := DataHash(b.scheme, old(b.txs) + [t]))
    ensures TellsApart(b.scheme, old(b.header), b.header) ==>
              (b.Coherent() <==> old(b.header).dataHash == DataHash(b.scheme, old(b.txs) + [t]))
    ensures b.Coherent() <==> h == ZERO_HASH || h == HeaderHash(b.scheme, b.header)
  {
    h := b.Hash();
    b.AddTransaction(t);
    b.Sign(key, nonce);
  }
}
