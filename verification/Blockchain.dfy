/**
 The chain as the source stores it: a header list with a hash index, a header-to-block store
 and a transaction store.  Every operation is proved against the plain list of module Ledger.
 */
module Blockchain {
  import opened Basics
  import opened Ledger
  import VmSpec
  import VmMachine

  datatype Lookup<T> = Found(value: T) | Missing | OutOfRange

  /** The last transaction of `txs` whose hash is `h`. */
  function LastWithHash(s: Scheme, txs: seq<Tx>, h: Hash): Option<Tx> {
    if txs == [] then None else
    var t := txs[|txs| - 1];
    if TxHash(s, t) == h then Some(t) else LastWithHash(s, txs[..|txs| - 1], h)
  }

  /** It is found exactly if there is one, and none after it has that hash. */
  lemma {:induction false} LastWithHashExactly(s: Scheme, txs: seq<Tx>, h: Hash)
    ensures LastWithHash(s, txs, h).Some? <==> exists i :: 0 <= i < |txs| && s.digest(txs[i].data) == h
    ensures LastWithHash(s, txs, h).Some? ==>
              exists i :: 0 <= i < |txs| && txs[i] == LastWithHash(s, txs, h).value && s.digest(txs[i].data) == h
                          && forall j :: i < j < |txs| ==> s.digest(txs[j].data) != h
  {
    if txs != [] {
      var init := txs[..|txs| - 1];
      LastWithHashExactly(s, init, h);
      if s.digest(txs[|txs| - 1].data) != h && LastWithHash(s, init, h).Some? {
        var i :| 0 <= i < |init| && init[i] == LastWithHash(s, init, h).value && s.digest(init[i].data) == h
                 && forall j :: i < j < |init| ==> s.digest(init[j].data) != h;
        assert txs[i] == init[i];
        assert forall j :: i < j < |init| ==> txs[j] == init[j];
      }
      if i :| 0 <= i < |txs| - 1 && s.digest(txs[i].data) == h {
        assert init[i] == txs[i];
      }
    }
  }

  /** A transaction hash is known exactly if some block on the chain has such a transaction. */
  lemma {:induction false} OnChainExactly(s: Scheme, blocks: seq<Block>, t: Tx)
    ensures t in TxsOf(blocks) <==> exists i :: 0 <= i < |blocks| && t in blocks[i].txs
  {
    if blocks != [] {
      var init := blocks[..|blocks| - 1];
      OnChainExactly(s, init, t);
      if i :| 0 <= i < |blocks| && t in blocks[i].txs {
        if i < |init| { assert init[i] == blocks[i]; }
      }
      if i :| 0 <= i < |init| && t in init[i].txs {
        assert blocks[i] == init[i];
      }
    }
  }

  /** So the latest transaction with a hash is on the chain, and without one no block has such a transaction. */
  lemma LatestOnChain(s: Scheme, blocks: seq<Block>, h: Hash)
    ensures var r := LastWithHash(s, TxsOf(blocks), h);
            && (r.Some? ==> s.digest(r.value.data) == h && exists i :: 0 <= i < |blocks| && r.value in blocks[i].txs)
            && (r.None? ==> forall i, t :: 0 <= i < |blocks| && t in blocks[i].txs ==> s.digest(t.data) != h)
  {
    hide LastWithHash, TxsOf;
    var all := TxsOf(blocks);
    var r := LastWithHash(s, all, h);
    LastWithHashExactly(s, all, h);
    if r.Some? {
      assert r.value in all;
      OnChainExactly(s, blocks, r.value);
    } else {
      forall i, t | 0 <= i < |blocks| && t in blocks[i].txs ensures s.digest(t.data) != h {
        OnChainExactly(s, blocks, t);
        var j :| 0 <= j < |all| && all[j] == t;
      }
    }
  }

  /** `idx` is exactly the inverse of the header list. */
  ghost predicate Inverse(s: Scheme, data: seq<Header>, idx: map<Hash, int>) {
    && (forall i :: 0 <= i < |data| ==> HeaderHash(s, data[i]) in idx && idx[HeaderHash(s, data[i])] == i)
    && (forall h :: h in idx ==> 0 <= idx[h] < |data| && HeaderHash(s, data[idx[h]]) == h)
  }

  /** The store holds each block of the list under its header, and nothing else. */
  ghost predicate Stored(blocks: seq<Block>, store: map<Header, Block>) {
    && (forall i :: 0 <= i < |blocks| ==> blocks[i].header in store && store[blocks[i].header] == blocks[i])
    && (forall h :: h in store ==> exists i :: 0 <= i < |blocks| && blocks[i].header == h)
  }

  /** The transaction store answers every hash with the latest transaction that has it. */
  ghost predicate TxsIndexed(s: Scheme, txs: seq<Tx>, txStore: map<Hash, Tx>) {
    forall h :: (if h in txStore then Some(txStore[h]) else None) == LastWithHash(s, txs, h)
  }

  lemma IndexOneMore(s: Scheme, txs: seq<Tx>, txStore: map<Hash, Tx>, t: Tx)
    requires TxsIndexed(s, txs, txStore)
    ensures TxsIndexed(s, txs + [t], txStore[TxHash(s, t) := t])
  {
    var more := txs + [t];
    assert more[..|more| - 1] == txs;
  }

  lemma StoreOneMore(before: seq<Block>, store: map<Header, Block>, b: Block)
    requires Stored(before, store)
    requires forall i :: 0 <= i < |before| ==> before[i].header != b.header
    ensures Stored(before + [b], store[b.header := b])
  {
    var after, store' := before + [b], store[b.header := b];
    assert after[|before|] == b;
    forall h | h in store'
      ensures exists i :: 0 <= i < |after| && after[i].header == h
    {
      if h != b.header {
        var i :| 0 <= i < |before| && before[i].header == h;
        assert after[i].header == h;
      }
    }
  }

  lemma NewHashNewHeader(s: Scheme, blocks: seq<Block>, h: Header)
    requires !HashTaken(s, blocks, h)
    ensures forall i :: 0 <= i < |blocks| ==> blocks[i].header != h
  {
  }

  lemma TxsOfMore(blocks: seq<Block>, b: Block)
    ensures TxsOf(blocks + [b]) == TxsOf(blocks) + b.txs
  {
    assert (blocks + [b])[..|blocks|] == blocks;
  }

  class HeaderStore {
    const scheme: Scheme
    var data: seq<Header>
    var idx: map<Hash, int>

    ghost predicate Valid()
      reads this
    {
      Inverse(scheme, data, idx)
    }

    constructor (scheme: Scheme)
      ensures Valid() && this.scheme == scheme && data == []
    {
      this.scheme := scheme;
      data, idx := [], map[];
    }

    /** Refuses a hash it already knows; `id` is the hash of `hdr`. */
    method Put(id: Hash, hdr: Header) returns (ok: bool)
      requires Valid() && id == HeaderHash(scheme, hdr)
      modifies this
      ensures Valid()
      ensures ok <==> forall i :: 0 <= i < |old(data)| ==> HeaderHash(scheme, old(data)[i]) != id
      ensures data == old(data) + if ok then [hdr] else []
    {
      if id in idx {
        return false;
      }
      data := data + [hdr];
      idx := idx[id := |data| - 1];
      return true;
    }

    /** 2^32 - 1 for an empty store. */
    function Height(): UInt32
      reads this
    {
      ToUInt32(|data| - 1)
    }

    /**
     Found at every position up to the height, except that an empty store has none to show.  A list too long for
     its 32-bit height hides its far end.
     */
    method GetAt(height: UInt32) returns (r: Lookup<Header>)
      ensures r.Found? <==> height < |data| && height <= Height()
      ensures r.Found? ==> r.value == data[height]
      ensures r.OutOfRange? <==> data == []
      ensures |data| <= TWO_32 ==> (r.Found? <==> height < |data|)
    {
      if height > Height() {
        return Missing;
      }
      if height >= |data| {
        return OutOfRange;
      }
      return Found(data[height]);
    }

    method GetHash(hash: Hash) returns (r: Lookup<Header>)
      requires Valid()
      ensures r.Found? ==> r.value in data
      ensures r != OutOfRange
      ensures forall i :: 0 <= i < |data| && HeaderHash(scheme, data[i]) == hash ==> r == Found(data[i])
      ensures (forall i :: 0 <= i < |data| ==> HeaderHash(scheme, data[i]) != hash) ==> r == Missing
    {
      if hash !in idx {
        return Missing;
      }
      return Found(data[idx[hash]]);
    }
  }

  class Blockchain {
    const scheme: Scheme
    const headers: HeaderStore
    const contractState: VmMachine.ContractState
    var store: map<Header, Block>
    var txStore: map<Hash, Tx>

    /** The plain list the three indexes stand for. */
    ghost var blocks: seq<Block>

    ghost predicate Agree()
      reads this, headers
    {
      && headers.scheme == scheme
      && headers.Valid()
      && |headers.data| == |blocks| <= TWO_32
      && (forall i :: 0 <= i < |blocks| ==> headers.data[i] == blocks[i].header)
      && Stored(blocks, store)
      && TxsIndexed(scheme, TxsOf(blocks), txStore)
    }

    ghost predicate Valid()
      reads this, headers
    {
      Agree() && blocks != []
    }

    ghost function Plain(): Chain
      reads this, contractState
    {
      Chain(blocks, contractState.data)
    }

    constructor (scheme: Scheme, genesis: Block)
      ensures Valid() && this.scheme == scheme && Plain() == Chain([genesis], map[])
      ensures fresh(headers) && fresh(contractState)
    {
      var h := new HeaderStore(scheme);
      var c := new VmMachine.ContractState();
      this.scheme := scheme;
      headers := h;
      contractState := c;
      store, txStore := map[], map[];
      blocks := [];
      new;
      var _ := PersistBlock(genesis);
    }

    method PersistBlock(b: Block) returns (ok: bool)
      requires Agree() && |blocks| < TWO_32
      modifies this, headers
      ensures Agree()
      ensures ok <==> !HashTaken(scheme, old(blocks), b.header)
      ensures blocks == old(blocks) + if ok then [b] else []
    {
      hide Inverse, Stored, TxsIndexed, TxsOf;
      ghost var before := blocks;
      ok := headers.Put(HeaderHash(scheme, b.header), b.header);
      assert ok <==> !HashTaken(scheme, before, b.header);
      if ok {
        NewHashNewHeader(scheme, before, b.header);
        StoreOneMore(before, store, b);
        store := store[b.header := b];
        IndexTxs(b.txs, TxsOf(before));
        TxsOfMore(before, b);
        blocks := before + [b];
      }
    }

    method IndexTxs(txs: seq<Tx>, ghost before: seq<Tx>)
      requires TxsIndexed(scheme, before, txStore)
      modifies this`txStore
      ensures TxsIndexed(scheme, before + txs, txStore)
    {
      assert before + txs[..0] == before;
      for i := 0 to |txs|
        invariant TxsIndexed(scheme, before + txs[..i], txStore)
      {
        IndexOneMore(scheme, before + txs[..i], txStore, txs[i]);
        assert before + txs[..i] + [txs[i]] == before + txs[..i + 1];
        txStore := txStore[TxHash(scheme, txs[i]) := txs[i]];
      }
      assert txs[..|txs|] == txs;
    }

    method ValidateBlock(b: Block) returns (v: Verdict)
      requires Valid()
      ensures v == Ledger.Validate(scheme, blocks, b)
    {
      hide Inverse, Stored, TxsIndexed, BlockVerifies;
      var height := headers.Height();
      if b.header.height <= height {
        return AlreadyHas;
      }
      if b.header.height != ToUInt32(height + 1) {
        return OutOfSync(b.header.height - height);
      }
      var prev := headers.GetAt(ToUInt32(b.header.height - 1));
      if !prev.Found? {
        return Unchecked;
      }
      if HeaderHash(scheme, prev.value) != b.header.prevHash {
        return WrongPrevious;
      }
      return if BlockVerifies(scheme, b) then Accept else Unverified;
    }

    /** Validates, runs every transaction on the shared contract state, then persists. */
    method AddBlock(b: Block, origin: Origin) returns (st: AddStatus)
      requires Valid()
      modifies this, headers, contractState
      ensures Valid()
      ensures AddResult(st, Plain()) == Ledger.AddBlock(scheme, old(Plain()), b, origin)
    {
      hide Inverse, Stored, TxsIndexed;
      var v := ValidateBlock(b);
      NeverUnchecked(scheme, blocks, b);
      if v != Accept && v != Unchecked {
        return Rejected(v);
      }
      var r := RunAll(b.txs);
      if r != VmSpec.Ok {
        return if r == VmSpec.Panic || origin == Wire then Crashed else VmFailed;
      }
      var ok := PersistBlock(b);
      return if ok then Added else DuplicateHash;
    }

    method RunAll(txs: seq<Tx>) returns (st: VmSpec.Status)
      modifies contractState
      ensures Execution(st, contractState.data) == RunTxs(txs, old(contractState.data))
    {
      for i := 0 to |txs|
        invariant RunTxs(txs, old(contractState.data)) == RunTxs(txs[i..], contractState.data)
      {
        var vm := new VmMachine.VM(txs[i].data, contractState);
        st := vm.Run();
        assert txs[i..][1..] == txs[i + 1..];
        if st != VmSpec.Ok {
          return;
        }
      }
      assert txs[|txs|..] == [];
      st := VmSpec.Ok;
    }

    /** Agrees with the list, and with the hash lookup of the same block. */
    method GetBlockAt(height: UInt32) returns (r: Lookup<Block>)
      requires Valid()
      ensures r == if height < |blocks| then Found(blocks[height]) else Missing
    {
      var h := headers.GetAt(height);
      match h {
        case Found(hdr) => return Found(store[hdr]);
        case Missing => return Missing;
      }
    }

    method GetBlockHash(hash: Hash) returns (r: Lookup<Block>)
      requires Valid()
      ensures forall i :: 0 <= i < |blocks| && HeaderHash(scheme, blocks[i].header) == hash ==> r == Found(blocks[i])
      ensures (forall i :: 0 <= i < |blocks| ==> HeaderHash(scheme, blocks[i].header) != hash) ==> r == Missing
    {
      var h := headers.GetHash(hash);
      match h {
        case Found(hdr) => return Found(store[hdr]);
        case Missing => return Missing;
      }
    }

    method GetTransaction(h: Hash) returns (r: Option<Tx>)
      requires Valid()
      ensures r == LastWithHash(scheme, TxsOf(blocks), h)
      ensures r.Some? ==> scheme.digest(r.value.data) == h && exists i :: 0 <= i < |blocks| && r.value in blocks[i].txs
      ensures r.None? ==> forall i, t :: 0 <= i < |blocks| && t in blocks[i].txs ==> scheme.digest(t.data) != h
    {
      hide Inverse, Stored, TxsOf;
      LatestOnChain(scheme, blocks, h);
      return if h in txStore then Some(txStore[h]) else None;
    }
  }
}
