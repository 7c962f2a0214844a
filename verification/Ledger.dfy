/**
 Headers, transactions, blocks, and the chain as a plain list of blocks with a contract state.

 This is the simple form of the ledger.  Module Blockchain refines it with the indexes the
 source keeps.
 */
module Ledger {
  import opened Basics
  import VmCompile
  import VmSpec

  type Hash = Bytes

  datatype Header = Header(version: UInt32, dataHash: Hash, prevHash: Hash, timestamp: nat, height: UInt32)

  /** The exported, and so encoded, fields of a transaction. */
  datatype Tx = Tx(data: Bytes, from: Bytes, sig: Option<Bytes>)

  datatype Block = Block(header: Header, txs: seq<Tx>, validator: Bytes, sig: Option<Bytes>)

  /**
   The library functions the ledger calls: SHA-256, the gob encodings, and ECDSA, whose signing
   also draws a random `nonce`.
   */
  datatype Scheme = Scheme(
    digest: Bytes -> Hash,
    headerBytes: Header -> Bytes,
    txBytes: Tx -> Bytes,
    publicKey: nat -> Bytes,
    sign: (nat, Bytes, nat) -> Bytes,
    verify: (Bytes, Bytes, Bytes) -> bool)

  /** Signatures made with a private key verify under its public key. */
  ghost predicate SignaturesVerify(s: Scheme) {
    forall key, msg, nonce :: s.verify(s.publicKey(key), msg, s.sign(key, msg, nonce))
  }

  function HeaderHash(s: Scheme, h: Header): Hash {
    s.digest(s.headerBytes(h))
  }

  /** The default transaction hash covers only `data`. */
  function TxHash(s: Scheme, t: Tx): Hash {
    s.digest(t.data)
  }

  function EncodeTxs(s: Scheme, txs: seq<Tx>): Bytes {
    if txs == [] then [] else s.txBytes(txs[0]) + EncodeTxs(s, txs[1..])
  }

  function DataHash(s: Scheme, txs: seq<Tx>): Hash {
    s.digest(EncodeTxs(s, txs))
  }

  // ---- Blocks ----

  predicate TxVerifies(s: Scheme, t: Tx) {
    t.sig.Some? && s.verify(t.from, t.data, t.sig.value)
  }

  predicate BlockVerifies(s: Scheme, b: Block) {
    && b.sig.Some?
    && s.verify(b.validator, s.headerBytes(b.header), b.sig.value)
    && (forall i :: 0 <= i < |b.txs| ==> TxVerifies(s, b.txs[i]))
    && DataHash(s, b.txs) == b.header.dataHash
  }

  /** NewBlockFromPrevHeader: the data hash is set when the header is made. */
  function NewBlock(s: Scheme, prev: Header, txs: seq<Tx>, timestamp: nat): Block {
    Block(Header(1, DataHash(s, txs), HeaderHash(s, prev), timestamp, ToUInt32(prev.height + 1)), txs, [], None)
  }

  /** Signs the header as it is, and only then writes the data hash into it. */
  function Sign(s: Scheme, b: Block, key: nat, nonce: nat): Block {
    b.(sig := Some(s.sign(key, s.headerBytes(b.header), nonce)),
       validator := s.publicKey(key),
       header := b.header.(dataHash := DataHash(s, b.txs)))
  }

  const GENESIS: Block := Block(Header(1, ZERO_HASH, ZERO_HASH, 1000000, 0), [], [], None)
  const ZERO_HASH: Hash := [
    0, 0, 0, 0, 0, 0, 0, 0, 0, 0, 0, 0, 0, 0, 0, 0, 0, 0, 0, 0, 0, 0, 0, 0, 0, 0, 0, 0, 0, 0, 0, 0]

  // ---- The chain ----

  datatype Chain = Chain(blocks: seq<Block>, contract: VmSpec.State)

  const FRESH: Chain := Chain([GENESIS], map[])

  /** `uint32(len - 1)`, which is 2^32 - 1 for the empty chain. */
  function Height(blocks: seq<Block>): UInt32 {
    ToUInt32(|blocks| - 1)
  }

  predicate HasBlockAt(blocks: seq<Block>, h: UInt32) {
    h <= Height(blocks)
  }

  datatype Verdict =
    | Accept
    | Unchecked          // header lookup failed and its error was swallowed: accepted without verification
    | AlreadyHas
    | OutOfSync(lag: int)
    | WrongPrevious
    | Unverified

  function Validate(s: Scheme, blocks: seq<Block>, b: Block): Verdict {
    if HasBlockAt(blocks, b.header.height) then AlreadyHas
    else if b.header.height != ToUInt32(Height(blocks) + 1) then OutOfSync(b.header.height - Height(blocks))
    else
      var at := ToUInt32(b.header.height - 1);
      if at > Height(blocks) || at >= |blocks| then Unchecked
      else if HeaderHash(s, blocks[at].header) != b.header.prevHash then WrongPrevious
      else if !BlockVerifies(s, b) then Unverified
      else Accept
  }

  datatype Execution = Execution(status: VmSpec.Status, contract: VmSpec.State)

  /** Runs the transactions in order on the shared contract state; nothing is undone on failure. */
  function RunTxs(txs: seq<Tx>, contract: VmSpec.State): Execution {
    if txs == [] then Execution(VmSpec.Ok, contract) else
    var r := VmSpec.Run(VmSpec.DEFAULT, txs[0].data, VmSpec.Machine([], contract));
    if r.status != VmSpec.Ok then Execution(r.status, r.m.state) else RunTxs(txs[1..], r.m.state)
  }

  /**
   Whether the transactions of a block have their hasher set.  Gob drops it, so a block from
   the wire has none, and reporting a failed transaction then dereferences nil.
   */
  datatype Origin = Local | Wire

  datatype AddStatus = Added | Rejected(verdict: Verdict) | VmFailed | DuplicateHash | Crashed

  datatype AddResult = AddResult(status: AddStatus, chain: Chain)

  predicate HashTaken(s: Scheme, blocks: seq<Block>, h: Header) {
    exists i :: 0 <= i < |blocks| && HeaderHash(s, blocks[i].header) == HeaderHash(s, h)
  }

  function AddBlock(s: Scheme, c: Chain, b: Block, origin: Origin): AddResult {
    var v := Validate(s, c.blocks, b);
    if v != Accept && v != Unchecked then AddResult(Rejected(v), c) else
    var e := RunTxs(b.txs, c.contract);
    var c' := c.(contract := e.contract);
    match e.status
    case Panic => AddResult(Crashed, c')
    case Err => AddResult(if origin == Wire then Crashed else VmFailed, c')
    case Ok =>
      if HashTaken(s, c.blocks, b.header) then AddResult(DuplicateHash, c')
      else AddResult(Added, c'.(blocks := c.blocks + [b]))
  }

  lemma RejectedChangesNothing(s: Scheme, c: Chain, b: Block, origin: Origin)
    ensures AddBlock(s, c, b, origin).status.Rejected? ==> AddBlock(s, c, b, origin).chain == c
  {
    hide Validate, RunTxs, HashTaken;
  }

  /** The way through AddBlock without a failure. */
  lemma AddAccepted(s: Scheme, c: Chain, b: Block, origin: Origin)
    requires Validate(s, c.blocks, b) == Accept && !HashTaken(s, c.blocks, b.header)
    requires RunTxs(b.txs, c.contract).status == VmSpec.Ok
    ensures AddBlock(s, c, b, origin) == AddResult(Added, Chain(c.blocks + [b], RunTxs(b.txs, c.contract).contract))
  {
    hide Validate, HashTaken, RunTxs;
  }

  /** The block was not added although its transactions already ran on the contract state. */
  predicate Leaked(st: AddStatus) {
    st == VmFailed || st == Crashed || st == DuplicateHash
  }

  /** All transactions of a list of blocks, in order. */
  function TxsOf(blocks: seq<Block>): seq<Tx> {
    if blocks == [] then [] else TxsOf(blocks[..|blocks| - 1]) + blocks[|blocks| - 1].txs
  }

  // ---- What every chain keeps ----

  /** Heights count up from 0, every block names its predecessor's hash, every later block verifies. */
  ghost predicate Linked(s: Scheme, blocks: seq<Block>) {
    && 1 <= |blocks| <= TWO_32
    && (forall i :: 0 <= i < |blocks| ==> blocks[i].header.height == i)
    && (forall i, j :: 0 <= i < j < |blocks| && j == i + 1 ==>
          blocks[j].header.prevHash == HeaderHash(s, blocks[i].header))
    && (forall i :: 1 <= i < |blocks| ==> BlockVerifies(s, blocks[i]))
  }

  /** The verdict on a linked chain, without the machine arithmetic. */
  lemma ValidateLinked(s: Scheme, blocks: seq<Block>, b: Block)
    requires Linked(s, blocks)
    ensures Height(blocks) == |blocks| - 1
    ensures Validate(s, blocks, b) != Unchecked
    ensures Validate(s, blocks, b) == AlreadyHas <==> b.header.height < |blocks|
    ensures Validate(s, blocks, b).OutOfSync? <==> b.header.height > |blocks|
    ensures Validate(s, blocks, b) == Accept <==>
              && b.header.height == |blocks|
              && b.header.prevHash == HeaderHash(s, blocks[|blocks| - 1].header)
              && BlockVerifies(s, b)
  {
    assert b.header.height == |blocks| ==> ToUInt32(b.header.height - 1) == |blocks| - 1;
  }

  /**
   The swallowed error of ValidateBlock is unreachable on every chain whatsoever, and where
   the height comparison decides, `Height() + 1` has not wrapped around.
   */
  lemma NeverUnchecked(s: Scheme, blocks: seq<Block>, b: Block)
    ensures Validate(s, blocks, b) != Unchecked
    ensures !HasBlockAt(blocks, b.header.height) ==> Height(blocks) + 1 < TWO_32 && |blocks| > 0
  {
    if !HasBlockAt(blocks, b.header.height) {
      var at := ToUInt32(b.header.height - 1);
      assert b.header.height == ToUInt32(Height(blocks) + 1) ==> at == Height(blocks);
      assert |blocks| == 0 ==> Height(blocks) == TWO_32 - 1;
      assert Height(blocks) <= |blocks| - 1 by {
        if |blocks| > 0 { ModAtMost(|blocks| - 1); }
      }
    }
  }

  lemma ModAtMost(x: nat)
    ensures x % TWO_32 <= x
  {
  }

  /** Every call of AddBlock, whatever the block and the outcome, keeps a linked chain linked. */
  lemma AddKeepsLinked(s: Scheme, c: Chain, b: Block, origin: Origin)
    requires Linked(s, c.blocks)
    ensures var r := AddBlock(s, c, b, origin);
            && Linked(s, r.chain.blocks)
            && r.chain.blocks == c.blocks + (if r.status == Added then [b] else [])
            && (r.status == Added ==> |c.blocks| < TWO_32 && b.header.height == |c.blocks|)
  {
    hide RunTxs, BlockVerifies, Validate, HashTaken;
    ValidateLinked(s, c.blocks, b);
    assert b.header.height < TWO_32;
  }

  /** Any number of calls, one after the other. */
  function AddAll(s: Scheme, c: Chain, adds: seq<(Block, Origin)>): Chain
    decreases |adds|
  {
    if adds == [] then c else AddAll(s, AddBlock(s, c, adds[0].0, adds[0].1).chain, adds[1..])
  }

  /** Every sequence of AddBlock calls on a linked chain, of whatever blocks, extends it to a linked chain. */
  lemma {:induction false} AddAllKeepsLinked(s: Scheme, c: Chain, adds: seq<(Block, Origin)>)
    requires Linked(s, c.blocks)
    ensures Linked(s, AddAll(s, c, adds).blocks) && c.blocks <= AddAll(s, c, adds).blocks
    decreases |adds|
  {
    hide Linked, AddBlock;
    if adds != [] {
      AddKeepsLinked(s, c, adds[0].0, adds[0].1);
      AddAllKeepsLinked(s, AddBlock(s, c, adds[0].0, adds[0].1).chain, adds[1..]);
    }
  }

  // ---- Verification, in terms of the library functions ----

  /** The encodings of a list are those of its transactions, one behind the other. */
  lemma {:induction false} EncodingsInTurn(s: Scheme, xs: seq<Tx>, t: Tx)
    ensures EncodeTxs(s, []) == []
    ensures EncodeTxs(s, xs + [t]) == EncodeTxs(s, xs) + s.txBytes(t)
    decreases |xs|
  {
    if xs == [] {
      assert xs + [t] == [t] && [t][1..] == [];
    } else {
      assert (xs + [t])[0] == xs[0] && (xs + [t])[1..] == xs[1..] + [t];
      EncodingsInTurn(s, xs[1..], t);
    }
  }

  /**
   The verdict on a linked chain, in full.  Behind the height and the previous hash, a block is accepted exactly if its
   own signature, that of every transaction, and the data hash are right.
   */
  lemma VerdictExactly(s: Scheme, blocks: seq<Block>, b: Block)
    requires Linked(s, blocks)
    ensures var n := |blocks|;
            var chained := b.header.prevHash == s.digest(s.headerBytes(blocks[n - 1].header));
            var sealed := b.sig.Some? && s.verify(b.validator, s.headerBytes(b.header), b.sig.value);
            var signed := forall i :: 0 <= i < |b.txs| ==>
                            b.txs[i].sig.Some? && s.verify(b.txs[i].from, b.txs[i].data, b.txs[i].sig.value);
            var hashed := b.header.dataHash == s.digest(EncodeTxs(s, b.txs));
            Validate(s, blocks, b) ==
              if b.header.height < n then AlreadyHas
              else if b.header.height > n then OutOfSync(b.header.height - (n - 1))
              else if !chained then WrongPrevious
              else if sealed && signed && hashed then Accept
              else Unverified
  {
    hide EncodeTxs;
    ValidateLinked(s, blocks, b);
  }

  /** Whatever chain it is added to, an added block is signed, and so is each of its transactions. */
  lemma AddedIsSigned(s: Scheme, c: Chain, b: Block, origin: Origin)
    requires AddBlock(s, c, b, origin).status == Added
    ensures b.sig.Some? && s.verify(b.validator, s.headerBytes(b.header), b.sig.value)
    ensures forall i :: 0 <= i < |b.txs| ==>
              b.txs[i].sig.Some? && s.verify(b.txs[i].from, b.txs[i].data, b.txs[i].sig.value)
    ensures b.header.dataHash == s.digest(EncodeTxs(s, b.txs))
  {
    hide EncodeTxs, RunTxs, HashTaken;
    NeverUnchecked(s, c.blocks, b);
  }

  /** How AddBlock ends: by the verdict, then by how the transactions run, then by whether the hash is known. */
  lemma AddExactly(s: Scheme, c: Chain, b: Block, origin: Origin)
    ensures var r, v, e := AddBlock(s, c, b, origin), Validate(s, c.blocks, b), RunTxs(b.txs, c.contract);
            var hash := s.digest(s.headerBytes(b.header));
            var known := exists i :: 0 <= i < |c.blocks| && s.digest(s.headerBytes(c.blocks[i].header)) == hash;
            && (v != Accept <==> r.status.Rejected?) && (v != Accept ==> r == AddResult(Rejected(v), c))
            && (r.status == Added <==> v == Accept && e.status == VmSpec.Ok && !known)
            && (r.status == DuplicateHash <==> v == Accept && e.status == VmSpec.Ok && known)
            && (r.status == VmFailed <==> v == Accept && e.status == VmSpec.Err && origin == Local)
            && (v == Accept ==> r.chain.contract == e.contract)
            && (r.status != Added ==> r.chain.blocks == c.blocks)
            && (r.status == Added ==> r.chain.blocks == c.blocks + [b])
  {
    hide Validate, RunTxs;
    NeverUnchecked(s, c.blocks, b);
    KnownHash(s, c.blocks, b.header);
  }

  lemma KnownHash(s: Scheme, blocks: seq<Block>, h: Header)
    ensures var hash := s.digest(s.headerBytes(h));
            HashTaken(s, blocks, h)
            <==> exists i :: 0 <= i < |blocks| && s.digest(s.headerBytes(blocks[i].header)) == hash
  {
    if HashTaken(s, blocks, h) {
      var i :| 0 <= i < |blocks| && HeaderHash(s, blocks[i].header) == HeaderHash(s, h);
      assert s.digest(s.headerBytes(blocks[i].header)) == s.digest(s.headerBytes(h));
    }
    if i :| 0 <= i < |blocks| && s.digest(s.headerBytes(blocks[i].header)) == s.digest(s.headerBytes(h)) {
      assert HeaderHash(s, blocks[i].header) == HeaderHash(s, h);
    }
  }

  // ---- Replay ----

  /** Running all transactions of the blocks after the genesis, from an empty contract state. */
  function Replay(blocks: seq<Block>): Execution {
    if |blocks| <= 1 then Execution(VmSpec.Ok, map[]) else
    var e := Replay(blocks[..|blocks| - 1]);
    if e.status != VmSpec.Ok then e else RunTxs(blocks[|blocks| - 1].txs, e.contract)
  }

  /** The contract state is what the chain's own transactions produce. */
  predicate InStep(c: Chain) {
    Replay(c.blocks) == Execution(VmSpec.Ok, c.contract)
  }

  /** The block passes validation, and then a transaction fails or the hash is taken already. */
  predicate Fails(s: Scheme, c: Chain, b: Block) {
    && Validate(s, c.blocks, b) == Accept
    && (RunTxs(b.txs, c.contract).status != VmSpec.Ok || HashTaken(s, c.blocks, b.header))
  }

  /** So a leak can be told before the call. */
  lemma LeakedExactly(s: Scheme, c: Chain, b: Block, origin: Origin)
    ensures Leaked(AddBlock(s, c, b, origin).status) <==> Fails(s, c, b)
  {
    hide Validate, RunTxs, HashTaken;
    NeverUnchecked(s, c.blocks, b);
  }

  /**
   Exactly when an AddBlock keeps the contract state in step with the blocks: unless the block
   validates and then fails, its transactions having changed the state by then.
   */
  lemma AddKeepsInStep(s: Scheme, c: Chain, b: Block, origin: Origin)
    requires |c.blocks| >= 1 && InStep(c)
    ensures InStep(AddBlock(s, c, b, origin).chain)
            <==> (Fails(s, c, b) ==> RunTxs(b.txs, c.contract).contract == c.contract)
  {
    hide Validate, RunTxs, HashTaken, Fails;
    LeakedExactly(s, c, b, origin);
    var r := AddBlock(s, c, b, origin);
    if r.status == Added {
      assert r.chain.blocks[..|r.chain.blocks| - 1] == c.blocks;
    }
  }

  /** If the whole chain replays, so does every prefix, and the next block runs on top of it. */
  lemma {:induction false} ReplayNext(blocks: seq<Block>, m: nat)
    requires 1 <= m < |blocks| && Replay(blocks).status == VmSpec.Ok
    ensures Replay(blocks[..m]).status == VmSpec.Ok
    ensures RunTxs(blocks[m].txs, Replay(blocks[..m]).contract).status == VmSpec.Ok
    decreases |blocks|
  {
    var init := blocks[..|blocks| - 1];
    if m < |init| {
      ReplayNext(init, m);
      assert init[..m] == blocks[..m];
    }
  }

  /**
   The exception: a failing block leaves its stores behind.  The block below is rejected, yet
   the contract state of the chain is no longer what its blocks produce.
   */
  lemma FailedBlockLeaks(s: Scheme, b: Block)
    requires Validate(s, [GENESIS], b) == Accept
    requires b.txs != [] && b.txs[0].data == LEAKY
    ensures var r := AddBlock(s, FRESH, b, Local);
            && r.status == VmFailed
            && r.chain.blocks == FRESH.blocks
            && !InStep(r.chain)
  {
    LeakyRuns(map[]);
    assert RunTxs(b.txs, map[]).contract.Keys == {[]};
  }

  /** `"" := 7` followed by an addition on the empty stack. */
  const LEAKY: Bytes := [0, VmSpec.PUSH_INT, VmSpec.PACK, 7, VmSpec.PUSH_INT, VmSpec.STORE, VmSpec.ADD_INT]

  /** From every contract state: the key is stored, and then the run fails. */
  lemma LeakyRuns(st: VmSpec.State)
    ensures VmSpec.Run(VmSpec.DEFAULT, LEAKY, VmSpec.Machine([], st))
         == VmSpec.Outcome(VmSpec.Err, VmSpec.Machine([], st[[] := VmSpec.Int(7)]))
  {
    var p := [VmCompile.Assign([], VmCompile.Lit(7))];
    var m, m' := VmSpec.Machine([], st), VmSpec.Machine([], st[[] := VmSpec.Int(7)]);
    assert LEAKY == VmCompile.Compile(p) + [VmSpec.ADD_INT] by { LeakyIs(); }
    VmCompile.ProgramRuns(VmSpec.DEFAULT, None, p, m);
    assert p[1..] == [];
    VmSpec.RunAppend(VmSpec.DEFAULT, None, VmCompile.Compile(p), [VmSpec.ADD_INT], m);
    VmCompile.RunOne(VmSpec.DEFAULT, VmSpec.LastByte(None, VmCompile.Compile(p)), VmSpec.ADD_INT, m');
  }

  lemma LeakyIs()
    ensures LEAKY == VmCompile.Compile([VmCompile.Assign([], VmCompile.Lit(7))]) + [VmSpec.ADD_INT]
  {
    var p := [VmCompile.Assign([], VmCompile.Lit(7))];
    assert p[1..] == [];
    assert VmCompile.AssignCode(p[0]) == [0, VmSpec.PUSH_INT, VmSpec.PACK, 7, VmSpec.PUSH_INT, VmSpec.STORE];
  }
}
