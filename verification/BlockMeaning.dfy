/**
 What a block's transactions do to the contract state: they run one after the other, each on what the one before left
 behind, and what they store is there when the block has been added.
 */
module BlockMeaning {
  import opened Basics
  import opened Ledger
  import opened VmSpec
  import opened VmCompile

  // ---- Arbitrary bytecode ----

  /** A single transaction leaves what its program leaves, whether it succeeds or fails. */
  lemma OneTransaction(t: Tx, st: State)
    ensures var r := VmSpec.Run(DEFAULT, t.data, Machine([], st));
            RunTxs([t], st) == Execution(r.status, r.m.state)
  {
    assert [t][1..] == [];
  }

  /** A list of transactions runs on what the list before it left; after a failure nothing more runs. */
  lemma {:induction false} TransactionsInTurn(xs: seq<Tx>, ys: seq<Tx>, st: State)
    ensures RunTxs(xs + ys, st) == var e := RunTxs(xs, st); if e.status == Ok then RunTxs(ys, e.contract) else e
    decreases |xs|
  {
    if xs == [] {
      assert xs + ys == ys;
    } else {
      var r := VmSpec.Run(DEFAULT, xs[0].data, Machine([], st));
      assert (xs + ys)[0] == xs[0] && (xs + ys)[1..] == xs[1..] + ys;
      if r.status == Ok {
        TransactionsInTurn(xs[1..], ys, r.m.state);
      }
    }
  }

  // ---- Compiled assignments ----

  /** A program that compiles cleanly and fits the stack. */
  predicate Compilable(p: seq<Assign>) {
    p != [] && CleanProgram(p) && Fits(1024, p)
  }

  function Concat(ps: seq<seq<Assign>>): seq<Assign> {
    if ps == [] then [] else ps[0] + Concat(ps[1..])
  }

  lemma {:induction false} MeaningInTurn(p: seq<Assign>, q: seq<Assign>, st: State)
    ensures Meaning(DEFAULT, p + q, st)
         == var m := Meaning(DEFAULT, p, st); if m.0 == Ok then Meaning(DEFAULT, q, m.1) else m
    decreases |p|
  {
    if p == [] {
      assert p + q == q;
    } else {
      assert (p + q)[0] == p[0] && (p + q)[1..] == p[1..] + q;
      var d := Eval(DEFAULT, p[0].e, st);
      EvalFailsOk(DEFAULT, p[0].e, st);
      if d.Val? {
        MeaningInTurn(p[1..], q, st[p[0].key := d.v]);
      }
    }
  }

  /** Transactions that carry compiled programs, one each. */
  ghost predicate Carry(txs: seq<Tx>, ps: seq<seq<Assign>>) {
    |txs| == |ps| && forall i :: 0 <= i < |txs| ==> Compilable(ps[i]) && txs[i].data == Compile(ps[i])
  }

  /** They end as the concatenated assignments mean, in status and state. */
  lemma {:induction false} TransactionsMean(txs: seq<Tx>, ps: seq<seq<Assign>>, st: State)
    requires Carry(txs, ps)
    ensures RunTxs(txs, st) == var m := Meaning(DEFAULT, Concat(ps), st); Execution(m.0, m.1)
    decreases |txs|
  {
    hide Compile;
    if txs != [] {
      CompileCorrect(ps[0], Machine([], st));
      MeaningInTurn(ps[0], Concat(ps[1..]), st);
      var m := Meaning(DEFAULT, ps[0], st);
      if m.0 == Ok {
        TransactionsMean(txs[1..], ps[1..], m.1);
      }
    }
  }

  /**
   Adding a block of compiled programs.  A block that validates and has a new hash is added exactly if the assignments
   of all its transactions, one after the other, succeed on the chain's contract state; and in every case the contract
   state afterwards is what those assignments leave.
   */
  lemma BlockMeans(s: Scheme, c: Chain, b: Block, origin: Origin, ps: seq<seq<Assign>>)
    requires Validate(s, c.blocks, b) == Accept && !HashTaken(s, c.blocks, b.header) && Carry(b.txs, ps)
    ensures var r, m := AddBlock(s, c, b, origin), Meaning(DEFAULT, Concat(ps), c.contract);
            && (r.status == Added <==> m.0 == Ok)
            && r.chain.contract == m.1
            && r.chain.blocks == c.blocks + if m.0 == Ok then [b] else []
  {
    hide Validate, HashTaken, RunTxs, Meaning, Carry;
    TransactionsMean(b.txs, ps, c.contract);
  }

  /** The same for any bytecode at all: the state afterwards is that of the last program that ran. */
  lemma BlockLeaves(s: Scheme, c: Chain, b: Block, origin: Origin, t: Tx)
    requires Validate(s, c.blocks, b) == Accept && b.txs != [] && b.txs[|b.txs| - 1] == t
    requires RunTxs(b.txs[..|b.txs| - 1], c.contract).status == Ok
    ensures var before := RunTxs(b.txs[..|b.txs| - 1], c.contract).contract;
            AddBlock(s, c, b, origin).chain.contract == VmSpec.Run(DEFAULT, t.data, Machine([], before)).m.state
  {
    hide Validate, HashTaken, RunTxs;
    assert b.txs == b.txs[..|b.txs| - 1] + [t];
    TransactionsInTurn(b.txs[..|b.txs| - 1], [t], c.contract);
    OneTransaction(t, RunTxs(b.txs[..|b.txs| - 1], c.contract).contract);
  }
}
