/**
 The transaction pool as functions: two ordered maps, `pending` for the next block and `all`
 for a rolling history.  `hash` is the transaction hash; equality of `T` is deep equality.
 */
module PoolSpec {
  import opened Basics

  type Hash = Bytes

  /** A list in arrival order with a lookup by hash. */
  datatype Ordered<T> = Ordered(list: seq<T>, lookup: map<Hash, T>)

  function Insert<T>(hash: T -> Hash, om: Ordered<T>, t: T): Ordered<T> {
    Ordered(om.list + [t], om.lookup[hash(t) := t])
  }

  function DeleteFirst<T(==)>(s: seq<T>, v: T): seq<T> {
    if s == [] then [] else if s[0] == v then s[1..] else [s[0]] + DeleteFirst(s[1..], v)
  }

  /** Deletes from the list the first entry equal to the one the lookup has under `h`. */
  function Remove<T(==)>(om: Ordered<T>, h: Hash): Ordered<T> {
    if h !in om.lookup then om else Ordered(DeleteFirst(om.list, om.lookup[h]), om.lookup - {h})
  }

  datatype Pool<T> = Pool(max: int, all: Ordered<T>, pending: Ordered<T>)

  function Empty<T>(max: int): Pool<T> {
    Pool(max, Ordered([], map[]), Ordered([], map[]))
  }

  /** `Full` stands for an error return. */
  datatype Answer = Full | Known | Accepted

  /** A full history gives up its oldest entry, looked up by hash. */
  function Pruned<T(==)>(hash: T -> Hash, p: Pool<T>): Ordered<T> {
    if |p.all.list| == p.max && p.all.list != [] then Remove(p.all, hash(p.all.list[0])) else p.all
  }

  function Add<T(==)>(hash: T -> Hash, p: Pool<T>, t: T): (Pool<T>, Answer) {
    if |p.pending.list| == p.max then (p, Full)
    else if hash(t) in p.pending.lookup then (p, Known)
    else if |p.all.list| == p.max && p.all.list == [] then (p, Full)
    else
      (p.(all := Insert(hash, Pruned(hash, p), t), pending := Insert(hash, p.pending, t)), Accepted)
  }

  function ClearPending<T>(p: Pool<T>): Pool<T> {
    p.(pending := Ordered([], map[]))
  }

  // ---- Runs ----

  datatype Op<T> = Offer(t: T) | Clear

  /** The pool with everything it has accepted so far. */
  datatype History<T> = History(pool: Pool<T>, accepted: seq<T>)

  function Step<T(==)>(hash: T -> Hash, h: History<T>, op: Op<T>): History<T> {
    match op
    case Clear => h.(pool := ClearPending(h.pool))
    case Offer(t) =>
      var (p, a) := Add(hash, h.pool, t);
      History(p, if a == Accepted then h.accepted + [t] else h.accepted)
  }

  function Run<T(==)>(hash: T -> Hash, max: int, ops: seq<Op<T>>): History<T> {
    if ops == [] then History(Empty(max), []) else Step(hash, Run(hash, max, ops[..|ops| - 1]), ops[|ops| - 1])
  }

  // ---- Pending ----

  /** Distinct hashes, and a lookup that holds exactly the entries of the list. */
  ghost predicate WellIndexed<T(!new)>(hash: T -> Hash, om: Ordered<T>) {
    && (forall i, j :: 0 <= i < j < |om.list| ==> hash(om.list[i]) != hash(om.list[j]))
    && (forall i :: 0 <= i < |om.list| ==> hash(om.list[i]) in om.lookup && om.lookup[hash(om.list[i])] == om.list[i])
    && (forall h :: h in om.lookup ==> hash(om.lookup[h]) == h && om.lookup[h] in om.list)
  }

  ghost predicate IsSuffix<T>(a: seq<T>, b: seq<T>) {
    |a| <= |b| && a == b[|b| - |a|..]
  }

  lemma InsertKeepsIndex<T(!new)>(hash: T -> Hash, om: Ordered<T>, t: T)
    requires WellIndexed(hash, om) && hash(t) !in om.lookup
    ensures WellIndexed(hash, Insert(hash, om, t))
  {
    var om' := Insert(hash, om, t);
    assert om'.list[|om.list|] == t;
    forall h | h in om'.lookup
      ensures hash(om'.lookup[h]) == h && om'.lookup[h] in om'.list
    {
      if h != hash(t) {
        var i :| 0 <= i < |om.list| && om.list[i] == om.lookup[h];
        assert om'.list[i] == om.lookup[h];
      }
    }
  }

  /** The lookup knows a hash exactly if an entry of the list has it. */
  lemma KnownExactly<T(!new)>(hash: T -> Hash, om: Ordered<T>, t: T)
    requires WellIndexed(hash, om)
    ensures hash(t) !in om.lookup <==> forall i :: 0 <= i < |om.list| ==> hash(om.list[i]) != hash(t)
  {
    if hash(t) in om.lookup {
      var i :| 0 <= i < |om.list| && om.list[i] == om.lookup[hash(t)];
      assert hash(om.list[i]) == hash(t);
    }
  }

  /**
   What an offer answers: an error if `pending` is full, then "known" if one with its hash is pending, and otherwise it
   is accepted at the end of both lists.  Without acceptance nothing changes.
   */
  lemma AddExactly<T(!new)>(hash: T -> Hash, p: Pool<T>, t: T)
    requires WellIndexed(hash, p.pending) && |p.pending.list| <= p.max
    ensures var (p', answer) := Add(hash, p, t);
            var full := |p.pending.list| == p.max;
            var known := exists i :: 0 <= i < |p.pending.list| && hash(p.pending.list[i]) == hash(t);
            && answer == (if full then Full else if known then Known else Accepted)
            && (answer != Accepted ==> p' == p)
            && (answer == Accepted ==>
                  && p'.pending.list == p.pending.list + [t] && p'.max == p.max
                  && p'.all.list != [] && p'.all.list[|p'.all.list| - 1] == t)
  {
    hide Pruned;
    KnownExactly(hash, p.pending, t);
  }

  ghost predicate PendingOk<T(!new)>(hash: T -> Hash, h: History<T>) {
    && |h.pool.pending.list| <= h.pool.max
    && WellIndexed(hash, h.pool.pending)
    && IsSuffix(h.pool.pending.list, h.accepted)
  }

  lemma StepKeepsPending<T(!new)>(hash: T -> Hash, h: History<T>, op: Op<T>)
    requires PendingOk(hash, h)
    ensures PendingOk(hash, Step(hash, h, op))
    ensures Step(hash, h, op).pool.max == h.pool.max
  {
    if op.Offer? {
      var (p, a) := Add(hash, h.pool, op.t);
      if a == Accepted {
        InsertKeepsIndex(hash, h.pool.pending, op.t);
        var n := |h.accepted| - |h.pool.pending.list|;
        assert (h.accepted + [op.t])[n..] == h.accepted[n..] + [op.t];
      }
    }
  }

  /**
   After every sequence of offers and clears, `pending` holds at most `max` entries with distinct
   hashes, its lookup agrees exactly with its list, and it is the tail of what was accepted.
   */
  lemma {:induction false} PendingStructure<T(!new)>(hash: T -> Hash, max: nat, ops: seq<Op<T>>)
    ensures PendingOk(hash, Run(hash, max, ops)) && Run(hash, max, ops).pool.max == max
  {
    if ops != [] {
      PendingStructure(hash, max, ops[..|ops| - 1]);
      StepKeepsPending(hash, Run(hash, max, ops[..|ops| - 1]), ops[|ops| - 1]);
    }
  }

  // ---- The rolling window ----

  function LastN<T>(s: seq<T>, n: nat): seq<T> {
    if |s| <= n then s else s[|s| - n..]
  }

  /** No two acceptances fewer than `max` apart share a hash. */
  ghost predicate WindowDistinct<T(!new)>(hash: T -> Hash, acc: seq<T>, max: nat) {
    forall i, j :: 0 <= i < j < |acc| && j - i < max ==> hash(acc[i]) != hash(acc[j])
  }

  /** `all` is exactly the last `max` acceptances in order, properly indexed. */
  ghost predicate IsWindow<T(!new)>(hash: T -> Hash, h: History<T>) {
    && h.pool.max >= 0
    && h.pool.all.list == LastN(h.accepted, h.pool.max)
    && WellIndexed(hash, h.pool.all)
  }

  lemma RemoveFirst<T(!new)>(hash: T -> Hash, om: Ordered<T>)
    requires WellIndexed(hash, om) && om.list != []
    ensures var om' := Remove(om, hash(om.list[0]));
            om'.list == om.list[1..] && WellIndexed(hash, om')
  {
    var om' := Remove(om, hash(om.list[0]));
    assert om'.list == om.list[1..];
    forall h | h in om'.lookup
      ensures hash(om'.lookup[h]) == h && om'.lookup[h] in om'.list
    {
      var i :| 0 <= i < |om.list| && om.list[i] == om.lookup[h];
      assert i > 0 && om'.list[i - 1] == om.lookup[h];
    }
  }

  /** Pruning makes room for one more entry at the end of the window. */
  lemma PruneShiftsWindow<T(!new)>(hash: T -> Hash, h: History<T>, t: T)
    requires IsWindow(hash, h) && h.pool.max > 0
    ensures WellIndexed(hash, Pruned(hash, h.pool))
    ensures Pruned(hash, h.pool).list + [t] == LastN(h.accepted + [t], h.pool.max)
    ensures |Pruned(hash, h.pool).list| < h.pool.max
  {
    WindowShift(h.accepted, t, h.pool.max);
    if |h.pool.all.list| == h.pool.max {
      RemoveFirst(hash, h.pool.all);
    }
  }

  lemma WindowShift<T>(acc: seq<T>, t: T, max: nat)
    requires max > 0
    ensures var w := LastN(acc, max);
            (if |w| == max then w[1..] else w) + [t] == LastN(acc + [t], max)
  {
  }

  /** A hash not seen within the window is not in the lookup after pruning. */
  lemma NewInWindow<T(!new)>(hash: T -> Hash, kept: Ordered<T>, acc: seq<T>, t: T, max: nat)
    requires WellIndexed(hash, kept) && |kept.list| < max && kept.list + [t] == LastN(acc + [t], max)
    requires WindowDistinct(hash, acc + [t], max)
    ensures hash(t) !in kept.lookup
  {
    var acc' := acc + [t];
    var off := |acc| - |kept.list|;
    forall i | 0 <= i < |kept.list|
      ensures hash(kept.list[i]) != hash(t)
    {
      assert acc'[off + i] == (kept.list + [t])[i];
      assert hash(acc'[off + i]) != hash(acc'[|acc|]);
    }
  }

  /** A new hash within the window keeps the window. */
  lemma AcceptKeepsWindow<T(!new)>(hash: T -> Hash, h: History<T>, t: T)
    requires IsWindow(hash, h) && Add(hash, h.pool, t).1 == Accepted
    requires WindowDistinct(hash, h.accepted + [t], h.pool.max)
    ensures IsWindow(hash, Step(hash, h, Offer(t)))
  {
    var kept := Pruned(hash, h.pool);
    PruneShiftsWindow(hash, h, t);
    NewInWindow(hash, kept, h.accepted, t, h.pool.max);
    InsertKeepsIndex(hash, kept, t);
  }

  /** Conversely, a window that is properly indexed after an acceptance has no repeated hash. */
  lemma WindowForcesDistinct<T(!new)>(hash: T -> Hash, h: History<T>, t: T)
    requires h.pool.max >= 0 && WindowDistinct(hash, h.accepted, h.pool.max) && Add(hash, h.pool, t).1 == Accepted
    requires IsWindow(hash, Step(hash, h, Offer(t)))
    ensures WindowDistinct(hash, h.accepted + [t], h.pool.max)
  {
    var om := Step(hash, h, Offer(t)).pool.all;
    assert WellIndexed(hash, om) && om.list == LastN(h.accepted + [t], h.pool.max);
    DistinctWindow(hash, om, h.accepted, t, h.pool.max);
  }

  lemma RecentDiffers<T(!new)>(hash: T -> Hash, om: Ordered<T>, acc: seq<T>, t: T, max: nat, i: nat)
    requires WellIndexed(hash, om) && om.list == LastN(acc + [t], max)
    requires i < |acc| && |acc| - i < max
    ensures hash(acc[i]) != hash(t)
  {
    var off := |acc| + 1 - |om.list|;
    assert om.list[i - off] == acc[i];
    assert om.list[|om.list| - 1] == t;
  }

  lemma DistinctWindow<T(!new)>(hash: T -> Hash, om: Ordered<T>, acc: seq<T>, t: T, max: nat)
    requires WellIndexed(hash, om) && om.list == LastN(acc + [t], max)
    requires WindowDistinct(hash, acc, max)
    ensures WindowDistinct(hash, acc + [t], max)
  {
    hide WellIndexed, LastN;
    var acc' := acc + [t];
    forall i, j | 0 <= i < j < |acc'| && j - i < max
      ensures hash(acc'[i]) != hash(acc'[j])
    {
      if j == |acc| {
        RecentDiffers(hash, om, acc, t, max, i);
      } else {
        assert hash(acc[i]) != hash(acc[j]);
      }
    }
  }

  lemma DistinctPrefix<T(!new)>(hash: T -> Hash, acc: seq<T>, t: T, max: nat)
    requires WindowDistinct(hash, acc + [t], max)
    ensures WindowDistinct(hash, acc, max)
  {
    assert forall i :: 0 <= i < |acc| ==> acc[i] == (acc + [t])[i];
  }

  /** Throughout the run, after every prefix of it. */
  ghost predicate AlwaysWindow<T(!new)>(hash: T -> Hash, max: nat, ops: seq<Op<T>>) {
    forall k :: 0 <= k <= |ops| ==> IsWindow(hash, Run(hash, max, ops[..k]))
  }

  lemma AlwaysSnoc<T(!new)>(hash: T -> Hash, max: nat, ops: seq<Op<T>>)
    requires ops != []
    ensures AlwaysWindow(hash, max, ops)
            <==> AlwaysWindow(hash, max, ops[..|ops| - 1]) && IsWindow(hash, Run(hash, max, ops))
  {
    var init := ops[..|ops| - 1];
    assert forall k :: 0 <= k < |ops| ==> init[..k] == ops[..k];
    assert ops[..|ops|] == ops;
    if AlwaysWindow(hash, max, ops) {
      assert IsWindow(hash, Run(hash, max, ops[..|ops|]));
      forall k | 0 <= k <= |init| ensures IsWindow(hash, Run(hash, max, init[..k])) {
        assert IsWindow(hash, Run(hash, max, ops[..k]));
      }
    }
    if AlwaysWindow(hash, max, init) && IsWindow(hash, Run(hash, max, ops)) {
      forall k | 0 <= k <= |ops| ensures IsWindow(hash, Run(hash, max, ops[..k])) {
        if k < |ops| {
          assert IsWindow(hash, Run(hash, max, init[..k]));
        }
      }
    }
  }

  lemma AlwaysNow<T(!new)>(hash: T -> Hash, max: nat, ops: seq<Op<T>>)
    requires AlwaysWindow(hash, max, ops)
    ensures IsWindow(hash, Run(hash, max, ops))
  {
    assert ops[..|ops|] == ops;
    assert IsWindow(hash, Run(hash, max, ops[..|ops|]));
  }

  /**
   Exactly when the history works: throughout a run `all` is the properly indexed window of
   the last `max` acceptances if and only if no hash was accepted twice within a window.
   */
  lemma {:induction false} WindowExact<T(!new)>(hash: T -> Hash, max: nat, ops: seq<Op<T>>)
    ensures AlwaysWindow(hash, max, ops) <==> WindowDistinct(hash, Run(hash, max, ops).accepted, max)
    decreases |ops|
  {
    if ops != [] {
      var init, last := ops[..|ops| - 1], ops[|ops| - 1];
      var h := Run(hash, max, init);
      PendingStructure(hash, max, init);
      WindowExact(hash, max, init);
      AlwaysSnoc(hash, max, ops);
      if last.Offer? && Add(hash, h.pool, last.t).1 == Accepted {
        if WindowDistinct(hash, h.accepted + [last.t], max) {
          DistinctPrefix(hash, h.accepted, last.t, max);
          AlwaysNow(hash, max, init);
          AcceptKeepsWindow(hash, h, last.t);
        } else if AlwaysWindow(hash, max, ops) {
          WindowForcesDistinct(hash, h, last.t);
        }
      } else if AlwaysWindow(hash, max, init) {
        AlwaysNow(hash, max, init);
      }
    }
  }

  /** While the window works, what is pending is the tail of the history. */
  lemma PendingIsTailOfAll<T(!new)>(hash: T -> Hash, max: nat, ops: seq<Op<T>>)
    requires WindowDistinct(hash, Run(hash, max, ops).accepted, max)
    ensures IsSuffix(Run(hash, max, ops).pool.pending.list, Run(hash, max, ops).pool.all.list)
  {
    PendingStructure(hash, max, ops);
    WindowExact(hash, max, ops);
    AlwaysNow(hash, max, ops);
  }

  // ---- Once it has outgrown its maximum ----

  /** The history after more operations. */
  function Resume<T(==)>(hash: T -> Hash, h: History<T>, ops: seq<Op<T>>): History<T> {
    if ops == [] then h else Step(hash, Resume(hash, h, ops[..|ops| - 1]), ops[|ops| - 1])
  }

  lemma {:induction false} RunResumes<T(!new)>(hash: T -> Hash, max: int, before: seq<Op<T>>, after: seq<Op<T>>)
    ensures Run(hash, max, before + after) == Resume(hash, Run(hash, max, before), after)
    decreases |after|
  {
    if after == [] {
      assert before + after == before;
    } else {
      var all := before + after;
      assert all[..|all| - 1] == before + after[..|after| - 1];
      RunResumes(hash, max, before, after[..|after| - 1]);
    }
  }

  /**
   A history longer than `max` is never pruned again: whatever follows, it keeps all its entries and gains
   every transaction accepted from then on, in order.
   */
  lemma {:induction false} NeverPrunedAgain<T(!new)>(hash: T -> Hash, h: History<T>, ops: seq<Op<T>>)
    requires |h.pool.all.list| > h.pool.max
    ensures var h' := Resume(hash, h, ops);
            && h'.pool.max == h.pool.max
            && h.accepted <= h'.accepted
            && h'.pool.all.list == h.pool.all.list + h'.accepted[|h.accepted|..]
    decreases |ops|
  {
    if ops != [] {
      var mid, last := Resume(hash, h, ops[..|ops| - 1]), ops[|ops| - 1];
      NeverPrunedAgain(hash, h, ops[..|ops| - 1]);
      if last.Offer? {
        assert (mid.accepted + [last.t])[|h.accepted|..] == mid.accepted[|h.accepted|..] + [last.t];
      }
    }
  }

  // ---- How it outgrows its maximum ----

  /** Each transaction is offered once `pending` has been cleared. */
  function Flow<T>(ts: seq<T>): seq<Op<T>> {
    if ts == [] then [] else Flow(ts[..|ts| - 1]) + [Offer(ts[|ts| - 1]), Clear]
  }

  /** New hashes, different from each other and from that of `a`. */
  ghost predicate News<T(!new)>(hash: T -> Hash, a: T, xs: seq<T>) {
    && (forall i :: 0 <= i < |xs| ==> hash(xs[i]) != hash(a))
    && (forall i, j :: 0 <= i < j < |xs| ==> hash(xs[i]) != hash(xs[j]))
  }

  lemma OneMore<T(!new)>(hash: T -> Hash, h: History<T>, t: T)
    requires h.pool.pending == Ordered([], map[]) && h.pool.max >= 2
    ensures var h' := Resume(hash, h, [Offer(t), Clear]);
            h' == History(h.pool.(all := Insert(hash, Pruned(hash, h.pool), t)), h.accepted + [t])
  {
    var ops := [Offer(t), Clear];
    assert ops[..1] == [Offer(t)] && [Offer(t)][..0] == [];
    assert Resume(hash, h, [Offer(t)]) == Step(hash, h, Offer(t));
  }

  lemma {:induction false} ResumeAppend<T(!new)>(hash: T -> Hash, h: History<T>, a: seq<Op<T>>, b: seq<Op<T>>)
    ensures Resume(hash, h, a + b) == Resume(hash, Resume(hash, h, a), b)
    decreases |b|
  {
    if b == [] {
      assert a + b == a;
    } else {
      assert (a + b)[..|a + b| - 1] == a + b[..|b| - 1];
      ResumeAppend(hash, h, a, b[..|b| - 1]);
    }
  }

  /**
   `a` and `a2` have the same hash.  The lookup knows it as long as both are listed; the pruning of the first
   deletes one of the two and the lookup's entry, and the other is there to stay.
   */
  ghost predicate Doubled<T(!new)>(hash: T -> Hash, max: nat, a: T, a2: T, xs: seq<T>, h: History<T>) {
    && h.pool.max == max && h.pool.pending == Ordered([], map[]) && h.accepted == [a, a2] + xs
    && if |xs| <= max - 2 then
         h.pool.all.list == [a, a2] + xs && hash(a) in h.pool.all.lookup && h.pool.all.lookup[hash(a)] == a2
       else h.pool.all.list == [a] + xs && hash(a) !in h.pool.all.lookup
  }

  lemma PruneDoubled<T(!new)>(hash: T -> Hash, max: nat, a: T, a2: T, xs: seq<T>, h: History<T>)
    requires max >= 2 && hash(a) == hash(a2) && Doubled(hash, max, a, a2, xs, h) && |xs| < max
    ensures var kept := Pruned(hash, h.pool);
            if |xs| < max - 2 then kept == h.pool.all
            else kept.list == [a] + xs && hash(a) !in kept.lookup
  {
    if |xs| == max - 2 {
      assert h.pool.all.list[0] == a;
      DeletesOneOfTwo(a, a2, xs);
    }
  }

  lemma DeletesOneOfTwo<T>(a: T, a2: T, xs: seq<T>)
    ensures DeleteFirst([a, a2] + xs, a2) == [a] + xs
  {
    assert ([a, a2] + xs)[1..] == [a2] + xs && ([a2] + xs)[1..] == xs;
  }

  lemma {:induction false} FlowDoubles<T(!new)>(hash: T -> Hash, max: nat, a: T, a2: T, xs: seq<T>, h: History<T>)
    requires max >= 2 && hash(a) == hash(a2) && |xs| <= max && News(hash, a, xs)
    requires Doubled(hash, max, a, a2, [], h)
    ensures Doubled(hash, max, a, a2, xs, Resume(hash, h, Flow(xs)))
    decreases |xs|
  {
    if xs != [] {
      var init, x := xs[..|xs| - 1], xs[|xs| - 1];
      FlowDoubles(hash, max, a, a2, init, h);
      var mid := Resume(hash, h, Flow(init));
      ResumeAppend(hash, h, Flow(init), [Offer(x), Clear]);
      assert init + [x] == xs;
      hide Resume, Doubled;
      OneMoreDoubled(hash, max, a, a2, init, x, mid);
    }
  }

  lemma OneMoreDoubled<T(!new)>(hash: T -> Hash, max: nat, a: T, a2: T, xs: seq<T>, x: T, h: History<T>)
    requires max >= 2 && hash(a) == hash(a2) && |xs| < max && hash(x) != hash(a)
    requires Doubled(hash, max, a, a2, xs, h)
    ensures Doubled(hash, max, a, a2, xs + [x], Resume(hash, h, [Offer(x), Clear]))
  {
    OneMore(hash, h, x);
    PruneDoubled(hash, max, a, a2, xs, h);
    hide Resume, Pruned;
    assert [a, a2] + xs + [x] == [a, a2] + (xs + [x]) && [a] + xs + [x] == [a] + (xs + [x]);
  }

  lemma FlowOfTwo<T>(a: T, b: T)
    ensures Flow([a, b]) == [Offer(a), Clear] + [Offer(b), Clear]
  {
    assert [a, b][..1] == [a] && [a][..0] == [];
    assert Flow([a]) == [] + [Offer(a), Clear] == [Offer(a), Clear];
  }

  lemma OnceAccepted<T(!new)>(hash: T -> Hash, max: nat, a: T)
    requires max >= 2
    ensures Resume(hash, History(Empty(max), []), [Offer(a), Clear])
         == History(Pool(max, Ordered([a], map[hash(a) := a]), Ordered([], map[])), [a])
  {
    OneMore(hash, History(Empty(max), []), a);
    hide Resume;
    assert [] + [a] == [a];
  }

  lemma TwiceAccepted<T(!new)>(hash: T -> Hash, max: nat, a: T, a2: T)
    requires max >= 2 && hash(a) == hash(a2)
    ensures Doubled(hash, max, a, a2, [], Run(hash, max, Flow([a, a2])))
  {
    var h0: History<T> := History(Empty(max), []);
    RunResumes(hash, max, [], Flow([a, a2]));
    assert Run(hash, max, []) == h0;
    hide Run, Resume, Flow;
    assert [] + Flow([a, a2]) == Flow([a, a2]);
    FlowOfTwo(a, a2);
    ResumeAppend(hash, h0, [Offer(a), Clear], [Offer(a2), Clear]);
    OnceAccepted(hash, max, a);
    OneMore(hash, Resume(hash, h0, [Offer(a), Clear]), a2);
    assert [a] + [a2] == [a, a2] + [];
  }

  /**
   The other side, for every `max` of at least 2 and every hash.  A hash is accepted twice in a row, and then `max`
   new ones arrive, each after a clear.  The history then has `max` + 1 entries: a first one its lookup does not
   know, and the new ones.
   */
  lemma HistoryOutgrowsMax<T(!new)>(hash: T -> Hash, max: nat, a: T, a2: T, xs: seq<T>)
    requires max >= 2 && hash(a) == hash(a2) && |xs| == max && News(hash, a, xs)
    ensures var h := Run(hash, max, Flow([a, a2]) + Flow(xs));
            h.pool.all.list == [a] + xs && h.accepted == [a, a2] + xs && hash(a) !in h.pool.all.lookup
  {
    TwiceAccepted(hash, max, a, a2);
    FlowDoubles(hash, max, a, a2, xs, Run(hash, max, Flow([a, a2])));
    RunResumes(hash, max, Flow([a, a2]), Flow(xs));
  }

  /** From there on it grows by every further acceptance: it holds all but one of the transactions ever accepted. */
  lemma HistoryGrowsForever<T(!new)>(hash: T -> Hash, max: nat, a: T, a2: T, xs: seq<T>, ops: seq<Op<T>>)
    requires max >= 2 && hash(a) == hash(a2) && |xs| == max && News(hash, a, xs)
    ensures var h := Run(hash, max, Flow([a, a2]) + Flow(xs) + ops);
            |h.accepted| >= max + 2 && h.pool.all.list == [a] + h.accepted[2..]
  {
    hide Run, Resume, Flow, News, PendingOk;
    var before := Flow([a, a2]) + Flow(xs);
    var h := Run(hash, max, before);
    HistoryOutgrowsMax(hash, max, a, a2, xs);
    PendingStructure(hash, max, before);
    RunResumes(hash, max, before, ops);
    NeverPrunedAgain(hash, h, ops);
    var h' := Run(hash, max, before + ops);
    assert h'.accepted == h.accepted + h'.accepted[|h.accepted|..];
    assert h'.accepted[2..] == xs + h'.accepted[|h.accepted|..];
  }
}
