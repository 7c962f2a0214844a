/**
 The in-memory store served by one goroutine over unbuffered channels, as an interleaving of
 client and handler steps.

 A client call is blocked until the handler takes it.  A put returns from then on, possibly
 before the handler has written the map; a get waits for the handler's answer in a
 response channel with room for one.
 */
module MemStore {
  import opened Basics

  datatype Op<K, V> = Put(key: K, val: V) | Get(key: K)

  datatype Answer<V> = Done | Found(val: Option<V>)

  /** One call: when it was invoked, its place in the order of the handler, when it returned and with what. */
  datatype Call<K, V> = Call(
    op: Op<K, V>,
    invoked: nat,
    place: Option<nat>,
    response: Option<Option<V>>, // the response channel's one slot
    returned: Option<nat>,
    answer: Answer<V>)

  /** The handler received call `id` at time `at`. */
  datatype Entry<K, V> = Entry(id: nat, op: Op<K, V>, at: nat)

  /** Where the handler goroutine is; the number names the call it works on. */
  datatype Handler<V> = Idle | Writing(id: nat) | Reading(id: nat) | Replying(id: nat, val: Option<V>)

  datatype Store<K, V> = Store(
    clock: nat,
    calls: seq<Call<K, V>>,
    handler: Handler<V>,
    data: map<K, V>,
    order: seq<Entry<K, V>>)     // calls in the order in which the handler took them

  datatype Step<K, V> =
    | Invoke(op: Op<K, V>)
    | Take(id: nat)
    | Write
    | Lookup
    | Reply
    | Return(id: nat)

  function Look<K, V>(data: map<K, V>, key: K): Option<V> {
    if key in data then Some(data[key]) else None
  }

  function Fresh<K, V>(): Store<K, V> {
    Store(0, [], Idle, map[], [])
  }

  predicate Enabled<K, V>(s: Store<K, V>, st: Step<K, V>) {
    match st
    case Invoke(_) => true
    case Take(id) => s.handler.Idle? && id < |s.calls| && s.calls[id].place.None?
    case Write => s.handler.Writing? && s.handler.id < |s.calls| && s.calls[s.handler.id].op.Put?
    case Lookup => s.handler.Reading? && s.handler.id < |s.calls|
    case Reply => s.handler.Replying? && s.handler.id < |s.calls| && s.calls[s.handler.id].response.None?
    case Return(id) => id < |s.calls| && s.calls[id].returned.None? &&
                       if s.calls[id].op.Put? then s.calls[id].place.Some? else s.calls[id].response.Some?
  }

  /** One step at time `s.clock`; a step that is not enabled changes nothing. */
  function Next<K(==), V>(s: Store<K, V>, st: Step<K, V>): Store<K, V> {
    if !Enabled(s, st) then s else
    var t := s.(clock := s.clock + 1);
    match st
    case Invoke(op) => t.(calls := s.calls + [Call(op, s.clock, None, None, None, Done)])
    case Take(id) =>
      t.(calls := s.calls[id := s.calls[id].(place := Some(|s.order|))],
         handler := if s.calls[id].op.Put? then Writing(id) else Reading(id),
         order := s.order + [Entry(id, s.calls[id].op, s.clock)])
    case Write =>
      var op := s.calls[s.handler.id].op;
      t.(data := s.data[op.key := op.val], handler := Idle)
    case Lookup => t.(handler := Replying(s.handler.id, Look(s.data, s.calls[s.handler.id].op.key)))
    case Reply =>
      var id := s.handler.id;
      t.(calls := s.calls[id := s.calls[id].(response := Some(s.handler.val))], handler := Idle)
    case Return(id) =>
      var c := s.calls[id];
      t.(calls := s.calls[id := c.(returned := Some(s.clock), response := None,
                                   answer := if c.op.Put? then Done else Found(c.response.value))])
  }

  function Run<K(==), V>(steps: seq<Step<K, V>>): Store<K, V> {
    if steps == [] then Fresh() else Next(Run(steps[..|steps| - 1]), steps[|steps| - 1])
  }

  // ---- The sequential meaning ----

  /** The value a get of `key` should see after these operations, one after the other. */
  function Latest<K(==), V>(order: seq<Entry<K, V>>, key: K): Option<V> {
    if order == [] then None else
    var last := order[|order| - 1].op;
    if last.Put? && last.key == key then Some(last.val) else Latest(order[..|order| - 1], key)
  }

  /** Invoked, then taken at its place in the order, then returned; every answer is the latest put before that place. */
  ghost predicate CallOk<K, V>(order: seq<Entry<K, V>>, clock: nat, id: nat, c: Call<K, V>) {
    && c.invoked < clock
    && (c.place.None? ==> c.response.None? && c.returned.None?)
    && (c.place.Some? ==>
          && c.place.value < |order|
          && order[c.place.value].id == id && order[c.place.value].op == c.op
          && c.invoked < order[c.place.value].at
          && (c.response.Some? ==>
                && c.op.Get? && c.returned.None?
                && c.response.value == Latest(order[..c.place.value], c.op.key))
          && (c.returned.Some? ==>
                && order[c.place.value].at < c.returned.value < clock
                && c.answer == if c.op.Put? then Done else Found(Latest(order[..c.place.value], c.op.key))))
  }

  ghost predicate CallsOk<K, V>(s: Store<K, V>) {
    forall id :: 0 <= id < |s.calls| ==> CallOk(s.order, s.clock, id, s.calls[id])
  }

  ghost predicate OrderOk<K, V>(s: Store<K, V>) {
    && (forall i :: 0 <= i < |s.order| ==>
          s.order[i].id < |s.calls| && s.calls[s.order[i].id].place == Some(i) && s.order[i].at < s.clock)
    && (forall i, j :: 0 <= i < j < |s.order| ==> s.order[i].at < s.order[j].at)
  }

  /** The handler works on the call it took last, which has no answer yet. */
  ghost predicate HandlerOk<K, V>(s: Store<K, V>) {
    s.handler != Idle ==>
      && s.order != [] && s.handler.id == s.order[|s.order| - 1].id && s.handler.id < |s.calls|
      && var c := s.calls[s.handler.id];
         && c.place == Some(|s.order| - 1)
         && (s.handler.Writing? <==> c.op.Put?)
         && (c.op.Get? ==> c.response.None? && c.returned.None?)
         && (s.handler.Replying? ==> s.handler.val == Latest(s.order[..|s.order| - 1], c.op.key))
  }

  /** The operations whose effect is in the map: all that were taken, except a put not yet written. */
  function Applied<K, V>(s: Store<K, V>): seq<Entry<K, V>> {
    if s.handler.Writing? && s.order != [] then s.order[..|s.order| - 1] else s.order
  }

  ghost predicate DataAgrees<K(!new), V>(s: Store<K, V>) {
    forall key :: Look(s.data, key) == Latest(Applied(s), key)
  }

  ghost predicate Inv<K(!new), V>(s: Store<K, V>) {
    OrderOk(s) && CallsOk(s) && HandlerOk(s) && DataAgrees(s)
  }

  // ---- Preservation ----

  /** What is true of a call stays true as time passes and the order grows at its end. */
  lemma CallStays<K, V>(order: seq<Entry<K, V>>, clock: nat, more: seq<Entry<K, V>>, later: nat, id: nat, c: Call<K, V>)
    requires CallOk(order, clock, id, c) && clock <= later
    ensures CallOk(order + more, later, id, c)
  {
    if c.place.Some? {
      assert (order + more)[..c.place.value] == order[..c.place.value];
    }
  }

  lemma CallsStay<K, V>(s: Store<K, V>, more: seq<Entry<K, V>>)
    requires CallsOk(s)
    ensures forall id :: 0 <= id < |s.calls| ==> CallOk(s.order + more, s.clock + 1, id, s.calls[id])
  {
    forall id | 0 <= id < |s.calls| ensures CallOk(s.order + more, s.clock + 1, id, s.calls[id]) {
      CallStays(s.order, s.clock, more, s.clock + 1, id, s.calls[id]);
    }
  }

  lemma InvokeKeeps<K(!new), V>(s: Store<K, V>, op: Op<K, V>)
    requires Inv(s)
    ensures Inv(Next(s, Invoke(op)))
  {
    hide Latest;
    CallsStay(s, []);
    assert s.order + [] == s.order;
  }

  lemma GetChangesNothing<K, V>(order: seq<Entry<K, V>>, e: Entry<K, V>, key: K)
    requires e.op.Get?
    ensures Latest(order + [e], key) == Latest(order, key)
  {
    assert (order + [e])[..|order|] == order;
  }

  lemma TakeKeepsCalls<K(!new), V>(s: Store<K, V>, id: nat)
    requires Inv(s) && Enabled(s, Take(id))
    ensures CallsOk(Next(s, Take(id)))
  {
    hide Latest, OrderOk, HandlerOk, DataAgrees;
    var t := Next(s, Take(id));
    CallsStay(s, [Entry(id, s.calls[id].op, s.clock)]);
    OneCall(s, id);
    assert CallOk(t.order, t.clock, id, t.calls[id]) by { hide CallsOk; }
  }

  lemma TakeKeepsOrder<K(!new), V>(s: Store<K, V>, id: nat)
    requires OrderOk(s) && Enabled(s, Take(id))
    ensures OrderOk(Next(s, Take(id)))
  {
  }

  lemma TakeKeeps<K(!new), V>(s: Store<K, V>, id: nat)
    requires Inv(s) && Enabled(s, Take(id))
    ensures Inv(Next(s, Take(id)))
  {
    TakeKeepsCalls(s, id);
    TakeKeepsOrder(s, id);
    hide CallsOk, OrderOk, Latest;
    var t, e := Next(s, Take(id)), Entry(id, s.calls[id].op, s.clock);
    assert HandlerOk(t) by { TakeHandler(s, id); }
    forall key ensures Look(t.data, key) == Latest(Applied(t), key) {
      assert Look(s.data, key) == Latest(s.order, key);
      assert t.order[..|t.order| - 1] == s.order;
      if e.op.Get? { GetChangesNothing(s.order, e, key); }
    }
  }

  lemma TakeHandler<K(!new), V>(s: Store<K, V>, id: nat)
    requires Inv(s) && Enabled(s, Take(id))
    ensures HandlerOk(Next(s, Take(id)))
  {
    hide Latest;
    assert CallOk(s.order, s.clock, id, s.calls[id]);
  }

  lemma WriteKeeps<K(!new), V>(s: Store<K, V>)
    requires Inv(s) && Enabled(s, Write)
    ensures Inv(Next(s, Write))
  {
    var t := Next(s, Write);
    CallsStay(s, []);
    assert s.order + [] == s.order;
    assert CallOk(s.order, s.clock, s.handler.id, s.calls[s.handler.id]);
    hide CallsOk, CallOk;
    forall key ensures Look(t.data, key) == Latest(Applied(t), key) {
      assert Look(s.data, key) == Latest(s.order[..|s.order| - 1], key);
    }
    assert CallsOk(t) by { SameCalls(s, t); }
  }

  lemma SameCalls<K(!new), V>(s: Store<K, V>, t: Store<K, V>)
    requires CallsOk(s) && t.calls == s.calls && t.order == s.order && t.clock == s.clock + 1
    ensures CallsOk(t)
  {
    CallsStay(s, []);
    assert s.order + [] == s.order;
  }

  lemma SameOrder<K(!new), V>(s: Store<K, V>, t: Store<K, V>)
    requires OrderOk(s) && t.calls == s.calls && t.order == s.order && t.clock == s.clock + 1
    ensures OrderOk(t)
  {
  }

  /** The handler sees the latest put: nothing but its own get came since. */
  lemma LookupSees<K(!new), V>(s: Store<K, V>)
    requires HandlerOk(s) && DataAgrees(s) && CallsOk(s) && Enabled(s, Lookup)
    ensures var key := s.calls[s.handler.id].op.key;
            s.order != [] && Look(s.data, key) == Latest(s.order[..|s.order| - 1], key)
  {
    var c, e := s.calls[s.handler.id], s.order[|s.order| - 1];
    OneCall(s, s.handler.id);
    assert s.order == s.order[..|s.order| - 1] + [e];
    GetChangesNothing(s.order[..|s.order| - 1], e, c.op.key);
    assert Look(s.data, c.op.key) == Latest(s.order, c.op.key);
  }

  lemma LookupKeeps<K(!new), V>(s: Store<K, V>)
    requires Inv(s) && Enabled(s, Lookup)
    ensures Inv(Next(s, Lookup))
  {
    hide CallsOk, OrderOk, Latest, Look;
    var t := Next(s, Lookup);
    SameCalls(s, t);
    SameOrder(s, t);
    LookupSees(s);
    assert DataAgrees(t) by {
      forall key ensures Look(t.data, key) == Latest(Applied(t), key) {
        assert Look(s.data, key) == Latest(Applied(s), key);
      }
    }
  }

  lemma OneCall<K, V>(s: Store<K, V>, id: nat)
    requires CallsOk(s) && id < |s.calls|
    ensures CallOk(s.order, s.clock, id, s.calls[id])
  {
  }

  /** A step that changes call `id` only, and not its place. */
  lemma OneCallChanges<K, V>(s: Store<K, V>, id: nat, c: Call<K, V>)
    requires CallsOk(s) && OrderOk(s) && id < |s.calls| && c.place == s.calls[id].place
    requires CallOk(s.order, s.clock + 1, id, c)
    ensures var t := s.(calls := s.calls[id := c], clock := s.clock + 1);
            CallsOk(t) && OrderOk(t)
  {
    hide CallOk;
    CallsStay(s, []);
    assert s.order + [] == s.order;
  }

  lemma ReplyKeeps<K(!new), V>(s: Store<K, V>)
    requires Inv(s) && Enabled(s, Reply)
    ensures Inv(Next(s, Reply))
  {
    hide Latest;
    var t, id := Next(s, Reply), s.handler.id;
    OneCall(s, id);
    OneCallChanges(s, id, t.calls[id]);
    assert CallsOk(t) && OrderOk(t) by { SameCallsAndOrder(s.(calls := t.calls, clock := t.clock), t); }
  }

  lemma SameCallsAndOrder<K, V>(s: Store<K, V>, t: Store<K, V>)
    requires CallsOk(s) && OrderOk(s) && t.calls == s.calls && t.order == s.order && t.clock == s.clock
    ensures CallsOk(t) && OrderOk(t)
  {
  }

  lemma ReturnedOk<K(!new), V>(s: Store<K, V>, id: nat)
    requires CallsOk(s) && OrderOk(s) && Enabled(s, Return(id))
    ensures CallOk(s.order, s.clock + 1, id, Next(s, Return(id)).calls[id])
  {
    hide Latest;
    OneCall(s, id);
  }

  lemma ReturnHandler<K(!new), V>(s: Store<K, V>, id: nat)
    requires HandlerOk(s) && Enabled(s, Return(id))
    ensures HandlerOk(Next(s, Return(id)))
  {
    hide Latest;
  }

  lemma ReturnKeeps<K(!new), V>(s: Store<K, V>, id: nat)
    requires Inv(s) && Enabled(s, Return(id))
    ensures Inv(Next(s, Return(id)))
  {
    hide Latest, CallOk, CallsOk, OrderOk, HandlerOk;
    var t := Next(s, Return(id));
    ReturnedOk(s, id);
    ReturnHandler(s, id);
    OneCallChanges(s, id, t.calls[id]);
  }

  lemma {:induction false} RunKeeps<K(!new), V>(steps: seq<Step<K, V>>)
    ensures Inv(Run(steps))
  {
    hide Inv;
    if steps == [] {
      FreshInv<K, V>();
    } else {
      var s := Run(steps[..|steps| - 1]);
      RunKeeps(steps[..|steps| - 1]);
      if Enabled(s, steps[|steps| - 1]) {
        match steps[|steps| - 1]
        case Invoke(op) => InvokeKeeps(s, op);
        case Take(id) => TakeKeeps(s, id);
        case Write => WriteKeeps(s);
        case Lookup => LookupKeeps(s);
        case Reply => ReplyKeeps(s);
        case Return(id) => ReturnKeeps(s, id);
      }
    }
  }

  lemma FreshInv<K(!new), V>()
    ensures Inv(Fresh<K, V>())
  {
  }

  /**
   Linearizability, in every interleaving.  The order in which the handler took the calls is a
   total order in which (1) every call occurs at most once and every returned call occurs, (2) every
   returned get was answered with the latest put to its key before it, and
   (3) a call that returned before another was invoked comes first.
   */
  lemma Linearizable<K(!new), V>(steps: seq<Step<K, V>>)
    ensures var s := Run(steps);
            && (forall i :: 0 <= i < |s.order| ==>
                  s.order[i].id < |s.calls| && s.order[i].op == s.calls[s.order[i].id].op)
            && (forall i, j :: 0 <= i < j < |s.order| ==> s.order[i].id != s.order[j].id)
            && (forall id :: 0 <= id < |s.calls| && s.calls[id].returned.Some? ==>
                  exists i :: 0 <= i < |s.order| && s.order[i].id == id)
            && (forall i :: 0 <= i < |s.order| ==>
                  var c := s.calls[s.order[i].id];
                  c.op.Get? && c.returned.Some? ==> c.answer == Found(Latest(s.order[..i], c.op.key)))
            && (forall i, j :: 0 <= i < |s.order| && 0 <= j < |s.order| ==>
                  var a, b := s.calls[s.order[i].id], s.calls[s.order[j].id];
                  a.returned.Some? && a.returned.value < b.invoked ==> i < j)
  {
    hide Latest, Run;
    RunKeeps(steps);
    var s := Run(steps);
    forall i | 0 <= i < |s.order|
      ensures s.order[i].id < |s.calls| && CallOk(s.order, s.clock, s.order[i].id, s.calls[s.order[i].id])
    {
      OneCall(s, s.order[i].id);
    }
    forall id | 0 <= id < |s.calls| && s.calls[id].returned.Some?
      ensures exists i :: 0 <= i < |s.order| && s.order[i].id == id
    {
      OneCall(s, id);
      assert s.order[s.calls[id].place.value].id == id;
    }
  }

  /** The handler never blocks on a response: whenever it has one to send, the channel's slot is free. */
  lemma HandlerNeverBlocks<K(!new), V>(steps: seq<Step<K, V>>)
    ensures var s := Run(steps);
            && (s.handler.Writing? ==> Enabled(s, Write))
            && (s.handler.Reading? ==> Enabled(s, Lookup))
            && (s.handler.Replying? ==> Enabled(s, Reply))
  {
    RunKeeps(steps);
  }

  /** A put may return while the map still lacks its value: the return does not wait for the write. */
  lemma PutReturnsEarly<K(!new), V>(key: K, val: V)
    ensures var s := Run([Invoke(Put(key, val)), Take(0), Return(0)]);
            |s.calls| == 1 && s.calls[0].returned.Some? && key !in s.data
  {
    var steps: seq<Step<K, V>> := [Invoke(Put(key, val)), Take(0), Return(0)];
    var s1 := Next(Fresh<K, V>(), steps[0]);
    assert Run(steps[..1]) == s1 by {
      assert steps[..1][..0] == [];
      assert Run<K, V>([]) == Fresh<K, V>();
    }
    var s2 := Next(s1, steps[1]);
    assert Run(steps[..2]) == s2 by { assert steps[..2][..1] == steps[..1]; }
    assert Run(steps) == Next(s2, steps[2]) by { assert steps[..|steps| - 1] == steps[..2]; }
  }

  // ---- Progress ----

  lemma RunSnoc<K(!new), V>(steps: seq<Step<K, V>>, st: Step<K, V>)
    ensures Run(steps + [st]) == Next(Run(steps), st)
  {
    assert (steps + [st])[..|steps|] == steps;
  }

  /** A get that was taken has its answer, or the handler is at work on it. */
  ghost predicate Attended<K, V>(s: Store<K, V>) {
    forall id :: 0 <= id < |s.calls| ==>
      var c := s.calls[id];
      c.op.Get? && c.place.Some? && c.returned.None? ==>
        c.response.Some? || ((s.handler.Reading? || s.handler.Replying?) && s.handler.id == id)
  }

  lemma NextAttended<K(!new), V>(s: Store<K, V>, st: Step<K, V>)
    requires Inv(s) && Attended(s)
    ensures Attended(Next(s, st))
  {
    hide Latest, CallOk, OrderOk, DataAgrees;
  }

  lemma {:induction false} RunAttended<K(!new), V>(steps: seq<Step<K, V>>)
    ensures Attended(Run(steps))
  {
    hide Inv, Attended, Next;
    if steps == [] {
      FreshAttended<K, V>();
    } else {
      RunKeeps(steps[..|steps| - 1]);
      RunAttended(steps[..|steps| - 1]);
      NextAttended(Run(steps[..|steps| - 1]), steps[|steps| - 1]);
    }
  }

  lemma FreshAttended<K(!new), V>()
    ensures Attended(Fresh<K, V>())
  {
  }

  /** What the handler does by itself until it is idle. */
  function Finish<K, V>(h: Handler<V>): seq<Step<K, V>> {
    match h
    case Idle => []
    case Writing(_) => [Write]
    case Reading(_) => [Lookup, Reply]
    case Replying(_, _) => [Reply]
  }

  /** The handler finishes its work, and no call is lost over it. */
  lemma Finishes<K(!new), V>(steps: seq<Step<K, V>>)
    ensures var s, s' := Run(steps), Run(steps + Finish(Run(steps).handler));
            && s'.handler.Idle? && |s'.calls| == |s.calls| && s'.order == s.order
            && forall id :: 0 <= id < |s.calls| ==>
                 && s'.calls[id].op == s.calls[id].op && s'.calls[id].place == s.calls[id].place
                 && s'.calls[id].returned == s.calls[id].returned
  {
    RunKeeps(steps);
    var s := Run(steps);
    hide Run, Latest, CallsOk, OrderOk, DataAgrees;
    match s.handler
    case Idle => assert steps + [] == steps;
    case Writing(_) => RunSnoc(steps, Write);
    case Replying(_, _) => RunSnoc(steps, Reply);
    case Reading(_) =>
      RunSnoc(steps, Lookup);
      RunSnoc(steps + [Lookup], Reply);
      assert steps + [Lookup] + [Reply] == steps + [Lookup, Reply];
  }

  /** A get invoked and not yet taken is answered in four steps of an idle handler, with the latest put to its key. */
  lemma GetIsAnswered<K(!new), V>(steps: seq<Step<K, V>>, id: nat)
    requires var s := Run(steps);
             s.handler.Idle? && id < |s.calls| && s.calls[id].op.Get? && s.calls[id].place.None?
    ensures var s, s' := Run(steps), Run(steps + [Take(id), Lookup, Reply, Return(id)]);
            && |s'.calls| == |s.calls| && s'.calls[id].returned.Some?
            && s'.calls[id].answer == Found(Latest(s.order, s.calls[id].op.key))
  {
    hide Run, Latest, Inv, Next, Look, CallOk;
    var s := Run(steps);
    NotYetTaken(steps, id);
    RunSnoc(steps, Take(id));
    RunSnoc(steps + [Take(id)], Lookup);
    RunSnoc(steps + [Take(id)] + [Lookup], Reply);
    RunSnoc(steps + [Take(id)] + [Lookup] + [Reply], Return(id));
    assert steps + [Take(id)] + [Lookup] + [Reply] + [Return(id)] == steps + [Take(id), Lookup, Reply, Return(id)];
    AnswerInFour(s, id);
  }

  lemma NotYetTaken<K(!new), V>(steps: seq<Step<K, V>>, id: nat)
    requires var s := Run(steps); s.handler.Idle? && id < |s.calls| && s.calls[id].place.None?
    ensures var s := Run(steps);
            && s.calls[id].response.None? && s.calls[id].returned.None?
            && Look(s.data, s.calls[id].op.key) == Latest(s.order, s.calls[id].op.key)
  {
    hide Run, Latest, Look;
    RunKeeps(steps);
    OneCall(Run(steps), id);
  }

  lemma AnswerInFour<K(!new), V>(s: Store<K, V>, id: nat)
    requires s.handler.Idle? && id < |s.calls|
    requires var c := s.calls[id]; c.op.Get? && c.place.None? && c.response.None? && c.returned.None?
    ensures var s' := Next(Next(Next(Next(s, Take(id)), Lookup), Reply), Return(id));
            && |s'.calls| == |s.calls| && s'.calls[id].returned.Some?
            && s'.calls[id].answer == Found(Look(s.data, s.calls[id].op.key))
  {
    hide Look;
    var c := s.calls[id];
    var val := Look(s.data, c.op.key);
    var s1 := Next(s, Take(id));
    assert s1.handler == Reading(id) && s1.data == s.data && |s1.calls| == |s.calls|;
    assert s1.calls[id] == c.(place := Some(|s.order|));
    var s2 := Next(s1, Lookup);
    assert s2.handler == Replying(id, val) && s2.calls == s1.calls;
    var s3 := Next(s2, Reply);
    assert |s3.calls| == |s.calls| && s3.calls[id] == s1.calls[id].(response := Some(val));
  }

  /** A put invoked and not yet taken has written its value in two steps, after which it can return. */
  lemma PutIsWritten<K(!new), V>(steps: seq<Step<K, V>>, id: nat)
    requires var s := Run(steps);
             s.handler.Idle? && id < |s.calls| && s.calls[id].op.Put? && s.calls[id].place.None?
    ensures var s, s' := Run(steps), Run(steps + [Take(id), Write, Return(id)]);
            && |s'.calls| == |s.calls| && s'.calls[id].returned.Some?
            && s'.data == s.data[s.calls[id].op.key := s.calls[id].op.val]
  {
    hide Run, Latest, Inv, Look, CallOk;
    NotYetTaken(steps, id);
    RunSnoc(steps, Take(id));
    RunSnoc(steps + [Take(id)], Write);
    RunSnoc(steps + [Take(id)] + [Write], Return(id));
    assert steps + [Take(id)] + [Write] + [Return(id)] == steps + [Take(id), Write, Return(id)];
  }

  /** A call that the idle handler has dealt with can return at once. */
  lemma TakenReturns<K(!new), V>(steps: seq<Step<K, V>>, id: nat)
    requires var s := Run(steps);
             s.handler.Idle? && id < |s.calls| && s.calls[id].place.Some? && s.calls[id].returned.None?
    ensures var s' := Run(steps + [Return(id)]); |s'.calls| == |Run(steps).calls| && s'.calls[id].returned.Some?
  {
    RunAttended(steps);
    hide Run;
    RunSnoc(steps, Return(id));
  }

  /**
   Progress, in every interleaving: whatever has happened so far, every call that has not returned does so after at most
   six more steps of the handler and its own return.
   */
  lemma EveryCallReturns<K(!new), V>(steps: seq<Step<K, V>>, id: nat) returns (more: seq<Step<K, V>>)
    requires id < |Run(steps).calls| && Run(steps).calls[id].returned.None?
    ensures |more| <= 6
    ensures var s' := Run(steps + more); id < |s'.calls| && s'.calls[id].returned.Some?
  {
    hide Run, Latest;
    var finish := Finish(Run(steps).handler);
    Finishes(steps);
    var idle := steps + finish;
    var c := Run(idle).calls[id];
    var rest;
    if c.place.Some? {
      TakenReturns(idle, id);
      rest := [Return(id)];
    } else if c.op.Get? {
      GetIsAnswered(idle, id);
      rest := [Take(id), Lookup, Reply, Return(id)];
    } else {
      PutIsWritten(idle, id);
      rest := [Take(id), Write, Return(id)];
    }
    more := finish + rest;
    assert steps + more == idle + rest;
  }

  /**
   What a call waits for: to be taken, an idle handler, whatever the call is; to return, a put for nothing more and a
   get for its answer, whatever the handler is doing by then.
   */
  lemma CallsWaitExactly<K(!new), V>(s: Store<K, V>, id: nat)
    requires id < |s.calls|
    ensures Enabled(s, Take(id)) <==> s.handler == Idle && s.calls[id].place == None
    ensures var c := s.calls[id];
            Enabled(s, Return(id))
            <==> c.returned == None && (c.op.Put? ==> c.place != None) && (c.op.Get? ==> c.response != None)
  {
  }
}
