/**
 The transaction pool in place: a growable list over a backing array shared with the slices it
 hands out, the ordered map over it, and the pool of two ordered maps.
 */
module TxPool {
  import opened PoolSpec

  /** A Go slice starting at the beginning of its backing array. */
  datatype Slice<T> = Slice(buf: array<T>, len: nat)

  class List<T(0, ==)> {
    var buf: array<T>
    var len: nat

    ghost predicate Valid()
      reads this
    {
      len <= buf.Length
    }

    ghost function Items(): seq<T>
      requires Valid()
      reads this, buf
    {
      buf[..len]
    }

    constructor ()
      ensures Valid() && Items() == [] && fresh(buf)
    {
      buf := new T[0];
      len := 0;
    }

    /**
     Writes behind the last element of the same array while it has capacity, and moves to a
     larger one otherwise.  Either way the part already in use keeps its contents.
     */
    method Append(v: T)
      requires Valid()
      modifies this, buf
      ensures Valid() && Items() == old(Items()) + [v]
      ensures len == old(len) + 1
      ensures if old(len) < old(buf.Length) then buf == old(buf) else fresh(buf)
      ensures old(buf)[..old(len)] == old(buf[..len])
    {
      if len == buf.Length {
        var capacity :| capacity > len;
        var bigger := new T[capacity];
        forall i | 0 <= i < len {
          bigger[i] := buf[i];
        }
        assert bigger[..len] == buf[..len];
        buf := bigger;
      }
      buf[len] := v;
      len := len + 1;
    }

    method Clear()
      modifies this
      ensures Valid() && Items() == [] && len == 0 && fresh(buf)
    {
      buf := new T[0];
      len := 0;
    }

    /** The first index of `v`, or -1. */
    method Index(v: T) returns (idx: int)
      requires Valid()
      ensures -1 <= idx < len
      ensures idx >= 0 ==> Items()[idx] == v && v !in Items()[..idx]
      ensures idx == -1 ==> v !in Items()
    {
      for i := 0 to len
        invariant v !in buf[..i]
      {
        if buf[i] == v {
          assert Items()[..i] == buf[..i];
          return i;
        }
      }
      return -1;
    }

    /** Shifts the elements after `idx` down by one, in place; out of range it does nothing. */
    method DeleteAt(idx: int)
      requires Valid()
      modifies this, buf
      ensures Valid() && buf == old(buf)
      ensures var was := old(Items());
              Items() == if 0 <= idx < |was| then was[..idx] + was[idx + 1..] else was
    {
      if idx < 0 || idx >= len {
        return;
      }
      for i := idx to len - 1
        invariant buf == old(buf) && len == old(len)
        invariant forall k :: 0 <= k < i ==> buf[k] == if k < idx then old(buf[k]) else old(buf[k + 1])
        invariant forall k :: i <= k < len ==> buf[k] == old(buf[k])
      {
        buf[i] := buf[i + 1];
      }
      len := len - 1;
      ghost var items := old(Items());
      assert Items()[..idx] == items[..idx];
      assert Items()[idx..] == items[idx + 1..];
    }

    method Delete(v: T)
      requires Valid()
      modifies this, buf
      ensures Valid() && buf == old(buf)
      ensures Items() == DeleteFirst(old(Items()), v)
    {
      var idx := Index(v);
      if idx != -1 {
        DeleteFirstAt(Items(), v, idx);
        DeleteAt(idx);
      } else {
        DeleteFirstAbsent(Items(), v);
      }
    }

    /** The list's own slice, not a copy. */
    method Share() returns (s: Slice<T>)
      requires Valid()
      ensures s == Slice(buf, len)
    {
      return Slice(buf, len);
    }
  }

  lemma {:induction false} DeleteFirstAt<T>(s: seq<T>, v: T, idx: nat)
    requires idx < |s| && s[idx] == v && v !in s[..idx]
    ensures DeleteFirst(s, v) == s[..idx] + s[idx + 1..]
  {
    if idx > 0 {
      assert s[..idx][0] == s[0];
      assert s[1..][..idx - 1] == s[..idx][1..];
      DeleteFirstAt(s[1..], v, idx - 1);
    }
  }

  lemma {:induction false} DeleteFirstAbsent<T>(s: seq<T>, v: T)
    requires v !in s
    ensures DeleteFirst(s, v) == s
  {
    if s != [] {
      DeleteFirstAbsent(s[1..], v);
    }
  }

  class OrderedMap<T(0, ==)> {
    const hash: T -> Hash
    const txns: List<T>
    var lookup: map<Hash, T>

    ghost predicate Valid()
      reads this, txns
    {
      txns.Valid()
    }

    ghost function View(): Ordered<T>
      requires Valid()
      reads this, txns, txns.buf
    {
      Ordered(txns.Items(), lookup)
    }

    constructor (hash: T -> Hash)
      ensures Valid() && this.hash == hash && View() == Ordered([], map[])
      ensures fresh(txns) && fresh(txns.buf)
    {
      this.hash := hash;
      txns := new List();
      lookup := map[];
    }

    method Add(t: T)
      requires Valid()
      modifies this, txns, txns.buf
      ensures Valid() && View() == Insert(hash, old(View()), t)
      ensures txns.len == old(txns.len) + 1
      ensures txns.buf == old(txns.buf) || fresh(txns.buf)
      ensures old(txns.buf)[..old(txns.len)] == old(txns.buf[..txns.len])
    {
      lookup := lookup[hash(t) := t];
      txns.Append(t);
    }

    method Remove(h: Hash)
      requires Valid()
      modifies this, txns, txns.buf
      ensures Valid() && View() == PoolSpec.Remove(old(View()), h)
      ensures txns.buf == old(txns.buf)
    {
      if h !in lookup {
        return;
      }
      txns.Delete(lookup[h]);
      lookup := lookup - {h};
    }

    method Clear()
      requires Valid()
      modifies this, txns
      ensures Valid() && View() == Ordered([], map[])
      ensures txns.len == 0 && fresh(txns.buf)
    {
      lookup := map[];
      txns.Clear();
    }
  }

  class TxPool<T(0, ==)> {
    const hash: T -> Hash
    const max: int
    const all: OrderedMap<T>
    const pending: OrderedMap<T>

    ghost function Footprint(): set<object>
      reads all.txns, pending.txns
    {
      {all, all.txns, all.txns.buf, pending, pending.txns, pending.txns.buf}
    }

    ghost predicate Valid()
      reads Footprint()
    {
      && all != pending && all.txns != pending.txns && all.txns.buf != pending.txns.buf
      && all.Valid() && pending.Valid()
      && all.hash == pending.hash == hash
    }

    ghost function View(): Pool<T>
      requires Valid()
      reads Footprint()
    {
      Pool(max, all.View(), pending.View())
    }

    /** The first `n` cells of `a` are out of reach of every pool operation. */
    ghost predicate Safe(a: array<T>, n: nat)
      reads all.txns, pending.txns
    {
      n <= a.Length && a != all.txns.buf && (a == pending.txns.buf ==> n <= pending.txns.len)
    }

    constructor (hash: T -> Hash, max: int)
      ensures Valid() && this.hash == hash && View() == Empty(max)
      ensures fresh(Footprint())
    {
      this.hash := hash;
      this.max := max;
      all := new OrderedMap(hash);
      pending := new OrderedMap(hash);
    }

    method Add(t: T) returns (ans: Answer)
      requires Valid()
      modifies Footprint()
      ensures Valid() && (View(), ans) == PoolSpec.Add(hash, old(View()), t)
      ensures fresh(Footprint() - old(Footprint()))
      ensures forall a: array<T>, n: nat :: old(allocated(a)) && old(Safe(a, n)) ==> Safe(a, n) && a[..n] == old(a[..n])
    {
      if pending.txns.len == max {
        return Full;
      }
      if hash(t) in pending.lookup {
        return Known;
      }
      if all.txns.len == max && all.txns.len == 0 {
        return Full;
      }
      hide Insert, Pruned;
      Prune();
      InsertBoth(t);
      return Accepted;
    }

    method InsertBoth(t: T)
      requires Valid()
      modifies Footprint()
      ensures Valid()
      ensures var was := old(View());
              View() == was.(all := Insert(hash, was.all, t), pending := Insert(hash, was.pending, t))
      ensures fresh(Footprint() - old(Footprint()))
      ensures forall a: array<T>, n: nat :: old(allocated(a)) && old(Safe(a, n)) ==> Safe(a, n) && a[..n] == old(a[..n])
    {
      hide Insert;
      all.Add(t);
      pending.Add(t);
    }

    /** Makes room in a full history. */
    method Prune()
      requires Valid()
      modifies all, all.txns, all.txns.buf
      ensures Valid() && all.txns.buf == old(all.txns.buf)
      ensures View() == old(View()).(all := Pruned(hash, old(View())))
    {
      if all.txns.len == max && all.txns.len > 0 {
        all.Remove(hash(all.txns.buf[0]));
      }
    }

    method ClearPending()
      requires Valid()
      modifies Footprint()
      ensures Valid() && View() == PoolSpec.ClearPending(old(View()))
      ensures fresh(Footprint() - old(Footprint()))
      ensures forall a: array<T>, n: nat :: old(allocated(a)) && old(Safe(a, n)) ==> Safe(a, n) && a[..n] == old(a[..n])
    {
      pending.Clear();
    }

    /** The live slice of the pending list, as it is put into a block. */
    method Pending() returns (s: Slice<T>)
      requires Valid()
      ensures s == Slice(pending.txns.buf, pending.txns.len)
      ensures Safe(s.buf, s.len) && s.buf[..s.len] == View().pending.list
    {
      s := pending.txns.Share();
    }
  }

  /**
   Slice stability: take the slice of pending transactions, then let any sequence of pool
   operations follow.  The slice still shows what it showed, although appends go on
   writing to the same array and deletions shift elements in place.
   */
  method SliceSurvives<T(0, ==)>(pool: TxPool<T>, ops: seq<Op<T>>) returns (s: Slice<T>)
    requires pool.Valid()
    modifies pool.Footprint()
    ensures s.len <= s.buf.Length && s.buf[..s.len] == old(pool.View()).pending.list
    ensures pool.Valid() && pool.View() == Resume(pool.hash, History(old(pool.View()), []), ops).pool
  {
    s := pool.Pending();
    for i := 0 to |ops|
      invariant pool.Valid() && fresh(pool.Footprint() - old(pool.Footprint()))
      invariant pool.View() == Resume(pool.hash, History(old(pool.View()), []), ops[..i]).pool
      invariant pool.Safe(s.buf, s.len) && s.buf[..s.len] == old(pool.View()).pending.list
    {
      match ops[i] {
        case Offer(t) => var _ := pool.Add(t);
        case Clear => pool.ClearPending();
      }
      assert ops[..i + 1][..i] == ops[..i];
    }
    assert ops[..|ops|] == ops;
  }
}
