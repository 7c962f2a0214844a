/** The virtual machine as the source runs it: a bounded array stack, a mutable state, a loop over `ip`. */
module VmMachine {
  import opened Basics
  import opened VmSpec

  class Stack {
    const depth: nat
    const data: array<Value>
    var ptr: nat

    ghost predicate Valid()
      reads this
    {
      data.Length == depth && ptr <= depth
    }

    ghost function Contents(): seq<Value>
      requires Valid()
      reads this, data
    {
      data[..ptr]
    }

    constructor (depth: nat)
      ensures Valid() && this.depth == depth && Contents() == [] && fresh(data)
    {
      this.depth := depth;
      data := new Value[depth];
      ptr := 0;
    }

    method Push(v: Value) returns (ok: bool)
      requires Valid()
      modifies this, data
      ensures Valid()
      ensures ok == (|old(Contents())| != depth)
      ensures Contents() == old(Contents()) + if ok then [v] else []
    {
      if ptr == depth {
        return false;
      }
      data[ptr] := v;
      ptr := ptr + 1;
      return true;
    }

    method Pop() returns (r: Option<Value>)
      requires Valid()
      modifies this
      ensures Valid()
      ensures r.None? <==> old(Contents()) == []
      ensures r.None? ==> Contents() == old(Contents())
      ensures r.Some? ==> old(Contents()) == Contents() + [r.value]
    {
      if ptr == 0 {
        return None;
      }
      ptr := ptr - 1;
      return Some(data[ptr]);
    }

    method Peek() returns (r: Option<Value>)
      requires Valid()
      ensures r == if Contents() == [] then None else Some(Last(Contents()))
    {
      if ptr == 0 {
        return None;
      }
      return Some(data[ptr - 1]);
    }
  }

  /** The contract state shared by all transactions of a chain. */
  class ContractState {
    var data: State

    constructor ()
      ensures data == map[]
    {
      data := map[];
    }

    method Put(k: Bytes, v: Value)
      modifies this
      ensures data == old(data)[k := v]
    {
      data := data[k := v];
    }

    method Get(k: Bytes) returns (r: Option<Value>)
      ensures r == if k in data then Some(data[k]) else None
    {
      if k in data {
        return Some(data[k]);
      }
      return None;
    }
  }

  class VM {
    const data: Bytes
    const stack: Stack
    const contractState: ContractState
    var ip: nat

    ghost predicate Valid()
      reads this, stack
    {
      stack.Valid()
    }

    ghost function Cfg(): Config {
      Config(stack.depth, true)
    }

    ghost function Now(): Machine
      requires Valid()
      reads this, stack, stack.data, contractState
    {
      Machine(stack.Contents(), contractState.data)
    }

    ghost function Prev(): Option<Byte>
      requires ip <= |data|
      reads this
    {
      if ip == 0 then None else Some(data[ip - 1])
    }

    constructor (data: Bytes, state: ContractState)
      ensures Valid() && this.data == data && ip == 0 && contractState == state
      ensures Now() == Machine([], state.data) && Cfg() == DEFAULT
      ensures fresh(stack) && fresh(stack.data)
    {
      var s := new Stack(1024);
      this.data := data;
      this.stack := s;
      contractState := state;
      ip := 0;
    }

    /** Runs the program from `ip` 0 and reports how it ended; `Now` is what it left behind. */
    method Run() returns (st: Status)
      requires Valid() && ip == 0
      modifies this, stack, stack.data, contractState
      ensures Valid()
      ensures Outcome(st, Now()) == VmSpec.Run(Cfg(), data, old(Now()))
    {
      if ip >= |data| {
        return Panic;
      }
      while true
        invariant Valid() && 0 <= ip < |data|
        invariant RunCode(Cfg(), None, data, old(Now())) == RunCode(Cfg(), Prev(), data[ip..], Now())
        decreases |data| - ip
      {
        st := Exec(data[ip]);
        assert data[ip..][1..] == data[ip + 1..];
        if st != Ok {
          return;
        }
        ip := ip + 1;
        if ip >= |data| {
          break;
        }
      }
      st := Ok;
    }

    method Exec(inst: Byte) returns (st: Status)
      requires Valid() && ip < |data|
      modifies stack, stack.data, contractState
      ensures Valid()
      ensures Outcome(st, Now()) == VmSpec.Exec(Cfg(), Prev(), inst, old(Now()))
    {
      if inst == PUSH_INT || inst == PUSH_BYTES {
        if ip == 0 {
          return Panic;
        }
        var d := data[ip - 1];
        var ok := stack.Push(if inst == PUSH_INT then Int(d) else Char(d));
        return if ok then Ok else Err;
      } else if inst == ADD_INT {
        st := ExecAdd();
      } else if inst == PACK {
        st := ExecPack();
      } else if inst == STORE {
        st := ExecStore();
      } else if inst == GET {
        st := ExecGet();
      } else {
        st := Ok;
      }
    }

    method ExecAdd() returns (st: Status)
      requires Valid()
      modifies stack, stack.data
      ensures Valid()
      ensures Outcome(st, Now()) == VmSpec.ExecAdd(Cfg(), old(Now()))
    {
      var a := stack.Pop();
      if a.None? {
        return Err;
      }
      assert stack.Contents() == Init(old(stack.Contents()));
      var b := stack.Pop();
      if b.None? {
        return Err;
      }
      assert stack.Contents() == Init(Init(old(stack.Contents())));
      if !a.value.Int? || !b.value.Int? {
        return Panic;
      }
      var ok := stack.Push(Int(ToInt64(a.value.i + b.value.i)));
      return if ok then Ok else Err;
    }

    method ExecPack() returns (st: Status)
      requires Valid()
      modifies stack, stack.data
      ensures Valid()
      ensures Outcome(st, Now()) == VmSpec.ExecPack(Cfg(), old(Now()))
    {
      var v := stack.Pop();
      if v.None? {
        return Err;
      }
      assert stack.Contents() == Init(old(stack.Contents()));
      if !v.value.Int? || v.value.i < 0 || v.value.i > MAX_ALLOC {
        return Panic;
      }
      var bytes;
      st, bytes := PopInto(v.value.i);
      if st == Ok {
        var _ := stack.Push(Blob(bytes));
      }
    }

    /** Pack's loop: fills a buffer of length `l` from its end with bytes popped off the stack. */
    method PopInto(l: nat) returns (st: Status, bytes: Bytes)
      requires Valid()
      modifies stack
      ensures Valid()
      ensures Popped(st, stack.Contents(), bytes) == PopBytes(old(stack.Contents()), l)
    {
      var data := new Byte[l];
      for i := 0 to l
        invariant stack.Valid()
        invariant PopBytes(old(stack.Contents()), l) == AfterPops(stack.Contents(), l - i, data[l - i..])
      {
        ghost var before := stack.Contents();
        var val := stack.Pop();
        if val.None? {
          return Err, [];
        }
        assert stack.Contents() == Init(before);
        if !val.value.Char? {
          return Panic, [];
        }
        ghost var done := data[l - i..];
        data[l - (i + 1)] := val.value.c;
        assert data[l - (i + 1)..] == [val.value.c] + done;
        ghost var p := PopBytes(Init(before), l - i - 1);
        assert p.bytes + [val.value.c] + done == p.bytes + ([val.value.c] + done);
      }
      assert data[0..] == data[..];
      return Ok, data[..];
    }

    /** What Pack's loop still has to do, followed by the bytes it already has. */
    ghost function AfterPops(s: seq<Value>, n: nat, done: Bytes): Popped {
      var p := PopBytes(s, n);
      if p.status == Ok then p.(bytes := p.bytes + done) else p
    }

    method ExecStore() returns (st: Status)
      requires Valid()
      modifies stack, contractState
      ensures Valid()
      ensures Outcome(st, Now()) == VmSpec.ExecStore(old(Now()))
    {
      var val := stack.Pop();
      if val.None? {
        return Err;
      }
      assert stack.Contents() == Init(old(stack.Contents()));
      var key := stack.Pop();
      if key.None? {
        return Err;
      }
      assert stack.Contents() == Init(Init(old(stack.Contents())));
      if !key.value.Blob? {
        return Panic;
      }
      contractState.Put(key.value.bs, val.value);
      st := Ok;
    }

    method ExecGet() returns (st: Status)
      requires Valid()
      modifies stack, stack.data
      ensures Valid()
      ensures Outcome(st, Now()) == VmSpec.ExecGet(Cfg(), old(Now()))
    {
      var key := stack.Pop();
      if key.None? {
        return Err;
      }
      assert stack.Contents() == Init(old(stack.Contents()));
      if !key.value.Blob? {
        return Panic;
      }
      var val := contractState.Get(key.value.bs);
      if val.None? {
        return Err;
      }
      var ok := stack.Push(val.value);
      return if ok then Ok else Err;
    }
  }
}
