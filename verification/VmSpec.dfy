/**
 The contract virtual machine as functions.

 A program is a byte string.  Every byte is executed, operands included: a push instruction
 takes its operand from the byte before it, which has itself just been executed.  A run ends
 in one of three ways: it completes, it returns an error, or it panics.  All three leave
 behind whatever the instructions executed so far did to the stack and the contract state.
 */
module VmSpec {
  import opened Basics

  const PUSH_INT: Byte := 0x0a
  const ADD_INT: Byte := 0x0b
  const PUSH_BYTES: Byte := 0x0c
  const PACK: Byte := 0x0d
  const STORE: Byte := 0x0f
  const GET: Byte := 0x10

  const OPCODES: set<Byte> := {PUSH_INT, ADD_INT, PUSH_BYTES, PACK, STORE, GET}

  /** Largest length for which `make([]byte, l)` does not panic (64-bit address space). */
  const MAX_ALLOC: int := 0x1_0000_0000_0000

  /** What the stack and the contract state hold: Go's int, byte and []byte. */
  datatype Value = Int(i: int) | Char(c: Byte) | Blob(bs: Bytes)

  type State = map<Bytes, Value>

  /** The top of the stack is its last element. */
  datatype Machine = Machine(stack: seq<Value>, state: State)

  datatype Status = Ok | Err | Panic

  datatype Outcome = Outcome(status: Status, m: Machine)

  /** `depth` bounds the stack; `wrapping` selects 64-bit or unbounded addition. */
  datatype Config = Config(depth: nat, wrapping: bool)

  /** NewStack's depth and Go's int. */
  const DEFAULT: Config := Config(1024, true)

  function Sum(cfg: Config, a: int, b: int): int {
    if cfg.wrapping then ToInt64(a + b) else a + b
  }

  function Init<T>(s: seq<T>): seq<T>
    requires s != []
  {
    s[..|s| - 1]
  }

  function Last<T>(s: seq<T>): T
    requires s != []
  {
    s[|s| - 1]
  }

  function Push(cfg: Config, m: Machine, v: Value): Outcome {
    if |m.stack| == cfg.depth then Outcome(Err, m) else Outcome(Ok, m.(stack := m.stack + [v]))
  }

  datatype Popped = Popped(status: Status, rest: seq<Value>, bytes: Bytes)

  /** The loop of Pack: pops `n` bytes, the last one popped becoming the first of the result. */
  function PopBytes(s: seq<Value>, n: nat): Popped {
    if n == 0 then Popped(Ok, s, [])
    else if s == [] then Popped(Err, s, [])
    else if !Last(s).Char? then Popped(Panic, Init(s), [])
    else
      var p := PopBytes(Init(s), n - 1);
      if p.status != Ok then p else p.(bytes := p.bytes + [Last(s).c])
  }

  function ExecPush(cfg: Config, prev: Option<Byte>, inst: Byte, m: Machine): Outcome {
    match prev
    case None => Outcome(Panic, m)
    case Some(d) => Push(cfg, m, if inst == PUSH_INT then Int(d) else Char(d))
  }

  function ExecAdd(cfg: Config, m: Machine): Outcome {
    if m.stack == [] then Outcome(Err, m) else
    var m1 := m.(stack := Init(m.stack));
    if m1.stack == [] then Outcome(Err, m1) else
    var m2 := m.(stack := Init(m1.stack));
    var a, b := Last(m.stack), Last(m1.stack);
    if !a.Int? || !b.Int? then Outcome(Panic, m2) else
    Push(cfg, m2, Int(Sum(cfg, a.i, b.i)))
  }

  /** The result of the final push is ignored by the source. */
  function ExecPack(cfg: Config, m: Machine): Outcome {
    if m.stack == [] then Outcome(Err, m) else
    var v, s := Last(m.stack), Init(m.stack);
    if !v.Int? || v.i < 0 || v.i > MAX_ALLOC then Outcome(Panic, m.(stack := s)) else
    var p := PopBytes(s, v.i);
    var m' := m.(stack := p.rest);
    if p.status != Ok then Outcome(p.status, m') else
    Outcome(Ok, Push(cfg, m', Blob(p.bytes)).m)
  }

  function ExecStore(m: Machine): Outcome {
    if m.stack == [] then Outcome(Err, m) else
    var s1 := Init(m.stack);
    if s1 == [] then Outcome(Err, m.(stack := s1)) else
    var s2 := Init(s1);
    if !Last(s1).Blob? then Outcome(Panic, m.(stack := s2)) else
    Outcome(Ok, Machine(s2, m.state[Last(s1).bs := Last(m.stack)]))
  }

  function ExecGet(cfg: Config, m: Machine): Outcome {
    if m.stack == [] then Outcome(Err, m) else
    var key, m' := Last(m.stack), m.(stack := Init(m.stack));
    if !key.Blob? then Outcome(Panic, m') else
    if key.bs !in m.state then Outcome(Err, m') else
    Push(cfg, m', m.state[key.bs])
  }

  /** One instruction; `prev` is the byte before it, absent at the start of the program. */
  function Exec(cfg: Config, prev: Option<Byte>, inst: Byte, m: Machine): Outcome {
    if inst == PUSH_INT || inst == PUSH_BYTES then ExecPush(cfg, prev, inst, m)
    else if inst == ADD_INT then ExecAdd(cfg, m)
    else if inst == PACK then ExecPack(cfg, m)
    else if inst == STORE then ExecStore(m)
    else if inst == GET then ExecGet(cfg, m)
    else Outcome(Ok, m)
  }

  /** Executes every byte of `code` in order, stopping at the first failure. */
  function RunCode(cfg: Config, prev: Option<Byte>, code: Bytes, m: Machine): Outcome
    decreases |code|
  {
    if code == [] then Outcome(Ok, m) else
    var r := Exec(cfg, prev, code[0], m);
    if r.status != Ok then r else RunCode(cfg, Some(code[0]), code[1..], r.m)
  }

  /** A whole run: the instruction fetch at position 0 of an empty program panics. */
  function Run(cfg: Config, prog: Bytes, m: Machine): Outcome {
    if prog == [] then Outcome(Panic, m) else RunCode(cfg, None, prog, m)
  }

  function LastByte(prev: Option<Byte>, code: Bytes): Option<Byte> {
    if code == [] then prev else Some(Last(code))
  }

  /** Running a concatenation is running its parts one after the other. */
  lemma {:induction false} RunAppend(cfg: Config, prev: Option<Byte>, a: Bytes, b: Bytes, m: Machine)
    ensures RunCode(cfg, prev, a + b, m) ==
            var r := RunCode(cfg, prev, a, m);
            if r.status != Ok then r else RunCode(cfg, LastByte(prev, a), b, r.m)
    decreases |a|
  {
    if a == [] {
      assert a + b == b;
    } else {
      assert (a + b)[0] == a[0];
      assert (a + b)[1..] == a[1..] + b;
      var r := Exec(cfg, prev, a[0], m);
      RunAppend(cfg, Some(a[0]), a[1..], b, r.m);
    }
  }

  /** The stack never outgrows its depth, whatever the program and however it ends. */
  lemma {:induction false} DepthKept(cfg: Config, prev: Option<Byte>, code: Bytes, m: Machine)
    requires |m.stack| <= cfg.depth
    ensures |RunCode(cfg, prev, code, m).m.stack| <= cfg.depth
    decreases |code|
  {
    if code != [] {
      ExecDepth(cfg, prev, code[0], m);
      var r := Exec(cfg, prev, code[0], m);
      DepthKept(cfg, Some(code[0]), code[1..], r.m);
    }
  }

  lemma ExecDepth(cfg: Config, prev: Option<Byte>, inst: Byte, m: Machine)
    requires |m.stack| <= cfg.depth
    ensures |Exec(cfg, prev, inst, m).m.stack| <= cfg.depth
  {
    if inst == PACK && m.stack != [] && Last(m.stack).Int? && Last(m.stack).i >= 0 {
      PopBytesShrinks(Init(m.stack), Last(m.stack).i);
    }
  }

  lemma {:induction false} PopBytesShrinks(s: seq<Value>, n: nat)
    ensures var p := PopBytes(s, n);
            |p.rest| <= |s| && (p.status == Ok ==> n <= |s| && p.rest == s[..|s| - n] && |p.bytes| == n)
  {
    if n > 0 && s != [] && Last(s).Char? {
      PopBytesShrinks(Init(s), n - 1);
    }
  }

  /**
   Pack ignores the error of its final push.  No error is lost: at least the length was
   popped, so the push always finds room.
   */
  lemma PackPushHasRoom(cfg: Config, m: Machine)
    requires |m.stack| <= cfg.depth
    requires m.stack != [] && Last(m.stack).Int? && 0 <= Last(m.stack).i <= MAX_ALLOC
    ensures var p := PopBytes(Init(m.stack), Last(m.stack).i);
            p.status == Ok ==>
              && Push(cfg, m.(stack := p.rest), Blob(p.bytes)).status == Ok
              && ExecPack(cfg, m) == Outcome(Ok, m.(stack := p.rest + [Blob(p.bytes)]))
  {
    PopBytesShrinks(Init(m.stack), Last(m.stack).i);
  }
}
