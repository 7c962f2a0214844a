/** Bounds on the integers a program can build without reading the contract state. */
module VmArith {
  import opened Basics
  import opened VmSpec

  function IntPart(v: Value): int {
    if v.Int? then v.i else 0
  }

  /** Sum of the integers on a stack. */
  function IntSum(s: seq<Value>): int {
    if s == [] then 0 else IntSum(Init(s)) + IntPart(Last(s))
  }

  ghost predicate NonNegative(s: seq<Value>) {
    forall i :: 0 <= i < |s| ==> IntPart(s[i]) >= 0
  }

  /** Number of push-int bytes; since every byte executes once, also the push-int steps taken. */
  function Pushes(code: Bytes): nat {
    if code == [] then 0 else (if code[0] == PUSH_INT then 1 else 0) + Pushes(code[1..])
  }

  ghost predicate Bounded(s: seq<Value>, n: nat) {
    NonNegative(s) && IntSum(s) <= 255 * n
  }

  lemma IntSumSnoc(s: seq<Value>, v: Value)
    ensures IntSum(s + [v]) == IntSum(s) + IntPart(v)
  {
    assert Init(s + [v]) == s;
  }

  lemma {:induction false} IntSumPrefix(s: seq<Value>, n: nat)
    requires NonNegative(s) && n <= |s|
    ensures 0 <= IntSum(s[..n]) <= IntSum(s)
    decreases |s|
  {
    if n < |s| {
      IntSumPrefix(Init(s), n);
      assert Init(s)[..n] == s[..n];
    } else if n > 0 {
      IntSumPrefix(Init(s), n - 1);
      assert s[..n] == s;
      assert Init(s)[..n - 1] == Init(s);
    }
  }

  lemma PushBounded(s: seq<Value>, v: Value)
    requires NonNegative(s) && IntPart(v) >= 0
    ensures NonNegative(s + [v]) && IntSum(s + [v]) == IntSum(s) + IntPart(v)
  {
    IntSumSnoc(s, v);
  }

  lemma SmallIsExact(x: int)
    requires 0 <= x < 0x8000_0000_0000_0000
    ensures ToInt64(x) == x
  {
  }

  lemma AddBounded(depth: nat, m: Machine, n: nat)
    requires Bounded(m.stack, n) && n < 0x80_0000_0000_0000
    ensures ExecAdd(Config(depth, true), m) == ExecAdd(Config(depth, false), m)
    ensures Bounded(ExecAdd(Config(depth, true), m).m.stack, n)
  {
    if |m.stack| >= 1 { IntSumPrefix(m.stack, |m.stack| - 1); }
    if |m.stack| >= 2 {
      var s2 := Init(Init(m.stack));
      assert m.stack[..|m.stack| - 2] == s2;
      IntSumPrefix(m.stack, |m.stack| - 2);
      if Last(m.stack).Int? && Last(Init(m.stack)).Int? {
        var a, b := Last(m.stack).i, Last(Init(m.stack)).i;
        assert IntSum(m.stack) == IntSum(s2) + b + a;
        SmallIsExact(a + b);
        PushBounded(s2, Int(a + b));
      }
    }
  }

  lemma PackBounded(cfg: Config, m: Machine, n: nat)
    requires Bounded(m.stack, n)
    ensures Bounded(ExecPack(cfg, m).m.stack, n)
  {
    if m.stack != [] {
      IntSumPrefix(m.stack, |m.stack| - 1);
      if Last(m.stack).Int? {
        PopBytesPrefix(Init(m.stack), Last(m.stack).i);
        var p := PopBytes(Init(m.stack), Last(m.stack).i);
        IntSumPrefix(Init(m.stack), |p.rest|);
        PushBounded(p.rest, Blob(p.bytes));
      }
    }
  }

  lemma StoreBounded(m: Machine, n: nat)
    requires Bounded(m.stack, n)
    ensures Bounded(ExecStore(m).m.stack, n)
  {
    if |m.stack| >= 1 { IntSumPrefix(m.stack, |m.stack| - 1); }
    if |m.stack| >= 2 {
      assert m.stack[..|m.stack| - 2] == Init(Init(m.stack));
      IntSumPrefix(m.stack, |m.stack| - 2);
    }
  }

  /** One instruction other than Get adds at most 255 to the sum, and only if it is a push-int. */
  lemma ExecBounded(depth: nat, prev: Option<Byte>, inst: Byte, m: Machine, n: nat)
    requires inst != GET && Bounded(m.stack, n) && n < 0x80_0000_0000_0000
    ensures Exec(Config(depth, true), prev, inst, m) == Exec(Config(depth, false), prev, inst, m)
    ensures Bounded(Exec(Config(depth, true), prev, inst, m).m.stack, n + if inst == PUSH_INT then 1 else 0)
  {
    if (inst == PUSH_INT || inst == PUSH_BYTES) && prev.Some? {
      PushBounded(m.stack, if inst == PUSH_INT then Int(prev.value) else Char(prev.value));
    } else if inst == ADD_INT {
      AddBounded(depth, m, n);
    } else if inst == PACK {
      PackBounded(Config(depth, true), m, n);
    } else if inst == STORE {
      StoreBounded(m, n);
    }
  }

  lemma {:induction false} PopBytesPrefix(s: seq<Value>, n: nat)
    ensures var rest := PopBytes(s, n).rest; |rest| <= |s| && rest == s[..|rest|]
  {
    if n > 0 && s != [] && Last(s).Char? {
      PopBytesPrefix(Init(s), n - 1);
    }
  }

  /**
   For code without a Get byte, 64-bit addition never wraps: the run equals the run over
   unbounded integers, and at its end the integers on the stack are non-negative with a sum of
   at most 255 per push-int byte.
   */
  lemma {:induction false} RunBounded(depth: nat, prev: Option<Byte>, code: Bytes, m: Machine, n: nat)
    requires GET !in code && Bounded(m.stack, n) && n + |code| < 0x80_0000_0000_0000
    ensures RunCode(Config(depth, true), prev, code, m) == RunCode(Config(depth, false), prev, code, m)
    ensures Bounded(RunCode(Config(depth, true), prev, code, m).m.stack, n + Pushes(code))
    decreases |code|
  {
    if code != [] {
      ExecBounded(depth, prev, code[0], m, n);
      var r := Exec(Config(depth, true), prev, code[0], m);
      var k := if code[0] == PUSH_INT then 1 else 0;
      if r.status == Ok {
        RunBounded(depth, Some(code[0]), code[1..], r.m, n + k);
      } else {
        assert Pushes(code) >= k;
      }
    }
  }

  /**
   Arithmetic bound, at every point of every run from an empty stack.  For each prefix `prog[..k]`
   executed: the integers on the stack are non-negative and sum to at most 255 for each push-int
   step taken, the next addition would not leave the 64-bit range, and a Pack would not see a
   negative length.
   */
  lemma ArithmeticBound(depth: nat, prog: Bytes, state: State, k: nat)
    requires GET !in prog && |prog| < 0x80_0000_0000_0000 && k <= |prog|
    ensures var r := RunCode(Config(depth, true), None, prog[..k], Machine([], state));
            var s := r.m.stack;
            && r == RunCode(Config(depth, false), None, prog[..k], Machine([], state))
            && NonNegative(s)
            && 0 <= IntSum(s) <= 255 * Pushes(prog[..k])
            && (|s| >= 1 && Last(s).Int? ==> Last(s).i >= 0)
            && (|s| >= 2 && Last(s).Int? && Last(Init(s)).Int? ==>
                  0 <= Last(s).i + Last(Init(s)).i < 0x8000_0000_0000_0000)
  {
    RunBounded(depth, None, prog[..k], Machine([], state), 0);
    var s := RunCode(Config(depth, true), None, prog[..k], Machine([], state)).m.stack;
    IntSumPrefix(s, 0);
    PushesAtMost(prog[..k]);
    if |s| >= 2 {
      IntSumPrefix(s, |s| - 2);
      assert s[..|s| - 2] == Init(Init(s));
      assert IntSum(s) == IntSum(Init(Init(s))) + IntPart(Last(Init(s))) + IntPart(Last(s));
    }
  }

  lemma PushesAtMost(code: Bytes)
    ensures Pushes(code) <= |code|
  {
  }
}
