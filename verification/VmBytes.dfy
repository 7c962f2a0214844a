/**
 The virtual machine in plain numbers: which byte is which instruction, how deep the stack is, how integers wrap, and
 which instruction fails in which way.
 */
module VmBytes {
  import opened Basics
  import opened VmSpec
  import opened VmCompile

  /** Not one of the six instructions. */
  predicate Operand(b: Byte) {
    b !in {10, 11, 12, 13, 15, 16}
  }

  // ---- Whole programs ----

  /** Two integers pushed and added. */
  lemma TwoAdded(x: Byte, y: Byte, st: State)
    requires Operand(x) && Operand(y)
    ensures Run(DEFAULT, [x, 10, y, 10, 11], Machine([], st)) == Outcome(Ok, Machine([Int(x + y)], st))
  {
    var e := Add(Lit(x), Lit(y));
    assert Clean(Lit(x)) && Clean(Lit(y)) && Clean(e);
    assert ExprCode(e) == [x, 10] + [y, 10] + [11] == [x, 10, y, 10, 11];
    ExprRuns(DEFAULT, None, e, Machine([], st));
    assert [] + [Int(x + y)] == [Int(x + y)];
  }

  /** One integer stored under a key of one byte, and nothing else changed. */
  lemma OneStored(k: Byte, x: Byte, st: State)
    requires Operand(k) && Operand(x)
    ensures Run(DEFAULT, [k, 12, 1, 10, 13, x, 10, 15], Machine([], st)) == Outcome(Ok, Machine([], st[[k] := Int(x)]))
  {
    var p := [Assign([k], Lit(x))];
    KeyOfOne(k);
    assert p[1..] == [];
    assert Compile(p) == [k, 12, 1, 10, 13] + [x, 10] + [15] == [k, 12, 1, 10, 13, x, 10, 15];
    CompileCorrect(p, Machine([], st));
    assert Meaning(DEFAULT, p, st) == (Ok, st[[k] := Int(x)]);
  }

  lemma KeyOfOne(k: Byte)
    ensures KeyCode([k]) == [k, 12, 1, 10, 13]
  {
    assert Init([k]) == [] && Last([k]) == k;
    assert PushKey([k]) == [] + [k, 12] == [k, 12];
  }

  /** And read back. */
  lemma ReadBack(k: Byte, x: Byte, st: State)
    requires Operand(k) && Operand(x)
    ensures Run(DEFAULT, [k, 12, 1, 10, 13, x, 10, 15] + [k, 12, 1, 10, 13, 16], Machine([], st))
         == Outcome(Ok, Machine([Int(x)], st[[k] := Int(x)]))
  {
    var store, read := [k, 12, 1, 10, 13, x, 10, 15], [k, 12, 1, 10, 13, 16];
    var m := Machine([], st[[k] := Int(x)]);
    OneStored(k, x, st);
    RunAppend(DEFAULT, None, store, read, Machine([], st));
    KeyOfOne(k);
    assert ExprCode(Read([k])) == [k, 12, 1, 10, 13] + [16] == read;
    ExprRuns(DEFAULT, LastByte(None, store), Read([k]), m);
    assert [] + [Int(x)] == [Int(x)];
  }

  /** `n` integers pushed one after the other. */
  function Pushes(n: nat): Bytes {
    if n == 0 then [] else Pushes(n - 1) + [1, 10]
  }

  lemma {:induction false} PushesRun(n: nat, st: State)
    ensures var r := RunCode(DEFAULT, None, Pushes(n), Machine([], st));
            if n <= 1024 then r.status == Ok && |r.m.stack| == n && r.m.state == st else r.status == Err
  {
    if n > 0 {
      PushesRun(n - 1, st);
      var code := Pushes(n - 1);
      RunAppend(DEFAULT, None, code, [1, 10], Machine([], st));
      var r := RunCode(DEFAULT, None, code, Machine([], st));
      if n <= 1024 {
        PushRuns(DEFAULT, LastByte(None, code), 1, 10, r.m);
      } else if n == 1025 {
        PushOverflows(DEFAULT, LastByte(None, code), 1, 10, r.m);
      }
    }
  }

  /** The stack holds 1024 values: that many pushes run, and one more is an error. */
  lemma DepthIs1024(n: nat, st: State)
    requires n > 0
    ensures Run(DEFAULT, Pushes(n), Machine([], st)).status == if n <= 1024 then Ok else Err
  {
    PushesRun(n, st);
    assert Pushes(n) != [];
  }

  // ---- Single instructions ----

  /** Integers are 64 bits wide and wrap around. */
  lemma AddWraps(prev: Option<Byte>, a: int, b: int, st: State)
    ensures var r := Exec(DEFAULT, prev, 11, Machine([Int(a), Int(b)], st));
            && r.status == Ok && |r.m.stack| == 1 && r.m.stack[0].Int? && r.m.state == st
            && -9223372036854775808 <= r.m.stack[0].i <= 9223372036854775807
            && (r.m.stack[0].i - (a + b)) % 18446744073709551616 == 0
  {
    var m := Machine([Int(a), Int(b)], st);
    assert Init(m.stack) == [Int(a)] && Init(Init(m.stack)) == [];
    var x := a + b + 9223372036854775808;
    assert ToInt64(b + a) == x % 18446744073709551616 - 9223372036854775808;
    assert ToInt64(b + a) - (a + b) == 18446744073709551616 * -(x / 18446744073709551616);
    assert [] + [Int(ToInt64(b + a))] == [Int(ToInt64(b + a))];
  }

  /** The top value, and the one below it. */
  function Top(s: seq<Value>): Option<Value> {
    if s == [] then None else Some(s[|s| - 1])
  }

  function Below(s: seq<Value>): Option<Value> {
    if |s| < 2 then None else Some(s[|s| - 2])
  }

  /** A value is missing, there is no room, or the key is unknown: an error. */
  predicate GivesErr(inst: Byte, m: Machine) {
    var a, b := Top(m.stack), Below(m.stack);
    || ((inst == 10 || inst == 12) && |m.stack| == 1024)
    || (inst == 11 && b.None?)
    || (inst == 15 && b.None?)
    || (inst == 16 && (a.None? || (a.value.Blob? && a.value.bs !in m.state)))
  }

  /** A value is of the wrong type: a panic. */
  predicate GivesPanic(inst: Byte, m: Machine) {
    var a, b := Top(m.stack), Below(m.stack);
    || (inst == 11 && b.Some? && !(a.value.Int? && b.value.Int?))
    || (inst == 15 && b.Some? && !b.value.Blob?)
    || (inst == 16 && a.Some? && !a.value.Blob?)
  }

  /** Every instruction but Pack, past the first position: exactly when it is an error, and exactly when a panic. */
  lemma FailsExactly(before: Byte, inst: Byte, m: Machine)
    requires |m.stack| <= 1024 && inst != 13
    ensures Exec(DEFAULT, Some(before), inst, m).status == Err <==> GivesErr(inst, m)
    ensures Exec(DEFAULT, Some(before), inst, m).status == Panic <==> GivesPanic(inst, m)
  {
  }

  /** A push as the first instruction has no operand: a panic. */
  lemma FirstPushPanics(inst: Byte, m: Machine)
    ensures inst == 10 || inst == 12 ==> Exec(DEFAULT, None, inst, m) == Outcome(Panic, m)
  {
  }

  /**
   Pack pops a length and then that many bytes: an error if there is too little, a panic if the length is no integer,
   negative or too large to allocate, or if one of the values is no byte.
   */
  lemma PackFailsExactly(prev: Option<Byte>, m: Machine)
    requires |m.stack| <= 1024
    ensures var a, n := Top(m.stack), |m.stack| - 1;
            var status := Exec(DEFAULT, prev, 13, m).status;
            && (a.None? ==> status == Err)
            && (a.Some? && (!a.value.Int? || a.value.i < 0 || a.value.i > 281474976710656) ==> status == Panic)
            && (a.Some? && a.value.Int? && 0 <= a.value.i <= n ==>
                  status == if forall j :: n - a.value.i <= j < n ==> m.stack[j].Char? then Ok else Panic)
            && (a.Some? && a.value.Int? && n < a.value.i <= 281474976710656 ==>
                  status == if forall j :: 0 <= j < n ==> m.stack[j].Char? then Err else Panic)
  {
    if m.stack != [] && Last(m.stack).Int? && 0 <= Last(m.stack).i <= MAX_ALLOC {
      PopBytesExactly(Init(m.stack), Last(m.stack).i);
      PackPushHasRoom(DEFAULT, m);
      assert forall j :: 0 <= j < |m.stack| - 1 ==> Init(m.stack)[j] == m.stack[j];
    }
  }

  lemma {:induction false} PopBytesExactly(s: seq<Value>, n: nat)
    ensures PopBytes(s, n).status ==
            if n <= |s| then (if forall j :: |s| - n <= j < |s| ==> s[j].Char? then Ok else Panic)
            else if forall j :: 0 <= j < |s| ==> s[j].Char? then Err else Panic
  {
    if n > 0 && s != [] && Last(s).Char? {
      PopBytesExactly(Init(s), n - 1);
      assert forall j :: 0 <= j < |s| - 1 ==> Init(s)[j] == s[j];
    }
  }
}
