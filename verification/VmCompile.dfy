/**
 A small assignment language and its bytecode, laid out as in transactionAdder: each key is
 pushed byte by byte and packed, each literal is pushed, sums are added, the result is stored.
 */
module VmCompile {
  import opened Basics
  import opened VmSpec

  datatype Expr = Lit(n: Byte) | Add(l: Expr, r: Expr) | Read(key: Bytes)

  datatype Assign = Assign(key: Bytes, e: Expr)

  // ---- Source meaning ----

  /** Reading an absent key is an error; adding anything but integers is a panic. */
  datatype Denotation = Val(v: Value) | Fails(why: Status)

  function Eval(cfg: Config, e: Expr, st: State): Denotation {
    match e
    case Lit(n) => Val(Int(n))
    case Read(key) => if key in st then Val(st[key]) else Fails(Err)
    case Add(l, r) =>
      var x := Eval(cfg, l, st);
      if x.Fails? then x else
      var y := Eval(cfg, r, st);
      if y.Fails? then y else
      if x.v.Int? && y.v.Int? then Val(Int(Sum(cfg, x.v.i, y.v.i))) else Fails(Panic)
  }

  /** Assignments take effect one by one; those before a failing one stay. */
  function Meaning(cfg: Config, p: seq<Assign>, st: State): (Status, State) {
    if p == [] then (Ok, st) else
    var d := Eval(cfg, p[0].e, st);
    if d.Fails? then (d.why, st) else Meaning(cfg, p[1..], st[p[0].key := d.v])
  }

  // ---- Compiler ----

  function PushKey(key: Bytes): Bytes {
    if key == [] then [] else PushKey(Init(key)) + [Last(key), PUSH_BYTES]
  }

  function KeyCode(key: Bytes): Bytes
    requires |key| < 256
  {
    PushKey(key) + [|key|, PUSH_INT, PACK]
  }

  function ExprCode(e: Expr): Bytes
    requires Clean(e)
  {
    match e
    case Lit(n) => [n, PUSH_INT]
    case Add(l, r) => ExprCode(l) + ExprCode(r) + [ADD_INT]
    case Read(key) => KeyCode(key) + [GET]
  }

  function AssignCode(a: Assign): Bytes
    requires CleanKey(a.key) && Clean(a.e)
  {
    KeyCode(a.key) + ExprCode(a.e) + [STORE]
  }

  function Compile(p: seq<Assign>): Bytes
    requires CleanProgram(p)
  {
    if p == [] then [] else AssignCode(p[0]) + Compile(p[1..])
  }

  // ---- Side conditions ----

  /** Operand and length bytes are executed too, so none of them may be an opcode. */
  predicate CleanKey(key: Bytes) {
    |key| < 256 && |key| !in OPCODES && forall i :: 0 <= i < |key| ==> key[i] !in OPCODES
  }

  predicate Clean(e: Expr) {
    match e
    case Lit(n) => n !in OPCODES
    case Add(l, r) => Clean(l) && Clean(r)
    case Read(key) => CleanKey(key)
  }

  predicate CleanProgram(p: seq<Assign>) {
    forall i :: 0 <= i < |p| ==> CleanKey(p[i].key) && Clean(p[i].e)
  }

  function Max(a: nat, b: nat): nat {
    if a < b then b else a
  }

  /** Stack slots needed on top of what is already there. */
  function Need(e: Expr): nat {
    match e
    case Lit(_) => 1
    case Add(l, r) => Max(Need(l), 1 + Need(r))
    case Read(key) => |key| + 1
  }

  predicate FitsOne(room: nat, a: Assign) {
    |a.key| + 1 <= room && 1 + Need(a.e) <= room
  }

  predicate Fits(room: nat, p: seq<Assign>) {
    forall i :: 0 <= i < |p| ==> FitsOne(room, p[i])
  }

  // ---- Correctness ----

  function Chars(bs: Bytes): seq<Value> {
    seq(|bs|, i requires 0 <= i < |bs| => Char(bs[i]))
  }

  lemma {:induction false} PushKeyRuns(cfg: Config, prev: Option<Byte>, key: Bytes, m: Machine)
    requires forall i :: 0 <= i < |key| ==> key[i] !in OPCODES
    requires |m.stack| + |key| <= cfg.depth
    ensures RunCode(cfg, prev, PushKey(key), m) == Outcome(Ok, m.(stack := m.stack + Chars(key)))
  {
    if key == [] {
      assert m.stack + Chars(key) == m.stack;
    } else {
      var a := PushKey(Init(key));
      var b := [Last(key), PUSH_BYTES];
      PushKeyRuns(cfg, prev, Init(key), m);
      RunAppend(cfg, prev, a, b, m);
      PushRuns(cfg, LastByte(prev, a), Last(key), PUSH_BYTES, m.(stack := m.stack + Chars(Init(key))));
      assert m.stack + Chars(Init(key)) + [Char(Last(key))] == m.stack + Chars(key);
    }
  }

  /** An operand that is no opcode runs as a no-op and is then pushed. */
  lemma PushRuns(cfg: Config, prev: Option<Byte>, n: Byte, push: Byte, m: Machine)
    requires n !in OPCODES && push in {PUSH_INT, PUSH_BYTES} && |m.stack| < cfg.depth
    ensures RunCode(cfg, prev, [n, push], m)
         == Outcome(Ok, m.(stack := m.stack + [if push == PUSH_INT then Int(n) else Char(n)]))
  {
    assert [n, push][1..] == [push];
    assert RunCode(cfg, Some(n), [push], m) == ExecPush(cfg, Some(n), push, m) by {
      assert [push][1..] == [];
    }
  }

  lemma {:induction false} PopChars(base: seq<Value>, key: Bytes)
    ensures PopBytes(base + Chars(key), |key|) == Popped(Ok, base, key)
  {
    if key == [] {
      assert base + Chars(key) == base;
    } else {
      var all := base + Chars(key);
      assert all != [] && Last(all) == Char(Last(key));
      assert Init(all) == base + Chars(Init(key));
      PopChars(base, Init(key));
      assert Init(key) + [Last(key)] == key;
    }
  }

  lemma KeyRuns(cfg: Config, prev: Option<Byte>, key: Bytes, m: Machine)
    requires CleanKey(key) && |m.stack| + |key| + 1 <= cfg.depth
    ensures RunCode(cfg, prev, KeyCode(key), m) == Outcome(Ok, m.(stack := m.stack + [Blob(key)]))
  {
    var n: Byte := |key|;
    var m1 := m.(stack := m.stack + Chars(key));
    var m2 := m1.(stack := m1.stack + [Int(n)]);
    PushKeyRuns(cfg, prev, key, m);
    RunAppend(cfg, prev, PushKey(key), [n, PUSH_INT, PACK], m);
    var p := LastByte(prev, PushKey(key));
    PushRuns(cfg, p, n, PUSH_INT, m1);
    RunAppend(cfg, p, [n, PUSH_INT], [PACK], m1);
    assert [n, PUSH_INT] + [PACK] == [n, PUSH_INT, PACK];
    assert Init(m2.stack) == m1.stack;
    PopChars(m.stack, key);
    RunOne(cfg, Some(PUSH_INT), PACK, m2);
  }

  lemma RunOne(cfg: Config, prev: Option<Byte>, inst: Byte, m: Machine)
    ensures RunCode(cfg, prev, [inst], m) == Exec(cfg, prev, inst, m)
  {
    assert [inst][1..] == [];
  }

  /** The code of an expression pushes its value, or fails the way its meaning does. */
  lemma {:induction false} ExprRuns(cfg: Config, prev: Option<Byte>, e: Expr, m: Machine)
    requires Clean(e) && |m.stack| + Need(e) <= cfg.depth
    ensures var r := RunCode(cfg, prev, ExprCode(e), m);
            match Eval(cfg, e, m.state)
            case Val(v) => r == Outcome(Ok, m.(stack := m.stack + [v]))
            case Fails(why) => why != Ok && r.status == why && r.m.state == m.state
    decreases e
  {
    match e
    case Lit(n) =>
      PushRuns(cfg, prev, n, PUSH_INT, m);
    case Read(key) =>
      KeyRuns(cfg, prev, key, m);
      RunAppend(cfg, prev, KeyCode(key), [GET], m);
      var m1 := m.(stack := m.stack + [Blob(key)]);
      RunOne(cfg, LastByte(prev, KeyCode(key)), GET, m1);
      assert Init(m1.stack) == m.stack;
    case Add(l, r) =>
      AddRuns(cfg, prev, l, r, m);
  }

  lemma {:induction false} AddRuns(cfg: Config, prev: Option<Byte>, l: Expr, r: Expr, m: Machine)
    requires Clean(l) && Clean(r) && |m.stack| + Need(Add(l, r)) <= cfg.depth
    ensures var out := RunCode(cfg, prev, ExprCode(Add(l, r)), m);
            match Eval(cfg, Add(l, r), m.state)
            case Val(v) => out == Outcome(Ok, m.(stack := m.stack + [v]))
            case Fails(why) => why != Ok && out.status == why && out.m.state == m.state
    decreases Add(l, r), 0
  {
    var cl, cr := ExprCode(l), ExprCode(r);
    RunAppend(cfg, prev, cl + cr, [ADD_INT], m);
    RunAppend(cfg, prev, cl, cr, m);
    ExprRuns(cfg, prev, l, m);
    var x := Eval(cfg, l, m.state);
    if x.Val? {
      var m1 := m.(stack := m.stack + [x.v]);
      ExprRuns(cfg, LastByte(prev, cl), r, m1);
      var y := Eval(cfg, r, m.state);
      if y.Val? {
        var m2 := m1.(stack := m1.stack + [y.v]);
        assert RunCode(cfg, prev, cl + cr, m) == Outcome(Ok, m2);
        RunOne(cfg, LastByte(prev, cl + cr), ADD_INT, m2);
        assert Init(m2.stack) == m1.stack && Init(m1.stack) == m.stack;
        if x.v.Int? && y.v.Int? { SumCommutes(cfg, x.v.i, y.v.i); }
      }
    }
  }

  lemma SumCommutes(cfg: Config, a: int, b: int)
    ensures Sum(cfg, a, b) == Sum(cfg, b, a)
  {
    assert a + b == b + a;
  }

  lemma AssignRuns(cfg: Config, prev: Option<Byte>, a: Assign, m: Machine)
    requires CleanKey(a.key) && Clean(a.e)
    requires |m.stack| <= cfg.depth && FitsOne(cfg.depth - |m.stack|, a)
    ensures var r := RunCode(cfg, prev, AssignCode(a), m);
            match Eval(cfg, a.e, m.state)
            case Val(v) => r == Outcome(Ok, m.(state := m.state[a.key := v]))
            case Fails(why) => why != Ok && r.status == why && r.m.state == m.state
  {
    var ck, ce := KeyCode(a.key), ExprCode(a.e);
    KeyRuns(cfg, prev, a.key, m);
    var m1 := m.(stack := m.stack + [Blob(a.key)]);
    RunAppend(cfg, prev, ck + ce, [STORE], m);
    RunAppend(cfg, prev, ck, ce, m);
    ExprRuns(cfg, LastByte(prev, ck), a.e, m1);
    var d := Eval(cfg, a.e, m.state);
    if d.Val? {
      var m2 := m1.(stack := m1.stack + [d.v]);
      RunOne(cfg, LastByte(prev, ck + ce), STORE, m2);
      assert Init(m2.stack) == m1.stack && Init(m1.stack) == m.stack;
    }
  }

  lemma {:induction false} ProgramRuns(cfg: Config, prev: Option<Byte>, p: seq<Assign>, m: Machine)
    requires CleanProgram(p) && |m.stack| <= cfg.depth && Fits(cfg.depth - |m.stack|, p)
    ensures var r := RunCode(cfg, prev, Compile(p), m);
            && (r.status, r.m.state) == Meaning(cfg, p, m.state)
            && (r.status == Ok ==> r.m.stack == m.stack)
    decreases |p|
  {
    if p != [] {
      AssignRuns(cfg, prev, p[0], m);
      RunAppend(cfg, prev, AssignCode(p[0]), Compile(p[1..]), m);
      var d := Eval(cfg, p[0].e, m.state);
      if d.Val? {
        var m' := m.(state := m.state[p[0].key := d.v]);
        ProgramRuns(cfg, LastByte(prev, AssignCode(p[0])), p[1..], m');
      }
    }
  }

  /**
   Compile correctness.  The bytecode of any non-empty list of assignments ends exactly as the
   list means: with the same status, success, error or panic, and the same contract state; a
   successful run leaves the stack as it found it.
   */
  lemma CompileCorrect(p: seq<Assign>, m: Machine)
    requires p != [] && CleanProgram(p)
    requires |m.stack| <= DEFAULT.depth && Fits(DEFAULT.depth - |m.stack|, p)
    ensures var r := Run(DEFAULT, Compile(p), m);
            && (r.status, r.m.state) == Meaning(DEFAULT, p, m.state)
            && (r.status == Ok ==> r.m.stack == m.stack)
  {
    ProgramRuns(DEFAULT, None, p, m);
    assert |AssignCode(p[0])| > 0;
  }

  /** The empty list of assignments compiles to the empty program, which panics. */
  lemma EmptyProgramPanics(m: Machine)
    ensures Meaning(DEFAULT, [], m.state) == (Ok, m.state)
    ensures Run(DEFAULT, Compile([]), m).status == Panic
  {
  }

  // ---- The stack need is exact ----

  lemma PushOverflows(cfg: Config, prev: Option<Byte>, n: Byte, push: Byte, m: Machine)
    requires n !in OPCODES && push in {PUSH_INT, PUSH_BYTES} && |m.stack| == cfg.depth
    ensures RunCode(cfg, prev, [n, push], m).status == Err
  {
    assert [n, push][1..] == [push];
    RunOne(cfg, Some(n), push, m);
  }

  lemma {:induction false} PushKeyOverflows(cfg: Config, prev: Option<Byte>, key: Bytes, m: Machine)
    requires forall i :: 0 <= i < |key| ==> key[i] !in OPCODES
    requires |m.stack| <= cfg.depth < |m.stack| + |key|
    ensures RunCode(cfg, prev, PushKey(key), m).status == Err
  {
    var a, b := PushKey(Init(key)), [Last(key), PUSH_BYTES];
    RunAppend(cfg, prev, a, b, m);
    if |m.stack| + |key| - 1 > cfg.depth {
      PushKeyOverflows(cfg, prev, Init(key), m);
    } else {
      PushKeyRuns(cfg, prev, Init(key), m);
      PushOverflows(cfg, LastByte(prev, a), Last(key), PUSH_BYTES, m.(stack := m.stack + Chars(Init(key))));
    }
  }

  lemma KeyOverflows(cfg: Config, prev: Option<Byte>, key: Bytes, m: Machine)
    requires CleanKey(key) && |m.stack| <= cfg.depth < |m.stack| + |key| + 1
    ensures RunCode(cfg, prev, KeyCode(key), m).status == Err
  {
    var n: Byte := |key|;
    RunAppend(cfg, prev, PushKey(key), [n, PUSH_INT, PACK], m);
    if |m.stack| + |key| > cfg.depth {
      PushKeyOverflows(cfg, prev, key, m);
    } else {
      PushKeyRuns(cfg, prev, key, m);
      var p, m1 := LastByte(prev, PushKey(key)), m.(stack := m.stack + Chars(key));
      PushOverflows(cfg, p, n, PUSH_INT, m1);
      RunAppend(cfg, p, [n, PUSH_INT], [PACK], m1);
      assert [n, PUSH_INT] + [PACK] == [n, PUSH_INT, PACK];
    }
  }

  /** An expression that has a value but too little room runs into the stack's depth. */
  lemma {:induction false} ExprOverflows(cfg: Config, prev: Option<Byte>, e: Expr, m: Machine)
    requires Clean(e) && Eval(cfg, e, m.state).Val? && |m.stack| <= cfg.depth < |m.stack| + Need(e)
    ensures RunCode(cfg, prev, ExprCode(e), m).status == Err
    decreases e
  {
    match e
    case Lit(n) => PushOverflows(cfg, prev, n, PUSH_INT, m);
    case Read(key) =>
      RunAppend(cfg, prev, KeyCode(key), [GET], m);
      KeyOverflows(cfg, prev, key, m);
    case Add(l, r) =>
      var cl, cr := ExprCode(l), ExprCode(r);
      RunAppend(cfg, prev, cl + cr, [ADD_INT], m);
      RunAppend(cfg, prev, cl, cr, m);
      if |m.stack| + Need(l) > cfg.depth {
        ExprOverflows(cfg, prev, l, m);
      } else {
        ExprRuns(cfg, prev, l, m);
        NeedsOne(l);
        ExprOverflows(cfg, LastByte(prev, cl), r, m.(stack := m.stack + [Eval(cfg, l, m.state).v]));
      }
  }

  lemma NeedsOne(e: Expr)
    ensures Need(e) >= 1
  {
  }

  lemma AssignOverflows(cfg: Config, prev: Option<Byte>, a: Assign, m: Machine)
    requires CleanKey(a.key) && Clean(a.e) && Eval(cfg, a.e, m.state).Val?
    requires |m.stack| <= cfg.depth && !FitsOne(cfg.depth - |m.stack|, a)
    ensures RunCode(cfg, prev, AssignCode(a), m).status == Err
  {
    var ck, ce := KeyCode(a.key), ExprCode(a.e);
    RunAppend(cfg, prev, ck + ce, [STORE], m);
    RunAppend(cfg, prev, ck, ce, m);
    if |m.stack| + |a.key| + 1 > cfg.depth {
      KeyOverflows(cfg, prev, a.key, m);
    } else {
      KeyRuns(cfg, prev, a.key, m);
      ExprOverflows(cfg, LastByte(prev, ck), a.e, m.(stack := m.stack + [Blob(a.key)]));
    }
  }

  lemma {:induction false} ProgramOverflows(cfg: Config, prev: Option<Byte>, p: seq<Assign>, m: Machine)
    requires CleanProgram(p) && |m.stack| <= cfg.depth && !Fits(cfg.depth - |m.stack|, p)
    requires Meaning(cfg, p, m.state).0 == Ok
    ensures RunCode(cfg, prev, Compile(p), m).status == Err
    decreases |p|
  {
    RunAppend(cfg, prev, AssignCode(p[0]), Compile(p[1..]), m);
    EvalFailsOk(cfg, p[0].e, m.state);
    if FitsOne(cfg.depth - |m.stack|, p[0]) {
      AssignRuns(cfg, prev, p[0], m);
      var m' := m.(state := m.state[p[0].key := Eval(cfg, p[0].e, m.state).v]);
      FitsTail(cfg.depth - |m.stack|, p);
      ProgramOverflows(cfg, LastByte(prev, AssignCode(p[0])), p[1..], m');
    } else {
      AssignOverflows(cfg, prev, p[0], m);
    }
  }

  lemma FitsTail(room: nat, p: seq<Assign>)
    requires p != []
    ensures Fits(room, p) <==> FitsOne(room, p[0]) && Fits(room, p[1..])
  {
    assert forall i :: 1 <= i < |p| ==> p[i] == p[1..][i - 1];
  }

  lemma EvalFailsOk(cfg: Config, e: Expr, st: State)
    ensures Eval(cfg, e, st).Fails? ==> Eval(cfg, e, st).why != Ok
  {
  }

  /**
   The stack need is exact: the bytecode of a program whose meaning succeeds runs to the end if and only if
   every key and every expression fits the room left on the stack; otherwise the run ends in a stack overflow error.
   */
  lemma FitsExactly(p: seq<Assign>, m: Machine)
    requires p != [] && CleanProgram(p) && |m.stack| <= DEFAULT.depth && Meaning(DEFAULT, p, m.state).0 == Ok
    ensures Run(DEFAULT, Compile(p), m).status == if Fits(DEFAULT.depth - |m.stack|, p) then Ok else Err
  {
    assert |AssignCode(p[0])| > 0;
    if Fits(DEFAULT.depth - |m.stack|, p) {
      CompileCorrect(p, m);
    } else {
      ProgramOverflows(DEFAULT, None, p, m);
    }
  }
}
