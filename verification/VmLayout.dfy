/**
 The layout of one assignment of a literal, `key := n`, for operand and length bytes of every kind: exactly when it does
 what it means although each of these bytes is executed as an instruction too.
 */
module VmLayout {
  import opened Basics
  import opened VmSpec
  import opened VmCompile

  // ---- The literal ----

  /** The layout of `key := n` for any literal, opcode or not. */
  function LiteralCode(key: Bytes, n: Byte): Bytes
    requires |key| < 256
  {
    KeyCode(key) + [n, PUSH_INT, STORE]
  }

  /** What the byte `n` does with just the key on the stack and PACK before it, operand and instruction in one. */
  lemma KeyThenByte(n: Byte, key: Bytes, st: State)
    ensures var r := Exec(DEFAULT, Some(PACK), n, Machine([Blob(key)], st));
            && (r.status == Ok <==> n !in {ADD_INT, PACK, STORE} && (n == GET ==> key in st))
            && (r.status == Ok ==>
                  r.m == Machine(if n == PUSH_INT then [Blob(key), Int(PACK)]
                                 else if n == PUSH_BYTES then [Blob(key), Char(PACK)]
                                 else if n == GET then [st[key]] else [Blob(key)], st))
  {
    var m := Machine([Blob(key)], st);
    assert Init(m.stack) == [] && Last(m.stack) == Blob(key);
    hide PopBytes;
  }

  /** The literal is pushed on what is there, and stored under it if that is a byte string. */
  lemma PushThenStore(n: Byte, m: Machine)
    requires m.stack != [] && |m.stack| < DEFAULT.depth
    ensures RunCode(DEFAULT, Some(n), [PUSH_INT, STORE], m) ==
            if Last(m.stack).Blob? then Outcome(Ok, Machine(Init(m.stack), m.state[Last(m.stack).bs := Int(n)]))
            else Outcome(Panic, m.(stack := Init(m.stack)))
  {
    var m2 := m.(stack := m.stack + [Int(n)]);
    assert [PUSH_INT, STORE][1..] == [STORE];
    RunOne(DEFAULT, Some(PUSH_INT), STORE, m2);
    assert Init(m2.stack) == m.stack;
  }

  /** How the rest of the layout runs once the key is on the stack. */
  lemma LiteralTail(n: Byte, key: Bytes, st: State)
    ensures var r := RunCode(DEFAULT, Some(PACK), [n, PUSH_INT, STORE], Machine([Blob(key)], st));
            r.status == Ok && r.m.state == st[key := Int(n)]
            <==> n !in OPCODES || (n == GET && key in st && st[key] == Blob(key))
  {
    hide Exec;
    var m := Machine([Blob(key)], st);
    var r := Exec(DEFAULT, Some(PACK), n, m);
    KeyThenByte(n, key, st);
    assert [n, PUSH_INT, STORE][1..] == [PUSH_INT, STORE];
    if r.status == Ok {
      PushThenStore(n, r.m);
      if n == GET && st[key].Blob? && st[key] != Blob(key) {
        assert st[st[key].bs := Int(n)][key] == st[key] != Int(n);
      }
    }
  }

  /**
   Exactly when the layout of `key := n` does what it means on an empty stack, for every clean key, every byte n and
   every contract state: n is no opcode, or it is Get and the key holds itself as its value.
   */
  lemma LiteralExactly(key: Bytes, n: Byte, st: State)
    requires CleanKey(key)
    ensures var r := Run(DEFAULT, LiteralCode(key, n), Machine([], st));
            (r.status, r.m.state) == Meaning(DEFAULT, [Assign(key, Lit(n))], st)
            <==> n !in OPCODES || (n == GET && key in st && st[key] == Blob(key))
  {
    var m0, tail := Machine([], st), [n, PUSH_INT, STORE];
    assert Meaning(DEFAULT, [Assign(key, Lit(n))], st) == (Ok, st[key := Int(n)]) by {
      assert [Assign(key, Lit(n))][1..] == [];
    }
    KeyRuns(DEFAULT, None, key, m0);
    RunAppend(DEFAULT, None, KeyCode(key), tail, m0);
    assert m0.stack + [Blob(key)] == [Blob(key)];
    assert LastByte(None, KeyCode(key)) == Some(PACK);
    LiteralTail(n, key, st);
  }

  // ---- The key ----

  /** What executing the byte `b` of a key, after a push-bytes instruction, leaves behind if it does not fail. */
  function Noise(b: Byte): seq<Value> {
    if b == PUSH_INT then [Int(PUSH_BYTES)] else if b == PUSH_BYTES then [Char(PUSH_BYTES)] else []
  }

  /** What pushing the key really pushes. */
  function Items(key: Bytes): seq<Value> {
    if key == [] then [] else Items(Init(key)) + Noise(Last(key)) + [Char(Last(key))]
  }

  /** No packed bytes, and a byte on top if anything. */
  ghost predicate Loose(s: seq<Value>) {
    (forall i :: 0 <= i < |s| ==> !s[i].Blob?) && (s != [] ==> Last(s).Char?)
  }

  /** On such a stack, and as the first instruction, only three kinds of byte do not fail. */
  lemma ByteOnLoose(prev: Option<Byte>, b: Byte, m: Machine)
    requires Loose(m.stack) && |m.stack| < DEFAULT.depth
    requires if m.stack == [] then prev == None else prev == Some(PUSH_BYTES)
    ensures var r := Exec(DEFAULT, prev, b, m);
            && (r.status == Ok ==> b !in {ADD_INT, PACK, STORE, GET} && (m.stack == [] ==> b !in OPCODES))
            && (r.status == Ok ==> r.m == m.(stack := m.stack + Noise(b)))
  {
    hide PopBytes;
    assert m.stack + [] == m.stack;
  }

  lemma {:induction false} ItemsLoose(key: Bytes)
    ensures Loose(Items(key)) && |key| <= |Items(key)| <= 2 * |key|
  {
    if key != [] {
      ItemsLoose(Init(key));
    }
  }

  lemma {:induction false} PushKeyAny(key: Bytes, st: State)
    requires |key| < 256
    ensures var r := RunCode(DEFAULT, None, PushKey(key), Machine([], st));
            r.status == Ok ==>
              && r.m == Machine(Items(key), st)
              && (key != [] ==> key[0] !in OPCODES)
              && forall i :: 0 <= i < |key| ==> key[i] !in {ADD_INT, PACK, STORE, GET}
    decreases |key|
  {
    if key != [] {
      var init, b := Init(key), Last(key);
      var code, m := PushKey(init), Machine(Items(init), st);
      PushKeyAny(init, st);
      ItemsLoose(init);
      RunAppend(DEFAULT, None, code, [b, PUSH_BYTES], Machine([], st));
      if RunCode(DEFAULT, None, code, Machine([], st)).status == Ok {
        var prev := LastByte(None, code);
        assert prev == if init == [] then None else Some(PUSH_BYTES);
        ByteOnLoose(prev, b, m);
        assert [b, PUSH_BYTES][1..] == [PUSH_BYTES];
        RunOne(DEFAULT, Some(b), PUSH_BYTES, m.(stack := m.stack + Noise(b)));
      }
    }
  }

  lemma {:induction false} PopBytesChars(s: seq<Value>, n: nat)
    ensures var p := PopBytes(s, n);
            p.status == Ok ==> |p.bytes| == n && s == p.rest + Chars(p.bytes)
  {
    if n > 0 && s != [] && Last(s).Char? {
      PopBytesChars(Init(s), n - 1);
      var p := PopBytes(Init(s), n - 1);
      if p.status == Ok {
        assert Chars(p.bytes + [Last(s).c]) == Chars(p.bytes) + [Last(s)];
        assert s == Init(s) + [Last(s)];
      }
    }
  }

  /** What the length byte adds when executed on the pushed key. */
  function LengthNoise(n: Byte): seq<Value> {
    if n == PUSH_BYTES then [Char(PUSH_BYTES)] else []
  }

  /** After the length byte has been executed, it is pushed and that many bytes are packed. */
  lemma PushThenPack(n: Byte, m: Machine)
    requires |m.stack| < DEFAULT.depth
    ensures var r := RunCode(DEFAULT, Some(n), [PUSH_INT, PACK], m);
            var p := PopBytes(m.stack, n);
            && (r.status == Ok <==> p.status == Ok)
            && (r.status == Ok ==> r.m == m.(stack := p.rest + [Blob(p.bytes)]))
  {
    var m2 := m.(stack := m.stack + [Int(n)]);
    assert [PUSH_INT, PACK][1..] == [PACK];
    RunOne(DEFAULT, Some(PUSH_INT), PACK, m2);
    assert Init(m2.stack) == m.stack;
    PackPushHasRoom(DEFAULT, m2);
  }

  /** The rest of the key's layout: it packs the last `|key|` of what is there. */
  lemma LengthAny(key: Bytes, st: State) returns (base: seq<Value>, w: Bytes)
    requires |key| < 256
    ensures var n: Byte := |key|;
            var r := RunCode(DEFAULT, LastByte(None, PushKey(key)), [n, PUSH_INT, PACK], Machine(Items(key), st));
            r.status == Ok ==>
              && n !in OPCODES - {PUSH_BYTES} && r.m == Machine(base + [Blob(w)], st)
              && |w| == |key| && Items(key) + LengthNoise(n) == base + Chars(w)
  {
    hide Items, PushKey, PopBytes, Exec, Loose, RunCode;
    var n: Byte := |key|;
    ItemsLoose(key);
    PrevOfKey(key);
    EmptyItems(key);
    LengthStep(LastByte(None, PushKey(key)), n, Machine(Items(key), st));
    var s := Items(key) + Noise(n);
    base, w := PopBytes(s, n).rest, PopBytes(s, n).bytes;
    PopBytesChars(s, n);
    if n == PUSH_INT {
      IntOnTop(Items(key), PUSH_BYTES, n);
    }
  }

  lemma PrevOfKey(key: Bytes)
    ensures LastByte(None, PushKey(key)) == if key == [] then None else Some(PUSH_BYTES)
  {
  }

  lemma EmptyItems(key: Bytes)
    ensures Items(key) == [] <==> key == []
  {
  }

  lemma LengthStep(prev: Option<Byte>, n: Byte, m: Machine)
    requires Loose(m.stack) && |m.stack| < DEFAULT.depth - 1
    requires if m.stack == [] then prev == None else prev == Some(PUSH_BYTES)
    ensures var r := RunCode(DEFAULT, prev, [n, PUSH_INT, PACK], m);
            var p := PopBytes(m.stack + Noise(n), n);
            r.status == Ok ==>
              && n !in {ADD_INT, PACK, STORE, GET} && (m.stack == [] ==> n !in OPCODES) && p.status == Ok
              && r.m == m.(stack := p.rest + [Blob(p.bytes)])
  {
    hide PopBytes, Exec;
    ByteOnLoose(prev, n, m);
    assert [n, PUSH_INT, PACK][1..] == [PUSH_INT, PACK];
    PushThenPack(n, m.(stack := m.stack + Noise(n)));
  }

  lemma IntOnTop(s: seq<Value>, x: int, n: nat)
    requires n > 0
    ensures PopBytes(s + [Int(x)], n).status == Panic
  {
  }

  // ---- The packed key is wrong if anything but the key was pushed ----

  /** How many values are bytes other than the push-bytes instruction. */
  function Plain(s: seq<Value>): nat {
    if s == [] then 0 else Plain(Init(s)) + if Last(s).Char? && Last(s).c != PUSH_BYTES then 1 else 0
  }

  lemma {:induction false} PlainAppend(a: seq<Value>, b: seq<Value>)
    ensures Plain(a + b) == Plain(a) + Plain(b)
    decreases |b|
  {
    if b == [] {
      assert a + b == a;
    } else {
      assert Init(a + b) == a + Init(b) && Last(a + b) == Last(b);
      PlainAppend(a, Init(b));
    }
  }

  lemma PlainNoise(v: seq<Value>)
    requires v == [] || v == [Int(PUSH_BYTES)] || v == [Char(PUSH_BYTES)]
    ensures Plain(v) == 0
  {
    if v != [] { assert Init(v) == []; }
  }

  lemma {:induction false} PlainItems(key: Bytes)
    ensures Plain(Items(key)) == Plain(Chars(key))
  {
    if key != [] {
      var init, b := Init(key), Last(key);
      PlainItems(init);
      PlainAppend(Items(init), Noise(b));
      PlainNoise(Noise(b));
      PlainAppend(Items(init) + Noise(b), [Char(b)]);
      PlainAppend(Chars(init), [Char(b)]);
      assert Chars(init) + [Char(b)] == Chars(key);
    }
  }

  /** What was pushed first is the key's first byte, if that is no opcode. */
  lemma {:induction false} FirstItem(key: Bytes)
    requires key != [] && key[0] !in OPCODES
    ensures Items(key) != [] && Items(key)[0] == Char(key[0])
  {
    if |key| > 1 {
      FirstItem(Init(key));
    } else {
      assert Items(Init(key)) == [];
    }
  }

  lemma {:induction false} NoNoise(key: Bytes)
    requires |Items(key)| == |key|
    ensures forall i :: 0 <= i < |key| ==> key[i] !in {PUSH_INT, PUSH_BYTES}
  {
    if key != [] {
      ItemsLoose(Init(key));
      NoNoise(Init(key));
      assert forall i :: 0 <= i < |key| - 1 ==> key[i] == Init(key)[i];
    }
  }

  lemma FirstIsPlain(s: seq<Value>)
    requires s != [] && s[0].Char? && s[0].c != PUSH_BYTES
    ensures Plain(s) >= 1
  {
    assert s == [s[0]] + s[1..];
    PlainAppend([s[0]], s[1..]);
    assert Init([s[0]]) == [];
  }

  lemma NothingBelow(key: Bytes, noise: seq<Value>, base: seq<Value>)
    requires Items(key) + noise == base + Chars(key) && (noise == [] || noise == [Char(PUSH_BYTES)])
    requires key != [] && key[0] !in OPCODES
    ensures base == []
  {
    hide Items, Plain;
    PlainItems(key);
    PlainNoise(noise);
    PlainAppend(Items(key), noise);
    PlainAppend(base, Chars(key));
    FirstItem(key);
    if base != [] {
      assert base[0] == (Items(key) + noise)[0];
      FirstIsPlain(base);
    }
  }

  lemma RightKeyIsClean(key: Bytes, noise: seq<Value>, base: seq<Value>)
    requires Items(key) + noise == base + Chars(key) && (noise == [] || (key != [] && noise == [Char(PUSH_BYTES)]))
    requires key != [] ==> key[0] !in OPCODES
    ensures noise == [] && base == [] && forall i :: 0 <= i < |key| ==> key[i] !in {PUSH_INT, PUSH_BYTES}
  {
    hide Items;
    ItemsLoose(key);
    assert |Items(key)| + |noise| == |base| + |key|;
    if key != [] {
      NothingBelow(key, noise, base);
      NoNoise(key);
    }
  }

  // ---- A wrong key is not made good ----

  /** With another key packed, nothing is stored under `key`, unless a stored value is that key itself. */
  lemma WrongKeyStays(base: seq<Value>, w: Bytes, key: Bytes, n: Byte, st: State)
    requires |base| < 600 && (forall i :: 0 <= i < |base| ==> !base[i].Blob?)
    requires w != key && key !in st && forall k :: k in st ==> st[k] != Blob(key)
    ensures var r := RunCode(DEFAULT, Some(PACK), [n, PUSH_INT, STORE], Machine(base + [Blob(w)], st));
            r.status == Ok ==> key !in r.m.state
  {
    hide PopBytes, Exec;
    WrongKeyThenByte(base, w, key, n, st);
    assert [n, PUSH_INT, STORE][1..] == [PUSH_INT, STORE];
    var r := Exec(DEFAULT, Some(PACK), n, Machine(base + [Blob(w)], st));
    if r.status == Ok {
      PushThenStore(n, r.m);
    }
  }

  lemma WrongKeyThenByte(base: seq<Value>, w: Bytes, key: Bytes, n: Byte, st: State)
    requires |base| < 600 && (forall i :: 0 <= i < |base| ==> !base[i].Blob?)
    requires w != key && forall k :: k in st ==> st[k] != Blob(key)
    ensures var r := Exec(DEFAULT, Some(PACK), n, Machine(base + [Blob(w)], st));
            r.status == Ok ==>
              && r.m.state == st && r.m.stack != [] && |r.m.stack| <= |base| + 2
              && Last(r.m.stack) != Blob(key)
  {
    hide PopBytes;
    var m := Machine(base + [Blob(w)], st);
    assert Init(m.stack) == base && Last(m.stack) == Blob(w);
  }

  /**
   Exactly when the layout of `key := n` does what it means on an empty stack: no byte of the key, nor its length,
   nor the literal is an opcode.  It holds for every key and literal on every state that neither has the
   key nor holds it as a value.
   */
  lemma LayoutExactly(key: Bytes, n: Byte, st: State)
    requires |key| < 256 && key !in st && forall k :: k in st ==> st[k] != Blob(key)
    ensures var r := Run(DEFAULT, LiteralCode(key, n), Machine([], st));
            (r.status, r.m.state) == Meaning(DEFAULT, [Assign(key, Lit(n))], st) <==> CleanKey(key) && n !in OPCODES
  {
    if CleanKey(key) {
      LiteralExactly(key, n, st);
    } else {
      DirtyKeyFails(key, n, st);
      assert Meaning(DEFAULT, [Assign(key, Lit(n))], st) == (Ok, st[key := Int(n)]) by {
        assert [Assign(key, Lit(n))][1..] == [];
      }
    }
  }

  lemma DirtyKeyFails(key: Bytes, n: Byte, st: State)
    requires |key| < 256 && key !in st && !CleanKey(key) && forall k :: k in st ==> st[k] != Blob(key)
    ensures var r := Run(DEFAULT, LiteralCode(key, n), Machine([], st)); r.status == Ok ==> key !in r.m.state
  {
    hide RunCode, PushKey, Items;
    var m0, length, tail := Machine([], st), [|key|, PUSH_INT, PACK], [n, PUSH_INT, STORE];
    RunAppend(DEFAULT, None, KeyCode(key), tail, m0);
    RunAppend(DEFAULT, None, PushKey(key), length, m0);
    PushKeyAny(key, st);
    var base, w := LengthAny(key, st);
    assert LastByte(None, KeyCode(key)) == Some(PACK);
    if RunCode(DEFAULT, None, KeyCode(key), m0).status == Ok {
      if w == key {
        RightKeyIsClean(key, LengthNoise(|key|), base);
      }
      BaseIsLoose(key, LengthNoise(|key|), base, w);
      WrongKeyStays(base, w, key, n, st);
    }
  }

  lemma BaseIsLoose(key: Bytes, noise: seq<Value>, base: seq<Value>, w: Bytes)
    requires |key| < 256 && Items(key) + noise == base + Chars(w) && (noise == [] || noise == [Char(PUSH_BYTES)])
    ensures |base| < 600 && forall i :: 0 <= i < |base| ==> !base[i].Blob?
  {
    ItemsLoose(key);
    assert forall i :: 0 <= i < |base| ==> base[i] == (Items(key) + noise)[i];
  }
}
