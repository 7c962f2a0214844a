/** What a successful run does not depend on: the stack below it and keys it does not use. */
module VmFrame {
  import opened Basics
  import opened VmSpec

  /** `m` with `base` put under its stack and the keys of `extra` added where it has none. */
  function Under(base: seq<Value>, extra: State, m: Machine): Machine {
    Machine(base + m.stack, extra + m.state)
  }

  lemma {:induction false} PopBytesUnder(base: seq<Value>, s: seq<Value>, n: nat)
    requires PopBytes(s, n).status == Ok
    ensures PopBytes(base + s, n) == PopBytes(s, n).(rest := base + PopBytes(s, n).rest)
  {
    if n > 0 {
      assert Init(base + s) == base + Init(s);
      assert Last(base + s) == Last(s);
      PopBytesUnder(base, Init(s), n - 1);
    }
  }

  lemma PackUnder(cfg: Config, big: Config, base: seq<Value>, extra: State, m: Machine)
    requires |m.stack| <= cfg.depth && cfg.depth + |base| <= big.depth
    requires ExecPack(cfg, m).status == Ok
    ensures ExecPack(big, Under(base, extra, m)) == Outcome(Ok, Under(base, extra, ExecPack(cfg, m).m))
  {
    var u := Under(base, extra, m);
    PopsUnder(base, m.stack);
    PopBytesUnder(base, Init(m.stack), Last(m.stack).i);
    PackPushHasRoom(cfg, m);
    PackPushHasRoom(big, u);
    var p := PopBytes(Init(m.stack), Last(m.stack).i);
    assert base + (p.rest + [Blob(p.bytes)]) == (base + p.rest) + [Blob(p.bytes)];
  }

  lemma ExecUnder(cfg: Config, big: Config, prev: Option<Byte>, inst: Byte, base: seq<Value>, extra: State, m: Machine)
    requires |m.stack| <= cfg.depth && cfg.depth + |base| <= big.depth && cfg.wrapping == big.wrapping
    requires Exec(cfg, prev, inst, m).status == Ok
    ensures Exec(big, prev, inst, Under(base, extra, m))
         == Outcome(Ok, Under(base, extra, Exec(cfg, prev, inst, m).m))
  {
    hide PopBytes;
    var u := Under(base, extra, m);
    if inst == PUSH_INT || inst == PUSH_BYTES {
      assert base + (m.stack + [if inst == PUSH_INT then Int(prev.value) else Char(prev.value)])
          == u.stack + [if inst == PUSH_INT then Int(prev.value) else Char(prev.value)];
    } else if inst == ADD_INT {
      PopsUnder(base, m.stack);
      PopsUnder(base, Init(m.stack));
      var r := Exec(cfg, prev, inst, m).m.stack;
      assert base + r == (base + Init(Init(m.stack))) + [Last(r)];
    } else if inst == PACK {
      PackUnder(cfg, big, base, extra, m);
    } else if inst == STORE {
      PopsUnder(base, m.stack);
      PopsUnder(base, Init(m.stack));
      var k, v := Last(Init(m.stack)).bs, Last(m.stack);
      assert (extra + m.state)[k := v] == extra + m.state[k := v];
    } else if inst == GET {
      PopsUnder(base, m.stack);
      var v := m.state[Last(m.stack).bs];
      assert base + (Init(m.stack) + [v]) == (base + Init(m.stack)) + [v];
    }
  }

  lemma PopsUnder(base: seq<Value>, s: seq<Value>)
    requires s != []
    ensures base + s != [] && Last(base + s) == Last(s) && Init(base + s) == base + Init(s)
  {
  }

  /**
   Frame theorem.  A run that succeeds within `cfg.depth` also succeeds, step for step, with
   any values below its stack and any extra keys in its state, as long as the deeper stack
   still has `cfg.depth` slots to spare.  The values below are untouched, and so is every extra
   key the run did not itself define.
   */
  lemma {:induction false} RunUnder(cfg: Config, big: Config, prev: Option<Byte>, code: Bytes,
                                    base: seq<Value>, extra: State, m: Machine)
    requires |m.stack| <= cfg.depth && cfg.depth + |base| <= big.depth && cfg.wrapping == big.wrapping
    requires RunCode(cfg, prev, code, m).status == Ok
    ensures RunCode(big, prev, code, Under(base, extra, m))
         == Outcome(Ok, Under(base, extra, RunCode(cfg, prev, code, m).m))
    decreases |code|
  {
    if code != [] {
      ExecUnder(cfg, big, prev, code[0], base, extra, m);
      ExecDepth(cfg, prev, code[0], m);
      RunUnder(cfg, big, Some(code[0]), code[1..], base, extra, Exec(cfg, prev, code[0], m).m);
    }
  }

  /** The key one instruction stores to, if it does. */
  function StoredKey(inst: Byte, m: Machine): set<Bytes> {
    if inst == STORE && |m.stack| >= 2 && Last(Init(m.stack)).Blob? then {Last(Init(m.stack)).bs} else {}
  }

  /** The keys `code` stores to when run from `m`. */
  function StoredKeys(cfg: Config, prev: Option<Byte>, code: Bytes, m: Machine): set<Bytes>
    decreases |code|
  {
    if code == [] then {} else
    var r := Exec(cfg, prev, code[0], m);
    StoredKey(code[0], m) + if r.status == Ok then StoredKeys(cfg, Some(code[0]), code[1..], r.m) else {}
  }

  /** `after` is `before` with new values for `keys` only. */
  ghost predicate ChangesOnly(before: State, after: State, keys: set<Bytes>) {
    && after.Keys == before.Keys + keys
    && forall k :: k in before && k !in keys ==> after[k] == before[k]
  }

  lemma ExecChangesOnly(cfg: Config, prev: Option<Byte>, inst: Byte, m: Machine)
    ensures ChangesOnly(m.state, Exec(cfg, prev, inst, m).m.state, StoredKey(inst, m))
  {
  }

  /** Every run, successful or not, changes exactly the keys it stores to and removes none. */
  lemma {:induction false} RunChangesOnly(cfg: Config, prev: Option<Byte>, code: Bytes, m: Machine)
    ensures ChangesOnly(m.state, RunCode(cfg, prev, code, m).m.state, StoredKeys(cfg, prev, code, m))
    decreases |code|
  {
    if code != [] {
      var r := Exec(cfg, prev, code[0], m);
      ExecChangesOnly(cfg, prev, code[0], m);
      if r.status == Ok {
        RunChangesOnly(cfg, Some(code[0]), code[1..], r.m);
      }
    }
  }
}
