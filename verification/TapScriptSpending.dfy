/**
 What the escrow leaves of packages/pearl-script (p2tr.ts, p2tr-prefund.ts) can be spent with: their scripts run on the
 stack machine of BIP 342, with the lock time rules of BIP 65, as far as the leaves use them.

 Main results: `MultisigSpend` and `PrefundSpend`, for all witnesses: a leaf is spent exactly by one signature of each
 required signer, in reverse order, and a refund leaf only by a transaction whose lock time has reached the leaf's.
 */
module TapScriptSpending {
  import opened Wrappers
  import opened TapScript

  type Bytes = seq<Byte>

  /** The spending transaction: whose signatures it carries, its lock time, and whether its input ignores that. */
  datatype Spending = Spending(signed: (Bytes, Bytes) -> bool, lockTime: nat, final: bool)

  // ---- The stack machine ----

  /** A script number of at most `size` bytes; a set top bit is the sign. */
  function Number(bytes: Bytes, size: nat): Result<int> {
    if |bytes| > size then Thrown
    else if bytes != [] && bytes[|bytes| - 1] >= 0x80 then
      Ok(0 - ReadNumber(bytes[..|bytes| - 1] + [bytes[|bytes| - 1] - 0x80]))
    else Ok(ReadNumber(bytes))
  }

  /** Checking one signature: the empty one fails, any other must be right for a 32-byte key. */
  function Check(tx: Spending, key: Bytes, sig: Bytes): Result<bool> {
    if key == [] then Thrown
    else if sig == [] then Ok(false)
    else if |key| == 32 && !tx.signed(key, sig) then Thrown
    else Ok(true)
  }

  function Bool(b: bool): Bytes {
    if b then [1] else []
  }

  /** The lock times are of one kind, height or time, and the transaction's has reached the script's. */
  predicate Reached(tx: Spending, lockTime: int) {
    !tx.final && (lockTime < 500_000_000 <==> tx.lockTime < 500_000_000) && lockTime <= tx.lockTime
  }

  /** One opcode that is no push; one the leaves do not use fails. */
  function Operate(op: Byte, stack: seq<Bytes>, tx: Spending): Result<seq<Bytes>> {
    var n := |stack|;
    if op == OP_DROP then
      if n < 1 then Thrown else Ok(stack[..n - 1])
    else if op == OP_NUMEQUAL then
      if n < 2 || Number(stack[n - 2], 4).Thrown? || Number(stack[n - 1], 4).Thrown? then Thrown
      else Ok(stack[..n - 2] + [Bool(Number(stack[n - 2], 4) == Number(stack[n - 1], 4))])
    else if op == OP_CHECKSIG then
      if n < 2 || Check(tx, stack[n - 1], stack[n - 2]).Thrown? then Thrown
      else Ok(stack[..n - 2] + [Bool(Check(tx, stack[n - 1], stack[n - 2]).value)])
    else if op == OP_CHECKSIGADD then
      if n < 3 || Number(stack[n - 2], 4).Thrown? || Check(tx, stack[n - 1], stack[n - 3]).Thrown? then Thrown
      else
        var sum := Number(stack[n - 2], 4).value + (if Check(tx, stack[n - 1], stack[n - 3]).value then 1 else 0);
        if sum < 0 then Thrown else Ok(stack[..n - 3] + [ScriptNumber(sum)])
    else if op == OP_CHECKLOCKTIMEVERIFY then
      if n < 1 || Number(stack[n - 1], 5).Thrown? then Thrown
      else if Number(stack[n - 1], 5).value < 0 || !Reached(tx, Number(stack[n - 1], 5).value) then Thrown
      else Ok(stack)
    else Thrown
  }

  /** The bytes a push at the front of the script puts on the stack, and what is left after it. */
  function TakePush(s: Bytes): Result<(Bytes, Bytes)>
    requires s != []
    ensures TakePush(s).Ok? ==> |TakePush(s).value.1| < |s|
  {
    var op := s[0];
    if op == 0x00 then Ok(([], s[1..]))
    else if op == OP_1NEGATE then Ok(([0x81], s[1..]))
    else if 0x51 <= op <= 0x60 then Ok(([op - OP_RESERVED], s[1..]))
    else if op <= 0x4b then TakeBytes(s, 1, op)
    else if op == 0x4c && |s| >= 2 then TakeBytes(s, 2, s[1])
    else if op == 0x4d && |s| >= 3 then TakeBytes(s, 3, ReadUInt16LE(s, 1))
    else if op == 0x4e && |s| >= 5 then TakeBytes(s, 5, ReadUInt32LE(s, 1))
    else Thrown
  }

  function TakeBytes(s: Bytes, at: nat, size: nat): Result<(Bytes, Bytes)>
    requires 0 < at <= |s|
  {
    if at + size <= |s| then Ok((s[at..at + size], s[at + size..])) else Thrown
  }

  predicate IsPush(op: Byte) {
    op <= 0x60 && op != OP_RESERVED
  }

  function Execute(s: Bytes, stack: seq<Bytes>, tx: Spending): Result<seq<Bytes>>
    decreases |s|
  {
    if s == [] then Ok(stack)
    else if IsPush(s[0]) then
      match TakePush(s)
      case Thrown => Thrown
      case Ok((data, rest)) => Execute(rest, stack + [data], tx)
    else
      match Operate(s[0], stack, tx)
      case Thrown => Thrown
      case Ok(stack') => Execute(s[1..], stack', tx)
  }

  predicate Truthy(bytes: Bytes) {
    exists i :: 0 <= i < |bytes| && bytes[i] != 0 && !(i == |bytes| - 1 && bytes[i] == 0x80)
  }

  /** The script ends with one true value on the stack. */
  predicate Spends(script: Bytes, w: seq<Bytes>, tx: Spending) {
    match Execute(script, w, tx)
    case Thrown => false
    case Ok(stack) => |stack| == 1 && Truthy(stack[0])
  }

  // ---- Compiled scripts ----

  lemma TakesBack(head: Bytes, data: Bytes, rest: Bytes)
    requires head != []
    ensures TakeBytes(head + data + rest, |head|, |data|) == Ok((data, rest))
  {
    var s := head + data + rest;
    assert s[|head|..|head| + |data|] == data && s[|head| + |data|..] == rest;
  }

  lemma FrontIs(op: Byte, rest: Bytes)
    ensures ([op] + rest)[0] == op && ([op] + rest)[1..] == rest
  {
  }

  predicate TakesFirst(s: Bytes, data: Bytes, rest: Bytes) {
    s != [] && IsPush(s[0]) && TakePush(s) == Ok((data, rest))
  }

  lemma ShortTakes(data: Bytes, rest: Bytes)
    requires |data| <= 0xff
    ensures TakesFirst(EncodePush(data) + rest, data, rest)
  {
    hide Length2, Length4, ReadUInt16LE, ReadUInt32LE, TakeBytes;
    var s := EncodePush(data) + rest;
    if |data| == 0 {
      FrontIs(0x00, rest);
    } else if |data| == 1 && (1 <= data[0] <= 16 || data[0] == 0x81) {
      FrontIs(s[0], rest);
      assert data == [data[0]];
    } else if |data| < 0x4c {
      TakesBack([|data|], data, rest);
    } else {
      TakesBack([0x4c, |data|], data, rest);
    }
  }

  lemma LongTakes(data: Bytes, rest: Bytes)
    requires 0xff < |data| <= 0xffff
    ensures TakesFirst(EncodePush(data) + rest, data, rest)
  {
    hide Length2, ReadUInt16LE, TakeBytes;
    Length2ReadsBack(|data|, [0x4d], data + rest);
    TakesBack([0x4d] + Length2(|data|), data, rest);
    assert EncodePush(data) + rest == [0x4d] + Length2(|data|) + (data + rest);
  }

  lemma LongestTakes(data: Bytes, rest: Bytes)
    requires 0xffff < |data| < 0x1_0000_0000
    ensures TakesFirst(EncodePush(data) + rest, data, rest)
  {
    hide Length4, ReadUInt32LE, TakeBytes;
    Length4ReadsBack(|data|, [0x4e], data + rest);
    TakesBack([0x4e] + Length4(|data|), data, rest);
    assert EncodePush(data) + rest == [0x4e] + Length4(|data|) + (data + rest);
  }

  /** Every minimal push puts its data on the stack. */
  lemma PushTakes(data: Bytes, rest: Bytes)
    requires |data| < 0x1_0000_0000
    ensures TakesFirst(EncodePush(data) + rest, data, rest)
  {
    hide EncodePush, TakesFirst;
    if |data| <= 0xff {
      ShortTakes(data, rest);
    } else if |data| <= 0xffff {
      LongTakes(data, rest);
    } else {
      LongestTakes(data, rest);
    }
  }

  /** Running chunks, as the compiled script runs. */
  function RunChunks(chunks: seq<Chunk>, stack: seq<Bytes>, tx: Spending): Result<seq<Bytes>> {
    if chunks == [] then Ok(stack)
    else
      match chunks[0]
      case Push(data) => RunChunks(chunks[1..], stack + [data], tx)
      case Op(code) =>
        if 0x51 <= code <= 0x60 then RunChunks(chunks[1..], stack + [[code - OP_RESERVED]], tx)
        else
          match Operate(code, stack, tx)
          case Thrown => Thrown
          case Ok(stack') => RunChunks(chunks[1..], stack', tx)
  }

  /** An opcode chunk that is a small number or no push at all. */
  predicate Plain(c: Chunk) {
    Encodable(c) && (c.Op? ==> 0x51 <= c.code <= 0x60 || !IsPush(c.code))
  }

  lemma OpRuns(code: Byte, rest: Bytes, stack: seq<Bytes>, tx: Spending)
    requires Plain(Op(code))
    ensures Execute([code] + rest, stack, tx) ==
      if 0x51 <= code <= 0x60 then Execute(rest, stack + [[code - OP_RESERVED]], tx)
      else if Operate(code, stack, tx).Thrown? then Thrown
      else Execute(rest, Operate(code, stack, tx).value, tx)
  {
    hide Operate;
    FrontIs(code, rest);
  }

  lemma {:induction false} CompiledRuns(chunks: seq<Chunk>, stack: seq<Bytes>, tx: Spending)
    requires forall i :: 0 <= i < |chunks| ==> Plain(chunks[i])
    ensures forall i :: 0 <= i < |chunks| ==> Encodable(chunks[i])
    ensures Execute(Compile(chunks), stack, tx) == RunChunks(chunks, stack, tx)
    decreases |chunks|
  {
    hide EncodePush, Operate, TakePush;
    if chunks != [] {
      assert Plain(chunks[0]);
      var rest := Compile(chunks[1..]);
      match chunks[0] {
        case Push(data) =>
          PushTakes(data, rest);
          CompiledRuns(chunks[1..], stack + [data], tx);
        case Op(code) =>
          OpRuns(code, rest, stack, tx);
          if 0x51 <= code <= 0x60 {
            CompiledRuns(chunks[1..], stack + [[code - OP_RESERVED]], tx);
          } else if Operate(code, stack, tx).Ok? {
            CompiledRuns(chunks[1..], Operate(code, stack, tx).value, tx);
          } else {
            CompiledRuns(chunks[1..], stack, tx);
          }
      }
    }
  }

  lemma RunCons(c: Chunk, rest: seq<Chunk>, stack: seq<Bytes>, tx: Spending)
    ensures RunChunks([c] + rest, stack, tx) ==
      if c.Push? then RunChunks(rest, stack + [c.data], tx)
      else if 0x51 <= c.code <= 0x60 then RunChunks(rest, stack + [[c.code - OP_RESERVED]], tx)
      else if Operate(c.code, stack, tx).Thrown? then Thrown
      else RunChunks(rest, Operate(c.code, stack, tx).value, tx)
  {
    hide Operate;
    assert ([c] + rest)[1..] == rest;
  }

  // ---- The leaves ----

  /** The signature is the key holder's for this transaction. */
  predicate SignedBy(tx: Spending, key: Bytes, sig: Bytes) {
    sig != [] && tx.signed(key, sig)
  }

  lemma PrefixRuns(nonce: Option<Bytes>, rest: seq<Chunk>, stack: seq<Bytes>, tx: Spending)
    ensures RunChunks(ScriptNoncePrefix(nonce) + rest, stack, tx) == RunChunks(rest, stack, tx)
  {
    hide RunChunks;
    if nonce.Some? {
      assert ScriptNoncePrefix(nonce) + rest == [Push(nonce.value)] + ([Op(OP_DROP)] + rest);
      RunCons(Push(nonce.value), [Op(OP_DROP)] + rest, stack, tx);
      RunCons(Op(OP_DROP), rest, stack + [nonce.value], tx);
      assert (stack + [nonce.value])[..|stack|] == stack;
    } else {
      assert ScriptNoncePrefix(nonce) + rest == rest;
    }
  }

  lemma CheckIs(tx: Spending, key: Bytes, sig: Bytes)
    requires IsKey(key)
    ensures Check(tx, key, sig) == Ok(true) <==> SignedBy(tx, key, sig)
  {
  }

  lemma SmallNumbers()
    ensures Number([], 4) == Ok(0) && Number([1], 4) == Ok(1) && Number([2], 4) == Ok(2)
    ensures ScriptNumber(0) == [] && ScriptNumber(1) == [1] && ScriptNumber(2) == [2]
    ensures Truthy([1]) && !Truthy([])
  {
    assert [1][1..] == [] && [2][1..] == [];
    assert [1 as Byte][0] == 1;
  }

  /** `first CHECKSIG`: the top of the witness against the key. */
  lemma FirstCheck(key: Bytes, rest: seq<Chunk>, w: seq<Bytes>, tx: Spending)
    requires IsKey(key)
    ensures var r := RunChunks([Push(key)] + ([Op(OP_CHECKSIG)] + rest), w, tx);
      r == if w == [] || Check(tx, key, w[|w| - 1]).Thrown? then Thrown
           else RunChunks(rest, w[..|w| - 1] + [Bool(Check(tx, key, w[|w| - 1]).value)], tx)
  {
    hide RunChunks, Check;
    RunCons(Push(key), [Op(OP_CHECKSIG)] + rest, w, tx);
    RunCons(Op(OP_CHECKSIG), rest, w + [key], tx);
    if w != [] {
      assert (w + [key])[..|w| - 1] == w[..|w| - 1];
    }
  }

  /** `second CHECKSIGADD 2 NUMEQUAL`: the next of the witness against the key, and both checks right. */
  lemma SecondCheck(key: Bytes, below: seq<Bytes>, one: bool, tx: Spending)
    requires IsKey(key)
    ensures var r := RunChunks([Push(key)] + ([Op(OP_CHECKSIGADD)] + ([Op(OP_2)] + ([Op(OP_NUMEQUAL)] + []))), below + [Bool(one)], tx);
      r == if below == [] || Check(tx, key, below[|below| - 1]).Thrown? then Thrown
           else Ok(below[..|below| - 1] + [Bool(one && Check(tx, key, below[|below| - 1]).value)])
  {
    hide RunChunks, Check, Number, ScriptNumber, Truthy;
    SmallNumbers();
    var stack := below + [Bool(one)];
    RunCons(Push(key), [Op(OP_CHECKSIGADD)] + ([Op(OP_2)] + ([Op(OP_NUMEQUAL)] + [])), stack, tx);
    RunCons(Op(OP_CHECKSIGADD), [Op(OP_2)] + ([Op(OP_NUMEQUAL)] + []), stack + [key], tx);
    if below != [] && Check(tx, key, below[|below| - 1]).Ok? {
      var sum: nat := (if one then 1 else 0) + (if Check(tx, key, below[|below| - 1]).value then 1 else 0);
      var left := below[..|below| - 1];
      assert (stack + [key])[..|below| - 1] == left;
      assert Operate(OP_CHECKSIGADD, stack + [key], tx) == Ok(left + [ScriptNumber(sum)]);
      RunCons(Op(OP_2), [Op(OP_NUMEQUAL)] + [], left + [ScriptNumber(sum)], tx);
      LastCompare(left, sum, tx);
    }
  }

  lemma LastCompare(left: seq<Bytes>, sum: nat, tx: Spending)
    requires sum <= 2
    ensures RunChunks([Op(OP_NUMEQUAL)] + [], left + [ScriptNumber(sum)] + [[2]], tx) == Ok(left + [Bool(sum == 2)])
  {
    hide Number, ScriptNumber, Truthy;
    SmallNumbers();
    RunCons(Op(OP_NUMEQUAL), [], left + [ScriptNumber(sum)] + [[2]], tx);
    assert (left + [ScriptNumber(sum)] + [[2]])[..|left|] == left;
  }

  lemma TwoOfTwoPlain(first: Bytes, second: Bytes, nonce: Option<Bytes>)
    requires IsKey(first) && IsKey(second) && NonceOk(nonce)
    ensures forall i :: 0 <= i < |TwoOfTwoChunks(first, second, nonce)| ==> Plain(TwoOfTwoChunks(first, second, nonce)[i])
  {
  }

  /** A two-of-two script is spent by two signatures, the second key's below the first's, and by no other witness. */
  lemma TwoOfTwoSpend(first: Bytes, second: Bytes, nonce: Option<Bytes>, w: seq<Bytes>, tx: Spending)
    requires IsKey(first) && IsKey(second) && NonceOk(nonce)
    ensures forall i :: 0 <= i < |TwoOfTwoChunks(first, second, nonce)| ==> Encodable(TwoOfTwoChunks(first, second, nonce)[i])
    ensures Spends(Compile(TwoOfTwoChunks(first, second, nonce)), w, tx) <==>
      |w| == 2 && SignedBy(tx, first, w[1]) && SignedBy(tx, second, w[0])
  {
    hide Compile, Execute, RunChunks, Check, ScriptNoncePrefix, Truthy, SignedBy, Plain;
    TwoOfTwoPlain(first, second, nonce);
    CompiledRuns(TwoOfTwoChunks(first, second, nonce), w, tx);
    var tail := [Push(second)] + ([Op(OP_CHECKSIGADD)] + ([Op(OP_2)] + ([Op(OP_NUMEQUAL)] + [])));
    var all := [Push(first)] + ([Op(OP_CHECKSIG)] + tail);
    assert all == [Push(first), Op(OP_CHECKSIG), Push(second), Op(OP_CHECKSIGADD), Op(OP_2), Op(OP_NUMEQUAL)];
    PrefixRuns(nonce, all, w, tx);
    FirstCheck(first, tail, w, tx);
    SmallNumbers();
    if w != [] && Check(tx, first, w[|w| - 1]).Ok? {
      SecondCheck(second, w[..|w| - 1], Check(tx, first, w[|w| - 1]).value, tx);
    }
    if |w| == 2 {
      CheckIs(tx, first, w[1]);
      CheckIs(tx, second, w[0]);
    }
  }

  /** A lock time as a script number of at most five bytes; a longer one is beyond every transaction's. */
  lemma LockTimeReads(lockTime: nat, tx: Spending)
    requires tx.lockTime < 0x1_0000_0000
    ensures var r := Number(ScriptNumber(lockTime), 5);
      r.Ok? && r.value >= 0 && Reached(tx, r.value) <==> Reached(tx, lockTime)
  {
    hide Power256, ReadNumber, ScriptNumber;
    SmallNumbers();
    PowerExceeds(lockTime);
    ScriptNumberReads(lockTime, lockTime + 1);
    if lockTime < 0x1_0000_0000 {
      FourBytes(lockTime);
      ScriptNumberReads(lockTime, 4);
    }
  }

  lemma {:induction false} PowerExceeds(n: nat)
    ensures n < Power256(n + 1)
  {
    if n > 0 { PowerExceeds(n - 1); }
  }

  lemma FourBytes(n: nat)
    requires n < 0x1_0000_0000
    ensures n < Power256(4)
  {
    assert Power256(4) == 0x100 * Power256(3) && Power256(3) == 0x100 * Power256(2) && Power256(2) == 0x100 * Power256(1);
  }

  lemma TimeoutPlain(key: Bytes, lockTime: nat, nonce: Option<Bytes>)
    requires IsKey(key) && NonceOk(nonce) && lockTime < Power256(128)
    ensures forall i :: 0 <= i < |TimeoutChunks(key, lockTime, nonce)| ==> Plain(TimeoutChunks(key, lockTime, nonce)[i])
  {
    hide Power256, ScriptNumber;
    ChunksEncodable(key, key, lockTime, nonce);
  }

  /** A timeout script is spent by one signature, once the transaction's lock time has reached the script's. */
  lemma TimeoutSpend(key: Bytes, lockTime: nat, nonce: Option<Bytes>, w: seq<Bytes>, tx: Spending)
    requires IsKey(key) && NonceOk(nonce) && lockTime < Power256(128) && tx.lockTime < 0x1_0000_0000
    ensures forall i :: 0 <= i < |TimeoutChunks(key, lockTime, nonce)| ==> Encodable(TimeoutChunks(key, lockTime, nonce)[i])
    ensures Spends(Compile(TimeoutChunks(key, lockTime, nonce)), w, tx) <==>
      |w| == 1 && SignedBy(tx, key, w[0]) && Reached(tx, lockTime)
  {
    hide Compile, Execute, RunChunks, Check, ScriptNoncePrefix, Truthy, SignedBy, Plain, Power256, ScriptNumber, Reached, Number;
    TimeoutPlain(key, lockTime, nonce);
    CompiledRuns(TimeoutChunks(key, lockTime, nonce), w, tx);
    var tail := [Push(key)] + ([Op(OP_CHECKSIG)] + []);
    var all := [Push(ScriptNumber(lockTime))] + ([Op(OP_CHECKLOCKTIMEVERIFY)] + ([Op(OP_DROP)] + tail));
    assert all == [Push(ScriptNumber(lockTime)), Op(OP_CHECKLOCKTIMEVERIFY), Op(OP_DROP), Push(key), Op(OP_CHECKSIG)];
    PrefixRuns(nonce, all, w, tx);
    var locked := w + [ScriptNumber(lockTime)];
    RunCons(Push(ScriptNumber(lockTime)), [Op(OP_CHECKLOCKTIMEVERIFY)] + ([Op(OP_DROP)] + tail), w, tx);
    RunCons(Op(OP_CHECKLOCKTIMEVERIFY), [Op(OP_DROP)] + tail, locked, tx);
    LockTimeReads(lockTime, tx);
    RunCons(Op(OP_DROP), tail, locked, tx);
    assert locked[..|w|] == w;
    FirstCheck(key, [], w, tx);
    NothingLeft(tx);
    SmallNumbers();
    if |w| == 1 { CheckIs(tx, key, w[0]); }
  }

  lemma NothingLeft(tx: Spending)
    ensures forall stack :: RunChunks([], stack, tx) == Ok(stack)
  {
  }

  // ---- The escrows ----

  /** The witness holds one signature for each signer, the last signer's first. */
  predicate SignedInOrder(tx: Spending, keys: Role -> Bytes, signers: seq<Role>, w: seq<Bytes>) {
    |w| == |signers| && forall n :: 0 <= n < |signers| ==> SignedBy(tx, keys(signers[n]), w[|w| - 1 - n])
  }

  /** What spends a leaf: its signers' signatures, and for a leaf with a lock time a transaction that has reached it. */
  predicate LeafSpentBy(leaf: Leaf, keys: Role -> Bytes, w: seq<Bytes>, tx: Spending) {
    SignedInOrder(tx, keys, leaf.requiredSigners, w) && (leaf.lockTime.Some? ==> Reached(tx, leaf.lockTime.value))
  }

  lemma TwoOfTwoLeafSpend(kind: Kind, a: Role, b: Role, keys: Role -> Bytes, nonce: Option<Bytes>, w: seq<Bytes>, tx: Spending)
    requires IsKey(keys(a)) && IsKey(keys(b)) && NonceOk(nonce)
    ensures var leaf := CreateTwoOfTwoLeaf(kind, keys(a), keys(b), [a, b], nonce);
      Spends(leaf.script, w, tx) <==> LeafSpentBy(leaf, keys, w, tx)
  {
    hide Spends, Compile, TwoOfTwoChunks, SignedBy;
    TwoOfTwoSpend(keys(a), keys(b), nonce, w, tx);
    assert [a, b][0] == a && [a, b][1] == b;
  }

  lemma TimeoutLeafSpend(kind: Kind, a: Role, keys: Role -> Bytes, lockTime: nat, nonce: Option<Bytes>, w: seq<Bytes>, tx: Spending)
    requires IsKey(keys(a)) && NonceOk(nonce) && lockTime < Power256(128) && tx.lockTime < 0x1_0000_0000
    ensures var leaf := CreateTimeoutLeaf(kind, keys(a), a, lockTime, nonce);
      Spends(leaf.script, w, tx) <==> LeafSpentBy(leaf, keys, w, tx)
  {
    hide Spends, Compile, TimeoutChunks, SignedBy, Power256, Reached;
    TimeoutSpend(keys(a), lockTime, nonce, w, tx);
    assert [a][0] == a;
  }

  function TradeKeys(buyer: Bytes, seller: Bytes, arbiter: Bytes): Role -> Bytes {
    (r: Role) => match r case Buyer => buyer case Seller => seller case _ => arbiter
  }

  /**
   The leaves of a trade escrow are there exactly when the keys differ, the lock time is positive and the nonce short
   enough.  Each is spent exactly by its own signers: two of the three parties, or the seller alone from the lock time on.
   */
  lemma MultisigSpend(buyer: Bytes, seller: Bytes, arbiter: Bytes, lockTime: Option<int>, nonce: Option<Bytes>, w: seq<Bytes>, tx: Spending)
    requires IsKey(buyer) && IsKey(seller) && IsKey(arbiter) && (lockTime.Some? ==> lockTime.value < Power256(128))
    requires tx.lockTime < 0x1_0000_0000
    ensures var leaves, keys := MultisigLeaves(buyer, seller, arbiter, lockTime, nonce), TradeKeys(buyer, seller, arbiter);
      && (leaves.Ok? <==> buyer != seller && buyer != arbiter && seller != arbiter && lockTime.Some? && lockTime.value > 0
                          && (nonce.Some? ==> 1 <= |nonce.value| <= 80))
      && (leaves.Ok? ==>
            && (forall i :: 0 <= i < |leaves.value| ==>
                  (Spends(leaves.value[i].script, w, tx) <==> LeafSpentBy(leaves.value[i], keys, w, tx)))
            && |leaves.value| == 4
            && leaves.value[0].requiredSigners == [Buyer, Seller] && leaves.value[0].lockTime == None
            && leaves.value[1].requiredSigners == [Buyer, Arbiter] && leaves.value[1].lockTime == None
            && leaves.value[2].requiredSigners == [Seller, Arbiter] && leaves.value[2].lockTime == None
            && leaves.value[3].requiredSigners == [Seller] && leaves.value[3].lockTime == lockTime)
  {
    hide Spends, LeafSpentBy, Power256;
    var keys := TradeKeys(buyer, seller, arbiter);
    ThreeDistinct(buyer, seller, arbiter);
    if MultisigLeaves(buyer, seller, arbiter, lockTime, nonce).Ok? {
      TwoOfTwoLeafSpend(BuyerSellerRelease, Buyer, Seller, keys, nonce, w, tx);
      TwoOfTwoLeafSpend(BuyerArbiterRelease, Buyer, Arbiter, keys, nonce, w, tx);
      TwoOfTwoLeafSpend(SellerArbiterRelease, Seller, Arbiter, keys, nonce, w, tx);
      TimeoutLeafSpend(SellerTimeoutRefund, Seller, keys, lockTime.value, nonce, w, tx);
    }
  }

  lemma ThreeDistinct(buyer: Bytes, seller: Bytes, arbiter: Bytes)
    ensures DistinctKeys([(Buyer, buyer), (Seller, seller), (Arbiter, arbiter)]) <==> buyer != seller && buyer != arbiter && seller != arbiter
  {
    var entries := [(Buyer, buyer), (Seller, seller), (Arbiter, arbiter)];
    assert entries[0].1 == buyer && entries[1].1 == seller && entries[2].1 == arbiter;
  }

  function PrefundKeys(maker: Bytes, operator: Bytes, arbiter: Bytes): Role -> Bytes {
    (r: Role) => match r case Maker => maker case Operator => operator case _ => arbiter
  }

  /** Who sweeps a prefund escrow with whom. */
  function SweepSigners(mode: Mode): seq<Role> {
    match mode
    case AutoSweep => [Operator, Arbiter]
    case ManualConfirm => [Maker, Operator]
  }

  /**
   The leaves of a prefund escrow are there exactly when the keys differ, there is an arbiter just for automatic sweeps,
   the lock time is positive and the nonce short enough.  The escrow is swept exactly by the two signers of its mode, and
   refunded exactly by the maker from the lock time on.
   */
  lemma PrefundSpend(mode: Mode, maker: Bytes, operator: Bytes, arbiter: Option<Bytes>, lockTime: int, nonce: Option<Bytes>,
                     w: seq<Bytes>, tx: Spending)
    requires IsKey(maker) && IsKey(operator) && (arbiter.Some? ==> IsKey(arbiter.value)) && lockTime < Power256(128)
    requires tx.lockTime < 0x1_0000_0000
    ensures var leaves, keys := PrefundLeaves(mode, maker, operator, arbiter, lockTime, nonce), PrefundKeys(maker, operator, arbiter.GetOr([]));
      && (leaves.Ok? <==> maker != operator && lockTime > 0 && (nonce.Some? ==> 1 <= |nonce.value| <= 80)
                          && (arbiter.Some? <==> mode == AutoSweep)
                          && (arbiter.Some? ==> arbiter.value != maker && arbiter.value != operator))
      && (leaves.Ok? ==>
            && (forall i :: 0 <= i < |leaves.value| ==>
                  (Spends(leaves.value[i].script, w, tx) <==> LeafSpentBy(leaves.value[i], keys, w, tx)))
            && |leaves.value| == 2
            && leaves.value[0].requiredSigners == SweepSigners(mode) && leaves.value[0].lockTime == None
            && leaves.value[1].requiredSigners == [Maker] && leaves.value[1].lockTime == Some(lockTime))
  {
    hide Spends, LeafSpentBy, Power256, CreateTwoOfTwoLeaf, CreateTimeoutLeaf;
    var keys := PrefundKeys(maker, operator, arbiter.GetOr([]));
    TwoDistinct(maker, operator);
    if arbiter.Some? { PrefundDistinct(maker, operator, arbiter.value); }
    if PrefundLeaves(mode, maker, operator, arbiter, lockTime, nonce).Ok? {
      LeafShapes(MakerTimeoutRefund, maker, maker, [Maker], Maker, lockTime, nonce);
      TimeoutLeafSpend(MakerTimeoutRefund, Maker, keys, lockTime, nonce, w, tx);
      if mode == AutoSweep {
        LeafShapes(OperatorArbiterSweep, operator, arbiter.value, [Operator, Arbiter], Maker, lockTime, nonce);
        TwoOfTwoLeafSpend(OperatorArbiterSweep, Operator, Arbiter, keys, nonce, w, tx);
      } else {
        LeafShapes(MakerOperatorSweep, maker, operator, [Maker, Operator], Maker, lockTime, nonce);
        TwoOfTwoLeafSpend(MakerOperatorSweep, Maker, Operator, keys, nonce, w, tx);
      }
    }
  }

  lemma LeafShapes(kind: Kind, a: Bytes, b: Bytes, signers: seq<Role>, signer: Role, lockTime: nat, nonce: Option<Bytes>)
    requires IsKey(a) && IsKey(b) && NonceOk(nonce) && lockTime < Power256(128)
    ensures var leaf := CreateTwoOfTwoLeaf(kind, a, b, signers, nonce); leaf.requiredSigners == signers && leaf.lockTime == None
    ensures var leaf := CreateTimeoutLeaf(kind, a, signer, lockTime, nonce); leaf.requiredSigners == [signer] && leaf.lockTime == Some(lockTime)
  {
    hide Compile, TwoOfTwoChunks, TimeoutChunks, Power256;
  }

  lemma TwoDistinct(maker: Bytes, operator: Bytes)
    ensures DistinctKeys([(Maker, maker), (Operator, operator)]) <==> maker != operator
  {
    var entries := [(Maker, maker), (Operator, operator)];
    assert entries[0].1 == maker && entries[1].1 == operator;
  }

  lemma PrefundDistinct(maker: Bytes, operator: Bytes, arbiter: Bytes)
    ensures DistinctKeys([(Maker, maker), (Operator, operator), (Arbiter, arbiter)]) <==>
      maker != operator && maker != arbiter && operator != arbiter
  {
    var entries := [(Maker, maker), (Operator, operator), (Arbiter, arbiter)];
    assert entries[0].1 == maker && entries[1].1 == operator && entries[2].1 == arbiter;
  }
}
