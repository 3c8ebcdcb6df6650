/**
 Counting signature opcodes in a tapscript leaf: `countScriptSigOpcodes` and `assertScriptPathWitnessComplete`
 in packages/pearl-escrow/src/script-path-signing.ts, over the leaves that packages/pearl-script builds.
 The signature opcodes are those of BIP 342, "Rules for signature opcodes".

 `ScanCompiled`: the scanner sees through every push.  `LeafWitness`: a witness of a leaf is accepted exactly
 when it carries one well-sized signature per required signer.
 */
module TapScript {
  import opened Wrappers

  type Byte = x: int | 0 <= x < 256

  const OP_1NEGATE: Byte := 0x4f
  const OP_RESERVED: Byte := 0x50
  const OP_2: Byte := 0x52
  const OP_DROP: Byte := 0x75
  const OP_NUMEQUAL: Byte := 0x9c
  const OP_CHECKSIG: Byte := 0xac
  const OP_CHECKLOCKTIMEVERIFY: Byte := 0xb1
  const OP_CHECKSIGADD: Byte := 0xba

  predicate IsSigOp(op: Byte) {
    op == OP_CHECKSIG || op == OP_CHECKSIGADD
  }

  // ---- The scanner ----

  function Drop(s: seq<Byte>, n: nat): seq<Byte> {
    if n <= |s| then s[n..] else []
  }

  function Plus(n: nat, r: Result<nat>): Result<nat> {
    match r
    case Thrown => Thrown
    case Ok(m) => Ok(n + m)
  }

  function ReadUInt16LE(s: seq<Byte>, at: nat): nat
    requires at + 2 <= |s|
  {
    (s[at] as int) + 0x100 * (s[at + 1] as int)
  }

  function ReadUInt32LE(s: seq<Byte>, at: nat): nat
    requires at + 4 <= |s|
  {
    ReadUInt16LE(s, at) + 0x1_0000 * ReadUInt16LE(s, at + 2)
  }

  /** The length after a one-byte push opcode; a missing one reads as 0. */
  function LengthByte(s: seq<Byte>, at: nat): nat {
    if at < |s| then s[at] else 0
  }

  /** The count from the front of what is left of the script; reading a missing two- or four-byte length throws. */
  function Scan(s: seq<Byte>): Result<nat>
    decreases |s|
  {
    if s == [] then Ok(0)
    else
      var op := s[0];
      if IsSigOp(op) then Plus(1, Scan(s[1..]))
      else if 0x01 <= op <= 0x4b then Scan(Drop(s, 1 + op))
      else if op == 0x4c then Scan(Drop(s, 2 + LengthByte(s, 1)))
      else if op == 0x4d then
        if |s| < 3 then Thrown else Scan(Drop(s, 3 + ReadUInt16LE(s, 1)))
      else if op == 0x4e then
        if |s| < 5 then Thrown else Scan(Drop(s, 5 + ReadUInt32LE(s, 1)))
      else Scan(s[1..])
  }

  lemma DropTwice(s: seq<Byte>, m: nat, n: nat)
    ensures Drop(Drop(s, m), n) == Drop(s, m + n)
  {
  }

  lemma AtFront(s: seq<Byte>)
    ensures Drop(s, 0) == s
  {
  }

  lemma PastEnd(s: seq<Byte>, n: nat)
    requires n >= |s|
    ensures Drop(s, n) == []
  {
  }

  /** Reading at the cursor is reading at the front of what is left. */
  lemma FromHere(script: seq<Byte>, cursor: nat)
    requires cursor < |script|
    ensures var left := Drop(script, cursor);
      && |left| == |script| - cursor && left[0] == script[cursor] && left[1..] == Drop(script, cursor + 1)
      && LengthByte(left, 1) == LengthByte(script, cursor + 1)
      && (|left| >= 3 ==> ReadUInt16LE(left, 1) == ReadUInt16LE(script, cursor + 1))
      && (|left| >= 5 ==> ReadUInt32LE(left, 1) == ReadUInt32LE(script, cursor + 1))
  {
  }

  method CountScriptSigOpcodes(script: seq<Byte>) returns (r: Result<nat>)
    ensures r == Scan(script)
  {
    hide Drop, LengthByte, ReadUInt16LE, ReadUInt32LE;
    AtFront(script);
    var count, cursor := 0, 0;
    while cursor < |script|
      invariant 0 <= count && 0 <= cursor
      invariant Plus(count, Scan(Drop(script, cursor))) == Scan(script)
    {
      var op := script[cursor];
      FromHere(script, cursor);
      if op == OP_CHECKSIG || op == OP_CHECKSIGADD {
        count, cursor := count + 1, cursor + 1;
      } else if 0x01 <= op <= 0x4b {
        DropTwice(script, cursor, 1 + op);
        cursor := cursor + 1 + op;
      } else if op == 0x4c {
        var len := LengthByte(script, cursor + 1);
        DropTwice(script, cursor, 2 + len);
        cursor := cursor + 2 + len;
      } else if op == 0x4d {
        if |script| < cursor + 3 { return Thrown; }
        var len := ReadUInt16LE(script, cursor + 1);
        DropTwice(script, cursor, 3 + len);
        cursor := cursor + 3 + len;
      } else if op == 0x4e {
        if |script| < cursor + 5 { return Thrown; }
        var len := ReadUInt32LE(script, cursor + 1);
        DropTwice(script, cursor, 5 + len);
        cursor := cursor + 5 + len;
      } else {
        cursor := cursor + 1;
      }
    }
    PastEnd(script, cursor);
    return Ok(count);
  }

  // ---- Compiling a script ----

  datatype Chunk = Op(code: Byte) | Push(data: seq<Byte>)

  /** An opcode chunk is not itself the head of a push, and a push's length fits four bytes. */
  predicate Encodable(c: Chunk) {
    match c
    case Op(code) => !(0x01 <= code <= 0x4e)
    case Push(data) => |data| < 0x1_0000_0000
  }

  /** Little-endian bytes of a length. */
  function Length2(n: nat): seq<Byte>
    requires n < 0x1_0000
  {
    [n % 0x100, n / 0x100]
  }

  function Length4(n: nat): seq<Byte>
    requires n < 0x1_0000_0000
  {
    [n % 0x100, n / 0x100 % 0x100, n / 0x1_0000 % 0x100, n / 0x100_0000]
  }

  /** The minimal push: an opcode for the empty string and the small numbers, else the shortest length prefix. */
  function EncodePush(data: seq<Byte>): seq<Byte>
    requires |data| < 0x1_0000_0000
  {
    if |data| == 0 then [0x00]
    else if |data| == 1 && 1 <= data[0] <= 16 then [OP_RESERVED + data[0]]
    else if |data| == 1 && data[0] == 0x81 then [OP_1NEGATE]
    else if |data| < 0x4c then [|data|] + data
    else if |data| <= 0xff then [0x4c, |data|] + data
    else if |data| <= 0xffff then [0x4d] + Length2(|data|) + data
    else [0x4e] + Length4(|data|) + data
  }

  function Compile(chunks: seq<Chunk>): seq<Byte>
    requires forall i :: 0 <= i < |chunks| ==> Encodable(chunks[i])
  {
    if chunks == [] then []
    else
      assert Encodable(chunks[0]);
      (match chunks[0]
       case Op(code) => [code]
       case Push(data) => EncodePush(data)) + Compile(chunks[1..])
  }

  function SigOps(chunks: seq<Chunk>): nat {
    if chunks == [] then 0
    else (if chunks[0].Op? && IsSigOp(chunks[0].code) then 1 else 0) + SigOps(chunks[1..])
  }

  lemma SkipsPayload(head: seq<Byte>, data: seq<Byte>, rest: seq<Byte>)
    ensures Drop(head + data + rest, |head| + |data|) == rest
  {
    assert (head + data + rest)[|head| + |data|..] == rest;
  }

  lemma Length2ReadsBack(n: nat, before: seq<Byte>, after: seq<Byte>)
    requires n < 0x1_0000
    ensures |Length2(n)| == 2 && ReadUInt16LE(before + Length2(n) + after, |before|) == n
  {
    assert (before + Length2(n) + after)[|before|..|before| + 2] == Length2(n);
  }

  lemma Length4ReadsBack(n: nat, before: seq<Byte>, after: seq<Byte>)
    requires n < 0x1_0000_0000
    ensures |Length4(n)| == 4 && ReadUInt32LE(before + Length4(n) + after, |before|) == n
  {
    assert (before + Length4(n) + after)[|before|..|before| + 4] == Length4(n);
  }

  lemma SkipsShort(data: seq<Byte>, rest: seq<Byte>)
    requires |data| <= 0xff
    ensures 0 < |data| < 0x4c ==> Scan([|data|] + data + rest) == Scan(rest)
    ensures Scan([0x4c, |data|] + data + rest) == Scan(rest)
  {
    hide Drop, ReadUInt16LE, ReadUInt32LE;
    SkipsPayload([|data|], data, rest);
    SkipsPayload([0x4c, |data|], data, rest);
    assert LengthByte([0x4c, |data|] + data + rest, 1) == |data|;
  }

  lemma SkipsLong2(data: seq<Byte>, rest: seq<Byte>)
    requires |data| < 0x1_0000
    ensures Scan([0x4d] + Length2(|data|) + data + rest) == Scan(rest)
  {
    hide Drop, Length2, ReadUInt16LE, ReadUInt32LE, LengthByte;
    var s := [0x4d] + Length2(|data|) + data + rest;
    Length2ReadsBack(|data|, [0x4d], data + rest);
    SkipsPayload([0x4d] + Length2(|data|), data, rest);
    assert s == [0x4d] + Length2(|data|) + (data + rest);
  }

  lemma SkipsLong4(data: seq<Byte>, rest: seq<Byte>)
    requires |data| < 0x1_0000_0000
    ensures Scan([0x4e] + Length4(|data|) + data + rest) == Scan(rest)
  {
    hide Drop, Length4, ReadUInt16LE, ReadUInt32LE, LengthByte;
    var s := [0x4e] + Length4(|data|) + data + rest;
    Length4ReadsBack(|data|, [0x4e], data + rest);
    SkipsPayload([0x4e] + Length4(|data|), data, rest);
    assert s == [0x4e] + Length4(|data|) + (data + rest);
  }

  lemma SkipsOpcode(op: Byte, rest: seq<Byte>)
    requires !IsSigOp(op) && !(0x01 <= op <= 0x4e)
    ensures Scan([op] + rest) == Scan(rest)
  {
    assert ([op] + rest)[1..] == rest;
  }

  /** The scanner steps over a push of any size, whatever bytes it holds. */
  lemma ScanSkipsPush(data: seq<Byte>, rest: seq<Byte>)
    requires |data| < 0x1_0000_0000
    ensures Scan(EncodePush(data) + rest) == Scan(rest)
  {
    hide Scan, Length2, Length4;
    SkipsOpcode(0x00, rest);
    SkipsOpcode(OP_1NEGATE, rest);
    if |data| == 1 && 1 <= data[0] <= 16 { SkipsOpcode(OP_RESERVED + data[0], rest); }
    if |data| <= 0xff { SkipsShort(data, rest); }
    if |data| <= 0xffff { SkipsLong2(data, rest); }
    SkipsLong4(data, rest);
  }

  /** Scanning a compiled script counts its signature opcodes and nothing inside its pushes. */
  lemma {:induction false} ScanCompiled(chunks: seq<Chunk>)
    requires forall i :: 0 <= i < |chunks| ==> Encodable(chunks[i])
    ensures Scan(Compile(chunks)) == Ok(SigOps(chunks))
  {
    if chunks != [] {
      hide EncodePush;
      ScanCompiled(chunks[1..]);
      var rest := Compile(chunks[1..]);
      assert Encodable(chunks[0]);
      match chunks[0] {
        case Op(code) =>
          assert Compile(chunks) == [code] + rest;
          assert ([code] + rest)[1..] == rest;
        case Push(data) =>
          ScanSkipsPush(data, rest);
      }
    }
  }

  // ---- The leaves ----

  datatype Role = Buyer | Seller | Arbiter | Maker | Operator
  datatype Kind =
    | BuyerSellerRelease | BuyerArbiterRelease | SellerArbiterRelease | SellerTimeoutRefund
    | OperatorArbiterSweep | MakerOperatorSweep | MakerTimeoutRefund
  datatype Leaf = Leaf(kind: Kind, requiredSigners: seq<Role>, script: seq<Byte>, lockTime: Option<int>)

  /** An x-only public key. */
  predicate IsKey(key: seq<Byte>) {
    |key| == 32
  }

  /** A nonce of 1 to 80 bytes, when there is one. */
  predicate NonceOk(nonce: Option<seq<Byte>>) {
    nonce.Some? ==> 1 <= |nonce.value| <= 80
  }

  function ScriptNoncePrefix(nonce: Option<seq<Byte>>): seq<Chunk> {
    if nonce.Some? then [Push(nonce.value), Op(OP_DROP)] else []
  }

  /** The minimal little-endian script number of a positive integer; a set top bit takes one more byte. */
  function ScriptNumber(n: nat): seq<Byte> {
    if n == 0 then [] else if n < 0x80 then [n] else if n < 0x100 then [n, 0x00] else [n % 0x100] + ScriptNumber(n / 0x100)
  }

  function ReadNumber(bytes: seq<Byte>): nat {
    if bytes == [] then 0 else bytes[0] + 0x100 * ReadNumber(bytes[1..])
  }

  /** The number reads back, is not negative, and is short. */
  lemma {:induction false} ScriptNumberReads(n: nat, size: nat)
    requires n < Power256(size)
    ensures ReadNumber(ScriptNumber(n)) == n && |ScriptNumber(n)| <= size + 1
    ensures n > 0 ==> ScriptNumber(n) != [] && ScriptNumber(n)[|ScriptNumber(n)| - 1] < 0x80
    decreases size
  {
    if n >= 0x100 {
      ScriptNumberReads(n / 0x100, size - 1);
    } else if n >= 0x80 {
      assert [n, 0x00][1..] == [0x00] && [0x00][1..] == [];
    } else if n > 0 {
      assert [n][1..] == [];
    }
  }

  function Power256(n: nat): (p: nat)
    ensures p > 0
  {
    if n == 0 then 1 else 0x100 * Power256(n - 1)
  }

  function TwoOfTwoChunks(first: seq<Byte>, second: seq<Byte>, nonce: Option<seq<Byte>>): seq<Chunk> {
    ScriptNoncePrefix(nonce)
    + [Push(first), Op(OP_CHECKSIG), Push(second), Op(OP_CHECKSIGADD), Op(OP_2), Op(OP_NUMEQUAL)]
  }

  function TimeoutChunks(key: seq<Byte>, lockTime: nat, nonce: Option<seq<Byte>>): seq<Chunk> {
    ScriptNoncePrefix(nonce)
    + [Push(ScriptNumber(lockTime)), Op(OP_CHECKLOCKTIMEVERIFY), Op(OP_DROP), Push(key), Op(OP_CHECKSIG)]
  }

  lemma ChunksEncodable(first: seq<Byte>, second: seq<Byte>, lockTime: nat, nonce: Option<seq<Byte>>)
    requires IsKey(first) && IsKey(second) && NonceOk(nonce) && lockTime < Power256(128)
    ensures forall i :: 0 <= i < |TwoOfTwoChunks(first, second, nonce)| ==> Encodable(TwoOfTwoChunks(first, second, nonce)[i])
    ensures forall i :: 0 <= i < |TimeoutChunks(first, lockTime, nonce)| ==> Encodable(TimeoutChunks(first, lockTime, nonce)[i])
  {
    hide Power256, ScriptNumber;
    ScriptNumberReads(lockTime, 128);
  }

  function CreateTwoOfTwoLeaf(kind: Kind, first: seq<Byte>, second: seq<Byte>, signers: seq<Role>, nonce: Option<seq<Byte>>): Leaf
    requires IsKey(first) && IsKey(second) && NonceOk(nonce)
  {
    ChunksEncodable(first, second, 0, nonce);
    Leaf(kind, signers, Compile(TwoOfTwoChunks(first, second, nonce)), None)
  }

  /** Every finite JavaScript number is below 2^1024. */
  function CreateTimeoutLeaf(kind: Kind, key: seq<Byte>, signer: Role, lockTime: nat, nonce: Option<seq<Byte>>): Leaf
    requires IsKey(key) && NonceOk(nonce) && lockTime < Power256(128)
  {
    ChunksEncodable(key, key, lockTime, nonce);
    Leaf(kind, [signer], Compile(TimeoutChunks(key, lockTime, nonce)), Some(lockTime))
  }

  predicate DistinctKeys(entries: seq<(Role, seq<Byte>)>) {
    forall i, j :: 0 <= i < j < |entries| ==> entries[i].1 != entries[j].1
  }

  /** `assertDistinctSignerPubkeys`; false where it throws. */
  method AssertDistinctSignerPubkeys(entries: seq<(Role, seq<Byte>)>) returns (ok: bool)
    ensures ok <==> DistinctKeys(entries)
  {
    var seen: map<seq<Byte>, Role> := map[];
    for n := 0 to |entries|
      invariant DistinctKeys(entries[..n])
      invariant forall k :: k in seen <==> exists i :: 0 <= i < n && entries[i].1 == k
    {
      var (role, key) := entries[n];
      if key in seen {
        return false;
      }
      seen := seen[key := role];
    }
    assert entries[..|entries|] == entries;
    return true;
  }

  /** The four leaves of `createPearlP2trMultisigEscrowPayment`. */
  function MultisigLeaves(
    buyer: seq<Byte>, seller: seq<Byte>, arbiter: seq<Byte>, lockTime: Option<int>, nonce: Option<seq<Byte>>): Result<seq<Leaf>>
    requires IsKey(buyer) && IsKey(seller) && IsKey(arbiter) && (lockTime.Some? ==> lockTime.value < Power256(128))
  {
    if !DistinctKeys([(Buyer, buyer), (Seller, seller), (Arbiter, arbiter)]) || lockTime.None? || !NonceOk(nonce) || lockTime.value <= 0 then Thrown
    else
      Ok([CreateTwoOfTwoLeaf(BuyerSellerRelease, buyer, seller, [Buyer, Seller], nonce),
          CreateTwoOfTwoLeaf(BuyerArbiterRelease, buyer, arbiter, [Buyer, Arbiter], nonce),
          CreateTwoOfTwoLeaf(SellerArbiterRelease, seller, arbiter, [Seller, Arbiter], nonce),
          CreateTimeoutLeaf(SellerTimeoutRefund, seller, Seller, lockTime.value, nonce)])
  }

  datatype Mode = AutoSweep | ManualConfirm

  /** The two leaves of `createPearlP2trPrefundEscrowPayment`. */
  function PrefundLeaves(
    mode: Mode, maker: seq<Byte>, operator: seq<Byte>, arbiter: Option<seq<Byte>>, lockTime: int, nonce: Option<seq<Byte>>): Result<seq<Leaf>>
    requires IsKey(maker) && IsKey(operator) && (arbiter.Some? ==> IsKey(arbiter.value)) && lockTime < Power256(128)
  {
    if !DistinctKeys([(Maker, maker), (Operator, operator)]) || lockTime <= 0 || !NonceOk(nonce) then Thrown
    else
      var refund := CreateTimeoutLeaf(MakerTimeoutRefund, maker, Maker, lockTime, nonce);
      match mode
      case AutoSweep =>
        if arbiter.None? || !DistinctKeys([(Maker, maker), (Operator, operator), (Arbiter, arbiter.value)]) then Thrown
        else Ok([CreateTwoOfTwoLeaf(OperatorArbiterSweep, operator, arbiter.value, [Operator, Arbiter], nonce), refund])
      case ManualConfirm =>
        if arbiter.Some? then Thrown
        else Ok([CreateTwoOfTwoLeaf(MakerOperatorSweep, maker, operator, [Maker, Operator], nonce), refund])
  }

  lemma SigOpsCons(c: Chunk, rest: seq<Chunk>)
    ensures SigOps([c] + rest) == (if c.Op? && IsSigOp(c.code) then 1 else 0) + SigOps(rest)
  {
    assert ([c] + rest)[1..] == rest;
  }

  lemma PrefixCountsNothing(nonce: Option<seq<Byte>>, rest: seq<Chunk>)
    ensures SigOps(ScriptNoncePrefix(nonce) + rest) == SigOps(rest)
  {
    if nonce.Some? {
      SigOpsCons(Op(OP_DROP), rest);
      SigOpsCons(Push(nonce.value), [Op(OP_DROP)] + rest);
      assert ScriptNoncePrefix(nonce) + rest == [Push(nonce.value)] + ([Op(OP_DROP)] + rest);
    } else {
      assert ScriptNoncePrefix(nonce) + rest == rest;
    }
  }

  lemma TwoOfTwoSigOps(a: seq<Byte>, b: seq<Byte>, nonce: Option<seq<Byte>>)
    ensures SigOps(TwoOfTwoChunks(a, b, nonce)) == 2
  {
    hide SigOps, ScriptNoncePrefix;
    var t := [Op(OP_2), Op(OP_NUMEQUAL)];
    PlainTail(t);
    SigOpsCons(Op(OP_CHECKSIGADD), t);
    SigOpsCons(Push(b), [Op(OP_CHECKSIGADD)] + t);
    SigOpsCons(Op(OP_CHECKSIG), [Push(b)] + ([Op(OP_CHECKSIGADD)] + t));
    SigOpsCons(Push(a), [Op(OP_CHECKSIG)] + ([Push(b)] + ([Op(OP_CHECKSIGADD)] + t)));
    var all := [Push(a)] + ([Op(OP_CHECKSIG)] + ([Push(b)] + ([Op(OP_CHECKSIGADD)] + t)));
    PrefixCountsNothing(nonce, all);
    assert all == [Push(a), Op(OP_CHECKSIG), Push(b), Op(OP_CHECKSIGADD), Op(OP_2), Op(OP_NUMEQUAL)];
  }

  lemma TimeoutSigOps(key: seq<Byte>, lockTime: nat, nonce: Option<seq<Byte>>)
    ensures SigOps(TimeoutChunks(key, lockTime, nonce)) == 1
  {
    hide SigOps, ScriptNoncePrefix, ScriptNumber;
    PlainTail([]);
    SigOpsCons(Op(OP_CHECKSIG), []);
    var t := [Push(key)] + ([Op(OP_CHECKSIG)] + []);
    SigOpsCons(Push(key), [Op(OP_CHECKSIG)] + []);
    SigOpsCons(Op(OP_DROP), t);
    SigOpsCons(Op(OP_CHECKLOCKTIMEVERIFY), [Op(OP_DROP)] + t);
    SigOpsCons(Push(ScriptNumber(lockTime)), [Op(OP_CHECKLOCKTIMEVERIFY)] + ([Op(OP_DROP)] + t));
    var all := [Push(ScriptNumber(lockTime))] + ([Op(OP_CHECKLOCKTIMEVERIFY)] + ([Op(OP_DROP)] + t));
    PrefixCountsNothing(nonce, all);
    assert all == [Push(ScriptNumber(lockTime)), Op(OP_CHECKLOCKTIMEVERIFY), Op(OP_DROP), Push(key), Op(OP_CHECKSIG)];
  }

  lemma {:induction false} PlainTail(chunks: seq<Chunk>)
    requires forall i :: 0 <= i < |chunks| ==> !(chunks[i].Op? && IsSigOp(chunks[i].code))
    ensures SigOps(chunks) == 0
  {
    if chunks != [] { PlainTail(chunks[1..]); }
  }

  /** The scanner's count for the leaf is its number of required signers. */
  predicate CountMatches(leaf: Leaf) {
    leaf.requiredSigners != [] && Scan(leaf.script) == Ok(|leaf.requiredSigners|)
  }

  lemma TwoOfTwoCounts(kind: Kind, a: seq<Byte>, b: seq<Byte>, signers: seq<Role>, nonce: Option<seq<Byte>>)
    requires IsKey(a) && IsKey(b) && NonceOk(nonce)
    ensures |signers| == 2 ==> CountMatches(CreateTwoOfTwoLeaf(kind, a, b, signers, nonce))
  {
    hide Scan, Compile, TwoOfTwoChunks, TimeoutChunks;
    ChunksEncodable(a, b, 0, nonce);
    ScanCompiled(TwoOfTwoChunks(a, b, nonce));
    TwoOfTwoSigOps(a, b, nonce);
  }

  lemma TimeoutCounts(kind: Kind, key: seq<Byte>, signer: Role, lockTime: nat, nonce: Option<seq<Byte>>)
    requires IsKey(key) && NonceOk(nonce) && lockTime < Power256(128)
    ensures CountMatches(CreateTimeoutLeaf(kind, key, signer, lockTime, nonce))
  {
    hide Scan, Compile, TwoOfTwoChunks, TimeoutChunks;
    ChunksEncodable(key, key, lockTime, nonce);
    ScanCompiled(TimeoutChunks(key, lockTime, nonce));
    TimeoutSigOps(key, lockTime, nonce);
  }

  /** Every leaf of a trade escrow counts right, for all keys, nonces and lock times. */
  lemma MultisigLeavesCount(buyer: seq<Byte>, seller: seq<Byte>, arbiter: seq<Byte>, lockTime: Option<int>, nonce: Option<seq<Byte>>)
    requires IsKey(buyer) && IsKey(seller) && IsKey(arbiter) && (lockTime.Some? ==> lockTime.value < Power256(128))
    ensures var leaves := MultisigLeaves(buyer, seller, arbiter, lockTime, nonce);
      leaves.Ok? ==> forall i :: 0 <= i < |leaves.value| ==> CountMatches(leaves.value[i])
  {
    hide CreateTwoOfTwoLeaf, CreateTimeoutLeaf, CountMatches, DistinctKeys;
    if NonceOk(nonce) && lockTime.Some? && lockTime.value > 0 {
      TwoOfTwoCounts(BuyerSellerRelease, buyer, seller, [Buyer, Seller], nonce);
      TwoOfTwoCounts(BuyerArbiterRelease, buyer, arbiter, [Buyer, Arbiter], nonce);
      TwoOfTwoCounts(SellerArbiterRelease, seller, arbiter, [Seller, Arbiter], nonce);
      TimeoutCounts(SellerTimeoutRefund, seller, Seller, lockTime.value, nonce);
    }
  }

  /** And so does every leaf of a prefund escrow. */
  lemma PrefundLeavesCount(
    mode: Mode, maker: seq<Byte>, operator: seq<Byte>, arbiter: Option<seq<Byte>>, lockTime: int, nonce: Option<seq<Byte>>)
    requires IsKey(maker) && IsKey(operator) && (arbiter.Some? ==> IsKey(arbiter.value)) && lockTime < Power256(128)
    ensures var leaves := PrefundLeaves(mode, maker, operator, arbiter, lockTime, nonce);
      leaves.Ok? ==> forall i :: 0 <= i < |leaves.value| ==> CountMatches(leaves.value[i])
  {
    hide CreateTwoOfTwoLeaf, CreateTimeoutLeaf, CountMatches, DistinctKeys;
    if NonceOk(nonce) && lockTime > 0 {
      TwoOfTwoCounts(MakerOperatorSweep, maker, operator, [Maker, Operator], nonce);
      if arbiter.Some? {
        TwoOfTwoCounts(OperatorArbiterSweep, operator, arbiter.value, [Operator, Arbiter], nonce);
      }
      TimeoutCounts(MakerTimeoutRefund, maker, Maker, lockTime, nonce);
    }
  }

  // ---- The witness ----

  predicate SignatureSized(sig: seq<Byte>) {
    |sig| == 64 || |sig| == 65
  }

  /** `assertScriptPathWitnessComplete`; false where it throws. */
  method AssertScriptPathWitnessComplete(stack: seq<seq<Byte>>) returns (ok: bool)
    ensures ok <==> WitnessComplete(stack)
  {
    if |stack| < 3 {
      return false;
    }
    var sigCount := |stack| - 2;
    var expected := CountScriptSigOpcodes(stack[|stack| - 2]);
    if expected != Ok(sigCount) {
      return false;
    }
    for i := 0 to sigCount
      invariant forall k :: 0 <= k < i ==> SignatureSized(stack[k])
    {
      if |stack[i]| != 64 && |stack[i]| != 65 {
        return false;
      }
    }
    return true;
  }

  /** Signatures, then the script, then the control block. */
  predicate WitnessComplete(stack: seq<seq<Byte>>) {
    && |stack| >= 3
    && Scan(stack[|stack| - 2]) == Ok(|stack| - 2)
    && forall k :: 0 <= k < |stack| - 2 ==> SignatureSized(stack[k])
  }

  /** A leaf's witness is complete exactly when it holds one well-sized signature for each required signer. */
  lemma LeafWitness(leaf: Leaf, signatures: seq<seq<Byte>>, controlBlock: seq<Byte>)
    requires CountMatches(leaf)
    ensures WitnessComplete(signatures + [leaf.script, controlBlock]) <==>
      |signatures| == |leaf.requiredSigners| && forall k :: 0 <= k < |signatures| ==> SignatureSized(signatures[k])
  {
    hide Scan, SignatureSized;
    var stack := signatures + [leaf.script, controlBlock];
    assert stack[|stack| - 2] == leaf.script;
    assert forall k :: 0 <= k < |signatures| ==> stack[k] == signatures[k];
  }
}
