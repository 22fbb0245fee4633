/**
 * Bitcoin transactions and their canonical wire encoding (what
 * libbitcoin's satoshi_save / satoshi_load / satoshi_raw_size produce and
 * consume): little-endian integers, variable-length counts, and locking or
 * unlocking scripts carried as raw bytes.
 */
module Wire {
  import opened Wrappers
  import opened Bytes

  const U32: int := 0x1_0000_0000

  /** A reference to output `index` of the transaction `hash`. */
  datatype OutPoint = OutPoint(hash: Hash, index: nat)

  datatype TxInput = TxInput(previousOutput: OutPoint, script: seq<byte>, sequence: nat)

  datatype TxOutput = TxOutput(value: nat, script: seq<byte>)

  datatype Transaction = Transaction(
    version: nat,
    inputs: seq<TxInput>,
    outputs: seq<TxOutput>,
    locktime: nat)

  /** The default-constructed transaction (bc::transaction_type()). */
  const EmptyTx := Transaction(0, [], [], 0)

  predicate InputFits(i: TxInput) {
    i.previousOutput.index < U32 && i.sequence < U32 && |i.script| < TWO_64
  }

  predicate OutputFits(o: TxOutput) {
    o.value < TWO_64 && |o.script| < TWO_64
  }

  /** Every field fits the width the wire format gives it. */
  predicate WellFormed(tx: Transaction) {
    && tx.version < U32
    && tx.locktime < U32
    && |tx.inputs| < TWO_64
    && |tx.outputs| < TWO_64
    && (forall i | 0 <= i < |tx.inputs| :: InputFits(tx.inputs[i]))
    && (forall i | 0 <= i < |tx.outputs| :: OutputFits(tx.outputs[i]))
  }

  // ---------------------------------------------------------------------
  // Variable-length integers

  /** The shortest variable-length encoding of x (x below 2^64). */
  function VarInt(x: nat): (r: seq<byte>)
    ensures 1 <= |r| <= 9
  {
    if x < 0xfd then [x as byte]
    else if x <= 0xffff then [0xfd] + LE(x, 2)
    else if x <= 0xffff_ffff then [0xfe] + LE(x, 4)
    else [0xff] + LE(x, 8)
  }

  /** Reads a variable-length integer; non-shortest encodings are accepted. */
  function ReadVarInt(s: seq<byte>): (r: Option<(nat, seq<byte>)>)
    ensures r.Some? ==> |r.value.1| < |s|
  {
    if |s| == 0 then None
    else if s[0] < 0xfd then Some((s[0] as nat, s[1..]))
    else if s[0] == 0xfd then ReadLE(s[1..], 2)
    else if s[0] == 0xfe then ReadLE(s[1..], 4)
    else ReadLE(s[1..], 8)
  }

  /** A prefix byte at or above 0xfd followed by a `width`-byte integer. */
  lemma ReadVarIntOfPrefixed(tag: byte, x: nat, width: nat, rest: seq<byte>)
    requires tag >= 0xfd && x < Pow256(width)
    requires width == (if tag == 0xfd then 2 else if tag == 0xfe then 4 else 8)
    ensures ReadVarInt([tag] + LE(x, width) + rest) == Some((x, rest))
  {
    var s := [tag] + LE(x, width) + rest;
    assert s[1..] == LE(x, width) + rest;
    ReadLEOfLE(x, width, rest);
  }

  lemma ReadVarIntOfVarInt(x: nat, rest: seq<byte>)
    requires x < TWO_64
    ensures ReadVarInt(VarInt(x) + rest) == Some((x, rest))
  {
    Pow256Values();
    if x < 0xfd {
      assert (VarInt(x) + rest)[1..] == rest;
    } else if x <= 0xffff {
      ReadVarIntOfPrefixed(0xfd, x, 2, rest);
    } else if x <= 0xffff_ffff {
      ReadVarIntOfPrefixed(0xfe, x, 4, rest);
    } else {
      ReadVarIntOfPrefixed(0xff, x, 8, rest);
    }
  }

  // ---------------------------------------------------------------------
  // Encoding

  function EncodeScript(script: seq<byte>): seq<byte> {
    VarInt(|script|) + script
  }

  function EncodeInput(i: TxInput): seq<byte> {
    i.previousOutput.hash + LE(i.previousOutput.index, 4)
    + EncodeScript(i.script) + LE(i.sequence, 4)
  }

  function EncodeInputs(ins: seq<TxInput>): seq<byte> {
    if ins == [] then [] else EncodeInput(ins[0]) + EncodeInputs(ins[1..])
  }

  function EncodeOutput(o: TxOutput): seq<byte> {
    LE(o.value, 8) + EncodeScript(o.script)
  }

  function EncodeOutputs(outs: seq<TxOutput>): seq<byte> {
    if outs == [] then [] else EncodeOutput(outs[0]) + EncodeOutputs(outs[1..])
  }

  /** satoshi_save: the canonical serialization of a transaction. */
  function Encode(tx: Transaction): seq<byte> {
    LE(tx.version, 4)
    + VarInt(|tx.inputs|) + EncodeInputs(tx.inputs)
    + VarInt(|tx.outputs|) + EncodeOutputs(tx.outputs)
    + LE(tx.locktime, 4)
  }

  /** satoshi_raw_size: the length of the canonical serialization. */
  function RawSize(tx: Transaction): nat {
    |Encode(tx)|
  }

  // ---------------------------------------------------------------------
  // Decoding

  function ReadScript(s: seq<byte>): (r: Option<(seq<byte>, seq<byte>)>)
    ensures r.Some? ==> |r.value.1| < |s|
  {
    var (n, rest) :- ReadVarInt(s);
    if |rest| < n then None else Some((rest[..n], rest[n..]))
  }

  function ReadInput(s: seq<byte>): (r: Option<(TxInput, seq<byte>)>)
    ensures r.Some? ==> |r.value.1| < |s|
  {
    var (hash, r1) :- ReadHash(s);
    var (index, r2) :- ReadLE(r1, 4);
    var (script, r3) :- ReadScript(r2);
    var (sequence, r4) :- ReadLE(r3, 4);
    Some((TxInput(OutPoint(hash, index), script, sequence), r4))
  }

  function ReadInputs(s: seq<byte>, n: nat): Option<(seq<TxInput>, seq<byte>)>
    decreases n
  {
    if n == 0 then Some(([], s))
    else
      var (i, r1) :- ReadInput(s);
      var (more, r2) :- ReadInputs(r1, n - 1);
      Some(([i] + more, r2))
  }

  function ReadOutput(s: seq<byte>): (r: Option<(TxOutput, seq<byte>)>)
    ensures r.Some? ==> |r.value.1| < |s|
  {
    var (value, r1) :- ReadLE(s, 8);
    var (script, r2) :- ReadScript(r1);
    Some((TxOutput(value, script), r2))
  }

  function ReadOutputs(s: seq<byte>, n: nat): Option<(seq<TxOutput>, seq<byte>)>
    decreases n
  {
    if n == 0 then Some(([], s))
    else
      var (o, r1) :- ReadOutput(s);
      var (more, r2) :- ReadOutputs(r1, n - 1);
      Some(([o] + more, r2))
  }

  /**
   * satoshi_load: parses one transaction from the front of s and returns
   * it with the bytes that follow; None when the stream ends early.
   */
  function Decode(s: seq<byte>): Option<(Transaction, seq<byte>)> {
    var (version, r1) :- ReadLE(s, 4);
    var (nIn, r2) :- ReadVarInt(r1);
    var (ins, r3) :- ReadInputs(r2, nIn);
    var (nOut, r4) :- ReadVarInt(r3);
    var (outs, r5) :- ReadOutputs(r4, nOut);
    var (locktime, r6) :- ReadLE(r5, 4);
    Some((Transaction(version, ins, outs, locktime), r6))
  }

  // ---------------------------------------------------------------------
  // Round trip

  lemma ReadScriptOfScript(script: seq<byte>, rest: seq<byte>)
    requires |script| < TWO_64
    ensures ReadScript(EncodeScript(script) + rest) == Some((script, rest))
  {
    var s := EncodeScript(script) + rest;
    assert s == VarInt(|script|) + (script + rest);
    ReadVarIntOfVarInt(|script|, script + rest);
    assert (script + rest)[..|script|] == script;
    assert (script + rest)[|script|..] == rest;
  }

  lemma ReadInputOfInput(i: TxInput, rest: seq<byte>)
    requires InputFits(i)
    ensures ReadInput(EncodeInput(i) + rest) == Some((i, rest))
  {
    Pow256Values();
    var p := i.previousOutput;
    var r3 := LE(i.sequence, 4) + rest;
    var r2 := EncodeScript(i.script) + r3;
    var r1 := LE(p.index, 4) + r2;
    assert EncodeInput(i) + rest == p.hash + r1;
    ReadHashOfHash(p.hash, r1);
    ReadLEOfLE(p.index, 4, r2);
    ReadScriptOfScript(i.script, r3);
    ReadLEOfLE(i.sequence, 4, rest);
  }

  /** One step of the input loop: an input, then the remaining n - 1. */
  lemma ReadInputsStep(s: seq<byte>, n: nat, i: TxInput, r1: seq<byte>, more: seq<TxInput>, r2: seq<byte>)
    requires n > 0 && ReadInput(s) == Some((i, r1)) && ReadInputs(r1, n - 1) == Some((more, r2))
    ensures ReadInputs(s, n) == Some(([i] + more, r2))
  {
  }

  lemma {:induction false} ReadInputsOfInputs(ins: seq<TxInput>, rest: seq<byte>)
    requires forall k | 0 <= k < |ins| :: InputFits(ins[k])
    ensures ReadInputs(EncodeInputs(ins) + rest, |ins|) == Some((ins, rest))
  {
    if ins != [] {
      var tail := EncodeInputs(ins[1..]) + rest;
      assert EncodeInputs(ins) + rest == EncodeInput(ins[0]) + tail;
      ReadInputOfInput(ins[0], tail);
      ReadInputsOfInputs(ins[1..], rest);
      ReadInputsStep(EncodeInput(ins[0]) + tail, |ins|, ins[0], tail, ins[1..], rest);
      assert [ins[0]] + ins[1..] == ins;
    } else {
      assert EncodeInputs(ins) + rest == rest;
    }
  }

  lemma ReadOutputOfOutput(o: TxOutput, rest: seq<byte>)
    requires OutputFits(o)
    ensures ReadOutput(EncodeOutput(o) + rest) == Some((o, rest))
  {
    Pow256Values();
    var r1 := EncodeScript(o.script) + rest;
    assert EncodeOutput(o) + rest == LE(o.value, 8) + r1;
    ReadLEOfLE(o.value, 8, r1);
    ReadScriptOfScript(o.script, rest);
  }

  /** One step of the output loop: an output, then the remaining n - 1. */
  lemma ReadOutputsStep(s: seq<byte>, n: nat, o: TxOutput, r1: seq<byte>, more: seq<TxOutput>, r2: seq<byte>)
    requires n > 0 && ReadOutput(s) == Some((o, r1)) && ReadOutputs(r1, n - 1) == Some((more, r2))
    ensures ReadOutputs(s, n) == Some(([o] + more, r2))
  {
  }

  lemma {:induction false} ReadOutputsOfOutputs(outs: seq<TxOutput>, rest: seq<byte>)
    requires forall k | 0 <= k < |outs| :: OutputFits(outs[k])
    ensures ReadOutputs(EncodeOutputs(outs) + rest, |outs|) == Some((outs, rest))
  {
    if outs != [] {
      var tail := EncodeOutputs(outs[1..]) + rest;
      assert EncodeOutputs(outs) + rest == EncodeOutput(outs[0]) + tail;
      ReadOutputOfOutput(outs[0], tail);
      ReadOutputsOfOutputs(outs[1..], rest);
      ReadOutputsStep(EncodeOutput(outs[0]) + tail, |outs|, outs[0], tail, outs[1..], rest);
      assert [outs[0]] + outs[1..] == outs;
    } else {
      assert EncodeOutputs(outs) + rest == rest;
    }
  }

  /** satoshi_load inverts satoshi_save, whatever bytes follow. */
  lemma DecodeOfEncode(tx: Transaction, rest: seq<byte>)
    requires WellFormed(tx)
    ensures Decode(Encode(tx) + rest) == Some((tx, rest))
  {
    Pow256Values();
    var r5 := LE(tx.locktime, 4) + rest;
    var r4 := EncodeOutputs(tx.outputs) + r5;
    var r3 := VarInt(|tx.outputs|) + r4;
    var r2 := EncodeInputs(tx.inputs) + r3;
    var r1 := VarInt(|tx.inputs|) + r2;
    EncodeSplit(tx, rest);
    ReadLEOfLE(tx.version, 4, r1);
    ReadVarIntOfVarInt(|tx.inputs|, r2);
    ReadInputsOfInputs(tx.inputs, r3);
    ReadVarIntOfVarInt(|tx.outputs|, r4);
    ReadOutputsOfOutputs(tx.outputs, r5);
    ReadLEOfLE(tx.locktime, 4, rest);
  }

  lemma EncodeSplit(tx: Transaction, rest: seq<byte>)
    ensures Encode(tx) + rest
         == LE(tx.version, 4) + (VarInt(|tx.inputs|) + (EncodeInputs(tx.inputs)
          + (VarInt(|tx.outputs|) + (EncodeOutputs(tx.outputs)
          + (LE(tx.locktime, 4) + rest)))))
  {
  }
}
