/**
 * Bitcoin scripts as lists of operations (bc::script_type), the byte
 * encoding libbitcoin's save_script gives them, and the choice of push
 * opcode for a data chunk (create_data_operation).
 */
module Script {
  import opened Wrappers
  import opened Bytes

  /** A 20-byte RIPEMD-160 digest (bc::short_hash). */
  type ShortHash = h: seq<byte> | |h| == 20 witness seq(20, i => 0)

  /** A payment address: a version byte and the hash it commits to. */
  datatype PaymentAddress = PaymentAddress(version: byte, hash: ShortHash)

  /** The opcodes the modelled code emits. */
  datatype Opcode =
    | Special      // a direct push: the opcode byte is the data length (0..75)
    | PushData1    // 0x4c, then a 1-byte length
    | PushData2    // 0x4d, then a 2-byte little-endian length
    | PushData4    // 0x4e, then a 4-byte little-endian length
    | Dup          // 0x76
    | Hash160      // 0xa9
    | EqualVerify  // 0x88
    | CheckSig     // 0xac
    | Equal        // 0x87

  datatype Operation = Operation(code: Opcode, data: seq<byte>)

  predicate IsPush(c: Opcode) {
    c.Special? || c.PushData1? || c.PushData2? || c.PushData4?
  }

  /** The largest data length each push opcode can describe. */
  function PushLimit(c: Opcode): nat
    requires IsPush(c)
  {
    match c
    case Special => 76
    case PushData1 => 0x100
    case PushData2 => 0x1_0000
    case PushData4 => 0x1_0000_0000
  }

  /** An operation whose data fits its opcode; non-push operations carry none. */
  predicate Encodable(op: Operation) {
    if IsPush(op.code) then |op.data| < PushLimit(op.code) else op.data == []
  }

  predicate AllEncodable(ops: seq<Operation>) {
    forall i | 0 <= i < |ops| :: Encodable(ops[i])
  }

  /**
   * create_data_operation: the direct push for up to 75 bytes, otherwise
   * the first of pushdata1/2/4 whose bound (255, 65535, 2^32 - 1, as
   * strict upper bounds) exceeds the length. A chunk of exactly 255 bytes
   * therefore gets pushdata2. The source asserts the length is below
   * 2^32 - 1.
   */
  function CreateDataOperation(data: seq<byte>): (op: Operation)
    requires |data| < 0xFFFF_FFFF
    ensures op.data == data && IsPush(op.code) && Encodable(op)
    ensures op.code == Special <==> |data| <= 75
    ensures op.code == PushData1 <==> 75 < |data| < 0xff
    ensures op.code == PushData2 <==> 0xff <= |data| < 0xffff
    ensures op.code == PushData4 <==> 0xffff <= |data|
  {
    if |data| <= 75 then Operation(Special, data)
    else if |data| < 0xff then Operation(PushData1, data)
    else if |data| < 0xffff then Operation(PushData2, data)
    else Operation(PushData4, data)
  }

  function OpcodeByte(c: Opcode): byte
    requires !IsPush(c)
  {
    match c
    case Dup => 0x76
    case Hash160 => 0xa9
    case EqualVerify => 0x88
    case CheckSig => 0xac
    case Equal => 0x87
  }

  /** The bytes of one operation (its opcode, any length prefix, then its data). */
  function SaveOperation(op: Operation): seq<byte>
    requires Encodable(op)
  {
    match op.code
    case Special => [|op.data| as byte] + op.data
    case PushData1 => [0x4c] + LE(|op.data|, 1) + op.data
    case PushData2 => [0x4d] + LE(|op.data|, 2) + op.data
    case PushData4 => [0x4e] + LE(|op.data|, 4) + op.data
    case _ => [OpcodeByte(op.code)]
  }

  /** save_script: the concatenated bytes of the operations. */
  function SaveScript(ops: seq<Operation>): seq<byte>
    requires AllEncodable(ops)
  {
    if ops == [] then [] else SaveOperation(ops[0]) + SaveScript(ops[1..])
  }

  /** The opcode a non-push byte stands for, if the model knows it. */
  function ByteOpcode(b: byte): (r: Option<Opcode>)
    ensures r.Some? ==> !IsPush(r.value) && OpcodeByte(r.value) == b
  {
    if b == 0x76 then Some(Dup)
    else if b == 0xa9 then Some(Hash160)
    else if b == 0x88 then Some(EqualVerify)
    else if b == 0xac then Some(CheckSig)
    else if b == 0x87 then Some(Equal)
    else None
  }

  function ReadData(s: seq<byte>, n: nat): Option<(seq<byte>, seq<byte>)> {
    if |s| < n then None else Some((s[..n], s[n..]))
  }

  /** Reads a length of `width` bytes and then that many data bytes. */
  function ReadPush(s: seq<byte>, width: nat, code: Opcode): (r: Option<(Operation, seq<byte>)>)
    ensures r.Some? ==> |r.value.1| <= |s|
  {
    var (n, r1) :- ReadLE(s, width);
    var (d, rest) :- ReadData(r1, n);
    Some((Operation(code, d), rest))
  }

  /** Parses one operation from the front of a script. */
  function ReadOperation(s: seq<byte>): (r: Option<(Operation, seq<byte>)>)
    ensures r.Some? ==> |r.value.1| < |s|
  {
    if |s| == 0 then None
    else
      var b := s[0];
      if b <= 75 then
        var (d, rest) :- ReadData(s[1..], b as nat);
        Some((Operation(Special, d), rest))
      else if b == 0x4c then ReadPush(s[1..], 1, PushData1)
      else if b == 0x4d then ReadPush(s[1..], 2, PushData2)
      else if b == 0x4e then ReadPush(s[1..], 4, PushData4)
      else
        var code :- ByteOpcode(b);
        Some((Operation(code, []), s[1..]))
  }

  /** Parses a whole script into operations; None on malformed bytes. */
  function ParseScript(s: seq<byte>): Option<seq<Operation>>
    decreases |s|
  {
    if s == [] then Some([])
    else
      var (op, rest) :- ReadOperation(s);
      var more :- ParseScript(rest);
      Some([op] + more)
  }

  lemma ReadDataOf(d: seq<byte>, rest: seq<byte>)
    ensures ReadData(d + rest, |d|) == Some((d, rest))
  {
    assert (d + rest)[..|d|] == d && (d + rest)[|d|..] == rest;
  }

  lemma ReadPushOf(width: nat, code: Opcode, d: seq<byte>, rest: seq<byte>)
    requires |d| < Pow256(width)
    ensures ReadPush(LE(|d|, width) + d + rest, width, code) == Some((Operation(code, d), rest))
  {
    assert LE(|d|, width) + d + rest == LE(|d|, width) + (d + rest);
    ReadLEOfLE(|d|, width, d + rest);
    ReadDataOf(d, rest);
  }

  lemma ReadOperationOfPushData(op: Operation, rest: seq<byte>, width: nat)
    requires op.code in {PushData1, PushData2, PushData4} && Encodable(op)
    requires width == (if op.code == PushData1 then 1 else if op.code == PushData2 then 2 else 4)
    ensures ReadOperation(SaveOperation(op) + rest) == Some((op, rest))
  {
    Pow256Values();
    var b: byte := if op.code == PushData1 then 0x4c else if op.code == PushData2 then 0x4d else 0x4e;
    var s := SaveOperation(op) + rest;
    assert SaveOperation(op) == [b] + LE(|op.data|, width) + op.data;
    assert s[0] == b && s[1..] == LE(|op.data|, width) + op.data + rest;
    ReadPushOf(width, op.code, op.data, rest);
    assert ReadOperation(s) == ReadPush(s[1..], width, op.code);
  }

  lemma ReadOperationOfSave(op: Operation, rest: seq<byte>)
    requires Encodable(op)
    ensures ReadOperation(SaveOperation(op) + rest) == Some((op, rest))
  {
    var s := SaveOperation(op) + rest;
    if op.code == Special {
      assert s[1..] == op.data + rest;
      ReadDataOf(op.data, rest);
    } else if op.code == PushData1 {
      ReadOperationOfPushData(op, rest, 1);
    } else if op.code == PushData2 {
      ReadOperationOfPushData(op, rest, 2);
    } else if op.code == PushData4 {
      ReadOperationOfPushData(op, rest, 4);
    } else {
      assert s[1..] == rest;
    }
  }

  /** Parsing a saved script gives back its operations. */
  lemma {:induction false} ParseOfSave(ops: seq<Operation>)
    requires AllEncodable(ops)
    ensures ParseScript(SaveScript(ops)) == Some(ops)
  {
    if ops != [] {
      var tail := SaveScript(ops[1..]);
      ReadOperationOfSave(ops[0], tail);
      ParseOfSave(ops[1..]);
      assert [ops[0]] + ops[1..] == ops;
    }
  }
}
