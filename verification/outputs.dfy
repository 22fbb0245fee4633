/**
 * Output scripts for payment addresses and the outputs of a send request
 * (abcd/spend/Outputs.cpp): the pay-to-pubkey-hash template, the
 * pay-to-script-hash template of BIP 16, and the one output a send
 * request turns into.
 */
module Outputs {
  import opened Wrappers
  import opened Bytes
  import opened Status
  import opened Script
  import opened Wire

  /** The address version bytes of the active network (pubkeyVersion(), scriptVersion()). */
  datatype Network = Network(pubkeyVersion: byte, scriptVersion: byte)

  /** Base58check address parsing (payment_address::set_encoded), left abstract. */
  type AddressParser = string -> Option<PaymentAddress>

  /** The amounts of a send request, signed 64-bit in the public API. */
  datatype TxDetails = TxDetails(
    amountSatoshi: int,
    amountFeesAirbitzSatoshi: int,
    amountFeesMinersSatoshi: int)

  /** A send request: destination, amounts, and whether it is a wallet-to-wallet transfer. */
  datatype SendInfo = SendInfo(destAddress: string, details: TxDetails, transfer: bool)

  const P2PKH_PREFIX: seq<byte> := [0x76, 0xa9, 20]
  const P2PKH_SUFFIX: seq<byte> := [0x88, 0xac]
  const P2SH_PREFIX: seq<byte> := [0xa9, 20]
  const P2SH_SUFFIX: seq<byte> := [0x87]

  /** Pay to a public-key hash: OP_DUP OP_HASH160 <h> OP_EQUALVERIFY OP_CHECKSIG. */
  function OutputScriptForPubkey(h: ShortHash): (ops: seq<Operation>)
    ensures AllEncodable(ops)
    ensures SaveScript(ops) == P2PKH_PREFIX + h + P2PKH_SUFFIX
  {
    var ops := [Operation(Dup, []), Operation(Hash160, []), Operation(Special, h),
                Operation(EqualVerify, []), Operation(CheckSig, [])];
    assert SaveScript(ops[4..]) == [0xac];
    assert SaveScript(ops[3..]) == [0x88, 0xac];
    assert SaveScript(ops[2..]) == [20] + h + [0x88, 0xac];
    assert SaveScript(ops[1..]) == [0xa9, 20] + h + [0x88, 0xac];
    ops
  }

  /** Pay to a script hash (BIP 16): OP_HASH160 <h> OP_EQUAL. */
  function OutputScriptForScript(h: ShortHash): (ops: seq<Operation>)
    ensures AllEncodable(ops)
    ensures SaveScript(ops) == P2SH_PREFIX + h + P2SH_SUFFIX
  {
    var ops := [Operation(Hash160, []), Operation(Special, h), Operation(Equal, [])];
    assert SaveScript(ops[2..]) == [0x87];
    assert SaveScript(ops[1..]) == [20] + h + [0x87];
    ops
  }

  /**
   * Recognises the two standard output templates and recovers the address
   * they pay (the part of bc::extract these scripts exercise).
   */
  function ExtractStandard(net: Network, script: seq<byte>): Option<PaymentAddress> {
    if |script| == 25 && script[..3] == P2PKH_PREFIX && script[23..] == P2PKH_SUFFIX then
      Some(PaymentAddress(net.pubkeyVersion, script[3..23]))
    else if |script| == 23 && script[..2] == P2SH_PREFIX && script[22..] == P2SH_SUFFIX then
      Some(PaymentAddress(net.scriptVersion, script[2..22]))
    else None
  }

  /**
   * outputScriptForAddress: the template chosen by the parsed address's
   * version; ParseError for an unparsable address or a foreign version.
   */
  function OutputScriptForAddress(net: Network, parse: AddressParser, address: string)
    : (r: Result<seq<Operation>>)
    ensures parse(address).None? ==> r == Fail(ParseError, "Bad address " + address)
    ensures parse(address).Some? ==>
      var a := parse(address).value;
      && (a.version == net.pubkeyVersion ==> r == Ok(OutputScriptForPubkey(a.hash)))
      && (a.version != net.pubkeyVersion && a.version == net.scriptVersion ==>
            r == Ok(OutputScriptForScript(a.hash)))
      && (a.version != net.pubkeyVersion && a.version != net.scriptVersion ==>
            r == Fail(ParseError, "Non-Bitcoin address " + address))
    ensures r.Ok? ==> AllEncodable(r.value)
  {
    match parse(address)
    case None => Fail(ParseError, "Bad address " + address)
    case Some(a) =>
      if a.version == net.pubkeyVersion then Ok(OutputScriptForPubkey(a.hash))
      else if a.version == net.scriptVersion then Ok(OutputScriptForScript(a.hash))
      else Fail(ParseError, "Non-Bitcoin address " + address)
  }

  /** The script built for an address pays that very address back. */
  lemma ExtractOfOutputScript(net: Network, parse: AddressParser, address: string)
    requires OutputScriptForAddress(net, parse, address).Ok?
    ensures parse(address).Some?
    ensures ExtractStandard(net, SaveScript(OutputScriptForAddress(net, parse, address).value))
         == parse(address)
  {
    var a := parse(address).value;
    var h := a.hash;
    if a.version == net.pubkeyVersion {
      var s := P2PKH_PREFIX + h + P2PKH_SUFFIX;
      assert s[..3] == P2PKH_PREFIX && s[3..23] == h && s[23..] == P2PKH_SUFFIX;
    } else {
      var s := P2SH_PREFIX + h + P2SH_SUFFIX;
      assert s[..2] == P2SH_PREFIX && s[2..22] == h && s[22..] == P2SH_SUFFIX;
      assert |s| != 25;
    }
  }

  /**
   * outputsForSendInfo: exactly one output paying amountSatoshi (converted
   * to the unsigned 64-bit output value) to the destination; the Airbitz
   * fee is set to zero whether or not the request is a transfer. On error
   * neither the previous output list nor the request is touched.
   */
  function OutputsForSendInfo(net: Network, parse: AddressParser,
                              previous: seq<TxOutput>, info: SendInfo)
    : (r: (Outcome, seq<TxOutput>, SendInfo))
    requires IsInt64(info.details.amountSatoshi)
    ensures var script := OutputScriptForAddress(net, parse, info.destAddress);
      && (script.Fail? <==> r.0.Failed?)
      && (script.Fail? ==> r.0 == Failed(script.code, script.message))
    ensures r.0.Failed? ==> r.1 == previous && r.2 == info
    ensures r.0.Pass? ==>
      && |r.1| == 1
      && r.1[0].value == ToUint64(info.details.amountSatoshi)
      && OutputFits(r.1[0])
      && ExtractStandard(net, r.1[0].script) == parse(info.destAddress)
      && r.2 == info.(details := info.details.(amountFeesAirbitzSatoshi := 0))
  {
    match OutputScriptForAddress(net, parse, info.destAddress)
    case Fail(code, message) => (Failed(code, message), previous, info)
    case Ok(ops) =>
      ExtractOfOutputScript(net, parse, info.destAddress);
      var output := TxOutput(ToUint64(info.details.amountSatoshi), SaveScript(ops));
      (Pass, [output], info.(details := info.details.(amountFeesAirbitzSatoshi := 0)))
  }
}
