/**
 Telling payloads apart: known calls, ITS messages, ITS hub frames, governance proposals, text.
 The tests read raw bytes in the source's order; the embedded ABI database is a parameter.
 */
module Payload {
  import opened Prelude
  import opened Bytes
  import opened Abi

  /** Known selectors, and which calldata with a known selector has decodable arguments. */
  datatype Database = Database(known: set<seq<byte>>, readable: seq<byte> -> bool)

  datatype Call = Call(calldata: seq<byte>)

  datatype DecodeError = MalformedArguments

  datatype ItsMessage = ItsMessage(name: string, types: seq<SolType>, labels: seq<string>, values: seq<Value>)

  datatype Proposal = Proposal(command: nat, target: nat, callData: seq<byte>, nativeValue: nat, eta: nat)

  datatype Decoded =
    | FunctionCall(call: Call)
    | Its(message: ItsMessage)
    | Governance(command: nat, commandName: string, target: nat, nativeValue: nat, eta: nat, inner: Option<Call>)
    | Text(text: seq<byte>)
    | Unrecognised

  function DecodeCall(db: Database, data: seq<byte>): Result<Option<Call>, DecodeError> {
    if |data| < 4 || data[..4] !in db.known then Ok(None)
    else if db.readable(data) then Ok(Some(Call(data)))
    else Err(MalformedArguments)
  }

  predicate ZeroBytes(data: seq<byte>, from: nat, to: nat)
    requires from <= to <= |data|
  {
    forall i :: from <= i < to ==> data[i] == 0
  }

  function MessageType(data: seq<byte>): Option<nat> {
    if |data| < 32 || !ZeroBytes(data, 0, 24) then None else Some(FromBytes(data[24..32]))
  }

  function FieldTypes(messageType: nat): seq<SolType> {
    match messageType
    case 0 => [Uint(256), FixedBytes32, Bytes, Bytes, Uint(256), Bytes]
    case 1 => [Uint(256), FixedBytes32, Str, Str, Uint(8), Bytes]
    case 5 => [Uint(256), FixedBytes32, Uint(8), Bytes, Bytes, Bytes]
    case 6 => [Uint(256), Bytes, Uint(8)]
    case _ => [Uint(256), Str, Bytes]  // the hub frames, 3 and 4
  }

  function Labels(messageType: nat): seq<string> {
    match messageType
    case 0 => ["messageType", "tokenId", "sourceAddress", "destinationAddress", "amount", "data"]
    case 1 => ["messageType", "tokenId", "name", "symbol", "decimals", "minter"]
    case 3 => ["messageType", "destinationChain", "payload"]
    case 4 => ["messageType", "sourceChain", "payload"]
    case 5 =>
      ["messageType", "tokenId", "tokenManagerType", "sourceTokenAddress", "destinationTokenAddress", "linkParams"]
    case _ => ["messageType", "tokenAddress", "decimals"]
  }

  function MessageName(messageType: nat): Option<string> {
    match messageType
    case 0 => Some("INTERCHAIN_TRANSFER")
    case 1 => Some("DEPLOY_INTERCHAIN_TOKEN")
    case 3 => Some("SEND_TO_HUB")
    case 4 => Some("RECEIVE_FROM_HUB")
    case 5 => Some("LINK_TOKEN")
    case 6 => Some("REGISTER_TOKEN_METADATA")
    case _ => None
  }

  function Definition(messageType: nat): Option<(string, seq<SolType>, seq<string>)> {
    var name := MessageName(messageType);
    if name.None? then None else Some((name.value, FieldTypes(messageType), Labels(messageType)))
  }

  function ParseIts(data: seq<byte>): Option<ItsMessage> {
    var messageType := MessageType(data);
    if messageType.None? || Definition(messageType.value).None? then None else
    var (name, types, labels) := Definition(messageType.value).value;
    var values := Decode(types, data);
    if values.None? then None else Some(ItsMessage(name, types, labels, values.value))
  }

  function CommandName(command: nat): Option<string> {
    match command
    case 0 => Some("ScheduleTimeLockProposal")
    case 1 => Some("CancelTimeLockProposal")
    case 2 => Some("ApproveOperatorProposal")
    case 3 => Some("CancelOperatorApproval")
    case _ => None
  }

  const MAX_SANE_ETA_SECS: nat := 32_503_680_000

  predicate LooksLikeOffset(target: nat, dataLength: nat) {
    target < 0x10000 || (target % 32 == 0 && target < dataLength)
  }

  const SCHEMA := [Uint(256), Address, Bytes, Uint(256), Uint(256)]

  function ParseGovernance(data: seq<byte>): Option<Proposal> {
    if |data| < 6 * 32 then None
    else if !ZeroBytes(data, 0, 31) || CommandName(data[31]).None? then None
    else if !ZeroBytes(data, 32, 44) then None
    else if !ZeroBytes(data, 64, 95) || data[95] != 0xa0 then None
    else
      var values := Decode(SCHEMA, data);
      if values.None? then None else
      var v := values.value;
      if !v[1].Word? || LooksLikeOffset(v[1].n, |data|) then None
      else if !v[2].Blob? || !v[3].Word? || !v[4].Word? || v[4].n > MAX_SANE_ETA_SECS then None
      else Some(Proposal(data[31], v[1].n, v[2].bytes, v[3].n, v[4].n))
  }

  predicate IsPrintable(c: byte) {
    0x21 <= c <= 0x7e || c in {0x20, 0x09, 0x0a, 0x0c, 0x0d}
  }

  function DecodePayload(db: Database, data: seq<byte>): Result<Decoded, DecodeError> {
    match DecodeCall(db, data)
    case Err(e) => Err(e)
    case Ok(Some(call)) => Ok(FunctionCall(call))
    case Ok(None) =>
      var its := ParseIts(data);
      var isHubFrame := MessageType(data) == Some(3) || MessageType(data) == Some(4);
      if isHubFrame && its.Some? then Ok(Its(its.value)) else
      match ParseGovernance(data)
      case Some(p) =>
        (match DecodeCall(db, p.callData)
         case Err(e) => Err(e)
         case Ok(inner) =>
           var name := CommandName(p.command);
           Ok(Governance(p.command, if name.Some? then name.value else "", p.target, p.nativeValue,
                         if p.eta > U64_MAX then U64_MAX else p.eta, inner)))
      case None =>
        if its.Some? then Ok(Its(its.value))
        else if data != [] && forall i :: 0 <= i < |data| ==> IsPrintable(data[i]) then Ok(Text(data))
        else Ok(Unrecognised)
  }

  // ----- bytes as words

  /** All but the last `j` bytes of a word are zero exactly when its number fits in `j` bytes. */
  lemma HighZeros(data: seq<byte>, at: nat, j: nat)
    requires at + 32 <= |data| && j <= 32
    ensures ZeroBytes(data, at, at + 32 - j) <==> WordAt(data, at) < Pow256(j)
    ensures WordAt(data, at) < Pow256(j) ==> FromBytes(data[at + 32 - j..at + 32]) == WordAt(data, at)
  {
    var b := data[at..at + 32];
    HighBytesZero(b, j);
    assert b[32 - j..] == data[at + 32 - j..at + 32];
    assert (forall i :: 0 <= i < 32 - j ==> b[i] == 0) <==> ZeroBytes(data, at, at + 32 - j) by {
      assert forall i :: 0 <= i < 32 ==> b[i] == data[at + i];
      assert forall i :: at <= i < at + 32 ==> data[i] == b[i - at];
    }
  }

  /** A word whose high bytes are zero holds the number in its last byte. */
  lemma LastByte(data: seq<byte>, at: nat)
    requires at + 32 <= |data|
    ensures ZeroBytes(data, at, at + 31) <==> WordAt(data, at) < 256
    ensures WordAt(data, at) < 256 ==> data[at + 31] == WordAt(data, at)
  {
    HighZeros(data, at, 1);
    assert Pow256(1) == 256;
    var last := data[at + 31..at + 32];
    assert last == [data[at + 31]] && last[..0] == [];
    assert FromBytes(last) == data[at + 31];
  }

  lemma MessageTypeIsWord(data: seq<byte>)
    requires |data| >= 32
    ensures MessageType(data) == if WordAt(data, 0) <= U64_MAX then Some(WordAt(data, 0)) else None
  {
    HighZeros(data, 0, 8);
    PowSum(4, 4);
    assert Pow256(8) == U64_MAX + 1;
  }

  /** Governance recognition over words: the reference the byte tests implement. */
  function GovernanceByWords(data: seq<byte>): Option<Proposal> {
    if |data| >= 192
       && WordAt(data, 0) <= 3 && WordAt(data, 32) < TWO_160 && WordAt(data, 64) == 160
       && Readable(data, 160)
       && !LooksLikeOffset(WordAt(data, 32), |data|)
       && WordAt(data, 128) <= MAX_SANE_ETA_SECS
    then Some(Proposal(WordAt(data, 0), WordAt(data, 32), data[192..192 + WordAt(data, 160)],
                       WordAt(data, 96), WordAt(data, 128)))
    else None
  }

  lemma GovernanceTests(data: seq<byte>)
    requires |data| >= 192
    ensures ZeroBytes(data, 0, 31) && CommandName(data[31]).Some? <==> WordAt(data, 0) <= 3
    ensures WordAt(data, 0) <= 3 ==> data[31] == WordAt(data, 0)
    ensures ZeroBytes(data, 32, 44) <==> WordAt(data, 32) < TWO_160
    ensures ZeroBytes(data, 64, 95) && data[95] == 0xa0 <==> WordAt(data, 64) == 160
  {
    LastByte(data, 0);
    LastByte(data, 64);
    HighZeros(data, 32, 20);
    PowConstants();
  }

  lemma GovernanceIsByWords(data: seq<byte>)
    ensures ParseGovernance(data) == GovernanceByWords(data)
  {
    if |data| >= 192 {
      GovernanceTests(data);
      if WordAt(data, 0) <= 3 && WordAt(data, 32) < TWO_160 && WordAt(data, 64) == 160 {
        assert DecodeField(SCHEMA[0], data, 0) == Some(Word(WordAt(data, 0)));
        assert DecodeField(SCHEMA[1], data, 1) == Some(Word(WordAt(data, 32)));
        assert DecodeField(SCHEMA[3], data, 3) == Some(Word(WordAt(data, 96)));
        assert DecodeField(SCHEMA[4], data, 4) == Some(Word(WordAt(data, 128)));
        assert DecodeField(SCHEMA[2], data, 2) ==
          if Readable(data, 160) then Some(Blob(data[192..192 + WordAt(data, 160)])) else None;
      }
    }
  }
}
