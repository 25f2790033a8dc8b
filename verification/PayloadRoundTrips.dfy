/** Canonical ITS messages and governance proposals survive the classifier's order of tests. */
module PayloadRoundTrips {
  import opened Prelude
  import opened Bytes
  import opened Abi
  import opened Payload

  datatype Message =
    | Transfer(tokenId: nat, source: seq<byte>, destination: seq<byte>, amount: nat, data: seq<byte>)
    | Deploy(tokenId: nat, name: seq<byte>, symbol: seq<byte>, decimals: byte, minter: seq<byte>)
    | SendToHub(chain: seq<byte>, payload: seq<byte>)
    | ReceiveFromHub(chain: seq<byte>, payload: seq<byte>)
    | LinkToken(tokenId: nat, manager: byte, source: seq<byte>, destination: seq<byte>, params: seq<byte>)
    | RegisterMetadata(token: seq<byte>, decimals: byte)

  function TypeOf(m: Message): nat {
    match m
    case Transfer(_, _, _, _, _) => 0
    case Deploy(_, _, _, _, _) => 1
    case SendToHub(_, _) => 3
    case ReceiveFromHub(_, _) => 4
    case LinkToken(_, _, _, _, _) => 5
    case RegisterMetadata(_, _) => 6
  }

  function Fields(m: Message): seq<Value> {
    match m
    case Transfer(id, source, destination, amount, data) =>
      [Word(0), Word(id), Blob(source), Blob(destination), Word(amount), Blob(data)]
    case Deploy(id, name, symbol, decimals, minter) =>
      [Word(1), Word(id), Blob(name), Blob(symbol), Word(decimals), Blob(minter)]
    case SendToHub(chain, payload) => [Word(3), Blob(chain), Blob(payload)]
    case ReceiveFromHub(chain, payload) => [Word(4), Blob(chain), Blob(payload)]
    case LinkToken(id, manager, source, destination, params) =>
      [Word(5), Word(id), Word(manager), Blob(source), Blob(destination), Blob(params)]
    case RegisterMetadata(token, decimals) => [Word(6), Blob(token), Word(decimals)]
  }

  /** Words fit 256 bits and the whole encoding has a representable length. */
  predicate Encodable(vs: seq<Value>) {
    (forall i :: 0 <= i < |vs| && vs[i].Word? ==> vs[i].n < TWO_256) && |Encode(vs)| < TWO_256
  }

  /** The database has no function with selector 0x00000000. */
  predicate NoZeroSelector(db: Database) { [0, 0, 0, 0] !in db.known }

  // ----- shared facts

  lemma {:induction false} EmptyParts(parts: seq<seq<byte>>)
    requires forall i :: 0 <= i < |parts| ==> parts[i] == []
    ensures Flat(parts) == []
  {
    if parts != [] {
      EmptyParts(parts[..|parts| - 1]);
    }
  }

  /** The first dynamic field's tail starts right after the head. */
  lemma FirstTail(vs: seq<Value>, i: nat)
    requires i <= |vs| && forall j :: 0 <= j < i ==> vs[j].Word?
    ensures TailStart(vs, i) == 32 * |vs|
  {
    EmptyParts(Tails(vs)[..i]);
  }

  /** A payload that starts with a small word is not taken for a call. */
  lemma NotACall(db: Database, data: seq<byte>)
    requires NoZeroSelector(db) && |data| >= 32 && WordAt(data, 0) < 256
    ensures DecodeCall(db, data) == Ok(None)
  {
    LastByte(data, 0);
    assert data[..4] == [0, 0, 0, 0];
  }

  // ----- ITS messages

  lemma SixTyped(vs: seq<Value>, ts: seq<SolType>)
    requires |vs| == 6 && |ts| == 6
    requires Typed(vs[0], ts[0]) && Typed(vs[1], ts[1]) && Typed(vs[2], ts[2])
    requires Typed(vs[3], ts[3]) && Typed(vs[4], ts[4]) && Typed(vs[5], ts[5])
    ensures AllTyped(vs, ts)
  {
  }

  lemma {:induction false} FieldsFit(m: Message)
    requires Encodable(Fields(m))
    ensures AllTyped(Fields(m), FieldTypes(TypeOf(m)))
  {
    var vs, ts := Fields(m), FieldTypes(TypeOf(m));
    if |vs| == 6 {
      SixTyped(vs, ts);
    }
  }

  lemma {:induction false} FieldsTyped(m: Message)
    requires Encodable(Fields(m))
    ensures Definition(TypeOf(m)).Some? && AllTyped(Fields(m), Definition(TypeOf(m)).value.1)
    ensures |Definition(TypeOf(m)).value.2| == |Fields(m)|
  {
    FieldsFit(m);
  }

  lemma FirstOffset(vs: seq<Value>, i: nat)
    requires Encodable(vs) && i < |vs| && vs[i].Blob? && forall j :: 0 <= j < i ==> vs[j].Word?
    ensures 32 * i + 32 <= |Encode(vs)| && WordAt(Encode(vs), 32 * i) == 32 * |vs|
  {
    EncodedAt(vs, i);
    FirstTail(vs, i);
  }

  /** The head word that gives an ITS message away to the governance tests. */
  lemma {:induction false} TellingWord(m: Message)
    requires Encodable(Fields(m))
    ensures var data := Encode(Fields(m));
            && |data| >= 96 && WordAt(data, 0) == TypeOf(m)
            && (TypeOf(m) <= 1 ==> WordAt(data, 64) == 192)
            && (TypeOf(m) == 3 ==> WordAt(data, 32) == 96)
  {
    var vs := Fields(m);
    EncodedAt(vs, 0);
    EncodedAt(vs, 2);
    if TypeOf(m) <= 1 {
      FirstOffset(vs, 2);
    } else if TypeOf(m) == 3 {
      FirstOffset(vs, 1);
    }
  }

  /** No ITS message is taken for a governance proposal, although three share a command's first word. */
  lemma ItsIsNotGovernance(m: Message)
    requires Encodable(Fields(m))
    ensures ParseGovernance(Encode(Fields(m))) == None
  {
    TellingWord(m);
    GovernanceIsByWords(Encode(Fields(m)));
  }

  lemma ClassifiedAsIts(db: Database, data: seq<byte>, vs: seq<Value>)
    requires |data| >= 32 && DecodeCall(db, data) == Ok(None) && ParseGovernance(data) == None
    requires WordAt(data, 0) <= 6 && Definition(WordAt(data, 0)).Some?
    requires Decode(Definition(WordAt(data, 0)).value.1, data) == Some(vs)
    ensures var (name, types, labels) := Definition(WordAt(data, 0)).value;
            DecodePayload(db, data) == Ok(Its(ItsMessage(name, types, labels, vs)))
  {
    MessageTypeIsWord(data);
  }

  /** The encoding of `vs` is reported as an ITS message of this name with these types, labels and values. */
  ghost predicate ReadAs(db: Database, name: string, types: seq<SolType>, labels: seq<string>, vs: seq<Value>) {
    DecodePayload(db, Encode(vs)) == Ok(Its(ItsMessage(name, types, labels, vs)))
  }

  lemma ItsByDefinition(db: Database, m: Message)
    requires NoZeroSelector(db) && Encodable(Fields(m))
    ensures var (name, types, labels) := Definition(TypeOf(m)).value;
            ReadAs(db, name, types, labels, Fields(m))
  {
    FieldsTyped(m);
    RoundTrip(Fields(m), Definition(TypeOf(m)).value.1);
    TellingWord(m);
    NotACall(db, Encode(Fields(m)));
    ItsIsNotGovernance(m);
    ClassifiedAsIts(db, Encode(Fields(m)), Fields(m));
  }

  /** Decoding a canonical ITS message gives back its name and, under its own label, every field. */
  lemma ItsRoundTrip(db: Database, m: Message)
    requires NoZeroSelector(db) && Encodable(Fields(m))
    ensures match m
      case Transfer(id, source, destination, amount, data) =>
        ReadAs(db, "INTERCHAIN_TRANSFER",
               [Uint(256), FixedBytes32, Bytes, Bytes, Uint(256), Bytes],
               ["messageType", "tokenId", "sourceAddress", "destinationAddress", "amount", "data"],
               [Word(0), Word(id), Blob(source), Blob(destination), Word(amount), Blob(data)])
      case Deploy(id, name, symbol, decimals, minter) =>
        ReadAs(db, "DEPLOY_INTERCHAIN_TOKEN",
               [Uint(256), FixedBytes32, Str, Str, Uint(8), Bytes],
               ["messageType", "tokenId", "name", "symbol", "decimals", "minter"],
               [Word(1), Word(id), Blob(name), Blob(symbol), Word(decimals), Blob(minter)])
      case SendToHub(chain, payload) =>
        ReadAs(db, "SEND_TO_HUB", [Uint(256), Str, Bytes], ["messageType", "destinationChain", "payload"],
               [Word(3), Blob(chain), Blob(payload)])
      case ReceiveFromHub(chain, payload) =>
        ReadAs(db, "RECEIVE_FROM_HUB", [Uint(256), Str, Bytes], ["messageType", "sourceChain", "payload"],
               [Word(4), Blob(chain), Blob(payload)])
      case LinkToken(id, manager, source, destination, params) =>
        ReadAs(db, "LINK_TOKEN",
               [Uint(256), FixedBytes32, Uint(8), Bytes, Bytes, Bytes],
               ["messageType", "tokenId", "tokenManagerType", "sourceTokenAddress", "destinationTokenAddress",
                "linkParams"],
               [Word(5), Word(id), Word(manager), Blob(source), Blob(destination), Blob(params)])
      case RegisterMetadata(token, decimals) =>
        ReadAs(db, "REGISTER_TOKEN_METADATA", [Uint(256), Bytes, Uint(8)],
               ["messageType", "tokenAddress", "decimals"],
               [Word(6), Blob(token), Word(decimals)])
  {
    ItsByDefinition(db, m);
  }

  // ----- governance proposals

  function ProposalFields(p: Proposal): seq<Value> {
    [Word(p.command), Word(p.target), Blob(p.callData), Word(p.nativeValue), Word(p.eta)]
  }

  predicate Canonical(p: Proposal) {
    p.command <= 3 && p.target < TWO_160 && Encodable(ProposalFields(p))
  }

  lemma ProposalWords(p: Proposal)
    requires Canonical(p)
    ensures var data := Encode(ProposalFields(p));
            && |data| >= 192
            && WordAt(data, 0) == p.command && WordAt(data, 32) == p.target && WordAt(data, 64) == 160
            && WordAt(data, 96) == p.nativeValue && WordAt(data, 128) == p.eta
            && Readable(data, 160) && WordAt(data, 160) == |p.callData|
            && data[192..192 + |p.callData|] == p.callData
  {
    var vs := ProposalFields(p);
    EncodedAt(vs, 0);
    EncodedAt(vs, 1);
    EncodedAt(vs, 2);
    EncodedAt(vs, 3);
    EncodedAt(vs, 4);
    FirstTail(vs, 2);
    BlobAt(vs, 2);
  }

  /** A canonical proposal is parsed back exactly when its eta is sane and its target is not offset-like. */
  lemma GovernanceRoundTrip(p: Proposal)
    requires Canonical(p)
    ensures var data := Encode(ProposalFields(p));
            ParseGovernance(data) ==
            if p.eta <= MAX_SANE_ETA_SECS && !LooksLikeOffset(p.target, |data|) then Some(p) else None
  {
    ProposalWords(p);
    GovernanceIsByWords(Encode(ProposalFields(p)));
  }

  /** Command 3 is first tried as a hub frame, whose string offset is the proposal's target. */
  lemma ProposalAsHubFrame(p: Proposal)
    requires Canonical(p)
    ensures var data := Encode(ProposalFields(p));
            && MessageType(data) == Some(p.command)
            && (p.command == 3 ==> (ParseIts(data).Some? <==> Readable(data, p.target)))
  {
    var data := Encode(ProposalFields(p));
    ProposalWords(p);
    MessageTypeIsWord(data);
    if p.command == 3 {
      var types := Definition(3).value.1;
      assert DecodeField(types[0], data, 0).Some?;
      assert DecodeField(types[1], data, 1).Some? <==> Readable(data, p.target);
      assert DecodeField(types[2], data, 2).Some?;
    }
  }

  /** The proposal's encoding is reported as that proposal under this command name. */
  ghost predicate ReportedAs(db: Database, p: Proposal, name: string)
    requires DecodeCall(db, p.callData).Ok?
  {
    var data := Encode([Word(p.command), Word(p.target), Blob(p.callData), Word(p.nativeValue), Word(p.eta)]);
    DecodePayload(db, data)
    == Ok(Governance(p.command, name, p.target, p.nativeValue, p.eta, DecodeCall(db, p.callData).value))
  }

  /** A time before the year 3000, a target that is no small or aligned inner offset, and no hub frame. */
  ghost predicate Distinct(p: Proposal) {
    var data := Encode(ProposalFields(p));
    && p.eta <= 32_503_680_000
    && p.target >= 0x10000 && (p.target % 32 != 0 || p.target >= |data|)
    && (p.command == 3 ==> !Readable(data, p.target))
  }

  lemma GovernanceByName(db: Database, p: Proposal)
    requires NoZeroSelector(db) && Canonical(p) && DecodeCall(db, p.callData).Ok?
    ensures CommandName(p.command).Some?
    ensures ReportedAs(db, p, CommandName(p.command).value) <==> Distinct(p)
  {
    var data := Encode(ProposalFields(p));
    ProposalWords(p);
    NotACall(db, data);
    ProposalAsHubFrame(p);
    GovernanceRoundTrip(p);
  }

  /** The exact condition under which decoding a canonical proposal's encoding reports that proposal. */
  lemma GovernanceDecodesExactly(db: Database, p: Proposal)
    requires NoZeroSelector(db) && Canonical(p) && DecodeCall(db, p.callData).Ok?
    ensures p.command == 0 ==> (ReportedAs(db, p, "ScheduleTimeLockProposal") <==> Distinct(p))
    ensures p.command == 1 ==> (ReportedAs(db, p, "CancelTimeLockProposal") <==> Distinct(p))
    ensures p.command == 2 ==> (ReportedAs(db, p, "ApproveOperatorProposal") <==> Distinct(p))
    ensures p.command == 3 ==> (ReportedAs(db, p, "CancelOperatorApproval") <==> Distinct(p))
  {
    GovernanceByName(db, p);
  }

  /** Decoding a canonical proposal fails exactly when it would be reported but its inner call is undecodable. */
  lemma MalformedInnerCall(db: Database, p: Proposal)
    requires NoZeroSelector(db) && Canonical(p)
    ensures DecodePayload(db, Encode(ProposalFields(p))).Err?
            <==> DecodeCall(db, p.callData).Err? && Distinct(p)
  {
    ProposalWords(p);
    NotACall(db, Encode(ProposalFields(p)));
    ProposalAsHubFrame(p);
    GovernanceRoundTrip(p);
  }

  /** A command-3 proposal whose target spells a readable offset is reported as a hub frame. */
  lemma TakenForHubFrame(db: Database, p: Proposal)
    requires NoZeroSelector(db) && Canonical(p) && p.command == 3
    requires Readable(Encode(ProposalFields(p)), p.target)
    ensures var r := DecodePayload(db, Encode(ProposalFields(p)));
            r.Ok? && r.value.Its? && r.value.message.name == "SEND_TO_HUB"
  {
    var data := Encode(ProposalFields(p));
    ProposalWords(p);
    NotACall(db, data);
    ProposalAsHubFrame(p);
  }

  /** One such proposal: nothing about it but its length and target is unusual. */
  lemma HubFrameCollision(db: Database)
    requires NoZeroSelector(db)
    ensures var p := Proposal(3, 0x10001, Zeros(0x10100), 0, 0);
            var data := Encode(ProposalFields(p));
            && Canonical(p) && p.eta <= MAX_SANE_ETA_SECS && !LooksLikeOffset(p.target, |data|)
            && DecodePayload(db, data).Ok? && DecodePayload(db, data).value.Its?
  {
    var p := Proposal(3, 0x10001, Zeros(0x10100), 0, 0);
    var data := Encode(ProposalFields(p));
    ProposalLength(p);
    ProposalWords(p);
    var at := 0x10001;
    var word := data[at..at + 32];
    forall i | 0 <= i < |word|
      ensures word[i] == 0
    {
      assert word[i] == data[192..192 + |p.callData|][at + i - 192];
    }
    FromBytesPrefix(word, []);
    assert word + [] == word;
    TakenForHubFrame(db, p);
  }

  /** In particular a real address, numerically past the end of the payload, always decodes. */
  lemma RealTargetsDecode(db: Database, p: Proposal)
    requires NoZeroSelector(db) && Canonical(p) && DecodeCall(db, p.callData).Ok?
    requires p.eta <= MAX_SANE_ETA_SECS && p.target >= 0x10000 && p.target >= |Encode(ProposalFields(p))|
    ensures CommandName(p.command).Some? && ReportedAs(db, p, CommandName(p.command).value)
  {
    GovernanceByName(db, p);
  }

  lemma {:induction false} SameBytes(a: seq<byte>, b: seq<byte>)
    requires |a| == |b| && FromBytes(a) == FromBytes(b)
    ensures a == b
  {
    ToFromBytes(a);
    ToFromBytes(b);
  }

  lemma SameWord(a: seq<byte>, b: seq<byte>, at: nat, i: nat)
    requires at + 32 <= |a| && at + 32 <= |b| && WordAt(a, at) == WordAt(b, at) && at <= i < at + 32
    ensures a[i] == b[i]
  {
    SameBytes(a[at..at + 32], b[at..at + 32]);
    assert a[i] == a[at..at + 32][i - at] && b[i] == b[at..at + 32][i - at];
  }

  /** Anything recognised as a proposal is that proposal's encoding, up to what follows the call data. */
  lemma GovernanceIsSound(data: seq<byte>, i: nat)
    requires ParseGovernance(data).Some? && |data| + 32 < TWO_256
    requires i < 192 + |ParseGovernance(data).value.callData|
    ensures var canonical := Encode(ProposalFields(ParseGovernance(data).value));
            i < |canonical| && i < |data| && data[i] == canonical[i]
  {
    var p := ParseGovernance(data).value;
    var canonical := Encode(ProposalFields(p));
    GovernanceIsByWords(data);
    ProposalIsCanonical(data, p);
    ProposalWords(p);
    if i < 192 {
      var at := i / 32 * 32;
      assert at == 0 || at == 32 || at == 64 || at == 96 || at == 128 || at == 160;
      SameWord(data, canonical, at, i);
    } else {
      assert data[i] == p.callData[i - 192];
      assert canonical[i] == canonical[192..192 + |p.callData|][i - 192];
    }
  }

  lemma ProposalLength(p: Proposal)
    ensures |Encode(ProposalFields(p))| == 192 + |p.callData| + Padding(|p.callData|)
  {
    var tails := Tails(ProposalFields(p));
    EmptyParts(tails[..2]);
    assert tails[..3][..2] == tails[..2] && tails[..4][..3] == tails[..3] && tails[..5][..4] == tails[..4];
    assert Flat(tails[..3]) == tails[2] && Flat(tails[..4]) == tails[2];
    assert tails == tails[..5];
  }

  lemma ProposalIsCanonical(data: seq<byte>, p: Proposal)
    requires GovernanceByWords(data) == Some(p) && |data| + 32 < TWO_256
    ensures Canonical(p)
  {
    ToFromBytes(data[96..128]);
    ToFromBytes(data[128..160]);
    PowConstants();
    ProposalLength(p);
  }

  // ----- known calls, text, and the rest

  /** Calldata starting with a selector of the database. */
  predicate Known(db: Database, data: seq<byte>) {
    |data| >= 4 && data[..4] in db.known
  }

  /** Non-empty, and every byte a visible ASCII character, space, tab, line feed, form feed or carriage return. */
  predicate IsText(data: seq<byte>) {
    data != [] && forall i :: 0 <= i < |data| ==>
      0x20 <= data[i] <= 0x7e || data[i] == 9 || data[i] == 10 || data[i] == 12 || data[i] == 13
  }

  /** A call is decoded exactly from a known selector; unreadable arguments are an error, not another format. */
  lemma CallExactly(db: Database, data: seq<byte>)
    ensures DecodeCall(db, data).Err? <==> Known(db, data) && !db.readable(data)
    ensures DecodeCall(db, data) == Ok(None) <==> !Known(db, data)
    ensures forall c :: DecodePayload(db, data) == Ok(FunctionCall(c))
                        <==> Known(db, data) && db.readable(data) && c == Call(data)
    ensures Known(db, data) && !db.readable(data) ==> DecodePayload(db, data).Err?
  {
  }

  /** Text is reported exactly for printable bytes that are no known call, never as a binary format. */
  lemma TextExactly(db: Database, data: seq<byte>, t: seq<byte>)
    ensures DecodePayload(db, data) == Ok(Text(t)) <==> t == data && !Known(db, data) && IsText(data)
  {
    assert IsText(data) <==> data != [] && forall i :: 0 <= i < |data| ==> IsPrintable(data[i]);
  }

  /** Nothing is recognised exactly when no format takes the bytes. */
  lemma UnrecognisedExactly(db: Database, data: seq<byte>)
    ensures DecodePayload(db, data) == Ok(Unrecognised)
            <==> !Known(db, data) && ParseIts(data).None? && GovernanceByWords(data).None? && !IsText(data)
  {
    TextExactly(db, data, data);
    GovernanceIsByWords(data);
  }
}
