/** Destination settlements: the signed proof a destination leaves behind when it
    takes a packet, its checks, and the JSON form in which the hub keeps it. */
module Settlement {
  import opened Basics
  import opened Crypto
  import opened Encoding

  const REQUEST_SKEW_MS := 5 * 60 * 1000

  datatype DestinationSettlement = DestinationSettlement(
    packetId: string, packetSha256: Bytes, uploaderId: string, destinationId: string,
    settledMs: int, expiresMs: int, signature: Bytes, version: int, objectType: string)
  {
    function Field(i: int): Value {
      match i
      case 0 => Int(version)
      case 1 => Text(objectType)
      case 2 => Text(packetId)
      case 3 => Bin(packetSha256)
      case 4 => Text(uploaderId)
      case 5 => Text(destinationId)
      case 6 => Int(settledMs)
      case _ => Int(expiresMs)
    }

    function SigningFields(): Fields {
      seq(8, i => Field(i))
    }

    /** The checks that do not look at the clock or the key. */
    predicate ShapeOk() {
      && version == 1 && objectType == "anet.destination-settlement.v1"
      && IsHexId(packetId)
      && |packetSha256| == 32 && |signature| == 64
      && IsNodeId(uploaderId) && IsNodeId(destinationId)
      && 0 < settledMs < expiresMs
    }

    predicate Verifies(c: Suite, signPublic: Bytes, now: int) {
      && ShapeOk()
      && |signPublic| == 32
      && settledMs <= now + REQUEST_SKEW_MS
      && expiresMs > now
      && c.verify(signPublic, SigningFields(), signature)
    }
  }

  /** The proof a destination issues, with `sign` its private key at work. */
  function Issue(c: Suite, sign: Fields -> Bytes, nodeId: string, signPublic: Bytes, packetId: string, raw: Bytes,
                 uploaderId: string, expiresMs: int, settledMs: int): Result<DestinationSettlement>
  {
    var unsigned := DestinationSettlement(packetId, c.sha256(raw), uploaderId, nodeId, settledMs, expiresMs, [], 1,
                                          "anet.destination-settlement.v1");
    var proof := unsigned.(signature := sign(unsigned.SigningFields()));
    if IsNodeId(uploaderId) && proof.Verifies(c, signPublic, settledMs) then Ok(proof) else Err(ValueError)
  }

  /** The signature key matches the public key, and signatures have their size. */
  ghost predicate SignsFor(c: Suite, sign: Fields -> Bytes, signPublic: Bytes) {
    |signPublic| == 32 && forall f :: |sign(f)| == 64 && c.verify(signPublic, f, sign(f))
  }

  lemma SigningIgnoresSignature(p: DestinationSettlement, signature: Bytes)
    ensures p.(signature := signature).SigningFields() == p.SigningFields()
  {
    var q := p.(signature := signature);
    forall i | 0 <= i < 8 ensures q.SigningFields()[i] == p.SigningFields()[i] {
      assert q.Field(i) == p.Field(i);
    }
  }

  /** The signature covers everything: proofs with equal signed fields differ in
      their signatures at most. */
  lemma FieldsDetermineProof(p: DestinationSettlement, q: DestinationSettlement)
    requires p.SigningFields() == q.SigningFields()
    ensures p == q.(signature := p.signature)
  {
    var x, y := p.SigningFields(), q.SigningFields();
    forall i | 0 <= i < 8 ensures p.Field(i) == q.Field(i) {
      assert x[i] == p.Field(i) && y[i] == q.Field(i);
    }
    assert p.Field(0) == q.Field(0) && p.Field(1) == q.Field(1) && p.Field(2) == q.Field(2) && p.Field(3) == q.Field(3);
    assert p.Field(4) == q.Field(4) && p.Field(5) == q.Field(5) && p.Field(6) == q.Field(6) && p.Field(7) == q.Field(7);
  }

  /** Issuing succeeds exactly between node ids, for a well-formed packet identity
      and inside its lifetime, and says what it was asked to.  In particular an identifier with an upper-case hexadecimal digit
      is refused, although packet headers may carry one. */
  lemma IssueSucceedsIff(c: Suite, sign: Fields -> Bytes, nodeId: string, signPublic: Bytes, packetId: string, raw: Bytes,
                         uploaderId: string, expiresMs: int, settledMs: int)
    requires Sized(c) && SignsFor(c, sign, signPublic)
    ensures var r := Issue(c, sign, nodeId, signPublic, packetId, raw, uploaderId, expiresMs, settledMs);
      && (r.Ok? <==> IsHexId(packetId) && 0 < settledMs < expiresMs && IsNodeId(nodeId) && IsNodeId(uploaderId))
      && (r.Ok? ==>
            && r.value.packetId == packetId && r.value.packetSha256 == c.sha256(raw) && r.value.uploaderId == uploaderId
            && r.value.destinationId == nodeId && r.value.settledMs == settledMs && r.value.expiresMs == expiresMs
            && r.value.signature == sign(r.value.SigningFields()))
  {
    hide IsHexId, IsNodeId;
    var unsigned := DestinationSettlement(packetId, c.sha256(raw), uploaderId, nodeId, settledMs, expiresMs, [], 1,
                                          "anet.destination-settlement.v1");
    SigningIgnoresSignature(unsigned, sign(unsigned.SigningFields()));
  }

  // ----- The stored form -----

  datatype Json = JNull | JBool(b: bool) | JInt(i: int) | JText(s: string)

  /** The keys of the stored object; `Other` is any key the format does not know. */
  datatype Name =
    | Version | ObjectType | PacketId | PacketSha256 | UploaderId | DestinationId | SettledMs | ExpiresMs | Signature
    | Other(key: string)

  type Dict = map<Name, Json>

  const NAMES := {Version, ObjectType, PacketId, PacketSha256, UploaderId, DestinationId, SettledMs, ExpiresMs, Signature}

  function ToDict(p: DestinationSettlement): Dict {
    map[
      Version := JInt(p.version),
      ObjectType := JText(p.objectType),
      PacketId := JText(p.packetId),
      PacketSha256 := JText(Encode(p.packetSha256)),
      UploaderId := JText(p.uploaderId),
      DestinationId := JText(p.destinationId),
      SettledMs := JInt(p.settledMs),
      ExpiresMs := JInt(p.expiresMs),
      Signature := JText(Encode(p.signature))
    ]
  }

  function Digits(n: nat): string {
    if n < 10 then [(48 + n) as char] else Digits(n / 10) + [(48 + n % 10) as char]
  }

  /** `str(value)` */
  function Show(j: Json): string {
    match j
    case JNull => "None"
    case JBool(b) => if b then "True" else "False"
    case JInt(i) => if i < 0 then "-" + Digits(-i) else Digits(i)
    case JText(s) => s
  }

  function FromDict(d: Dict): Result<DestinationSettlement> {
    if d.Keys != NAMES then Err(ValueError)
    else if !d[Version].JInt? || !d[SettledMs].JInt? || !d[ExpiresMs].JInt? then Err(ValueError)
    else
      match (Decode(Show(d[PacketSha256])), Decode(Show(d[Signature])))
      case (Some(sha), Some(signature)) =>
        Ok(DestinationSettlement(Show(d[PacketId]), sha, Show(d[UploaderId]), Show(d[DestinationId]),
                                 d[SettledMs].i, d[ExpiresMs].i, signature, d[Version].i, Show(d[ObjectType])))
      case _ => Err(ValueError)
  }

  /** Nothing is read but from exactly the nine fields: numbers where numbers belong,
      and any text as it stands. */
  lemma ReadsItsFields(d: Dict)
    requires FromDict(d).Ok?
    ensures var p := FromDict(d).value;
      && d.Keys == {Version, ObjectType, PacketId, PacketSha256, UploaderId, DestinationId, SettledMs, ExpiresMs, Signature}
      && d[Version] == JInt(p.version) && d[SettledMs] == JInt(p.settledMs) && d[ExpiresMs] == JInt(p.expiresMs)
      && Decode(Show(d[PacketSha256])) == Some(p.packetSha256) && Decode(Show(d[Signature])) == Some(p.signature)
      && (d[PacketId].JText? ==> d == d[PacketId := JText(p.packetId)])
      && (d[UploaderId].JText? ==> d == d[UploaderId := JText(p.uploaderId)])
      && (d[DestinationId].JText? ==> d == d[DestinationId := JText(p.destinationId)])
      && (d[ObjectType].JText? ==> d == d[ObjectType := JText(p.objectType)])
  {
    hide Decode, Digits;
  }

  /** A proof comes back from its stored form as it went in. */
  lemma DictRoundTrip(p: DestinationSettlement)
    ensures FromDict(ToDict(p)) == Ok(p)
  {
    hide Encode, Decode, Digits;
    RoundTrip(p.packetSha256);
    RoundTrip(p.signature);
    assert ToDict(p).Keys == NAMES;
  }
}
