/** The signed objects of the control plane: node descriptors, reachability
    records, and the grants and revocations that bind a human to a device. */
module ControlObjects {
  import opened Basics
  import opened Crypto

  const GENESIS_DIGEST: Bytes := [
    0, 0, 0, 0, 0, 0, 0, 0, 0, 0, 0, 0, 0, 0, 0, 0,
    0, 0, 0, 0, 0, 0, 0, 0, 0, 0, 0, 0, 0, 0, 0, 0
  ]
  const MAX_CLOCK_SKEW_MS := 5 * 60 * 1000
  const MAX_DESCRIPTOR_TTL_MS := 366 * 24 * 60 * 60 * 1000
  const MAX_REACHABILITY_TTL_MS := 15 * 60 * 1000
  const MAX_HUMAN_GRANT_TTL_MS := 90 * 24 * 60 * 60 * 1000
  const MAX_CAPABILITIES := 64
  const MAX_CANDIDATES := 16
  const MAX_PROTOCOL_VERSIONS := 16

  // ----- Field checks -----

  predicate RevisionOk(sequence: int, previousDigest: Bytes) {
    && sequence >= 1
    && |previousDigest| == 32
    && (sequence == 1 <==> previousDigest == GENESIS_DIGEST)
  }

  predicate WindowOk(issuedMs: int, expiresMs: int, now: int, maxTtlMs: int) {
    && issuedMs > 0 && expiresMs > issuedMs
    && expiresMs - issuedMs <= maxTtlMs
    && issuedMs <= now + MAX_CLOCK_SKEW_MS
    && expiresMs > now
  }

  predicate StrictlySorted(values: seq<string>) {
    forall i :: 0 <= i < |values| - 1 ==> TextLess(values[i], values[i + 1])
  }

  predicate LabelOk(text: string) {
    |text| <= 64 && forall i :: 0 <= i < |text| ==> text[i] >= 32 as char
  }

  predicate IsTokenChar(c: char) {
    IsWordChar(c) || c == '.' || c == '_' || c == '+' || c == ':' || c == '/' || c == '-'
  }

  predicate IsToken(s: string) {
    1 <= |s| <= 96 && IsWordChar(s[0]) && forall i :: 0 <= i < |s| ==> IsTokenChar(s[i])
  }

  /** Lowercase words joined by single separators; the first starts with a letter. */
  predicate IsCapability(s: string) {
    && s != "" && IsLowerLetter(s[0])
    && (forall i :: 0 <= i < |s| ==> IsLowerLetter(s[i]) || IsDigit(s[i]) || IsSeparator(s[i]))
    && !IsSeparator(s[|s| - 1])
    && (forall i :: 0 <= i < |s| - 1 ==> !(IsSeparator(s[i]) && IsSeparator(s[i + 1])))
  }

  predicate IsSeparator(c: char) {
    c == '.' || c == '_' || c == '-'
  }

  predicate CapabilitiesOk(values: seq<string>, allowEmpty: bool) {
    && (values != [] || allowEmpty) && |values| <= MAX_CAPABILITIES
    && StrictlySorted(values)
    && forall i :: 0 <= i < |values| ==> IsCapability(values[i])
  }

  predicate ProtocolVersionsOk(values: seq<string>) {
    && 1 <= |values| <= MAX_PROTOCOL_VERSIONS
    && StrictlySorted(values)
    && forall i :: 0 <= i < |values| ==> IsToken(values[i])
  }

  predicate CandidatesOk(c: Suite, values: seq<string>) {
    && |values| <= MAX_CANDIDATES
    && StrictlySorted(values)
    && forall i :: 0 <= i < |values| ==> c.locatorOk(values[i])
  }

  predicate IsOpaque(s: string) {
    1 <= |s| <= 128 && forall i :: 0 <= i < |s| ==> IsOpaqueChar(s[i])
  }

  // ----- Objects -----

  datatype NodeDescriptor = NodeDescriptor(
    nodeId: string, signPublic: Bytes, boxPublic: Bytes, nodeLabel: string, capabilities: seq<string>,
    sequence: int, previousDigest: Bytes, issuedMs: int, expiresMs: int, signature: Bytes,
    version: int, objectType: string)
  {
    function Field(i: int): Value {
      match i
      case 0 => Int(version)
      case 1 => Text(objectType)
      case 2 => Text(nodeId)
      case 3 => Bin(signPublic)
      case 4 => Bin(boxPublic)
      case 5 => Text(nodeLabel)
      case 6 => Texts(capabilities)
      case 7 => Int(sequence)
      case 8 => Bin(previousDigest)
      case 9 => Int(issuedMs)
      case _ => Int(expiresMs)
    }

    function SigningFields(): Fields {
      seq(11, i => Field(i))
    }

    function Digest(c: Suite): Bytes {
      c.digest(SigningFields() + [Bin(signature)])
    }

    predicate Verifies(c: Suite, now: int) {
      && version == 2 && objectType == "anet.node-descriptor.v2"
      && IsNodeId(nodeId)
      && |signPublic| == 32 && |boxPublic| == 32
      && nodeId == c.nodeId(signPublic, boxPublic)
      && LabelOk(nodeLabel)
      && CapabilitiesOk(capabilities, true)
      && RevisionOk(sequence, previousDigest)
      && WindowOk(issuedMs, expiresMs, now, MAX_DESCRIPTOR_TTL_MS)
      && |signature| == 64
      && c.verify(signPublic, SigningFields(), signature)
    }
  }

  datatype ReachabilityRecord = ReachabilityRecord(
    nodeId: string, descriptorDigest: Bytes, sessionId: string, protocolVersions: seq<string>,
    candidates: seq<string>, relayReservation: string, capabilityDigest: Bytes,
    sequence: int, previousDigest: Bytes, issuedMs: int, expiresMs: int, signature: Bytes,
    version: int, objectType: string)
  {
    function Field(i: int): Value {
      match i
      case 0 => Int(version)
      case 1 => Text(objectType)
      case 2 => Text(nodeId)
      case 3 => Bin(descriptorDigest)
      case 4 => Text(sessionId)
      case 5 => Texts(protocolVersions)
      case 6 => Texts(candidates)
      case 7 => Text(relayReservation)
      case 8 => Bin(capabilityDigest)
      case 9 => Int(sequence)
      case 10 => Bin(previousDigest)
      case 11 => Int(issuedMs)
      case _ => Int(expiresMs)
    }

    function SigningFields(): Fields {
      seq(13, i => Field(i))
    }

    function Digest(c: Suite): Bytes {
      c.digest(SigningFields() + [Bin(signature)])
    }

    predicate Verifies(c: Suite, descriptor: NodeDescriptor, now: int) {
      && version == 1 && objectType == "anet.reachability.v1"
      && descriptor.Verifies(c, now)
      && IsNodeId(nodeId) && nodeId == descriptor.nodeId
      && |descriptorDigest| == 32 && descriptorDigest == descriptor.Digest(c)
      && IsHexId(sessionId)
      && ProtocolVersionsOk(protocolVersions)
      && CandidatesOk(c, candidates)
      && (relayReservation == "" || IsOpaque(relayReservation))
      && |capabilityDigest| == 32
      && RevisionOk(sequence, previousDigest)
      && WindowOk(issuedMs, expiresMs, now, MAX_REACHABILITY_TTL_MS)
      && |signature| == 64
      && c.verify(descriptor.signPublic, SigningFields(), signature)
    }
  }

  datatype HumanDeviceGrant = HumanDeviceGrant(
    humanId: string, humanSignPublic: Bytes, deviceNodeId: string, descriptorDigest: Bytes,
    capabilities: seq<string>, sequence: int, previousDigest: Bytes, issuedMs: int, expiresMs: int,
    signature: Bytes, version: int, objectType: string)
  {
    function Field(i: int): Value {
      match i
      case 0 => Int(version)
      case 1 => Text(objectType)
      case 2 => Text(humanId)
      case 3 => Bin(humanSignPublic)
      case 4 => Text(deviceNodeId)
      case 5 => Bin(descriptorDigest)
      case 6 => Texts(capabilities)
      case 7 => Int(sequence)
      case 8 => Bin(previousDigest)
      case 9 => Int(issuedMs)
      case _ => Int(expiresMs)
    }

    function SigningFields(): Fields {
      seq(11, i => Field(i))
    }

    function Digest(c: Suite): Bytes {
      c.digest(SigningFields() + [Bin(signature)])
    }

    predicate Verifies(c: Suite, descriptor: NodeDescriptor, now: int) {
      && version == 1 && objectType == "anet.human-device-grant.v1"
      && descriptor.Verifies(c, now)
      && IsHumanId(humanId) && |humanSignPublic| == 32 && humanId == c.humanId(humanSignPublic)
      && humanSignPublic != descriptor.signPublic
      && IsNodeId(deviceNodeId) && deviceNodeId == descriptor.nodeId
      && |descriptorDigest| == 32 && descriptorDigest == descriptor.Digest(c)
      && CapabilitiesOk(capabilities, false)
      && RevisionOk(sequence, previousDigest)
      && WindowOk(issuedMs, expiresMs, now, MAX_HUMAN_GRANT_TTL_MS)
      && |signature| == 64
      && c.verify(humanSignPublic, SigningFields(), signature)
    }
  }

  datatype HumanDeviceRevocation = HumanDeviceRevocation(
    humanId: string, humanSignPublic: Bytes, deviceNodeId: string, descriptorDigest: Bytes,
    sequence: int, previousDigest: Bytes, revokedMs: int, reasonCode: string,
    signature: Bytes, version: int, objectType: string)
  {
    function Field(i: int): Value {
      match i
      case 0 => Int(version)
      case 1 => Text(objectType)
      case 2 => Text(humanId)
      case 3 => Bin(humanSignPublic)
      case 4 => Text(deviceNodeId)
      case 5 => Bin(descriptorDigest)
      case 6 => Int(sequence)
      case 7 => Bin(previousDigest)
      case 8 => Int(revokedMs)
      case _ => Text(reasonCode)
    }

    function SigningFields(): Fields {
      seq(10, i => Field(i))
    }

    function Digest(c: Suite): Bytes {
      c.digest(SigningFields() + [Bin(signature)])
    }

    predicate Verifies(c: Suite, descriptor: NodeDescriptor, now: int) {
      && version == 1 && objectType == "anet.human-device-revocation.v1"
      && descriptor.Verifies(c, now)
      && IsHumanId(humanId) && |humanSignPublic| == 32 && humanId == c.humanId(humanSignPublic)
      && humanSignPublic != descriptor.signPublic
      && deviceNodeId == descriptor.nodeId
      && |descriptorDigest| == 32 && descriptorDigest == descriptor.Digest(c)
      && RevisionOk(sequence, previousDigest)
      && 0 < revokedMs <= now + MAX_CLOCK_SKEW_MS
      && IsToken(reasonCode)
      && |signature| == 64
      && c.verify(humanSignPublic, SigningFields(), signature)
    }
  }

  /** Any revision of a chain. */
  datatype Revision =
    | OfDescriptor(descriptor: NodeDescriptor)
    | OfReachability(record: ReachabilityRecord)
    | OfGrant(grant: HumanDeviceGrant)
    | OfRevocation(revocation: HumanDeviceRevocation)
  {
    function Sequence(): int {
      match this
      case OfDescriptor(d) => d.sequence
      case OfReachability(r) => r.sequence
      case OfGrant(g) => g.sequence
      case OfRevocation(v) => v.sequence
    }

    function Previous(): Bytes {
      match this
      case OfDescriptor(d) => d.previousDigest
      case OfReachability(r) => r.previousDigest
      case OfGrant(g) => g.previousDigest
      case OfRevocation(v) => v.previousDigest
    }

    function ObjectType(): string {
      match this
      case OfDescriptor(d) => d.objectType
      case OfReachability(r) => r.objectType
      case OfGrant(g) => g.objectType
      case OfRevocation(v) => v.objectType
    }

    /** What the digest is computed over: the signed fields and the signature. */
    function DigestedFields(): Fields {
      match this
      case OfDescriptor(d) => d.SigningFields() + [Bin(d.signature)]
      case OfReachability(r) => r.SigningFields() + [Bin(r.signature)]
      case OfGrant(g) => g.SigningFields() + [Bin(g.signature)]
      case OfRevocation(v) => v.SigningFields() + [Bin(v.signature)]
    }

    function Digest(c: Suite): Bytes {
      c.digest(DigestedFields())
    }

    predicate HasItsType() {
      match this
      case OfDescriptor(d) => d.objectType == "anet.node-descriptor.v2"
      case OfReachability(r) => r.objectType == "anet.reachability.v1"
      case OfGrant(g) => g.objectType == "anet.human-device-grant.v1"
      case OfRevocation(v) => v.objectType == "anet.human-device-revocation.v1"
    }
  }

  lemma FieldsDetermineDescriptor(a: NodeDescriptor, b: NodeDescriptor)
    requires a.SigningFields() == b.SigningFields() && a.signature == b.signature
    ensures a == b
  {
    var x, y := a.SigningFields(), b.SigningFields();
    assert x[0] == Int(a.version) && y[0] == Int(b.version);
    assert x[1] == Text(a.objectType) && y[1] == Text(b.objectType);
    assert x[2] == Text(a.nodeId) && y[2] == Text(b.nodeId);
    assert x[3] == Bin(a.signPublic) && y[3] == Bin(b.signPublic);
    assert x[4] == Bin(a.boxPublic) && y[4] == Bin(b.boxPublic);
    assert x[5] == Text(a.nodeLabel) && y[5] == Text(b.nodeLabel);
    assert x[6] == Texts(a.capabilities) && y[6] == Texts(b.capabilities);
    assert x[7] == Int(a.sequence) && y[7] == Int(b.sequence);
    assert x[8] == Bin(a.previousDigest) && y[8] == Bin(b.previousDigest);
    assert x[9] == Int(a.issuedMs) && y[9] == Int(b.issuedMs);
    assert x[10] == Int(a.expiresMs) && y[10] == Int(b.expiresMs);
  }

  lemma FieldsDetermineReachability(a: ReachabilityRecord, b: ReachabilityRecord)
    requires a.SigningFields() == b.SigningFields() && a.signature == b.signature
    ensures a == b
  {
    var x, y := a.SigningFields(), b.SigningFields();
    assert x[0] == Int(a.version) && y[0] == Int(b.version);
    assert x[1] == Text(a.objectType) && y[1] == Text(b.objectType);
    assert x[2] == Text(a.nodeId) && y[2] == Text(b.nodeId);
    assert x[3] == Bin(a.descriptorDigest) && y[3] == Bin(b.descriptorDigest);
    assert x[4] == Text(a.sessionId) && y[4] == Text(b.sessionId);
    assert x[5] == Texts(a.protocolVersions) && y[5] == Texts(b.protocolVersions);
    assert x[6] == Texts(a.candidates) && y[6] == Texts(b.candidates);
    assert x[7] == Text(a.relayReservation) && y[7] == Text(b.relayReservation);
    assert x[8] == Bin(a.capabilityDigest) && y[8] == Bin(b.capabilityDigest);
    assert x[9] == Int(a.sequence) && y[9] == Int(b.sequence);
    assert x[10] == Bin(a.previousDigest) && y[10] == Bin(b.previousDigest);
    assert x[11] == Int(a.issuedMs) && y[11] == Int(b.issuedMs);
    assert x[12] == Int(a.expiresMs) && y[12] == Int(b.expiresMs);
  }

  lemma FieldsDetermineGrant(a: HumanDeviceGrant, b: HumanDeviceGrant)
    requires a.SigningFields() == b.SigningFields() && a.signature == b.signature
    ensures a == b
  {
    var x, y := a.SigningFields(), b.SigningFields();
    assert x[0] == Int(a.version) && y[0] == Int(b.version);
    assert x[1] == Text(a.objectType) && y[1] == Text(b.objectType);
    assert x[2] == Text(a.humanId) && y[2] == Text(b.humanId);
    assert x[3] == Bin(a.humanSignPublic) && y[3] == Bin(b.humanSignPublic);
    assert x[4] == Text(a.deviceNodeId) && y[4] == Text(b.deviceNodeId);
    assert x[5] == Bin(a.descriptorDigest) && y[5] == Bin(b.descriptorDigest);
    assert x[6] == Texts(a.capabilities) && y[6] == Texts(b.capabilities);
    assert x[7] == Int(a.sequence) && y[7] == Int(b.sequence);
    assert x[8] == Bin(a.previousDigest) && y[8] == Bin(b.previousDigest);
    assert x[9] == Int(a.issuedMs) && y[9] == Int(b.issuedMs);
    assert x[10] == Int(a.expiresMs) && y[10] == Int(b.expiresMs);
  }

  lemma FieldsDetermineRevocation(a: HumanDeviceRevocation, b: HumanDeviceRevocation)
    requires a.SigningFields() == b.SigningFields() && a.signature == b.signature
    ensures a == b
  {
    var x, y := a.SigningFields(), b.SigningFields();
    assert x[0] == Int(a.version) && y[0] == Int(b.version);
    assert x[1] == Text(a.objectType) && y[1] == Text(b.objectType);
    assert x[2] == Text(a.humanId) && y[2] == Text(b.humanId);
    assert x[3] == Bin(a.humanSignPublic) && y[3] == Bin(b.humanSignPublic);
    assert x[4] == Text(a.deviceNodeId) && y[4] == Text(b.deviceNodeId);
    assert x[5] == Bin(a.descriptorDigest) && y[5] == Bin(b.descriptorDigest);
    assert x[6] == Int(a.sequence) && y[6] == Int(b.sequence);
    assert x[7] == Bin(a.previousDigest) && y[7] == Bin(b.previousDigest);
    assert x[8] == Int(a.revokedMs) && y[8] == Int(b.revokedMs);
    assert x[9] == Text(a.reasonCode) && y[9] == Text(b.reasonCode);
  }

  lemma SameTypeSameKind(a: Revision, b: Revision)
    requires a.HasItsType() && b.HasItsType() && a.ObjectType() == b.ObjectType()
    ensures a.OfDescriptor? <==> b.OfDescriptor?
    ensures a.OfReachability? <==> b.OfReachability?
    ensures a.OfGrant? <==> b.OfGrant?
  {
    assert |"anet.node-descriptor.v2"| == 23 && |"anet.reachability.v1"| == 20;
    assert |"anet.human-device-grant.v1"| == 26 && |"anet.human-device-revocation.v1"| == 31;
  }

  lemma SplitLast(x: Fields, y: Fields, v: Value, w: Value)
    requires x + [v] == y + [w]
    ensures x == y && v == w
  {
    assert (x + [v])[|x|] == v && (y + [w])[|y|] == w;
    assert x == (x + [v])[..|x|] && y == (y + [w])[..|y|];
  }

  /** The digested fields determine the whole object: nothing is left unsigned,
      and objects of different kinds never share a field list. */
  lemma FieldsDetermineRevision(a: Revision, b: Revision)
    requires a.HasItsType() && b.HasItsType()
    requires a.DigestedFields() == b.DigestedFields()
    ensures a == b
  {
    assert a.DigestedFields()[1] == Text(a.ObjectType()) && b.DigestedFields()[1] == Text(b.ObjectType());
    SameTypeSameKind(a, b);
    match a
    case OfDescriptor(d) =>
      SplitLast(d.SigningFields(), b.descriptor.SigningFields(), Bin(d.signature), Bin(b.descriptor.signature));
      FieldsDetermineDescriptor(d, b.descriptor);
    case OfReachability(r) =>
      SplitLast(r.SigningFields(), b.record.SigningFields(), Bin(r.signature), Bin(b.record.signature));
      FieldsDetermineReachability(r, b.record);
    case OfGrant(g) =>
      SplitLast(g.SigningFields(), b.grant.SigningFields(), Bin(g.signature), Bin(b.grant.signature));
      FieldsDetermineGrant(g, b.grant);
    case OfRevocation(v) =>
      SplitLast(v.SigningFields(), b.revocation.SigningFields(), Bin(v.signature), Bin(b.revocation.signature));
      FieldsDetermineRevocation(v, b.revocation);
  }
}
