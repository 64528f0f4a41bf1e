/** Sealed packets: versioned outer headers, an authenticated and padded inner
    message, and the round trip between `Seal` and `Open`. */
module Packet {
  import opened Basics
  import opened Crypto
  import opened Padding

  const MAX_WIRE_BYTES := 16 * 1024 * 1024
  const MAX_PLAINTEXT_BYTES := 8 * 1024 * 1024
  const MAX_TTL_SECONDS := 30 * 86400
  const MAX_CLOCK_SKEW_MS := 15 * 60 * 1000
  const QOS_CLASSES := {"control", "interactive", "normal", "bulk"}

  // ----- Entities -----

  /** A message body, as its packed bytes. */
  datatype Body = Body(packed: Bytes)

  datatype Inner = Inner(v: int, sid: string, spk: Bytes, bpk: Bytes, kind: string, ts: int, body: Body,
                         causal: seq<string>, codec: string, reply: string, sig: Bytes)

  datatype Outer = Outer(v: int, id: string, dst: string, ts: int, exp: int, hops: int, epk: Bytes, nonce: Bytes,
                         qos: string, km: Option<string>, kid: Option<string>, ct: Bytes)

  datatype PacketInfo = PacketInfo(packetId: string, destinationId: string, createdMs: int, expiresMs: int,
                                   maxHops: int, qos: string, raw: Bytes, keyMode: string, prekeyId: string, version: int)

  datatype Identity = Identity(nodeId: string, signPrivate: Bytes, boxPrivate: Bytes)

  datatype Recipient = Recipient(nodeId: string, boxPublic: Bytes)

  datatype OpenedMessage = OpenedMessage(packetId: string, senderId: string, senderSignPublic: Bytes,
                                         senderBoxPublic: Bytes, kind: string, createdMs: int, body: Body,
                                         causal: seq<string>, codec: string, replyTo: string, qos: string,
                                         keyMode: string, prekeyId: string)

  /** What the caller of `Seal` asks for. */
  datatype Order = Order(kind: string, body: Body, ttlSeconds: int, maxHops: int, causal: seq<string>, codec: string,
                         replyTo: string, paddingMin: int, qos: string, prekeyPublic: Option<Bytes>, prekeyId: string,
                         version: int)

  /** What `Seal` draws at random. */
  datatype Draw = Draw(packetId: string, ephemeralPrivate: Bytes, nonce: Bytes, padding: nat -> Bytes) {
    ghost predicate Valid() {
      && IsHexId(packetId) && |nonce| == 12
      && forall n :: |padding(n)| == n
    }
  }

  /** The primitives of this module. */
  datatype Primitives = Primitives(
    exchange: (Bytes, Bytes) -> Bytes,
    publicOf: Bytes -> Bytes,
    signPublicOf: Bytes -> Bytes,
    sign: (Bytes, Fields) -> Bytes,
    verify: (Bytes, Fields, Bytes) -> bool,
    encrypt: (Bytes, Bytes, Bytes, Fields) -> Bytes,
    decrypt: (Bytes, Bytes, Bytes, Fields) -> Option<Bytes>,
    derive: (Bytes, string, Fields) -> Bytes,
    packInner: Inner -> Bytes,
    unpackInner: Bytes -> Option<Inner>,
    packOuter: Outer -> Bytes,
    unpackOuter: Bytes -> Option<Outer>,
    nodeId: (Bytes, Bytes) -> string,
    prekeyId: Bytes -> string)
  {
    /** The equations of Diffie-Hellman, signatures, authenticated encryption and packing. */
    ghost predicate Lawful() {
      && (forall a, b :: exchange(a, publicOf(b)) == exchange(b, publicOf(a)))
      && (forall k :: |publicOf(k)| == 32 && |signPublicOf(k)| == 32)
      && (forall k, f :: verify(signPublicOf(k), f, sign(k, f)))
      && (forall k, n, p, a :: decrypt(k, n, encrypt(k, n, p, a), a) == Some(p))
      && (forall k, n, p, a :: |encrypt(k, n, p, a)| == |p| + 16)
      && (forall x :: unpackInner(packInner(x)) == Some(x) && |packInner(x)| > 0)
      && (forall x :: unpackOuter(packOuter(x)) == Some(x))
      && (forall k :: IsHexId(prekeyId(k)))
    }
  }

  // ----- Field lists -----

  /** The signed inner fields; the body stands for its packed bytes. */
  function InnerFields(x: Inner): Fields {
    [Int(x.v), Text(x.sid), Bin(x.spk), Bin(x.bpk), Text(x.kind), Int(x.ts), Bin(x.body.packed), Texts(x.causal),
     Text(x.codec), Text(x.reply)]
  }

  function Named(s: Option<string>): string {
    if s.Some? then s.value else ""
  }

  /** The authenticated header: QoS joined it in version 2, key mode and prekey in version 3. */
  function AadFields(x: Outer): Fields {
    [Int(x.v), Text(x.id), Text(x.dst), Int(x.ts), Int(x.exp), Int(x.hops), Bin(x.epk), Bin(x.nonce)]
    + (if x.v >= 2 then [Text(x.qos)] else [])
    + (if x.v >= 3 then [Text(Named(x.km)), Text(Named(x.kid))] else [])
  }

  function Key(p: Primitives, shared: Bytes, version: int, packetId: string, recipientBox: Bytes, ephemeral: Bytes,
               keyMode: string, prekeyId: string): Bytes
  {
    if version <= 2 then
      p.derive(shared, packetId, [Text("ainet/sealed-packet/v1"), Bin(recipientBox + ephemeral)])
    else
      p.derive(shared, packetId, [Text("ainet/sealed-packet/v3"), Bin(recipientBox), Bin(ephemeral), Text(keyMode), Text(prekeyId)])
  }

  /** The authenticated header determines everything a reader learns from it. */
  lemma AadDeterminesHeader(x: Outer, y: Outer)
    requires AadFields(x) == AadFields(y)
    ensures x.v == y.v && x.id == y.id && x.dst == y.dst && x.ts == y.ts && x.exp == y.exp && x.hops == y.hops
    ensures x.epk == y.epk && x.nonce == y.nonce
    ensures QosOf(x) == QosOf(y) || x.v < 1
    ensures KeyModeOf(x) == KeyModeOf(y) && PrekeyIdOf(x) == PrekeyIdOf(y)
  {
    var a, b := AadFields(x), AadFields(y);
    assert a[0] == Int(x.v) && b[0] == Int(y.v) && a[1] == Text(x.id) && b[1] == Text(y.id);
    assert a[2] == Text(x.dst) && b[2] == Text(y.dst) && a[3] == Int(x.ts) && b[3] == Int(y.ts);
    assert a[4] == Int(x.exp) && b[4] == Int(y.exp) && a[5] == Int(x.hops) && b[5] == Int(y.hops);
    assert a[6] == Bin(x.epk) && b[6] == Bin(y.epk) && a[7] == Bin(x.nonce) && b[7] == Bin(y.nonce);
    if x.v >= 2 {
      assert a[8] == Text(x.qos) && b[8] == Text(y.qos);
    }
    if x.v >= 3 {
      assert a[9] == Text(Named(x.km)) && b[9] == Text(Named(y.km));
      assert a[10] == Text(Named(x.kid)) && b[10] == Text(Named(y.kid));
    }
  }

  /** The signature covers everything: inner messages with equal signed fields
      differ in their signatures at most. */
  lemma InnerFieldsDetermineMessage(x: Inner, y: Inner)
    requires InnerFields(x) == InnerFields(y)
    ensures x == y.(sig := x.sig)
  {
    var a, b := InnerFields(x), InnerFields(y);
    assert a[0] == b[0] && a[1] == b[1] && a[2] == b[2] && a[3] == b[3] && a[4] == b[4];
    assert a[5] == b[5] && a[6] == b[6] && a[7] == b[7] && a[8] == b[8] && a[9] == b[9];
  }

  // ----- Header validation -----

  predicate IsKindChar(c: char) {
    IsLowerLetter(c) || IsDigit(c) || c == '_' || c == '.' || c == '-'
  }

  predicate IsKindName(s: string) {
    1 <= |s| <= 64 && IsLowerLetter(s[0]) && forall i :: 0 <= i < |s| ==> IsKindChar(s[i])
  }

  /** The pattern is anchored with `$`, which also matches before a final newline. */
  predicate KindMatches(s: string) {
    IsKindName(s) || (s != "" && s[|s| - 1] == '\n' && IsKindName(s[..|s| - 1]))
  }

  predicate IsHexPair(s: string, i: int)
    requires 0 <= i < |s|
  {
    IsLowerHex(LowerChar(s[i])) && i + 1 < |s| && IsLowerHex(LowerChar(s[i + 1]))
  }

  /** `bytes.fromhex` accepts both cases, and blanks between whole bytes. */
  predicate FromHexAccepts(s: string) {
    s == ""
    || (IsSpace(s[0]) && FromHexAccepts(s[1..]))
    || (|s| >= 2 && IsHexPair(s, 0) && FromHexAccepts(s[2..]))
  }

  /** Digits of either case. */
  predicate AreHexDigits(s: string) {
    forall i :: 0 <= i < |s| ==> IsLowerHex(LowerChar(s[i]))
  }

  lemma {:induction false} HexDigitsDecode(s: string)
    requires |s| % 2 == 0 && AreHexDigits(s)
    ensures FromHexAccepts(s)
  {
    if s == "" {
    } else {
      HexDigitsDecode(s[2..]);
    }
  }

  function QosOf(x: Outer): string {
    if x.v == 1 then "normal" else x.qos
  }

  function KeyModeOf(x: Outer): string {
    if x.v <= 2 then "static" else Named(x.km)
  }

  function PrekeyIdOf(x: Outer): string {
    if x.v <= 2 then "" else Named(x.kid)
  }

  /** The header checks that do not look at the clock. */
  predicate HeaderOk(x: Outer) {
    && 1 <= x.v <= 3
    && |x.id| == 32 && FromHexAccepts(x.id)
    && "an1" <= x.dst && |x.dst| >= 20
    && x.ts > 0 && x.exp > x.ts
    && x.exp - x.ts <= MAX_TTL_SECONDS * 1000
    && 1 <= x.hops <= 32
    && |x.epk| == 32 && |x.nonce| == 12
    && QosOf(x) in QOS_CLASSES
    && (KeyModeOf(x) == "static" || KeyModeOf(x) == "opk")
    && (KeyModeOf(x) == "static" ==> PrekeyIdOf(x) == "")
    && (KeyModeOf(x) == "opk" ==> IsHexId(PrekeyIdOf(x)))
    && 32 <= |x.ct| <= MAX_PLAINTEXT_BYTES + 16
  }

  /** Header validation does not look at the case of the packet id. */
  lemma HeaderAcceptsAnyCase(x: Outer, id: string)
    requires HeaderOk(x) && |id| == 32 && AreHexDigits(id)
    ensures HeaderOk(x.(id := id))
  {
    HexDigitsDecode(id);
  }

  /** Not from too far ahead, not too long-lived, and not expired. */
  predicate ClockAccepts(createdMs: int, expiresMs: int, now: int) {
    && createdMs <= now + MAX_CLOCK_SKEW_MS
    && expiresMs <= now + MAX_TTL_SECONDS * 1000 + MAX_CLOCK_SKEW_MS
    && expiresMs > now
  }

  function InfoOf(x: Outer, raw: Bytes): PacketInfo {
    PacketInfo(x.id, x.dst, x.ts, x.exp, x.hops, QosOf(x), raw, KeyModeOf(x), PrekeyIdOf(x), x.v)
  }

  function Inspect(p: Primitives, raw: Bytes, now: int): Result<PacketInfo> {
    if |raw| > MAX_WIRE_BYTES then Err(ValueError)
    else match p.unpackOuter(raw)
      case None => Err(ValueError)
      case Some(x) =>
        if HeaderOk(x) && ClockAccepts(x.ts, x.exp, now) then Ok(InfoOf(x, raw)) else Err(ValueError)
  }

  /** What a packet says about itself depends on its bytes alone: the clock can
      only make the inspection fail. */
  lemma InspectionIsStable(p: Primitives, raw: Bytes, t1: int, t2: int)
    requires Inspect(p, raw, t1).Ok? && Inspect(p, raw, t2).Ok?
    ensures Inspect(p, raw, t1) == Inspect(p, raw, t2)
    ensures Inspect(p, raw, t1).value.raw == raw
  {
  }

  // ----- Sealing -----

  /** The recipient key in use: key mode, public key and prekey id. */
  function RecipientKey(p: Primitives, recipient: Recipient, o: Order): Result<(string, Bytes, string)> {
    if o.prekeyPublic.None? then
      if o.prekeyId != "" then Err(ValueError) else Ok(("static", recipient.boxPublic, ""))
    else
      var id := Lower(Strip(o.prekeyId));
      if o.version < 3 || |o.prekeyPublic.value| != 32 || id != p.prekeyId(o.prekeyPublic.value)
      then Err(ValueError)
      else Ok(("opk", o.prekeyPublic.value, id))
  }

  function NormalKind(o: Order): string {
    Lower(Strip(o.kind))
  }

  function NormalQos(o: Order): string {
    Lower(Strip(o.qos))
  }

  function NormalCodec(o: Order): string {
    if o.codec == "" then "msgpack" else o.codec
  }

  function Ttl(o: Order): int {
    Max(30, Min(o.ttlSeconds, MAX_TTL_SECONDS))
  }

  function Hops(o: Order): int {
    Max(1, Min(o.maxHops, 32))
  }

  function SealInner(p: Primitives, sender: Identity, o: Order, createdMs: int): Inner {
    var unsigned := Inner(1, sender.nodeId, p.signPublicOf(sender.signPrivate), p.publicOf(sender.boxPrivate),
                          NormalKind(o), createdMs, o.body, o.causal, NormalCodec(o), o.replyTo, []);
    unsigned.(sig := p.sign(sender.signPrivate, InnerFields(unsigned)))
  }

  function Header(p: Primitives, recipient: Recipient, o: Order, d: Draw, keyMode: string, prekeyId: string,
                  createdMs: int): Outer
  {
    Outer(o.version, d.packetId, recipient.nodeId, createdMs, createdMs + Ttl(o) * 1000, Hops(o),
          p.publicOf(d.ephemeralPrivate), d.nonce, NormalQos(o),
          if o.version >= 3 then Some(keyMode) else None,
          if o.version >= 3 then Some(prekeyId) else None, [])
  }

  /** The key of the ciphertext, agreed between ephemeral and recipient. */
  function SealKey(p: Primitives, o: Order, d: Draw, keyMode: string, recipientPublic: Bytes, prekeyId: string): Bytes {
    Key(p, p.exchange(d.ephemeralPrivate, recipientPublic), o.version, d.packetId, recipientPublic,
        p.publicOf(d.ephemeralPrivate), keyMode, prekeyId)
  }

  function Plaintext(o: Order, d: Draw, encoded: Bytes): Bytes
    requires |encoded| < PREFIX_LIMIT
  {
    BucketIsLeast(o.paddingMin, 4 + |encoded|);
    Frame(encoded, d.padding(Bucket(o.paddingMin, 4 + |encoded|) - (4 + |encoded|)))
  }

  function Encrypted(p: Primitives, o: Order, d: Draw, header: Outer, key: Bytes, encoded: Bytes): Outer
    requires |encoded| < PREFIX_LIMIT
  {
    header.(ct := p.encrypt(key, d.nonce, Plaintext(o, d, encoded), AadFields(header)))
  }

  function Seal(p: Primitives, sender: Identity, recipient: Recipient, o: Order, d: Draw, createdMs: int,
                checkedMs: int): Result<Bytes>
  {
    if !KindMatches(NormalKind(o)) || NormalQos(o) !in QOS_CLASSES || !(1 <= o.version <= 3) then Err(ValueError)
    else
      var (keyMode, recipientPublic, prekeyId) :- RecipientKey(p, recipient, o);
      var encoded := p.packInner(SealInner(p, sender, o, createdMs));
      BucketIsLeast(o.paddingMin, 4 + |encoded|);
      if Bucket(o.paddingMin, 4 + |encoded|) > MAX_PLAINTEXT_BYTES then Err(ValueError)
      else
        var header := Header(p, recipient, o, d, keyMode, prekeyId, createdMs);
        var raw := p.packOuter(Encrypted(p, o, d, header, SealKey(p, o, d, keyMode, recipientPublic, prekeyId), encoded));
        var _ :- Inspect(p, raw, checkedMs);
        Ok(raw)
  }

  // ----- Opening -----

  /** The private key that opens the packet, and its public half. */
  function OpeningKey(p: Primitives, identity: Identity, info: PacketInfo, prekeyPrivate: Option<Bytes>): Result<Bytes> {
    if info.keyMode == "opk" then
      if prekeyPrivate.None? || |prekeyPrivate.value| != 32
         || p.prekeyId(p.publicOf(prekeyPrivate.value)) != info.prekeyId
      then Err(ValueError)
      else Ok(prekeyPrivate.value)
    else
      if prekeyPrivate.Some? then Err(ValueError) else Ok(identity.boxPrivate)
  }

  function ReadInner(p: Primitives, info: PacketInfo, inner: Inner): Result<OpenedMessage> {
    if inner.v != 1 || |inner.spk| != 32 || |inner.bpk| != 32 || p.nodeId(inner.spk, inner.bpk) != inner.sid
    then Err(ValueError)
    else if !p.verify(inner.spk, InnerFields(inner), inner.sig) then Err(InvalidSignature)
    else if !KindMatches(inner.kind) then Err(ValueError)
    else Ok(OpenedMessage(info.packetId, inner.sid, inner.spk, inner.bpk, inner.kind, inner.ts, inner.body,
                          inner.causal, inner.codec, inner.reply, info.qos, info.keyMode, info.prekeyId))
  }

  function Open(p: Primitives, identity: Identity, raw: Bytes, prekeyPrivate: Option<Bytes>, now: int): Result<OpenedMessage> {
    var info :- Inspect(p, raw, now);
    if info.destinationId != identity.nodeId then Err(ValueError)
    else
      var private :- OpeningKey(p, identity, info, prekeyPrivate);
      var outer := p.unpackOuter(raw).value;
      var key := Key(p, p.exchange(private, outer.epk), outer.v, info.packetId, p.publicOf(private), outer.epk,
                     info.keyMode, info.prekeyId);
      match p.decrypt(key, outer.nonce, outer.ct, AadFields(outer))
      case None => Err(ValueError)
      case Some(plaintext) =>
        match Unframe(plaintext)
        case None => Err(ValueError)
        case Some(encoded) =>
          match p.unpackInner(encoded)
          case None => Err(ValueError)
          case Some(inner) => ReadInner(p, info, inner)
  }

  // ----- The round trip -----

  /** The identity (and prekey, if one was used) to which the order was sealed. */
  ghost predicate Holds(p: Primitives, identity: Identity, recipient: Recipient, o: Order, prekeyPrivate: Option<Bytes>) {
    && identity.nodeId == recipient.nodeId
    && (if o.prekeyPublic.None? then
          prekeyPrivate.None? && p.publicOf(identity.boxPrivate) == recipient.boxPublic
        else
          && prekeyPrivate.Some? && |prekeyPrivate.value| == 32
          && p.publicOf(prekeyPrivate.value) == o.prekeyPublic.value)
  }

  /** What the recipient reads. */
  function Delivered(p: Primitives, sender: Identity, o: Order, d: Draw, createdMs: int): OpenedMessage {
    OpenedMessage(d.packetId, sender.nodeId, p.signPublicOf(sender.signPrivate), p.publicOf(sender.boxPrivate),
                  NormalKind(o), createdMs, o.body, o.causal, NormalCodec(o), o.replyTo,
                  if o.version == 1 then "normal" else NormalQos(o),
                  if o.prekeyPublic.Some? then "opk" else "static",
                  if o.prekeyPublic.Some? then Lower(Strip(o.prekeyId)) else "")
  }

  lemma PackedInspection(p: Primitives, outer: Outer, now: int)
    requires p.Lawful() && Inspect(p, p.packOuter(outer), now).Ok?
    ensures p.unpackOuter(p.packOuter(outer)) == Some(outer) && |p.packOuter(outer)| <= MAX_WIRE_BYTES && HeaderOk(outer)
  {
    hide HeaderOk;
  }

  /** The parts from which a sealed packet was built. */
  lemma SealedParts(p: Primitives, sender: Identity, recipient: Recipient, o: Order, d: Draw, createdMs: int, checkedMs: int)
    returns (keyMode: string, recipientPublic: Bytes, prekeyId: string, encoded: Bytes)
    requires Seal(p, sender, recipient, o, d, createdMs, checkedMs).Ok?
    ensures RecipientKey(p, recipient, o) == Ok((keyMode, recipientPublic, prekeyId))
    ensures encoded == p.packInner(SealInner(p, sender, o, createdMs)) && |encoded| + 4 <= MAX_PLAINTEXT_BYTES
    ensures var outer := Encrypted(p, o, d, Header(p, recipient, o, d, keyMode, prekeyId, createdMs),
                                   SealKey(p, o, d, keyMode, recipientPublic, prekeyId), encoded);
      && Seal(p, sender, recipient, o, d, createdMs, checkedMs) == Ok(p.packOuter(outer))
      && Inspect(p, p.packOuter(outer), checkedMs).Ok?
  {
    hide KindMatches, RecipientKey, SealInner, NormalKind, NormalQos, Header, SealKey, Encrypted, Inspect;
    var rk := RecipientKey(p, recipient, o).value;
    keyMode, recipientPublic, prekeyId := rk.0, rk.1, rk.2;
    encoded := p.packInner(SealInner(p, sender, o, createdMs));
    BucketIsLeast(o.paddingMin, 4 + |encoded|);
  }

  /** The outer packet that they make, as a reader unpacks it. */
  lemma SealedOuter(p: Primitives, sender: Identity, recipient: Recipient, o: Order, d: Draw, createdMs: int, checkedMs: int)
    returns (keyMode: string, recipientPublic: Bytes, prekeyId: string, encoded: Bytes, outer: Outer)
    requires p.Lawful() && d.Valid()
    requires Seal(p, sender, recipient, o, d, createdMs, checkedMs).Ok?
    ensures RecipientKey(p, recipient, o) == Ok((keyMode, recipientPublic, prekeyId))
    ensures encoded == p.packInner(SealInner(p, sender, o, createdMs)) && |encoded| + 4 <= MAX_PLAINTEXT_BYTES
    ensures outer == Encrypted(p, o, d, Header(p, recipient, o, d, keyMode, prekeyId, createdMs),
                               SealKey(p, o, d, keyMode, recipientPublic, prekeyId), encoded)
    ensures var raw := Seal(p, sender, recipient, o, d, createdMs, checkedMs).value;
      p.unpackOuter(raw) == Some(outer) && |raw| <= MAX_WIRE_BYTES && HeaderOk(outer)
  {
    hide Seal, Encrypted, Header, SealKey, SealInner, Inspect, HeaderOk, RecipientKey;
    keyMode, recipientPublic, prekeyId, encoded := SealedParts(p, sender, recipient, o, d, createdMs, checkedMs);
    outer := Encrypted(p, o, d, Header(p, recipient, o, d, keyMode, prekeyId, createdMs),
                       SealKey(p, o, d, keyMode, recipientPublic, prekeyId), encoded);
    PackedInspection(p, outer, checkedMs);
  }

  /** Opening a sealed packet returns exactly what was sealed -- for every
      version and key mode, every padding and every clock reading at which the
      packet is still acceptable; at any other reading it is refused. */
  lemma OpenSealed(p: Primitives, sender: Identity, recipient: Recipient, o: Order, d: Draw, createdMs: int, checkedMs: int,
                   identity: Identity, prekeyPrivate: Option<Bytes>, now: int)
    requires p.Lawful() && d.Valid()
    requires sender.nodeId == p.nodeId(p.signPublicOf(sender.signPrivate), p.publicOf(sender.boxPrivate))
    requires Seal(p, sender, recipient, o, d, createdMs, checkedMs).Ok?
    requires Holds(p, identity, recipient, o, prekeyPrivate)
    ensures Open(p, identity, Seal(p, sender, recipient, o, d, createdMs, checkedMs).value, prekeyPrivate, now)
            == if ClockAccepts(createdMs, createdMs + Ttl(o) * 1000, now)
               then Ok(Delivered(p, sender, o, d, createdMs))
               else Err(ValueError)
  {
    var raw := Seal(p, sender, recipient, o, d, createdMs, checkedMs).value;
    var keyMode, recipientPublic, prekeyId, encoded, outer :=
      SealedOuter(p, sender, recipient, o, d, createdMs, checkedMs);
    if ClockAccepts(createdMs, createdMs + Ttl(o) * 1000, now) {
      var info := InfoOf(outer, raw);
      hide Seal, HeaderOk, SealInner, AadFields, Plaintext;
      assert Inspect(p, raw, now) == Ok(info);
      var private := if o.prekeyPublic.None? then identity.boxPrivate else prekeyPrivate.value;
      assert OpeningKey(p, identity, info, prekeyPrivate) == Ok(private) && p.publicOf(private) == recipientPublic;
      OpeningKeyAgrees(p, o, d, keyMode, recipientPublic, prekeyId, private);
      CiphertextOpens(p, recipient, o, d, keyMode, prekeyId, createdMs, SealKey(p, o, d, keyMode, recipientPublic, prekeyId), encoded);
      InnerReads(p, sender, o, createdMs, info);
    }
  }

  lemma OpeningKeyAgrees(p: Primitives, o: Order, d: Draw, keyMode: string, recipientPublic: Bytes, prekeyId: string, private: Bytes)
    requires p.Lawful() && p.publicOf(private) == recipientPublic
    ensures Key(p, p.exchange(private, p.publicOf(d.ephemeralPrivate)), o.version, d.packetId, recipientPublic,
                p.publicOf(d.ephemeralPrivate), keyMode, prekeyId)
            == SealKey(p, o, d, keyMode, recipientPublic, prekeyId)
  {
    assert p.exchange(private, p.publicOf(d.ephemeralPrivate)) == p.exchange(d.ephemeralPrivate, p.publicOf(private));
  }

  lemma CiphertextOpens(p: Primitives, recipient: Recipient, o: Order, d: Draw, keyMode: string, prekeyId: string, createdMs: int,
                        key: Bytes, encoded: Bytes)
    requires p.Lawful() && 0 < |encoded| < PREFIX_LIMIT
    ensures var outer := Encrypted(p, o, d, Header(p, recipient, o, d, keyMode, prekeyId, createdMs), key, encoded);
      && p.decrypt(key, outer.nonce, outer.ct, AadFields(outer)) == Some(Plaintext(o, d, encoded))
      && Unframe(Plaintext(o, d, encoded)) == Some(encoded)
  {
    var header := Header(p, recipient, o, d, keyMode, prekeyId, createdMs);
    var outer := Encrypted(p, o, d, header, key, encoded);
    assert AadFields(outer) == AadFields(header);
    BucketIsLeast(o.paddingMin, 4 + |encoded|);
    UnframeFrame(encoded, d.padding(Bucket(o.paddingMin, 4 + |encoded|) - (4 + |encoded|)));
  }

  lemma InnerReads(p: Primitives, sender: Identity, o: Order, createdMs: int, info: PacketInfo)
    requires p.Lawful() && sender.nodeId == p.nodeId(p.signPublicOf(sender.signPrivate), p.publicOf(sender.boxPrivate))
    requires KindMatches(NormalKind(o))
    ensures var inner := SealInner(p, sender, o, createdMs);
      && p.unpackInner(p.packInner(inner)) == Some(inner) && |p.packInner(inner)| > 0
      && ReadInner(p, info, inner)
         == Ok(OpenedMessage(info.packetId, sender.nodeId, p.signPublicOf(sender.signPrivate), p.publicOf(sender.boxPrivate),
                             NormalKind(o), createdMs, o.body, o.causal, NormalCodec(o), o.replyTo,
                             info.qos, info.keyMode, info.prekeyId))
  {
    var inner := SealInner(p, sender, o, createdMs);
    assert InnerFields(inner) == InnerFields(inner.(sig := []));
  }

  /** The ciphertext reveals only the bucket: its length is the least power of two
      that holds the message and meets the minimum, plus the authentication tag. */
  lemma SealedSize(p: Primitives, sender: Identity, recipient: Recipient, o: Order, d: Draw, createdMs: int, checkedMs: int)
    requires p.Lawful() && d.Valid()
    requires Seal(p, sender, recipient, o, d, createdMs, checkedMs).Ok?
    ensures var outer := p.unpackOuter(Seal(p, sender, recipient, o, d, createdMs, checkedMs).value);
      && outer.Some? && |outer.value.ct| >= 16
      && IsLeastPower(|outer.value.ct| - 16,
                      Max(Max(256, o.paddingMin), 4 + |p.packInner(SealInner(p, sender, o, createdMs))|))
  {
    var keyMode, recipientPublic, prekeyId, encoded, outer :=
      SealedOuter(p, sender, recipient, o, d, createdMs, checkedMs);
    BucketIsLeast(o.paddingMin, 4 + |encoded|);
    hide Seal, HeaderOk, SealInner, AadFields, RecipientKey;
  }

  /** Two sealings that differ only in their padding read the same. */
  lemma PaddingIsIrrelevant(p: Primitives, sender: Identity, recipient: Recipient, o: Order, d1: Draw, d2: Draw,
                            createdMs: int, checkedMs: int, identity: Identity, prekeyPrivate: Option<Bytes>, now: int)
    requires p.Lawful() && d1.Valid() && d2.Valid()
    requires d1.packetId == d2.packetId && d1.nonce == d2.nonce && d1.ephemeralPrivate == d2.ephemeralPrivate
    requires sender.nodeId == p.nodeId(p.signPublicOf(sender.signPrivate), p.publicOf(sender.boxPrivate))
    requires Holds(p, identity, recipient, o, prekeyPrivate)
    requires Seal(p, sender, recipient, o, d1, createdMs, checkedMs).Ok?
    requires Seal(p, sender, recipient, o, d2, createdMs, checkedMs).Ok?
    ensures Open(p, identity, Seal(p, sender, recipient, o, d1, createdMs, checkedMs).value, prekeyPrivate, now)
            == Open(p, identity, Seal(p, sender, recipient, o, d2, createdMs, checkedMs).value, prekeyPrivate, now)
  {
    OpenSealed(p, sender, recipient, o, d1, createdMs, checkedMs, identity, prekeyPrivate, now);
    OpenSealed(p, sender, recipient, o, d2, createdMs, checkedMs, identity, prekeyPrivate, now);
  }
}
