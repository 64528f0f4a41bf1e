/** Which packets open, whoever made them, and which orders can be sealed: both
    told exactly, over the primitives. */
module PacketReading {
  import opened Basics
  import opened Crypto
  import opened Padding
  import opened Packet

  // ----- Opening any bytes -----

  /** The bytes unpack to this header, every limit on it holds, and the clock admits it. */
  ghost predicate HasHeader(p: Primitives, raw: Bytes, now: int, x: Outer) {
    && |raw| <= 16 * 1024 * 1024 && p.unpackOuter(raw) == Some(x)
    && x.v in {1, 2, 3} && |x.id| == 32 && FromHexAccepts(x.id) && "an1" <= x.dst && |x.dst| >= 20
    && 0 < x.ts <= now + 15 * 60_000 && now < x.exp && x.ts < x.exp <= x.ts + 30 * 86_400_000 && 1 <= x.hops <= 32
    && |x.epk| == 32 && |x.nonce| == 12 && 32 <= |x.ct| <= 8 * 1024 * 1024 + 16
    && (x.v == 1 || x.qos in {"control", "interactive", "normal", "bulk"})
    && (x.v == 3 ==> (x.km == Some("opk") && x.kid.Some? && IsHexId(x.kid.value))
                     || (x.km == Some("static") && (x.kid.None? || x.kid.value == "")))
  }

  /** The private key is the one that the header asks for. */
  ghost predicate IsAskedFor(p: Primitives, identity: Identity, prekeyPrivate: Option<Bytes>, x: Outer, private: Bytes) {
    if x.v == 3 && x.km == Some("opk") then
      prekeyPrivate == Some(private) && |private| == 32 && Some(p.prekeyId(p.publicOf(private))) == x.kid
    else prekeyPrivate.None? && private == identity.boxPrivate
  }

  /** Under the key agreed with it the ciphertext and the header authenticate, as
      this inner message behind its length. */
  ghost predicate Authenticates(p: Primitives, x: Outer, private: Bytes, plaintext: Bytes, inner: Inner) {
    var shared, public := p.exchange(private, x.epk), p.publicOf(private);
    var info := if x.v <= 2 then [Text("ainet/sealed-packet/v1"), Bin(public + x.epk)]
                else [Text("ainet/sealed-packet/v3"), Bin(public), Bin(x.epk), Text(Named(x.km)), Text(Named(x.kid))];
    && p.decrypt(p.derive(shared, x.id, info), x.nonce, x.ct, AadFields(x)) == Some(plaintext)
    && |plaintext| >= 4
    && var n := FromBigEndian(plaintext[..4]);
       0 < n <= |plaintext| - 4 && p.unpackInner(plaintext[4..4 + n]) == Some(inner)
  }

  /** The inner message names keys that its sender id is derived from. */
  ghost predicate NamesItsKeys(p: Primitives, inner: Inner) {
    inner.v == 1 && |inner.spk| == 32 && |inner.bpk| == 32 && p.nodeId(inner.spk, inner.bpk) == inner.sid
  }

  /** The packet, addressed to this identity, carries this inner message. */
  ghost predicate Carries(p: Primitives, identity: Identity, raw: Bytes, prekeyPrivate: Option<Bytes>, now: int,
                          x: Outer, private: Bytes, plaintext: Bytes, inner: Inner)
  {
    && HasHeader(p, raw, now, x) && x.dst == identity.nodeId
    && IsAskedFor(p, identity, prekeyPrivate, x, private)
    && Authenticates(p, x, private, plaintext, inner)
    && NamesItsKeys(p, inner)
  }

  ghost predicate CarriesSome(p: Primitives, identity: Identity, raw: Bytes, prekeyPrivate: Option<Bytes>, now: int, x: Outer, inner: Inner) {
    exists private, plaintext :: Carries(p, identity, raw, prekeyPrivate, now, x, private, plaintext, inner)
  }

  /** What is delivered of an inner message and its header. */
  function MessageOf(x: Outer, inner: Inner): OpenedMessage {
    OpenedMessage(x.id, inner.sid, inner.spk, inner.bpk, inner.kind, inner.ts, inner.body, inner.causal, inner.codec, inner.reply,
                  if x.v == 1 then "normal" else x.qos, if x.v == 3 then Named(x.km) else "static",
                  if x.v == 3 then Named(x.kid) else "")
  }

  /** Inspection accepts exactly these bytes, and reports what the header says. */
  lemma HeaderIff(p: Primitives, raw: Bytes, now: int, x: Outer)
    ensures (Inspect(p, raw, now).Ok? && p.unpackOuter(raw) == Some(x)) <==> HasHeader(p, raw, now, x)
    ensures HasHeader(p, raw, now, x) ==>
              Inspect(p, raw, now)
              == Ok(PacketInfo(x.id, x.dst, x.ts, x.exp, x.hops, if x.v == 1 then "normal" else x.qos, raw,
                               if x.v == 3 then Named(x.km) else "static", if x.v == 3 then Named(x.kid) else "", x.v))
  {
    hide FromHexAccepts;
    assert |"opk"| == 3 && |"static"| == 6;
    assert !IsHexId("");
  }

  /** A packet opens exactly when it carries a message that its sender signed, of
      a valid kind, and then as that message; it is refused for its signature
      exactly when it carries one that the named sender did not sign. */
  lemma OpenIff(p: Primitives, identity: Identity, raw: Bytes, prekeyPrivate: Option<Bytes>, now: int)
    ensures forall m :: Open(p, identity, raw, prekeyPrivate, now) == Ok(m) <==>
              exists x, inner :: CarriesSome(p, identity, raw, prekeyPrivate, now, x, inner) && m == MessageOf(x, inner)
                                 && p.verify(inner.spk, InnerFields(inner), inner.sig) && KindMatches(inner.kind)
    ensures Open(p, identity, raw, prekeyPrivate, now) == Err(InvalidSignature) <==>
              exists x, inner :: CarriesSome(p, identity, raw, prekeyPrivate, now, x, inner)
                                 && !p.verify(inner.spk, InnerFields(inner), inner.sig)
  {
    var r := Open(p, identity, raw, prekeyPrivate, now);
    hide Open, InnerFields;
    if x, private, plaintext, inner :| Carries(p, identity, raw, prekeyPrivate, now, x, private, plaintext, inner) {
      CarriedIsRead(p, identity, raw, prekeyPrivate, now, x, private, plaintext, inner);
      hide Carries, KindMatches;
      forall y, other | CarriesSome(p, identity, raw, prekeyPrivate, now, y, other) ensures y == x && other == inner {
        var k, t :| Carries(p, identity, raw, prekeyPrivate, now, y, k, t, other);
        CarriedIsOne(p, identity, raw, prekeyPrivate, now, x, private, plaintext, inner, y, k, t, other);
      }
      assert CarriesSome(p, identity, raw, prekeyPrivate, now, x, inner);
    } else {
      NothingIsRead(p, identity, raw, prekeyPrivate, now);
      hide Carries, KindMatches;
    }
  }

  lemma CarriedIsOne(p: Primitives, identity: Identity, raw: Bytes, prekeyPrivate: Option<Bytes>, now: int,
                     x: Outer, private: Bytes, plaintext: Bytes, inner: Inner, y: Outer, k: Bytes, t: Bytes, other: Inner)
    requires Carries(p, identity, raw, prekeyPrivate, now, x, private, plaintext, inner)
    requires Carries(p, identity, raw, prekeyPrivate, now, y, k, t, other)
    ensures x == y && inner == other
  {
    hide AadFields, FromBigEndian, FromHexAccepts, IsHexId, NamesItsKeys;
  }

  lemma CarriedIsRead(p: Primitives, identity: Identity, raw: Bytes, prekeyPrivate: Option<Bytes>, now: int,
                      x: Outer, private: Bytes, plaintext: Bytes, inner: Inner)
    requires Carries(p, identity, raw, prekeyPrivate, now, x, private, plaintext, inner)
    ensures Open(p, identity, raw, prekeyPrivate, now)
            == if !p.verify(inner.spk, InnerFields(inner), inner.sig) then Err(InvalidSignature)
               else if KindMatches(inner.kind) then Ok(MessageOf(x, inner)) else Err(ValueError)
  {
    HeaderIff(p, raw, now, x);
    hide HeaderOk, AadFields, FromBigEndian, FromHexAccepts, IsHexId, KindMatches, InnerFields;
    assert |"opk"| == 3 && |"static"| == 6;
  }

  lemma NothingIsRead(p: Primitives, identity: Identity, raw: Bytes, prekeyPrivate: Option<Bytes>, now: int)
    requires forall x, k, t, inner :: !Carries(p, identity, raw, prekeyPrivate, now, x, k, t, inner)
    ensures Open(p, identity, raw, prekeyPrivate, now) == Err(ValueError)
  {
    if Open(p, identity, raw, prekeyPrivate, now) != Err(ValueError) {
      var x, k, t, inner := ReadIsCarried(p, identity, raw, prekeyPrivate, now);
    }
  }

  lemma ReadIsCarried(p: Primitives, identity: Identity, raw: Bytes, prekeyPrivate: Option<Bytes>, now: int)
    returns (x: Outer, private: Bytes, plaintext: Bytes, inner: Inner)
    requires Open(p, identity, raw, prekeyPrivate, now) != Err(ValueError)
    ensures Carries(p, identity, raw, prekeyPrivate, now, x, private, plaintext, inner)
  {
    x := p.unpackOuter(raw).value;
    HeaderIff(p, raw, now, x);
    var info := Inspect(p, raw, now).value;
    private := OpeningKey(p, identity, info, prekeyPrivate).value;
    var key := Key(p, p.exchange(private, x.epk), x.v, info.packetId, p.publicOf(private), x.epk, info.keyMode, info.prekeyId);
    plaintext := p.decrypt(key, x.nonce, x.ct, AadFields(x)).value;
    inner := p.unpackInner(Unframe(plaintext).value).value;
    hide HeaderOk, AadFields, FromBigEndian, FromHexAccepts, IsHexId, KindMatches, InnerFields;
    assert |"opk"| == 3 && |"static"| == 6;
  }

  // ----- Which orders can be sealed -----

  /** The key the order asks for: the recipient's own, or a prekey named by its id. */
  ghost predicate AsksForKey(p: Primitives, o: Order) {
    match o.prekeyPublic
    case None => o.prekeyId == ""
    case Some(public) => o.version == 3 && |public| == 32 && Lower(Strip(o.prekeyId)) == p.prekeyId(public)
  }

  /** The inner message that an order sends, before it is signed. */
  function Unsigned(p: Primitives, sender: Identity, o: Order, createdMs: int): Inner {
    Inner(1, sender.nodeId, p.signPublicOf(sender.signPrivate), p.publicOf(sender.boxPrivate), Lower(Strip(o.kind)), createdMs,
          o.body, o.causal, if o.codec == "" then "msgpack" else o.codec, o.replyTo, [])
  }

  function Signed(p: Primitives, sender: Identity, o: Order, createdMs: int): Inner {
    var x := Unsigned(p, sender, o, createdMs);
    x.(sig := p.sign(sender.signPrivate, InnerFields(x)))
  }

  /** A destination that looks like a node id, and a clock that admits the packet. */
  ghost predicate HeaderCanBe(recipient: Recipient, o: Order, createdMs: int, checkedMs: int) {
    && "an1" <= recipient.nodeId && |recipient.nodeId| >= 20
    && 0 < createdMs <= checkedMs + 15 * 60_000 && checkedMs < createdMs + Max(30, Min(o.ttlSeconds, 30 * 86400)) * 1000
  }

  /** What the caller must get right, apart from the size of the packed result. */
  ghost predicate CanSeal(p: Primitives, sender: Identity, recipient: Recipient, o: Order, createdMs: int, checkedMs: int) {
    && KindMatches(Lower(Strip(o.kind))) && Lower(Strip(o.qos)) in {"control", "interactive", "normal", "bulk"}
    && 1 <= o.version <= 3 && AsksForKey(p, o)
    && HeaderCanBe(recipient, o, createdMs, checkedMs)
    && o.paddingMin <= 8 * 1024 * 1024 && |p.packInner(Signed(p, sender, o, createdMs))| <= 8 * 1024 * 1024 - 4
  }

  lemma {:induction false} PowersAreFew(k: nat)
    ensures k >= 23 ==> Pow2(k) >= 8 * 1024 * 1024
    ensures Pow2(23) == 8 * 1024 * 1024
  {
    assert Pow2(10) == 1024 && Pow2(20) == 1024 * Pow2(10) && Pow2(23) == 8 * Pow2(20);
    if k >= 23 {
      Pow2Monotone(23, k);
    }
  }

  /** The bucket stays within the largest one exactly when what it must hold does. */
  lemma BucketFitsIff(paddingMin: int, needed: nat)
    ensures Bucket(paddingMin, needed) <= 8 * 1024 * 1024 <==> Max(paddingMin, needed) <= 8 * 1024 * 1024
    ensures Bucket(paddingMin, needed) >= 256
  {
    BucketIsLeast(paddingMin, needed);
    PowersAreFew(23);
    assert Pow2(23) >= Max(Max(256, paddingMin), needed) ==> Bucket(paddingMin, needed) <= Pow2(23);
  }

  /** The packet that would be sent. */
  function Packed(p: Primitives, sender: Identity, recipient: Recipient, o: Order, d: Draw, createdMs: int): Bytes
    requires RecipientKey(p, recipient, o).Ok? && |p.packInner(SealInner(p, sender, o, createdMs))| < PREFIX_LIMIT
  {
    var (keyMode, public, prekeyId) := RecipientKey(p, recipient, o).value;
    p.packOuter(Encrypted(p, o, d, Header(p, recipient, o, d, keyMode, prekeyId, createdMs),
                          SealKey(p, o, d, keyMode, public, prekeyId), p.packInner(SealInner(p, sender, o, createdMs))))
  }

  lemma CanSealHasKey(p: Primitives, sender: Identity, recipient: Recipient, o: Order, createdMs: int, checkedMs: int)
    requires p.Lawful() && CanSeal(p, sender, recipient, o, createdMs, checkedMs)
    ensures RecipientKey(p, recipient, o).Ok? && |p.packInner(SealInner(p, sender, o, createdMs))| + 4 <= MAX_PLAINTEXT_BYTES
  {
    KeyIsAskedIff(p, recipient, o);
    assert SealInner(p, sender, o, createdMs) == Signed(p, sender, o, createdMs);
    hide KindMatches, SealInner, Signed, RecipientKey, AsksForKey;
  }

  /** Sealing succeeds exactly for these orders, if the packed packet keeps within
      the wire limit. */
  lemma SealSucceedsIff(p: Primitives, sender: Identity, recipient: Recipient, o: Order, d: Draw, createdMs: int, checkedMs: int)
    requires p.Lawful() && d.Valid()
    ensures CanSeal(p, sender, recipient, o, createdMs, checkedMs) ==>
              && RecipientKey(p, recipient, o).Ok?
              && |p.packInner(SealInner(p, sender, o, createdMs))| < PREFIX_LIMIT
    ensures Seal(p, sender, recipient, o, d, createdMs, checkedMs).Ok?
            <==> CanSeal(p, sender, recipient, o, createdMs, checkedMs)
                 && |Packed(p, sender, recipient, o, d, createdMs)| <= 16 * 1024 * 1024
  {
    hide Seal, SealInner, Signed, KindMatches, Lower, Strip, Inspect, Bucket, RecipientKey, Packed, AsksForKey, HeaderCanBe;
    SignedIsSealed(p, sender, o, createdMs);
    SealUnfolds(p, sender, recipient, o, d, createdMs, checkedMs);
    if CanSeal(p, sender, recipient, o, createdMs, checkedMs) {
      CanSealHasKey(p, sender, recipient, o, createdMs, checkedMs);
      PackedIff(p, sender, recipient, o, d, createdMs, checkedMs);
    } else if Seal(p, sender, recipient, o, d, createdMs, checkedMs).Ok? {
      PackedIff(p, sender, recipient, o, d, createdMs, checkedMs);
    }
  }

  lemma SignedIsSealed(p: Primitives, sender: Identity, o: Order, createdMs: int)
    ensures SealInner(p, sender, o, createdMs) == Signed(p, sender, o, createdMs)
  {
  }

  lemma PackedIff(p: Primitives, sender: Identity, recipient: Recipient, o: Order, d: Draw, createdMs: int, checkedMs: int)
    requires p.Lawful() && d.Valid() && 1 <= o.version <= 3 && NormalQos(o) in QOS_CLASSES && RecipientKey(p, recipient, o).Ok?
    requires |p.packInner(SealInner(p, sender, o, createdMs))| < PREFIX_LIMIT
    ensures var needed := 4 + |p.packInner(SealInner(p, sender, o, createdMs))|;
      && AsksForKey(p, o)
      && (Bucket(o.paddingMin, needed) <= MAX_PLAINTEXT_BYTES <==> Max(o.paddingMin, needed) <= MAX_PLAINTEXT_BYTES)
      && (Bucket(o.paddingMin, needed) <= MAX_PLAINTEXT_BYTES ==>
            (Inspect(p, Packed(p, sender, recipient, o, d, createdMs), checkedMs).Ok? <==>
               && |Packed(p, sender, recipient, o, d, createdMs)| <= MAX_WIRE_BYTES
               && HeaderCanBe(recipient, o, createdMs, checkedMs)))
  {
    KeyIsAskedIff(p, recipient, o);
    var (keyMode, public, prekeyId) := RecipientKey(p, recipient, o).value;
    var encoded := p.packInner(SealInner(p, sender, o, createdMs));
    BucketFitsIff(o.paddingMin, 4 + |encoded|);
    hide *;
    if Bucket(o.paddingMin, 4 + |encoded|) <= MAX_PLAINTEXT_BYTES {
      SealedHeaderIff(p, recipient, o, d, keyMode, prekeyId, createdMs, checkedMs, SealKey(p, o, d, keyMode, public, prekeyId), encoded);
    }
  }

  lemma KeyIsAskedIff(p: Primitives, recipient: Recipient, o: Order)
    requires p.Lawful() && 1 <= o.version <= 3
    ensures var rk := RecipientKey(p, recipient, o);
      && (rk.Ok? <==> AsksForKey(p, o))
      && (rk.Ok? ==> if o.prekeyPublic.None? then rk.value.0 == "static" && rk.value.2 == ""
                     else rk.value.0 == "opk" && IsHexId(rk.value.2) && o.version == 3)
  {
  }

  lemma SealUnfolds(p: Primitives, sender: Identity, recipient: Recipient, o: Order, d: Draw, createdMs: int, checkedMs: int)
    ensures var rk, encoded := RecipientKey(p, recipient, o), p.packInner(SealInner(p, sender, o, createdMs));
      Seal(p, sender, recipient, o, d, createdMs, checkedMs).Ok? <==>
        && KindMatches(NormalKind(o)) && NormalQos(o) in QOS_CLASSES && 1 <= o.version <= 3 && rk.Ok?
        && Bucket(o.paddingMin, 4 + |encoded|) <= MAX_PLAINTEXT_BYTES && |encoded| < PREFIX_LIMIT
        && Inspect(p, Packed(p, sender, recipient, o, d, createdMs), checkedMs).Ok?
  {
    var encoded := p.packInner(SealInner(p, sender, o, createdMs));
    BucketIsLeast(o.paddingMin, 4 + |encoded|);
    hide KindMatches, RecipientKey, SealInner, Header, SealKey, Encrypted, Inspect, NormalKind, NormalQos;
  }

  lemma SealedHeaderIff(p: Primitives, recipient: Recipient, o: Order, d: Draw, keyMode: string, prekeyId: string, createdMs: int,
                        checkedMs: int, key: Bytes, encoded: Bytes)
    requires p.Lawful() && d.Valid() && 1 <= o.version <= 3 && NormalQos(o) in QOS_CLASSES
    requires Bucket(o.paddingMin, 4 + |encoded|) <= MAX_PLAINTEXT_BYTES && |encoded| < PREFIX_LIMIT
    requires (keyMode == "static" && prekeyId == "") || (keyMode == "opk" && IsHexId(prekeyId) && o.version == 3)
    ensures var raw := p.packOuter(Encrypted(p, o, d, Header(p, recipient, o, d, keyMode, prekeyId, createdMs), key, encoded));
      Inspect(p, raw, checkedMs).Ok? <==> |raw| <= MAX_WIRE_BYTES && HeaderCanBe(recipient, o, createdMs, checkedMs)
  {
    var x := Encrypted(p, o, d, Header(p, recipient, o, d, keyMode, prekeyId, createdMs), key, encoded);
    HeaderIff(p, p.packOuter(x), checkedMs, x);
    EncryptedSays(p, recipient, o, d, keyMode, prekeyId, createdMs, key, encoded);
    HexDigitsDecode(d.packetId);
    hide HeaderOk, Inspect, Bucket, FromHexAccepts, Encrypted, Header, NormalQos;
  }

  lemma EncryptedSays(p: Primitives, recipient: Recipient, o: Order, d: Draw, keyMode: string, prekeyId: string, createdMs: int,
                      key: Bytes, encoded: Bytes)
    requires p.Lawful() && d.Valid() && |encoded| < PREFIX_LIMIT
    ensures var x := Encrypted(p, o, d, Header(p, recipient, o, d, keyMode, prekeyId, createdMs), key, encoded);
      && p.unpackOuter(p.packOuter(x)) == Some(x)
      && x.v == o.version && x.id == d.packetId && x.dst == recipient.nodeId && x.nonce == d.nonce && |x.epk| == 32
      && x.ts == createdMs && x.exp == createdMs + Max(30, Min(o.ttlSeconds, 30 * 86400)) * 1000
      && x.hops == Max(1, Min(o.maxHops, 32)) && x.qos == Lower(Strip(o.qos))
      && (o.version == 3 ==> x.km == Some(keyMode) && x.kid == Some(prekeyId))
      && |x.ct| == Bucket(o.paddingMin, 4 + |encoded|) + 16 >= 256 + 16
  {
    BucketFitsIff(o.paddingMin, 4 + |encoded|);
    BucketIsLeast(o.paddingMin, 4 + |encoded|);
    hide Bucket, AadFields, Lower, Strip;
  }

  /** What the header of a sealed packet says: what was asked for, within the limits. */
  lemma SealedSays(p: Primitives, sender: Identity, recipient: Recipient, o: Order, d: Draw, createdMs: int, checkedMs: int)
    requires p.Lawful() && d.Valid() && Seal(p, sender, recipient, o, d, createdMs, checkedMs).Ok?
    ensures var x := p.unpackOuter(Seal(p, sender, recipient, o, d, createdMs, checkedMs).value);
      && x.Some? && x.value.v == o.version && x.value.id == d.packetId && x.value.dst == recipient.nodeId
      && x.value.ts == createdMs && x.value.exp == createdMs + Max(30, Min(o.ttlSeconds, 30 * 86400)) * 1000
      && x.value.hops == Max(1, Min(o.maxHops, 32)) && x.value.qos == Lower(Strip(o.qos))
      && (o.version == 3 ==> x.value.km == Some(if o.prekeyPublic.None? then "static" else "opk")
                             && x.value.kid == Some(Lower(Strip(o.prekeyId))))
  {
    hide Seal, SealInner, Encrypted, Header, SealKey, HeaderOk;
    var keyMode, recipientPublic, prekeyId, encoded, outer := SealedOuter(p, sender, recipient, o, d, createdMs, checkedMs);
    EncryptedSays(p, recipient, o, d, keyMode, prekeyId, createdMs, SealKey(p, o, d, keyMode, recipientPublic, prekeyId), encoded);
    assert Lower(Strip("")) == "";
  }
}
