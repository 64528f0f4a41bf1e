/** What every reachable state of the hub's tables satisfies. */
module CustodyInvariant {
  import opened Basics
  import opened Crypto
  import opened ControlObjects
  import opened Settlement
  import opened Ordered
  import opened Custody
  import Packet

  // ----- Rows -----

  /** A mailbox row says exactly what the header of its bytes says. */
  ghost predicate RowOk(env: Env, allow: map<string, AllowRow>, id: string, row: MailRow) {
    && row.size == |row.raw| && 0 < row.size <= env.limits.maxPacketBytes
    && (row.tokenHash.Some? <==> row.claimUntil.Some?)
    && row.destination in allow && row.uploader in allow
    && Describes(env, row.raw, id, row.destination, row.created, row.expires)
  }

  ghost predicate Describes(env: Env, raw: Bytes, id: string, destination: string, created: int, expires: int) {
    match env.wire.unpackOuter(raw)
    case None => false
    case Some(x) => Packet.HeaderOk(x) && x.id == id && x.dst == destination && x.ts == created && x.exp == expires
  }

  /** The proof was signed by a key that belongs to the destination's node id. */
  ghost predicate SignedByDestination(c: Suite, p: DestinationSettlement) {
    exists sign, box :: SignedWith(c, p, sign, box)
  }

  ghost predicate SignedWith(c: Suite, p: DestinationSettlement, sign: Bytes, box: Bytes) {
    && |sign| == 32 && |box| == 32
    && c.nodeId(sign, box) == p.destinationId
    && c.verify(sign, p.SigningFields(), p.signature)
  }

  /** The stored proof is readable, signed, and of exactly these facts. */
  ghost predicate Records(env: Env, proof: Dict, id: string, destination: string, uploader: string, rawSha256: Bytes,
                          settledMs: int, expires: int)
  {
    && FromDict(proof).Ok?
    && var p := FromDict(proof).value;
       && p.ShapeOk() && p.packetId == id && p.destinationId == destination && p.uploaderId == uploader
       && p.expiresMs == expires && p.settledMs == settledMs && p.packetSha256 == rawSha256
       && SignedByDestination(env.crypto, p)
  }

  ghost predicate SettledOk(env: Env, allow: map<string, AllowRow>, id: string, row: SettledRow) {
    && row.destination in allow && row.uploader in allow
    && Records(env, row.proof, id, row.destination, row.uploader, row.rawSha256, row.settledMs, row.expires)
  }

  ghost predicate CustodyOk(env: Env, s: Store) {
    && (forall k :: k in s.mailbox ==> RowOk(env, s.allow, k, s.mailbox[k]))
    && (forall k :: k in s.settlements ==> SettledOk(env, s.allow, k, s.settlements[k]))
    && s.mailbox.Keys !! s.settlements.Keys
  }

  // ----- Quotas -----

  ghost function StoredBytes(mailbox: map<string, MailRow>, ids: set<string>): int
    requires ids <= mailbox.Keys
  {
    SumOver(Sizes(mailbox), ids)
  }

  ghost predicate QuotaOk(limits: Limits, mailbox: map<string, MailRow>, nodeId: string) {
    var received, sent := ForDestination(mailbox, nodeId), FromUploader(mailbox, nodeId);
    && |received| <= limits.maxPacketsPerDestination && StoredBytes(mailbox, received) <= limits.maxBytesPerDestination
    && |sent| <= limits.maxPacketsPerUploader && StoredBytes(mailbox, sent) <= limits.maxBytesPerUploader
  }

  ghost predicate QuotasOk(limits: Limits, mailbox: map<string, MailRow>) {
    && (forall k :: k in mailbox ==> mailbox[k].size > 0)
    && (forall n :: QuotaOk(limits, mailbox, n))
  }

  // ----- Relay reservations -----

  ghost predicate RelayRowsOk(allow: map<string, AllowRow>, relays: map<string, Reservation>) {
    forall k :: k in relays ==>
      relays[k].Valid() && relays[k].reservationId == k && relays[k].owner in allow && relays[k].peer in allow
  }

  /** At most one reservation per owner and peer. */
  ghost predicate PairsUnique(relays: map<string, Reservation>) {
    forall j, k :: j in relays && k in relays && relays[j].owner == relays[k].owner && relays[j].peer == relays[k].peer ==> j == k
  }

  ghost predicate RelayCountsOk(limits: Limits, relays: map<string, Reservation>) {
    forall n :: |RelaysOf(relays, n)| <= limits.maxRelaysPerNode
  }

  ghost predicate RelaysOk(limits: Limits, allow: map<string, AllowRow>, relays: map<string, Reservation>) {
    RelayRowsOk(allow, relays) && PairsUnique(relays) && RelayCountsOk(limits, relays)
  }

  ghost predicate AllowOk(allow: map<string, AllowRow>) {
    forall n :: n in allow ==> IsNodeId(n)
  }

  /** The invariant. */
  ghost predicate Inv(env: Env, s: Store) {
    && AllowOk(s.allow)
    && CustodyOk(env, s)
    && QuotasOk(env.limits, s.mailbox)
    && RelaysOk(env.limits, s.allow, s.relays)
  }

  // ----- Set and sum bookkeeping -----

  lemma SubsetCard(a: set<string>, b: set<string>)
    requires a <= b
    ensures |a| <= |b|
  {
    assert b == a + (b - a);
  }

  /** `m'` keeps a part of the rows of `m`, possibly with other leases. */
  ghost predicate Thins(m': map<string, MailRow>, m: map<string, MailRow>) {
    forall k :: k in m' ==> k in m && m'[k].destination == m[k].destination && m'[k].uploader == m[k].uploader
                            && m'[k].size == m[k].size && m'[k].raw == m[k].raw
                            && m'[k].created == m[k].created && m'[k].expires == m[k].expires
  }

  lemma ThinnedBytes(m': map<string, MailRow>, m: map<string, MailRow>, ids': set<string>, ids: set<string>)
    requires Thins(m', m) && ids' <= m'.Keys && ids' <= ids <= m.Keys
    requires forall k :: k in m ==> m[k].size > 0
    ensures |ids'| <= |ids| && StoredBytes(m', ids') <= StoredBytes(m, ids)
  {
    SubsetCard(ids', ids);
    SumAgrees(Sizes(m'), Sizes(m), ids');
    SumOfSubset(Sizes(m), ids', ids);
  }

  lemma ThinningKeepsQuotas(limits: Limits, m': map<string, MailRow>, m: map<string, MailRow>)
    requires Thins(m', m) && QuotasOk(limits, m)
    ensures QuotasOk(limits, m')
  {
    forall n ensures QuotaOk(limits, m', n) {
      assert QuotaOk(limits, m, n);
      ThinnedBytes(m', m, ForDestination(m', n), ForDestination(m, n));
      ThinnedBytes(m', m, FromUploader(m', n), FromUploader(m, n));
    }
  }

  /** `part` with the new row joined in, or left alone. */
  lemma GrownBytes(m: map<string, MailRow>, id: string, row: MailRow, ids: set<string>, grown: set<string>)
    requires id !in m && ids <= m.Keys && grown <= ids + {id} && ids <= grown
    ensures StoredBytes(m[id := row], grown) == StoredBytes(m, ids) + if id in grown then row.size else 0
    ensures |grown| == |ids| + if id in grown then 1 else 0
  {
    var m' := m[id := row];
    SumAgrees(Sizes(m'), Sizes(m), ids);
    if id in grown {
      SumRemoves(Sizes(m'), grown, id);
      assert grown - {id} == ids && grown == ids + {id};
    } else {
      assert grown == ids;
    }
  }

  lemma CheckedBytes(m: map<string, MailRow>, ids: set<string>)
    requires ids <= m.Keys
    ensures ByteCount(m, ids) == StoredBytes(m, ids)
  {
    SumOfSorted(Created(m), Sizes(m), ids);
  }

  /** The quota check before an insert is exactly what keeps the quotas. */
  lemma InsertKeepsQuotas(limits: Limits, m: map<string, MailRow>, info: Packet.PacketInfo, uploader: string)
    requires QuotasOk(limits, m) && info.packetId !in m && info.raw != []
    requires WithinQuota(limits, m, info, uploader)
    ensures QuotasOk(limits, m[info.packetId := NewRow(info, uploader)])
  {
    var id, row := info.packetId, NewRow(info, uploader);
    var m' := m[id := row];
    CheckedBytes(m, ForDestination(m, info.destinationId));
    CheckedBytes(m, FromUploader(m, uploader));
    forall n ensures QuotaOk(limits, m', n) {
      assert QuotaOk(limits, m, n);
      GrownBytes(m, id, row, ForDestination(m, n), ForDestination(m', n));
      GrownBytes(m, id, row, FromUploader(m, n), FromUploader(m', n));
    }
  }

  // ----- Purging and consuming -----

  lemma PurgeKeepsRelays(limits: Limits, s: Store, now: int)
    requires RelaysOk(limits, s.allow, s.relays)
    ensures RelaysOk(limits, s.allow, Purge(s, now).relays)
  {
    var relays := Purge(s, now).relays;
    forall n ensures |RelaysOf(relays, n)| <= limits.maxRelaysPerNode {
      SubsetCard(RelaysOf(relays, n), RelaysOf(s.relays, n));
    }
  }

  lemma PurgeKeepsInv(env: Env, s: Store, now: int)
    requires Inv(env, s)
    ensures Inv(env, Purge(s, now))
  {
    hide QuotaOk, Describes, Records, Reservation.Valid;
    PurgeKeepsRelays(env.limits, s, now);
    var p := Purge(s, now);
    assert Thins(p.mailbox, s.mailbox);
    ThinningKeepsQuotas(env.limits, p.mailbox, s.mailbox);
    forall k | k in p.mailbox ensures RowOk(env, p.allow, k, p.mailbox[k]) {
      assert RowOk(env, s.allow, k, s.mailbox[k]);
    }
    forall k | k in p.settlements ensures SettledOk(env, p.allow, k, p.settlements[k]) {
      assert SettledOk(env, s.allow, k, s.settlements[k]);
    }
  }

  /** What a successful `Begin` leaves: the purged tables, one nonce more. */
  lemma BeginSpec(env: Env, s: Store, auth: Auth, body: Bytes, now: int)
    requires Begin(env, s, auth, body, now).Ok?
    ensures var r, b := auth.request, Begin(env, s, auth, body, now).value;
      && b == Purge(s, now).(nonces := b.nonces)
      && b.nonces == Purge(s, now).nonces[(r.nodeId, r.nonce) := r.issuedMs]
      && (r.nodeId, r.nonce) !in Purge(s, now).nonces
      && r.Verifies(env.crypto, auth.descriptor, body, now)
      && IsAllowed(s, r.nodeId)
  {
  }

  lemma BeginKeepsInv(env: Env, s: Store, auth: Auth, body: Bytes, now: int)
    requires Inv(env, s) && Begin(env, s, auth, body, now).Ok?
    ensures Inv(env, Begin(env, s, auth, body, now).value)
  {
    BeginSpec(env, s, auth, body, now);
    PurgeKeepsInv(env, s, now);
  }

  // ----- Each operation -----

  lemma InspectedDescribes(env: Env, raw: Bytes, wallMs: int)
    requires Packet.Inspect(env.wire, raw, wallMs).Ok?
    ensures var info := Packet.Inspect(env.wire, raw, wallMs).value;
      Describes(env, raw, info.packetId, info.destinationId, info.createdMs, info.expiresMs) && info.raw == raw
  {
  }

  lemma SubmitKeepsInv(env: Env, s: Store, uploader: string, raw: Bytes, wallMs: int)
    requires Inv(env, s) && uploader in s.allow
    requires Packet.Inspect(env.wire, raw, wallMs).Ok? && |raw| <= env.limits.maxPacketBytes
    requires DoSubmit(env, s, uploader, Packet.Inspect(env.wire, raw, wallMs).value).Ok?
    ensures Inv(env, DoSubmit(env, s, uploader, Packet.Inspect(env.wire, raw, wallMs).value).value.0)
  {
    hide QuotaOk, WithinQuota, SettledOk, RelaysOk;
    var info := Packet.Inspect(env.wire, raw, wallMs).value;
    var s' := DoSubmit(env, s, uploader, info).value.0;
    InspectedDescribes(env, raw, wallMs);
    hide Packet.Inspect, Describes;
    if s' != s {
      InsertKeepsQuotas(env.limits, s.mailbox, info, uploader);
      assert RowOk(env, s.allow, info.packetId, NewRow(info, uploader));
      assert CustodyOk(env, s');
    }
  }

  /** Leasing rows changes nothing but their leases. */
  lemma LeasingKeepsRows(env: Env, allow: map<string, AllowRow>, m: map<string, MailRow>, ids: seq<string>,
                         mint: string -> string, until: int)
    requires forall k :: k in m ==> RowOk(env, allow, k, m[k])
    ensures var leased := LeaseAll(env, m, ids, mint, until);
      && leased.Keys == m.Keys && Thins(leased, m)
      && (forall k :: k in leased ==> RowOk(env, allow, k, leased[k]))
  {
    hide Describes, TokenHash;
    var leased := LeaseAll(env, m, ids, mint, until);
    forall k | k in leased ensures RowOk(env, allow, k, leased[k]) {
      assert RowOk(env, allow, k, m[k]);
    }
  }

  lemma ClaimKeepsInv(env: Env, s: Store, nodeId: string, a: Action, now: int)
    requires Inv(env, s) && a.Claim? && a.limit >= 0
    ensures Inv(env, DoClaim(env, s, nodeId, a, now).value.0)
  {
    hide RowOk, SettledOk, QuotasOk, RelaysOk, LeaseAll, Thins, BatchIds, Tickets;
    var m := DoClaim(env, s, nodeId, a, now).value.0.mailbox;
    LeasingKeepsRows(env, s.allow, s.mailbox, BatchIds(s.mailbox, nodeId, a), a.mint, now + a.leaseMs);
    ThinningKeepsQuotas(env.limits, m, s.mailbox);
  }

  /** The row a settle inserts, and that the insert never meets a conflict. */
  lemma SettleSpec(env: Env, s: Store, auth: Auth, a: Action, body: Bytes, now: int)
    requires CustodyOk(env, s) && a.Settle?
    requires auth.request.Verifies(env.crypto, auth.descriptor, body, now)
    requires DoSettle(env, s, auth, a, now).Ok? && DoSettle(env, s, auth, a, now).value.1 == Flag(true)
    ensures a.packetId in s.mailbox && a.packetId !in s.settlements
    ensures var s' := DoSettle(env, s, auth, a, now).value.0;
      && s'.mailbox == s.mailbox - {a.packetId}
      && a.packetId in s'.settlements
      && s'.settlements == s.settlements[a.packetId := s'.settlements[a.packetId]]
      && SettledOk(env, s.allow, a.packetId, s'.settlements[a.packetId])
      && FromDict(s'.settlements[a.packetId].proof) == Ok(a.proof)
      && s' == s.(mailbox := s'.mailbox, settlements := s'.settlements)
  {
    assert RowOk(env, s.allow, a.packetId, s.mailbox[a.packetId]);
    DictRoundTrip(a.proof);
    assert SignedWith(env.crypto, a.proof, auth.descriptor.signPublic, auth.descriptor.boxPublic);
  }

  lemma SettleKeepsInv(env: Env, s: Store, auth: Auth, a: Action, body: Bytes, now: int)
    requires Inv(env, s) && a.Settle?
    requires auth.request.Verifies(env.crypto, auth.descriptor, body, now)
    requires DoSettle(env, s, auth, a, now).Ok?
    ensures Inv(env, DoSettle(env, s, auth, a, now).value.0)
  {
    var s' := DoSettle(env, s, auth, a, now).value.0;
    if DoSettle(env, s, auth, a, now).value.1 == Flag(true) {
      SettleSpec(env, s, auth, a, body, now);
      assert Thins(s'.mailbox, s.mailbox);
      ThinningKeepsQuotas(env.limits, s'.mailbox, s.mailbox);
      forall k | k in s'.mailbox ensures RowOk(env, s'.allow, k, s'.mailbox[k]) {
        assert RowOk(env, s.allow, k, s.mailbox[k]);
      }
      forall k | k in s'.settlements ensures SettledOk(env, s'.allow, k, s'.settlements[k]) {
        assert k != a.packetId ==> SettledOk(env, s.allow, k, s.settlements[k]);
      }
    }
  }

  lemma AcknowledgeKeepsSettled(env: Env, allow: map<string, AllowRow>, id: string, row: SettledRow, now: int)
    requires SettledOk(env, allow, id, row)
    ensures SettledOk(env, allow, id, row.(acknowledgedMs := now))
  {
  }

  lemma AcknowledgeKeepsInv(env: Env, s: Store, nodeId: string, packetId: string, now: int)
    requires Inv(env, s) && DoAcknowledge(s, nodeId, packetId, now).Ok?
    ensures Inv(env, DoAcknowledge(s, nodeId, packetId, now).value.0)
  {
    hide SettledOk, RowOk, QuotaOk, RelaysOk;
    var s' := DoAcknowledge(s, nodeId, packetId, now).value.0;
    if s' != s {
      assert s' == s.(settlements := s.settlements[packetId := s.settlements[packetId].(acknowledgedMs := now)]);
      AcknowledgeKeepsSettled(env, s.allow, packetId, s.settlements[packetId], now);
      assert CustodyOk(env, s');
    }
  }

  lemma RenewKeepsRelays(limits: Limits, allow: map<string, AllowRow>, relays: map<string, Reservation>, id: string, r: Reservation)
    requires RelaysOk(limits, allow, relays) && id in relays && r.Valid()
    requires r.reservationId == id && r.owner == relays[id].owner && r.peer == relays[id].peer
    ensures RelaysOk(limits, allow, relays[id := r])
  {
    var relays' := relays[id := r];
    forall n ensures |RelaysOf(relays', n)| <= limits.maxRelaysPerNode {
      assert RelaysOf(relays', n) == RelaysOf(relays, n);
    }
  }

  lemma ReserveKeepsPairs(relays: map<string, Reservation>, id: string, r: Reservation)
    requires PairsUnique(relays) && id !in relays && RelaysBetween(relays, r.owner, r.peer) == {}
    ensures PairsUnique(relays[id := r])
  {
    forall k | k in relays ensures relays[k].owner != r.owner || relays[k].peer != r.peer {
      assert k !in RelaysBetween(relays, r.owner, r.peer);
    }
  }

  lemma ReserveKeepsCounts(limits: Limits, relays: map<string, Reservation>, id: string, r: Reservation)
    requires RelayCountsOk(limits, relays) && id !in relays && |RelaysOf(relays, r.owner)| < limits.maxRelaysPerNode
    ensures RelayCountsOk(limits, relays[id := r])
  {
    var relays' := relays[id := r];
    forall n ensures |RelaysOf(relays', n)| <= limits.maxRelaysPerNode {
      if n == r.owner {
        assert RelaysOf(relays', n) == RelaysOf(relays, n) + {id};
      } else {
        assert RelaysOf(relays', n) == RelaysOf(relays, n);
      }
    }
  }

  lemma ReserveKeepsInv(env: Env, s: Store, nodeId: string, a: Action, now: int)
    requires Inv(env, s) && a.ReserveRelay? && nodeId in s.allow
    requires DoReserve(env, s, nodeId, a, now).Ok?
    ensures Inv(env, DoReserve(env, s, nodeId, a, now).value.0)
  {
    var s', r := DoReserve(env, s, nodeId, a, now).value.0, DoReserve(env, s, nodeId, a, now).value.1.reservation;
    var existing := RelayId(s.relays, nodeId, a.peer);
    if existing.Some? {
      RenewKeepsRelays(env.limits, s.allow, s.relays, existing.value, r);
    } else {
      ReserveKeepsPairs(s.relays, a.freshId, r);
      ReserveKeepsCounts(env.limits, s.relays, a.freshId, r);
    }
    assert s' == s.(relays := s'.relays);
  }

  lemma AllowKeepsInv(env: Env, s: Store, allow: map<string, AllowRow>)
    requires Inv(env, s) && s.allow.Keys <= allow.Keys && AllowOk(allow)
    ensures Inv(env, s.(allow := allow))
  {
    var s' := s.(allow := allow);
    forall k | k in s'.mailbox ensures RowOk(env, allow, k, s'.mailbox[k]) {
      assert RowOk(env, s.allow, k, s.mailbox[k]);
    }
    forall k | k in s'.settlements ensures SettledOk(env, allow, k, s'.settlements[k]) {
      assert SettledOk(env, s.allow, k, s.settlements[k]);
    }
  }

  lemma ActKeepsInv(env: Env, s: Store, auth: Auth, a: Action, now: int)
    requires Inv(env, s) && IsAllowed(s, auth.request.nodeId)
    requires auth.request.Verifies(env.crypto, auth.descriptor, a.Body(), now)
    requires Precheck(env, auth.request.nodeId, a, now).None? && Act(env, s, auth, a, now).Ok?
    ensures Inv(env, Act(env, s, auth, a, now).value.0)
  {
    match a
    case Authenticate(_) =>
    case Submit(raw, wallMs) => SubmitKeepsInv(env, s, auth.request.nodeId, raw, wallMs);
    case Claim(_, _, _, _, _, _) => ClaimKeepsInv(env, s, auth.request.nodeId, a, now);
    case Settle(_, _, _, _) => SettleKeepsInv(env, s, auth, a, a.Body(), now);
    case Settlements(_, _, _) =>
    case Acknowledge(_, packetId) => AcknowledgeKeepsInv(env, s, auth.request.nodeId, packetId, now);
    case ReserveRelay(_, _, _, _, _, _) => ReserveKeepsInv(env, s, auth.request.nodeId, a, now);
    case AuthorizeRelay(_, _) =>
    case FindRelay(_, _) =>
  }

  lemma StepKeepsInv(env: Env, s: Store, op: Op, now: int)
    requires Inv(env, s)
    ensures Inv(env, Step(env, s, op, now))
  {
    hide CustodyOk, QuotasOk, RelaysOk, Transact, Purge, IsNodeId;
    match op
    case AllowNode(n) => AllowKeepsInv(env, s, Step(env, s, op, now).allow);
    case DisallowNode(n) => AllowKeepsInv(env, s, Step(env, s, op, now).allow);
    case PurgeNow => PurgeKeepsInv(env, s, now);
    case Call(auth, a) => TransactKeepsInv(env, s, auth, a, now);
  }

  lemma TransactKeepsInv(env: Env, s: Store, auth: Auth, a: Action, now: int)
    requires Inv(env, s)
    ensures Transact(env, s, auth, a, now).Ok? ==> Inv(env, Transact(env, s, auth, a, now).value.0)
  {
    hide Inv, Act, Begin, Request.Verifies;
    if Transact(env, s, auth, a, now).Ok? {
      var begun := Begin(env, s, auth, a.Body(), now).value;
      BeginSpec(env, s, auth, a.Body(), now);
      BeginKeepsInv(env, s, auth, a.Body(), now);
      ActKeepsInv(env, begun, auth, a, now);
    }
  }

  lemma EmptyInv(env: Env)
    requires env.limits.Valid()
    ensures Inv(env, EMPTY)
  {
    forall k ensures |RelaysOf(EMPTY.relays, k)| == 0 && QuotaOk(env.limits, EMPTY.mailbox, k) {
      assert RelaysOf(EMPTY.relays, k) == {} && ForDestination(EMPTY.mailbox, k) == {} && FromUploader(EMPTY.mailbox, k) == {};
    }
  }
}
