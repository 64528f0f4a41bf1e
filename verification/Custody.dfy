/** The tables of the hub and its operations as pure transactions: each purges,
    consumes the request's nonce, acts, and either commits or leaves the tables
    exactly as they were. */
module Custody {
  import opened Basics
  import opened Crypto
  import opened ControlObjects
  import opened Settlement
  import opened Ordered
  import Packet

  const NONCE_RETENTION_MS := 10 * 60 * 1000
  const MIN_CLAIM_LEASE_MS := 5 * 1000
  const MAX_CLAIM_LEASE_MS := 5 * 60 * 1000
  const MAX_CLAIM_BATCH := 100
  const MIN_RELAY_TTL_MS := 30 * 1000
  const MIN_RELAY_DURATION_MS := 1000

  datatype Limits = Limits(
    maxPacketBytes: int, maxPacketsPerDestination: int, maxBytesPerDestination: int,
    maxPacketsPerUploader: int, maxBytesPerUploader: int,
    maxRelayTtlMs: int, maxRelayDurationMs: int, maxRelayBytes: int, maxRelaysPerNode: int)
  {
    predicate Valid() {
      && 0 < maxPacketBytes <= Packet.MAX_WIRE_BYTES
      && maxPacketsPerDestination > 0 && maxBytesPerDestination > 0
      && maxPacketsPerUploader > 0 && maxBytesPerUploader > 0
      && maxRelayTtlMs >= MIN_RELAY_TTL_MS && maxRelayDurationMs >= MIN_RELAY_DURATION_MS
      && maxRelayBytes > 0 && maxRelaysPerNode > 0
    }
  }

  /** What the hub computes with: hashing and signatures, packet decoding, limits. */
  datatype Env = Env(crypto: Suite, wire: Packet.Primitives, limits: Limits)

  // ----- Requests -----

  datatype Request = Request(nodeId: string, httpMethod: string, path: string, issuedMs: int, nonce: string,
                             bodySha256: Bytes, signature: Bytes, version: int, objectType: string)
  {
    function Field(i: int): Value {
      match i
      case 0 => Int(version)
      case 1 => Text(objectType)
      case 2 => Text(nodeId)
      case 3 => Text(httpMethod)
      case 4 => Text(path)
      case 5 => Int(issuedMs)
      case 6 => Text(nonce)
      case _ => Bin(bodySha256)
    }

    function SigningFields(): Fields {
      seq(8, i => Field(i))
    }

    predicate Verifies(c: Suite, descriptor: NodeDescriptor, body: Bytes, now: int) {
      && version == 1 && objectType == "anet.ahub-request.v1"
      && IsNodeId(nodeId) && nodeId == descriptor.nodeId
      && (httpMethod == "GET" || httpMethod == "POST" || httpMethod == "PUT" || httpMethod == "DELETE")
      && PathOk(path)
      && -REQUEST_SKEW_MS <= now - issuedMs <= REQUEST_SKEW_MS
      && NonceOk(nonce)
      && |bodySha256| == 32 && bodySha256 == c.sha256(body)
      && |signature| == 64
      && descriptor.Verifies(c, now)
      && c.verify(descriptor.signPublic, SigningFields(), signature)
    }
  }

  /** The signature covers everything: requests with equal signed fields differ in
      their signatures at most. */
  lemma FieldsDetermineRequest(p: Request, q: Request)
    requires p.SigningFields() == q.SigningFields()
    ensures p == q.(signature := p.signature)
  {
    var x, y := p.SigningFields(), q.SigningFields();
    forall i | 0 <= i < 8 ensures p.Field(i) == q.Field(i) {
      assert x[i] == p.Field(i) && y[i] == q.Field(i);
    }
    assert p.Field(0) == q.Field(0) && p.Field(1) == q.Field(1) && p.Field(2) == q.Field(2) && p.Field(3) == q.Field(3);
    assert p.Field(4) == q.Field(4) && p.Field(5) == q.Field(5) && p.Field(6) == q.Field(6) && p.Field(7) == q.Field(7);
  }

  predicate NonceOk(s: string) {
    16 <= |s| <= 128 && forall i :: 0 <= i < |s| ==> IsOpaqueChar(s[i])
  }

  predicate IsPathChar(c: char) {
    IsWordChar(c) || c in "._~!$&'()*+,;=:@%/-"
  }

  predicate PathOk(s: string) {
    && 2 <= |s| <= 512 && s[0] == '/'
    && (forall i :: 0 < i < |s| ==> IsPathChar(s[i]))
    && !Contains(s, "//") && !Contains(s, "..")
  }

  datatype Auth = Auth(request: Request, descriptor: NodeDescriptor)

  // ----- Tables -----

  datatype AllowRow = AllowRow(addedMs: int, enabled: bool, disabledMs: Option<int>)

  datatype MailRow = MailRow(destination: string, uploader: string, raw: Bytes, size: int, created: int, expires: int,
                             qos: string, depth: nat, tokenHash: Option<Bytes>, claimUntil: Option<int>)

  datatype SettledRow = SettledRow(destination: string, uploader: string, rawSha256: Bytes, settledMs: int, expires: int,
                                   proof: Dict, acknowledgedMs: int)

  datatype Reservation = Reservation(reservationId: string, owner: string, peer: string, createdMs: int, expires: int,
                                     maxDurationMs: int, maxBytes: int)
  {
    predicate Valid() {
      && IsHexId(reservationId) && IsNodeId(owner) && IsNodeId(peer) && owner != peer
      && createdMs > 0 && expires > createdMs && maxDurationMs >= MIN_RELAY_DURATION_MS && maxBytes > 0
    }
  }

  datatype Store = Store(allow: map<string, AllowRow>, nonces: map<(string, string), int>,
                         mailbox: map<string, MailRow>, settlements: map<string, SettledRow>,
                         relays: map<string, Reservation>)

  const EMPTY := Store(map[], map[], map[], map[], map[])

  // ----- Results -----

  datatype ClaimedPacket = ClaimedPacket(packetId: string, raw: Bytes, depth: nat, claimToken: string, claimUntilMs: int,
                                         uploaderId: string, expiresMs: int)

  datatype Reply =
    | Done
    | Flag(value: bool)
    | Receipt(packetId: string, destinationId: string, stored: bool, expiresMs: int)
    | Claimed(batch: seq<ClaimedPacket>)
    | Proofs(proofs: seq<DestinationSettlement>)
    | Reserved(reservation: Reservation)

  /** The operations behind an authenticated request.  `mint` and `freshId` are
      the random draws of the operation. */
  datatype Action =
    | Authenticate(body: Bytes)
    | Submit(raw: Bytes, wallMs: int)
    | Claim(body: Bytes, limit: int, leaseMs: int, maxBytes: Option<int>, uploader: Option<string>, mint: string -> string)
    | Settle(body: Bytes, packetId: string, token: string, proof: DestinationSettlement)
    | Settlements(body: Bytes, limit: int, destination: Option<string>)
    | Acknowledge(body: Bytes, packetId: string)
    | ReserveRelay(body: Bytes, peer: string, ttlMs: int, maxDurationMs: int, relayBytes: int, freshId: string)
    | AuthorizeRelay(body: Bytes, reservationId: string)
    | FindRelay(body: Bytes, owner: string)
  {
    function Body(): Bytes {
      if Submit? then raw else body
    }
  }

  datatype Op =
    | AllowNode(nodeId: string)
    | DisallowNode(nodeId: string)
    | PurgeNow
    | Call(auth: Auth, action: Action)

  // ----- Purge and authentication -----

  function ExpireClaim(row: MailRow, now: int): MailRow {
    if row.claimUntil.Some? && row.claimUntil.value <= now then row.(tokenHash := None, claimUntil := None) else row
  }

  function Purge(s: Store, now: int): Store {
    Store(
      s.allow,
      map k | k in s.nonces && s.nonces[k] >= now - NONCE_RETENTION_MS :: s.nonces[k],
      map k | k in s.mailbox && s.mailbox[k].expires > now :: ExpireClaim(s.mailbox[k], now),
      map k | k in s.settlements && s.settlements[k].expires > now :: s.settlements[k],
      map k | k in s.relays && s.relays[k].expires > now :: s.relays[k])
  }

  predicate IsAllowed(s: Store, nodeId: string) {
    nodeId in s.allow && s.allow[nodeId].enabled
  }

  function ConsumeRequest(env: Env, s: Store, auth: Auth, body: Bytes, now: int): Result<Store> {
    var r := auth.request;
    if !r.Verifies(env.crypto, auth.descriptor, body, now) then Err(ValueError)
    else if !IsAllowed(s, r.nodeId) then Err(PermissionError)
    else if (r.nodeId, r.nonce) in s.nonces then Err(PermissionError)
    else Ok(s.(nonces := s.nonces[(r.nodeId, r.nonce) := r.issuedMs]))
  }

  function Begin(env: Env, s: Store, auth: Auth, body: Bytes, now: int): Result<Store> {
    ConsumeRequest(env, Purge(s, now), auth, body, now)
  }

  // ----- Submit -----

  function Sizes(mailbox: map<string, MailRow>): map<string, int> {
    map k | k in mailbox :: mailbox[k].size
  }

  function Created(mailbox: map<string, MailRow>): map<string, int> {
    map k | k in mailbox :: mailbox[k].created
  }

  function ForDestination(mailbox: map<string, MailRow>, nodeId: string): set<string> {
    set k | k in mailbox && mailbox[k].destination == nodeId
  }

  function FromUploader(mailbox: map<string, MailRow>, nodeId: string): set<string> {
    set k | k in mailbox && mailbox[k].uploader == nodeId
  }

  function ByteCount(mailbox: map<string, MailRow>, ids: set<string>): int
    requires ids <= mailbox.Keys
  {
    Sum(Sizes(mailbox), SortBy(Created(mailbox), ids))
  }

  predicate WithinQuota(limits: Limits, mailbox: map<string, MailRow>, info: Packet.PacketInfo, uploader: string) {
    var received, sent := ForDestination(mailbox, info.destinationId), FromUploader(mailbox, uploader);
    && |received| < limits.maxPacketsPerDestination
    && ByteCount(mailbox, received) + |info.raw| <= limits.maxBytesPerDestination
    && |sent| < limits.maxPacketsPerUploader
    && ByteCount(mailbox, sent) + |info.raw| <= limits.maxBytesPerUploader
  }

  function NewRow(info: Packet.PacketInfo, uploader: string): MailRow {
    MailRow(info.destinationId, uploader, info.raw, |info.raw|, info.createdMs, info.expiresMs, info.qos, 0, None, None)
  }

  function DoSubmit(env: Env, s: Store, uploader: string, info: Packet.PacketInfo): Result<(Store, Reply)> {
    var id := info.packetId;
    if !IsAllowed(s, info.destinationId) then Err(PermissionError)
    else if id in s.mailbox then
      var row := s.mailbox[id];
      if row.raw != info.raw then Err(ValueError)
      else Ok((s, Receipt(id, row.destination, false, row.expires)))
    else if id in s.settlements then
      var row := s.settlements[id];
      if row.destination != info.destinationId || row.uploader != uploader || row.rawSha256 != env.crypto.sha256(info.raw)
      then Err(ValueError)
      else Ok((s, Receipt(id, info.destinationId, false, row.expires)))
    else if !WithinQuota(env.limits, s.mailbox, info, uploader) then Err(OverflowError)
    else if info.raw == [] then Err(IntegrityError)
    else Ok((s.(mailbox := s.mailbox[id := NewRow(info, uploader)]), Receipt(id, info.destinationId, true, info.expiresMs)))
  }

  // ----- Claim -----

  function AsciiBytes(s: string): Bytes {
    seq(|s|, i requires 0 <= i < |s| => s[i] as int % 256)
  }

  function TokenHash(env: Env, token: string): Bytes {
    env.crypto.sha256(AsciiBytes(token))
  }

  function Claimable(mailbox: map<string, MailRow>, nodeId: string, uploader: Option<string>): set<string> {
    set k | k in mailbox && mailbox[k].destination == nodeId && mailbox[k].tokenHash.None?
            && (uploader.None? || mailbox[k].uploader == uploader.value)
  }

  /** The rows a claim looks at: the oldest unclaimed ones, up to `limit`. */
  function Candidates(mailbox: map<string, MailRow>, nodeId: string, uploader: Option<string>, limit: int): (r: seq<string>)
    requires limit >= 0
    ensures forall k :: k in r ==> k in mailbox
  {
    var all := SortBy(Created(mailbox), Claimable(mailbox, nodeId, uploader));
    assert |all| > limit ==> forall k :: k in all[..limit] ==> k in all;
    if |all| <= limit then all else all[..limit]
  }

  /** The rows it takes: each in turn, unless it no longer fits the byte budget. */
  function Chosen(size: map<string, int>, rows: seq<string>, used: int, maxBytes: Option<int>): (r: seq<string>)
    requires forall k :: k in rows ==> k in size
    ensures forall k :: k in r ==> k in rows
  {
    if rows == [] then []
    else if maxBytes.Some? && used + size[rows[0]] > maxBytes.value then Chosen(size, rows[1..], used, maxBytes)
    else [rows[0]] + Chosen(size, rows[1..], used + size[rows[0]], maxBytes)
  }

  function LeaseRow(env: Env, row: MailRow, token: string, until: int): MailRow {
    row.(tokenHash := Some(TokenHash(env, token)), claimUntil := Some(until))
  }

  function LeaseAll(env: Env, mailbox: map<string, MailRow>, ids: seq<string>, mint: string -> string, until: int): map<string, MailRow> {
    map k | k in mailbox :: if k in ids then LeaseRow(env, mailbox[k], mint(k), until) else mailbox[k]
  }

  function Ticket(mailbox: map<string, MailRow>, id: string, token: string, until: int): ClaimedPacket
    requires id in mailbox
  {
    var row := mailbox[id];
    ClaimedPacket(id, row.raw, row.depth, token, until, row.uploader, row.expires)
  }

  function Tickets(mailbox: map<string, MailRow>, ids: seq<string>, mint: string -> string, until: int): (r: seq<ClaimedPacket>)
    requires forall k :: k in ids ==> k in mailbox
    ensures |r| == |ids|
    ensures forall i :: 0 <= i < |r| ==> r[i] == Ticket(mailbox, ids[i], mint(ids[i]), until)
  {
    if ids == [] then [] else [Ticket(mailbox, ids[0], mint(ids[0]), until)] + Tickets(mailbox, ids[1..], mint, until)
  }

  /** The batch a claim takes from the mailbox. */
  function BatchIds(mailbox: map<string, MailRow>, nodeId: string, a: Action): (r: seq<string>)
    requires a.Claim? && a.limit >= 0
    ensures forall k :: k in r ==> k in mailbox
  {
    Chosen(Sizes(mailbox), Candidates(mailbox, nodeId, a.uploader, a.limit), 0, a.maxBytes)
  }

  function DoClaim(env: Env, s: Store, nodeId: string, a: Action, now: int): Result<(Store, Reply)>
    requires a.Claim? && a.limit >= 0
  {
    var ids, until := BatchIds(s.mailbox, nodeId, a), now + a.leaseMs;
    Ok((s.(mailbox := LeaseAll(env, s.mailbox, ids, a.mint, until)), Claimed(Tickets(s.mailbox, ids, a.mint, until))))
  }

  // ----- Settle, list, acknowledge -----

  predicate HoldsLease(env: Env, row: MailRow, token: string, now: int) {
    && row.tokenHash.Some? && row.claimUntil.Some?
    && row.claimUntil.value > now
    && row.tokenHash.value == TokenHash(env, token)
  }

  predicate ProofMatches(env: Env, proof: DestinationSettlement, packetId: string, nodeId: string, row: MailRow) {
    && proof.packetId == packetId && proof.destinationId == nodeId && proof.uploaderId == row.uploader
    && proof.expiresMs == row.expires && proof.packetSha256 == env.crypto.sha256(row.raw)
  }

  function DoSettle(env: Env, s: Store, auth: Auth, a: Action, now: int): Result<(Store, Reply)>
    requires a.Settle?
  {
    var nodeId := auth.request.nodeId;
    if a.packetId !in s.mailbox then Ok((s, Flag(false)))
    else
      var row := s.mailbox[a.packetId];
      if row.destination != nodeId || !HoldsLease(env, row, a.token, now) then Err(PermissionError)
      else if !a.proof.Verifies(env.crypto, auth.descriptor.signPublic, now)
              || !ProofMatches(env, a.proof, a.packetId, nodeId, row) then Err(ValueError)
      else
        var settled := SettledRow(row.destination, row.uploader, env.crypto.sha256(row.raw), a.proof.settledMs, row.expires,
                                  ToDict(a.proof), 0);
        // INSERT ... ON CONFLICT DO NOTHING
        var table := if a.packetId in s.settlements then s.settlements else s.settlements[a.packetId := settled];
        Ok((s.(settlements := table, mailbox := s.mailbox - {a.packetId}), Flag(true)))
  }

  function SettledTimes(settlements: map<string, SettledRow>): map<string, int> {
    map k | k in settlements :: settlements[k].settledMs
  }

  function Pending(settlements: map<string, SettledRow>, nodeId: string, destination: Option<string>): set<string> {
    set k | k in settlements && settlements[k].uploader == nodeId && settlements[k].acknowledgedMs == 0
            && (destination.None? || settlements[k].destination == destination.value)
  }

  function Listed(settlements: map<string, SettledRow>, nodeId: string, destination: Option<string>, limit: int): (r: seq<string>)
    requires limit >= 0
    ensures forall k :: k in r ==> k in Pending(settlements, nodeId, destination)
  {
    var all := SortBy(SettledTimes(settlements), Pending(settlements, nodeId, destination));
    assert |all| > limit ==> forall k :: k in all[..limit] ==> k in all;
    if |all| <= limit then all else all[..limit]
  }

  function StoredProofs(settlements: map<string, SettledRow>, ids: seq<string>): (r: seq<Dict>)
    requires forall k :: k in ids ==> k in settlements
  {
    seq(|ids|, i requires 0 <= i < |ids| => assert ids[i] in ids; settlements[ids[i]].proof)
  }

  function DoSettlements(s: Store, nodeId: string, a: Action): Result<(Store, Reply)>
    requires a.Settlements? && a.limit >= 0
  {
    var proofs :- Traverse(FromDict, StoredProofs(s.settlements, Listed(s.settlements, nodeId, a.destination, a.limit)));
    Ok((s, Proofs(proofs)))
  }

  function DoAcknowledge(s: Store, nodeId: string, packetId: string, now: int): Result<(Store, Reply)> {
    if packetId !in s.settlements then Ok((s, Flag(false)))
    else
      var row := s.settlements[packetId];
      if row.uploader != nodeId then Err(PermissionError)
      else if row.acknowledgedMs == 0 then
        Ok((s.(settlements := s.settlements[packetId := row.(acknowledgedMs := now)]), Flag(true)))
      else Ok((s, Flag(false)))
  }

  // ----- Relay reservations -----

  function RelaysOf(relays: map<string, Reservation>, owner: string): set<string> {
    set k | k in relays && relays[k].owner == owner
  }

  function RelaysBetween(relays: map<string, Reservation>, owner: string, peer: string): set<string> {
    set k | k in relays && relays[k].owner == owner && relays[k].peer == peer
  }

  function RelayTimes(relays: map<string, Reservation>): map<string, int> {
    map k | k in relays :: relays[k].createdMs
  }

  function RelayId(relays: map<string, Reservation>, owner: string, peer: string): (r: Option<string>)
    ensures r.Some? ==> r.value in RelaysBetween(relays, owner, peer)
    ensures r.None? ==> RelaysBetween(relays, owner, peer) == {}
  {
    var ids := RelaysBetween(relays, owner, peer);
    if ids == {} then None else Some(First(RelayTimes(relays), ids))
  }

  function DoReserve(env: Env, s: Store, nodeId: string, a: Action, now: int): Result<(Store, Reply)>
    requires a.ReserveRelay?
  {
    if !IsAllowed(s, a.peer) then Err(PermissionError)
    else
      var existing := RelayId(s.relays, nodeId, a.peer);
      if existing.None? && |RelaysOf(s.relays, nodeId)| >= env.limits.maxRelaysPerNode then Err(OverflowError)
      else if existing.None? && a.freshId in s.relays then Err(IntegrityError)
      else
        var r := if existing.Some?
                 then s.relays[existing.value].(expires := now + a.ttlMs, maxDurationMs := a.maxDurationMs, maxBytes := a.relayBytes)
                 else Reservation(a.freshId, nodeId, a.peer, now, now + a.ttlMs, a.maxDurationMs, a.relayBytes);
        if r.expires <= r.createdMs then Err(IntegrityError)
        else if !r.Valid() then Err(ValueError)
        else Ok((s.(relays := s.relays[(if existing.Some? then existing.value else a.freshId) := r]), Reserved(r)))
  }

  function DoAuthorize(s: Store, nodeId: string, reservationId: string): Result<(Store, Reply)> {
    if reservationId !in s.relays then Err(LookupError)
    else
      var r := s.relays[reservationId];
      if nodeId != r.owner && nodeId != r.peer then Err(PermissionError) else Ok((s, Reserved(r)))
  }

  function DoFind(s: Store, nodeId: string, owner: string): Result<(Store, Reply)> {
    if !IsAllowed(s, owner) then Err(PermissionError)
    else match RelayId(s.relays, owner, nodeId)
      case None => Err(LookupError)
      case Some(id) => Ok((s, Reserved(s.relays[id])))
  }

  // ----- Steps -----

  /** What is refused before the transaction begins. */
  function Precheck(env: Env, nodeId: string, a: Action, now: int): Option<Error> {
    match a
    case Submit(raw, wallMs) =>
      var info := Packet.Inspect(env.wire, raw, wallMs);
      if info.Err? || info.value.expiresMs <= now || |raw| > env.limits.maxPacketBytes then Some(ValueError) else None
    case Claim(_, limit, leaseMs, maxBytes, uploader, _) =>
      if !(1 <= limit <= MAX_CLAIM_BATCH) || !(MIN_CLAIM_LEASE_MS <= leaseMs <= MAX_CLAIM_LEASE_MS)
         || (maxBytes.Some? && maxBytes.value <= 0) || (uploader.Some? && !IsNodeId(uploader.value))
      then Some(ValueError) else None
    case Settle(_, _, token, _) => if IsAscii(token) then None else Some(ValueError)
    case Settlements(_, limit, destination) =>
      if !(1 <= limit <= MAX_CLAIM_BATCH) || (destination.Some? && !IsNodeId(destination.value)) then Some(ValueError) else None
    case Acknowledge(_, packetId) => if IsHexId(packetId) then None else Some(ValueError)
    case ReserveRelay(_, peer, ttlMs, maxDurationMs, relayBytes, _) =>
      if !IsNodeId(peer) || !(MIN_RELAY_TTL_MS <= ttlMs <= env.limits.maxRelayTtlMs)
         || !(MIN_RELAY_DURATION_MS <= maxDurationMs <= env.limits.maxRelayDurationMs)
         || !(1 <= relayBytes <= env.limits.maxRelayBytes) || peer == nodeId
      then Some(ValueError) else None
    case AuthorizeRelay(_, reservationId) => if IsHexId(reservationId) then None else Some(ValueError)
    case FindRelay(_, owner) => if IsNodeId(owner) then None else Some(ValueError)
    case Authenticate(_) => None
  }

  function Act(env: Env, s: Store, auth: Auth, a: Action, now: int): Result<(Store, Reply)>
    requires Precheck(env, auth.request.nodeId, a, now).None?
  {
    var nodeId := auth.request.nodeId;
    match a
    case Authenticate(_) => Ok((s, Done))
    case Submit(raw, wallMs) => DoSubmit(env, s, nodeId, Packet.Inspect(env.wire, raw, wallMs).value)
    case Claim(_, _, _, _, _, _) => DoClaim(env, s, nodeId, a, now)
    case Settle(_, _, _, _) => DoSettle(env, s, auth, a, now)
    case Settlements(_, _, _) => DoSettlements(s, nodeId, a)
    case Acknowledge(_, packetId) => DoAcknowledge(s, nodeId, packetId, now)
    case ReserveRelay(_, _, _, _, _, _) => DoReserve(env, s, nodeId, a, now)
    case AuthorizeRelay(_, reservationId) => DoAuthorize(s, nodeId, reservationId)
    case FindRelay(_, owner) => DoFind(s, nodeId, owner)
  }

  /** One authenticated transaction: the new tables and the reply, or an error
      that leaves no trace. */
  function Transact(env: Env, s: Store, auth: Auth, a: Action, now: int): Result<(Store, Reply)> {
    match Precheck(env, auth.request.nodeId, a, now)
    case Some(e) => Err(e)
    case None =>
      var begun :- Begin(env, s, auth, a.Body(), now);
      Act(env, begun, auth, a, now)
  }

  function DoAllow(s: Store, nodeId: string, now: int): Result<(Store, Reply)> {
    if !IsNodeId(nodeId) then Err(ValueError)
    else if IsAllowed(s, nodeId) then Ok((s, Flag(false)))
    else
      var row := if nodeId in s.allow then s.allow[nodeId].(enabled := true, disabledMs := None) else AllowRow(now, true, None);
      Ok((s.(allow := s.allow[nodeId := row]), Flag(true)))
  }

  function DoDisallow(s: Store, nodeId: string, now: int): Result<(Store, Reply)> {
    if !IsNodeId(nodeId) then Err(ValueError)
    else if !IsAllowed(s, nodeId) then Ok((s, Flag(false)))
    else Ok((s.(allow := s.allow[nodeId := s.allow[nodeId].(enabled := false, disabledMs := Some(now))]), Flag(true)))
  }

  function Attempt(env: Env, s: Store, op: Op, now: int): Result<(Store, Reply)> {
    match op
    case AllowNode(n) => DoAllow(s, n, now)
    case DisallowNode(n) => DoDisallow(s, n, now)
    case PurgeNow => Ok((Purge(s, now), Done))
    case Call(auth, a) => Transact(env, s, auth, a, now)
  }

  /** The tables after a step: those committed, or the old ones. */
  function Step(env: Env, s: Store, op: Op, now: int): Store {
    var r := Attempt(env, s, op, now);
    if r.Ok? then r.value.0 else s
  }
}
