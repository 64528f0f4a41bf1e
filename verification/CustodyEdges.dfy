/** Runs at the edges of the protocol: packet ids in upper case, which are accepted
    and claimed but never settled, and a clock that reads zero. */
module CustodyEdges {
  import opened Basics
  import opened ControlObjects
  import opened Crypto
  import opened Settlement
  import opened Ordered
  import opened Custody
  import opened CustodyInvariant
  import opened CustodySteps
  import opened CustodyRuns
  import opened CustodyClaims
  import Packet

  // ----- Calls that go through -----

  function KeyOf(auth: Auth): (string, string) {
    (auth.request.nodeId, auth.request.nonce)
  }

  lemma UnusedIsFresh(env: Env, s: Store, auth: Auth, body: Bytes, now: int)
    requires auth.request.Verifies(env.crypto, auth.descriptor, body, now)
    requires IsAllowed(s, auth.request.nodeId) && KeyOf(auth) !in s.nonces
    ensures Fresh(env, s, auth, body, now)
  {
  }

  lemma EmptyMailboxAdmits(limits: Limits, info: Packet.PacketInfo, uploader: string)
    requires limits.Valid() && |info.raw| <= limits.maxBytesPerDestination && |info.raw| <= limits.maxBytesPerUploader
    ensures WithinQuota(limits, map[], info, uploader)
  {
    assert ForDestination(map[], info.destinationId) == {} && FromUploader(map[], uploader) == {};
    assert SortBy(Created(map[]), {}) == [];
  }

  /** A fresh submission to an empty hub is stored. */
  lemma SubmitSucceeds(env: Env, e: Entry, info: Packet.PacketInfo)
    requires IsStep(env, e) && e.op.Call? && e.op.action.Submit? && env.limits.Valid()
    requires Packet.Inspect(env.wire, e.op.action.raw, e.op.action.wallMs) == Ok(info) && info.expiresMs > e.now
    requires info.raw == e.op.action.raw != []
    requires |info.raw| <= env.limits.maxPacketBytes
    requires |info.raw| <= env.limits.maxBytesPerDestination && |info.raw| <= env.limits.maxBytesPerUploader
    requires Fresh(env, e.before, e.op.auth, e.op.action.raw, e.now) && IsAllowed(e.before, info.destinationId)
    requires e.before.mailbox == map[] && e.before.settlements == map[]
    ensures Stores(e, e.op.action.raw)
    ensures e.after.mailbox == map[info.packetId := NewRow(info, Caller(e))]
  {
    FreshBegins(env, e.before, e.op.auth, e.op.action.raw, e.now);
    EmptyMailboxAdmits(env.limits, info, Caller(e));
    hide Packet.Inspect, WithinQuota, Request.Verifies;
    assert Begun(env, e).mailbox == map[] && Begun(env, e).settlements == map[];
  }

  /** A fresh claim commits. */
  lemma ClaimSucceeds(env: Env, e: Entry)
    requires IsStep(env, e) && e.op.Call? && e.op.action.Claim?
    requires Precheck(env, Caller(e), e.op.action, e.now).None?
    requires Fresh(env, e.before, e.op.auth, e.op.action.body, e.now)
    ensures Commits(e)
  {
    FreshBegins(env, e.before, e.op.auth, e.op.action.body, e.now);
    hide Request.Verifies, BatchIds, LeaseAll, Tickets;
  }

  /** A fresh acknowledgement of an unacknowledged settlement is accepted. */
  lemma AcknowledgeSucceeds(env: Env, e: Entry, id: string)
    requires IsStep(env, e) && e.op.Call? && e.op.action.Acknowledge? && e.op.action.packetId == id && IsHexId(id)
    requires id in e.before.settlements && e.now < e.before.settlements[id].expires
    requires e.before.settlements[id].uploader == Caller(e) && e.before.settlements[id].acknowledgedMs == 0
    requires Fresh(env, e.before, e.op.auth, e.op.action.body, e.now)
    ensures Acknowledges(e, id)
    ensures id in e.after.settlements && e.after.settlements[id] == e.before.settlements[id].(acknowledgedMs := e.now)
  {
    FreshBegins(env, e.before, e.op.auth, e.op.action.body, e.now);
    hide Request.Verifies;
    assert Begun(env, e).settlements[id] == e.before.settlements[id];
  }

  // ----- From an empty hub to a claimed packet -----

  /** The parties of a delivery: who uploads, who claims, and what they send.  The
      caller supplies `now`; inspection reads the wall clock, `wallMs`. */
  datatype Delivery = Delivery(raw: Bytes, up: Auth, down: Auth, body: Bytes, mint: string -> string, now: int, wallMs: int) {
    function Info(env: Env): Result<Packet.PacketInfo> {
      Packet.Inspect(env.wire, raw, wallMs)
    }

    function Claim(): Action {
      Action.Claim(body, 1, MIN_CLAIM_LEASE_MS, None, None, mint)
    }

    /** The packet is valid and within the limits; both requests verify. */
    predicate Possible(env: Env) {
      && env.limits.Valid()
      && Info(env).Ok? && Info(env).value.expiresMs > now && raw != []
      && |raw| <= Min(env.limits.maxPacketBytes, Min(env.limits.maxBytesPerDestination, env.limits.maxBytesPerUploader))
      && up.request.Verifies(env.crypto, up.descriptor, raw, now)
      && down.request.Verifies(env.crypto, down.descriptor, body, now)
      && down.request.nodeId == Info(env).value.destinationId
      && KeyOf(up) != KeyOf(down)
    }
  }

  lemma InspectedSpec(env: Env, d: Delivery)
    requires d.Info(env).Ok?
    ensures var info := d.Info(env).value;
      info.raw == d.raw && env.wire.unpackOuter(d.raw).Some?
      && env.wire.unpackOuter(d.raw).value.id == info.packetId && env.wire.unpackOuter(d.raw).value.exp == info.expiresMs
      && info.expiresMs >= 2
  {
  }

  lemma BothAllowed(env: Env, d: Delivery) returns (t: seq<Entry>)
    requires d.Possible(env)
    ensures IsTrace(env, t) && |t| == 2 && t[0].now == t[1].now == d.now
    ensures IsAllowed(t[1].after, d.up.request.nodeId) && IsAllowed(t[1].after, d.down.request.nodeId)
    ensures t[1].after.nonces == map[] && t[1].after.mailbox == map[] && t[1].after.settlements == map[]
  {
    var e0 := Next(env, EMPTY, AllowNode(d.up.request.nodeId), d.now);
    var e1 := Next(env, e0.after, AllowNode(d.down.request.nodeId), d.now);
    t := [e0, e1];
    assert IsAllowed(e0.after, d.up.request.nodeId) && e0.after.nonces == map[];
    assert IsAllowed(e1.after, d.up.request.nodeId) && IsAllowed(e1.after, d.down.request.nodeId);
    hide IsStep, Attempt;
    forall k {:trigger ValidAt(env, t, k)} | 0 <= k < 2 ensures ValidAt(env, t, k) {
    }
    forall k {:trigger LinkAt(t, k)} | 0 < k < 2 ensures LinkAt(t, k) {
    }
  }

  lemma StoredRun(env: Env, d: Delivery) returns (t: seq<Entry>)
    requires d.Possible(env)
    ensures IsTrace(env, t) && |t| == 3 && t[0].now == t[1].now == t[2].now == d.now
    ensures Stores(t[2], d.raw) && Caller(t[2]) == d.up.request.nodeId
    ensures t[2].after.mailbox == map[d.Info(env).value.packetId := NewRow(d.Info(env).value, d.up.request.nodeId)]
    ensures t[2].after.nonces.Keys <= {KeyOf(d.up)}
    ensures IsAllowed(t[2].after, d.up.request.nodeId) && IsAllowed(t[2].after, d.down.request.nodeId)
  {
    hide IsStep, Request.Verifies, Packet.Inspect, Delivery.Info;
    var t1 := BothAllowed(env, d);
    var e := RunGoesOn(env, t1, Call(d.up, Action.Submit(d.raw, d.wallMs)), d.now);
    UnusedIsFresh(env, e.before, d.up, d.raw, d.now);
    hide Fresh, IsTrace;
    SubmitStored(env, d, e);
    CommitAddsNonce(env, e);
    t := t1 + [e];
  }

  /** The run: both nodes are admitted, one uploads, the other claims. */
  lemma ClaimedRun(env: Env, d: Delivery) returns (t: seq<Entry>, m: nat)
    requires d.Possible(env)
    ensures IsTrace(env, t) && |t| == 4 && forall k :: 0 <= k < 4 ==> t[k].now == d.now
    ensures Stores(t[2], d.raw) && Caller(t[2]) == d.up.request.nodeId
    ensures t[3].op == Call(d.down, d.Claim()) && Commits(t[3]) && t[3].answer.value.Claimed?
    ensures m < |t[3].answer.value.batch| && t[3].answer.value.batch[m].packetId == d.Info(env).value.packetId
    ensures t[3].after.nonces.Keys <= {KeyOf(d.up), KeyOf(d.down)}
    ensures IsAllowed(t[3].after, d.up.request.nodeId) && IsAllowed(t[3].after, d.down.request.nodeId)
  {
    hide IsStep, Request.Verifies, Packet.Inspect, Delivery.Info;
    var t2 := StoredRun(env, d);
    var e := RunGoesOn(env, t2, Call(d.down, d.Claim()), d.now);
    UnusedIsFresh(env, e.before, d.down, d.body, d.now);
    hide Fresh, IsTrace;
    ClaimSucceeds(env, e);
    CommitAddsNonce(env, e);
    t := t2 + [e];
    m := OnlyPacketClaimed(env, t, d);
  }

  lemma SubmitStored(env: Env, d: Delivery, e: Entry)
    requires d.Possible(env) && IsStep(env, e) && e.op == Call(d.up, Action.Submit(d.raw, d.wallMs)) && e.now == d.now
    requires Fresh(env, e.before, d.up, d.raw, d.now) && IsAllowed(e.before, d.down.request.nodeId)
    requires e.before.mailbox == map[] && e.before.settlements == map[]
    ensures Stores(e, d.raw) && e.after.mailbox == map[d.Info(env).value.packetId := NewRow(d.Info(env).value, Caller(e))]
  {
    InspectedSpec(env, d);
    hide IsStep, Fresh, Request.Verifies;
    SubmitSucceeds(env, e, d.Info(env).value);
  }

  lemma OnlyPacketClaimed(env: Env, t: seq<Entry>, d: Delivery) returns (m: nat)
    requires IsTrace(env, t) && |t| == 4 && d.Info(env).Ok? && t[3].now == d.now < d.Info(env).value.expiresMs
    requires Commits(t[3]) && t[3].op == Call(d.down, d.Claim())
    requires var info := d.Info(env).value;
      && info.destinationId == d.down.request.nodeId
      && exists uploader :: t[3].before.mailbox == map[info.packetId := NewRow(info, uploader)]
    ensures t[3].answer.value.Claimed?
    ensures m < |t[3].answer.value.batch| && t[3].answer.value.batch[m].packetId == d.Info(env).value.packetId
  {
    InspectedSpec(env, d);
    var node, id := d.down.request.nodeId, d.Info(env).value.packetId;
    assert id in ForDestination(t[3].before.mailbox, node);
    ClaimTakesSome(env, t, 3, node, id);
    var x :| Claims(t[3], x) && x in ForDestination(t[3].before.mailbox, node);
    m :| 0 <= m < |t[3].answer.value.batch| && t[3].answer.value.batch[m].packetId == x;
  }

  // ----- Upper-case packet ids -----

  /** A packet whose header would be valid with its id in lower case is stored and
      claimed under an id that no settlement proof may carry. */
  lemma UpperCaseIdIsClaimed(env: Env, d: Delivery, x: Packet.Outer, lower: string) returns (t: seq<Entry>)
    requires env.wire.unpackOuter(d.raw) == Some(x) && |d.raw| <= Packet.MAX_WIRE_BYTES
    requires Packet.HeaderOk(x.(id := lower)) && Packet.ClockAccepts(x.ts, x.exp, d.wallMs) && x.exp > d.now
    requires |x.id| == 32 && Packet.AreHexDigits(x.id) && !IsHexId(x.id)
    requires d.Info(env).Ok? ==> d.Possible(env)
    ensures IsTrace(env, t) && |t| == 4 && Stores(t[2], d.raw) && Claims(t[3], x.id) && !IsHexId(x.id)
  {
    Packet.HeaderAcceptsAnyCase(x.(id := lower), x.id);
    assert x.(id := lower).(id := x.id) == x;
    assert d.Info(env).Ok? && d.Info(env).value.packetId == x.id;
    hide IsStep, Request.Verifies, Packet.Inspect;
    var m: nat;
    t, m := ClaimedRun(env, d);
  }

  /** A settle of the packet with this proof, under the claim's token, succeeds. */
  ghost predicate SettlesWith(env: Env, s: Store, auth: Auth, body: Bytes, ticket: ClaimedPacket, now: int, proof: DestinationSettlement) {
    Settles(Next(env, s, Call(auth, Settle(body, ticket.packetId, ticket.claimToken, proof)), now), ticket.packetId)
  }

  /** A proof that the destination can issue in time. */
  lemma ProofExists(env: Env, t: seq<Entry>, i: nat, m: nat, sign: Fields -> Bytes, signPublic: Bytes)
    requires IsTrace(env, t) && i < |t| && t[i].op.Call? && t[i].answer.Ok? && t[i].answer.value.Claimed?
    requires m < |t[i].answer.value.batch| && IsHexId(t[i].answer.value.batch[m].packetId)
    requires Sized(env.crypto) && SignsFor(env.crypto, sign, signPublic)
    ensures var k := t[i].answer.value.batch[m];
      Issue(env.crypto, sign, Caller(t[i]), signPublic, k.packetId, k.raw, k.uploaderId, k.expiresMs, 1).Ok?
  {
    var k := t[i].answer.value.batch[m];
    TicketTellsRow(env, t, i, m);
    InvAt(env, t, i);
    RowParties(env, t[i].after, k.packetId);
    hide *;
    IssueSucceedsIff(env.crypto, sign, Caller(t[i]), signPublic, k.packetId, k.raw, k.uploaderId, k.expiresMs, 1);
  }

  lemma RowParties(env: Env, s: Store, id: string)
    requires Inv(env, s) && id in s.mailbox
    ensures IsNodeId(s.mailbox[id].uploader) && IsNodeId(s.mailbox[id].destination) && s.mailbox[id].expires >= 2
  {
    assert RowOk(env, s.allow, id, s.mailbox[id]);
  }

  /** Which live claims can be settled at all: with everything in place -- the claim
      live, the packet unexpired and unsettled, the request fresh, the destination
      able to sign -- some proof settles the packet exactly when its id is
      lowercase hexadecimal (and the clock admits a positive time of settlement). */
  lemma SomeProofSettlesIff(env: Env, t: seq<Entry>, i: nat, m: nat, auth: Auth, body: Bytes, now: int, sign: Fields -> Bytes)
    requires IsTrace(env, t) && i < |t|
    requires t[i].op.Call? && t[i].answer.Ok? && t[i].answer.value.Claimed? && m < |t[i].answer.value.batch|
    requires var ticket := t[i].answer.value.batch[m];
      && (forall k :: i < k < |t| ==> t[k].now < ticket.claimUntilMs && t[k].now < ticket.expiresMs)
      && (forall k :: i < k < |t| ==> !Settles(t[k], ticket.packetId))
      && now < ticket.claimUntilMs && now < ticket.expiresMs && IsAscii(ticket.claimToken)
    requires auth.request.nodeId == Caller(t[i]) && Fresh(env, t[|t| - 1].after, auth, body, now)
    requires Sized(env.crypto) && SignsFor(env.crypto, sign, auth.descriptor.signPublic)
    ensures var s, ticket := t[|t| - 1].after, t[i].answer.value.batch[m];
      (exists proof :: SettlesWith(env, s, auth, body, ticket, now, proof))
      <==> IsHexId(ticket.packetId) && now + REQUEST_SKEW_MS > 0
  {
    var s, ticket := t[|t| - 1].after, t[i].answer.value.batch[m];
    if IsHexId(ticket.packetId) && now + REQUEST_SKEW_MS > 0 {
      ProofExists(env, t, i, m, sign, auth.descriptor.signPublic);
      var proof := Issue(env.crypto, sign, Caller(t[i]), auth.descriptor.signPublic, ticket.packetId, ticket.raw,
                         ticket.uploaderId, ticket.expiresMs, 1).value;
      IssuedProofSettles(env, t, i, m, auth, body, now, sign, proof);
    }
    if proof :| SettlesWith(env, s, auth, body, ticket, now, proof) {
      SettlingProofIsSound(env, s, auth, body, ticket, now, proof);
    }
  }

  lemma IssuedProofSettles(env: Env, t: seq<Entry>, i: nat, m: nat, auth: Auth, body: Bytes, now: int, sign: Fields -> Bytes,
                           proof: DestinationSettlement)
    requires IsTrace(env, t) && i < |t|
    requires t[i].op.Call? && t[i].answer.Ok? && t[i].answer.value.Claimed? && m < |t[i].answer.value.batch|
    requires var ticket := t[i].answer.value.batch[m];
      && (forall k :: i < k < |t| ==> t[k].now < ticket.claimUntilMs && t[k].now < ticket.expiresMs)
      && (forall k :: i < k < |t| ==> !Settles(t[k], ticket.packetId))
      && now < ticket.claimUntilMs && now < ticket.expiresMs && IsAscii(ticket.claimToken)
      && Issue(env.crypto, sign, Caller(t[i]), auth.descriptor.signPublic, ticket.packetId, ticket.raw,
               ticket.uploaderId, ticket.expiresMs, 1) == Ok(proof)
    requires now + REQUEST_SKEW_MS > 0
    requires auth.request.nodeId == Caller(t[i]) && Fresh(env, t[|t| - 1].after, auth, body, now)
    ensures SettlesWith(env, t[|t| - 1].after, auth, body, t[i].answer.value.batch[m], now, proof)
  {
    hide IsStep, Fresh, Issue;
    var ticket := t[i].answer.value.batch[m];
    var op := Call(auth, Settle(body, ticket.packetId, ticket.claimToken, proof));
    var e := RunGoesOn(env, t, op, now);
    SameNext(env, e);
    LiveClaimCannotBeSpoiled(env, t + [e], i, m, |t|, sign, 1);
  }

  lemma SameNext(env: Env, e: Entry)
    requires IsStep(env, e)
    ensures e == Next(env, e.before, e.op, e.now)
  {
  }

  lemma SettlingProofIsSound(env: Env, s: Store, auth: Auth, body: Bytes, ticket: ClaimedPacket, now: int, proof: DestinationSettlement)
    requires SettlesWith(env, s, auth, body, ticket, now, proof)
    ensures IsHexId(ticket.packetId) && now + REQUEST_SKEW_MS > 0
  {
    var e := Next(env, s, Call(auth, Settle(body, ticket.packetId, ticket.claimToken, proof)), now);
    hide IsStep, NodeDescriptor.Verifies;
    SettleNeeds(env, e, ticket.packetId);
    SettleVerified(env, e, ticket.packetId);
  }

  // ----- A clock that reads zero -----

  /** The requests that follow the claim: one settles, two acknowledge. */
  datatype Aftermath = Aftermath(settle: Auth, settleBody: Bytes, first: Auth, second: Auth, ackBody: Bytes, later: int) {
    predicate Possible(env: Env, d: Delivery) {
      && settle.request.Verifies(env.crypto, settle.descriptor, settleBody, 0) && settle.request.nodeId == d.down.request.nodeId
      && first.request.Verifies(env.crypto, first.descriptor, ackBody, 0) && first.request.nodeId == d.up.request.nodeId
      && second.request.Verifies(env.crypto, second.descriptor, ackBody, later) && second.request.nodeId == d.up.request.nodeId
      && KeyOf(settle) !in {KeyOf(d.up), KeyOf(d.down)}
      && KeyOf(first) !in {KeyOf(d.up), KeyOf(d.down), KeyOf(settle)}
      && KeyOf(second) !in {KeyOf(d.up), KeyOf(d.down), KeyOf(settle), KeyOf(first)}
    }
  }

  /** With the clock at zero a delivered packet is acknowledged, and a second
      acknowledgement of the same settlement is accepted again. */
  lemma AcknowledgedTwiceAtZero(env: Env, d: Delivery, a: Aftermath, sign: Fields -> Bytes) returns (t: seq<Entry>)
    requires d.Possible(env) && d.now == 0 && a.Possible(env, d)
    requires IsHexId(d.Info(env).value.packetId) && IsAscii(d.mint(d.Info(env).value.packetId))
    requires a.later < d.Info(env).value.expiresMs
    requires Sized(env.crypto) && SignsFor(env.crypto, sign, a.settle.descriptor.signPublic)
    ensures IsTrace(env, t) && |t| == 7 && t[5].now == 0 && t[6].now == a.later
    ensures Acknowledges(t[5], d.Info(env).value.packetId) && Acknowledges(t[6], d.Info(env).value.packetId)
  {
    hide Packet.Inspect, Request.Verifies, IsTrace, Acknowledges, Settles, Aftermath.Possible, SignsFor, Sized;
    var id, used := d.Info(env).value.packetId, {KeyOf(d.up), KeyOf(d.down), KeyOf(a.settle)};
    AcknowledgersReady(env, d, a);
    hide *;
    var t5 := DeliveredRun(env, d, a, sign);
    t := TwiceAcknowledged(env, t5, a, id, used);
  }

  lemma AcknowledgersReady(env: Env, d: Delivery, a: Aftermath)
    requires d.Possible(env) && d.now == 0 && a.Possible(env, d)
    ensures d.Info(env).value.expiresMs > 0
    ensures a.first.request.Verifies(env.crypto, a.first.descriptor, a.ackBody, 0)
    ensures a.second.request.Verifies(env.crypto, a.second.descriptor, a.ackBody, a.later)
    ensures a.first.request.nodeId == a.second.request.nodeId == d.up.request.nodeId
    ensures KeyOf(a.first) !in {KeyOf(d.up), KeyOf(d.down), KeyOf(a.settle)}
    ensures KeyOf(a.second) !in {KeyOf(d.up), KeyOf(d.down), KeyOf(a.settle)} + {KeyOf(a.first)}
  {
    hide Request.Verifies, Packet.Inspect;
  }

  /** The run up to the settlement, with every clock reading zero. */
  lemma DeliveredRun(env: Env, d: Delivery, a: Aftermath, sign: Fields -> Bytes) returns (u: seq<Entry>)
    requires d.Possible(env) && d.now == 0 && a.Possible(env, d)
    requires IsHexId(d.Info(env).value.packetId) && IsAscii(d.mint(d.Info(env).value.packetId))
    requires Sized(env.crypto) && SignsFor(env.crypto, sign, a.settle.descriptor.signPublic)
    ensures IsTrace(env, u) && |u| == 5
    ensures var id, s := d.Info(env).value.packetId, u[4].after;
      && id in s.settlements && s.settlements[id].uploader == d.up.request.nodeId
      && s.settlements[id].acknowledgedMs == 0 && s.settlements[id].expires == d.Info(env).value.expiresMs
      && IsAllowed(s, d.up.request.nodeId) && s.nonces.Keys <= {KeyOf(d.up), KeyOf(d.down), KeyOf(a.settle)}
  {
    hide *;
    var t, m := ClaimedRun(env, d);
    u := SettledRun(env, d, a, sign, t, m);
  }

  lemma TwiceAcknowledged(env: Env, t: seq<Entry>, a: Aftermath, id: string, used: set<(string, string)>) returns (u: seq<Entry>)
    requires IsTrace(env, t) && t != [] && IsHexId(id)
    requires a.first.request.Verifies(env.crypto, a.first.descriptor, a.ackBody, 0) && KeyOf(a.first) !in used
    requires a.second.request.Verifies(env.crypto, a.second.descriptor, a.ackBody, a.later)
    requires a.second.request.nodeId == a.first.request.nodeId && KeyOf(a.second) !in used + {KeyOf(a.first)}
    requires var s := t[|t| - 1].after;
      && id in s.settlements && Max(0, a.later) < s.settlements[id].expires && s.settlements[id].acknowledgedMs == 0
      && s.settlements[id].uploader == a.first.request.nodeId && IsAllowed(s, a.first.request.nodeId)
      && s.nonces.Keys <= used
    ensures IsTrace(env, u) && |u| == |t| + 2 && u[|t|].now == 0 && u[|t| + 1].now == a.later
    ensures Acknowledges(u[|t|], id) && Acknowledges(u[|t| + 1], id)
  {
    hide IsTrace, Request.Verifies, Acknowledges;
    var v := Acknowledged(env, t, a.first, a.ackBody, id, 0, used);
    u := Acknowledged(env, v, a.second, a.ackBody, id, a.later, used + {KeyOf(a.first)});
  }

  /** One more acknowledgement at the end of a run, of a settlement that carries
      the stamp zero. */
  lemma Acknowledged(env: Env, t: seq<Entry>, auth: Auth, body: Bytes, id: string, now: int, used: set<(string, string)>)
    returns (u: seq<Entry>)
    requires IsTrace(env, t) && t != [] && IsHexId(id)
    requires auth.request.Verifies(env.crypto, auth.descriptor, body, now)
    requires var s := t[|t| - 1].after;
      && id in s.settlements && now < s.settlements[id].expires && s.settlements[id].acknowledgedMs == 0
      && s.settlements[id].uploader == auth.request.nodeId && IsAllowed(s, auth.request.nodeId)
      && s.nonces.Keys <= used && KeyOf(auth) !in used
    ensures |u| == |t| + 1 && t == u[..|t|] && IsTrace(env, u) && u[|t|].now == now && Acknowledges(u[|t|], id)
    ensures var s, s' := t[|t| - 1].after, u[|t|].after;
      && id in s'.settlements && s'.settlements[id] == s.settlements[id].(acknowledgedMs := now)
      && s'.allow == s.allow && s'.nonces.Keys <= used + {KeyOf(auth)}
  {
    hide IsStep, Request.Verifies;
    UnusedIsFresh(env, t[|t| - 1].after, auth, body, now);
    hide Fresh, IsTrace;
    var e := RunGoesOn(env, t, Call(auth, Acknowledge(body, id)), now);
    AcknowledgeSucceeds(env, e, id);
    CommitAddsNonce(env, e);
    u := t + [e];
  }

  lemma SettledRun(env: Env, d: Delivery, a: Aftermath, sign: Fields -> Bytes, t: seq<Entry>, m: nat) returns (u: seq<Entry>)
    requires d.Possible(env) && d.now == 0 && a.Possible(env, d) && IsTrace(env, t) && |t| == 4
    requires IsHexId(d.Info(env).value.packetId) && IsAscii(d.mint(d.Info(env).value.packetId))
    requires Sized(env.crypto) && SignsFor(env.crypto, sign, a.settle.descriptor.signPublic)
    requires t[3].now == 0 && t[3].op == Call(d.down, d.Claim()) && Commits(t[3]) && t[3].answer.value.Claimed?
    requires m < |t[3].answer.value.batch| && t[3].answer.value.batch[m].packetId == d.Info(env).value.packetId
    requires Stores(t[2], d.raw) && Caller(t[2]) == d.up.request.nodeId
    requires t[3].after.nonces.Keys <= {KeyOf(d.up), KeyOf(d.down)}
    requires IsAllowed(t[3].after, d.up.request.nodeId) && IsAllowed(t[3].after, d.down.request.nodeId)
    ensures IsTrace(env, u) && |u| == 5
    ensures IsAllowed(u[4].after, d.up.request.nodeId)
    ensures u[4].after.nonces.Keys <= {KeyOf(d.up), KeyOf(d.down), KeyOf(a.settle)}
    ensures var id := d.Info(env).value.packetId;
      && id in u[4].after.settlements && u[4].after.settlements[id].uploader == d.up.request.nodeId
      && u[4].after.settlements[id].acknowledgedMs == 0 && u[4].after.settlements[id].expires == d.Info(env).value.expiresMs
  {
    hide Packet.Inspect, Request.Verifies, Settles, SignsFor, Sized, Stores;
    var id := d.Info(env).value.packetId;
    InspectedSpec(env, d);
    hide *;
    TicketOfStored(env, t, m, d.raw);
    UnusedIsFresh(env, t[3].after, a.settle, a.settleBody, 0);
    u := SettleNext(env, t, 3, m, a.settle, a.settleBody, 0, sign);
    SettlesSpec(env, u, 4, id);
    assert LinkAt(u, 4);
    SettledRow(env, u, id);
  }

  lemma SettledRow(env: Env, u: seq<Entry>, id: string)
    requires |u| == 5 && LinkAt(u, 4) && id in u[3].after.mailbox && id in u[4].before.mailbox && id in u[4].after.settlements
    requires u[4].after.settlements[id].uploader == u[4].before.mailbox[id].uploader
    requires IsSettled(env, u[4].after, id, u[4].before.mailbox[id].raw, u[4].before.mailbox[id].expires)
    ensures u[4].after.settlements[id].uploader == u[3].after.mailbox[id].uploader
    ensures u[4].after.settlements[id].expires == u[3].after.mailbox[id].expires
  {
  }

  /** The ticket for a packet that was stored one step before tells its uploader,
      its expiry, and the token drawn. */
  lemma TicketOfStored(env: Env, t: seq<Entry>, m: nat, raw: Bytes)
    requires IsTrace(env, t) && |t| == 4 && Stores(t[2], raw) && env.wire.unpackOuter(raw).Some?
    requires t[3].op.Call? && t[3].answer.Ok? && t[3].answer.value.Claimed? && m < |t[3].answer.value.batch|
    requires t[3].answer.value.batch[m].packetId == env.wire.unpackOuter(raw).value.id
    ensures var k, x := t[3].answer.value.batch[m], env.wire.unpackOuter(raw).value;
      && k.uploaderId == Caller(t[2]) && k.expiresMs == x.exp
      && t[3].op.action.Claim? && k.claimToken == t[3].op.action.mint(k.packetId)
      && k.claimUntilMs == t[3].now + t[3].op.action.leaseMs
      && x.id in t[3].after.mailbox && t[3].after.mailbox[x.id].uploader == Caller(t[2])
      && t[3].after.mailbox[x.id].expires == x.exp
  {
    hide IsStep, IsTrace, TokenHash;
    StoredUploader(env, t, raw);
    ClaimAnswersAt(env, t, 3, m);
    TicketTellsRow(env, t, 3, m);
  }

  /** A live claim that can be settled is settled by one more step of the run. */
  lemma SettleNext(env: Env, t: seq<Entry>, i: nat, m: nat, auth: Auth, body: Bytes, now: int, sign: Fields -> Bytes)
    returns (u: seq<Entry>)
    requires IsTrace(env, t) && i < |t|
    requires t[i].op.Call? && t[i].answer.Ok? && t[i].answer.value.Claimed? && m < |t[i].answer.value.batch|
    requires var ticket := t[i].answer.value.batch[m];
      && (forall k :: i < k < |t| ==> t[k].now < ticket.claimUntilMs && t[k].now < ticket.expiresMs)
      && (forall k :: i < k < |t| ==> !Settles(t[k], ticket.packetId))
      && now < ticket.claimUntilMs && now < ticket.expiresMs && IsAscii(ticket.claimToken) && IsHexId(ticket.packetId)
    requires now + REQUEST_SKEW_MS > 0
    requires auth.request.nodeId == Caller(t[i]) && Fresh(env, t[|t| - 1].after, auth, body, now)
    requires Sized(env.crypto) && SignsFor(env.crypto, sign, auth.descriptor.signPublic)
    ensures IsTrace(env, u) && |u| == |t| + 1 && u[..|t|] == t && u[|t|].now == now
    ensures Settles(u[|t|], t[i].answer.value.batch[m].packetId)
    ensures u[|t|].after.allow == t[|t| - 1].after.allow
    ensures u[|t|].after.nonces.Keys <= t[|t| - 1].after.nonces.Keys + {KeyOf(auth)}
  {
    ProofExists(env, t, i, m, sign, auth.descriptor.signPublic);
    hide IsStep, Fresh, Issue, IsTrace, Settles, SignsFor;
    var ticket := t[i].answer.value.batch[m];
    var proof := Issue(env.crypto, sign, Caller(t[i]), auth.descriptor.signPublic, ticket.packetId, ticket.raw,
                       ticket.uploaderId, ticket.expiresMs, 1).value;
    IssuedProofSettles(env, t, i, m, auth, body, now, sign, proof);
    var e := RunGoesOn(env, t, Call(auth, Settle(body, ticket.packetId, ticket.claimToken, proof)), now);
    SameNext(env, e);
    SettlesCommits(e, ticket.packetId);
    CommitAddsNonce(env, e);
    u := t + [e];
  }

  lemma SettlesCommits(e: Entry, id: string)
    requires Settles(e, id)
    ensures Commits(e)
  {
  }

  /** The row of a stored packet names its uploader. */
  lemma StoredUploader(env: Env, t: seq<Entry>, raw: Bytes)
    requires IsTrace(env, t) && |t| == 4 && Stores(t[2], raw) && env.wire.unpackOuter(raw).Some?
    ensures var id := env.wire.unpackOuter(raw).value.id;
      && id in t[3].before.mailbox && t[3].before.mailbox[id].uploader == Caller(t[2])
      && t[3].before.mailbox[id].expires == env.wire.unpackOuter(raw).value.exp
  {
    hide IsStep;
    assert ValidAt(env, t, 2) && LinkAt(t, 3);
    StoreStep(env, t[2], raw);
  }
}
