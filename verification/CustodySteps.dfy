/** What one committed step does to one packet, one settlement, one nonce. */
module CustodySteps {
  import opened Basics
  import opened Crypto
  import opened ControlObjects
  import opened Settlement
  import opened Ordered
  import opened Custody
  import Packet

  /** One event of a run with the tables before and after it, and its answer. */
  datatype Entry = Entry(before: Store, op: Op, now: int, after: Store, answer: Result<Reply>)

  ghost predicate IsStep(env: Env, e: Entry) {
    var r := Attempt(env, e.before, e.op, e.now);
    if r.Ok? then e.after == r.value.0 && e.answer == Ok(r.value.1) else e.after == e.before && e.answer == Err(r.error)
  }

  // ----- What the caller saw -----

  ghost predicate Commits(e: Entry) {
    e.op.Call? && e.answer.Ok?
  }

  /** `submit` returned `stored=True` for these bytes. */
  ghost predicate Stores(e: Entry, raw: Bytes) {
    && Commits(e) && e.op.action.Submit? && e.op.action.raw == raw
    && e.answer.value.Receipt? && e.answer.value.stored
  }

  /** `claim` returned this packet. */
  ghost predicate Claims(e: Entry, id: string) {
    && Commits(e) && e.op.action.Claim? && e.answer.value.Claimed?
    && exists i :: 0 <= i < |e.answer.value.batch| && e.answer.value.batch[i].packetId == id
  }

  /** `settle` returned `True` for this packet. */
  ghost predicate Settles(e: Entry, id: string) {
    Commits(e) && e.op.action.Settle? && e.op.action.packetId == id && e.answer.value == Flag(true)
  }

  /** `acknowledge_settlement` returned `True` for this packet. */
  ghost predicate Acknowledges(e: Entry, id: string) {
    Commits(e) && e.op.action.Acknowledge? && e.op.action.packetId == id && e.answer.value == Flag(true)
  }

  function Caller(e: Entry): string
    requires e.op.Call?
  {
    e.op.auth.request.nodeId
  }

  ghost predicate Disjoint(s: Store) {
    s.mailbox.Keys !! s.settlements.Keys
  }

  ghost predicate LiveLease(row: MailRow, now: int) {
    row.tokenHash.Some? && row.claimUntil.Some? && row.claimUntil.value > now
  }

  ghost predicate WholeLease(row: MailRow) {
    row.tokenHash.Some? <==> row.claimUntil.Some?
  }

  /** The row without its lease. */
  function Custodied(row: MailRow): MailRow {
    row.(tokenHash := None, claimUntil := None)
  }

  // ----- The shape of a commit -----

  function Begun(env: Env, e: Entry): Store
    requires e.op.Call?
  {
    var r := Begin(env, e.before, e.op.auth, e.op.action.Body(), e.now);
    if r.Ok? then r.value else e.before
  }

  /** A committed call purged, recorded its nonce, and acted. */
  lemma CommitSpec(env: Env, e: Entry)
    requires IsStep(env, e) && Commits(e)
    ensures var auth, a, p := e.op.auth, e.op.action, Purge(e.before, e.now);
      && Precheck(env, auth.request.nodeId, a, e.now).None?
      && Act(env, Begun(env, e), auth, a, e.now) == Ok((e.after, e.answer.value))
      && Begun(env, e) == p.(nonces := p.nonces[(auth.request.nodeId, auth.request.nonce) := auth.request.issuedMs])
      && (auth.request.nodeId, auth.request.nonce) !in p.nonces
      && auth.request.Verifies(env.crypto, auth.descriptor, a.Body(), e.now)
      && IsAllowed(e.before, auth.request.nodeId)
  {
  }

  /** Anything else touches the tables only by purging them. */
  lemma OtherSpec(env: Env, e: Entry)
    requires IsStep(env, e) && !Commits(e)
    ensures e.after.mailbox == e.before.mailbox || e.after.mailbox == Purge(e.before, e.now).mailbox
    ensures e.after.settlements == e.before.settlements || e.after.settlements == Purge(e.before, e.now).settlements
    ensures e.after.nonces == e.before.nonces || e.after.nonces == Purge(e.before, e.now).nonces
  {
    hide Transact, IsNodeId, Purge;
  }

  // ----- Mail -----

  lemma BatchIsClaimable(mailbox: map<string, MailRow>, nodeId: string, a: Action, id: string)
    requires a.Claim? && a.limit >= 0 && id in BatchIds(mailbox, nodeId, a)
    ensures id in Claimable(mailbox, nodeId, a.uploader)
  {
    var all := SortBy(Created(mailbox), Claimable(mailbox, nodeId, a.uploader));
    assert id in Candidates(mailbox, nodeId, a.uploader, a.limit);
    assert id in all;
  }

  /** The packets a claim returns are exactly the batch it leases. */
  lemma ClaimedAreLeased(env: Env, s: Store, nodeId: string, a: Action, now: int, id: string)
    requires a.Claim? && a.limit >= 0
    ensures var batch := DoClaim(env, s, nodeId, a, now).value.1.batch;
      (exists i :: 0 <= i < |batch| && batch[i].packetId == id) <==> id in BatchIds(s.mailbox, nodeId, a)
  {
    var ids := BatchIds(s.mailbox, nodeId, a);
    var batch := Tickets(s.mailbox, ids, a.mint, now + a.leaseMs);
    forall i | 0 <= i < |ids| ensures batch[i].packetId == ids[i] {
    }
    if id in ids {
      var i :| 0 <= i < |ids| && ids[i] == id;
      assert batch[i].packetId == id;
    }
  }

  lemma ClaimOnMail(env: Env, s: Store, nodeId: string, a: Action, now: int, id: string)
    requires a.Claim? && a.limit >= 0 && id in s.mailbox
    ensures var s' := DoClaim(env, s, nodeId, a, now).value.0;
      && id in s'.mailbox
      && (if id in BatchIds(s.mailbox, nodeId, a) then
            && s.mailbox[id].tokenHash.None? && s.mailbox[id].destination == nodeId
            && s'.mailbox[id] == LeaseRow(env, s.mailbox[id], a.mint(id), now + a.leaseMs)
          else s'.mailbox[id] == s.mailbox[id])
  {
    if id in BatchIds(s.mailbox, nodeId, a) {
      BatchIsClaimable(s.mailbox, nodeId, a, id);
    }
  }

  lemma SettleOnMail(env: Env, s: Store, auth: Auth, a: Action, now: int, id: string)
    requires a.Settle? && id in s.mailbox && id !in s.settlements && DoSettle(env, s, auth, a, now).Ok?
    ensures var (s', r) := DoSettle(env, s, auth, a, now).value;
      if a.packetId == id && r == Flag(true) then
        && id !in s'.mailbox && id in s'.settlements
        && s'.settlements[id].expires == s.mailbox[id].expires
        && s'.settlements[id].rawSha256 == env.crypto.sha256(s.mailbox[id].raw)
        && s'.settlements[id].proof == ToDict(a.proof)
        && s'.settlements[id].uploader == s.mailbox[id].uploader && s'.settlements[id].acknowledgedMs == 0
        && auth.request.nodeId == s.mailbox[id].destination
        && HoldsLease(env, s.mailbox[id], a.token, now)
      else id in s'.mailbox && s'.mailbox[id] == s.mailbox[id]
  {
  }

  lemma OthersOnMail(env: Env, s: Store, auth: Auth, a: Action, now: int, id: string)
    requires !a.Claim? && !a.Settle? && id in s.mailbox
    requires Precheck(env, auth.request.nodeId, a, now).None? && Act(env, s, auth, a, now).Ok?
    ensures id in Act(env, s, auth, a, now).value.0.mailbox
    ensures Act(env, s, auth, a, now).value.0.mailbox[id] == s.mailbox[id]
  {
  }

  /** The row that the action of a committed call finds. */
  lemma BegunMail(env: Env, e: Entry, id: string)
    requires IsStep(env, e) && Commits(e) && Disjoint(e.before)
    requires id in e.before.mailbox && e.now < e.before.mailbox[id].expires
    ensures id in Begun(env, e).mailbox && id !in Begun(env, e).settlements
    ensures Begun(env, e).mailbox[id] == ExpireClaim(e.before.mailbox[id], e.now)
  {
    CommitSpec(env, e);
  }

  /** An unexpired packet is settled by its destination, under its live lease, and
      becomes a settlement of exactly its bytes. */
  lemma MailSettled(env: Env, e: Entry, id: string)
    requires IsStep(env, e) && Disjoint(e.before) && Settles(e, id)
    requires id in e.before.mailbox && e.now < e.before.mailbox[id].expires && WholeLease(e.before.mailbox[id])
    ensures id !in e.after.mailbox && id in e.after.settlements
    ensures e.after.settlements[id].expires == e.before.mailbox[id].expires
    ensures e.after.settlements[id].rawSha256 == env.crypto.sha256(e.before.mailbox[id].raw)
    ensures e.after.settlements[id].proof == ToDict(e.op.action.proof)
    ensures e.after.settlements[id].uploader == e.before.mailbox[id].uploader && e.after.settlements[id].acknowledgedMs == 0
    ensures Caller(e) == e.before.mailbox[id].destination
    ensures HoldsLease(env, e.before.mailbox[id], e.op.action.token, e.now)
  {
    BegunMail(env, e, id);
    CommitSpec(env, e);
    SettleOnMail(env, Begun(env, e), e.op.auth, e.op.action, e.now, id);
  }

  /** An unexpired packet is claimed by its destination when it has no live lease. */
  lemma MailClaimed(env: Env, e: Entry, id: string)
    requires IsStep(env, e) && Disjoint(e.before) && Claims(e, id)
    requires id in e.before.mailbox && e.now < e.before.mailbox[id].expires && WholeLease(e.before.mailbox[id])
    ensures !LiveLease(e.before.mailbox[id], e.now) && Caller(e) == e.before.mailbox[id].destination
    ensures id in e.after.mailbox
    ensures e.after.mailbox[id]
            == LeaseRow(env, Custodied(e.before.mailbox[id]), e.op.action.mint(id), e.now + e.op.action.leaseMs)
  {
    BegunMail(env, e, id);
    CommittedMailClaimed(env, e, id);
  }

  lemma CommittedMailClaimed(env: Env, e: Entry, id: string)
    requires IsStep(env, e) && Claims(e, id) && id in Begun(env, e).mailbox
    ensures id in e.after.mailbox
    ensures var row := Begun(env, e).mailbox[id];
      && row.tokenHash.None? && row.destination == Caller(e)
      && e.after.mailbox[id] == LeaseRow(env, row, e.op.action.mint(id), e.now + e.op.action.leaseMs)
  {
    hide IsStep, Begun, BatchIds;
    CommitSpec(env, e);
    ClaimedAreLeased(env, Begun(env, e), Caller(e), e.op.action, e.now, id);
    ClaimOnMail(env, Begun(env, e), Caller(e), e.op.action, e.now, id);
  }

  /** Otherwise, until it expires, a mailbox row at most loses a lease that ran out. */
  lemma MailKept(env: Env, e: Entry, id: string)
    requires IsStep(env, e) && Disjoint(e.before) && !Settles(e, id) && !Claims(e, id)
    requires id in e.before.mailbox && e.now < e.before.mailbox[id].expires
    ensures id in e.after.mailbox
    ensures e.after.mailbox[id] == e.before.mailbox[id] || e.after.mailbox[id] == ExpireClaim(e.before.mailbox[id], e.now)
  {
    if !Commits(e) {
      OtherSpec(env, e);
    } else {
      BegunMail(env, e, id);
      CommittedMailKept(env, e, id);
    }
  }

  lemma CommittedMailKept(env: Env, e: Entry, id: string)
    requires IsStep(env, e) && Commits(e) && !Settles(e, id) && !Claims(e, id)
    requires id in Begun(env, e).mailbox && id !in Begun(env, e).settlements
    ensures id in e.after.mailbox && e.after.mailbox[id] == Begun(env, e).mailbox[id]
  {
    CommitSpec(env, e);
    var begun, auth, a := Begun(env, e), e.op.auth, e.op.action;
    if a.Claim? {
      ClaimedAreLeased(env, begun, auth.request.nodeId, a, e.now, id);
      ClaimOnMail(env, begun, auth.request.nodeId, a, e.now, id);
    } else if a.Settle? {
      SettleOnMail(env, begun, auth, a, e.now, id);
    } else {
      OthersOnMail(env, begun, auth, a, e.now, id);
    }
  }

  /** What a claim needs: an unexpired packet of the caller without a live lease. */
  lemma ClaimNeeds(env: Env, e: Entry, id: string)
    requires IsStep(env, e) && Claims(e, id)
    ensures id in e.before.mailbox && e.now < e.before.mailbox[id].expires
    ensures e.op.action.leaseMs > 0
  {
    CommitSpec(env, e);
    ClaimedAreLeased(env, Begun(env, e), Caller(e), e.op.action, e.now, id);
    BatchIsClaimable(Begun(env, e).mailbox, Caller(e), e.op.action, id);
  }

  /** What a settlement needs: an unexpired packet. */
  lemma SettleNeeds(env: Env, e: Entry, id: string)
    requires IsStep(env, e) && Settles(e, id)
    ensures id in e.before.mailbox && e.now < e.before.mailbox[id].expires
    ensures IsHexId(id)
  {
    CommitSpec(env, e);
    SettledMailExists(env, Begun(env, e), e.op.auth, e.op.action, e.now);
  }

  lemma SettledMailExists(env: Env, s: Store, auth: Auth, a: Action, now: int)
    requires a.Settle? && DoSettle(env, s, auth, a, now).Ok? && DoSettle(env, s, auth, a, now).value.1 == Flag(true)
    ensures a.packetId in s.mailbox && a.proof.packetId == a.packetId && a.proof.ShapeOk()
  {
  }

  lemma SettledProofVerifies(env: Env, s: Store, auth: Auth, a: Action, now: int)
    requires a.Settle? && DoSettle(env, s, auth, a, now).Ok? && DoSettle(env, s, auth, a, now).value.1 == Flag(true)
    ensures a.proof.Verifies(env.crypto, auth.descriptor.signPublic, now) && a.proof.destinationId == auth.request.nodeId
  {
  }

  /** The proof of a settlement verified under the verified descriptor of its
      destination when it was presented. */
  lemma SettleVerified(env: Env, e: Entry, id: string)
    requires IsStep(env, e) && Settles(e, id)
    ensures var d, p := e.op.auth.descriptor, e.op.action.proof;
      d.Verifies(env.crypto, e.now) && p.destinationId == d.nodeId && p.Verifies(env.crypto, d.signPublic, e.now)
  {
    CommitSpec(env, e);
    SettledProofVerifies(env, Begun(env, e), e.op.auth, e.op.action, e.now);
  }

  /** Mail that was not there, or had expired, arrives without a lease. */
  lemma ArrivalStep(env: Env, e: Entry, id: string)
    requires IsStep(env, e) && id in e.after.mailbox
    requires id !in Purge(e.before, e.now).mailbox
    ensures e.after.mailbox == e.before.mailbox || e.after.mailbox[id].tokenHash.None?
  {
    if !Commits(e) {
      OtherSpec(env, e);
    } else {
      CommitSpec(env, e);
      if !e.op.action.Claim? {
        ActArrives(env, Begun(env, e), e.op.auth, e.op.action, e.now, id);
      }
    }
  }

  lemma ActArrives(env: Env, s: Store, auth: Auth, a: Action, now: int, id: string)
    requires !a.Claim? && id !in s.mailbox
    requires Precheck(env, auth.request.nodeId, a, now).None? && Act(env, s, auth, a, now).Ok?
    requires id in Act(env, s, auth, a, now).value.0.mailbox
    ensures Act(env, s, auth, a, now).value.0.mailbox[id].tokenHash.None?
  {
  }

  /** A step leaves a leased row leased as before, or claims it anew. */
  lemma LeaseStep(env: Env, e: Entry, id: string)
    requires IsStep(env, e) && Disjoint(e.before)
    requires id in e.before.mailbox ==> WholeLease(e.before.mailbox[id])
    requires id in e.after.mailbox && e.after.mailbox[id].tokenHash.Some?
    ensures if Claims(e, id) then
        && e.after.mailbox[id].tokenHash == Some(TokenHash(env, e.op.action.mint(id)))
        && e.after.mailbox[id].claimUntil == Some(e.now + e.op.action.leaseMs)
        && e.after.mailbox[id].destination == Caller(e)
      else id in e.before.mailbox && e.before.mailbox[id] == e.after.mailbox[id]
  {
    if Claims(e, id) {
      ClaimNeeds(env, e, id);
      MailClaimed(env, e, id);
    } else if id in e.before.mailbox && e.now < e.before.mailbox[id].expires && !Settles(e, id) {
      MailKept(env, e, id);
    } else if id in e.before.mailbox && e.now < e.before.mailbox[id].expires {
      MailSettled(env, e, id);
    } else {
      ArrivalStep(env, e, id);
    }
  }

  // ----- Settlements -----

  lemma AcknowledgeOnSettled(s: Store, nodeId: string, packetId: string, now: int, id: string)
    requires id in s.settlements && DoAcknowledge(s, nodeId, packetId, now).Ok?
    ensures var (s', r) := DoAcknowledge(s, nodeId, packetId, now).value;
      && id in s'.settlements && s'.mailbox == s.mailbox
      && (if packetId == id && r == Flag(true) then
            s.settlements[id].acknowledgedMs == 0 && s'.settlements[id] == s.settlements[id].(acknowledgedMs := now)
          else s'.settlements[id] == s.settlements[id])
  {
  }

  lemma SubmitOnSettled(env: Env, s: Store, uploader: string, info: Packet.PacketInfo, id: string)
    requires id in s.settlements && id !in s.mailbox && DoSubmit(env, s, uploader, info).Ok?
    ensures var s' := DoSubmit(env, s, uploader, info).value.0;
      id !in s'.mailbox && s'.settlements == s.settlements
  {
  }

  lemma SettleOnSettled(env: Env, s: Store, auth: Auth, a: Action, now: int, id: string)
    requires a.Settle? && id in s.settlements && id !in s.mailbox && DoSettle(env, s, auth, a, now).Ok?
    ensures var s' := DoSettle(env, s, auth, a, now).value.0;
      id in s'.settlements && id !in s'.mailbox && s'.settlements[id] == s.settlements[id]
  {
  }

  lemma OthersOnSettled(env: Env, s: Store, auth: Auth, a: Action, now: int)
    requires !a.Submit? && !a.Settle? && !a.Acknowledge?
    requires Precheck(env, auth.request.nodeId, a, now).None? && Act(env, s, auth, a, now).Ok?
    ensures Act(env, s, auth, a, now).value.0.settlements == s.settlements
    ensures Act(env, s, auth, a, now).value.0.mailbox.Keys == s.mailbox.Keys
  {
  }

  /** Until it expires, a settlement stays, keeps its packet out of the mailbox,
      and changes only by its one acknowledgement. */
  lemma SettledStep(env: Env, e: Entry, id: string)
    requires IsStep(env, e) && Disjoint(e.before)
    requires id in e.before.settlements && e.now < e.before.settlements[id].expires
    ensures id in e.after.settlements && id !in e.after.mailbox
    ensures if Acknowledges(e, id) then
        && e.before.settlements[id].acknowledgedMs == 0
        && e.after.settlements[id] == e.before.settlements[id].(acknowledgedMs := e.now)
      else e.after.settlements[id] == e.before.settlements[id]
  {
    assert id !in e.before.mailbox;
    if !Commits(e) {
      OtherSpec(env, e);
    } else {
      CommitSpec(env, e);
      var begun, auth, a := Begun(env, e), e.op.auth, e.op.action;
      assert begun.settlements[id] == e.before.settlements[id] && id !in begun.mailbox;
      if a.Acknowledge? {
        AcknowledgeOnSettled(begun, auth.request.nodeId, a.packetId, e.now, id);
      } else if a.Settle? {
        SettleOnSettled(env, begun, auth, a, e.now, id);
      } else if a.Submit? {
        SubmitOnSettled(env, begun, auth.request.nodeId, Packet.Inspect(env.wire, a.raw, a.wallMs).value, id);
      } else {
        OthersOnSettled(env, begun, auth, a, e.now);
      }
    }
  }

  lemma SettleInserts(env: Env, s: Store, auth: Auth, a: Action, now: int, id: string)
    requires a.Settle? && DoSettle(env, s, auth, a, now).Ok? && id in DoSettle(env, s, auth, a, now).value.0.settlements
    requires !(a.packetId == id && DoSettle(env, s, auth, a, now).value.1 == Flag(true))
    ensures id in s.settlements && DoSettle(env, s, auth, a, now).value.0.settlements[id] == s.settlements[id]
  {
  }

  lemma AcknowledgeKeepsProof(s: Store, nodeId: string, packetId: string, now: int, id: string)
    requires DoAcknowledge(s, nodeId, packetId, now).Ok? && id in DoAcknowledge(s, nodeId, packetId, now).value.0.settlements
    ensures id in s.settlements && DoAcknowledge(s, nodeId, packetId, now).value.0.settlements[id].proof == s.settlements[id].proof
  {
  }

  lemma SubmitKeepsSettlements(env: Env, s: Store, uploader: string, info: Packet.PacketInfo)
    requires DoSubmit(env, s, uploader, info).Ok?
    ensures DoSubmit(env, s, uploader, info).value.0.settlements == s.settlements
  {
  }

  /** Settlement rows come only from settles, and keep their proof. */
  lemma ProofStep(env: Env, e: Entry, id: string)
    requires IsStep(env, e) && id in e.after.settlements && !Settles(e, id)
    ensures id in e.before.settlements && e.after.settlements[id].proof == e.before.settlements[id].proof
  {
    if !Commits(e) {
      OtherSpec(env, e);
    } else {
      CommitSpec(env, e);
      var begun, auth, a := Begun(env, e), e.op.auth, e.op.action;
      if a.Acknowledge? {
        AcknowledgeKeepsProof(begun, auth.request.nodeId, a.packetId, e.now, id);
      } else if a.Settle? {
        SettleInserts(env, begun, auth, a, e.now, id);
      } else if a.Submit? {
        SubmitKeepsSettlements(env, begun, auth.request.nodeId, Packet.Inspect(env.wire, a.raw, a.wallMs).value);
      } else {
        OthersOnSettled(env, begun, auth, a, e.now);
      }
    }
  }

  /** What an acknowledgement needs: an unexpired settlement. */
  lemma AcknowledgeNeeds(env: Env, e: Entry, id: string)
    requires IsStep(env, e) && Acknowledges(e, id)
    ensures id in e.before.settlements && e.now < e.before.settlements[id].expires
    ensures e.before.settlements[id].uploader == Caller(e)
  {
    CommitSpec(env, e);
    assert id in Begun(env, e).settlements;
  }

  // ----- Arrivals -----

  lemma SubmitStores(env: Env, s: Store, uploader: string, info: Packet.PacketInfo)
    requires DoSubmit(env, s, uploader, info).Ok? && DoSubmit(env, s, uploader, info).value.1.stored
    ensures info.packetId !in s.mailbox && info.packetId !in s.settlements
    ensures DoSubmit(env, s, uploader, info).value.0.mailbox == s.mailbox[info.packetId := NewRow(info, uploader)]
  {
  }

  /** A stored packet was unknown and is now in the mailbox under the identity its
      bytes declare. */
  lemma StoreStep(env: Env, e: Entry, raw: Bytes)
    requires IsStep(env, e) && Stores(e, raw)
    ensures env.wire.unpackOuter(raw).Some?
    ensures var x := env.wire.unpackOuter(raw).value;
      && e.now < x.exp
      && x.id in e.after.mailbox && e.after.mailbox[x.id].raw == raw && e.after.mailbox[x.id].expires == x.exp
      && (x.id in e.before.mailbox ==> e.before.mailbox[x.id].expires <= e.now)
      && (x.id in e.before.settlements ==> e.before.settlements[x.id].expires <= e.now)
      && e.after.mailbox[x.id].uploader == Caller(e) && e.after.mailbox[x.id].destination == x.dst
      && IsAllowed(e.before, Caller(e)) && IsAllowed(e.before, x.dst)
  {
    CommitSpec(env, e);
    SubmitStores(env, Begun(env, e), Caller(e), Packet.Inspect(env.wire, raw, e.op.action.wallMs).value);
  }

  lemma SubmitRecognizes(env: Env, s: Store, uploader: string, info: Packet.PacketInfo)
    requires DoSubmit(env, s, uploader, info).Ok? && !DoSubmit(env, s, uploader, info).value.1.stored
    ensures DoSubmit(env, s, uploader, info).value.0 == s
    ensures var expires := DoSubmit(env, s, uploader, info).value.1.expiresMs;
      if info.packetId in s.mailbox then
        s.mailbox[info.packetId].raw == info.raw && s.mailbox[info.packetId].expires == expires
      else
        && info.packetId in s.settlements
        && s.settlements[info.packetId].rawSha256 == env.crypto.sha256(info.raw)
        && s.settlements[info.packetId].expires == expires
        && s.settlements[info.packetId].uploader == uploader
        && s.settlements[info.packetId].destination == info.destinationId
  {
  }

  /** A submission that stores nothing was of a packet the hub holds already: the
      very bytes, or those whose settlement it recorded for this uploader. */
  lemma ResubmitStep(env: Env, e: Entry)
    requires IsStep(env, e) && Commits(e) && e.op.action.Submit? && !Stores(e, e.op.action.raw)
    ensures e.after == Begun(env, e) && e.answer.value.Receipt?
    ensures env.wire.unpackOuter(e.op.action.raw).Some?
    ensures var raw, x, expires := e.op.action.raw, env.wire.unpackOuter(e.op.action.raw).value, e.answer.value.expiresMs;
      if x.id in e.after.mailbox then
        && x.id in e.before.mailbox
        && e.before.mailbox[x.id].raw == raw && e.before.mailbox[x.id].expires == expires
      else
        && x.id in e.before.settlements
        && e.before.settlements[x.id].rawSha256 == env.crypto.sha256(raw) && e.before.settlements[x.id].expires == expires
        && e.before.settlements[x.id].uploader == Caller(e) && e.before.settlements[x.id].destination == x.dst
  {
    CommitSpec(env, e);
    SubmitRecognizes(env, Begun(env, e), Caller(e), Packet.Inspect(env.wire, e.op.action.raw, e.op.action.wallMs).value);
  }

  // ----- Nonces -----

  lemma ActKeepsNonces(env: Env, s: Store, auth: Auth, a: Action, now: int)
    requires Precheck(env, auth.request.nodeId, a, now).None? && Act(env, s, auth, a, now).Ok?
    ensures Act(env, s, auth, a, now).value.0.nonces == s.nonces
  {
  }

  lemma NonceStep(env: Env, e: Entry, key: (string, string))
    requires IsStep(env, e) && key in e.before.nonces && e.now - NONCE_RETENTION_MS <= e.before.nonces[key]
    ensures key in e.after.nonces && e.after.nonces[key] == e.before.nonces[key]
  {
    if !Commits(e) {
      OtherSpec(env, e);
    } else {
      CommitSpec(env, e);
      ActKeepsNonces(env, Begun(env, e), e.op.auth, e.op.action, e.now);
    }
  }

  /** A committed request was fresh, timely, and is now on record. */
  lemma CommitRecordsNonce(env: Env, e: Entry)
    requires IsStep(env, e) && Commits(e)
    ensures var r := e.op.auth.request;
      && (r.nodeId, r.nonce) in e.after.nonces && e.after.nonces[(r.nodeId, r.nonce)] == r.issuedMs
      && (r.nodeId, r.nonce) !in Purge(e.before, e.now).nonces
      && -REQUEST_SKEW_MS <= e.now - r.issuedMs <= REQUEST_SKEW_MS
  {
    CommitSpec(env, e);
    ActKeepsNonces(env, Begun(env, e), e.op.auth, e.op.action, e.now);
  }

  lemma ActKeepsAllow(env: Env, s: Store, auth: Auth, a: Action, now: int)
    requires Precheck(env, auth.request.nodeId, a, now).None? && Act(env, s, auth, a, now).Ok?
    ensures Act(env, s, auth, a, now).value.0.allow == s.allow
  {
  }

  /** A committed call leaves the allowlist alone and records no nonce but its own. */
  lemma CommitAddsNonce(env: Env, e: Entry)
    requires IsStep(env, e) && Commits(e)
    ensures e.after.allow == e.before.allow
    ensures e.after.nonces.Keys <= e.before.nonces.Keys + {(Caller(e), e.op.auth.request.nonce)}
  {
    CommitSpec(env, e);
    ActKeepsNonces(env, Begun(env, e), e.op.auth, e.op.action, e.now);
    ActKeepsAllow(env, Begun(env, e), e.op.auth, e.op.action, e.now);
  }

  // ----- What a commit leaves -----

  lemma ActBringsNothingExpired(env: Env, s: Store, auth: Auth, a: Action, now: int)
    requires Precheck(env, auth.request.nodeId, a, now).None? && Act(env, s, auth, a, now).Ok?
    ensures var s' := Act(env, s, auth, a, now).value.0;
      && (forall k :: k in s'.mailbox ==>
            (k in s.mailbox && s'.mailbox[k].expires == s.mailbox[k].expires) || s'.mailbox[k].expires > now)
      && (forall k :: k in s'.settlements ==>
            || (k in s.settlements && s'.settlements[k].expires == s.settlements[k].expires)
            || (k in s.mailbox && s'.settlements[k].expires == s.mailbox[k].expires))
      && (forall k :: k in s'.relays ==>
            (k in s.relays && s'.relays[k].expires == s.relays[k].expires) || s'.relays[k].expires > now)
  {
    match a
    case Submit(raw, wallMs) =>
      hide Packet.Inspect, DoSubmit;
      SubmitBringsLive(env, s, auth.request.nodeId, raw, wallMs, now);
    case Claim(_, _, _, _, _, _) => hide BatchIds, Tickets, LeaseRow;
    case Settle(_, _, _, _) => hide ToDict, DestinationSettlement.Verifies, HoldsLease, ProofMatches;
    case ReserveRelay(_, _, _, _, _, _) => hide RelayId, Reservation.Valid, RelaysOf;
    case _ => hide Listed, BatchIds, DoReserve, DoSettle, DoClaim, DoSubmit, Traverse;
  }

  lemma SubmitBringsLive(env: Env, s: Store, uploader: string, raw: Bytes, wallMs: int, now: int)
    requires Packet.Inspect(env.wire, raw, wallMs).Ok? && Packet.Inspect(env.wire, raw, wallMs).value.expiresMs > now
    requires DoSubmit(env, s, uploader, Packet.Inspect(env.wire, raw, wallMs).value).Ok?
    ensures var s' := DoSubmit(env, s, uploader, Packet.Inspect(env.wire, raw, wallMs).value).value.0;
      && s'.settlements == s.settlements && s'.relays == s.relays
      && forall k :: k in s'.mailbox ==>
           (k in s.mailbox && s'.mailbox[k].expires == s.mailbox[k].expires) || s'.mailbox[k].expires > now
  {
    hide Packet.Inspect, WithinQuota;
  }

  /** No table keeps anything expired across a committed call. */
  lemma CommitPurges(env: Env, e: Entry)
    requires IsStep(env, e) && Commits(e)
    ensures forall k :: k in e.after.mailbox ==> e.after.mailbox[k].expires > e.now
    ensures forall k :: k in e.after.settlements ==> e.after.settlements[k].expires > e.now
    ensures forall k :: k in e.after.relays ==> e.after.relays[k].expires > e.now
    ensures forall k :: k in e.after.nonces ==> e.after.nonces[k] >= e.now - NONCE_RETENTION_MS
  {
    CommitSpec(env, e);
    var s := Begun(env, e);
    hide IsStep, Begun, Act;
    ActKeepsNonces(env, s, e.op.auth, e.op.action, e.now);
    ActBringsNothingExpired(env, s, e.op.auth, e.op.action, e.now);
  }

  ghost predicate IsKept(relays: map<string, Reservation>, r: Reservation) {
    exists k :: k in relays && relays[k] == r
  }

  lemma ActReserves(env: Env, s: Store, auth: Auth, a: Action, now: int)
    requires Precheck(env, auth.request.nodeId, a, now).None? && Act(env, s, auth, a, now).Ok?
    requires Act(env, s, auth, a, now).value.1.Reserved?
    ensures var (s', r) := (Act(env, s, auth, a, now).value.0, Act(env, s, auth, a, now).value.1.reservation);
      && IsKept(s'.relays, r)
      && (auth.request.nodeId == r.owner || auth.request.nodeId == r.peer)
      && (a.ReserveRelay? ==> r.Valid() && r.expires == now + a.ttlMs && r.owner == auth.request.nodeId && r.peer == a.peer)
  {
    hide BatchIds, Tickets, Listed;
    var node, s', r := auth.request.nodeId, Act(env, s, auth, a, now).value.0, Act(env, s, auth, a, now).value.1.reservation;
    if a.ReserveRelay? {
      var existing := RelayId(s.relays, node, a.peer);
      var id := if existing.Some? then existing.value else a.freshId;
      assert id in s'.relays && s'.relays[id] == r;
    } else if a.AuthorizeRelay? {
      assert a.reservationId in s'.relays && s'.relays[a.reservationId] == r;
    } else if a.FindRelay? {
      var id := RelayId(s.relays, a.owner, node).value;
      assert id in s'.relays && s'.relays[id] == r;
    }
  }

  /** A reservation is handed only to its owner or its peer, and is stored and
      unexpired when it is. */
  lemma ReservedToParties(env: Env, e: Entry)
    requires IsStep(env, e) && Commits(e) && e.answer.value.Reserved?
    ensures var r := e.answer.value.reservation;
      && IsKept(e.after.relays, r)
      && (Caller(e) == r.owner || Caller(e) == r.peer)
      && r.expires > e.now
  {
    CommitSpec(env, e);
    CommitPurges(env, e);
    var s := Begun(env, e);
    hide IsStep, Begun, Act;
    ActReserves(env, s, e.op.auth, e.op.action, e.now);
  }
}
