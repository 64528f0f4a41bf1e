/** The hub's database object.  Every public method is one transaction: it works
    on the tables in place and, when anything fails, puts them back. */
module CustodyStore {
  import opened Basics
  import opened Settlement
  import opened Ordered
  import opened Custody
  import opened CustodySteps
  import Packet

  class AhubStore {
    const env: Env
    var allow: map<string, AllowRow>
    var nonces: map<(string, string), int>
    var mailbox: map<string, MailRow>
    var settlements: map<string, SettledRow>
    var relays: map<string, Reservation>

    constructor (env: Env)
      ensures this.env == env && Tables() == EMPTY
    {
      this.env := env;
      allow, nonces, mailbox, settlements, relays := map[], map[], map[], map[], map[];
    }

    function Tables(): Store
      reads this
    {
      Store(allow, nonces, mailbox, settlements, relays)
    }

    /** The step from tables `before` to the present ones, answered with `r`. */
    ghost predicate Took(before: Store, op: Op, now: int, r: Result<Reply>)
      reads this
    {
      IsStep(env, Entry(before, op, now, Tables(), r))
    }

    method Rollback(saved: Store)
      modifies this
      ensures Tables() == saved
    {
      allow, nonces, mailbox, settlements, relays := saved.allow, saved.nonces, saved.mailbox, saved.settlements, saved.relays;
    }

    // ----- The allowlist -----

    method AllowNode(nodeId: string, now: int) returns (r: Result<Reply>)
      modifies this
      ensures Took(old(Tables()), Op.AllowNode(nodeId), now, r)
    {
      if !IsNodeId(nodeId) {
        return Err(ValueError);
      }
      if nodeId in allow && allow[nodeId].enabled {
        return Ok(Flag(false));
      }
      var row := if nodeId in allow then allow[nodeId].(enabled := true, disabledMs := None) else AllowRow(now, true, None);
      allow := allow[nodeId := row];
      return Ok(Flag(true));
    }

    method DisallowNode(nodeId: string, now: int) returns (r: Result<Reply>)
      modifies this
      ensures Took(old(Tables()), Op.DisallowNode(nodeId), now, r)
    {
      if !IsNodeId(nodeId) {
        return Err(ValueError);
      }
      if nodeId !in allow || !allow[nodeId].enabled {
        return Ok(Flag(false));
      }
      allow := allow[nodeId := allow[nodeId].(enabled := false, disabledMs := Some(now))];
      return Ok(Flag(true));
    }

    // ----- Purging and authentication -----

    method PurgeTables(now: int)
      modifies this
      ensures Tables() == Custody.Purge(old(Tables()), now)
    {
      mailbox := map k | k in mailbox && mailbox[k].expires > now :: mailbox[k];
      nonces := map k | k in nonces && nonces[k] >= now - NONCE_RETENTION_MS :: nonces[k];
      mailbox := map k | k in mailbox :: ExpireClaim(mailbox[k], now);
      settlements := map k | k in settlements && settlements[k].expires > now :: settlements[k];
      relays := map k | k in relays && relays[k].expires > now :: relays[k];
    }

    method Purge(now: int) returns (r: Result<Reply>)
      modifies this
      ensures Took(old(Tables()), PurgeNow, now, r)
    {
      PurgeTables(now);
      return Ok(Done);
    }

    method ConsumeRequest(auth: Auth, body: Bytes, now: int) returns (r: Result<()>)
      modifies this
      ensures var spec := Custody.ConsumeRequest(env, old(Tables()), auth, body, now);
        if r.Ok? then spec == Ok(Tables()) else spec == Err(r.error) && Tables() == old(Tables())
    {
      if !auth.request.Verifies(env.crypto, auth.descriptor, body, now) {
        return Err(ValueError);
      }
      if auth.request.nodeId !in allow || !allow[auth.request.nodeId].enabled {
        return Err(PermissionError);
      }
      var key := (auth.request.nodeId, auth.request.nonce);
      if key in nonces {
        return Err(PermissionError);
      }
      nonces := nonces[key := auth.request.issuedMs];
      return Ok(());
    }

    /** What every authenticated transaction does first. */
    method Enter(auth: Auth, body: Bytes, now: int) returns (r: Result<()>)
      modifies this
      ensures var spec := Begin(env, old(Tables()), auth, body, now);
        if r.Ok? then spec == Ok(Tables()) else spec == Err(r.error)
    {
      PurgeTables(now);
      r := ConsumeRequest(auth, body, now);
    }

    method Authenticate(auth: Auth, body: Bytes, now: int) returns (r: Result<Reply>)
      modifies this
      ensures Took(old(Tables()), Call(auth, Action.Authenticate(body)), now, r)
    {
      var saved := Tables();
      var entered := Enter(auth, body, now);
      if entered.Err? {
        Rollback(saved);
        return Err(entered.error);
      }
      return Ok(Done);
    }

    // ----- Submit -----

    method Submit(auth: Auth, raw: Bytes, wallMs: int, now: int) returns (r: Result<Reply>)
      modifies this
      ensures Took(old(Tables()), Call(auth, Action.Submit(raw, wallMs)), now, r)
    {
      var packet := Packet.Inspect(env.wire, raw, wallMs);
      if packet.Err? || packet.value.expiresMs <= now || |raw| > env.limits.maxPacketBytes {
        return Err(ValueError);
      }
      var saved := Tables();
      var entered := Enter(auth, raw, now);
      if entered.Err? {
        Rollback(saved);
        return Err(entered.error);
      }
      r := Deposit(packet.value, auth.request.nodeId);
      if r.Err? {
        Rollback(saved);
      }
    }

    method Deposit(packet: Packet.PacketInfo, uploader: string) returns (r: Result<Reply>)
      modifies this
      ensures var spec := DoSubmit(env, old(Tables()), uploader, packet);
        if r.Ok? then spec == Ok((Tables(), r.value)) else spec == Err(r.error)
    {
      var id := packet.packetId;
      if packet.destinationId !in allow || !allow[packet.destinationId].enabled {
        return Err(PermissionError);
      }
      if id in mailbox {
        if mailbox[id].raw != packet.raw {
          return Err(ValueError);
        }
        return Ok(Receipt(id, mailbox[id].destination, false, mailbox[id].expires));
      }
      if id in settlements {
        var settled := settlements[id];
        if settled.destination != packet.destinationId || settled.uploader != uploader
           || settled.rawSha256 != env.crypto.sha256(packet.raw)
        {
          return Err(ValueError);
        }
        return Ok(Receipt(id, packet.destinationId, false, settled.expires));
      }
      if !WithinQuota(env.limits, mailbox, packet, uploader) {
        return Err(OverflowError);
      }
      if packet.raw == [] {
        return Err(IntegrityError);
      }
      mailbox := mailbox[id := NewRow(packet, uploader)];
      return Ok(Receipt(id, packet.destinationId, true, packet.expiresMs));
    }

    // ----- Claim -----

    method Claim(auth: Auth, a: Action, now: int) returns (r: Result<Reply>)
      requires a.Claim?
      modifies this
      ensures Took(old(Tables()), Call(auth, a), now, r)
    {
      hide DoClaim;
      if Precheck(env, auth.request.nodeId, a, now).Some? {
        return Err(ValueError);
      }
      var saved := Tables();
      var entered := Enter(auth, a.body, now);
      if entered.Err? {
        Rollback(saved);
        return Err(entered.error);
      }
      var batch := LeaseBatch(auth.request.nodeId, a, now);
      return Ok(Claimed(batch));
    }

    /** Walks the oldest unclaimed rows and leases each that fits the budget. */
    method LeaseBatch(nodeId: string, a: Action, now: int) returns (batch: seq<ClaimedPacket>)
      requires a.Claim? && a.limit >= 0
      modifies this`mailbox
      ensures DoClaim(env, old(Tables()), nodeId, a, now) == Ok((old(Tables()).(mailbox := mailbox), Claimed(batch)))
    {
      ghost var before := Tables();
      var rows := Candidates(mailbox, nodeId, a.uploader, a.limit);
      var until, claimedBytes := now + a.leaseMs, 0;
      batch := [];
      ghost var walk := Walk(env, mailbox, rows, a, until);
      ghost var done := Progress([], 0, mailbox, []);
      LeasingStarts(walk, nodeId);
      hide *;
      for i := 0 to |rows|
        invariant Leasing(walk, i, done)
        invariant done.used == claimedBytes && done.leased == mailbox && done.batch == batch
      {
        var id := rows[i];
        LeasingFinds(walk, i, done);
        if a.maxBytes.None? || claimedBytes + mailbox[id].size <= a.maxBytes.value {
          done := LeasingTakes(walk, i, done);
          claimedBytes := claimedBytes + mailbox[id].size;
          var ticket := TakeLease(id, a.mint(id), until);
          batch := batch + [ticket];
        } else {
          LeasingSkips(walk, i, done);
        }
      }
      LeasingEnds(walk, before, nodeId, now, done);
    }

    /** Reads the packet of an unclaimed row and puts the row under its lease. */
    method TakeLease(id: string, token: string, until: int) returns (ticket: ClaimedPacket)
      requires id in mailbox
      modifies this`mailbox
      ensures mailbox == old(mailbox)[id := LeaseRow(env, old(mailbox)[id], token, until)]
      ensures ticket == Ticket(old(mailbox), id, token, until)
    {
      var row := mailbox[id];
      mailbox := mailbox[id := row.(tokenHash := Some(TokenHash(env, token)), claimUntil := Some(until))];
      ticket := ClaimedPacket(id, row.raw, row.depth, token, until, row.uploader, row.expires);
    }

    // ----- Settle -----

    method Settle(auth: Auth, a: Action, now: int) returns (r: Result<Reply>)
      requires a.Settle?
      modifies this
      ensures Took(old(Tables()), Call(auth, a), now, r)
    {
      hide DoSettle;
      if !IsAscii(a.token) {
        return Err(ValueError);
      }
      var saved := Tables();
      var entered := Enter(auth, a.body, now);
      if entered.Err? {
        Rollback(saved);
        return Err(entered.error);
      }
      r := MoveToSettlements(auth, a, now);
      if r.Err? {
        Rollback(saved);
      }
    }

    method MoveToSettlements(auth: Auth, a: Action, now: int) returns (r: Result<Reply>)
      requires a.Settle?
      modifies this
      ensures var spec := DoSettle(env, old(Tables()), auth, a, now);
        if r.Ok? then spec == Ok((Tables(), r.value)) else spec == Err(r.error)
    {
      if a.packetId !in mailbox {
        return Ok(Flag(false));
      }
      var row := mailbox[a.packetId];
      if row.destination != auth.request.nodeId {
        return Err(PermissionError);
      }
      if !HoldsLease(env, row, a.token, now) {
        return Err(PermissionError);
      }
      if !a.proof.Verifies(env.crypto, auth.descriptor.signPublic, now) {
        return Err(ValueError);
      }
      if !ProofMatches(env, a.proof, a.packetId, auth.request.nodeId, row) {
        return Err(ValueError);
      }
      if a.packetId !in settlements {
        settlements := settlements[a.packetId := SettledRow(row.destination, row.uploader, env.crypto.sha256(row.raw),
                                                            a.proof.settledMs, row.expires, ToDict(a.proof), 0)];
      }
      mailbox := mailbox - {a.packetId};
      return Ok(Flag(true));
    }

    // ----- Settlement listing and acknowledgement -----

    method ListSettlements(auth: Auth, a: Action, now: int) returns (r: Result<Reply>)
      requires a.Settlements?
      modifies this
      ensures Took(old(Tables()), Call(auth, a), now, r)
    {
      hide FromDict;
      if Precheck(env, auth.request.nodeId, a, now).Some? {
        return Err(ValueError);
      }
      var saved := Tables();
      var entered := Enter(auth, a.body, now);
      if entered.Err? {
        Rollback(saved);
        return Err(entered.error);
      }
      var rows := Listed(settlements, auth.request.nodeId, a.destination, a.limit);
      var proofs := Traverse(FromDict, StoredProofs(settlements, rows));
      if proofs.Err? {
        Rollback(saved);
        return Err(proofs.error);
      }
      return Ok(Proofs(proofs.value));
    }

    method AcknowledgeSettlement(auth: Auth, body: Bytes, packetId: string, now: int) returns (r: Result<Reply>)
      modifies this
      ensures Took(old(Tables()), Call(auth, Acknowledge(body, packetId)), now, r)
    {
      if !IsHexId(packetId) {
        return Err(ValueError);
      }
      var saved := Tables();
      var entered := Enter(auth, body, now);
      if entered.Err? {
        Rollback(saved);
        return Err(entered.error);
      }
      if packetId !in settlements {
        return Ok(Flag(false));
      }
      var row := settlements[packetId];
      if row.uploader != auth.request.nodeId {
        Rollback(saved);
        return Err(PermissionError);
      }
      var changed := row.acknowledgedMs == 0;
      if changed {
        settlements := settlements[packetId := row.(acknowledgedMs := now)];
      }
      return Ok(Flag(changed));
    }

    // ----- Relay reservations -----

    method ReserveRelay(auth: Auth, a: Action, now: int) returns (r: Result<Reply>)
      requires a.ReserveRelay?
      modifies this
      ensures Took(old(Tables()), Call(auth, a), now, r)
    {
      hide DoReserve;
      if Precheck(env, auth.request.nodeId, a, now).Some? {
        return Err(ValueError);
      }
      var saved := Tables();
      var entered := Enter(auth, a.body, now);
      if entered.Err? {
        Rollback(saved);
        return Err(entered.error);
      }
      r := RenewOrInsert(auth.request.nodeId, a, now);
      if r.Err? {
        Rollback(saved);
      }
    }

    method RenewOrInsert(nodeId: string, a: Action, now: int) returns (r: Result<Reply>)
      requires a.ReserveRelay?
      modifies this
      ensures var spec := DoReserve(env, old(Tables()), nodeId, a, now);
        if r.Ok? then spec == Ok((Tables(), r.value)) else spec == Err(r.error)
    {
      if a.peer !in allow || !allow[a.peer].enabled {
        return Err(PermissionError);
      }
      var existing := RelayId(relays, nodeId, a.peer);
      var id := a.freshId;
      if existing.None? {
        if |RelaysOf(relays, nodeId)| >= env.limits.maxRelaysPerNode {
          return Err(OverflowError);
        }
        if id in relays || now + a.ttlMs <= now {
          return Err(IntegrityError);
        }
        relays := relays[id := Reservation(id, nodeId, a.peer, now, now + a.ttlMs, a.maxDurationMs, a.relayBytes)];
      } else {
        id := existing.value;
        if now + a.ttlMs <= relays[id].createdMs {
          return Err(IntegrityError);
        }
        relays := relays[id := relays[id].(expires := now + a.ttlMs, maxDurationMs := a.maxDurationMs, maxBytes := a.relayBytes)];
      }
      var result := relays[id];
      if !result.Valid() {
        return Err(ValueError);
      }
      return Ok(Reserved(result));
    }

    method AuthorizeRelay(auth: Auth, body: Bytes, reservationId: string, now: int) returns (r: Result<Reply>)
      modifies this
      ensures Took(old(Tables()), Call(auth, Action.AuthorizeRelay(body, reservationId)), now, r)
    {
      if !IsHexId(reservationId) {
        return Err(ValueError);
      }
      var saved := Tables();
      var entered := Enter(auth, body, now);
      if entered.Err? {
        Rollback(saved);
        return Err(entered.error);
      }
      if reservationId !in relays {
        Rollback(saved);
        return Err(LookupError);
      }
      var result := relays[reservationId];
      if auth.request.nodeId != result.owner && auth.request.nodeId != result.peer {
        Rollback(saved);
        return Err(PermissionError);
      }
      return Ok(Reserved(result));
    }

    method FindRelay(auth: Auth, body: Bytes, owner: string, now: int) returns (r: Result<Reply>)
      modifies this
      ensures Took(old(Tables()), Call(auth, Action.FindRelay(body, owner)), now, r)
    {
      if !IsNodeId(owner) {
        return Err(ValueError);
      }
      var saved := Tables();
      var entered := Enter(auth, body, now);
      if entered.Err? {
        Rollback(saved);
        return Err(entered.error);
      }
      if owner !in allow || !allow[owner].enabled {
        Rollback(saved);
        return Err(PermissionError);
      }
      var found := RelayId(relays, owner, auth.request.nodeId);
      if found.None? {
        Rollback(saved);
        return Err(LookupError);
      }
      return Ok(Reserved(relays[found.value]));
    }
  }

  // ----- The claim loop -----

  /** What the loop works with: the mailbox it found and the rows it walks. */
  datatype Walk = Walk(env: Env, mailbox: map<string, MailRow>, rows: seq<string>, a: Action, until: int)

  /** What it has done so far. */
  datatype Progress = Progress(taken: seq<string>, used: int, leased: map<string, MailRow>, batch: seq<ClaimedPacket>)

  /** After `i` rows, the rows still to come complete the batch. */
  ghost predicate Leasing(w: Walk, i: nat, p: Progress) {
    && w.a.Claim?
    && Ahead(w.mailbox, w.rows, i, p.taken)
    && p.leased == LeaseAll(w.env, w.mailbox, p.taken, w.a.mint, w.until)
    && p.batch == Tickets(w.mailbox, p.taken, w.a.mint, w.until)
    && Chosen(Sizes(w.mailbox), w.rows, 0, w.a.maxBytes)
       == p.taken + Chosen(Sizes(w.mailbox), w.rows[i..], p.used, w.a.maxBytes)
  }

  /** The rows from `i` on are distinct, unclaimed and not yet taken. */
  ghost predicate Ahead(m: map<string, MailRow>, rows: seq<string>, i: nat, taken: seq<string>)
    ensures Ahead(m, rows, i, taken) ==>
      && i <= |rows| && (forall k :: k in taken ==> k in m)
      && (forall k :: k in rows ==> k in Sizes(m)) && (forall k :: k in rows[i..] ==> k in Sizes(m))
  {
    && i <= |rows|
    && (forall k :: k in taken ==> k in m)
    && (forall k :: k in rows ==> k in m && m[k].tokenHash.None?)
    && (forall j :: i <= j < |rows| ==> rows[j] !in taken)
    && (forall j, k :: 0 <= j < k < |rows| ==> rows[j] != rows[k])
  }

  lemma AheadMoves(m: map<string, MailRow>, rows: seq<string>, i: nat, taken: seq<string>)
    requires Ahead(m, rows, i, taken) && i < |rows|
    ensures Ahead(m, rows, i + 1, taken) && Ahead(m, rows, i + 1, taken + [rows[i]])
    ensures rows[i] in m && m[rows[i]].tokenHash.None? && rows[i] !in taken
  {
    assert rows[i] in rows;
  }

  lemma LeasingStarts(w: Walk, nodeId: string)
    requires w.a.Claim? && w.a.limit >= 0 && w.rows == Candidates(w.mailbox, nodeId, w.a.uploader, w.a.limit)
    ensures Leasing(w, 0, Progress([], 0, w.mailbox, []))
  {
    RowsAreFree(w.mailbox, nodeId, w.a);
    hide Candidates, Chosen;
    assert w.rows[0..] == w.rows;
    assert [] + Chosen(Sizes(w.mailbox), w.rows, 0, w.a.maxBytes) == Chosen(Sizes(w.mailbox), w.rows, 0, w.a.maxBytes);
  }

  /** The row at hand is there and unclaimed, so the update's own check for an
      unclaimed row always passes. */
  lemma LeasingFinds(w: Walk, i: nat, p: Progress)
    requires Leasing(w, i, p) && i < |w.rows|
    ensures var id := w.rows[i]; id in p.leased && id in w.mailbox && p.leased[id] == w.mailbox[id] && p.leased[id].tokenHash.None?
  {
    AheadMoves(w.mailbox, w.rows, i, p.taken);
    hide Chosen, Tickets, Ahead;
  }

  lemma ChosenStep(size: map<string, int>, rows: seq<string>, i: nat, used: int, max: Option<int>)
    requires i < |rows| && forall k :: k in rows[i..] ==> k in size
    ensures rows[i] in size && forall k :: k in rows[i + 1..] ==> k in size
    ensures Chosen(size, rows[i..], used, max)
            == if max.Some? && used + size[rows[i]] > max.value then Chosen(size, rows[i + 1..], used, max)
               else [rows[i]] + Chosen(size, rows[i + 1..], used + size[rows[i]], max)
  {
    assert rows[i..][0] == rows[i] && rows[i..][1..] == rows[i + 1..];
    assert rows[i] in rows[i..] && forall k :: k in rows[i + 1..] ==> k in rows[i..];
  }

  lemma LeasingSkips(w: Walk, i: nat, p: Progress)
    requires Leasing(w, i, p) && i < |w.rows| && w.rows[i] in w.mailbox
    requires w.a.maxBytes.Some? && p.used + w.mailbox[w.rows[i]].size > w.a.maxBytes.value
    ensures Leasing(w, i + 1, p)
  {
    AheadMoves(w.mailbox, w.rows, i, p.taken);
    ChosenStep(Sizes(w.mailbox), w.rows, i, p.used, w.a.maxBytes);
    hide Chosen, Tickets, LeaseAll, Ahead;
  }

  lemma TicketsAppend(m: map<string, MailRow>, taken: seq<string>, id: string, mint: string -> string, until: int)
    requires id in m && forall k :: k in taken ==> k in m
    ensures forall k :: k in taken + [id] ==> k in m
    ensures Tickets(m, taken + [id], mint, until) == Tickets(m, taken, mint, until) + [Ticket(m, id, mint(id), until)]
  {
  }

  lemma LeaseOneMore(env: Env, m: map<string, MailRow>, taken: seq<string>, id: string, mint: string -> string, until: int)
    requires id in m && id !in taken
    ensures LeaseAll(env, m, taken + [id], mint, until)
            == LeaseAll(env, m, taken, mint, until)[id := LeaseRow(env, m[id], mint(id), until)]
  {
  }

  lemma ChosenTakes(w: Walk, i: nat, p: Progress)
    requires Leasing(w, i, p) && i < |w.rows| && w.rows[i] in w.mailbox
    requires w.a.maxBytes.None? || p.used + w.mailbox[w.rows[i]].size <= w.a.maxBytes.value
    ensures forall k :: k in w.rows ==> k in Sizes(w.mailbox)
    ensures forall k :: k in w.rows[i + 1..] ==> k in Sizes(w.mailbox)
    ensures Chosen(Sizes(w.mailbox), w.rows, 0, w.a.maxBytes)
            == p.taken + [w.rows[i]]
               + Chosen(Sizes(w.mailbox), w.rows[i + 1..], p.used + w.mailbox[w.rows[i]].size, w.a.maxBytes)
  {
    hide Chosen, Tickets, LeaseAll, Ahead;
    ChosenStep(Sizes(w.mailbox), w.rows, i, p.used, w.a.maxBytes);
    var rest := Chosen(Sizes(w.mailbox), w.rows[i + 1..], p.used + w.mailbox[w.rows[i]].size, w.a.maxBytes);
    assert p.taken + ([w.rows[i]] + rest) == p.taken + [w.rows[i]] + rest;
  }

  lemma LeasingTakes(w: Walk, i: nat, p: Progress) returns (q: Progress)
    requires Leasing(w, i, p) && i < |w.rows| && w.rows[i] in w.mailbox
    requires w.a.maxBytes.None? || p.used + w.mailbox[w.rows[i]].size <= w.a.maxBytes.value
    ensures w.rows[i] in p.leased && p.leased[w.rows[i]] == w.mailbox[w.rows[i]]
    ensures var id := w.rows[i];
      && q.used == p.used + w.mailbox[id].size
      && q.leased == p.leased[id := LeaseRow(w.env, w.mailbox[id], w.a.mint(id), w.until)]
      && q.batch == p.batch + [Ticket(p.leased, id, w.a.mint(id), w.until)]
    ensures Leasing(w, i + 1, q)
  {
    var id := w.rows[i];
    LeasingFinds(w, i, p);
    ChosenTakes(w, i, p);
    AheadMoves(w.mailbox, w.rows, i, p.taken);
    TicketsAppend(w.mailbox, p.taken, id, w.a.mint, w.until);
    LeaseOneMore(w.env, w.mailbox, p.taken, id, w.a.mint, w.until);
    assert Ticket(p.leased, id, w.a.mint(id), w.until) == Ticket(w.mailbox, id, w.a.mint(id), w.until);
    hide Chosen, Tickets, Ticket, LeaseAll, LeaseRow, Ahead;
    q := Progress(p.taken + [id], p.used + w.mailbox[id].size,
                  p.leased[id := LeaseRow(w.env, w.mailbox[id], w.a.mint(id), w.until)],
                  p.batch + [Ticket(p.leased, id, w.a.mint(id), w.until)]);
  }

  lemma LeasingEnds(w: Walk, s: Store, nodeId: string, now: int, p: Progress)
    requires w.a.Claim? && w.a.limit >= 0 && w.mailbox == s.mailbox && w.until == now + w.a.leaseMs
    requires w.rows == Candidates(s.mailbox, nodeId, w.a.uploader, w.a.limit) && Leasing(w, |w.rows|, p)
    ensures DoClaim(w.env, s, nodeId, w.a, now) == Ok((s.(mailbox := p.leased), Claimed(p.batch)))
  {
    assert w.rows[|w.rows|..] == [] && Chosen(Sizes(s.mailbox), [], p.used, w.a.maxBytes) == [];
    assert p.taken + [] == p.taken;
    hide Chosen, Candidates, Tickets, LeaseAll;
  }

  lemma RowsAreFree(m: map<string, MailRow>, nodeId: string, a: Action)
    requires a.Claim? && a.limit >= 0
    ensures var rows := Candidates(m, nodeId, a.uploader, a.limit);
      && (forall k :: k in rows ==> k in m && m[k].tokenHash.None?)
      && (forall i, j :: 0 <= i < j < |rows| ==> rows[i] != rows[j])
  {
    var all := Claimable(m, nodeId, a.uploader);
    var sorted := SortBy(Created(m), all);
    SortBySorts(Created(m), all);
    SortedIsDistinct(Created(m), sorted);
    var rows := Candidates(m, nodeId, a.uploader, a.limit);
    assert forall k :: k in rows ==> k in sorted;
    assert forall i :: 0 <= i < |rows| ==> rows[i] == sorted[i];
  }
}
